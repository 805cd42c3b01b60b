/** backend/users/models.py: a player's profile holds XP and a level that
    rises by one for every 100 XP and never falls. */
module UserModels {
  import opened Wrappers

  const XpPerLevel: int := 100

  /** The level a total of `xp` reaches: `xp // 100 + 1` (Python's floor
      division, which for the positive divisor 100 is Dafny's `/`). */
  function LevelFor(xp: int): int
  {
    xp / XpPerLevel + 1
  }

  /** The two game columns of a profile. */
  datatype Standing = Standing(xp: int, level: int)

  /** A new profile: no XP, level 1. */
  const Fresh := Standing(0, 1)

  /** The standing after `add_xp(amount)`. */
  function WithXp(s: Standing, amount: int): (r: Standing)
    ensures r.xp == s.xp + amount
    ensures r.level >= s.level && r.level >= LevelFor(r.xp)
    ensures r.level == s.level || r.level == LevelFor(r.xp)
  {
    var xp := s.xp + amount;
    Standing(xp, if LevelFor(xp) > s.level then LevelFor(xp) else s.level)
  }

  /** A standing whose level is the one its XP reaches. */
  predicate Consistent(s: Standing)
  {
    s.level == LevelFor(s.xp)
  }

  lemma LevelForMonotone(a: int, b: int)
    requires a <= b
    ensures LevelFor(a) <= LevelFor(b)
  {
  }

  /** Gaining XP keeps a consistent standing consistent. */
  lemma GainKeepsConsistent(s: Standing, amount: int)
    requires Consistent(s) && amount >= 0
    ensures Consistent(WithXp(s, amount))
  {
    LevelForMonotone(s.xp, s.xp + amount);
  }

  /** Two gains in a row level the profile exactly as one gain of their
      sum: the level depends on the total, not on how it was earned. */
  lemma GainsCompose(s: Standing, a: int, b: int)
    requires b >= 0
    ensures WithXp(WithXp(s, a), b) == WithXp(s, a + b)
  {
    LevelForMonotone(s.xp + a, s.xp + a + b);
  }

  /** From a new profile, 100 XP reach level 2. */
  lemma HundredXpIsLevelTwo()
    ensures WithXp(Fresh, 100) == Standing(100, 2)
  {
  }

  /** A `Profile` row: the game columns and the chosen class, whose id is
      None until one is picked. */
  class Profile {
    var xp: int
    var level: int
    var classRole: Option<nat>

    function Current(): Standing
      reads this
    {
      Standing(xp, level)
    }

    /** The column defaults of a profile created for a new user. */
    constructor ()
      ensures Current() == Fresh && classRole == None
    {
      xp := 0;
      level := 1;
      classRole := None;
    }

    /** `add_xp(amount)`. */
    method AddXp(amount: int)
      modifies this
      ensures Current() == WithXp(old(Current()), amount)
      ensures classRole == old(classRole)
    {
      xp := xp + amount;
      var newLevel := xp / XpPerLevel + 1;
      if newLevel > level {
        level := newLevel;
      }
    }
  }
}

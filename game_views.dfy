/** backend/game/views.py: the `start` and `complete` actions on a mission
    (availability gates, XP award, stars) and the leaderboard query.

    A request reaches these actions authenticated; the user's profile and
    progress rows are passed in, and the progress row is the one
    `get_or_create` yields (a fresh row when there was none). */
module GameViews {
  import opened Wrappers
  import opened GameModels
  import opened UserModels

  /** An error response: HTTP status and `detail` text. */
  datatype Refusal = Refusal(status: int, detail: string)

  const InactiveDetail: string := "Mission is inactive"
  const LevelDetail: string := "Level too low"
  const PrerequisitesDetail: string := "Prerequisites not completed"

  // ---------------------------------------------------------------------
  // gates
  // ---------------------------------------------------------------------

  /** The `missing` list: the prerequisites not among the completed
      missions, in order. */
  function Missing(prerequisites: seq<nat>, completedIds: set<nat>): (r: seq<nat>)
    ensures forall id :: id in r <==> id in prerequisites && id !in completedIds
    ensures |r| <= |prerequisites|
  {
    if prerequisites == [] then []
    else
      var rest := Missing(prerequisites[1..], completedIds);
      if prerequisites[0] in completedIds then rest else [prerequisites[0]] + rest
  }

  /** The checks both actions run before touching anything, in their
      order: inactive, then level, then prerequisites. None lets the
      action through. */
  function Gate(m: Mission, level: int, completedIds: set<nat>): (r: Option<Refusal>)
    ensures r.None? <==> m.isActive && level >= m.minLevel
                         && forall id :: id in m.prerequisites ==> id in completedIds
    ensures !m.isActive ==> r == Some(Refusal(400, InactiveDetail))
    ensures m.isActive && level < m.minLevel ==> r == Some(Refusal(403, LevelDetail))
    ensures r.Some? && r.value.detail == PrerequisitesDetail ==>
              m.isActive && level >= m.minLevel && exists id :: id in m.prerequisites && id !in completedIds
    ensures m.isActive && level >= m.minLevel && (exists id :: id in m.prerequisites && id !in completedIds)
            ==> r == Some(Refusal(403, PrerequisitesDetail))
  {
    if !m.isActive then Some(Refusal(400, InactiveDetail))
    else if level < m.minLevel then Some(Refusal(403, LevelDetail))
    else
      var missing := Missing(m.prerequisites, completedIds);
      if missing != [] then
        assert missing[0] in missing;
        Some(Refusal(403, PrerequisitesDetail))
      else None
  }

  // ---------------------------------------------------------------------
  // XP and stars
  // ---------------------------------------------------------------------

  /** The XP a completion earns: the full reward the first time, nothing
      for a repeat of a non-repeatable mission, and `repeat_xp_rate`
      percent of the reward (rounded down, never negative) for a repeat of
      a repeatable one. */
  function XpGain(alreadyCompleted: bool, m: Mission): (gain: int)
    ensures !alreadyCompleted ==> gain == m.xpReward
    ensures alreadyCompleted && !m.repeatable ==> gain == 0
    ensures alreadyCompleted && m.repeatable ==> gain >= 0
    ensures alreadyCompleted && m.repeatable && m.xpReward * m.repeatXpRate >= 0 ==>
              gain * 100 <= m.xpReward * m.repeatXpRate < gain * 100 + 100
    ensures alreadyCompleted && m.repeatable && m.xpReward * m.repeatXpRate < 0 ==> gain == 0
  {
    if alreadyCompleted && !m.repeatable then 0
    else if alreadyCompleted && m.repeatable then Max(0, (m.xpReward * m.repeatXpRate) / 100)
    else m.xpReward
  }

  /** With a rate of at most 100% a repeat never earns more than the first
      completion. */
  lemma RepeatNeverExceedsFirst(m: Mission)
    requires m.xpReward >= 0 && 0 <= m.repeatXpRate <= 100
    ensures XpGain(true, m) <= XpGain(false, m)
  {
    assert m.xpReward * m.repeatXpRate <= m.xpReward * 100;
  }

  /** A repeatable mission worth 50 XP at a 20% repeat rate gives 10 XP on
      a repeat. */
  lemma TwentyPercentOfFifty(m: Mission)
    requires m.xpReward == 50 && m.repeatable && m.repeatXpRate == 20
    ensures XpGain(true, m) == 10
  {
  }

  /** `max(0, min(3, stars))`. */
  function ClampStars(stars: int): (r: int)
    ensures 0 <= r <= 3
    ensures 0 <= stars <= 3 ==> r == stars
    ensures stars < 0 ==> r == 0
    ensures stars > 3 ==> r == 3
  {
    Max(0, if stars < 3 then stars else 3)
  }

  /** The profile after the award: XP is added only when the gain is
      positive. */
  function Credited(s: Standing, gain: int): (r: Standing)
    ensures gain > 0 ==> r == WithXp(s, gain)
    ensures gain <= 0 ==> r == s
  {
    if gain > 0 then WithXp(s, gain) else s
  }

  // ---------------------------------------------------------------------
  // the two actions, on values
  // ---------------------------------------------------------------------

  /** `start`: the gates, then `Progress.start()` on the user's row. */
  function StartMission(m: Mission, s: Standing, completedIds: set<nat>, p: ProgressState, now: Time)
    : (r: Result<ProgressState, Refusal>)
    ensures r.Failure? <==> Gate(m, s.level, completedIds).Some?
    ensures r.Failure? ==> r.error == Gate(m, s.level, completedIds).value
    ensures r.Success? ==> r.value == Started(p, now)
  {
    match Gate(m, s.level, completedIds)
    case Some(refusal) => Failure(refusal)
    case None => Success(Started(p, now))
  }

  /** The body of a successful `complete`: the row as serialized plus
      `xp_added`, `profile_xp` and `profile_level`. */
  datatype CompleteReply = CompleteReply(row: ProgressState, xpAdded: int, profileXp: int, profileLevel: int)

  /** `complete`: the gates, the gain decided on the row as it was, then
      `Progress.complete()`, the gain added to `xp_earned`, the stars
      clamped (0 when not sent), and the gain credited to the profile. */
  function CompleteMission(m: Mission, s: Standing, completedIds: set<nat>, p: ProgressState,
                           stars: Option<int>, now: Time): (r: Result<CompleteReply, Refusal>)
    ensures r.Failure? <==> Gate(m, s.level, completedIds).Some?
    ensures r.Failure? ==> r.error == Gate(m, s.level, completedIds).value
    ensures r.Success? ==> r.value.xpAdded == XpGain(p.completed, m)
    ensures r.Success? ==> r.value.row.completed && r.value.row.xpEarned == p.xpEarned + r.value.xpAdded
    ensures r.Success? ==> 0 <= r.value.row.stars <= 3
    ensures r.Success? ==> r.value.row == Finished(p, now).(xpEarned := p.xpEarned + r.value.xpAdded,
                                                            stars := ClampStars(stars.GetOr(0)))
    ensures r.Success? ==> Standing(r.value.profileXp, r.value.profileLevel) == Credited(s, r.value.xpAdded)
  {
    match Gate(m, s.level, completedIds)
    case Some(refusal) => Failure(refusal)
    case None =>
      var gain := XpGain(p.completed, m);
      var row := Finished(p, now).(xpEarned := p.xpEarned + gain, stars := ClampStars(stars.GetOr(0)));
      var after := Credited(s, gain);
      Success(CompleteReply(row, gain, after.xp, after.level))
  }

  /** Completing a non-repeatable mission a second time earns nothing and
      leaves the profile as the first completion left it. */
  lemma {:induction false} NonRepeatableRewardsOnce(m: Mission, s: Standing, completedIds: set<nat>,
                                                    p: ProgressState, stars1: Option<int>, stars2: Option<int>,
                                                    t1: Time, t2: Time)
    requires !m.repeatable && m.xpReward >= 0
    requires CompleteMission(m, s, completedIds, p, stars1, t1).Success?
    ensures var first := CompleteMission(m, s, completedIds, p, stars1, t1).value;
            var s1 := Standing(first.profileXp, first.profileLevel);
            var second := CompleteMission(m, s1, completedIds, first.row, stars2, t2);
            second.Success? && second.value.xpAdded == 0
            && second.value.profileXp == s1.xp && second.value.profileLevel == s1.level
            && second.value.row.xpEarned == first.row.xpEarned
  {
    var first := CompleteMission(m, s, completedIds, p, stars1, t1).value;
    var s1 := Standing(first.profileXp, first.profileLevel);
    assert Gate(m, s.level, completedIds).None?;
    assert s1.level >= s.level;
    assert Gate(m, s1.level, completedIds).None?;
  }

  /** A completion never lowers the profile's level, and keeps a
      consistent level consistent when the reward is not negative. */
  lemma CompletionKeepsLevel(m: Mission, s: Standing, completedIds: set<nat>, p: ProgressState,
                             stars: Option<int>, now: Time)
    requires Consistent(s) && m.xpReward >= 0
    requires CompleteMission(m, s, completedIds, p, stars, now).Success?
    ensures var reply := CompleteMission(m, s, completedIds, p, stars, now).value;
            reply.profileLevel >= s.level && Consistent(Standing(reply.profileXp, reply.profileLevel))
  {
    var gain := XpGain(p.completed, m);
    if gain > 0 {
      GainKeepsConsistent(s, gain);
    }
  }

  // ---------------------------------------------------------------------
  // the two actions, on the rows
  // ---------------------------------------------------------------------

  /** `MissionViewSet.start` on the user's profile and progress row. */
  method Start(m: Mission, profile: Profile, completedIds: set<nat>, prog: Progress, now: Time)
    returns (r: Result<ProgressState, Refusal>)
    modifies prog
    ensures r == StartMission(m, old(profile.Current()), completedIds, old(prog.State()), now)
    ensures r.Failure? ==> prog.State() == old(prog.State())
    ensures r.Success? ==> prog.State() == r.value
  {
    if !m.isActive {
      return Failure(Refusal(400, InactiveDetail));
    }
    if profile.level < m.minLevel {
      return Failure(Refusal(403, LevelDetail));
    }
    if m.prerequisites != [] {
      var missing := Missing(m.prerequisites, completedIds);
      if missing != [] {
        return Failure(Refusal(403, PrerequisitesDetail));
      }
    }
    prog.Start(now);
    r := Success(prog.State());
  }

  /** `MissionViewSet.complete` on the user's profile and progress row;
      `stars` is the request's `stars` field, None when absent. */
  method Complete(m: Mission, profile: Profile, completedIds: set<nat>, prog: Progress,
                  stars: Option<int>, now: Time)
    returns (r: Result<CompleteReply, Refusal>)
    modifies profile, prog
    ensures r == CompleteMission(m, old(profile.Current()), completedIds, old(prog.State()), stars, now)
    ensures r.Failure? ==> prog.State() == old(prog.State()) && profile.Current() == old(profile.Current())
    ensures r.Success? ==> prog.State() == r.value.row
    ensures r.Success? ==> profile.Current() == Standing(r.value.profileXp, r.value.profileLevel)
    ensures profile.classRole == old(profile.classRole)
  {
    if !m.isActive {
      return Failure(Refusal(400, InactiveDetail));
    }
    if profile.level < m.minLevel {
      return Failure(Refusal(403, LevelDetail));
    }
    if m.prerequisites != [] {
      var missing := Missing(m.prerequisites, completedIds);
      if missing != [] {
        return Failure(Refusal(403, PrerequisitesDetail));
      }
    }
    var gain := 0;
    if prog.completed && !m.repeatable {
      gain := 0;
    } else if prog.completed && m.repeatable {
      gain := Max(0, (m.xpReward * m.repeatXpRate) / 100);
    } else {
      gain := m.xpReward;
    }
    prog.Complete(now);
    prog.xpEarned := prog.xpEarned + gain;
    var requested := stars.GetOr(0);
    prog.stars := Max(0, if requested < 3 then requested else 3);
    if gain > 0 {
      profile.AddXp(gain);
    }
    r := Success(CompleteReply(prog.State(), gain, profile.xp, profile.level));
  }

  // ---------------------------------------------------------------------
  // leaderboard
  // ---------------------------------------------------------------------

  /** A `LeaderboardEntry` row; `trackSlug` is None for a global entry. */
  datatype Entry = Entry(trackSlug: Option<string>, user: nat, scope: string, periodLabel: string,
                         xpTotal: int, position: int)

  /** The `track`, `scope` and `period` query parameters. */
  datatype Query = Query(track: Option<string>, scope: Option<string>, period: Option<string>)

  const AllTime: string := "all_time"
  const PageLimit: nat := 200

  /** A query parameter that is present and not empty. */
  predicate Given(v: Option<string>)
  {
    v.Some? && v.value != ""
  }

  /** The filters: track and scope only when given; the period when given,
      "all_time" otherwise. */
  predicate Matches(q: Query, e: Entry)
  {
    (Given(q.track) ==> e.trackSlug == q.track)
    && (Given(q.scope) ==> e.scope == q.scope.value)
    && e.periodLabel == (if Given(q.period) then q.period.value else AllTime)
  }

  /** The filtered rows: each matching row with all its copies, nothing else. */
  function Filter(q: Query, es: seq<Entry>): (r: seq<Entry>)
    ensures forall e :: multiset(r)[e] == if Matches(q, e) then multiset(es)[e] else 0
    ensures forall e :: e in r ==> e in es && Matches(q, e)
  {
    if es == [] then []
    else
      var rest := Filter(q, es[1..]);
      assert es == [es[0]] + es[1..];
      if Matches(q, es[0]) then [es[0]] + rest else rest
  }

  /** `order_by("position", "-xp_total")`: lower position first, then
      higher XP. */
  predicate Precedes(a: Entry, b: Entry)
  {
    a.position < b.position || (a.position == b.position && a.xpTotal >= b.xpTotal)
  }

  predicate Sorted(s: seq<Entry>)
  {
    forall i, j :: 0 <= i < j < |s| ==> Precedes(s[i], s[j])
  }

  /** `h` ranks no later than any row of `s`. */
  predicate Bound(h: Entry, s: seq<Entry>)
  {
    forall j :: 0 <= j < |s| ==> Precedes(h, s[j])
  }

  lemma ConsSorted(h: Entry, t: seq<Entry>)
    requires Sorted(t) && Bound(h, t)
    ensures Sorted([h] + t)
  {
    forall i, j | 0 <= i < j < |[h] + t| ensures Precedes(([h] + t)[i], ([h] + t)[j]) {
      if i > 0 {
        assert ([h] + t)[i] == t[i - 1];
      }
      assert ([h] + t)[j] == t[j - 1];
    }
  }

  lemma ConsBound(h: Entry, a: Entry, t: seq<Entry>)
    requires Precedes(h, a) && Bound(h, t)
    ensures Bound(h, [a] + t)
  {
    forall j | 0 <= j < |[a] + t| ensures Precedes(h, ([a] + t)[j]) {
      if j > 0 {
        assert ([a] + t)[j] == t[j - 1];
      }
    }
  }

  /** The tail of a sorted list is sorted, ranks after its head, and
      inherits every bound of the whole list. */
  lemma SortedTail(s: seq<Entry>)
    requires Sorted(s) && s != []
    ensures Sorted(s[1..]) && Bound(s[0], s[1..])
    ensures forall h :: Bound(h, s) ==> Bound(h, s[1..])
  {
    assert forall j :: 0 <= j < |s[1..]| ==> s[1..][j] == s[j + 1];
  }

  function Insert(x: Entry, s: seq<Entry>): (r: seq<Entry>)
    requires Sorted(s)
    ensures Sorted(r)
    ensures multiset(r) == multiset(s) + multiset{x}
    ensures forall h :: Bound(h, s) && Precedes(h, x) ==> Bound(h, r)
  {
    if s == [] then [x]
    else if Precedes(x, s[0]) then
      assert Bound(x, s);
      ConsSorted(x, s);
      assert forall h :: Bound(h, s) && Precedes(h, x) ==> Bound(h, [x] + s) by {
        forall h | Bound(h, s) && Precedes(h, x) ensures Bound(h, [x] + s) {
          ConsBound(h, x, s);
        }
      }
      [x] + s
    else
      SortedTail(s);
      var tail := Insert(x, s[1..]);
      assert s == [s[0]] + s[1..];
      ConsSorted(s[0], tail);
      assert forall h :: Bound(h, s) && Precedes(h, x) ==> Bound(h, [s[0]] + tail) by {
        forall h | Bound(h, s) && Precedes(h, x) ensures Bound(h, [s[0]] + tail) {
          assert Precedes(h, s[0]);
          ConsBound(h, s[0], tail);
        }
      }
      [s[0]] + tail
  }

  /** The rows in leaderboard order. */
  function SortEntries(s: seq<Entry>): (r: seq<Entry>)
    ensures Sorted(r)
    ensures multiset(r) == multiset(s)
  {
    if s == [] then []
    else
      assert s == [s[0]] + s[1..];
      Insert(s[0], SortEntries(s[1..]))
  }

  /** `LeaderboardViewSet.get_queryset()`: the matching rows in leaderboard
      order, at most 200 of them. */
  function Leaderboard(q: Query, es: seq<Entry>): (r: seq<Entry>)
    ensures |r| <= PageLimit
    ensures Sorted(r)
    ensures forall e :: e in r ==> e in es && Matches(q, e)
  {
    var f := Filter(q, es);
    var sorted := SortEntries(f);
    var r := if |sorted| <= PageLimit then sorted else sorted[..PageLimit];
    assert forall e :: e in r ==> e in multiset(sorted) by {
      assert forall k :: 0 <= k < |r| ==> r[k] == sorted[k];
    }
    r
  }

  /** Cutting a sorted list leaves off only rows that rank after every row
      kept. */
  lemma CutKeepsTop(sorted: seq<Entry>, n: nat)
    requires Sorted(sorted) && n <= |sorted|
    ensures forall e :: multiset(sorted[..n])[e] < multiset(sorted)[e] ==>
              forall i :: 0 <= i < n ==> Precedes(sorted[i], e)
  {
    assert sorted == sorted[..n] + sorted[n..];
    forall e | multiset(sorted[..n])[e] < multiset(sorted)[e]
      ensures forall i :: 0 <= i < n ==> Precedes(sorted[i], e)
    {
      assert e in multiset(sorted[n..]);
      var k :| 0 <= k < |sorted[n..]| && sorted[n..][k] == e;
      assert sorted[n + k] == e;
    }
  }

  /** The page is the top of the ranking: it holds every matching row when
      there are at most 200, and otherwise each matching row left off the
      page ranks after every row on it. */
  lemma LeaderboardIsTopOfRanking(q: Query, es: seq<Entry>)
    ensures |Filter(q, es)| <= PageLimit ==> multiset(Leaderboard(q, es)) == multiset(Filter(q, es))
    ensures |Filter(q, es)| > PageLimit ==> |Leaderboard(q, es)| == PageLimit
    ensures forall e :: multiset(Leaderboard(q, es))[e] < multiset(Filter(q, es))[e] ==>
              forall i :: 0 <= i < |Leaderboard(q, es)| ==> Precedes(Leaderboard(q, es)[i], e)
  {
    var f := Filter(q, es);
    var sorted := SortEntries(f);
    assert |sorted| == |f| by {
      assert |multiset(sorted)| == |multiset(f)|;
    }
    if |sorted| > PageLimit {
      CutKeepsTop(sorted, PageLimit);
    }
  }
}

/** String operations the core relies on from its host languages:
    splitting on one separator character and joining, first-occurrence
    search and replacement, ASCII lower-casing, and the two notions of
    white space (Python's `str.isspace` and JavaScript's `String.prototype.trim`). */
module Strings {
  import opened Wrappers

  // ---------------------------------------------------------------------
  // split / join on a single separator character
  // ---------------------------------------------------------------------

  /** `parts.join(sep)` (JavaScript) or `sep.join(parts)` (Python); the empty
      list joins to "". */
  function Join(parts: seq<string>, sep: char): string
  {
    if |parts| == 0 then ""
    else if |parts| == 1 then parts[0]
    else parts[0] + [sep] + Join(parts[1..], sep)
  }

  /** `s.split(sep)` for a one-character separator, which JavaScript and
      Python define alike: always at least one part, empty parts kept. The
      contract says that the parts are separator-free and glue back to `s`. */
  function Split(s: string, sep: char): (parts: seq<string>)
    ensures |parts| >= 1
    ensures forall i :: 0 <= i < |parts| ==> sep !in parts[i]
    ensures Join(parts, sep) == s
    decreases |s|
  {
    if s == [] then [""]
    else if s[0] == sep then
      var rest := Split(s[1..], sep);
      assert s == [] + [sep] + s[1..];
      [""] + rest
    else
      var rest := Split(s[1..], sep);
      var head := [s[0]] + rest[0];
      assert sep !in head;
      if |rest| == 1 then
        [head]
      else
        assert Join(rest, sep) == rest[0] + [sep] + Join(rest[1..], sep);
        assert ([head] + rest[1..])[1..] == rest[1..];
        [head] + rest[1..]
  }

  /** The other direction of the round trip: splitting a join of
      separator-free parts gives the parts back. */
  lemma {:induction false} SplitJoin(parts: seq<string>, sep: char)
    requires |parts| >= 1
    requires forall i :: 0 <= i < |parts| ==> sep !in parts[i]
    ensures Split(Join(parts, sep), sep) == parts
    decreases |parts|, |parts[0]|
  {
    var p := parts[0];
    if |parts| == 1 {
      SplitNoSeparator(p, sep);
    } else if p == [] {
      var tail := parts[1..];
      assert Join(parts, sep) == [sep] + Join(tail, sep);
      assert (forall i :: 0 <= i < |tail| ==> sep !in tail[i]) by {
        forall i | 0 <= i < |tail| ensures sep !in tail[i] { assert tail[i] == parts[i + 1]; }
      }
      SplitJoin(tail, sep);
      assert ([sep] + Join(tail, sep))[1..] == Join(tail, sep);
    } else {
      var shorter := [p[1..]] + parts[1..];
      assert (forall i :: 0 <= i < |shorter| ==> sep !in shorter[i]) by {
        forall i | 0 <= i < |shorter| ensures sep !in shorter[i] {
          if i == 0 { assert forall c :: c in p[1..] ==> c in p; } else { assert shorter[i] == parts[i]; }
        }
      }
      SplitJoin(shorter, sep);
      assert shorter[1..] == parts[1..];
      assert Join(parts, sep) == [p[0]] + Join(shorter, sep);
      assert ([p[0]] + Join(shorter, sep))[1..] == Join(shorter, sep);
      assert [p[0]] + p[1..] == p;
    }
  }

  /** Two facts about sequences, kept apart from `Kept` so that proving
      them does not unfold its contract. */
  lemma ConsAppend<T>(a: seq<T>, b: seq<T>)
    requires a != []
    ensures a == [a[0]] + a[1..]
    ensures a + b == [a[0]] + (a[1..] + b)
  {
  }

  lemma AppendAssoc<T>(x: seq<T>, y: seq<T>, z: seq<T>)
    ensures x + (y + z) == (x + y) + z
  {
  }

  /** Splitting text glued at a separator splits each side on its own:
      the pieces of `a`, then the pieces of `b`. */
  lemma {:induction false} SplitConcat(a: string, b: string, sep: char)
    ensures Split(a + [sep] + b, sep) == Split(a, sep) + Split(b, sep)
    decreases |a|
  {
    var s := a + [sep] + b;
    if a == [] {
      assert s[0] == sep && s[1..] == b;
    } else {
      ConsAppend(a, [sep] + b);
      assert s == [a[0]] + (a[1..] + [sep] + b) by {
        AppendAssoc(a, [sep], b);
        AppendAssoc(a[1..], [sep], b);
      }
      assert s[0] == a[0] && s[1..] == a[1..] + [sep] + b;
      SplitConcat(a[1..], b, sep);
    }
  }

  lemma {:induction false} SplitNoSeparator(s: string, sep: char)
    requires sep !in s
    ensures Split(s, sep) == [s]
    decreases |s|
  {
    if s != [] {
      assert forall c :: c in s[1..] ==> c in s;
      SplitNoSeparator(s[1..], sep);
    }
  }

  /** The first part of a split: the text before the first separator. */
  function BeforeFirst(s: string, sep: char): (r: string)
    ensures sep !in r
    ensures r <= s
    ensures |r| < |s| ==> s[|r|] == sep
  {
    FirstPartIsPrefix(s, sep);
    Split(s, sep)[0]
  }

  /** The text before the first separator is the one separator-free
      prefix that reaches a separator or the end. */
  lemma BeforeFirstIs(s: string, sep: char, p: string)
    requires sep !in p && p <= s && (|p| == |s| || s[|p|] == sep)
    ensures BeforeFirst(s, sep) == p
  {
    var r := BeforeFirst(s, sep);
    assert |r| == |p| by {
      if |r| < |p| {
        assert false;
      } else if |r| > |p| {
        assert false;
      }
    }
    assert r == s[..|r|] && p == s[..|p|];
  }

  lemma {:induction false} FirstPartIsPrefix(s: string, sep: char)
    ensures Split(s, sep)[0] <= s
    ensures |Split(s, sep)[0]| < |s| ==> s[|Split(s, sep)[0]|] == sep
    decreases |s|
  {
    if s != [] && s[0] != sep {
      FirstPartIsPrefix(s[1..], sep);
    }
  }

  // ---------------------------------------------------------------------
  // search and replacement
  // ---------------------------------------------------------------------

  predicate OccursAt(s: string, pat: string, i: nat)
  {
    i + |pat| <= |s| && s[i..i + |pat|] == pat
  }

  /** `s.indexOf(pat)`, with -1 written as None: the first position where
      `pat` occurs. */
  function IndexOf(s: string, pat: string): (r: Option<nat>)
    ensures r.Some? ==> OccursAt(s, pat, r.value)
    ensures r.Some? ==> forall j: nat :: j < r.value ==> !OccursAt(s, pat, j)
    ensures r.None? ==> forall j: nat :: !OccursAt(s, pat, j)
  {
    IndexFrom(s, pat, 0)
  }

  function IndexFrom(s: string, pat: string, from: nat): (r: Option<nat>)
    requires forall j: nat :: j < from ==> !OccursAt(s, pat, j)
    ensures r.Some? ==> from <= r.value && OccursAt(s, pat, r.value)
    ensures r.Some? ==> forall j: nat :: j < r.value ==> !OccursAt(s, pat, j)
    ensures r.None? ==> forall j: nat :: !OccursAt(s, pat, j)
    decreases |s| - from
  {
    if from + |pat| > |s| then None
    else if s[from..from + |pat|] == pat then Some(from)
    else IndexFrom(s, pat, from + 1)
  }

  /** `s.includes(pat)`. */
  predicate Contains(s: string, pat: string)
  {
    IndexOf(s, pat).Some?
  }

  lemma ContainsIff(s: string, pat: string)
    ensures Contains(s, pat) <==> exists j: nat :: OccursAt(s, pat, j)
  {
    if Contains(s, pat) {
      assert OccursAt(s, pat, IndexOf(s, pat).value);
    }
  }

  /** `s.replace(pat, rep)` with a string pattern: only the first
      occurrence of `pat` is replaced, and a string without one comes back
      unchanged. */
  function ReplaceFirst(s: string, pat: string, rep: string): (r: string)
    ensures (forall j: nat :: !OccursAt(s, pat, j)) ==> r == s
    ensures forall i: nat :: OccursAt(s, pat, i) && (forall j: nat :: j < i ==> !OccursAt(s, pat, j)) ==>
              r == s[..i] + rep + s[i + |pat|..]
  {
    match IndexOf(s, pat)
    case None => s
    case Some(i) => s[..i] + rep + s[i + |pat|..]
  }

  // ---------------------------------------------------------------------
  // case and white space
  // ---------------------------------------------------------------------

  function LowerChar(c: char): char
  {
    if 'A' <= c <= 'Z' then (c as int + 32) as char else c
  }

  /** ASCII lower-casing (`toLowerCase` / `lower` restricted to ASCII
      letters; every other character is kept). */
  function Lower(s: string): (r: string)
    ensures |r| == |s|
    ensures forall i :: 0 <= i < |s| ==> r[i] == LowerChar(s[i])
    ensures forall i :: 0 <= i < |r| ==> !('A' <= r[i] <= 'Z')
  {
    seq(|s|, i requires 0 <= i < |s| => LowerChar(s[i]))
  }

  /** Text without capitals is its own lower-case form. */
  lemma LowerOfLower(t: string)
    requires forall i :: 0 <= i < |t| ==> !('A' <= t[i] <= 'Z')
    ensures Lower(t) == t
  {
  }

  /** Lower-casing adds no character that is not a letter. */
  lemma LowerKeepsAbsent(t: string, c: char)
    requires c !in t && !('a' <= c <= 'z') && !('A' <= c <= 'Z')
    ensures c !in Lower(t)
  {
    var r := Lower(t);
    forall i | 0 <= i < |r| ensures r[i] != c {
      assert r[i] == LowerChar(t[i]) && t[i] in t;
    }
  }

  /** A prefix holds no character its whole does not. */
  lemma PrefixKeepsAbsent(p: string, s: string, c: char)
    requires p <= s && c !in s
    ensures c !in p
  {
    forall i | 0 <= i < |p| ensures p[i] != c {
      assert p[i] == s[i] && s[i] in s;
    }
  }

  /** The characters Python's `str.isspace` accepts. */
  predicate PySpace(c: char)
  {
    var n := c as int;
    (9 <= n <= 13) || (28 <= n <= 32) || n == 0x85 || n == 0xA0 || n == 0x1680
    || (0x2000 <= n <= 0x200A) || n == 0x2028 || n == 0x2029 || n == 0x202F
    || n == 0x205F || n == 0x3000
  }

  /** The characters JavaScript's `trim` removes (white space and line
      terminators). */
  predicate JsSpace(c: char)
  {
    var n := c as int;
    (9 <= n <= 13) || n == 32 || n == 0xA0 || n == 0x1680 || (0x2000 <= n <= 0x200A)
    || n == 0x2028 || n == 0x2029 || n == 0x202F || n == 0x205F || n == 0x3000 || n == 0xFEFF
  }

  /** Python's `s.strip()`: the longest infix that neither starts nor ends
      with white space, everything removed around it being white space. */
  function PyStrip(s: string): (r: string)
    ensures exists i, j :: 0 <= i <= j <= |s| && r == s[i..j]
                           && (forall k :: 0 <= k < i ==> PySpace(s[k]))
                           && (forall k :: j <= k < |s| ==> PySpace(s[k]))
    ensures r != [] ==> !PySpace(r[0]) && !PySpace(r[|r| - 1])
    ensures r == [] <==> forall k :: 0 <= k < |s| ==> PySpace(s[k])
  {
    var i := SkipSpace(s, 0);
    var j := SkipSpaceBack(s, i, |s|);
    s[i..j]
  }

  /** Text that neither starts nor ends with white space is its own
      stripped form. */
  lemma StripOfStripped(t: string)
    requires t != [] ==> !PySpace(t[0]) && !PySpace(t[|t| - 1])
    ensures PyStrip(t) == t
  {
    if t != [] {
      assert SkipSpace(t, 0) == 0;
      assert SkipSpaceBack(t, 0, |t|) == |t|;
    }
  }

  function SkipSpace(s: string, from: nat): (i: nat)
    requires from <= |s|
    requires forall k :: 0 <= k < from ==> PySpace(s[k])
    ensures from <= i <= |s|
    ensures forall k :: 0 <= k < i ==> PySpace(s[k])
    ensures i < |s| ==> !PySpace(s[i])
    decreases |s| - from
  {
    if from < |s| && PySpace(s[from]) then SkipSpace(s, from + 1) else from
  }

  function SkipSpaceBack(s: string, lo: nat, hi: nat): (j: nat)
    requires lo <= hi <= |s|
    requires forall k :: hi <= k < |s| ==> PySpace(s[k])
    ensures lo <= j <= hi
    ensures forall k :: j <= k < |s| ==> PySpace(s[k])
    ensures j > lo ==> !PySpace(s[j - 1])
    decreases hi
  {
    if hi > lo && PySpace(s[hi - 1]) then SkipSpaceBack(s, lo, hi - 1) else hi
  }

  /** `bool(s.strip())` in Python: some character is not white space. */
  predicate PyHasText(s: string)
  {
    exists k :: 0 <= k < |s| && !PySpace(s[k])
  }

  /** `Boolean(s.trim())` in JavaScript. */
  predicate JsHasText(s: string)
  {
    exists k :: 0 <= k < |s| && !JsSpace(s[k])
  }

  /** Stripping adds no character. */
  lemma StripKeepsAbsent(t: string, c: char)
    requires c !in t
    ensures c !in PyStrip(t)
  {
    var i := SkipSpace(t, 0);
    var j := SkipSpaceBack(t, i, |t|);
    assert PyStrip(t) == t[i..j];
    forall k | 0 <= k < j - i ensures t[i..j][k] != c {
      assert t[i..j][k] == t[i + k] && t[i + k] in t;
    }
  }
}

/** Python's `str.replace(pat, rep)` with a non-empty pattern, together with
    `str.split(pat)` and `str.join`, which give it an independent meaning:
    `s.replace(pat, rep) == rep.join(s.split(pat))`. */
module Text {

  /** `pat` occurs in `s` starting at index `i`. */
  predicate OccursAt(s: string, pat: string, i: int)
  {
    0 <= i && i + |pat| <= |s| && s[i..i + |pat|] == pat
  }

  predicate Contains(s: string, pat: string)
  {
    exists i | 0 <= i <= |s| :: OccursAt(s, pat, i)
  }

  /** Left-to-right replacement of every non-overlapping occurrence. */
  function ReplaceAll(s: string, pat: string, rep: string): string
    requires |pat| > 0
    decreases |s|
  {
    if |s| < |pat| then s
    else if s[..|pat|] == pat then rep + ReplaceAll(s[|pat|..], pat, rep)
    else [s[0]] + ReplaceAll(s[1..], pat, rep)
  }

  /** The pieces of `s` between the occurrences of `pat`, scanning left to right. */
  function Split(s: string, pat: string): (parts: seq<string>)
    requires |pat| > 0
    ensures |parts| >= 1
    ensures |parts[0]| <= |s| && parts[0] == s[..|parts[0]|]
    decreases |s|
  {
    if |s| < |pat| then [s]
    else if s[..|pat|] == pat then [""] + Split(s[|pat|..], pat)
    else
      var rest := Split(s[1..], pat);
      [[s[0]] + rest[0]] + rest[1..]
  }

  function Join(parts: seq<string>, sep: string): string
  {
    if |parts| == 0 then ""
    else if |parts| == 1 then parts[0]
    else parts[0] + sep + Join(parts[1..], sep)
  }

  lemma JoinPrepend(c: string, parts: seq<string>, sep: string)
    requires |parts| >= 1
    ensures Join([c + parts[0]] + parts[1..], sep) == c + Join(parts, sep)
  {
    var ps := [c + parts[0]] + parts[1..];
    assert ps[1..] == parts[1..];
  }

  lemma JoinCons(a: string, parts: seq<string>, sep: string)
    requires |parts| >= 1
    ensures Join([a] + parts, sep) == a + sep + Join(parts, sep)
  {
    assert ([a] + parts)[1..] == parts;
  }

  /** Joining the pieces back with the pattern gives the original string. */
  lemma {:induction false} JoinSplit(s: string, pat: string)
    requires |pat| > 0
    ensures Join(Split(s, pat), pat) == s
    decreases |s|
  {
    if |s| < |pat| {
    } else if s[..|pat|] == pat {
      var rest := Split(s[|pat|..], pat);
      JoinSplit(s[|pat|..], pat);
      JoinCons("", rest, pat);
      assert s == pat + s[|pat|..];
    } else {
      var rest := Split(s[1..], pat);
      JoinSplit(s[1..], pat);
      JoinPrepend([s[0]], rest, pat);
      assert s == [s[0]] + s[1..];
    }
  }

  /** No piece of the split contains the pattern. */
  lemma {:induction false} SplitPiecesAreClean(s: string, pat: string)
    requires |pat| > 0
    ensures forall k :: 0 <= k < |Split(s, pat)| ==> !Contains(Split(s, pat)[k], pat)
    decreases |s|
  {
    var parts := Split(s, pat);
    if |s| < |pat| {
      forall i | OccursAt(s, pat, i) ensures false {}
    } else if s[..|pat|] == pat {
      SplitPiecesAreClean(s[|pat|..], pat);
      var rest := Split(s[|pat|..], pat);
      assert parts == [""] + rest;
      forall i | OccursAt("", pat, i) ensures false {}
      forall k | 1 <= k < |parts| ensures parts[k] == rest[k - 1] {}
    } else {
      SplitPiecesAreClean(s[1..], pat);
      var rest := Split(s[1..], pat);
      var head := [s[0]] + rest[0];
      assert parts == [head] + rest[1..];
      assert head == s[..|head|];
      forall i | OccursAt(head, pat, i) ensures false {
        if i > 0 {
          assert head[i..i + |pat|] == rest[0][i - 1..i - 1 + |pat|];
          assert OccursAt(rest[0], pat, i - 1);
        }
      }
      forall k | 1 <= k < |parts| ensures parts[k] == rest[k] {}
    }
  }

  /** Replacement is the split re-joined with the replacement text. */
  lemma {:induction false} ReplaceIsJoinOfSplit(s: string, pat: string, rep: string)
    requires |pat| > 0
    ensures ReplaceAll(s, pat, rep) == Join(Split(s, pat), rep)
    decreases |s|
  {
    if |s| < |pat| {
    } else if s[..|pat|] == pat {
      var rest := Split(s[|pat|..], pat);
      ReplaceIsJoinOfSplit(s[|pat|..], pat, rep);
      assert ([""] + rest)[1..] == rest;
    } else {
      var rest := Split(s[1..], pat);
      ReplaceIsJoinOfSplit(s[1..], pat, rep);
      JoinPrepend([s[0]], rest, rep);
    }
  }

  /** A string without the pattern is left as it is. */
  lemma {:induction false} ReplaceAbsent(s: string, pat: string, rep: string)
    requires |pat| > 0
    requires !Contains(s, pat)
    ensures ReplaceAll(s, pat, rep) == s
    decreases |s|
  {
    if |s| >= |pat| {
      assert !OccursAt(s, pat, 0);
      forall i | OccursAt(s[1..], pat, i) ensures false {
        assert s[1..][i..i + |pat|] == s[i + 1..i + 1 + |pat|];
        assert OccursAt(s, pat, i + 1);
      }
      ReplaceAbsent(s[1..], pat, rep);
      assert s == [s[0]] + s[1..];
    }
  }
}

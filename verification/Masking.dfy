/** What the log redactor leaves of a text: everything but the leftmost occurrences of the
    registered secrets, and those are replaced by the mask. */
module Masking {
  import opened Text
  import opened Redact

  /** The text cut at the occurrences of x that are found from the left: none starts before
      the one a part ends at, and the last part holds none. */
  ghost predicate LeftmostParts(u: seq<string>, x: string) {
    && u != [] && !Contains(u[|u| - 1], x)
    && forall i, j: nat :: 0 <= i < |u| - 1 && j < |u[i]| ==> !OccursAt(u[i] + x, x, j)
  }

  lemma SameStart(u: string, x: string, rest: string, j: nat)
    requires j <= |u|
    ensures OccursAt(u + x + rest, x, j) <==> OccursAt(u + x, x, j)
  {
    assert (u + x + rest)[j..j + |x|] == (u + x)[j..j + |x|];
  }

  lemma FirstIs(s: string, x: string)
    requires x != ""
    ensures |s| >= |x| && s[..|x|] == x <==> OccursAt(s, x, 0)
  {
    if |s| >= |x| {
      assert s[0..|x|] == s[..|x|];
    }
  }

  /** Without an occurrence nothing is replaced. */
  lemma {:induction false} NothingReplaced(s: string, x: string)
    requires x != "" && !Contains(s, x)
    ensures ReplaceAll(s, x) == s
    decreases |s|
  {
    FirstIs(s, x);
    if |s| >= |x| {
      assert !OccursAt(s, x, 0);
      if Contains(s[1..], x) {
        TailContains(s, x, 1);
      }
      NothingReplaced(s[1..], x);
    }
  }

  lemma NoneInRest(u: string, x: string)
    requires u != "" && forall j: nat :: j < |u| ==> !OccursAt(u + x, x, j)
    ensures forall j: nat :: j < |u[1..]| ==> !OccursAt(u[1..] + x, x, j)
  {
    assert (u + x)[1..] == u[1..] + x;
    forall j: nat | j < |u[1..]|
      ensures !OccursAt(u[1..] + x, x, j)
    {
      OneEarlier(u + x, x, j);
      assert !OccursAt(u + x, x, j + 1);
    }
  }

  /** The text before the first occurrence stays, and replacing goes on after it. */
  lemma {:induction false} UpToFirst(u: string, x: string, rest: string)
    requires x != "" && forall j: nat :: j < |u| ==> !OccursAt(u + x, x, j)
    ensures ReplaceAll(u + x + rest, x) == u + MASK + ReplaceAll(rest, x)
    decreases |u|
  {
    var s := u + x + rest;
    FirstIs(s, x);
    SameStart(u, x, rest, 0);
    if u == "" {
      assert s[|x|..] == rest && s[..|x|] == x;
    } else {
      var v := u[1..];
      assert s[1..] == v + x + rest && s[0] == u[0] && u == [u[0]] + v;
      NoneInRest(u, x);
      UpToFirst(v, x, rest);
    }
  }

  lemma TailParts(u: seq<string>, x: string)
    requires LeftmostParts(u, x) && |u| > 1
    ensures LeftmostParts(u[1..], x)
  {
    forall i, j: nat | 0 <= i < |u[1..]| - 1 && j < |u[1..][i]|
      ensures !OccursAt(u[1..][i] + x, x, j)
    {
      assert u[1..][i] == u[i + 1];
    }
  }

  lemma {:induction false} ReplacedParts(u: seq<string>, x: string)
    requires x != "" && LeftmostParts(u, x)
    ensures ReplaceAll(Join(u, x), x) == Join(u, MASK)
    decreases |u|
  {
    if |u| == 1 {
      NothingReplaced(u[0], x);
    } else {
      TailParts(u, x);
      ReplacedParts(u[1..], x);
      UpToFirst(u[0], x, Join(u[1..], x));
    }
  }

  lemma FirstOccurrence(s: string, x: string, i: nat) returns (k: nat)
    requires OccursAt(s, x, i)
    ensures OccursAt(s, x, k) && forall j: nat :: j < k ==> !OccursAt(s, x, j)
    decreases i
  {
    if j: nat :| j < i && OccursAt(s, x, j) {
      k := FirstOccurrence(s, x, j);
    } else {
      k := i;
    }
  }

  /** Every text can be cut so. */
  lemma {:induction false} PartsExist(s: string, x: string) returns (u: seq<string>)
    requires x != ""
    ensures LeftmostParts(u, x) && s == Join(u, x)
    decreases |s|
  {
    u := [s];
    if i: nat :| i <= |s| && OccursAt(s, x, i) {
      var k := FirstOccurrence(s, x, i);
      var rest := s[k + |x|..];
      var more := PartsExist(rest, x);
      u := [s[..k]] + more;
      assert s == s[..k] + x + rest;
      assert u[1..] == more;
      forall h, j: nat | 0 <= h < |u| - 1 && j < |u[h]|
        ensures !OccursAt(u[h] + x, x, j)
      {
        if h == 0 {
          SameStart(s[..k], x, rest, j);
        } else {
          assert u[h] == more[h - 1];
        }
      }
    }
  }

  lemma PartsShow(u: seq<string>, x: string)
    requires u != []
    ensures |u| > 1 ==> Contains(Join(u, x), x)
  {
    if |u| > 1 {
      var rest := Join(u[1..], x);
      var s := u[0] + x + rest;
      assert s[|u[0]|..|u[0]| + |x|] == x;
      assert OccursAt(s, x, |u[0]|);
    }
  }

  /** The secret registered last is masked as if it were alone: wherever the text redacted
      by the others is cut at its occurrences, found from the left and none overlapping,
      the parts are kept in order and a mask stands between them. There always is such a
      cut. */
  lemma MaskedInParts(secrets: seq<string>, x: string, s: string) returns (u: seq<string>)
    requires x != ""
    ensures LeftmostParts(u, x) && Redacted(secrets, s) == Join(u, x)
    ensures Redacted(secrets + [x], s) == Join(u, "***")
    ensures forall v :: LeftmostParts(v, x) && Redacted(secrets, s) == Join(v, x) ==>
      Redacted(secrets + [x], s) == Join(v, "***")
  {
    var t := Redacted(secrets, s);
    assert (secrets + [x])[..|secrets|] == secrets;
    u := PartsExist(t, x);
    forall v | LeftmostParts(v, x) && t == Join(v, x)
      ensures Redacted(secrets + [x], s) == Join(v, MASK)
    {
      ReplacedParts(v, x);
      PartsShow(v, x);
      if !Contains(t, x) {
        assert v == [t];
      }
    }
  }

  lemma {:induction false} ReplacedShorter(s: string, x: string)
    requires |x| >= SHORTEST
    ensures |ReplaceAll(s, x)| <= |s|
    ensures Contains(s, x) ==> |ReplaceAll(s, x)| < |s|
    decreases |s|
  {
    FirstIs(s, x);
    if |s| >= |x| {
      if s[..|x|] == x {
        ReplacedShorter(s[|x|..], x);
      } else {
        ReplacedShorter(s[1..], x);
        if i: nat :| i <= |s| && OccursAt(s, x, i) {
          assert i > 0;
          OneEarlier(s, x, i - 1);
        }
      }
    }
  }

  ghost predicate ShowsNone(s: string, secrets: seq<string>) {
    forall i :: 0 <= i < |secrets| ==> !Contains(s, secrets[i])
  }

  /** A text comes back as it is exactly when no registered secret occurs in it; any other
      comes back shorter. */
  lemma {:induction false} UntouchedExactly(secrets: seq<string>, s: string)
    requires WellKept(secrets)
    ensures Redacted(secrets, s) == s <==> ShowsNone(s, secrets)
    ensures Redacted(secrets, s) != s ==> |Redacted(secrets, s)| < |s|
  {
    if secrets != [] {
      var front, x := secrets[..|secrets| - 1], secrets[|secrets| - 1];
      UntouchedExactly(front, s);
      ReplacedShorter(Redacted(front, s), x);
      assert ShowsNone(s, secrets) <==> ShowsNone(s, front) && !Contains(s, x);
    }
  }
}

/** The log redactor: registering secrets, masking their occurrences one secret after the
    other, and exactly which secrets can never survive it. */
module Redact {
  import opened Text

  const MASK := "***"
  const SHORTEST := 4

  // --- Registering ---------------------------------------------------------------------

  function AddOne(secrets: seq<string>, value: string): seq<string> {
    var v := Trim(value);
    if |v| < SHORTEST || v in secrets then secrets else secrets + [v]
  }

  function AddAll(secrets: seq<string>, values: seq<string>): seq<string> {
    if values == [] then secrets else AddOne(AddAll(secrets, values[..|values| - 1]), values[|values| - 1])
  }

  // --- Masking -----------------------------------------------------------------------------

  predicate OccursAt(s: string, x: string, i: nat) {
    i + |x| <= |s| && s[i..i + |x|] == x
  }

  predicate Contains(s: string, x: string) {
    exists i: nat :: i <= |s| && OccursAt(s, x, i)
  }

  /** Leftmost occurrences first, none overlapping, each replaced by the mask. */
  function ReplaceAll(s: string, x: string): string
    requires x != ""
    decreases |s|
  {
    if |s| < |x| then s
    else if s[..|x|] == x then MASK + ReplaceAll(s[|x|..], x)
    else [s[0]] + ReplaceAll(s[1..], x)
  }

  function MaskOne(s: string, x: string): string {
    if x != "" && Contains(s, x) then ReplaceAll(s, x) else s
  }

  function Redacted(secrets: seq<string>, s: string): string {
    if secrets == [] then s else MaskOne(Redacted(secrets[..|secrets| - 1], s), secrets[|secrets| - 1])
  }

  class Redactor {
    var secrets: seq<string>

    constructor ()
      ensures secrets == []
    {
      secrets := [];
    }

    method Add(values: seq<string>)
      modifies this
      ensures secrets == AddAll(old(secrets), values)
    {
      for i := 0 to |values|
        invariant secrets == AddAll(old(secrets), values[..i])
      {
        assert values[..i + 1][..i] == values[..i];
        var v := Trim(values[i]);
        if |v| < SHORTEST {
          continue;
        }
        var dup := false;
        for j := 0 to |secrets|
          invariant dup <==> v in secrets[..j]
        {
          assert secrets[..j + 1] == secrets[..j] + [secrets[j]];
          if secrets[j] == v {
            dup := true;
            break;
          }
        }
        assert dup ==> v in secrets;
        if !dup {
          secrets := secrets + [v];
        }
      }
      assert values[..|values|] == values;
    }

    method String(text: string) returns (s: string)
      ensures s == Redacted(secrets, text)
    {
      s := text;
      if s == "" {
        NothingToMask(secrets);
        return;
      }
      for i := 0 to |secrets|
        invariant s == Redacted(secrets[..i], text)
      {
        assert secrets[..i + 1][..i] == secrets[..i];
        if secrets[i] != "" && Contains(s, secrets[i]) {
          s := ReplaceAll(s, secrets[i]);
        }
      }
      assert secrets[..|secrets|] == secrets;
    }
  }

  lemma {:induction false} NothingToMask(secrets: seq<string>)
    ensures Redacted(secrets, "") == ""
  {
    if secrets != [] {
      NothingToMask(secrets[..|secrets| - 1]);
    }
  }

  // --- What is registered ----------------------------------------------------------------------

  lemma {:induction false} TrimLeftStrips(s: string)
    ensures |TrimLeft(s)| <= |s| && TrimLeft(s) == s[|s| - |TrimLeft(s)|..] && Blank(s[..|s| - |TrimLeft(s)|])
    ensures TrimLeft(s) != "" ==> !IsSpace(TrimLeft(s)[0])
  {
    if s != "" && IsSpace(s[0]) {
      var rest := s[1..];
      TrimLeftStrips(rest);
      var cut := |rest| - |TrimLeft(rest)|;
      assert s[..cut + 1] == [s[0]] + rest[..cut];
      assert s[cut + 1..] == rest[cut..];
    }
  }

  lemma {:induction false} TrimRightStrips(s: string)
    ensures |TrimRight(s)| <= |s| && TrimRight(s) == s[..|TrimRight(s)|] && Blank(s[|TrimRight(s)|..])
    ensures TrimRight(s) != "" ==> !IsSpace(TrimRight(s)[|TrimRight(s)| - 1])
  {
    if s != "" && IsSpace(s[|s| - 1]) {
      var front := s[..|s| - 1];
      TrimRightStrips(front);
      var kept := |TrimRight(front)|;
      assert s[kept..] == front[kept..] + [s[|s| - 1]];
      assert s[..kept] == front[..kept];
    }
  }

  /** Trimming cuts blanks off both ends and leaves none there. */
  lemma TrimExact(s: string) returns (left: string, right: string)
    ensures s == left + Trim(s) + right && Blank(left) && Blank(right)
    ensures Trim(s) != "" ==> !IsSpace(Trim(s)[0]) && !IsSpace(Trim(s)[|Trim(s)| - 1])
  {
    var t := TrimLeft(s);
    TrimLeftStrips(s);
    TrimRightStrips(t);
    left, right := s[..|s| - |t|], t[|Trim(s)|..];
    assert t == Trim(s) + right && s == left + t;
    assert s == left + Trim(s) + right;
  }

  ghost predicate WellKept(secrets: seq<string>) {
    && (forall i :: 0 <= i < |secrets| ==> |secrets[i]| >= SHORTEST)
    && (forall i, j :: 0 <= i < j < |secrets| ==> secrets[i] != secrets[j])
  }

  predicate Given(values: seq<string>, x: string) {
    exists i :: 0 <= i < |values| && Trim(values[i]) == x
  }

  lemma GivenSnoc(values: seq<string>, last: string, x: string)
    ensures Given(values + [last], x) <==> Given(values, x) || Trim(last) == x
  {
    var all := values + [last];
    assert all[|values|] == last;
    if i :| 0 <= i < |values| && Trim(values[i]) == x {
      assert all[i] == values[i];
    }
  }

  /** Every value that is long enough once trimmed is registered; nothing else is. */
  lemma {:induction false} RegisteredExactly(secrets: seq<string>, values: seq<string>, x: string)
    ensures x in AddAll(secrets, values) <==> x in secrets || (|x| >= 4 && Given(values, x))
  {
    if values != [] {
      var front, last := values[..|values| - 1], values[|values| - 1];
      RegisteredExactly(secrets, front, x);
      assert values == front + [last];
      GivenSnoc(front, last, x);
    }
  }

  /** No secret is registered twice, none is short, and none is forgotten. */
  lemma {:induction false} RegistryKept(secrets: seq<string>, values: seq<string>)
    requires WellKept(secrets)
    ensures WellKept(AddAll(secrets, values)) && secrets <= AddAll(secrets, values)
  {
    if values != [] {
      RegistryKept(secrets, values[..|values| - 1]);
    }
  }

  // --- What the mask can do to a secret -----------------------------------------------------------

  /** The mask cannot take part in an occurrence of x. */
  predicate MaskSafe(x: string) {
    x != "" && x[0] != '*' && x[|x| - 1] != '*' && !Contains(x, "***")
  }

  /** A part of a safe secret that ends with it. */
  predicate SafeTail(t: string) {
    (t != "" ==> t[|t| - 1] != '*') && !Contains(t, MASK)
  }

  lemma TailContains(s: string, x: string, k: nat)
    requires k <= |s| && Contains(s[k..], x)
    ensures Contains(s, x)
  {
    var i: nat :| i <= |s[k..]| && OccursAt(s[k..], x, i);
    assert s[k + i..k + i + |x|] == s[k..][i..i + |x|];
    assert OccursAt(s, x, k + i);
  }

  lemma ShorterTail(t: string)
    requires t != "" && SafeTail(t)
    ensures SafeTail(t[1..])
  {
    if Contains(t[1..], MASK) {
      TailContains(t, MASK, 1);
    }
  }

  lemma CharAt(s: string, x: string, i: nat, k: nat)
    requires OccursAt(s, x, i) && k < |x|
    ensures i + k < |s| && s[i + k] == x[k]
  {
    assert s[i..i + |x|][k] == s[i + k];
  }

  lemma ThreeStars(s: string, i: nat)
    requires i + 3 <= |s| && s[i] == '*' && s[i + 1] == '*' && s[i + 2] == '*'
    ensures OccursAt(s, MASK, i) && Contains(s, MASK)
  {
    assert s[i..i + 3] == MASK;
    assert OccursAt(s, MASK, i);
  }

  lemma StarPrefix(t: string, rest: string)
    requires t <= MASK + rest
    ensures |t| >= 3 ==> Contains(t, MASK)
    ensures 0 < |t| < 3 ==> t[|t| - 1] == '*'
  {
    if |t| >= 3 {
      ThreeStars(t, 0);
    }
  }

  /** A safe tail at the front of a masked text was at the front of the text. */
  lemma {:induction false} PrefixSurvives(s: string, y: string, t: string)
    requires y != "" && SafeTail(t) && t <= ReplaceAll(s, y)
    ensures t <= s
    decreases |s|
  {
    if |s| >= |y| {
      if s[..|y|] == y {
        StarPrefix(t, ReplaceAll(s[|y|..], y));
      } else if t != "" {
        ShorterTail(t);
        assert t[1..] <= ReplaceAll(s, y)[1..] == ReplaceAll(s[1..], y);
        PrefixSurvives(s[1..], y, t[1..]);
      }
    }
  }

  lemma OccursLater(a: string, b: string, x: string, i: nat)
    requires OccursAt(a + b, x, i) && i >= |a|
    ensures OccursAt(b, x, i - |a|)
  {
    assert b[i - |a|..i - |a| + |x|] == (a + b)[i..i + |x|];
  }

  /** Masking another secret never makes a safe secret appear, and masking the secret
      itself leaves no occurrence of it. */
  lemma {:induction false} MaskCreatesNothing(s: string, y: string, x: string, i: nat)
    requires y != "" && MaskSafe(x) && OccursAt(ReplaceAll(s, y), x, i)
    ensures Contains(s, x) && x != y
    decreases |s|
  {
    if |s| < |y| {
      assert OccursAt(s, x, i);
    } else if s[..|y|] == y {
      CharAt(ReplaceAll(s, y), x, i, 0);
      assert i >= 3;
      OccursLater(MASK, ReplaceAll(s[|y|..], y), x, i);
      MaskCreatesNothing(s[|y|..], y, x, i - 3);
      TailContains(s, x, |y|);
    } else if i > 0 {
      OccursLater([s[0]], ReplaceAll(s[1..], y), x, i);
      MaskCreatesNothing(s[1..], y, x, i - 1);
      TailContains(s, x, 1);
    } else {
      ShorterTail(x);
      assert x[1..] <= ReplaceAll(s[1..], y) by {
        assert x <= ReplaceAll(s, y);
      }
      PrefixSurvives(s[1..], y, x[1..]);
      assert x[0] == s[0] && x <= s;
      assert OccursAt(s, x, 0);
    }
  }

  lemma MaskOneKeeps(s: string, y: string, x: string)
    requires MaskSafe(x) && Contains(MaskOne(s, y), x)
    ensures Contains(s, x) && x != y
  {
    if y != "" && Contains(s, y) {
      var i: nat :| i <= |ReplaceAll(s, y)| && OccursAt(ReplaceAll(s, y), x, i);
      MaskCreatesNothing(s, y, x, i);
    }
  }

  /** No registered secret that the mask is safe for survives, whatever else is registered,
      in whatever order, and however the secrets overlap or contain one another. */
  lemma {:induction false} NoSafeSecretSurvives(secrets: seq<string>, s: string, x: string)
    requires x in secrets && MaskSafe(x)
    ensures !Contains(Redacted(secrets, s), x)
  {
    var front, last := secrets[..|secrets| - 1], secrets[|secrets| - 1];
    if Contains(Redacted(secrets, s), x) {
      MaskOneKeeps(Redacted(front, s), last, x);
      assert x in front;
      NoSafeSecretSurvives(front, s, x);
    }
  }

  // --- Which secrets are safe --------------------------------------------------------------------

  ghost predicate NeverSurvives(x: string) {
    forall s :: !Contains(Redacted([x], s), x)
  }

  lemma OneEarlier(s: string, x: string, j: nat)
    requires s != ""
    ensures OccursAt(s[1..], x, j) <==> OccursAt(s, x, j + 1)
  {
    if j + 1 + |x| <= |s| {
      assert s[1..][j..j + |x|] == s[j + 1..j + 1 + |x|];
    }
  }

  lemma {:induction false} ReplacePast(u: string, x: string, v: string)
    requires x != "" && |v| < |x|
    requires forall j: nat :: j < |u| ==> !OccursAt(u + x + v, x, j)
    ensures ReplaceAll(u + x + v, x) == u + MASK + v
  {
    var s := u + x + v;
    if u == "" {
      assert s[..|x|] == x && s[|x|..] == v;
    } else {
      assert !OccursAt(s, x, 0);
      assert s[0..|x|] == s[..|x|];
      var rest := u[1..];
      assert s[1..] == rest + x + v && s[0] == u[0];
      forall j: nat | j < |rest|
        ensures !OccursAt(rest + x + v, x, j)
      {
        assert !OccursAt(s, x, j + 1);
        OneEarlier(s, x, j);
      }
      ReplacePast(rest, x, v);
      assert ReplaceAll(s, x) == [u[0]] + (rest + MASK + v);
      assert u == [u[0]] + rest;
    }
  }

  lemma Survives(x: string, u: string, v: string)
    requires x != "" && |v| < |x| && Contains(u + MASK + v, x)
    requires forall j: nat :: j < |u| ==> !OccursAt(u + x + v, x, j)
    ensures !NeverSurvives(x)
  {
    var s := u + x + v;
    ReplacePast(u, x, v);
    assert OccursAt(s, x, |u|);
    assert [x][..0] == [];
    assert Redacted([x], s) == u + MASK + v;
  }

  lemma LeadingStarSurvives(x: string)
    requires x != "" && x[0] == '*'
    ensures !NeverSurvives(x)
  {
    assert ("" + MASK + x[1..])[2..] == x;
    assert OccursAt("" + MASK + x[1..], x, 2);
    Survives(x, "", x[1..]);
  }

  /** The first place where the mask occurs in x. */
  lemma FirstMask(x: string, i: nat) returns (k: nat)
    requires OccursAt(x, MASK, i)
    ensures OccursAt(x, MASK, k) && forall j: nat :: j < k ==> !OccursAt(x, MASK, j)
    decreases i
  {
    if j: nat :| j < i && OccursAt(x, MASK, j) {
      k := FirstMask(x, j);
    } else {
      k := i;
    }
  }

  /** An occurrence of x that starts j places into u shows a mask in x at j. */
  lemma MaskWithin(x: string, u: string, v: string, j: nat, k: nat)
    requires OccursAt(x, MASK, k) && |u| == k && j < k && OccursAt(u + x + v, x, j)
    ensures OccursAt(x, MASK, j)
  {
    var s := u + x + v;
    CharAt(x, MASK, k, 0);
    CharAt(x, MASK, k, 1);
    CharAt(x, MASK, k, 2);
    CharAt(s, x, j, k);
    CharAt(s, x, j, k + 1);
    CharAt(s, x, j, k + 2);
    ThreeStars(x, j);
  }

  lemma InnerMaskSurvives(x: string)
    requires Contains(x, MASK)
    ensures !NeverSurvives(x)
  {
    var i: nat :| i <= |x| && OccursAt(x, MASK, i);
    var k := FirstMask(x, i);
    var u, v := x[..k], x[k + 3..];
    var s := u + x + v;
    forall j: nat | j < |u|
      ensures !OccursAt(s, x, j)
    {
      if OccursAt(s, x, j) {
        MaskWithin(x, u, v, j, k);
      }
    }
    assert u + MASK + v == x;
    assert OccursAt(x, x, 0);
    Survives(x, u, v);
  }

  lemma StarsOnlyAtEnd(x: string) returns (w: nat)
    requires x != "" && x[0] != '*' && x[|x| - 1] == '*' && !Contains(x, MASK)
    ensures 0 < w < |x| && |x| - w <= 2 && x[w - 1] != '*' && forall j :: w <= j < |x| ==> x[j] == '*'
  {
    var n := |x|;
    if n >= 3 && x[n - 3] == '*' && x[n - 2] == '*' {
      ThreeStars(x, n - 3);
    }
    w := if x[n - 2] == '*' then n - 2 else n - 1;
  }

  lemma TrailingStarSurvives(x: string)
    requires x != "" && x[0] != '*' && x[|x| - 1] == '*' && !Contains(x, MASK)
    ensures !NeverSurvives(x)
  {
    var w := StarsOnlyAtEnd(x);
    var u := x[..w];
    var s := u + x + "";
    forall j: nat | j < w
      ensures !OccursAt(s, x, j)
    {
      if OccursAt(s, x, j) {
        CharAt(s, x, j, 0);
        CharAt(s, x, j, w);
      }
    }
    var masked := u + MASK + "";
    assert masked[0..|x|] == x;
    assert OccursAt(masked, x, 0);
    Survives(x, u, "");
  }

  /** The empty text is part of every output. */
  lemma EmptySurvives()
    ensures !NeverSurvives("")
  {
    assert OccursAt(Redacted([""], ""), "", 0);
  }

  /** Exactly the secrets the mask is safe for are masked for good: for any other there is
      a text whose redacted form still shows the secret. */
  lemma SafeExactly(x: string)
    ensures NeverSurvives(x) <==> MaskSafe(x)
  {
    if x == "" {
      EmptySurvives();
    } else if MaskSafe(x) {
      forall s
        ensures !Contains(Redacted([x], s), x)
      {
        NoSafeSecretSurvives([x], s, x);
      }
    } else if x[0] == '*' {
      LeadingStarSurvives(x);
    } else if Contains(x, MASK) {
      InnerMaskSurvives(x);
    } else {
      TrailingStarSurvives(x);
    }
  }

  lemma PartContains(s: string, left: string, x: string, right: string)
    requires Contains(s, left + x + right)
    ensures Contains(s, x)
  {
    var whole := left + x + right;
    var i: nat :| i <= |s| && OccursAt(s, whole, i);
    var at := i + |left|;
    forall k | 0 <= k < |x|
      ensures s[at + k] == x[k]
    {
      CharAt(s, whole, i, |left| + k);
      assert whole[|left| + k] == x[k];
    }
    assert s[at..at + |x|] == x;
    assert OccursAt(s, x, at);
  }

  /** A value handed to Add that is long enough once trimmed, and then safe, shows in no
      output afterwards, neither trimmed nor as it was given. */
  lemma AddedIsMasked(secrets: seq<string>, values: seq<string>, k: nat, s: string)
    requires k < |values| && |Trim(values[k])| >= SHORTEST && MaskSafe(Trim(values[k]))
    ensures !Contains(Redacted(AddAll(secrets, values), s), Trim(values[k]))
    ensures !Contains(Redacted(AddAll(secrets, values), s), values[k])
  {
    var x, all := Trim(values[k]), AddAll(secrets, values);
    assert Given(values, x);
    RegisteredExactly(secrets, values, x);
    NoSafeSecretSurvives(all, s, x);
    var left, right := TrimExact(values[k]);
    if Contains(Redacted(all, s), values[k]) {
      PartContains(Redacted(all, s), left, x, right);
    }
  }

  /** A secret without a star is safe. */
  lemma StarFreeIsSafe(x: string)
    requires x != "" && '*' !in x
    ensures MaskSafe(x)
  {
    if i: nat :| i <= |x| && OccursAt(x, MASK, i) {
      CharAt(x, MASK, i, 0);
    }
  }
}

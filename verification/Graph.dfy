/** Finite directed graphs as sets of arcs: paths, reachability, cycles, and the
    breadth-first search that the validator and the wave executor share. */
module Graph {
  type Key = string
  type Arcs = set<(Key, Key)>

  ghost predicate IsPath(g: Arcs, p: seq<Key>) {
    |p| > 0 && forall i :: 0 <= i < |p| - 1 ==> (p[i], p[i + 1]) in g
  }

  ghost predicate PathFromTo(g: Arcs, p: seq<Key>, a: Key, b: Key) {
    IsPath(g, p) && p[0] == a && p[|p| - 1] == b
  }

  ghost predicate Reaches(g: Arcs, a: Key, b: Key) {
    exists p: seq<Key> :: PathFromTo(g, p, a, b)
  }

  /** A walk along at least one arc that ends where it began. */
  ghost predicate ClosedWalk(g: Arcs, p: seq<Key>) {
    IsPath(g, p) && |p| >= 2 && p[0] == p[|p| - 1]
  }

  ghost predicate Acyclic(g: Arcs) {
    forall p: seq<Key> :: IsPath(g, p) ==> !ClosedWalk(g, p)
  }

  ghost predicate Distinct(s: seq<Key>) {
    forall i, j :: 0 <= i < j < |s| ==> s[i] != s[j]
  }

  function Elements(s: seq<Key>): (r: set<Key>)
    ensures forall x :: x in r <==> x in s
  {
    set x | x in s
  }

  lemma PathSlice(g: Arcs, p: seq<Key>, i: nat, j: nat)
    requires IsPath(g, p) && i < j <= |p|
    ensures IsPath(g, p[i..j])
  {
    var q := p[i..j];
    forall k | 0 <= k < |q| - 1
      ensures (q[k], q[k + 1]) in g
    {
      assert q[k] == p[i + k] && q[k + 1] == p[i + k + 1];
    }
  }

  lemma PathExtend(g: Arcs, p: seq<Key>, v: Key)
    requires IsPath(g, p) && (p[|p| - 1], v) in g
    ensures PathFromTo(g, p + [v], p[0], v)
  {
  }

  lemma ReachesRefl(g: Arcs, a: Key)
    ensures Reaches(g, a, a)
  {
    assert PathFromTo(g, [a], a, a);
  }

  lemma ReachesStep(g: Arcs, a: Key, b: Key, c: Key)
    requires Reaches(g, a, b) && (b, c) in g
    ensures Reaches(g, a, c)
  {
    var p :| PathFromTo(g, p, a, b);
    PathExtend(g, p, c);
  }

  /** A set closed under the arcs holds everything reachable from its members. */
  lemma {:induction false} ClosedPath(g: Arcs, s: set<Key>, p: seq<Key>)
    requires forall a, b :: (a, b) in g && a in s ==> b in s
    requires IsPath(g, p) && p[0] in s
    ensures p[|p| - 1] in s
  {
    if |p| > 1 {
      PathSlice(g, p, 1, |p|);
      ClosedPath(g, s, p[1..]);
    }
  }

  lemma DistinctCard(s: seq<Key>)
    requires Distinct(s)
    ensures |Elements(s)| == |s|
  {
    if s == [] {
      assert Elements(s) == {};
    } else {
      var t := s[..|s| - 1];
      DistinctCard(t);
      assert s == t + [s[|s| - 1]];
      assert Elements(s) == Elements(t) + {s[|s| - 1]};
    }
  }

  lemma SubsetCard(a: set<Key>, b: set<Key>)
    requires a <= b
    ensures |a| <= |b|
    ensures |a| == |b| ==> a == b
  {
    if a != {} {
      var x :| x in a;
      SubsetCard(a - {x}, b - {x});
    }
  }

  lemma DistinctWithin(s: seq<Key>, universe: set<Key>)
    requires Distinct(s) && Elements(s) <= universe
    ensures |s| <= |universe|
  {
    DistinctCard(s);
    SubsetCard(Elements(s), universe);
  }

  /** In an acyclic graph no path meets the same vertex twice. */
  lemma AcyclicPathDistinct(g: Arcs, p: seq<Key>)
    requires Acyclic(g) && IsPath(g, p)
    ensures Distinct(p)
  {
    forall i, j | 0 <= i < j < |p|
      ensures p[i] != p[j]
    {
      PathSlice(g, p, i, j + 1);
      var q := p[i..j + 1];
      assert q[0] == p[i] && q[|q| - 1] == p[j];
      assert !ClosedWalk(g, q);
    }
  }

  lemma AcyclicPathGrows(g: Arcs, p: seq<Key>, v: Key)
    requires Acyclic(g) && IsPath(g, p) && (p[|p| - 1], v) in g
    ensures v !in p
  {
    var q := p + [v];
    PathExtend(g, p, v);
    AcyclicPathDistinct(g, q);
    forall i | 0 <= i < |p|
      ensures p[i] != v
    {
      assert q[i] == p[i] && q[|p|] == v;
    }
  }

  /** A ranking that falls along every arc rules out cycles. */
  lemma {:induction false} RankFalls(g: Arcs, rank: map<Key, int>, p: seq<Key>)
    requires forall a, b :: (a, b) in g ==> a in rank && b in rank && rank[b] < rank[a]
    requires IsPath(g, p) && |p| >= 2
    ensures p[0] in rank && p[|p| - 1] in rank && rank[p[|p| - 1]] < rank[p[0]]
  {
    assert (p[0], p[1]) in g;
    if |p| > 2 {
      PathSlice(g, p, 1, |p|);
      RankFalls(g, rank, p[1..]);
    }
  }

  lemma RankedIsAcyclic(g: Arcs, rank: map<Key, int>)
    requires forall a, b :: (a, b) in g ==> a in rank && b in rank && rank[b] < rank[a]
    ensures Acyclic(g)
  {
    forall p: seq<Key> | IsPath(g, p)
      ensures !ClosedWalk(g, p)
    {
      if |p| >= 2 {
        RankFalls(g, rank, p);
      }
    }
  }

  /** Every non-empty set of vertices of an acyclic graph has a member without a
      predecessor in the set: the reason the wave scheduler cannot stall. */
  lemma AcyclicHasSource(g: Arcs, s: set<Key>) returns (v: Key)
    requires Acyclic(g) && s != {}
    ensures v in s && forall u :: u in s ==> (u, v) !in g
  {
    var x :| x in s;
    v := SourceAbove(g, s, [x]);
  }

  lemma SourceAbove(g: Arcs, s: set<Key>, p: seq<Key>) returns (v: Key)
    requires Acyclic(g) && IsPath(g, p) && Elements(p) <= s
    ensures v in s && forall u :: u in s ==> (u, v) !in g
    decreases |s| - |p|
  {
    if u :| u in s && (u, p[0]) in g {
      var q := [u] + p;
      forall k | 0 <= k < |q| - 1
        ensures (q[k], q[k + 1]) in g
      {
      }
      AcyclicPathDistinct(g, q);
      DistinctWithin(q, s);
      v := SourceAbove(g, s, q);
    } else {
      v := p[0];
    }
  }

  // --- Breadth-first search --------------------------------------------------

  /** The arcs given by an adjacency table. */
  ghost function AdjArcs(adj: map<Key, seq<Key>>): Arcs {
    set a, i | a in adj && 0 <= i < |adj[a]| :: (a, adj[a][i])
  }

  lemma AdjArc(adj: map<Key, seq<Key>>, a: Key, b: Key)
    ensures (a, b) in AdjArcs(adj) <==> a in adj && b in adj[a]
  {
    if a in adj && b in adj[a] {
      var i :| 0 <= i < |adj[a]| && adj[a][i] == b;
      assert (a, adj[a][i]) in AdjArcs(adj);
    }
  }

  ghost function Targets(g: Arcs): set<Key> {
    set e | e in g :: e.1
  }

  ghost function ReachSet(g: Arcs, s: Key): (r: set<Key>)
    ensures forall v :: v in r <==> Reaches(g, s, v)
  {
    ReachesRefl(g, s);
    var r := set v | v in {s} + Targets(g) && Reaches(g, s, v);
    assert forall v :: Reaches(g, s, v) ==> v in r by {
      forall v | Reaches(g, s, v)
        ensures v in {s} + Targets(g)
      {
        var p :| PathFromTo(g, p, s, v);
        if |p| > 1 {
          assert (p[|p| - 2], p[|p| - 1]) in g;
        }
      }
    }
    r
  }

  /** The queue-driven search: visits exactly the vertices some path reaches. */
  method Search(adj: map<Key, seq<Key>>, start: Key) returns (seen: set<Key>)
    ensures seen == ReachSet(AdjArcs(adj), start)
  {
    seen := {};
    var queue := [start];
    ghost var g := AdjArcs(adj);
    ReachesRefl(g, start);
    while |queue| > 0
      invariant start in seen || start in queue
      invariant forall v :: v in seen || v in queue ==> Reaches(g, start, v)
      invariant forall a, b :: (a, b) in g && a in seen ==> b in seen || b in queue
      decreases ReachSet(g, start) - seen, |queue|
    {
      var cur := queue[0];
      queue := queue[1..];
      if cur in seen {
        continue;
      }
      ghost var before := seen;
      seen := seen + {cur};
      var next := if cur in adj then adj[cur] else [];
      forall v | v in next
        ensures Reaches(g, start, v)
      {
        AdjArc(adj, cur, v);
        ReachesStep(g, start, cur, v);
      }
      forall b | (cur, b) in g
        ensures b in next
      {
        AdjArc(adj, cur, b);
      }
      queue := queue + next;
      assert cur in ReachSet(g, start) - before;
    }
    forall v | Reaches(g, start, v)
      ensures v in seen
    {
      var p :| PathFromTo(g, p, start, v);
      ClosedPath(g, seen, p);
    }
  }
}

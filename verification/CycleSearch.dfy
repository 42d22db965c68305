/** The validator's three-colour depth-first search for a cycle. */
module CycleSearch {
  import opened Graph

  datatype Color = Gray | Black

  /** The arcs between known nodes: edges that mention an unknown key are skipped. */
  ghost function KnownArcs(known: set<Key>, adj: map<Key, seq<Key>>): (g: Arcs)
    ensures forall a, b {:trigger (a, b) in g} :: (a, b) in g <==> a in known && b in known && a in adj && b in adj[a]
  {
    var g := set e | e in AdjArcs(adj) && e.0 in known && e.1 in known;
    forall a, b
      ensures (a, b) in g <==> a in known && b in known && a in adj && b in adj[a]
    {
      AdjArc(adj, a, b);
    }
    g
  }

  ghost predicate Blackened(color: map<Key, Color>, k: Key) {
    k in color && color[k] == Black
  }

  /** The search invariant: the gray nodes are exactly the stack, which is a path, and a
      black node's arcs lead to black nodes of smaller rank. */
  ghost predicate Consistent(g: Arcs, known: set<Key>, color: map<Key, Color>, stack: seq<Key>, rank: map<Key, int>,
          clock: int) {
    && color.Keys <= known
    && Distinct(stack)
    && (forall k :: k in stack <==> k in color && color[k] == Gray)
    && (stack != [] ==> IsPath(g, stack))
    && (forall k :: k in rank <==> Blackened(color, k))
    && (forall k :: k in rank ==> rank[k] < clock)
    && (forall a, b {:trigger (a, b) in g} :: (a, b) in g && Blackened(color, a) ==>
       Blackened(color, b) && rank[b] < rank[a])
  }

  lemma Open(g: Arcs, known: set<Key>, color: map<Key, Color>, stack: seq<Key>, rank: map<Key, int>, clock: int, u: Key)
    requires Consistent(g, known, color, stack, rank, clock)
    requires u in known && u !in color
    requires stack != [] ==> (stack[|stack| - 1], u) in g
    ensures Consistent(g, known, color[u := Gray], stack + [u], rank, clock)
  {
    if stack != [] {
      PathExtend(g, stack, u);
    }
    var c := color[u := Gray];
    assert forall k :: Blackened(c, k) <==> Blackened(color, k);
  }

  lemma Close(g: Arcs, known: set<Key>, color: map<Key, Color>, stack: seq<Key>, rank: map<Key, int>, clock: int,
          u: Key)
    requires Consistent(g, known, color, stack + [u], rank, clock)
    requires forall v :: (u, v) in g ==> v in rank
    ensures Consistent(g, known, color[u := Black], stack, rank[u := clock], clock + 1)
  {
    var all := stack + [u];
    assert all[|stack|] == u;
    assert u in all && u in color && color[u] == Gray;
    forall k | k in stack
      ensures k != u && k in all
    {
      var i :| 0 <= i < |stack| && stack[i] == k;
      assert all[i] == k;
    }
    if stack != [] {
      PathSlice(g, all, 0, |stack|);
      assert all[0..|stack|] == stack;
    }
    assert Distinct(stack) by {
      forall i, j | 0 <= i < j < |stack|
        ensures stack[i] != stack[j]
      {
        assert all[i] == stack[i] && all[j] == stack[j];
      }
    }
    var c := color[u := Black];
    assert forall k :: Blackened(c, k) <==> Blackened(color, k) || k == u;
  }

  lemma AllBlackAcyclic(g: Arcs, known: set<Key>, color: map<Key, Color>, stack: seq<Key>, rank: map<Key, int>,
          clock: int)
    requires Consistent(g, known, color, stack, rank, clock)
    requires forall a, b :: (a, b) in g ==> a in known
    requires forall a :: a in known ==> a in rank
    ensures Acyclic(g)
  {
    RankedIsAcyclic(g, rank);
  }

  /** A gray target closes a cycle: the stack from its first occurrence, and itself. */
  method CycleAt(ghost g: Arcs, stack: seq<Key>, v: Key) returns (cycle: seq<Key>)
    requires IsPath(g, stack) && v in stack && (stack[|stack| - 1], v) in g
    ensures ClosedWalk(g, cycle)
  {
    ghost var at :| 0 <= at < |stack| && stack[at] == v;
    var idx := 0;
    while stack[idx] != v
      invariant 0 <= idx <= at
      decreases at - idx
    {
      idx := idx + 1;
    }
    PathSlice(g, stack, idx, |stack|);
    PathExtend(g, stack[idx..], v);
    return stack[idx..] + [v];
  }

  /** The state the recursive search closes over. A key without a colour is white. */
  class Finder {
    const known: set<Key>
    const adj: map<Key, seq<Key>>
    ghost const g: Arcs
    var color: map<Key, Color>
    var stack: seq<Key>
    var cycle: seq<Key>
    /** Order in which nodes were blackened; every arc out of a black node falls. */
    ghost var rank: map<Key, int>
    ghost var clock: int

    ghost predicate Valid()
      reads this
    {
      g == KnownArcs(known, adj) && Consistent(g, known, color, stack, rank, clock)
    }

    constructor (known: set<Key>, adj: map<Key, seq<Key>>)
      ensures Valid() && this.known == known && this.adj == adj && color == map[] && stack == []
    {
      this.known, this.adj, this.g := known, adj, KnownArcs(known, adj);
      color, stack, cycle, rank, clock := map[], [], [], map[], 0;
    }

    method Enter(u: Key)
      requires Valid() && u in known && u !in color
      requires stack != [] ==> (stack[|stack| - 1], u) in g
      modifies this`color, this`stack
      ensures Valid() && color == old(color)[u := Gray] && stack == old(stack) + [u]
    {
      Open(g, known, color, stack, rank, clock, u);
      color := color[u := Gray];
      stack := stack + [u];
    }

    method Leave(u: Key, ghost below: seq<Key>)
      requires Valid() && stack == below + [u]
      requires forall v :: (u, v) in g ==> v in rank
      modifies this
      ensures Valid() && stack == below
      ensures color == old(color)[u := Black] && rank.Keys == old(rank.Keys) + {u}
    {
      Close(g, known, color, below, rank, clock, u);
      stack := stack[..|stack| - 1];
      color := color[u := Black];
      rank := rank[u := clock];
      clock := clock + 1;
    }

    /** One arc of the node on top of the stack. */
    method Follow(v: Key) returns (found: bool)
      requires Valid() && stack != []
      requires v in known && (stack[|stack| - 1], v) in g
      modifies this
      ensures found ==> ClosedWalk(g, cycle)
      ensures !found ==> Valid() && stack == old(stack) && v in rank
      ensures !found ==> old(color.Keys) <= color.Keys && old(rank.Keys) <= rank.Keys
      decreases known - color.Keys, 1
    {
      if v !in color {
        found := Visit(v);
      } else if color[v] == Gray {
        cycle := CycleAt(g, stack, v);
        found := true;
      } else {
        found := false;
      }
    }

    method Visit(u: Key) returns (found: bool)
      requires Valid()
      requires u in known && u !in color
      requires stack != [] ==> (stack[|stack| - 1], u) in g
      modifies this
      ensures found ==> ClosedWalk(g, cycle)
      ensures !found ==> Valid() && stack == old(stack) && u in rank
      ensures !found ==> old(color.Keys) <= color.Keys && old(rank.Keys) <= rank.Keys
      decreases known - color.Keys, 0
    {
      Enter(u);
      var targets := if u in adj then adj[u] else [];
      for i := 0 to |targets|
        invariant Valid() && stack == old(stack) + [u]
        invariant old(color.Keys) + {u} <= color.Keys && old(rank.Keys) <= rank.Keys
        invariant forall j :: 0 <= j < i && targets[j] in known ==> targets[j] in rank
      {
        if targets[i] in known {
          assert (u, targets[i]) in g;
          found := Follow(targets[i]);
          if found {
            return;
          }
        }
      }
      Leave(u, old(stack));
      return false;
    }
  }

  /** Sound and complete: an empty answer means the known part of the graph has no
      cycle, any other answer is a closed walk along its arcs. */
  method FindCycle(known: set<Key>, adj: map<Key, seq<Key>>) returns (cycle: seq<Key>)
    ensures cycle == [] <==> Acyclic(KnownArcs(known, adj))
    ensures cycle != [] ==> ClosedWalk(KnownArcs(known, adj), cycle)
  {
    var finder := new Finder(known, adj);
    var todo := known;
    while todo != {}
      invariant finder.Valid() && finder.stack == [] && todo <= known
      invariant finder.known == known && finder.adj == adj
      invariant fresh(finder)
      invariant forall k :: k in known - todo ==> k in finder.rank
    {
      var key :| key in todo;
      todo := todo - {key};
      if key !in finder.color {
        var found := finder.Visit(key);
        if found {
          assert IsPath(KnownArcs(known, adj), finder.cycle);
          return finder.cycle;
        }
      } else {
        assert finder.color[key] == Black;
      }
    }
    AllBlackAcyclic(finder.g, known, finder.color, finder.stack, finder.rank, finder.clock);
    return [];
  }
}

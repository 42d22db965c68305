/** Opening an old chain in the editor and saving it again: what the validator says. */
module Saved {
  import opened Text
  import opened Graph
  import opened Chains
  import opened Validate
  import opened Lawful
  import opened Migration
  import Refinement

  lemma OpenedNodes(c: Chain, s: Key, entry: Key, at: nat)
    requires at <= |c.nodes|
    ensures var nodes := Migrate(c, s, entry, at).nodes;
            && StartNode(s) in nodes && (forall n :: n in c.nodes ==> Pin(n) in nodes)
            && forall m :: m in nodes ==> m == StartNode(s) || exists n :: n in c.nodes && m == Pin(n)
  {
    var nodes := Migrate(c, s, entry, at).nodes;
    MigratedNodeAt(c, s, entry, at, at);
    forall n | n in c.nodes
      ensures Pin(n) in nodes
    {
      var i :| 0 <= i < |c.nodes| && c.nodes[i] == n;
      MigratedNodeAt(c, s, entry, at, if i < at then i else i + 1);
    }
    forall m | m in nodes
      ensures m == StartNode(s) || exists n :: n in c.nodes && m == Pin(n)
    {
      var i :| 0 <= i < |nodes| && nodes[i] == m;
      MigratedNodeAt(c, s, entry, at, i);
    }
  }

  lemma OpenedArcs(c: Chain, s: Key, entry: Key, at: nat)
    requires at <= |c.nodes|
    ensures AllArcs(Migrate(c, s, entry, at).edges) == AllArcs(c.edges) + {(s, entry)}
  {
    var edges := Migrate(c, s, entry, at).edges;
    assert edges[0] == Edge(s, entry, NextCondition);
    forall i | 0 <= i < |c.edges|
      ensures edges[i + 1] == c.edges[i]
    {
    }
    forall a, b
      ensures (a, b) in AllArcs(edges) <==> (a, b) in AllArcs(c.edges) || (a, b) == (s, entry)
    {
      if i :| 0 <= i < |edges| && edges[i].source == a && edges[i].target == b {
        assert i > 0 ==> edges[i] == c.edges[i - 1];
      }
      if i :| 0 <= i < |c.edges| && c.edges[i].source == a && c.edges[i].target == b {
        assert edges[i + 1] == c.edges[i];
      }
    }
  }

  lemma PinnedIsLawful(c: Chain, c': Chain, n: Node)
    requires LawfulIdentity(n) && LawfulLimits(n) && LawfulLogical(c, n) && n.kind != StartKind
    requires c'.mode == c.mode && forall e :: e in c.edges ==> e in c'.edges
    ensures LawfulIdentity(Pin(n)) && LawfulLimits(Pin(n)) && LawfulLogical(c', Pin(n))
  {
  }

  lemma StartIsLawful(c: Chain, s: Key, entry: Key)
    requires !Blank(s) && Edge(s, entry, NextCondition) in c.edges
    ensures LawfulIdentity(StartNode(s)) && LawfulLimits(StartNode(s)) && LawfulLogical(c, StartNode(s))
  {
    assert Leaves(Edge(s, entry, NextCondition), s);
  }

  lemma OpenedEdge(c: Chain, c': Chain, s: Node, e: Edge)
    requires LawfulEdge(c, e) && forall n :: n in c.nodes ==> Pin(n) in c'.nodes
    ensures LawfulEdge(c', e)
  {
    var a :| a in c.nodes && a.key == e.source;
    var b :| b in c.nodes && b.key == e.target;
    assert Pin(a) in c'.nodes && Pin(b) in c'.nodes;
  }

  lemma ReachedThrough(g: Arcs, s: Key, entry: Key, k: Key)
    requires Reaches(g, entry, k)
    ensures Reaches(g + {(s, entry)}, s, k)
  {
    var path :| PathFromTo(g, path, entry, k);
    var longer := [s] + path;
    assert IsPath(g + {(s, entry)}, longer) by {
      forall i | 0 <= i < |longer| - 1
        ensures (longer[i], longer[i + 1]) in g + {(s, entry)}
      {
        if i > 0 {
          assert (path[i - 1], path[i]) in g;
        }
      }
    }
    assert PathFromTo(g + {(s, entry)}, longer, s, k);
  }

  lemma OpenedBlocks(c: Chain, s: Key, at: nat)
    requires Lawful.Lawful(c) && SoleEntry(c) && (forall n :: n in c.nodes ==> n.kind != StartKind)
    requires !Blank(s) && at <= |c.nodes|
    ensures var c' := Migrate(c, s, Entry(c), at);
            forall m :: m in c'.nodes ==> LawfulIdentity(m) && LawfulLimits(m) && LawfulLogical(c', m)
  {
    var c' := Migrate(c, s, Entry(c), at);
    OpenedNodes(c, s, Entry(c), at);
    assert c'.edges[0] == Edge(s, Entry(c), NextCondition) && forall e :: e in c.edges ==> e in c'.edges;
    StartIsLawful(c', s, Entry(c));
    forall m | m in c'.nodes
      ensures LawfulIdentity(m) && LawfulLimits(m) && LawfulLogical(c', m)
    {
      if m != StartNode(s) {
        var n :| n in c.nodes && m == Pin(n);
        PinnedIsLawful(c, c', n);
      }
    }
  }

  lemma OpenedEdges(c: Chain, s: Key, at: nat)
    requires Lawful.Lawful(c) && WellFormed(c) && at <= |c.nodes|
    ensures forall e :: e in Migrate(c, s, Entry(c), at).edges ==> LawfulEdge(Migrate(c, s, Entry(c), at), e)
  {
    var entry := Entry(c);
    var c' := Migrate(c, s, entry, at);
    OpenedNodes(c, s, entry, at);
    assert entry in EntryKeys(c);
    var i :| 0 <= i < |c.nodes| && c.nodes[i].key == entry;
    assert Pin(c.nodes[i]) in c'.nodes;
    forall e | e in c'.edges
      ensures LawfulEdge(c', e)
    {
      if e in c.edges {
        OpenedEdge(c, c', StartNode(s), e);
      } else {
        assert e == Edge(s, entry, NextCondition);
        assert StartNode(s) in c'.nodes && StartNode(s).key == s;
      }
    }
  }

  lemma OpenedShape(c: Chain, s: Key, at: nat)
    requires Lawful.Lawful(c) && WellFormed(c) && (forall n :: n in c.nodes ==> n.kind != StartKind)
    requires !HasKey(c, s) && at <= |c.nodes|
    ensures var c' := Migrate(c, s, Entry(c), at);
            && (exists n :: n in c'.nodes && n.kind in {BlankKind, ProviderKind})
            && Acyclic(AllArcs(c'.edges)) && OnlyEntry(c', StartNode(s)) && ReachesEvery(c', StartNode(s))
  {
    var entry := Entry(c);
    var c' := Migrate(c, s, entry, at);
    OpenedNodes(c, s, entry, at);
    var provider :| provider in c.nodes && provider.kind in {BlankKind, ProviderKind};
    assert Pin(provider) in c'.nodes;
    OpenedArcs(c, s, entry, at);
    assert entry in EntryKeys(c);
    assert HasKey(c, entry);
    assert forall a, b :: (a, b) in AllArcs(c.edges) ==> b != s;
    Refinement.StillAcyclic(AllArcs(c.edges), s, entry);
    forall m | m in c'.nodes
      ensures Reaches(AllArcs(c'.edges), s, m.key) && (IsEntry(m) <==> m == StartNode(s))
    {
      if m == StartNode(s) {
        ReachesRefl(AllArcs(c'.edges), s);
      } else {
        var n :| n in c.nodes && m == Pin(n);
        ReachedThrough(AllArcs(c.edges), s, entry, n.key);
      }
    }
  }

  /** An accepted chain without a Start block is still accepted once the editor has given it
      one, whatever the new block's key and place. */
  lemma OpenedIsAccepted(c: Chain, s: Key, at: nat)
    requires Accepts(c) && (forall n :: n in c.nodes ==> n.kind != StartKind)
    requires !Blank(s) && !HasKey(c, s) && at <= |c.nodes|
    ensures SoleEntry(c) && Accepts(Migrate(c, s, Entry(c), at))
  {
    AcceptedIsWellFormed(c);
    AcceptsExactly(c);
    MigratedDistinct(c, s, Entry(c), at);
    OpenedBlocks(c, s, at);
    OpenedEdges(c, s, at);
    OpenedShape(c, s, at);
    AcceptsExactly(Migrate(c, s, Entry(c), at));
  }
}

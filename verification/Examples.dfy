/** Two old full-chain chains, both accepted: a line, which the editor leaves as it was, and
    a fork, whose results change when it is opened. */
module Examples {
  import opened Text
  import opened Graph
  import opened Chains
  import opened Validate
  import opened Plans
  import opened FullChain
  import opened Legacy
  import opened Migration
  import opened Refinement
  import opened Exactness

  function Search(key: Key, start: bool): Node {
    Node(key, ProviderKind, "instance", Written(SearchMode, true), 20000, 0, 700,
         Written(BlankPolicy, true), Written(BlankPolicy, true), Written(BlankPolicy, true), start, None, None)
  }

  const LINE := Chain(FullChain, [Search("a", true), Search("b", false)], [Edge("a", "b", NextCondition)])
  const FORK := Chain(FullChain, [Search("a", true), Search("b", false), Search("c", false)],
                      [Edge("a", "b", NextCondition), Edge("a", "c", NextCondition)])

  // --- Chains like these are accepted ---------------------------------------------------------

  /** A search block as the editor makes it, but for its retries. */
  predicate Plain(n: Node) {
    n == Search(n.key, n.isStart).(retries := n.retries) && 0 <= n.retries <= 10
  }

  /** The first block is the entry, a search block or a Start block with somewhere to go. */
  predicate Opens(c: Chain)
    requires |c.nodes| > 0
  {
    (Plain(c.nodes[0]) && c.nodes[0].isStart) || (c.nodes[0] == StartNode(c.nodes[0].key) && |c.nodes| > 1)
  }

  /** An entry with a neutral edge to every other block, all search blocks, whose keys are
      distinct and not blank. */
  ghost predicate Fan(c: Chain) {
    && (c.mode.FullChain? || c.mode.FirstSuccess?)
    && |c.nodes| > 0 && |c.edges| == |c.nodes| - 1 && DistinctKeys(c.nodes) && Opens(c)
    && (forall i :: 0 <= i < |c.nodes| ==> !Blank(c.nodes[i].key))
    && (forall i :: 0 < i < |c.nodes| ==> Plain(c.nodes[i]) && !c.nodes[i].isStart)
    && (forall i :: 0 <= i < |c.edges| ==> c.edges[i] == Edge(c.nodes[0].key, c.nodes[i + 1].key, NextCondition))
  }

  /** A fan of search blocks alone. */
  ghost predicate SearchFan(c: Chain) {
    Fan(c) && Plain(c.nodes[0])
  }

  lemma FanArcs(c: Chain, a: Key, b: Key)
    requires Fan(c)
    ensures (a, b) in AllArcs(c.edges) <==> a == c.nodes[0].key && exists i :: 1 <= i < |c.nodes| && c.nodes[i].key == b
    ensures (a, b) in NeutralArcs(c.edges) <==> (a, b) in AllArcs(c.edges)
  {
    if i :| 1 <= i < |c.nodes| && c.nodes[i].key == b {
      assert c.edges[i - 1].target == b;
    }
    if i :| 0 <= i < |c.edges| && c.edges[i].source == a && c.edges[i].target == b {
      assert c.nodes[i + 1].key == b;
    }
  }

  lemma FanAcyclic(c: Chain)
    requires Fan(c)
    ensures Acyclic(AllArcs(c.edges))
  {
    var first := c.nodes[0].key;
    var rank := map k | k in NodeMap(c.nodes) :: if k == first then 1 else 0;
    NodeMapSound(c.nodes);
    forall a, b | (a, b) in AllArcs(c.edges)
      ensures a in rank && b in rank && rank[b] < rank[a]
    {
      FanArcs(c, a, b);
    }
    RankedIsAcyclic(AllArcs(c.edges), rank);
  }

  lemma FanEntry(c: Chain)
    requires Fan(c)
    ensures SoleEntry(c) && Entry(c) == c.nodes[0].key
    ensures forall i :: 0 <= i < |c.nodes| ==>
      Reaches(NeutralArcs(c.edges), Entry(c), c.nodes[i].key) && Reaches(AllArcs(c.edges), Entry(c), c.nodes[i].key)
  {
    var first := c.nodes[0].key;
    assert EntryKeys(c) == {first};
    forall i | 0 <= i < |c.nodes|
      ensures Reaches(NeutralArcs(c.edges), first, c.nodes[i].key) && Reaches(AllArcs(c.edges), first, c.nodes[i].key)
    {
      ReachesRefl(NeutralArcs(c.edges), first);
      ReachesRefl(AllArcs(c.edges), first);
      if i > 0 {
        FanArcs(c, first, c.nodes[i].key);
        ReachesStep(NeutralArcs(c.edges), first, first, c.nodes[i].key);
        ReachesStep(AllArcs(c.edges), first, first, c.nodes[i].key);
      }
    }
  }

  lemma PlainLimits(n: Node, i: nat, p: Problem)
    requires Plain(n) || n == StartNode(n.key)
    ensures !LimitProblem(n, i, p)
  {
  }

  lemma PlainIdentity(n: Node)
    requires Plain(n) || n == StartNode(n.key)
    ensures !n.kind.OtherKind? && !(IsProvider(n) && Blank(n.providerId)) && n.mode == Written(SearchMode, true)
  {
    assert !IsSpace("instance"[0]);
  }

  lemma FanIdentity(c: Chain, i: nat, p: Problem)
    requires Fan(c) && i < |c.nodes|
    ensures !IdentityProblem(c, i, p)
  {
    assert Plain(c.nodes[i]) || c.nodes[i] == StartNode(c.nodes[i].key);
    PlainIdentity(c.nodes[i]);
  }

  lemma FanStarts(c: Chain, i: nat, p: Problem)
    requires Fan(c) && i < |c.nodes|
    ensures !LogicalProblem(c, i, p)
  {
    assert Plain(c.nodes[i]) || (i == 0 && |c.nodes| > 1);
    if |c.nodes| > 1 {
      assert c.edges[0] == Edge(c.nodes[0].key, c.nodes[1].key, NextCondition);
      assert 0 in NeutralOut(c.edges, c.nodes[0].key);
    }
  }

  lemma FanNodes(c: Chain, i: nat, p: Problem)
    requires Fan(c) && i < |c.nodes|
    ensures !NodeProblem(c, i, p) && !LogicalProblem(c, i, p)
  {
    FanIdentity(c, i, p);
    PlainLimits(c.nodes[i], i, p);
    FanStarts(c, i, p);
  }

  lemma FanEdges(c: Chain, i: nat, p: Problem)
    requires Fan(c) && i < |c.edges|
    ensures !EdgeProblem(c, i, p)
  {
    KnownIsHeld(c);
    assert c.edges[i] == Edge(c.nodes[0].key, c.nodes[i + 1].key, NextCondition);
    assert HasKey(c, c.nodes[0].key) && HasKey(c, c.nodes[i + 1].key);
  }

  lemma FanProvides(c: Chain)
    requires Fan(c)
    ensures HasProvider(c)
  {
    if !Plain(c.nodes[0]) {
      assert Plain(c.nodes[1]) && !Blank(c.nodes[1].key);
    }
  }

  lemma FanWhole(c: Chain, p: Problem)
    requires Fan(c)
    ensures !GlobalProblem(c, p)
  {
    FanEntry(c);
    KnownIsHeld(c);
    FanAcyclic(c);
    assert KnownArcsOf(c) <= AllArcs(c.edges);
    SubgraphReach(KnownArcsOf(c), AllArcs(c.edges), Entry(c));
    FanProvides(c);
    if p.Unreachable? && HasKey(c, p.key) {
      var i :| 0 <= i < |c.nodes| && c.nodes[i].key == p.key;
      assert Reaches(AllArcs(c.edges), Entry(c), c.nodes[i].key);
    }
  }

  lemma FanAccepted(c: Chain)
    requires Fan(c)
    ensures Accepts(c)
  {
    forall p
      ensures !MustReport(c, p)
    {
      FanWhole(c, p);
      forall i | 0 <= i < |c.nodes|
        ensures !NodeProblem(c, i, p) && !LogicalProblem(c, i, p)
      {
        FanNodes(c, i, p);
      }
      forall i | 0 <= i < |c.edges|
        ensures !EdgeProblem(c, i, p)
      {
        FanEdges(c, i, p);
      }
    }
  }

  // --- What opening them does -----------------------------------------------------------------

  lemma FanPlan(c: Chain, p: Plan)
    requires Fan(c) && PlanOf(c) == Some(p)
    ensures Accepts(c) && WellFormed(c) && PlanShape(p) && Acyclic(NeutralArcs(p.edges))
    ensures p.edges == c.edges && p.order == Keys(c) && p.nodes == NodeMap(c.nodes) && p.start == c.nodes[0].key
  {
    FanAccepted(c);
    AcceptedReach(c, p);
    AcceptedIsWellFormed(c);
    PlanOfWellFormed(c);
    FanEntry(c);
  }

  lemma LeafEnds(c: Chain, p: Plan, i: nat)
    requires Fan(c) && 0 < i < |c.nodes| && PlanOf(c) == Some(p) && PlanShape(p)
    ensures NextInFullChain(p, c.nodes[i].key) == None
  {
    var leaf := c.nodes[i].key;
    FanPlan(c, p);
    if NextInFullChain(p, leaf).Some? {
      FullChainStepFollowsEdge(p, leaf);
      FanArcs(c, leaf, NextInFullChain(p, leaf).value);
    }
  }

  lemma FanSteps(c: Chain, p: Plan)
    requires Fan(c) && |c.nodes| > 1 && PlanOf(c) == Some(p) && PlanShape(p)
    ensures NextInFullChain(p, c.nodes[0].key) == Some(c.nodes[1].key)
    ensures NextInFullChain(p, c.nodes[1].key) == None
  {
    FanPlan(c, p);
    FanOut(c.edges, c.nodes[0].key);
    NodeMapDistinct(c.nodes, 1);
    LeafEnds(c, p, 1);
  }

  lemma GoesOn(p: Plan, path: seq<Key>, i: nat)
    requires forall h :: 0 <= h < |path| - 1 ==> NextInFullChain(p, path[h]) == Some(path[h + 1])
    ensures i < |path| - 1 ==> NextInFullChain(p, path[i]).Some?
  {
    if i < |path| - 1 {
      assert NextInFullChain(p, path[i]) == Some(path[i + 1]);
    }
  }

  lemma PathOfTwo(p: Plan, path: seq<Key>, a: Key, b: Key)
    requires path != [] && path[0] == a && NextInFullChain(p, a) == Some(b) && NextInFullChain(p, b) == None
    requires forall i :: 0 <= i < |path| - 1 ==> NextInFullChain(p, path[i]) == Some(path[i + 1])
    requires NextInFullChain(p, path[|path| - 1]) == None
    ensures path == [a, b]
  {
    GoesOn(p, path, 1);
    assert |path| > 1;
    assert NextInFullChain(p, path[0]) == Some(path[1]);
  }

  /** The linear walk visits the first block and the first block its edges name. */
  lemma FanPath(c: Chain, p: Plan)
    requires Fan(c) && |c.nodes| > 1 && PlanOf(c) == Some(p) && PlanShape(p)
    ensures LegacyPath(p) == [c.nodes[0].key, c.nodes[1].key]
  {
    FanPlan(c, p);
    LegacyPathShape(p);
    FanSteps(c, p);
    PathOfTwo(p, LegacyPath(p), c.nodes[0].key, c.nodes[1].key);
  }

  function Grouped(edges: seq<Edge>, k: Key): map<Key, seq<Edge>> {
    if edges == [] then map[] else map[k := edges]
  }

  lemma GroupedSnoc(front: seq<Edge>, last: Edge, k: Key)
    ensures var m := Grouped(front, k); m[k := (if k in m then m[k] else []) + [last]] == Grouped(front + [last], k)
  {
    if front == [] {
      assert [] + [last] == [last] == front + [last];
    }
  }

  /** All edges leave the first block, in order. */
  lemma {:induction false} FanOut(edges: seq<Edge>, k: Key)
    requires forall i :: 0 <= i < |edges| ==> edges[i].source == k
    ensures OutMap(edges) == Grouped(edges, k)
  {
    if edges != [] {
      var front, last := edges[..|edges| - 1], edges[|edges| - 1];
      FanOut(front, k);
      OutMapSnoc(front, last);
      GroupedSnoc(front, last, k);
      assert edges == front + [last];
    }
  }

  lemma OutMapSnoc(front: seq<Edge>, last: Edge)
    ensures OutMap(front + [last]) ==
            OutMap(front)[last.source := (if last.source in OutMap(front) then OutMap(front)[last.source]
              else []) + [last]]
  {
    assert (front + [last])[..|front|] == front;
  }

  lemma Fans()
    ensures SearchFan(LINE) && SearchFan(FORK)
  {
    assert !IsSpace("a"[0]) && !IsSpace("b"[0]) && !IsSpace("c"[0]);
  }

  lemma FanReached(c: Chain, p: Plan, i: nat)
    requires Fan(c) && i < |c.nodes| && PlanOf(c) == Some(p)
    ensures c.nodes[i].key in NeutralReach(p)
  {
    FanPlan(c, p);
    FanEntry(c);
  }

  lemma FanHolds(c: Chain, p: Plan, i: nat)
    requires SearchFan(c) && i < |c.nodes| && PlanOf(c) == Some(p)
    ensures c.nodes[i].key in NeutralReach(p) * ProviderKeys(p)
  {
    FanPlan(c, p);
    FanReached(c, p, i);
    NodeMapDistinct(c.nodes, i);
  }

  lemma ForkIsNotCovered(p: Plan)
    requires PlanOf(FORK) == Some(p) && PlanShape(p)
    ensures !WalkCovers(p)
  {
    Fans();
    FanPath(FORK, p);
    FanHolds(FORK, p, 2);
    assert FORK.nodes[2].key == "c" && "c" !in Elements(LegacyPath(p));
  }

  lemma FanOrder(c: Chain, p: Plan)
    requires SearchFan(c) && PlanOf(c) == Some(p)
    ensures p.order == Keys(c) && NeutralReach(p) <= Elements(p.order)
    ensures forall k :: k in p.nodes ==> !IsAnswer(p.nodes[k])
  {
    FanPlan(c, p);
    AcceptedReach(c, p);
    PlanIndex(c);
  }

  lemma FanProviders(c: Chain, p: Plan)
    requires SearchFan(c) && PlanOf(c) == Some(p)
    ensures ProviderPath(p) == LegacyPath(p)
  {
    FanPlan(c, p);
    LegacyPathShape(p);
    NodeMapSound(c.nodes);
    KeepIs(LegacyPath(p), LegacyPath(p), ProviderKeys(p));
  }

  lemma LinePlan(p: Plan)
    requires PlanOf(LINE) == Some(p) && PlanShape(p)
    ensures p.order == ["a", "b"] && ProviderPath(p) == ["a", "b"] && LegacyPath(p) == ["a", "b"]
  {
    Fans();
    FanPath(LINE, p);
    FanProviders(LINE, p);
    FanOrder(LINE, p);
    assert Keys(LINE) == ["a", "b"];
    assert LINE.nodes[0].key == "a" && LINE.nodes[1].key == "b";
  }

  lemma LineIsCovered(p: Plan)
    requires PlanOf(LINE) == Some(p) && PlanShape(p)
    ensures WalkCovers(p) && WalkInPlanOrder(p) && SourcesOff(p)
  {
    Fans();
    LinePlan(p);
    FanOrder(LINE, p);
  }

  lemma SearchOnly(c: Chain)
    requires SearchFan(c)
    ensures forall x :: x in c.nodes ==> !x.kind.StartKind?
  {
  }

  lemma OpenedFan(c: Chain, s: Key, at: nat, p: Plan, p': Plan)
    requires SearchFan(c) && !HasKey(c, s) && at <= |c.nodes| && WellFormed(c)
    requires PlanOf(c) == Some(p) && PlanOf(Migrate(c, s, Entry(c), at)) == Some(p') && PlanShape(p')
    ensures Accepts(c) && (Unchanged(p, p') <==> WalkCovers(p) && WalkInPlanOrder(p) && SourcesOff(p))
  {
    SearchOnly(c);
    FanAccepted(c);
    MigrationExact(c, s, at, p, p');
  }

  /** The third block of the fork runs only once the chain has been opened. */
  lemma ForkChanges(s: Key, at: nat, p: Plan, p': Plan)
    requires !HasKey(FORK, s) && at <= |FORK.nodes| && WellFormed(FORK)
    requires PlanOf(FORK) == Some(p) && PlanOf(Migrate(FORK, s, Entry(FORK), at)) == Some(p') && PlanShape(p')
    ensures Accepts(FORK) && !Unchanged(p, p')
  {
    Fans();
    PlanFields(FORK);
    ForkIsNotCovered(p);
    OpenedFan(FORK, s, at, p, p');
  }

  /** Opening the line changes nothing. */
  lemma LineStays(s: Key, at: nat, p: Plan, p': Plan)
    requires !HasKey(LINE, s) && at <= |LINE.nodes| && WellFormed(LINE)
    requires PlanOf(LINE) == Some(p) && PlanOf(Migrate(LINE, s, Entry(LINE), at)) == Some(p') && PlanShape(p')
    ensures Accepts(LINE) && Unchanged(p, p')
  {
    Fans();
    PlanFields(LINE);
    LineIsCovered(p);
    OpenedFan(LINE, s, at, p, p');
  }

  /** Both chains have plans before and after, so the two results above are about something. */
  lemma PlansExist(c: Chain, s: Key, at: nat)
    requires (c == LINE || c == FORK) && !HasKey(c, s) && at <= |c.nodes|
    ensures WellFormed(c) && PlanOf(c).Some? && PlanOf(Migrate(c, s, Entry(c), at)).Some?
    ensures PlanShape(PlanOf(c).value) && PlanShape(PlanOf(Migrate(c, s, Entry(c), at)).value)
  {
    Fans();
    FanAccepted(c);
    AcceptedIsWellFormed(c);
    MigrationPlans(c, s, at);
  }
}

/** Chains indexed for walking, and the ways out of a block. */
module Plans {
  import opened Text
  import opened Graph
  import opened Chains
  import opened Validate

  datatype Plan = Plan(
    mode: ChainMode,
    nodes: map<Key, Node>,
    out: map<Key, seq<Edge>>,
    edges: seq<Edge>,
    order: seq<Key>,
    start: Key)

  // --- Building ---------------------------------------------------------------

  function OutMap(edges: seq<Edge>): map<Key, seq<Edge>> {
    if edges == [] then map[]
    else
      var e := edges[|edges| - 1];
      var m := OutMap(edges[..|edges| - 1]);
      m[e.source := (if e.source in m then m[e.source] else []) + [e]]
  }

  /** The first block of the order that carries the Start kind, else the first flagged one. */
  function FirstStart(m: map<Key, Node>, order: seq<Key>, logical: bool): (r: Option<Key>)
    requires forall i :: 0 <= i < |order| ==> order[i] in m
    ensures r.Some? ==> r.value in order && (if logical then m[r.value].kind.StartKind? else m[r.value].isStart)
    ensures r.None? ==> forall i :: 0 <= i < |order| ==>
      !(if logical then m[order[i]].kind.StartKind? else m[order[i]].isStart)
  {
    if order == [] then None
    else if (if logical then m[order[0]].kind.StartKind? else m[order[0]].isStart) then Some(order[0])
    else FirstStart(m, order[1..], logical)
  }

  function PlanOf(c: Chain): (r: Option<Plan>)
    ensures r.Some? ==> r.value.start in r.value.nodes && r.value.start in r.value.order
  {
    var m := NodeMap(c.nodes);
    var order := Keys(c);
    NodeMapSound(c.nodes);
    if c.nodes == [] then None
    else
      match FirstStart(m, order, true)
      case Some(k) => Some(Plan(c.mode, m, OutMap(c.edges), c.edges, order, k))
      case None =>
        match FirstStart(m, order, false)
        case Some(k) => Some(Plan(c.mode, m, OutMap(c.edges), c.edges, order, k))
        case None => None
  }

  predicate Starts(n: Node, logical: bool) {
    if logical then n.kind.StartKind? else n.isStart
  }

  predicate StartsAt(m: map<Key, Node>, order: seq<Key>, logical: bool, i: int) {
    0 <= i < |order| && order[i] in m && Starts(m[order[i]], logical)
  }

  ghost predicate StartsFirst(m: map<Key, Node>, order: seq<Key>, logical: bool, i: int) {
    StartsAt(m, order, logical, i) && forall h :: StartsAt(m, order, logical, h) ==> i <= h
  }

  lemma {:induction false} FirstStartExact(m: map<Key, Node>, order: seq<Key>, logical: bool) returns (i: int)
    requires forall i :: 0 <= i < |order| ==> order[i] in m
    ensures match FirstStart(m, order, logical)
            case Some(k) => StartsFirst(m, order, logical, i) && order[i] == k
            case None => forall h :: !StartsAt(m, order, logical, h)
  {
    i := 0;
    if order != [] && !Starts(m[order[0]], logical) {
      var rest := order[1..];
      var k := FirstStartExact(m, rest, logical);
      forall h | StartsAt(m, order, logical, h)
        ensures StartsAt(m, rest, logical, h - 1)
      {
        assert order[h] == rest[h - 1];
      }
      i := k + 1;
    }
  }

  /** Requests enter at the first block that carries the Start kind, or, if none does, at
      the first one flagged as the start; if there is neither there is no plan. */
  lemma StartIsFirst(c: Chain)
    ensures var m, order := NodeMap(c.nodes), Keys(c);
            if exists i :: StartsAt(m, order, true, i) then
              PlanOf(c).Some? && exists i :: StartsFirst(m, order, true, i) && order[i] == PlanOf(c).value.start
            else if exists i :: StartsAt(m, order, false, i) then
              PlanOf(c).Some? && exists i :: StartsFirst(m, order, false, i) && order[i] == PlanOf(c).value.start
            else PlanOf(c).None?
  {
    NodeMapSound(c.nodes);
    var logical := FirstStartExact(NodeMap(c.nodes), Keys(c), true);
    var flagged := FirstStartExact(NodeMap(c.nodes), Keys(c), false);
  }

  method BuildPlan(c: Chain) returns (p: Option<Plan>)
    ensures p == PlanOf(c)
  {
    if |c.nodes| == 0 {
      return None;
    }
    NodeMapSound(c.nodes);
    var nodes: map<Key, Node> := map[];
    var order: seq<Key> := [];
    for i := 0 to |c.nodes|
      invariant nodes == NodeMap(c.nodes[..i]) && order == Keys(c)[..i]
    {
      assert c.nodes[..i + 1][..i] == c.nodes[..i];
      nodes := nodes[c.nodes[i].key := c.nodes[i]];
      order := order + [c.nodes[i].key];
    }
    assert c.nodes[..|c.nodes|] == c.nodes && order == Keys(c);
    var out: map<Key, seq<Edge>> := map[];
    for i := 0 to |c.edges|
      invariant out == OutMap(c.edges[..i])
    {
      var e := c.edges[i];
      assert c.edges[..i + 1][..i] == c.edges[..i];
      out := out[e.source := (if e.source in out then out[e.source] else []) + [e]];
    }
    assert c.edges[..|c.edges|] == c.edges;
    var start := FirstStart(nodes, order, true);
    if start.None? {
      start := FirstStart(nodes, order, false);
    }
    if start.None? {
      return None;
    }
    return Some(Plan(c.mode, nodes, out, c.edges, order, start.value));
  }

  // --- Ways out of a block ------------------------------------------------------

  function Out(p: Plan, k: Key): seq<Edge> {
    if k in p.out then p.out[k] else []
  }

  predicate HasStartBlock(p: Plan)
    requires forall i :: 0 <= i < |p.order| ==> p.order[i] in p.nodes
  {
    exists i :: 0 <= i < |p.order| && p.nodes[p.order[i]].kind.StartKind?
  }

  function Held(p: Plan, k: Key): Option<Key> {
    if k in p.nodes then Some(k) else None
  }

  function PolicyFor(n: Node, o: Outcome): PolicyWord {
    match o
    case Success => if n.onSuccess.word.BlankPolicy? then StopPolicy else n.onSuccess.word
    case Empty => if n.onEmpty.word.BlankPolicy? then NextPolicy else n.onEmpty.word
    case Fail => if n.onFail.word.BlankPolicy? then NextPolicy else n.onFail.word
  }

  function FirstExact(edges: seq<Edge>, c: Condition): Option<Edge> {
    if edges == [] then None
    else if edges[0].condition == c then Some(edges[0])
    else FirstExact(edges[1..], c)
  }

  function FirstNeutralEdge(edges: seq<Edge>): Option<Edge> {
    if edges == [] then None
    else if Neutral(edges[0].condition) then Some(edges[0])
    else FirstNeutralEdge(edges[1..])
  }

  function FirstMatching(edges: seq<Edge>, o: Outcome): Option<Edge> {
    if edges == [] then None
    else if Neutral(edges[0].condition) || edges[0].condition == ConditionOf(o) then Some(edges[0])
    else FirstMatching(edges[1..], o)
  }

  /** Where an outcome leads: the policy decides whether the walk stops, insists on a
      matching edge, or prefers one and otherwise keeps moving. */
  function Next(p: Plan, n: Node, o: Outcome): (r: Option<Key>)
    ensures r.Some? ==> r.value in p.nodes
  {
    var policy := PolicyFor(n, o);
    var edges := Out(p, n.key);
    if policy.StopPolicy? || edges == [] then None
    else if policy.EdgePolicy? then
      match FirstMatching(edges, o)
      case Some(e) => Held(p, e.target)
      case None => None
    else
      match FirstExact(edges, ConditionOf(o))
      case Some(e) => Held(p, e.target)
      case None =>
        match FirstNeutralEdge(edges)
        case Some(e) => Held(p, e.target)
        case None => Held(p, edges[0].target)
  }

  function NextInFullChain(p: Plan, k: Key): (r: Option<Key>)
    ensures r.Some? ==> r.value in p.nodes
  {
    match FirstNeutralEdge(Out(p, k))
    case Some(e) => Held(p, e.target)
    case None => None
  }

  function NeutralSuccessors(p: Plan, edges: seq<Edge>): (r: seq<Key>)
    ensures r != [] ==> r[0] in p.nodes
  {
    if edges == [] then []
    else if Neutral(edges[0].condition) && edges[0].target in p.nodes
    then [edges[0].target] + NeutralSuccessors(p, edges[1..])
    else NeutralSuccessors(p, edges[1..])
  }

  function FirstNeutral(p: Plan, k: Key): (r: Option<Key>)
    ensures r.Some? ==> r.value in p.nodes
  {
    var next := NeutralSuccessors(p, Out(p, k));
    if next == [] then None else Some(next[0])
  }

  // --- Every way out follows an edge ----------------------------------------------

  lemma {:induction false} OutMapEdges(edges: seq<Edge>)
    ensures forall k, i :: k in OutMap(edges) && 0 <= i < |OutMap(edges)[k]| ==>
      OutMap(edges)[k][i] in edges && OutMap(edges)[k][i].source == k
    ensures forall i :: 0 <= i < |edges| ==>
      edges[i].source in OutMap(edges) && edges[i] in OutMap(edges)[edges[i].source]
  {
    if edges != [] {
      var front := edges[..|edges| - 1];
      OutMapEdges(front);
      assert edges == front + [edges[|edges| - 1]];
      forall i | 0 <= i < |edges|
        ensures edges[i].source in OutMap(edges) && edges[i] in OutMap(edges)[edges[i].source]
      {
        if i < |front| {
          assert front[i] == edges[i];
        }
      }
    }
  }

  lemma ArcOfEdge(edges: seq<Edge>, e: Edge)
    requires e in edges
    ensures (e.source, e.target) in AllArcs(edges)
    ensures Neutral(e.condition) ==> (e.source, e.target) in NeutralArcs(edges)
  {
    var i :| 0 <= i < |edges| && edges[i] == e;
  }

  lemma {:induction false} SearchesFindMembers(p: Plan, edges: seq<Edge>, c: Condition, o: Outcome)
    ensures FirstExact(edges, c).Some? ==> FirstExact(edges, c).value in edges
    ensures FirstNeutralEdge(edges).Some? ==>
      FirstNeutralEdge(edges).value in edges && Neutral(FirstNeutralEdge(edges).value.condition)
    ensures FirstNeutralEdge(edges).None? <==> forall i :: 0 <= i < |edges| ==> !Neutral(edges[i].condition)
    ensures FirstMatching(edges, o).Some? ==> FirstMatching(edges, o).value in edges
  {
    if edges != [] {
      SearchesFindMembers(p, edges[1..], c, o);
    }
  }

  lemma {:induction false} NeutralSuccessorsSound(p: Plan, edges: seq<Edge>)
    ensures forall k :: k in NeutralSuccessors(p, edges) <==>
      k in p.nodes && exists i :: 0 <= i < |edges| && Neutral(edges[i].condition) && edges[i].target == k
  {
    if edges != [] {
      NeutralSuccessorsSound(p, edges[1..]);
      forall k
        ensures k in NeutralSuccessors(p, edges) <==>
          k in p.nodes && exists i :: 0 <= i < |edges| && Neutral(edges[i].condition) && edges[i].target == k
      {
        if i :| 0 <= i < |edges[1..]| && Neutral(edges[1..][i].condition) && edges[1..][i].target == k {
          assert edges[i + 1] == edges[1..][i];
        }
        if i :| 0 <= i < |edges| && Neutral(edges[i].condition) && edges[i].target == k {
          if i > 0 {
            assert edges[1..][i - 1] == edges[i];
          }
        }
      }
    }
  }

  ghost predicate PlanShape(p: Plan) {
    && p.out == OutMap(p.edges)
    && p.start in p.nodes && p.start in p.order
    && (forall k :: k in p.nodes ==> p.nodes[k].key == k)
    && (forall i :: 0 <= i < |p.order| ==> p.order[i] in p.nodes)
  }

  lemma OutFollowsEdges(p: Plan, k: Key, e: Edge)
    requires PlanShape(p) && e in Out(p, k)
    ensures e in p.edges && e.source == k
    ensures (k, e.target) in AllArcs(p.edges)
    ensures Neutral(e.condition) ==> (k, e.target) in NeutralArcs(p.edges)
  {
    OutMapEdges(p.edges);
    ArcOfEdge(p.edges, e);
  }

  lemma NextFollowsEdge(p: Plan, n: Node, o: Outcome)
    requires PlanShape(p) && Next(p, n, o).Some?
    ensures Next(p, n, o).value in p.nodes && (n.key, Next(p, n, o).value) in AllArcs(p.edges)
  {
    var edges := Out(p, n.key);
    SearchesFindMembers(p, edges, ConditionOf(o), o);
    var e :| e in edges && Next(p, n, o) == Held(p, e.target);
    assert Held(p, e.target) == Some(Next(p, n, o).value);
    assert e.target == Next(p, n, o).value;
    OutFollowsEdges(p, n.key, e);
  }

  // --- Which way out is taken ------------------------------------------------------------

  /** How well an edge suits an outcome: an exact condition before a neutral one before any. */
  function Fit(e: Edge, o: Outcome): nat {
    if e.condition == ConditionOf(o) then 0 else if Neutral(e.condition) then 1 else 2
  }

  /** Edge i is the best-suited one, the first of its kind. */
  ghost predicate BestEdge(edges: seq<Edge>, o: Outcome, i: nat) {
    i < |edges| && forall h :: 0 <= h < |edges| ==>
      Fit(edges[i], o) < Fit(edges[h], o) || (Fit(edges[i], o) == Fit(edges[h], o) && i <= h)
  }

  /** Edge i is the first that admits the outcome at all. */
  ghost predicate FirstAdmitting(edges: seq<Edge>, o: Outcome, i: nat) {
    i < |edges| && Fit(edges[i], o) < 2 && forall h :: 0 <= h < i ==> Fit(edges[h], o) == 2
  }

  lemma {:induction false} ExactPlace(edges: seq<Edge>, o: Outcome) returns (i: nat)
    ensures FirstExact(edges, ConditionOf(o)).None? ==> forall h :: 0 <= h < |edges| ==> Fit(edges[h], o) != 0
    ensures FirstExact(edges, ConditionOf(o)).Some? ==>
      i < |edges| && edges[i] == FirstExact(edges, ConditionOf(o)).value && Fit(edges[i], o) == 0 &&
        forall h :: 0 <= h < i ==> Fit(edges[h], o) != 0
  {
    i := 0;
    if edges != [] && edges[0].condition != ConditionOf(o) {
      var k := ExactPlace(edges[1..], o);
      assert forall h :: 0 < h < |edges| ==> edges[h] == edges[1..][h - 1];
      i := k + 1;
    }
  }

  lemma {:induction false} NeutralPlace(edges: seq<Edge>, o: Outcome) returns (i: nat)
    requires forall h :: 0 <= h < |edges| ==> Fit(edges[h], o) != 0
    ensures FirstNeutralEdge(edges).None? ==> forall h :: 0 <= h < |edges| ==> Fit(edges[h], o) == 2
    ensures FirstNeutralEdge(edges).Some? ==>
      i < |edges| && edges[i] == FirstNeutralEdge(edges).value && Fit(edges[i], o) == 1 && forall h :: 0 <= h < i ==>
        Fit(edges[h], o) == 2
  {
    i := 0;
    if edges != [] && !Neutral(edges[0].condition) {
      assert forall h :: 0 < h < |edges| ==> edges[h] == edges[1..][h - 1];
      var k := NeutralPlace(edges[1..], o);
      i := k + 1;
    }
  }

  lemma {:induction false} MatchPlace(edges: seq<Edge>, o: Outcome) returns (i: nat)
    ensures FirstMatching(edges, o).None? ==> forall h :: 0 <= h < |edges| ==> Fit(edges[h], o) == 2
    ensures FirstMatching(edges, o).Some? ==> FirstAdmitting(edges, o, i) && edges[i] == FirstMatching(edges, o).value
  {
    i := 0;
    if edges != [] && !(Neutral(edges[0].condition) || edges[0].condition == ConditionOf(o)) {
      assert forall h :: 0 < h < |edges| ==> edges[h] == edges[1..][h - 1];
      var k := MatchPlace(edges[1..], o);
      i := k + 1;
    }
  }

  /** Unless the policy stops or insists, the walk takes the best-suited edge there is. */
  lemma NextTakesBest(p: Plan, n: Node, o: Outcome) returns (i: nat)
    requires !PolicyFor(n, o).StopPolicy? && !PolicyFor(n, o).EdgePolicy? && Out(p, n.key) != []
    ensures BestEdge(Out(p, n.key), o, i) && Next(p, n, o) == Held(p, Out(p, n.key)[i].target)
  {
    var edges := Out(p, n.key);
    i := ExactPlace(edges, o);
    if FirstExact(edges, ConditionOf(o)).None? {
      i := NeutralPlace(edges, o);
      if FirstNeutralEdge(edges).None? {
        i := 0;
      }
    }
  }

  /** A policy that insists on an edge takes the first admitting one, or ends the walk. */
  lemma NextInsists(p: Plan, n: Node, o: Outcome) returns (i: nat)
    requires PolicyFor(n, o).EdgePolicy?
    ensures if exists h :: 0 <= h < |Out(p, n.key)| && Fit(Out(p, n.key)[h], o) < 2
            then FirstAdmitting(Out(p, n.key), o, i) && Next(p, n, o) == Held(p, Out(p, n.key)[i].target)
            else Next(p, n, o) == None
  {
    i := MatchPlace(Out(p, n.key), o);
  }

  lemma FullChainStepFollowsEdge(p: Plan, k: Key)
    requires PlanShape(p) && NextInFullChain(p, k).Some?
    ensures NextInFullChain(p, k).value in p.nodes && (k, NextInFullChain(p, k).value) in NeutralArcs(p.edges)
  {
    var edges := Out(p, k);
    SearchesFindMembers(p, edges, BlankCondition, Success);
    OutFollowsEdges(p, k, FirstNeutralEdge(edges).value);
  }

  lemma FirstNeutralFollowsEdge(p: Plan, k: Key)
    requires PlanShape(p) && FirstNeutral(p, k).Some?
    ensures FirstNeutral(p, k).value in p.nodes && (k, FirstNeutral(p, k).value) in NeutralArcs(p.edges)
  {
    var edges := Out(p, k);
    NeutralSuccessorsSound(p, edges);
    assert FirstNeutral(p, k).value in NeutralSuccessors(p, edges);
    var i :| 0 <= i < |edges| && Neutral(edges[i].condition) && edges[i].target == FirstNeutral(p, k).value;
    OutFollowsEdges(p, k, edges[i]);
  }

  // --- The plan of an accepted chain --------------------------------------------------

  lemma PlanIndex(c: Chain)
    requires DistinctKeys(c.nodes)
    ensures Distinct(Keys(c))
    ensures forall k :: k in NodeMap(c.nodes) <==> k in Keys(c)
    ensures forall k :: k in NodeMap(c.nodes) ==> NodeMap(c.nodes)[k].key == k && NodeMap(c.nodes)[k] in c.nodes
    ensures forall i :: 0 <= i < |c.nodes| ==>
      Keys(c)[i] in NodeMap(c.nodes) && NodeMap(c.nodes)[Keys(c)[i]] == c.nodes[i]
  {
    NodeMapSound(c.nodes);
    forall i | 0 <= i < |c.nodes|
      ensures c.nodes[i].key in NodeMap(c.nodes) && NodeMap(c.nodes)[Keys(c)[i]] == c.nodes[i]
    {
      NodeMapDistinct(c.nodes, i);
    }
    forall k | k in NodeMap(c.nodes)
      ensures k in Keys(c)
    {
      var i :| 0 <= i < |c.nodes| && c.nodes[i].key == k;
      assert Keys(c)[i] == k;
    }
  }

  lemma EntryIsStart(c: Chain, k: Key)
    requires DistinctKeys(c.nodes) && SoleEntry(c) && k in NodeMap(c.nodes)
    requires NodeMap(c.nodes)[k].isStart || NodeMap(c.nodes)[k].kind.StartKind?
    ensures k == Entry(c)
  {
    PlanIndex(c);
    var i :| 0 <= i < |c.nodes| && c.nodes[i] == NodeMap(c.nodes)[k];
    assert c.nodes[i].key in EntryKeys(c);
  }

  lemma PlanFields(c: Chain)
    requires PlanOf(c).Some?
    ensures PlanShape(PlanOf(c).value)
    ensures PlanOf(c).value.nodes == NodeMap(c.nodes) && PlanOf(c).value.order == Keys(c)
    ensures PlanOf(c).value.edges == c.edges
    ensures PlanOf(c).value.nodes[PlanOf(c).value.start].isStart ||
      PlanOf(c).value.nodes[PlanOf(c).value.start].kind.StartKind?
  {
    NodeMapSound(c.nodes);
  }

  lemma PlanExists(c: Chain, i: nat)
    requires i < |c.nodes| && Keys(c)[i] in NodeMap(c.nodes)
    requires NodeMap(c.nodes)[Keys(c)[i]].isStart || NodeMap(c.nodes)[Keys(c)[i]].kind.StartKind?
    ensures PlanOf(c).Some?
  {
    NodeMapSound(c.nodes);
    var logical, flagged := FirstStart(NodeMap(c.nodes), Keys(c), true), FirstStart(NodeMap(c.nodes), Keys(c), false);
    assert logical.Some? || flagged.Some?;
  }

  lemma PlanOfWellFormed(c: Chain)
    requires WellFormed(c)
    ensures PlanOf(c).Some? && PlanShape(PlanOf(c).value)
    ensures PlanOf(c).value.nodes == NodeMap(c.nodes) && PlanOf(c).value.order == Keys(c)
    ensures PlanOf(c).value.edges == c.edges
    ensures PlanOf(c).value.start == Entry(c)
  {
    PlanIndex(c);
    assert Entry(c) in EntryKeys(c);
    var i :| 0 <= i < |c.nodes| && (c.nodes[i].isStart || c.nodes[i].kind.StartKind?) && c.nodes[i].key == Entry(c);
    PlanExists(c, i);
    PlanFields(c);
    EntryIsStart(c, PlanOf(c).value.start);
  }
}

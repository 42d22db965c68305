/** Opening a legacy chain in the editor adds a Start block wired to the old entry and pins
    on_success to stop. In first-success mode the run is unchanged, step for step. */
module Migration {
  import opened Text
  import opened Graph
  import opened Chains
  import opened Validate
  import opened Plans
  import opened Cooldown
  import opened Walks
  import FS = FirstSuccess

  // --- What the editor writes ---------------------------------------------------------------

  function Pin(n: Node): Node {
    n.(onSuccess := Written(StopPolicy, true), isStart := false)
  }

  function PinAll(nodes: seq<Node>): (r: seq<Node>)
    ensures |r| == |nodes| && forall i :: 0 <= i < |r| ==> r[i] == Pin(nodes[i])
  {
    seq(|nodes|, i requires 0 <= i < |nodes| => Pin(nodes[i]))
  }

  function StartNode(k: Key): Node {
    Node(k, StartKind, "", Written(SearchMode, true), 20000, 0, 700,
         Written(StopPolicy, true), Written(NextPolicy, true), Written(NextPolicy, true), false, None, None)
  }

  /** The Start block may end up anywhere in the key-ordered node list. */
  function Migrate(c: Chain, s: Key, entry: Key, at: nat): Chain
    requires at <= |c.nodes|
  {
    var pinned := PinAll(c.nodes);
    Chain(c.mode, pinned[..at] + [StartNode(s)] + pinned[at..], [Edge(s, entry, NextCondition)] + c.edges)
  }

  // --- The two plans ----------------------------------------------------------------------------

  ghost predicate EdgesKnown(p: Plan) {
    forall e :: e in p.edges ==> e.source in p.nodes && e.target in p.nodes
  }

  ghost predicate MigratedPlan(p: Plan, p': Plan, s: Key, at: nat) {
    && PlanShape(p) && PlanShape(p') && EdgesKnown(p)
    && s !in p.nodes && p'.start == s
    && p'.nodes.Keys == p.nodes.Keys + {s} && p'.nodes[s] == StartNode(s)
    && (forall k :: k in p.nodes ==> p'.nodes[k] == Pin(p.nodes[k]))
    && p'.edges == [Edge(s, p.start, NextCondition)] + p.edges
    && at <= |p.order| && p'.order == p.order[..at] + [s] + p.order[at..]
  }

  lemma InsertedAt<T>(s: seq<T>, x: T, at: nat, i: nat)
    requires at <= |s| && i <= |s|
    ensures |s[..at] + [x] + s[at..]| == |s| + 1
    ensures (s[..at] + [x] + s[at..])[i] == if i < at then s[i] else if i == at then x else s[i - 1]
  {
  }

  lemma MigratedNodeAt(c: Chain, s: Key, entry: Key, at: nat, i: nat)
    requires at <= |c.nodes| && i <= |c.nodes|
    ensures var nodes := Migrate(c, s, entry, at).nodes;
            |nodes| == |c.nodes| + 1 && nodes[i] == if i < at then Pin(c.nodes[i]) else if i == at
              then StartNode(s) else Pin(c.nodes[i - 1])
  {
    InsertedAt(PinAll(c.nodes), StartNode(s), at, i);
  }

  lemma MigratedDistinct(c: Chain, s: Key, entry: Key, at: nat)
    requires DistinctKeys(c.nodes) && !HasKey(c, s) && at <= |c.nodes|
    ensures DistinctKeys(Migrate(c, s, entry, at).nodes)
  {
    var nodes := Migrate(c, s, entry, at).nodes;
    MigratedNodeAt(c, s, entry, at, 0);
    forall i, h | 0 <= i < h < |nodes|
      ensures nodes[i].key != nodes[h].key
    {
      MigratedNodeAt(c, s, entry, at, i);
      MigratedNodeAt(c, s, entry, at, h);
      DifferentKeys(c, s, if i < at then i else i - 1, if h < at then h else h - 1);
    }
  }

  lemma DifferentKeys(c: Chain, s: Key, i: int, h: int)
    requires DistinctKeys(c.nodes) && !HasKey(c, s)
    ensures 0 <= i < |c.nodes| ==> c.nodes[i].key != s
    ensures 0 <= h < |c.nodes| ==> c.nodes[h].key != s
    ensures 0 <= i < h < |c.nodes| ==> c.nodes[i].key != c.nodes[h].key
  {
  }

  lemma MigratedKeyOrder(c: Chain, s: Key, entry: Key, at: nat)
    requires at <= |c.nodes|
    ensures Keys(Migrate(c, s, entry, at)) == Keys(c)[..at] + [s] + Keys(c)[at..]
  {
    var c' := Migrate(c, s, entry, at);
    MigratedNodeAt(c, s, entry, at, 0);
    forall i | 0 <= i < |c'.nodes|
      ensures Keys(c')[i] == (Keys(c)[..at] + [s] + Keys(c)[at..])[i]
    {
      MigratedNodeAt(c, s, entry, at, i);
      InsertedAt(Keys(c), s, at, i);
    }
  }

  lemma MigratedNodes(c: Chain, s: Key, at: nat)
    requires WellFormed(c) && !HasKey(c, s) && at <= |c.nodes|
    ensures var c' := Migrate(c, s, Entry(c), at);
            && DistinctKeys(c'.nodes)
            && Keys(c') == Keys(c)[..at] + [s] + Keys(c)[at..]
            && c'.nodes[at] == StartNode(s)
            && forall i :: 0 <= i < |c.nodes| ==> c'.nodes[if i < at then i else i + 1] == Pin(c.nodes[i])
  {
    MigratedDistinct(c, s, Entry(c), at);
    MigratedKeyOrder(c, s, Entry(c), at);
    MigratedNodeAt(c, s, Entry(c), at, at);
    forall i | 0 <= i < |c.nodes|
      ensures Migrate(c, s, Entry(c), at).nodes[if i < at then i else i + 1] == Pin(c.nodes[i])
    {
      MigratedNodeAt(c, s, Entry(c), at, if i < at then i else i + 1);
    }
  }

  lemma InsertedMembers(ks: seq<Key>, s: Key, at: nat)
    requires at <= |ks|
    ensures forall k :: k in ks[..at] + [s] + ks[at..] <==> k in ks || k == s
  {
    assert ks == ks[..at] + ks[at..];
    var all := ks[..at] + [s] + ks[at..];
    assert all[at] == s;
  }

  lemma MigratedNode(c: Chain, s: Key, at: nat, k: Key)
    requires WellFormed(c) && !HasKey(c, s) && at <= |c.nodes| && k in NodeMap(c.nodes)
    ensures k in NodeMap(Migrate(c, s, Entry(c), at).nodes)
    ensures NodeMap(Migrate(c, s, Entry(c), at).nodes)[k] == Pin(NodeMap(c.nodes)[k])
  {
    NodeMapSound(c.nodes);
    var i :| 0 <= i < |c.nodes| && c.nodes[i].key == k;
    MigratedNodeFrom(c, s, Entry(c), at, i);
  }

  lemma MigratedNodeFrom(c: Chain, s: Key, entry: Key, at: nat, i: nat)
    requires DistinctKeys(c.nodes) && !HasKey(c, s) && at <= |c.nodes| && i < |c.nodes|
    ensures var k := c.nodes[i].key;
            && k in NodeMap(c.nodes) && k in NodeMap(Migrate(c, s, entry, at).nodes)
            && NodeMap(Migrate(c, s, entry, at).nodes)[k] == Pin(NodeMap(c.nodes)[k])
  {
    var i' := if i < at then i else i + 1;
    MigratedDistinct(c, s, entry, at);
    MigratedNodeAt(c, s, entry, at, i');
    NodeMapDistinct(c.nodes, i);
    NodeMapDistinct(Migrate(c, s, entry, at).nodes, i');
  }

  lemma KeyIsNode(c: Chain, k: Key)
    ensures k in NodeMap(c.nodes) <==> k in Keys(c)
  {
    NodeMapSound(c.nodes);
    if i :| 0 <= i < |c.nodes| && c.nodes[i].key == k {
      assert Keys(c)[i] == k;
    }
  }

  lemma KeysInserted(c: Chain, c': Chain, s: Key, at: nat)
    requires at <= |Keys(c)| && Keys(c') == Keys(c)[..at] + [s] + Keys(c)[at..]
    ensures NodeMap(c'.nodes).Keys == NodeMap(c.nodes).Keys + {s}
  {
    InsertedMembers(Keys(c), s, at);
    forall k
      ensures k in NodeMap(c'.nodes) <==> k in NodeMap(c.nodes) || k == s
    {
      KeyIsNode(c, k);
      KeyIsNode(c', k);
    }
  }

  lemma MigratedKeys(c: Chain, s: Key, at: nat)
    requires WellFormed(c) && !HasKey(c, s) && at <= |c.nodes|
    ensures NodeMap(Migrate(c, s, Entry(c), at).nodes).Keys == NodeMap(c.nodes).Keys + {s}
    ensures s !in NodeMap(c.nodes)
  {
    MigratedKeyOrder(c, s, Entry(c), at);
    KeysInserted(c, Migrate(c, s, Entry(c), at), s, at);
    assert s !in NodeMap(c.nodes) by {
      NodeMapSound(c.nodes);
    }
  }

  lemma MigratedStart(c: Chain, s: Key, at: nat)
    requires WellFormed(c) && !HasKey(c, s) && at <= |c.nodes|
    ensures var c' := Migrate(c, s, Entry(c), at);
            s in NodeMap(c'.nodes) && NodeMap(c'.nodes)[s] == StartNode(s) && Keys(c')[at] == s
  {
    MigratedDistinct(c, s, Entry(c), at);
    MigratedNodeAt(c, s, Entry(c), at, at);
    NodeMapDistinct(Migrate(c, s, Entry(c), at).nodes, at);
  }

  lemma OnlyStart(c: Chain, s: Key, at: nat, k: Key)
    requires WellFormed(c) && !HasKey(c, s) && at <= |c.nodes|
    requires forall n :: n in c.nodes ==> !n.kind.StartKind?
    requires k in NodeMap(Migrate(c, s, Entry(c), at).nodes) && k != s
    ensures !NodeMap(Migrate(c, s, Entry(c), at).nodes)[k].kind.StartKind?
  {
    MigratedKeys(c, s, at);
    MigratedNode(c, s, at, k);
    NodeMapSound(c.nodes);
  }

  lemma MigratedPlanExists(c: Chain, s: Key, at: nat)
    requires WellFormed(c) && !HasKey(c, s) && at <= |c.nodes|
    requires forall n :: n in c.nodes ==> !n.kind.StartKind?
    ensures PlanOf(Migrate(c, s, Entry(c), at)).Some?
    ensures var p' := PlanOf(Migrate(c, s, Entry(c), at)).value; PlanShape(p') && p'.start == s && HasStartBlock(p')
  {
    var c' := Migrate(c, s, Entry(c), at);
    MigratedStart(c, s, at);
    PlanExists(c', at);
    PlanFields(c');
    var p' := PlanOf(c').value;
    assert p'.order[at] == s;
    forall k | k in p'.nodes && k != s
      ensures !p'.nodes[k].kind.StartKind?
    {
      OnlyStart(c, s, at, k);
    }
    StartWins(c', p', s);
  }

  /** A migrated chain's plan starts at the new block and is the old plan otherwise. */
  lemma MigrationPlans(c: Chain, s: Key, at: nat)
    requires WellFormed(c) && !HasKey(c, s) && at <= |c.nodes|
    requires forall n :: n in c.nodes ==> !n.kind.StartKind?
    ensures PlanOf(c).Some? && PlanShape(PlanOf(c).value) && !HasStartBlock(PlanOf(c).value)
    ensures PlanOf(Migrate(c, s, Entry(c), at)).Some? && PlanShape(PlanOf(Migrate(c, s, Entry(c), at)).value)
    ensures HasStartBlock(PlanOf(Migrate(c, s, Entry(c), at)).value)
    ensures MigratedPlan(PlanOf(c).value, PlanOf(Migrate(c, s, Entry(c), at)).value, s, at)
  {
    PlanOfWellFormed(c);
    MigratedPlanExists(c, s, at);
    PlanFields(Migrate(c, s, Entry(c), at));
    NoStartKind(c, PlanOf(c).value);
    MigratedKeys(c, s, at);
    MigratedStart(c, s, at);
    MigratedNodes(c, s, at);
    KnownEnds(c);
    forall k | k in NodeMap(c.nodes)
      ensures NodeMap(Migrate(c, s, Entry(c), at).nodes)[k] == Pin(NodeMap(c.nodes)[k])
    {
      MigratedNode(c, s, at, k);
    }
  }

  lemma KnownEnds(c: Chain)
    requires WellFormed(c)
    ensures forall e :: e in c.edges ==> e.source in NodeMap(c.nodes) && e.target in NodeMap(c.nodes)
  {
    NodeMapSound(c.nodes);
  }

  lemma NoStartKind(c: Chain, p: Plan)
    requires PlanOf(c) == Some(p) && PlanShape(p) && p.nodes == NodeMap(c.nodes) && DistinctKeys(c.nodes)
    requires forall n :: n in c.nodes ==> !n.kind.StartKind?
    ensures !HasStartBlock(p)
  {
    PlanIndex(c);
  }

  lemma StartWins(c: Chain, p: Plan, s: Key)
    requires PlanOf(c) == Some(p) && PlanShape(p) && p.nodes == NodeMap(c.nodes) && p.order == Keys(c)
    requires s in p.order && p.nodes[s].kind.StartKind?
    requires forall k :: k in p.nodes && k != s ==> !p.nodes[k].kind.StartKind?
    ensures p.start == s && HasStartBlock(p)
  {
    NodeMapSound(c.nodes);
    var i :| 0 <= i < |p.order| && p.order[i] == s;
    assert FirstStart(NodeMap(c.nodes), Keys(c), true).Some?;
  }

  // --- Ways out are the same -----------------------------------------------------------------------

  lemma {:induction false} OutMapPrepend(e: Edge, edges: seq<Edge>, k: Key)
    requires k != e.source
    ensures k in OutMap([e] + edges) <==> k in OutMap(edges)
    ensures k in OutMap(edges) ==> OutMap([e] + edges)[k] == OutMap(edges)[k]
  {
    if edges == [] {
      assert [e] + edges == [e] && [e][..0] == [];
    } else {
      OutMapPrepend(e, edges[..|edges| - 1], k);
      assert ([e] + edges)[..|edges|] == [e] + edges[..|edges| - 1];
    }
  }

  lemma {:induction false} OutMapFirst(e: Edge, edges: seq<Edge>)
    requires forall i :: 0 <= i < |edges| ==> edges[i].source != e.source
    ensures e.source in OutMap([e] + edges) && OutMap([e] + edges)[e.source] == [e]
  {
    if edges == [] {
      assert [e] + edges == [e] && [e][..0] == [];
    } else {
      OutMapFirst(e, edges[..|edges| - 1]);
      assert ([e] + edges)[..|edges|] == [e] + edges[..|edges| - 1];
    }
  }

  lemma {:induction false} SuccessorsSame(p: Plan, p': Plan, edges: seq<Edge>)
    requires forall e :: e in edges ==> e.target in p.nodes && e.target in p'.nodes
    ensures NeutralSuccessors(p, edges) == NeutralSuccessors(p', edges)
  {
    if edges != [] {
      SuccessorsSame(p, p', edges[1..]);
    }
  }

  lemma OutSame(p: Plan, p': Plan, s: Key, at: nat, k: Key)
    requires MigratedPlan(p, p', s, at) && k in p.nodes
    ensures Out(p', k) == Out(p, k)
    ensures forall e :: e in Out(p, k) ==> e.target in p.nodes && e.target in p'.nodes
  {
    OutMapPrepend(Edge(s, p.start, NextCondition), p.edges, k);
    OutMapEdges(p.edges);
  }

  lemma WaysOutSame(p: Plan, p': Plan, s: Key, at: nat, k: Key)
    requires MigratedPlan(p, p', s, at) && k in p.nodes
    ensures FirstNeutral(p', k) == FirstNeutral(p, k) && NextInFullChain(p', k) == NextInFullChain(p, k)
  {
    OutSame(p, p', s, at, k);
    SuccessorsSame(p, p', Out(p, k));
    SearchesFindMembers(p, Out(p, k), BlankCondition, Success);
  }

  lemma NextSame(p: Plan, p': Plan, s: Key, at: nat, k: Key, o: Outcome)
    requires MigratedPlan(p, p', s, at) && k in p.nodes && o != Success
    ensures Next(p', p'.nodes[k], o) == Next(p, p.nodes[k], o)
  {
    OutSame(p, p', s, at, k);
    assert p'.nodes[k] == Pin(p.nodes[k]) && p.nodes[k].key == k;
    NextOfPinned(p, p', p.nodes[k], o);
  }

  lemma NextOfPinned(p: Plan, p': Plan, n: Node, o: Outcome)
    requires Out(p', n.key) == Out(p, n.key) && o != Success
    requires forall e :: e in Out(p, n.key) ==> e.target in p.nodes && e.target in p'.nodes
    ensures Next(p', Pin(n), o) == Next(p, n, o)
  {
    var edges := Out(p, n.key);
    SearchesFindMembers(p, edges, ConditionOf(o), o);
    assert PolicyFor(Pin(n), o) == PolicyFor(n, o);
  }

  lemma StartLeadsToEntry(p: Plan, p': Plan, s: Key, at: nat)
    requires MigratedPlan(p, p', s, at)
    ensures FirstNeutral(p', s) == Some(p.start)
  {
    OutMapFirst(Edge(s, p.start, NextCondition), p.edges);
    assert Out(p', s) == [Edge(s, p.start, NextCondition)];
    assert p.start in p'.nodes;
  }

  // --- Blocks run the same ----------------------------------------------------------------------------

  lemma {:induction false} ExecPinned(env: Env, max: int, n: Node, idx: nat, a: nat, w: Walk, last: Result,
          attempted: bool)
    ensures ExecFrom(env, max, Pin(n), idx, a, w, last, attempted) == ExecFrom(env, max, n, idx, a, w, last, attempted)
    decreases n.retries + 1 - a
  {
    if a < n.retries + 1 && w.steps < max {
      var r := env.call(n.key, a);
      if !Wins(env, n, r) && !r.permanent {
        ExecPinned(env, max, n, idx, a + 1, AfterCall(env, n, idx, a, w), r, true);
      }
    }
  }

  lemma BlockSame(env: Env, max: int, n: Node, idx: nat, w: Walk)
    ensures Resolve(env, Pin(n), w) == Resolve(env, n, w)
    ensures Exec(env, max, Pin(n), idx, w) == Exec(env, max, n, idx, w)
    ensures var run := Exec(env, max, n, idx, w).0; !run.won ==> EdgeOutcome(env, n, run.result) != Success
  {
    ExecPinned(env, max, n, idx, 0, w, NO_RESULT, false);
    LoserIsNotSuccess(env, max, n, idx, 0, w, NO_RESULT, false);
  }

  lemma LogicalStepSame(j: FS.Job, j': FS.Job, s: Key, at: nat, st: FS.State)
    requires MigratedPlan(j.plan, j'.plan, s, at) && j' == j.(plan := j'.plan, continues := j'.continues)
    requires FS.Running(j, st) && st.w.steps < j.max && !IsProvider(j.plan.nodes[st.node.value])
    ensures FS.Step(j', st) == FS.Step(j, st)
  {
    WaysOutSame(j.plan, j'.plan, s, at, st.node.value);
  }

  lemma SkipStepSame(j: FS.Job, j': FS.Job, s: Key, at: nat, st: FS.State)
    requires MigratedPlan(j.plan, j'.plan, s, at) && j' == j.(plan := j'.plan, continues := j'.continues)
    requires FS.Running(j, st) && st.w.steps < j.max && IsProvider(j.plan.nodes[st.node.value])
    requires Resolve(j.env, j.plan.nodes[st.node.value], st.w).0
    ensures FS.Step(j', st) == FS.Step(j, st)
  {
    BlockSame(j.env, j.max, j.plan.nodes[st.node.value], st.idx, st.w);
    NextSame(j.plan, j'.plan, s, at, st.node.value, Fail);
  }

  lemma AdvanceSame(j: FS.Job, j': FS.Job, s: Key, at: nat, st: FS.State, k: Key, run: NodeRun, w: Walk)
    requires MigratedPlan(j.plan, j'.plan, s, at) && !j.continues && k in j.plan.nodes
    requires j' == j.(plan := j'.plan, continues := j'.continues)
    requires !run.won ==> EdgeOutcome(j.env, j.plan.nodes[k], run.result) != Success
    ensures FS.Advance(j', st, j'.plan.nodes[k], run, w) == FS.Advance(j, st, j.plan.nodes[k], run, w)
  {
    var n := j.plan.nodes[k];
    assert j'.plan.nodes[k] == Pin(n);
    if !run.won {
      NextSame(j.plan, j'.plan, s, at, k, EdgeOutcome(j.env, n, run.result));
      LossAdvances(j, j', st, n, run, w);
    } else {
      WinStops(j, j', st, n, run, w);
    }
  }

  lemma LossAdvances(j: FS.Job, j': FS.Job, st: FS.State, n: Node, run: NodeRun, w: Walk)
    requires j'.env == j.env && !run.won
    requires Next(j'.plan, Pin(n), EdgeOutcome(j.env, n, run.result)) ==
      Next(j.plan, n, EdgeOutcome(j.env, n, run.result))
    ensures FS.Advance(j', st, Pin(n), run, w) == FS.Advance(j, st, n, run, w)
  {
  }

  /** A pinned block stops the chain on success, as every block of a legacy chain does. */
  lemma WinStops(j: FS.Job, j': FS.Job, st: FS.State, n: Node, run: NodeRun, w: Walk)
    requires j'.env == j.env && j'.count == j.count && !j.continues && run.won
    ensures FS.Advance(j', st, Pin(n), run, w) == FS.Advance(j, st, n, run, w)
  {
  }

  lemma StepAdvances(j: FS.Job, st: FS.State)
    requires FS.Running(j, st) && st.w.steps < j.max && IsProvider(j.plan.nodes[st.node.value])
    requires !Resolve(j.env, j.plan.nodes[st.node.value], st.w).0
    ensures var n := j.plan.nodes[st.node.value];
            var (run, w) := Exec(j.env, j.max, n, st.idx, Resolve(j.env, n, st.w).1);
            FS.Step(j, st) == FS.Advance(j, st, n, run, w)
  {
  }

  lemma ExecStepSame(j: FS.Job, j': FS.Job, s: Key, at: nat, st: FS.State)
    requires MigratedPlan(j.plan, j'.plan, s, at) && !j.continues
    requires j' == j.(plan := j'.plan, continues := j'.continues)
    requires FS.Running(j, st) && st.w.steps < j.max && IsProvider(j.plan.nodes[st.node.value])
    requires !Resolve(j.env, j.plan.nodes[st.node.value], st.w).0
    ensures FS.Step(j', st) == FS.Step(j, st)
  {
    var n := j.plan.nodes[st.node.value];
    var w1 := Resolve(j.env, n, st.w).1;
    BlockSame(j.env, j.max, n, st.idx, st.w);
    BlockSame(j.env, j.max, n, st.idx, w1);
    var (run, w2) := Exec(j.env, j.max, n, st.idx, w1);
    AdvanceSame(j, j', s, at, st, st.node.value, run, w2);
    StepAdvances(j, st);
    StepAdvances(j', st);
  }

  /** One step of the migrated walk is the step of the original walk. */
  lemma StepSame(j: FS.Job, j': FS.Job, s: Key, at: nat, st: FS.State)
    requires MigratedPlan(j.plan, j'.plan, s, at) && !j.continues
    requires j' == j.(plan := j'.plan, continues := j'.continues)
    requires st.node.Some? ==> st.node.value in j.plan.nodes
    ensures FS.Step(j', st) == FS.Step(j, st)
  {
    if FS.Running(j, st) && st.w.steps < j.max {
      if !IsProvider(j.plan.nodes[st.node.value]) {
        LogicalStepSame(j, j', s, at, st);
      } else if Resolve(j.env, j.plan.nodes[st.node.value], st.w).0 {
        SkipStepSame(j, j', s, at, st);
      } else {
        ExecStepSame(j, j', s, at, st);
      }
    }
  }

  lemma StepHeld(j: FS.Job, st: FS.State)
    requires st.node.Some? ==> st.node.value in j.plan.nodes
    ensures FS.Step(j, st).node.Some? ==> FS.Step(j, st).node.value in j.plan.nodes
  {
    if FS.Running(j, st) {
      FS.StepStaysHeld(j, st);
    }
  }

  lemma {:induction false} IterationsSame(j: FS.Job, j': FS.Job, s: Key, at: nat, breaker: Breaker, n: nat)
    requires MigratedPlan(j.plan, j'.plan, s, at) && !j.continues && j.max > 0
    requires j' == j.(plan := j'.plan, continues := j'.continues)
    ensures FS.Iterate(j', FS.Begin(j', breaker), n + 1) == FS.Iterate(j, FS.Begin(j, breaker), n)
    ensures var st := FS.Iterate(j, FS.Begin(j, breaker), n); st.node.Some? ==> st.node.value in j.plan.nodes
  {
    if n == 0 {
      StartLeadsToEntry(j.plan, j'.plan, s, at);
      var st0 := FS.Begin(j', breaker);
      assert FS.Iterate(j', st0, 1) == FS.Step(j', FS.Iterate(j', st0, 0));
    } else {
      IterationsSame(j, j', s, at, breaker, n - 1);
      StepHeld(j, FS.Iterate(j, FS.Begin(j, breaker), n - 1));
      StepSame(j, j', s, at, FS.Iterate(j, FS.Begin(j, breaker), n - 1));
    }
  }

  /** Migrating an accepted legacy first-success chain changes nothing: one iteration for
      the Start block aside, both walks go through the same states, with the same blocks,
      trace indices, recorded steps, rows and output, for every driver and budget. */
  lemma MigrationPreservesFirstSuccess(c: Chain, s: Key, at: nat, j: FS.Job, j': FS.Job, breaker: Breaker, n: nat)
    requires Accepts(c) && !HasKey(c, s) && at <= |c.nodes| && forall x :: x in c.nodes ==> !x.kind.StartKind?
    requires WellFormed(c) && PlanOf(c) == Some(j.plan) && PlanOf(Migrate(c, s, Entry(c), at)) == Some(j'.plan)
    requires PlanShape(j.plan) && PlanShape(j'.plan)
    requires j.continues == HasStartBlock(j.plan) && j'.continues == HasStartBlock(j'.plan)
    requires j'.env == j.env && j'.max == j.max > 0 && j'.count == j.count
    ensures FS.Iterate(j', FS.Begin(j', breaker), n + 1) == FS.Iterate(j, FS.Begin(j, breaker), n)
  {
    MigrationPlans(c, s, at);
    IterationsSame(j, j', s, at, breaker, n);
  }
}

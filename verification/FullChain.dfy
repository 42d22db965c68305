/** Full-chain mode: the wave executor of chains with a Start block, and the linear walker
    of legacy chains. Both collect blocks and merge them into one output. */
module FullChain {
  import opened Text
  import opened Graph
  import opened Chains
  import opened Validate
  import opened Plans
  import opened Merge
  import opened Cooldown
  import opened Walks

  datatype Job = Job(env: Env, plan: Plan, max: int, count: int)

  /** What a processed block leaves behind for the merge pass. */
  datatype Block = Block(status: Status, rows: seq<Row>, result: Result, answer: string)

  const UNPROCESSED := Block(NoStatus, [], NO_RESULT, "")

  /** The merge so far, with the status and error that decide a request without rows. */
  datatype Tally = Tally(merged: Merged, lastStatus: Status, lastError: string)

  const NO_TALLY := Tally(NOTHING, NoStatus, "")

  function FreshWalk(breaker: Breaker): Walk {
    Walk(0, {}, breaker, "", [])
  }

  function Close(j: Job, w: Walk, t: Tally): Output {
    var rows := RowsUpTo(t.merged, j.count);
    var stats := Some(Stats(t.merged.collected, |rows|, t.merged.collected - |t.merged.rows|));
    var used := Names(t.merged.rows);
    if |rows| > 0 || t.lastStatus == OkStatus then Finalize(w, OkStatus, rows, used, "", stats)
    else if t.lastStatus == EmptyStatus then Finalize(w, EmptyStatus, rows, used, "", stats)
    else Finalize(w, FailStatus, rows, used, t.lastError, stats)
  }

  // --- Waves ------------------------------------------------------------------------

  /** Every neutral predecessor that can run at all has run; the entry waits for none. */
  predicate PredecessorsDone(p: Plan, reach: set<Key>, done: set<Key>, k: Key) {
    k == p.start || forall i :: 0 <= i < |p.edges| ==>
      Neutral(p.edges[i].condition) && p.edges[i].target == k && p.edges[i].source in reach ==>
        p.edges[i].source in done
  }

  function ReadyIn(p: Plan, reach: set<Key>, done: set<Key>, order: seq<Key>): (r: seq<Key>)
    ensures forall k :: k in r <==> k in order && k in reach && k !in done && PredecessorsDone(p, reach, done, k)
  {
    if order == [] then []
    else
      var front, k := order[..|order| - 1], order[|order| - 1];
      ReadyIn(p, reach, done, front) +
      if k in reach && k !in done && PredecessorsDone(p, reach, done, k) then [k] else []
  }

  /** The wave that follows once the blocks in done have finished, in plan order. */
  function Ready(p: Plan, reach: set<Key>, done: set<Key>): seq<Key> {
    ReadyIn(p, reach, done, p.order)
  }

  /** All waves, budget aside. */
  function Layers(p: Plan, reach: set<Key>, done: set<Key>): seq<seq<Key>>
    decreases reach - done
  {
    var wave := Ready(p, reach, done);
    if wave == [] then []
    else
      assert wave[0] in reach - done;
      [wave] + Layers(p, reach, done + Elements(wave))
  }

  // --- Sequential execution of waves ----------------------------------------------------

  function BlockOf(n: Node, run: NodeRun): Block {
    if !run.attempted then Block(SkipStatus, [], NO_RESULT, "")
    else if run.result.ok && HasAnswer(n, run.result) then Block(OkStatus, [], run.result, run.result.answer)
    else if run.result.ok && |run.rows| > 0 then Block(OkStatus, run.rows, run.result, "")
    else if run.result.ok then Block(EmptyStatus, [], run.result, "")
    else Block(FailStatus, [], run.result, "")
  }

  function Process(env: Env, max: int, n: Node, idx: nat, w: Walk): (Block, Walk) {
    if !IsProvider(n) then (Block(OkStatus, [], NO_RESULT, ""), w)
    else
      var (skip, w1) := Resolve(env, n, w);
      if skip then (Block(SkipStatus, [], NO_RESULT, ""), Skipped(n, idx, w1))
      else
        var (run, w2) := Exec(env, max, n, idx, w1);
        (BlockOf(n, run), w2)
  }

  datatype Progress = Progress(w: Walk, blocks: map<Key, Block>, nextIdx: nat)

  /** One block of a wave; only provider blocks take a trace index. */
  function ProcessOne(j: Job, k: Key, at: Progress): Progress
    requires k in j.plan.nodes
  {
    var n := j.plan.nodes[k];
    var (block, w) := Process(j.env, j.max, n, at.nextIdx, at.w);
    Progress(w, at.blocks[k := block], at.nextIdx + if IsProvider(n) then 1 else 0)
  }

  predicate WaveHeld(p: Plan, wave: seq<Key>) {
    forall i :: 0 <= i < |wave| ==> wave[i] in p.nodes
  }

  function RunWave(j: Job, wave: seq<Key>, at: Progress): Progress
    requires WaveHeld(j.plan, wave)
  {
    if wave == [] then at
    else ProcessOne(j, wave[|wave| - 1], RunWave(j, wave[..|wave| - 1], at))
  }

  function ProviderCount(p: Plan, wave: seq<Key>): nat
    requires WaveHeld(p, wave)
  {
    if wave == [] then 0
    else ProviderCount(p, wave[..|wave| - 1]) + if IsProvider(p.nodes[wave[|wave| - 1]]) then 1 else 0
  }

  lemma {:induction false} WaveIndices(j: Job, wave: seq<Key>, at: Progress)
    requires WaveHeld(j.plan, wave)
    ensures RunWave(j, wave, at).nextIdx == at.nextIdx + ProviderCount(j.plan, wave)
    ensures RunWave(j, wave, at).blocks.Keys == at.blocks.Keys + Elements(wave)
  {
    if wave != [] {
      var front := wave[..|wave| - 1];
      WaveIndices(j, front, at);
      assert wave == front + [wave[|wave| - 1]];
      assert Elements(wave) == Elements(front) + {wave[|wave| - 1]};
    }
  }

  predicate AllHeld(p: Plan, layers: seq<seq<Key>>) {
    forall i :: 0 <= i < |layers| ==> WaveHeld(p, layers[i])
  }

  /** Waves run one after the other while the budget lasts. */
  function RunLayers(j: Job, layers: seq<seq<Key>>, at: Progress): Progress
    requires AllHeld(j.plan, layers)
  {
    if layers == [] || at.w.steps >= j.max then at
    else RunLayers(j, layers[1..], RunWave(j, layers[0], at))
  }

  // --- The merge pass ---------------------------------------------------------------------

  function FoldBlock(env: Env, n: Node, b: Block, t: Tally): Tally {
    Tally(
      if b.status == OkStatus && |b.rows| > 0 then AddRows(env.norm, t.merged, env.display(n.providerId), b.rows)
        else t.merged,
      if b.status == NoStatus then t.lastStatus else b.status,
      if b.status == FailStatus && b.result.error != "" then b.result.error else t.lastError)
  }

  function BlockAt(blocks: map<Key, Block>, k: Key): Block {
    if k in blocks then blocks[k] else UNPROCESSED
  }

  predicate Merges(p: Plan, reach: set<Key>, k: Key) {
    k in reach && k in p.nodes && IsProvider(p.nodes[k])
  }

  function FoldOrder(j: Job, reach: set<Key>, blocks: map<Key, Block>, order: seq<Key>): Tally {
    if order == [] then NO_TALLY
    else
      var k := order[|order| - 1];
      var t := FoldOrder(j, reach, blocks, order[..|order| - 1]);
      if Merges(j.plan, reach, k) then FoldBlock(j.env, j.plan.nodes[k], BlockAt(blocks, k), t) else t
  }

  /** The last answer in plan order; the request keeps its own if no block has one. */
  function LastAnswer(j: Job, reach: set<Key>, blocks: map<Key, Block>, order: seq<Key>, answer: string): string {
    if order == [] then answer
    else
      var k := order[|order| - 1];
      if Merges(j.plan, reach, k) && BlockAt(blocks, k).answer != "" then BlockAt(blocks, k).answer
      else LastAnswer(j, reach, blocks, order[..|order| - 1], answer)
  }

  function Assemble(j: Job, reach: set<Key>, at: Progress): Output {
    Close(j, at.w.(answer := LastAnswer(j, reach, at.blocks, j.plan.order, at.w.answer)),
          FoldOrder(j, reach, at.blocks, j.plan.order))
  }

  ghost function NeutralReach(p: Plan): set<Key> {
    ReachSet(NeutralArcs(p.edges), p.start)
  }

  lemma {:induction false} LayersHeld(p: Plan, reach: set<Key>, done: set<Key>)
    requires forall i :: 0 <= i < |p.order| ==> p.order[i] in p.nodes
    ensures AllHeld(p, Layers(p, reach, done))
    decreases reach - done
  {
    var wave := Ready(p, reach, done);
    if wave != [] {
      assert wave[0] in reach - done;
      LayersHeld(p, reach, done + Elements(wave));
      forall i | 0 <= i < |wave|
        ensures wave[i] in p.nodes
      {
        assert wave[i] in p.order;
      }
    }
  }

  /** The waves of a whole run, and the state it starts from. */
  ghost function AllWaves(p: Plan): (layers: seq<seq<Key>>)
    requires PlanShape(p)
    ensures AllHeld(p, layers)
  {
    LayersHeld(p, NeutralReach(p), {});
    Layers(p, NeutralReach(p), {})
  }

  function Origin(breaker: Breaker): Progress {
    Progress(FreshWalk(breaker), map[], 0)
  }

  /** The state after all waves the budget allows, each run in plan order. */
  ghost function WavesInOrder(j: Job, breaker: Breaker): Progress
    requires PlanShape(j.plan)
  {
    RunLayers(j, AllWaves(j.plan), Origin(breaker))
  }

  ghost function FullChainOutput(j: Job, breaker: Breaker): Output
    requires PlanShape(j.plan)
  {
    Assemble(j, NeutralReach(j.plan), WavesInOrder(j, breaker))
  }

  // --- The waves are a topological order of everything reachable ---------------------------

  function Flatten(layers: seq<seq<Key>>): seq<Key> {
    if layers == [] then [] else layers[0] + Flatten(layers[1..])
  }

  /** If the neutral graph has no cycle, some unfinished reachable block is ready. */
  lemma NeverStalls(p: Plan, reach: set<Key>, done: set<Key>)
    requires Acyclic(NeutralArcs(p.edges)) && reach - done != {}
    requires reach <= Elements(p.order)
    ensures Ready(p, reach, done) != []
  {
    var v := AcyclicHasSource(NeutralArcs(p.edges), reach - done);
    forall i | 0 <= i < |p.edges| && Neutral(p.edges[i].condition) && p.edges[i].target == v &&
      p.edges[i].source in reach
      ensures p.edges[i].source in done
    {
      assert (p.edges[i].source, v) in NeutralArcs(p.edges);
    }
    assert v in Ready(p, reach, done);
  }

  lemma {:induction false} ReadyDistinct(p: Plan, reach: set<Key>, done: set<Key>, order: seq<Key>)
    requires Distinct(order)
    ensures Distinct(ReadyIn(p, reach, done, order))
  {
    if order != [] {
      var front := order[..|order| - 1];
      forall i, k | 0 <= i < k < |front|
        ensures front[i] != front[k]
      {
        assert order[i] == front[i] && order[k] == front[k];
      }
      ReadyDistinct(p, reach, done, front);
      assert order[|order| - 1] !in front;
    }
  }

  /** Block a has its place in the order before block b. */
  ghost predicate Precedes(order: seq<Key>, a: Key, b: Key) {
    exists i, k :: 0 <= i < k < |order| && order[i] == a && order[k] == b
  }

  ghost predicate InPlanOrder(wave: seq<Key>, order: seq<Key>) {
    forall i, k :: 0 <= i < k < |wave| ==> Precedes(order, wave[i], wave[k])
  }

  /** A wave lists its blocks in plan order. */
  lemma {:induction false} ReadyInPlanOrder(p: Plan, reach: set<Key>, done: set<Key>, order: seq<Key>)
    ensures InPlanOrder(ReadyIn(p, reach, done, order), order)
  {
    if order != [] {
      var front, last := order[..|order| - 1], order[|order| - 1];
      ReadyInPlanOrder(p, reach, done, front);
      var before, wave := ReadyIn(p, reach, done, front), ReadyIn(p, reach, done, order);
      forall i, k | 0 <= i < k < |wave|
        ensures Precedes(order, wave[i], wave[k])
      {
        if k < |before| {
          assert Precedes(front, before[i], before[k]);
          var a, b :| 0 <= a < b < |front| && front[a] == wave[i] && front[b] == wave[k];
          assert order[a] == wave[i] && order[b] == wave[k];
        } else {
          assert before[i] in front;
          var a :| 0 <= a < |front| && front[a] == wave[i];
          assert order[a] == wave[i] && order[|front|] == wave[k];
        }
      }
    }
  }

  ghost predicate DisjointWaves(layers: seq<seq<Key>>, done: set<Key>) {
    && (forall i, k :: 0 <= i < |layers| && k in layers[i] ==> k !in done)
    && (forall i :: 0 <= i < |layers| ==> layers[i] != [] && Distinct(layers[i]))
    && (forall h, i, k :: 0 <= h < i < |layers| && k in layers[h] ==> k !in layers[i])
  }

  /** A neutral arc between reachable blocks, other than into the entry, goes from an
      earlier wave (or an already finished block) to a later one. */
  ghost predicate RespectsArcs(p: Plan, reach: set<Key>, done: set<Key>, layers: seq<seq<Key>>) {
    forall i, a, b ::
      0 <= i < |layers| && b in layers[i] && b != p.start && a in reach && (a, b) in NeutralArcs(p.edges) ==>
      a in done || exists h :: 0 <= h < i && a in layers[h]
  }

  lemma {:induction false} LayersOrder(p: Plan, reach: set<Key>, done: set<Key>)
    requires Distinct(p.order)
    ensures DisjointWaves(Layers(p, reach, done), done)
    ensures RespectsArcs(p, reach, done, Layers(p, reach, done))
    decreases reach - done
  {
    var wave := Ready(p, reach, done);
    ReadyDistinct(p, reach, done, p.order);
    if wave != [] {
      assert wave[0] in reach - done;
      var done' := done + Elements(wave);
      var rest := Layers(p, reach, done');
      LayersOrder(p, reach, done');
      var all := [wave] + rest;
      forall h, i, k | 0 <= h < i < |all| && k in all[h]
        ensures k !in all[i]
      {
        assert all[i] == rest[i - 1];
        if h > 0 {
          assert all[h] == rest[h - 1];
        } else {
          assert k in done';
        }
      }
      forall i, a, b | 0 <= i < |all| && b in all[i] && b != p.start && a in reach && (a, b) in NeutralArcs(p.edges)
        ensures a in done || exists h :: 0 <= h < i && a in all[h]
      {
        if i == 0 {
          assert PredecessorsDone(p, reach, done, b);
        } else {
          assert all[i] == rest[i - 1];
          if a in wave {
            assert a in all[0];
          } else if a !in done {
            var h :| 0 <= h < i - 1 && a in rest[h];
            assert a in all[h + 1];
          }
        }
      }
    }
  }

  lemma WaitedFor(p: Plan, reach: set<Key>, done: set<Key>, wave: seq<Key>, k: Key)
    requires k in reach && !PredecessorsDone(p, reach, done, k)
    requires PredecessorsDone(p, reach, done + Elements(wave), k)
    ensures exists a :: a in reach && a in wave && (a, k) in NeutralArcs(p.edges)
  {
    var i :| 0 <= i < |p.edges| && Neutral(p.edges[i].condition) && p.edges[i].target == k &&
      p.edges[i].source in reach && p.edges[i].source !in done;
    assert (p.edges[i].source, k) in NeutralArcs(p.edges);
  }

  /** No block waits longer than it must: one that is not in the first wave waited for a
      neutral predecessor in the wave before its own. Within a wave plan order decides. */
  lemma {:induction false} LayersGreedy(p: Plan, reach: set<Key>, done: set<Key>, i: nat, k: Key)
    requires i < |Layers(p, reach, done)| && k in Layers(p, reach, done)[i]
    ensures InPlanOrder(Layers(p, reach, done)[i], p.order)
    ensures i > 0 ==> exists a :: a in reach && a in Layers(p, reach, done)[i - 1] && (a, k) in NeutralArcs(p.edges)
    decreases i
  {
    var wave := Ready(p, reach, done);
    ReadyInPlanOrder(p, reach, done, p.order);
    if i > 0 {
      assert wave[0] in reach - done;
      var done' := done + Elements(wave);
      var rest := Layers(p, reach, done');
      assert Layers(p, reach, done) == [wave] + rest;
      LayersGreedy(p, reach, done', i - 1, k);
      if i == 1 {
        assert k in Ready(p, reach, done') && k !in wave && k in p.order;
        WaitedFor(p, reach, done, wave, k);
      }
    }
  }

  ghost predicate InSomeWave(layers: seq<seq<Key>>, k: Key) {
    exists i :: 0 <= i < |layers| && k in layers[i]
  }

  lemma InSomeWaveStep(wave: seq<Key>, rest: seq<seq<Key>>, k: Key)
    ensures InSomeWave([wave] + rest, k) <==> k in wave || InSomeWave(rest, k)
  {
    var all := [wave] + rest;
    if k in wave {
      assert k in all[0];
    }
    if i :| 0 <= i < |rest| && k in rest[i] {
      assert k in all[i + 1];
    }
    if i :| 0 <= i < |all| && k in all[i] {
      assert i > 0 ==> all[i] == rest[i - 1];
    }
  }

  lemma {:induction false} LayersComplete(p: Plan, reach: set<Key>, done: set<Key>, k: Key)
    requires Acyclic(NeutralArcs(p.edges)) && reach <= Elements(p.order)
    ensures k !in done ==> (k in reach <==> InSomeWave(Layers(p, reach, done), k))
    decreases reach - done
  {
    var wave := Ready(p, reach, done);
    if wave == [] {
      if k in reach && k !in done {
        assert k in reach - done;
        NeverStalls(p, reach, done);
      }
    } else {
      assert wave[0] in reach - done;
      var done' := done + Elements(wave);
      LayersComplete(p, reach, done', k);
      InSomeWaveStep(wave, Layers(p, reach, done'), k);
    }
  }

  /** On every accepted chain the scheduler's waves name each reachable block exactly once,
      and no block before all its reachable neutral predecessors. */
  lemma WavesAreTopological(c: Chain, p: Plan)
    requires Accepts(c) && PlanOf(c) == Some(p) && PlanShape(p)
    ensures var layers := AllWaves(p);
            && DisjointWaves(layers, {}) && RespectsArcs(p, NeutralReach(p), {}, layers)
            && forall k :: k in NeutralReach(p) <==> InSomeWave(layers, k)
  {
    AcceptedReach(c, p);
    LayersOrder(p, NeutralReach(p), {});
    forall k
      ensures k in NeutralReach(p) <==> InSomeWave(Layers(p, NeutralReach(p), {}), k)
    {
      LayersComplete(p, NeutralReach(p), {}, k);
    }
  }

  lemma AcceptedReach(c: Chain, p: Plan)
    requires Accepts(c) && PlanOf(c) == Some(p)
    ensures PlanShape(p) && Distinct(p.order) && Acyclic(NeutralArcs(p.edges))
    ensures NeutralReach(p) <= Elements(p.order) && NeutralReach(p) <= p.nodes.Keys
    ensures p.edges == c.edges && p.nodes == KnownNodes(c)
  {
    AcceptedIsWellFormed(c);
    AcceptedNodes(c);
    KnownIsHeld(c);
    PlanOfWellFormed(c);
    PlanIndex(c);
    NeutralWithinAll(c.edges);
    SubgraphReach(NeutralArcs(c.edges), AllArcs(c.edges), p.start);
    forall a, b | (a, b) in NeutralArcs(c.edges) && a in Elements(p.order)
      ensures b in Elements(p.order)
    {
      var i :| 0 <= i < |c.edges| && c.edges[i].target == b;
      assert c.edges[i] in c.edges && HasKey(c, b);
    }
    forall k | k in NeutralReach(p)
      ensures k in Elements(p.order)
    {
      var path :| PathFromTo(NeutralArcs(p.edges), path, p.start, k);
      assert p.start in p.nodes && p.start in Elements(p.order);
      ClosedPath(NeutralArcs(p.edges), Elements(p.order), path);
    }
  }
}

/** The wave executor in the code's own form: in-degree counters, a done set, and a merge
    pass, proved against the declarative waves. */
module Scheduler {
  import opened Graph
  import opened Chains
  import opened Plans
  import opened Merge
  import opened Cooldown
  import opened Walks
  import opened FullChain

  // --- In-degree counters -------------------------------------------------------------

  /** Neutral edges, with multiplicity, from the given sources into k. */
  function CountFrom(edges: seq<Edge>, sources: set<Key>, k: Key): nat {
    if edges == [] then 0
    else
      var e := edges[|edges| - 1];
      CountFrom(edges[..|edges| - 1], sources, k) +
      if Neutral(e.condition) && e.target == k && e.source in sources then 1 else 0
  }

  function Targets(adj: map<Key, seq<Key>>, k: Key): seq<Key> {
    if k in adj then adj[k] else []
  }

  lemma {:induction false} CountFromAdd(edges: seq<Edge>, sources: set<Key>, a: Key, k: Key)
    requires a !in sources
    ensures CountFrom(edges, sources + {a}, k) ==
      CountFrom(edges, sources, k) + multiset(Targets(AdjacencyOf(edges, true), a))[k]
  {
    if edges != [] {
      CountFromAdd(edges[..|edges| - 1], sources, a, k);
    }
  }

  lemma {:induction false} CountFromZero(edges: seq<Edge>, sources: set<Key>, k: Key)
    ensures CountFrom(edges, sources, k) == 0 <==>
      forall i :: 0 <= i < |edges| && Neutral(edges[i].condition) && edges[i].target == k ==>
        edges[i].source !in sources
  {
    if edges != [] {
      var front := edges[..|edges| - 1];
      CountFromZero(front, sources, k);
      assert forall i :: 0 <= i < |front| ==> front[i] == edges[i];
    }
  }

  function Degree(indeg: map<Key, int>, k: Key): int {
    if k in indeg then indeg[k] else 0
  }

  /** Each counter but the entry's holds the edges still to come from pending blocks. */
  ghost predicate Counts(p: Plan, reach: set<Key>, pending: set<Key>, indeg: map<Key, int>) {
    forall k :: k in reach && k != p.start ==> Degree(indeg, k) == CountFrom(p.edges, pending, k)
  }

  function Shift(targets: seq<Key>, k: Key, up: bool): int {
    var n: int := multiset(targets)[k];
    if up then n else -n
  }

  method Adjust(indeg: map<Key, int>, targets: seq<Key>, reach: set<Key>, up: bool) returns (r: map<Key, int>)
    ensures forall k :: k in reach ==>
      Degree(r, k) == Degree(indeg, k) + Shift(targets, k, up)
  {
    r := indeg;
    for i := 0 to |targets|
      invariant forall k :: k in reach ==>
        Degree(r, k) == Degree(indeg, k) + Shift(targets[..i], k, up)
    {
      assert targets[..i + 1] == targets[..i] + [targets[i]];
      if targets[i] in reach {
        r := r[targets[i] := Degree(r, targets[i]) + if up then 1 else -1];
      }
    }
    assert targets[..|targets|] == targets;
  }

  method InDegrees(p: Plan, succ: map<Key, seq<Key>>, reach: set<Key>) returns (indeg: map<Key, int>)
    requires succ == AdjacencyOf(p.edges, true)
    ensures Counts(p, reach, reach, indeg) && Degree(indeg, p.start) == 0
  {
    indeg := map[];
    var todo := reach;
    forall k
      ensures CountFrom(p.edges, {}, k) == 0
    {
      CountFromZero(p.edges, {}, k);
    }
    assert reach - todo == {};
    while todo != {}
      invariant todo <= reach && Counts(p, reach, reach - todo, indeg)
    {
      var key :| key in todo;
      ghost var counted := reach - todo;
      todo := todo - {key};
      indeg := Adjust(indeg, Targets(succ, key), reach, true);
      assert reach - todo == counted + {key};
      forall k | k in reach && k != p.start
        ensures Degree(indeg, k) == CountFrom(p.edges, counted + {key}, k)
      {
        CountFromAdd(p.edges, counted, key, k);
      }
    }
    assert reach - todo == reach;
    indeg := indeg[p.start := 0];
  }

  /** A zero counter is exactly what the declarative readiness asks for. */
  lemma ZeroMeansReady(p: Plan, reach: set<Key>, done: set<Key>, indeg: map<Key, int>, k: Key)
    requires Counts(p, reach, reach - done, indeg) && k in reach && k != p.start
    ensures Degree(indeg, k) == 0 <==> PredecessorsDone(p, reach, done, k)
  {
    CountFromZero(p.edges, reach - done, k);
  }

  lemma ZeroIsReady(p: Plan, reach: set<Key>, done: set<Key>, indeg: map<Key, int>, k: Key)
    requires Counts(p, reach, reach - done, indeg)
    requires p.start !in done ==> Degree(indeg, p.start) == 0
    ensures k in reach && k !in done ==> (Degree(indeg, k) == 0 <==> PredecessorsDone(p, reach, done, k))
  {
    if k in reach && k !in done && k != p.start {
      ZeroMeansReady(p, reach, done, indeg, k);
    }
  }

  lemma ReadyStep(p: Plan, reach: set<Key>, done: set<Key>, order: seq<Key>, i: nat)
    requires i < |order|
    ensures var k := order[i];
            ReadyIn(p, reach, done, order[..i + 1]) ==
            if k in reach && k !in done && PredecessorsDone(p, reach, done, k)
              then ReadyIn(p, reach, done, order[..i]) + [k]
            else ReadyIn(p, reach, done, order[..i])
  {
    assert order[..i + 1][..i] == order[..i];
  }

  method CollectReady(p: Plan, reach: set<Key>, done: set<Key>, indeg: map<Key, int>) returns (ready: seq<Key>)
    requires Counts(p, reach, reach - done, indeg)
    requires p.start !in done ==> Degree(indeg, p.start) == 0
    ensures ready == Ready(p, reach, done)
  {
    ready := [];
    for i := 0 to |p.order|
      invariant ready == ReadyIn(p, reach, done, p.order[..i])
    {
      var key := p.order[i];
      ReadyStep(p, reach, done, p.order, i);
      ZeroIsReady(p, reach, done, indeg, key);
      if key in reach && key !in done && Degree(indeg, key) == 0 {
        ready := ready + [key];
      }
    }
    assert p.order[..|p.order|] == p.order;
  }

  method MarkDone(p: Plan, succ: map<Key, seq<Key>>, reach: set<Key>, done0: set<Key>, ready: seq<Key>,
          indeg0: map<Key, int>)
    returns (done: set<Key>, indeg: map<Key, int>)
    requires succ == AdjacencyOf(p.edges, true) && Counts(p, reach, reach - done0, indeg0)
    requires Distinct(ready) && forall i :: 0 <= i < |ready| ==> ready[i] in reach && ready[i] !in done0
    ensures done == done0 + Elements(ready)
    ensures Counts(p, reach, reach - done, indeg)
  {
    done, indeg := done0, indeg0;
    for i := 0 to |ready|
      invariant done == done0 + Elements(ready[..i])
      invariant Counts(p, reach, reach - done, indeg)
    {
      var key := ready[i];
      assert ready[..i + 1] == ready[..i] + [key];
      assert key !in ready[..i];
      ghost var pending := reach - done - {key};
      assert reach - done == pending + {key};
      done := done + {key};
      indeg := Adjust(indeg, Targets(succ, key), reach, false);
      assert reach - done == pending;
      forall k | k in reach && k != p.start
        ensures Degree(indeg, k) == CountFrom(p.edges, pending, k)
      {
        CountFromAdd(p.edges, pending, key, k);
      }
    }
    assert ready[..|ready|] == ready;
  }

  // --- One wave ------------------------------------------------------------------------

  /** Numbers the provider blocks of a wave before any of them starts. */
  method NumberWave(p: Plan, ready: seq<Key>, nextIdx0: nat) returns (idxByKey: map<Key, nat>, nextIdx: nat)
    requires WaveHeld(p, ready) && Distinct(ready)
    ensures nextIdx == nextIdx0 + ProviderCount(p, ready)
    ensures forall i :: 0 <= i < |ready| && IsProvider(p.nodes[ready[i]]) ==>
      ready[i] in idxByKey && idxByKey[ready[i]] == nextIdx0 + ProviderCount(p, ready[..i])
  {
    idxByKey, nextIdx := map[], nextIdx0;
    for i := 0 to |ready|
      invariant nextIdx == nextIdx0 + ProviderCount(p, ready[..i])
      invariant forall h :: 0 <= h < i && IsProvider(p.nodes[ready[h]]) ==>
        ready[h] in idxByKey && idxByKey[ready[h]] == nextIdx0 + ProviderCount(p, ready[..h])
    {
      assert ready[..i + 1][..i] == ready[..i];
      if IsProvider(p.nodes[ready[i]]) {
        idxByKey := idxByKey[ready[i] := nextIdx];
        nextIdx := nextIdx + 1;
      }
    }
    assert ready[..|ready|] == ready;
  }

  method ProcessBlock(j: Job, run: Run, n: Node, idx: nat) returns (block: Block)
    requires run.maxAttempts == j.max
    modifies run, run.cooldowns
    ensures (block, run.View()) == Process(j.env, j.max, n, idx, old(run.View()))
  {
    if !IsProvider(n) {
      return Block(OkStatus, [], NO_RESULT, "");
    }
    var skip := run.ResolveNode(j.env, n);
    if skip {
      run.RecordSkip(n, idx);
      return Block(SkipStatus, [], NO_RESULT, "");
    }
    var ran := run.ExecNode(j.env, idx, n);
    return BlockOf(n, ran);
  }

  /** A logical block ignores the index it is handed. */
  lemma LogicalIgnoresIndex(env: Env, max: int, n: Node, a: nat, b: nat, w: Walk)
    requires !IsProvider(n)
    ensures Process(env, max, n, a, w) == Process(env, max, n, b, w)
  {
  }

  /** One block of a wave, with the index it was given if it is a provider block. */
  method ProcessNext(j: Job, run: Run, k: Key, idx: nat, ghost at: Progress) returns (block: Block)
    requires run.maxAttempts == j.max && k in j.plan.nodes && run.View() == at.w
    requires IsProvider(j.plan.nodes[k]) ==> idx == at.nextIdx
    modifies run, run.cooldowns
    ensures run.View() == ProcessOne(j, k, at).w && at.blocks[k := block] == ProcessOne(j, k, at).blocks
  {
    if !IsProvider(j.plan.nodes[k]) {
      LogicalIgnoresIndex(j.env, j.max, j.plan.nodes[k], idx, at.nextIdx, at.w);
    }
    block := ProcessBlock(j, run, j.plan.nodes[k], idx);
  }

  method ExecuteWave(j: Job, run: Run, ready: seq<Key>, blocks0: map<Key, Block>, nextIdx0: nat)
    returns (blocks: map<Key, Block>, nextIdx: nat)
    requires run.maxAttempts == j.max && WaveHeld(j.plan, ready) && Distinct(ready)
    modifies run, run.cooldowns
    ensures Progress(run.View(), blocks, nextIdx) == RunWave(j, ready, Progress(old(run.View()), blocks0, nextIdx0))
  {
    ghost var at := Progress(run.View(), blocks0, nextIdx0);
    var idxByKey;
    idxByKey, nextIdx := NumberWave(j.plan, ready, nextIdx0);
    blocks := blocks0;
    for i := 0 to |ready|
      invariant run.View() == RunWave(j, ready[..i], at).w && blocks == RunWave(j, ready[..i], at).blocks
    {
      assert ready[..i + 1][..i] == ready[..i];
      WaveIndices(j, ready[..i], at);
      var idx := if IsProvider(j.plan.nodes[ready[i]]) then idxByKey[ready[i]] else 0;
      var block := ProcessNext(j, run, ready[i], idx, RunWave(j, ready[..i], at));
      blocks := blocks[ready[i] := block];
    }
    assert ready[..|ready|] == ready;
    WaveIndices(j, ready, at);
  }

  // --- The merge pass --------------------------------------------------------------------

  method MergePass(j: Job, reach: set<Key>, blocks: map<Key, Block>, answer0: string) returns (t: Tally, answer: string)
    ensures t == FoldOrder(j, reach, blocks, j.plan.order)
    ensures answer == LastAnswer(j, reach, blocks, j.plan.order, answer0)
  {
    var merger := new Merger(j.env.norm);
    var lastStatus, lastError := NoStatus, "";
    answer := answer0;
    for i := 0 to |j.plan.order|
      invariant fresh(merger) && merger.norm == j.env.norm && Indexed(merger.View())
      invariant Tally(merger.View(), lastStatus, lastError) == FoldOrder(j, reach, blocks, j.plan.order[..i])
      invariant answer == LastAnswer(j, reach, blocks, j.plan.order[..i], answer0)
    {
      assert j.plan.order[..i + 1][..i] == j.plan.order[..i];
      var key := j.plan.order[i];
      if key in reach && key in j.plan.nodes && IsProvider(j.plan.nodes[key]) {
        var st := BlockAt(blocks, key);
        if st.status != NoStatus {
          lastStatus := st.status;
        }
        if st.status == FailStatus && st.result.error != "" {
          lastError := st.result.error;
        }
        if st.answer != "" {
          answer := st.answer;
        }
        if st.status == OkStatus && |st.rows| > 0 {
          var changed := merger.Add(j.env.display(j.plan.nodes[key].providerId), st.rows);
        }
      }
    }
    assert j.plan.order[..|j.plan.order|] == j.plan.order;
    t := Tally(merger.Snapshot(), lastStatus, lastError);
  }

  // --- The executor ------------------------------------------------------------------------

  /** Runs ready waves while the budget lasts, then merges in plan order: the output is the
      one the declarative waves define. */
  method RunFullChain(j: Job, cooldowns: ProviderCooldowns) returns (out: Output)
    requires PlanShape(j.plan) && Distinct(j.plan.order)
    modifies cooldowns
    ensures out == FullChainOutput(j, old(cooldowns.View()))
  {
    var run := new Run(j.max, cooldowns);
    var succ := Adjacency(j.plan.edges, true);
    var reach := Search(succ, j.plan.start);
    ReachesRefl(NeutralArcs(j.plan.edges), j.plan.start);
    var indeg := InDegrees(j.plan, succ, reach);
    var blocks, nextIdx := ExecuteWaves(j, run, succ, reach, indeg);
    var t, answer := MergePass(j, reach, blocks, run.answer);
    run.answer := answer;
    out := Close(j, run.Snapshot(), t);
  }

  lemma TakesWave(p: Plan, reach: set<Key>, done: set<Key>, ready: seq<Key>)
    requires PlanShape(p) && Distinct(p.order) && ready == Ready(p, reach, done) && ready != [] && p.start in reach
    ensures WaveHeld(p, ready) && Distinct(ready) && ready[0] in reach - done
    ensures p.start !in done ==> p.start in ready
  {
    ReadyDistinct(p, reach, done, p.order);
    forall i | 0 <= i < |ready|
      ensures ready[i] in p.nodes
    {
      assert ready[i] in ready;
    }
    assert ready[0] in ready;
  }

  /** The first of the layers is the wave that is ready. */
  lemma TakesLayer(j: Job, reach: set<Key>, done: set<Key>, ready: seq<Key>, at: Progress)
    requires PlanShape(j.plan) && ready == Ready(j.plan, reach, done) && ready != [] && at.w.steps < j.max
    requires WaveHeld(j.plan, ready)
    ensures AllHeld(j.plan, Layers(j.plan, reach, done))
    ensures AllHeld(j.plan, Layers(j.plan, reach, done + Elements(ready)))
    ensures RunLayers(j, Layers(j.plan, reach, done), at) ==
      RunLayers(j, Layers(j.plan, reach, done + Elements(ready)), RunWave(j, ready, at))
  {
    LayersHeld(j.plan, reach, done);
    LayersHeld(j.plan, reach, done + Elements(ready));
    assert ready[0] in reach - done;
    assert Layers(j.plan, reach, done)[1..] == Layers(j.plan, reach, done + Elements(ready));
  }

  method ExecuteWaves(j: Job, run: Run, succ: map<Key, seq<Key>>, reach: set<Key>, indeg0: map<Key, int>)
    returns (blocks: map<Key, Block>, nextIdx: nat)
    requires PlanShape(j.plan) && Distinct(j.plan.order) && run.maxAttempts == j.max && j.plan.start in reach
    requires succ == AdjacencyOf(j.plan.edges, true) && Counts(j.plan, reach, reach, indeg0)
    requires Degree(indeg0, j.plan.start) == 0
    modifies run, run.cooldowns
    ensures AllHeld(j.plan, Layers(j.plan, reach, {}))
    ensures Progress(run.View(), blocks, nextIdx) ==
      RunLayers(j, Layers(j.plan, reach, {}), Progress(old(run.View()), map[], 0))
  {
    var indeg, done := indeg0, {};
    blocks, nextIdx := map[], 0;
    LayersHeld(j.plan, reach, {});
    ghost var goal := RunLayers(j, Layers(j.plan, reach, {}), Progress(run.View(), blocks, nextIdx));
    assert reach - {} == reach;
    while run.HasBudget()
      invariant Counts(j.plan, reach, reach - done, indeg)
      invariant j.plan.start !in done ==> Degree(indeg, j.plan.start) == 0
      invariant AllHeld(j.plan, Layers(j.plan, reach, done))
      invariant RunLayers(j, Layers(j.plan, reach, done), Progress(run.View(), blocks, nextIdx)) == goal
      decreases reach - done
    {
      var ready := CollectReady(j.plan, reach, done, indeg);
      if |ready| == 0 {
        break;
      }
      TakesWave(j.plan, reach, done, ready);
      TakesLayer(j, reach, done, ready, Progress(run.View(), blocks, nextIdx));
      blocks, nextIdx := ExecuteWave(j, run, ready, blocks, nextIdx);
      done, indeg := MarkDone(j.plan, succ, reach, done, ready, indeg);
    }
  }
}

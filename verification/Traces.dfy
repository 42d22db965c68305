/** What the recorded attempts of a request say: their index is the place of their block
    among the provider blocks, in the order in which these come up. */
module Traces {
  import opened Text
  import opened Graph
  import opened Chains
  import opened Plans
  import opened Cooldown
  import opened Walks
  import opened FullChain
  import opened Branches
  import opened Legacy
  import FS = FirstSuccess
  import Steering
  import opened Attempts

  /** The provider blocks among some keys, in their order. */
  function ProvidersOf(p: Plan, keys: seq<Key>): seq<Key> {
    if keys == [] then []
    else
      var k := keys[|keys| - 1];
      ProvidersOf(p, keys[..|keys| - 1]) +
      if k in p.nodes && p.nodes[k].kind !in {StartKind, JoinKind} then [k] else []
  }

  predicate PlacedRecord(places: seq<Key>, r: Record) {
    r.idx < |places| && places[r.idx] == r.key
  }

  /** Every record names the block that has its index. */
  predicate Placed(places: seq<Key>, trace: seq<Record>) {
    forall i :: 0 <= i < |trace| ==> PlacedRecord(places, trace[i])
  }

  lemma {:induction false} ProvidersSplit(p: Plan, a: seq<Key>, b: seq<Key>)
    ensures ProvidersOf(p, a + b) == ProvidersOf(p, a) + ProvidersOf(p, b)
  {
    if b == [] {
      assert a + b == a;
    } else {
      ProvidersSplit(p, a, b[..|b| - 1]);
      assert (a + b)[..|a + b| - 1] == a + b[..|b| - 1];
    }
  }

  lemma MorePlaces(places: seq<Key>, more: seq<Key>, trace: seq<Record>)
    requires Placed(places, trace)
    ensures Placed(places + more, trace)
  {
    forall i | 0 <= i < |trace|
      ensures PlacedRecord(places + more, trace[i])
    {
      assert PlacedRecord(places, trace[i]);
    }
  }

  lemma OneMoreRecord(places: seq<Key>, trace: seq<Record>, r: Record)
    requires Placed(places, trace) && PlacedRecord(places, r)
    ensures Placed(places, trace + [r])
  {
  }

  // --- Waves ----------------------------------------------------------------------------------

  lemma {:induction false} IndexIsPlace(p: Plan, wave: seq<Key>, nextIdx: nat, k: Key)
    requires WaveHeld(p, wave) && k in wave && IsProvider(p.nodes[k])
    ensures |ProvidersOf(p, wave)| == ProviderCount(p, wave) && k in WaveIdx(p, wave, nextIdx)
    ensures var i := WaveIdx(p, wave, nextIdx)[k];
            nextIdx <= i < nextIdx + |ProvidersOf(p, wave)| && ProvidersOf(p, wave)[i - nextIdx] == k
  {
    var front := wave[..|wave| - 1];
    CountIsProviders(p, front);
    CountIsProviders(p, wave);
    if wave[|wave| - 1] != k {
      IndexIsPlace(p, front, nextIdx, k);
    }
  }

  lemma {:induction false} CountIsProviders(p: Plan, wave: seq<Key>)
    requires WaveHeld(p, wave)
    ensures |ProvidersOf(p, wave)| == ProviderCount(p, wave)
  {
    if wave != [] {
      CountIsProviders(p, wave[..|wave| - 1]);
    }
  }

  lemma StepPlaced(env: Env, max: int, n: Node, idx: nat, pc: Pc, w: Walk, places: seq<Key>)
    requires Placed(places, w.trace) && (IsProvider(n) || pc.AtResolve? || pc.Finished?)
    requires IsProvider(n) ==> idx < |places| && places[idx] == n.key
    ensures Placed(places, BranchStep(env, max, n, idx, pc, w).1.trace)
  {
    var w' := BranchStep(env, max, n, idx, pc, w).1;
    if w'.trace != w.trace {
      OneMoreRecord(places, w.trace, w'.trace[|w.trace|]);
    }
  }

  /** On the way through a wave: logical blocks take no turns of their own. */
  ghost predicate Placing(j: Job, places: seq<Key>, c: Config) {
    && Placed(places, c.w.trace)
    && forall k :: k in c.pcs && k in j.plan.nodes && !IsProvider(j.plan.nodes[k]) ==>
         c.pcs[k].AtResolve? || c.pcs[k].Finished?
  }

  lemma {:induction false} InterleavePlaced(j: Job, idx: map<Key, nat>, c: Config, sched: seq<Key>, places: seq<Key>)
    requires PlanShape(j.plan) && Placing(j, places, c)
    requires forall k :: k in c.pcs && k in j.plan.nodes && IsProvider(j.plan.nodes[k]) ==>
      k in idx && idx[k] < |places| && places[idx[k]] == k
    ensures Placing(j, places, Interleave(j, idx, c, sched))
  {
    if sched != [] {
      var front, k := sched[..|sched| - 1], sched[|sched| - 1];
      InterleavePlaced(j, idx, c, front, places);
      KeysStay(j, idx, c, front);
      var at := Interleave(j, idx, c, front);
      if k in at.pcs && k in j.plan.nodes {
        StepPlaced(j.env, j.max, j.plan.nodes[k], if k in idx then idx[k] else 0, at.pcs[k], at.w, places);
      }
    }
  }

  lemma WavePlaced(j: Job, wave: seq<Key>, sched: seq<Key>, at: Progress, places: seq<Key>)
    requires PlanShape(j.plan) && WaveHeld(j.plan, wave) && at.nextIdx == |places| && Placed(places, at.w.trace)
    ensures Placed(places + ProvidersOf(j.plan, wave), WaveUnder(j, wave, sched, at).w.trace)
    ensures |places + ProvidersOf(j.plan, wave)| == at.nextIdx + ProviderCount(j.plan, wave)
  {
    var all := places + ProvidersOf(j.plan, wave);
    MorePlaces(places, ProvidersOf(j.plan, wave), at.w.trace);
    CountIsProviders(j.plan, wave);
    var idx := WaveIdx(j.plan, wave, at.nextIdx);
    forall k | k in wave && k in j.plan.nodes && IsProvider(j.plan.nodes[k])
      ensures k in idx && idx[k] < |all| && all[idx[k]] == k
    {
      IndexIsPlace(j.plan, wave, at.nextIdx, k);
    }
    InterleavePlaced(j, idx, Launch(wave, at.w), sched, all);
  }

  lemma {:induction false} RunPlaced(j: Job, layers: seq<seq<Key>>, scheds: seq<seq<Key>>, at: Progress,
          places: seq<Key>)
    requires PlanShape(j.plan) && AllHeld(j.plan, layers) && Finishes(j, layers, scheds, at)
    requires at.nextIdx == |places| && Placed(places, at.w.trace)
    ensures Placed(places + ProvidersOf(j.plan, Flatten(layers)), RunUnder(j, layers, scheds, at).w.trace)
    decreases |layers|
  {
    if layers == [] || at.w.steps >= j.max {
      MorePlaces(places, ProvidersOf(j.plan, Flatten(layers)), at.w.trace);
    } else {
      var wave, rest := layers[0], layers[1..];
      WavePlaced(j, wave, scheds[0], at, places);
      var next := AfterWave(j, wave, scheds[0], at);
      RunPlaced(j, rest, scheds[1..], next, places + ProvidersOf(j.plan, wave));
      ProvidersSplit(j.plan, wave, Flatten(rest));
      assert places + ProvidersOf(j.plan, wave) + ProvidersOf(j.plan, Flatten(rest)) ==
        places + (ProvidersOf(j.plan, wave) + ProvidersOf(j.plan, Flatten(rest)));
    }
  }

  /** In a full-chain run, whatever the interleaving, a record's index is the place of its
      block among all provider blocks of the waves, wave by wave and in plan order within
      each. */
  lemma WavesAreNumbered(j: Job, scheds: seq<seq<Key>>, breaker: Breaker)
    requires PlanShape(j.plan) && Finishes(j, AllWaves(j.plan), scheds, Origin(breaker))
    ensures Placed(ProvidersOf(j.plan, Flatten(AllWaves(j.plan))),
                   RunUnder(j, AllWaves(j.plan), scheds, Origin(breaker)).w.trace)
  {
    RunPlaced(j, AllWaves(j.plan), scheds, Origin(breaker), []);
    var places := ProvidersOf(j.plan, Flatten(AllWaves(j.plan)));
    assert [] + places == places;
  }

  // --- Linear walks ------------------------------------------------------------------------------

  lemma {:induction false} RecordsPlaced(env: Env, n: Node, idx: nat, m: nat, places: seq<Key>, trace: seq<Record>)
    requires Placed(places, trace) && idx < |places| && places[idx] == n.key
    ensures Placed(places, trace + Records(env, n, idx, m))
  {
    if m == 0 {
      assert trace + [] == trace;
    } else {
      RecordsPlaced(env, n, idx, m - 1, places, trace);
      OneMoreRecord(places, trace + Records(env, n, idx, m - 1), RecordOf(env, n, idx, m - 1));
      assert trace + Records(env, n, idx, m) == trace + Records(env, n, idx, m - 1) + [RecordOf(env, n, idx, m - 1)];
    }
  }

  /** A provider block that is skipped or run with the next index. */
  lemma BlockPlaced(env: Env, max: int, n: Node, w: Walk, places: seq<Key>)
    requires Placed(places, w.trace)
    ensures var (skip, w1) := Resolve(env, n, w);
            && Placed(places + [n.key], Skipped(n, |places|, w1).trace)
            && Placed(places + [n.key], Exec(env, max, n, |places|, w1).1.trace)
  {
    var w1 := Resolve(env, n, w).1;
    MorePlaces(places, [n.key], w.trace);
    assert w1.trace == w.trace;
    OneMoreRecord(places + [n.key], w.trace, Record(|places|, n.key, 1, SkipStatus, 0));
    var m := AttemptsExactly(env, max, n, |places|, w1);
    RecordsPlaced(env, n, |places|, m, places + [n.key], w.trace);
  }

  lemma VisitPlaced(j: Job, k: Key, w: Walk, t: Tally, places: seq<Key>)
    requires PlanShape(j.plan) && k in j.plan.nodes && Placed(places, w.trace)
    ensures var (w', t', idx') := Visit(j, j.plan.nodes[k], |places|, w, t);
            Placed(places + ProvidersOf(j.plan, [k]), w'.trace) && idx' == |places + ProvidersOf(j.plan, [k])|
  {
    assert [k][..0] == [];
    BlockPlaced(j.env, j.max, j.plan.nodes[k], w, places);
    assert places + [] == places;
  }

  lemma {:induction false} WalkPlaced(j: Job, visited: set<Key>, node: Option<Key>, w: Walk, t: Tally,
          places: seq<Key>)
    requires PlanShape(j.plan) && Placed(places, w.trace)
    ensures Placed(places + ProvidersOf(j.plan, PathFrom(j.plan, visited, node)),
                   WalkFrom(j, visited, node, |places|, w, t).0.trace)
    decreases j.plan.nodes.Keys - visited
  {
    if node.None? || w.steps >= j.max || node.value in visited || node.value !in j.plan.nodes {
      MorePlaces(places, ProvidersOf(j.plan, PathFrom(j.plan, visited, node)), w.trace);
    } else {
      var k := node.value;
      var next, path := NextInFullChain(j.plan, k), PathFrom(j.plan, visited + {k}, NextInFullChain(j.plan, k));
      VisitPlaced(j, k, w, t, places);
      var left := Visit(j, j.plan.nodes[k], |places|, w, t);
      WalkPlaced(j, visited + {k}, next, left.0, left.1, places + ProvidersOf(j.plan, [k]));
      ProvidersSplit(j.plan, [k], path);
      assert places + ProvidersOf(j.plan, [k]) + ProvidersOf(j.plan, path) ==
        places + (ProvidersOf(j.plan, [k]) + ProvidersOf(j.plan, path));
    }
  }

  /** In a run of the linear walker it is the place among the provider blocks of its path. */
  lemma LinearIsNumbered(j: Job, breaker: Breaker)
    requires PlanShape(j.plan)
    ensures Placed(ProvidersOf(j.plan, LegacyPath(j.plan)), LegacyEnd(j, breaker).trace)
  {
    WalkPlaced(j, {}, Some(j.plan.start), FreshWalk(breaker), NO_TALLY, []);
    assert [] + ProvidersOf(j.plan, LegacyPath(j.plan)) == ProvidersOf(j.plan, LegacyPath(j.plan));
  }

  // --- Fallback walks -----------------------------------------------------------------------------

  /** The provider blocks a fallback walk stands at in its first n iterations. */
  ghost function Stood(j: FS.Job, st0: FS.State, n: nat): seq<Key> {
    if n == 0 then []
    else
      var st := FS.Iterate(j, st0, n - 1);
      Stood(j, st0, n - 1) +
      if Steering.Stands(j, st) && !Steering.Logical(j.plan.nodes[st.node.value]) then [st.node.value] else []
  }

  ghost predicate NumberedAt(j: FS.Job, st0: FS.State, n: nat) {
    && Placed(Stood(j, st0, n), FS.Iterate(j, st0, n).w.trace)
    && (FS.Iterate(j, st0, n).out.None? ==> FS.Iterate(j, st0, n).idx == |Stood(j, st0, n)|)
  }

  lemma StepPlaces(j: FS.Job, st: FS.State, places: seq<Key>)
    requires PlanShape(j.plan) && st.out.None? && Placed(places, st.w.trace) && st.idx == |places|
    ensures var next := FS.Step(j, st);
            if Steering.Stands(j, st) && !Steering.Logical(j.plan.nodes[st.node.value])
            then Placed(places + [st.node.value], next.w.trace) && (next.out.None? ==> next.idx == |places| + 1)
            else next.w.trace == st.w.trace && next.idx == st.idx
  {
    if Steering.Stands(j, st) && !Steering.Logical(j.plan.nodes[st.node.value]) {
      BlockPlaced(j.env, j.max, j.plan.nodes[st.node.value], st.w, places);
    }
  }

  lemma NumberedNext(j: FS.Job, st0: FS.State, n: nat)
    requires PlanShape(j.plan) && NumberedAt(j, st0, n)
    ensures NumberedAt(j, st0, n + 1)
  {
    var st := FS.Iterate(j, st0, n);
    FS.NextIterate(j, st0, n);
    assert Stood(j, st0, n) + [] == Stood(j, st0, n);
    if st.out.None? {
      StepPlaces(j, st, Stood(j, st0, n));
    }
  }

  /** In a fallback run it is the place among the provider blocks the walk stood at, and
      the walk first stands at the start of the plan. */
  lemma FallbackIsNumbered(j: FS.Job, breaker: Breaker, n: nat)
    requires PlanShape(j.plan)
    ensures Placed(Stood(j, FS.Begin(j, breaker), n), FS.Iterate(j, FS.Begin(j, breaker), n).w.trace)
    ensures FS.Iterate(j, FS.Begin(j, breaker), 0).node == Some(j.plan.start)
  {
    for i := 0 to n
      invariant NumberedAt(j, FS.Begin(j, breaker), i)
    {
      NumberedNext(j, FS.Begin(j, breaker), i);
    }
  }
}

/** What the silence of the budget warning is worth when the setting is not positive: the
    validator then counts nothing, and the engine falls back to a budget of ten. */
module Defaults {
  import opened Text
  import opened Graph
  import opened Chains
  import opened Validate
  import opened Plans
  import opened Cooldown
  import opened Walks
  import opened FullChain
  import opened Legacy
  import opened Branches
  import opened Budget
  import opened Refinement
  import opened Exactness
  import opened Warnings
  import FS = FirstSuccess
  import Confluence
  import Examples
  import Migration

  // --- Drivers that never give anything use every attempt ---------------------------------------

  /** Every attempt fails, with one call each. */
  function Hopeless(): Env {
    Failing((k: Key) => "")
  }

  lemma {:induction false} HopelessExec(max: int, n: Node, idx: nat, a: nat, w: Walk, last: Result, attempted: bool)
    requires a <= n.retries + 1 && w.steps <= max && Calm(w)
    ensures Calm(ExecFrom(Hopeless(), max, n, idx, a, w, last, attempted).1)
    ensures var steps := ExecFrom(Hopeless(), max, n, idx, a, w, last, attempted).1.steps;
            steps == if w.steps + n.retries + 1 - a <= max then w.steps + n.retries + 1 - a else max
    ensures !ExecFrom(Hopeless(), max, n, idx, a, w, last, attempted).0.won
    decreases n.retries + 1 - a
  {
    if a < n.retries + 1 && w.steps < max {
      var r := Hopeless().call(n.key, a);
      HopelessExec(max, n, idx, a + 1, AfterCall(Hopeless(), n, idx, a, w), r, true);
    }
  }

  lemma HopelessStep(max: int, n: Node, idx: nat, pc: Pc, w: Walk)
    requires Calm(w) && Possible(n, pc) && n.retries >= 0 && w.steps <= max && (pc.AtTake? ==> w.steps < max)
    ensures var (pc', w') := BranchStep(Hopeless(), max, n, idx, pc, w);
            Calm(w') && w'.steps - w.steps == Spent(Hopeless(), n, pc') - Spent(Hopeless(), n, pc) && w'.steps <= max
  {
  }

  // --- A wave run that loses nothing -------------------------------------------------------------

  /** No prefix of the schedule finds a branch that wants an attempt without one to take. */
  ghost predicate Unrefused(j: Job, wave: seq<Key>, idx: map<Key, nat>, w0: Walk, sched: seq<Key>) {
    forall n :: 0 <= n <= |sched| ==> HasAll(j, Interleave(j, idx, Launch(wave, w0), sched[..n]))
  }

  ghost predicate HasAll(j: Job, c: Config) {
    forall k :: k in c.pcs && c.pcs[k].AtTake? ==> c.w.steps < j.max
  }

  lemma UnrefusedFront(j: Job, wave: seq<Key>, idx: map<Key, nat>, w0: Walk, front: seq<Key>, k: Key)
    requires Unrefused(j, wave, idx, w0, front + [k])
    ensures Unrefused(j, wave, idx, w0, front) && HasAll(j, Interleave(j, idx, Launch(wave, w0), front))
  {
    forall n | 0 <= n <= |front|
      ensures HasAll(j, Interleave(j, idx, Launch(wave, w0), front[..n]))
    {
      assert (front + [k])[..n] == front[..n];
    }
    assert front[..|front|] == front;
  }

  /** The steps taken are exactly those the branches have spent. */
  ghost predicate Exact(j: Job, wave: seq<Key>, w0: Walk, c: Config)
    requires WaveHeld(j.plan, wave)
  {
    Calm(c.w) && c.w.steps <= j.max && c.w.steps == w0.steps + WaveSpent(j, wave, c.pcs)
  }

  lemma ExactTurn(j: Job, wave: seq<Key>, idx: map<Key, nat>, w0: Walk, c: Config, k: Key)
    requires WaveHeld(j.plan, wave) && Distinct(wave) && Retriable(j) && j.env == Hopeless()
    requires Ledger(j, wave, w0, c) && Exact(j, wave, w0, c) && HasAll(j, c)
    ensures Exact(j, wave, w0, Turn(j, idx, c, k))
  {
    if k in c.pcs {
      assert k in wave;
      var i := if k in idx then idx[k] else 0;
      HopelessStep(j.max, j.plan.nodes[k], i, c.pcs[k], c.w);
      var (pc, w) := BranchStep(j.env, j.max, j.plan.nodes[k], i, c.pcs[k], c.w);
      WaveSpentStep(j, wave, c.pcs, k, pc);
    }
  }

  lemma {:induction false} ExactWave(j: Job, wave: seq<Key>, idx: map<Key, nat>, w0: Walk, sched: seq<Key>)
    requires WaveHeld(j.plan, wave) && Distinct(wave) && Retriable(j) && j.env == Hopeless()
    requires Calm(w0) && w0.steps <= j.max && Unrefused(j, wave, idx, w0, sched)
    ensures Exact(j, wave, w0, Interleave(j, idx, Launch(wave, w0), sched))
  {
    if sched == [] {
      NothingSpentYet(j, wave, wave);
    } else {
      var front, k := sched[..|sched| - 1], sched[|sched| - 1];
      assert sched == front + [k];
      UnrefusedFront(j, wave, idx, w0, front, k);
      ExactWave(j, wave, idx, w0, front);
      LedgerHolds(j, wave, front, idx, w0);
      ExactTurn(j, wave, idx, w0, Interleave(j, idx, Launch(wave, w0), front), k);
    }
  }

  lemma {:induction false} AllSpent(j: Job, wave: seq<Key>, c: Config)
    requires WaveHeld(j.plan, wave) && Complete(c) && forall i :: 0 <= i < |wave| ==> wave[i] in c.pcs
    ensures WaveSpent(j, wave, c.pcs) == SeqCost(j, wave)
  {
    if wave != [] {
      AllSpent(j, wave[..|wave| - 1], c);
    }
  }

  lemma WaveCosts(j: Job, wave: seq<Key>, sched: seq<Key>, at: Progress)
    requires WaveHeld(j.plan, wave) && Distinct(wave) && Retriable(j) && j.env == Hopeless()
    requires Calm(at.w) && at.w.steps <= j.max && Complete(WaveUnder(j, wave, sched, at))
    requires Unrefused(j, wave, WaveIdx(j.plan, wave, at.nextIdx), at.w, sched)
    ensures var next := AfterWave(j, wave, sched, at);
            && Calm(next.w) && next.w.steps <= j.max && next.w.steps == at.w.steps + SeqCost(j, wave)
            && next.blocks.Keys == at.blocks.Keys + Elements(wave)
  {
    var idx := WaveIdx(j.plan, wave, at.nextIdx);
    ExactWave(j, wave, idx, at.w, sched);
    KeysStay(j, idx, Launch(wave, at.w), sched);
    assert Launch(wave, at.w).pcs.Keys == Elements(wave);
    AllSpent(j, wave, WaveUnder(j, wave, sched, at));
  }

  lemma {:induction false} NoProvidersCost(j: Job, keys: seq<Key>)
    requires WaveHeld(j.plan, keys) && forall i :: 0 <= i < |keys| ==> !IsProvider(j.plan.nodes[keys[i]])
    ensures SeqCost(j, keys) == 0
  {
    if keys != [] {
      NoProvidersCost(j, keys[..|keys| - 1]);
    }
  }

  /** A run that processes every provider block and refuses none takes every step there is. */
  lemma {:induction false} RunCosts(j: Job, layers: seq<seq<Key>>, scheds: seq<seq<Key>>, at: Progress)
    requires AllHeld(j.plan, layers) && Finishes(j, layers, scheds, at) && NeverRefused(j, layers, scheds, at)
    requires Retriable(j) && j.env == Hopeless() && Calm(at.w) && at.w.steps <= j.max
    requires DisjointWaves(layers, at.blocks.Keys)
    requires WaveHeld(j.plan, Flatten(layers))
    requires forall k :: k in Flatten(layers) && IsProvider(j.plan.nodes[k]) ==>
      k in RunUnder(j, layers, scheds, at).blocks
    ensures at.w.steps + SeqCost(j, Flatten(layers)) <= j.max
    decreases |layers|
  {
    FlattenHeld(j.plan, layers);
    if layers == [] {
    } else if at.w.steps >= j.max {
      forall i | 0 <= i < |Flatten(layers)|
        ensures !IsProvider(j.plan.nodes[Flatten(layers)[i]])
      {
        assert Flatten(layers)[i] in Flatten(layers);
      }
      NoProvidersCost(j, Flatten(layers));
    } else {
      var wave, rest := layers[0], layers[1..];
      FlattenHeld(j.plan, rest);
      SeqCostAppend(j, wave, Flatten(rest));
      WaveIsUnrefused(j, layers, scheds, at);
      WaveCosts(j, wave, scheds[0], at);
      Confluence.TailDisjoint(layers, at.blocks.Keys);
      RunCosts(j, rest, scheds[1..], AfterWave(j, wave, scheds[0], at));
    }
  }

  lemma WaveIsUnrefused(j: Job, layers: seq<seq<Key>>, scheds: seq<seq<Key>>, at: Progress)
    requires AllHeld(j.plan, layers) && Finishes(j, layers, scheds, at) && NeverRefused(j, layers, scheds, at)
    requires layers != [] && at.w.steps < j.max
    ensures Unrefused(j, layers[0], WaveIdx(j.plan, layers[0], at.nextIdx), at.w, scheds[0])
  {
    forall n | 0 <= n <= |scheds[0]|
      ensures HasAll(j, Interleave(j, WaveIdx(j.plan, layers[0], at.nextIdx), Launch(layers[0], at.w), scheds[0][..n]))
    {
      var c := WaveUnder(j, layers[0], scheds[0][..n], at);
    }
  }

  /** No wave run of single-call drivers on this plan loses anything to the budget. */
  ghost predicate WavesKeepAll(p: Plan, max: int)
    requires PlanShape(p)
  {
    forall env, count, scheds, breaker :: WavesKeep(p, env, max, count, scheds, breaker)
  }

  ghost predicate WavesKeep(p: Plan, env: Env, max: int, count: int, scheds: seq<seq<Key>>, breaker: Breaker)
    requires PlanShape(p)
  {
    SingleCalls(env) && Finishes(Job(env, p, max, count), AllWaves(p), scheds, Origin(breaker)) ==>
      NothingLost(Job(env, p, max, count), scheds, breaker)
  }

  /** On an accepted chain the wave executor loses nothing, for any single-call drivers and
      under any interleaving, exactly when the attempts of what it reaches fit the budget. */
  lemma WavesKeepExactly(c: Chain, p: Plan, max: int)
    requires Accepts(c) && PlanOf(c) == Some(p) && PlanShape(p) && max >= 0
    ensures WavesKeepAll(p, max) <==> Attempts(p.nodes, NeutralReach(p)) <= max
  {
    if Attempts(p.nodes, NeutralReach(p)) <= max {
      forall env, count, scheds, breaker
        ensures WavesKeep(p, env, max, count, scheds, breaker)
      {
        var j := Job(env, p, max, count);
        if SingleCalls(env) && Finishes(j, AllWaves(p), scheds, Origin(breaker)) {
          AcceptedRetriable(c, j);
          AllWavesSum(c, j);
          AcceptedRunCovers(c, j, scheds, breaker);
        }
      }
    } else {
      HopelessLoses(c, p, max);
    }
  }

  lemma HopelessLoses(c: Chain, p: Plan, max: int)
    requires Accepts(c) && PlanOf(c) == Some(p) && PlanShape(p) && max >= 0
    requires Attempts(p.nodes, NeutralReach(p)) > max
    ensures !WavesKeepAll(p, max)
  {
    var j := Job(Hopeless(), p, max, 0);
    AcceptedReach(c, p);
    var scheds := PlanOrderRun(j, NO_BREAKER);
    AcceptedRetriable(c, j);
    AllWavesSum(c, j);
    if NothingLost(j, scheds, NO_BREAKER) {
      WavesAreTopological(c, p);
      FlattenHeld(p, AllWaves(p));
      RunCosts(j, AllWaves(p), scheds, Origin(NO_BREAKER));
    }
    assert !WavesKeep(p, Hopeless(), max, 0, scheds, NO_BREAKER);
  }

  // --- A linear run that loses nothing ------------------------------------------------------------

  /** No linear run of single-call drivers on this plan loses anything to the budget. */
  ghost predicate LegacyKeepsAll(p: Plan, max: int) {
    forall env, count, more, breaker :: LegacyKeeps(p, env, max, count, more, breaker)
  }

  ghost predicate LegacyKeeps(p: Plan, env: Env, max: int, count: int, more: int, breaker: Breaker) {
    SingleCalls(env) && max <= more ==>
      LegacyOutput(Job(env, p, max, count), breaker) == LegacyOutput(Job(env, p, more, count), breaker)
  }

  /** The attempts of the first i blocks of the walk. */
  ghost function PathAttempts(p: Plan, i: nat): int
    requires i <= |LegacyPath(p)|
  {
    Attempts(p.nodes, Elements(LegacyPath(p)[..i]))
  }

  ghost predicate Walkable(p: Plan) {
    PlanShape(p) && Acyclic(NeutralArcs(p.edges)) && forall k :: k in p.nodes ==> p.nodes[k].retries >= 0
  }

  lemma PathAttemptsStep(p: Plan, i: nat)
    requires Walkable(p) && i < |LegacyPath(p)|
    ensures LegacyPath(p)[i] in p.nodes
    ensures PathAttempts(p, i + 1) == PathAttempts(p, i) + BlockAttempts(p.nodes, LegacyPath(p)[i])
    ensures BlockAttempts(p.nodes, LegacyPath(p)[i]) >= 0
  {
    LegacyPathShape(p);
    AttemptsLonger(p.nodes, LegacyPath(p), i);
  }

  lemma {:induction false} PathAttemptsGrow(p: Plan, i: nat, h: nat)
    requires Walkable(p) && i <= h <= |LegacyPath(p)|
    ensures PathAttempts(p, i) <= PathAttempts(p, h)
    decreases h
  {
    if i < h {
      PathAttemptsGrow(p, i, h - 1);
      PathAttemptsStep(p, h - 1);
    }
  }

  lemma WalkStops(j: Job, i: nat, idx: nat, w: Walk, t: Tally)
    requires w.steps >= j.max || i >= |LegacyPath(j.plan)|
    ensures i <= |LegacyPath(j.plan)| ==>
      WalkFrom(j, Elements(LegacyPath(j.plan)[..i]), NodeAt(LegacyPath(j.plan), i), idx, w, t) == (w, t)
  {
  }

  /** What is left of the walk from its i-th block on. */
  ghost function WalkOn(j: Job, i: nat, idx: nat, w: Walk, t: Tally): (Walk, Tally)
    requires i <= |LegacyPath(j.plan)|
  {
    WalkFrom(j, Elements(LegacyPath(j.plan)[..i]), NodeAt(LegacyPath(j.plan), i), idx, w, t)
  }

  lemma {:induction false} WalkHasRoom(j: Job, more: int, i: nat, idx: nat, w: Walk, t: Tally)
    requires Walkable(j.plan) && SingleCalls(j.env) && i <= |LegacyPath(j.plan)| && w.steps <= PathAttempts(j.plan, i)
    requires PathAttempts(j.plan, |LegacyPath(j.plan)|) <= j.max <= more
    ensures WalkOn(j, i, idx, w, t) == WalkOn(j.(max := more), i, idx, w, t)
    decreases |LegacyPath(j.plan)| - i
  {
    var rich := j.(max := more);
    if i == |LegacyPath(j.plan)| || w.steps >= more {
      WalkStops(j, i, idx, w, t);
      WalkStops(rich, i, idx, w, t);
    } else {
      PathAttemptsStep(j.plan, i);
      var n := j.plan.nodes[LegacyPath(j.plan)[i]];
      PathAttemptsGrow(j.plan, i + 1, |LegacyPath(j.plan)|);
      VisitUnrefused(j, more, n, idx, w, t);
      WalkStep(rich, i, idx, w, t);
      var (w', t', idx') := Visit(j, n, idx, w, t);
      WalkHasRoom(j, more, i + 1, idx', w', t');
      if w.steps < j.max {
        WalkStep(j, i, idx, w, t);
      } else {
        WalkStops(j, i, idx, w, t);
        WalkStops(j, i + 1, idx', w', t');
      }
    }
  }

  function AtMost(steps: int, max: int): int {
    if steps <= max then steps else max
  }

  lemma HopelessVisit(j: Job, n: Node, idx: nat, w: Walk, t: Tally)
    requires j.env == Hopeless() && Calm(w) && n.retries >= 0 && w.steps <= j.max
    ensures var w' := Visit(j, n, idx, w, t).0;
            Calm(w') && w'.steps == AtMost(w.steps + if IsProvider(n) then n.retries + 1 else 0, j.max)
  {
    if IsProvider(n) {
      assert Resolve(j.env, n, w) == (false, w);
      HopelessExec(j.max, n, idx, 0, w, NO_RESULT, false);
    }
  }

  lemma HopelessNext(j: Job, i: nat, idx: nat, w: Walk, t: Tally) returns (idx': nat, w': Walk, t': Tally)
    requires Walkable(j.plan) && j.env == Hopeless() && Calm(w) && w.steps < j.max && i < |LegacyPath(j.plan)|
    ensures Calm(w') && WalkOn(j, i, idx, w, t) == WalkOn(j, i + 1, idx', w', t')
    ensures w'.steps == AtMost(w.steps + PathAttempts(j.plan, i + 1) - PathAttempts(j.plan, i), j.max)
  {
    PathAttemptsStep(j.plan, i);
    var n := j.plan.nodes[LegacyPath(j.plan)[i]];
    HopelessVisit(j, n, idx, w, t);
    WalkStep(j, i, idx, w, t);
    var next := Visit(j, n, idx, w, t);
    w', t', idx' := next.0, next.1, next.2;
  }

  lemma {:induction false} HopelessWalk(j: Job, i: nat, idx: nat, w: Walk, t: Tally)
    requires Walkable(j.plan) && j.env == Hopeless() && Calm(w) && w.steps <= j.max && i <= |LegacyPath(j.plan)|
    ensures WalkOn(j, i, idx, w, t).0.steps ==
            AtMost(w.steps + PathAttempts(j.plan, |LegacyPath(j.plan)|) - PathAttempts(j.plan, i), j.max)
    decreases |LegacyPath(j.plan)| - i
  {
    PathAttemptsGrow(j.plan, i, |LegacyPath(j.plan)|);
    if i == |LegacyPath(j.plan)| || w.steps >= j.max {
      WalkStops(j, i, idx, w, t);
    } else {
      PathAttemptsGrow(j.plan, i + 1, |LegacyPath(j.plan)|);
      var idx', w', t' := HopelessNext(j, i, idx, w, t);
      HopelessWalk(j, i + 1, idx', w', t');
    }
  }

  lemma OutputIsWalk(j: Job, breaker: Breaker)
    requires Walkable(j.plan)
    ensures var (w, t) := WalkOn(j, 0, 0, FreshWalk(breaker), NO_TALLY); LegacyOutput(j, breaker) == Close(j, w, t)
    ensures LegacyOutput(j, breaker).steps == WalkOn(j, 0, 0, FreshWalk(breaker), NO_TALLY).0.steps
    ensures PathAttempts(j.plan, 0) == 0
  {
    LegacyPathShape(j.plan);
    assert LegacyPath(j.plan)[..0] == [] && Elements([]) == {};
  }

  /** The linear walker loses nothing, for any single-call drivers, exactly when the attempts
      of the blocks on its path fit the budget. */
  lemma LegacyKeepsExactly(p: Plan, max: int)
    requires Walkable(p) && max >= 0
    ensures LegacyKeepsAll(p, max) <==> Attempts(p.nodes, Elements(LegacyPath(p))) <= max
  {
    var whole := PathAttempts(p, |LegacyPath(p)|);
    assert LegacyPath(p)[..|LegacyPath(p)|] == LegacyPath(p);
    if whole <= max {
      forall env, count, more, breaker
        ensures LegacyKeeps(p, env, max, count, more, breaker)
      {
        var j := Job(env, p, max, count);
        if SingleCalls(env) && max <= more {
          OutputIsWalk(j, breaker);
          OutputIsWalk(j.(max := more), breaker);
          WalkHasRoom(j, more, 0, 0, FreshWalk(breaker), NO_TALLY);
        }
      }
    } else {
      var j := Job(Hopeless(), p, max, 0);
      OutputIsWalk(j, NO_BREAKER);
      OutputIsWalk(j.(max := whole), NO_BREAKER);
      HopelessWalk(j, 0, 0, FreshWalk(NO_BREAKER), NO_TALLY);
      HopelessWalk(j.(max := whole), 0, 0, FreshWalk(NO_BREAKER), NO_TALLY);
      assert !LegacyKeeps(p, Hopeless(), max, 0, whole, NO_BREAKER);
    }
  }

  // --- A fallback run that loses nothing -----------------------------------------------------------

  function Fallback(p: Plan, env: Env, max: int, count: int): FS.Job
    requires PlanShape(p)
  {
    FS.Job(env, p, max, count, HasStartBlock(p))
  }

  function FallbackOutput(j: FS.Job, breaker: Breaker): Option<Output> {
    FS.Iterate(j, FS.Begin(j, breaker), |j.plan.nodes| + 1).out
  }

  /** No fallback run of single-call drivers on this plan loses anything to the budget. */
  ghost predicate FallbackKeepsAll(p: Plan, max: int)
    requires PlanShape(p)
  {
    forall env, count, more, breaker :: FallbackKeeps(p, env, max, count, more, breaker)
  }

  ghost predicate FallbackKeeps(p: Plan, env: Env, max: int, count: int, more: int, breaker: Breaker)
    requires PlanShape(p)
  {
    SingleCalls(env) && max <= more ==>
      FallbackOutput(Fallback(p, env, max, count), breaker) == FallbackOutput(Fallback(p, env, more, count), breaker)
  }

  /** One search block with no way on: a hopeless driver uses its attempts or the budget up. */
  lemma OneBlockFallback(p: Plan, max: int, k: Key)
    requires PlanShape(p) && p.start == k && |p.nodes| == 1 && p.edges == [] && max > 0
    requires IsProvider(p.nodes[k]) && p.nodes[k].retries >= 0
    ensures var out := FallbackOutput(Fallback(p, Hopeless(), max, 0), NO_BREAKER);
            out.Some? && out.value.steps == AtMost(p.nodes[k].retries + 1, max)
  {
    var j, n := Fallback(p, Hopeless(), max, 0), p.nodes[k];
    var st0 := FS.Begin(j, NO_BREAKER);
    HopelessExec(max, n, 0, 0, st0.w, NO_RESULT, false);
    assert Resolve(j.env, n, st0.w) == (false, st0.w);
    var (run, w) := Exec(j.env, max, n, 0, st0.w);
    var st1 := FS.Advance(j, st0, n, run, w);
    FS.NextIterate(j, st0, 0);
    FS.NextIterate(j, st0, 1);
    assert FS.Iterate(j, st0, 1) == st1 && st1.w == w && st1.out.None?;
    NoWayOn(p, n, EdgeOutcome(j.env, n, run.result));
    assert FS.Step(j, st1).out == Some(FS.Exhausted(j, st1));
    assert FS.Exhausted(j, st1).steps == w.steps;
  }

  lemma OneBlockLoses(p: Plan, max: int, k: Key)
    requires PlanShape(p) && p.start == k && |p.nodes| == 1 && p.edges == []
    requires IsProvider(p.nodes[k]) && 0 < max <= p.nodes[k].retries
    ensures !FallbackKeepsAll(p, max)
  {
    OneBlockFallback(p, max, k);
    OneBlockFallback(p, p.nodes[k].retries + 1, k);
    assert !FallbackKeeps(p, Hopeless(), max, 0, p.nodes[k].retries + 1, NO_BREAKER);
  }

  lemma NoWayOn(p: Plan, n: Node, o: Outcome)
    requires PlanShape(p) && p.edges == []
    ensures Next(p, n, o) == None
  {
    assert Out(p, n.key) == [];
  }

  // --- The setting decides ---------------------------------------------------------------------------

  /** This chain's plan in the given mode, where the setting raises no warning. */
  ghost predicate SilentPlan(setting: int, c: Chain, p: Plan, mode: ChainMode) {
    Silent(c, setting) && PlanOf(c) == Some(p) && EffectiveMode(c) == mode && PlanShape(p)
  }

  ghost predicate SafeInLegacy(setting: int, c: Chain, p: Plan) {
    SilentPlan(setting, c, p, ChainMode.FullChain) && !HasStartBlock(p) ==> LegacyKeepsAll(p, BudgetOf(setting))
  }

  ghost predicate SafeInFallback(setting: int, c: Chain, p: Plan) {
    SilentPlan(setting, c, p, ChainMode.FirstSuccess) ==> FallbackKeepsAll(p, BudgetOf(setting))
  }

  ghost predicate SafeInWaves(setting: int, c: Chain, p: Plan) {
    SilentPlan(setting, c, p, ChainMode.FullChain) && HasStartBlock(p) ==> WavesKeepAll(p, BudgetOf(setting))
  }

  /** In legacy full-chain mode a run without the warning loses nothing, on any chain. */
  ghost predicate SilenceSafeInLegacy(setting: int) {
    forall c, p :: SafeInLegacy(setting, c, p)
  }

  /** The same in first-success mode. */
  ghost predicate SilenceSafeInFallback(setting: int) {
    forall c, p :: SafeInFallback(setting, c, p)
  }

  /** The same in full-chain mode with a Start block. */
  ghost predicate SilenceSafeInWaves(setting: int) {
    forall c, p :: SafeInWaves(setting, c, p)
  }

  lemma PositiveInLegacy(c: Chain, p: Plan, setting: int)
    requires setting > 0 && Silent(c, setting) && PlanOf(c) == Some(p)
    ensures LegacyKeepsAll(p, BudgetOf(setting))
  {
    SilentFits(c, setting);
    forall env, count, more, breaker
      ensures LegacyKeeps(p, env, BudgetOf(setting), count, more, breaker)
    {
      if SingleCalls(env) && BudgetOf(setting) <= more {
        LegacyLosesNothing(c, Job(env, p, BudgetOf(setting), count), setting, more, breaker);
      }
    }
  }

  lemma PositiveInFallback(c: Chain, p: Plan, setting: int)
    requires setting > 0 && Silent(c, setting) && PlanOf(c) == Some(p) && PlanShape(p)
    ensures FallbackKeepsAll(p, BudgetOf(setting))
  {
    SilentFits(c, setting);
    forall env, count, more, breaker
      ensures FallbackKeeps(p, env, BudgetOf(setting), count, more, breaker)
    {
      if SingleCalls(env) && BudgetOf(setting) <= more {
        var j := Fallback(p, env, BudgetOf(setting), count);
        FirstSuccessLosesNothing(c, j, setting, breaker, more);
        assert Richer(j, more) == Fallback(p, env, more, count);
      }
    }
  }

  lemma PositiveInWaves(c: Chain, p: Plan, setting: int)
    requires setting > 0 && Silent(c, setting) && PlanOf(c) == Some(p) && PlanShape(p)
    ensures WavesKeepAll(p, BudgetOf(setting))
  {
    SilentFits(c, setting);
    forall env, count, scheds, breaker
      ensures WavesKeep(p, env, BudgetOf(setting), count, scheds, breaker)
    {
      var j := Job(env, p, BudgetOf(setting), count);
      if SingleCalls(env) && Finishes(j, AllWaves(p), scheds, Origin(breaker)) {
        FullChainLosesNothing(c, j, setting, scheds, breaker);
      }
    }
  }

  function Stubborn(key: Key, start: bool): Node {
    Examples.Search(key, start).(retries := 10)
  }

  /** One search block with ten retries. */
  function Lone(mode: ChainMode): Chain {
    Chain(mode, [Stubborn("a", true)], [])
  }

  const OPENED := Chain(ChainMode.FullChain, [Migration.StartNode("s"), Stubborn("a", false)],
    [Edge("s", "a", NextCondition)])

  lemma LoneIsFan(mode: ChainMode)
    requires mode.FullChain? || mode.FirstSuccess?
    ensures Examples.SearchFan(Lone(mode)) && Accepts(Lone(mode))
  {
    assert !IsSpace("a"[0]);
    Examples.FanAccepted(Lone(mode));
  }

  lemma OpenedIsFan()
    ensures Examples.Fan(OPENED) && Accepts(OPENED)
  {
    assert !IsSpace("a"[0]) && !IsSpace("s"[0]);
    assert OPENED.nodes[0].key == "s" && OPENED.nodes[1].key == "a" && "s"[0] != "a"[0];
    Examples.FanAccepted(OPENED);
  }

  lemma SilentUnlessPositive(c: Chain, setting: int)
    requires Accepts(c) && setting <= 0
    ensures Silent(c, setting)
  {
  }

  lemma LonePlan(mode: ChainMode) returns (p: Plan)
    requires mode.FullChain? || mode.FirstSuccess?
    ensures PlanOf(Lone(mode)) == Some(p) && PlanShape(p) && Walkable(p) && !HasStartBlock(p)
    ensures p.start == "a" && p.nodes == map["a" := Stubborn("a", true)] && p.edges == []
  {
    var c := Lone(mode);
    LoneIsFan(mode);
    AcceptedIsWellFormed(c);
    PlanOfWellFormed(c);
    p := PlanOf(c).value;
    Examples.FanPlan(c, p);
    NodeMapDistinct(c.nodes, 0);
    assert c.nodes[..0] == [];
    assert NodeMap(c.nodes) == map["a" := Stubborn("a", true)];
  }

  lemma LoneAttempts(p: Plan, among: set<Key>)
    requires "a" in among && "a" in p.nodes && IsProvider(p.nodes["a"]) && p.nodes["a"].retries == 10
    requires forall k :: k in p.nodes ==> p.nodes[k].retries >= 0
    ensures Attempts(p.nodes, among) >= 11
  {
    AttemptsWithout(p.nodes, {"a"}, "a");
    AttemptsMonotone(p.nodes, {"a"}, among);
    assert {"a"} - {"a"} == {};
  }

  lemma NotInLegacy(setting: int)
    requires setting <= 0
    ensures !SilenceSafeInLegacy(setting)
  {
    var c := Lone(ChainMode.FullChain);
    var p := LonePlan(ChainMode.FullChain);
    LoneIsFan(ChainMode.FullChain);
    SilentUnlessPositive(c, setting);
    LoneLosesInLegacy(p, BudgetOf(setting));
    assert !SafeInLegacy(setting, c, p);
  }

  lemma LoneLosesInLegacy(p: Plan, max: int)
    requires Walkable(p) && p.start == "a" && p.nodes == map["a" := Stubborn("a", true)] && 0 < max <= 10
    ensures !LegacyKeepsAll(p, max)
  {
    LegacyPathShape(p);
    assert LegacyPath(p)[0] in Elements(LegacyPath(p));
    LoneAttempts(p, Elements(LegacyPath(p)));
    LegacyKeepsExactly(p, max);
  }

  lemma NotInFallback(setting: int)
    requires setting <= 0
    ensures !SilenceSafeInFallback(setting)
  {
    var c := Lone(ChainMode.FirstSuccess);
    var p := LonePlan(ChainMode.FirstSuccess);
    LoneIsFan(ChainMode.FirstSuccess);
    SilentUnlessPositive(c, setting);
    OneBlockLoses(p, BudgetOf(setting), "a");
    assert !SafeInFallback(setting, c, p);
  }

  lemma OpenedPlan() returns (p: Plan)
    ensures PlanOf(OPENED) == Some(p) && PlanShape(p) && HasStartBlock(p)
    ensures "a" in NeutralReach(p) && "a" in p.nodes && p.nodes["a"] == Stubborn("a", false)
    ensures forall k :: k in p.nodes ==> p.nodes[k].retries >= 0
  {
    OpenedIsFan();
    AcceptedIsWellFormed(OPENED);
    PlanOfWellFormed(OPENED);
    p := PlanOf(OPENED).value;
    Examples.FanPlan(OPENED, p);
    Examples.FanReached(OPENED, p, 1);
    NodeMapDistinct(OPENED.nodes, 0);
    NodeMapDistinct(OPENED.nodes, 1);
    NodeMapSound(OPENED.nodes);
    assert p.order[0] == "s";
  }

  lemma NotInWaves(setting: int)
    requires setting <= 0
    ensures !SilenceSafeInWaves(setting)
  {
    var p := OpenedPlan();
    OpenedIsFan();
    SilentUnlessPositive(OPENED, setting);
    LoneAttempts(p, NeutralReach(p));
    WavesKeepExactly(OPENED, p, BudgetOf(setting));
    assert !SafeInWaves(setting, OPENED, p);
  }

  lemma PositiveIsSafe(setting: int)
    requires setting > 0
    ensures SilenceSafeInLegacy(setting) && SilenceSafeInFallback(setting) && SilenceSafeInWaves(setting)
  {
    forall c, p
      ensures SafeInLegacy(setting, c, p) && SafeInFallback(setting, c, p) && SafeInWaves(setting, c, p)
    {
      if Silent(c, setting) && PlanOf(c) == Some(p) && PlanShape(p) {
        PositiveInLegacy(c, p, setting);
        PositiveInFallback(c, p, setting);
        PositiveInWaves(c, p, setting);
      }
    }
  }

  /** In each mode the absence of the warning means, for every accepted chain and all
      single-call drivers, that no run loses anything to the budget, exactly when the setting
      is positive. */
  lemma SettingDecides(setting: int)
    ensures SilenceSafeInLegacy(setting) <==> setting > 0
    ensures SilenceSafeInFallback(setting) <==> setting > 0
    ensures SilenceSafeInWaves(setting) <==> setting > 0
  {
    if setting > 0 {
      PositiveIsSafe(setting);
    } else {
      NotInLegacy(setting);
      NotInFallback(setting);
      NotInWaves(setting);
    }
  }

  // --- Drivers of several calls ------------------------------------------------------------------------

  /** Every attempt fails after two upstream calls, which cost a step each. */
  function TwoCalls(): Env {
    Hopeless().(call := (k, a) => NO_RESULT.(stages := 2))
  }

  lemma {:induction false} TwoCallsExec(max: int, n: Node, idx: nat, a: nat, w: Walk, last: Result, attempted: bool)
    requires a <= n.retries + 1 && w.steps <= max + 1
    ensures var steps := ExecFrom(TwoCalls(), max, n, idx, a, w, last, attempted).1.steps;
            steps <= max + 1 && (w.steps + 2 * (n.retries + 1 - a) <= max ==>
              steps == w.steps + 2 * (n.retries + 1 - a))
    decreases n.retries + 1 - a
  {
    if a < n.retries + 1 && w.steps < max {
      var r := TwoCalls().call(n.key, a);
      TwoCallsExec(max, n, idx, a + 1, AfterCall(TwoCalls(), n, idx, a, w), r, true);
    }
  }

  lemma TwoCallsOutput(p: Plan, max: int)
    requires PlanShape(p) && p.start == "a" && p.nodes == map["a" := Stubborn("a", true)] && p.edges == [] && max > 0
    ensures var steps := LegacyOutput(Job(TwoCalls(), p, max, 0), NO_BREAKER).steps;
            steps <= max + 1 && (max >= 22 ==> steps == 22)
  {
    var j, n, w := Job(TwoCalls(), p, max, 0), p.nodes["a"], FreshWalk(NO_BREAKER);
    assert Resolve(j.env, n, w) == (false, w);
    TwoCallsExec(max, n, 0, 0, w, NO_RESULT, false);
    assert NextInFullChain(p, "a") == None by {
      assert Out(p, "a") == [];
    }
    var (w', t', idx') := Visit(j, n, 0, w, NO_TALLY);
    assert WalkFrom(j, {"a"}, None, idx', w', t') == (w', t');
    assert {} + {"a"} == {"a"};
  }

  /** The warning counts attempts, not upstream calls: with two calls an attempt a chain
      whose eleven attempts fit a setting of eleven still loses some of them. */
  lemma CallsAreNotCounted()
    ensures Silent(Lone(ChainMode.FullChain), 11)
    ensures var p := PlanOf(Lone(ChainMode.FullChain)).value; !LegacyKeepsDriver(p, TwoCalls(), 11)
  {
    var p := LonePlan(ChainMode.FullChain);
    var c := Lone(ChainMode.FullChain);
    LoneIsFan(ChainMode.FullChain);
    SilentFits(c, 11);
    LonePotential(c);
    TwoCallsOutput(p, 11);
    TwoCallsOutput(p, 22);
  }

  /** This driver loses nothing to the budget in a linear run. */
  ghost predicate LegacyKeepsDriver(p: Plan, env: Env, max: int) {
    forall more :: max <= more ==>
      LegacyOutput(Job(env, p, max, 0), NO_BREAKER) == LegacyOutput(Job(env, p, more, 0), NO_BREAKER)
  }

  lemma LonePotential(c: Chain)
    requires c == Lone(ChainMode.FullChain) && SoleEntry(c)
    ensures Potential(c, Entry(c)) <= 11
  {
    var reach := ReachSet(AllArcs(c.edges), Entry(c));
    assert c.nodes[..0] == [];
    assert NodeMap(c.nodes) == map["a" := Stubborn("a", true)];
    assert !IsSpace("a"[0]);
    AttemptsOfOne(KnownNodes(c), reach, "a");
  }

  lemma {:induction false} AttemptsOfOne(m: map<Key, Node>, among: set<Key>, k: Key)
    requires k in m && IsProvider(m[k]) && m[k].retries == 10 && forall x :: x in m ==> x == k
    ensures Attempts(m, among) <= 11
    decreases among
  {
    if x :| x in among && x != k {
      AttemptsWithout(m, among, x);
      AttemptsOfOne(m, among - {x}, k);
    } else if k in among {
      AttemptsWithout(m, among, k);
      assert among - {k} == {};
    }
  }
}

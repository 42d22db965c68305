/** The shared attempt budget under every interleaving: exact accounting without any
    assumption, and, when the budget covers what the blocks may cost, no refused attempt and
    full coverage. */
module Budget {
  import opened Text
  import opened Graph
  import opened Chains
  import opened Validate
  import opened Plans
  import opened Cooldown
  import opened Walks
  import opened FullChain
  import opened Branches

  // --- Accounting, whatever the schedule ------------------------------------------------

  /** A turn starts an attempt when it takes a step from the budget. */
  function Starts(j: Job, c: Config, k: Key): nat {
    if k in c.pcs && k in j.plan.nodes && c.pcs[k].AtTake? && c.w.steps < j.max then 1 else 0
  }

  /** A turn adds the further stage calls an attempt reported. */
  function Adds(j: Job, c: Config, k: Key): nat {
    if k in c.pcs && k in j.plan.nodes && c.pcs[k].AtStages?
      then Extra(j.env.call(j.plan.nodes[k].key, c.pcs[k].a)) else 0
  }

  function Started(j: Job, idx: map<Key, nat>, c: Config, sched: seq<Key>): nat {
    if sched == [] then 0
    else
      var front := sched[..|sched| - 1];
      Started(j, idx, c, front) + Starts(j, Interleave(j, idx, c, front), sched[|sched| - 1])
  }

  function Added(j: Job, idx: map<Key, nat>, c: Config, sched: seq<Key>): nat {
    if sched == [] then 0
    else
      var front := sched[..|sched| - 1];
      Added(j, idx, c, front) + Adds(j, Interleave(j, idx, c, front), sched[|sched| - 1])
  }

  lemma {:induction false} WaveAccounting(j: Job, idx: map<Key, nat>, c: Config, sched: seq<Key>, before: nat)
    requires before <= c.w.steps && before <= j.max
    ensures Interleave(j, idx, c, sched).w.steps == c.w.steps + Started(j, idx, c, sched) + Added(j, idx, c, sched)
    ensures before + Started(j, idx, c, sched) <= j.max
  {
    if sched != [] {
      WaveAccounting(j, idx, c, sched[..|sched| - 1], before);
    }
  }

  function RunStarted(j: Job, layers: seq<seq<Key>>, scheds: seq<seq<Key>>, at: Progress): nat
    requires AllHeld(j.plan, layers) && Finishes(j, layers, scheds, at)
  {
    if layers == [] || at.w.steps >= j.max then 0
    else
      Started(j, WaveIdx(j.plan, layers[0], at.nextIdx), Launch(layers[0], at.w), scheds[0]) +
      RunStarted(j, layers[1..], scheds[1..], AfterWave(j, layers[0], scheds[0], at))
  }

  function RunAdded(j: Job, layers: seq<seq<Key>>, scheds: seq<seq<Key>>, at: Progress): nat
    requires AllHeld(j.plan, layers) && Finishes(j, layers, scheds, at)
  {
    if layers == [] || at.w.steps >= j.max then 0
    else
      Added(j, WaveIdx(j.plan, layers[0], at.nextIdx), Launch(layers[0], at.w), scheds[0]) +
      RunAdded(j, layers[1..], scheds[1..], AfterWave(j, layers[0], scheds[0], at))
  }

  /** Under every interleaving of every wave the attempts started never exceed the budget,
      and the step counter is the attempts started plus the extra stage calls. */
  lemma {:induction false} RunAccounting(j: Job, layers: seq<seq<Key>>, scheds: seq<seq<Key>>, at: Progress,
          before: nat)
    requires AllHeld(j.plan, layers) && Finishes(j, layers, scheds, at)
    requires before <= at.w.steps && before <= j.max
    ensures RunUnder(j, layers, scheds, at).w.steps ==
            at.w.steps + RunStarted(j, layers, scheds, at) + RunAdded(j, layers, scheds, at)
    ensures before + RunStarted(j, layers, scheds, at) <= j.max
    decreases |layers|
  {
    if layers != [] && at.w.steps < j.max {
      var idx, c := WaveIdx(j.plan, layers[0], at.nextIdx), Launch(layers[0], at.w);
      WaveAccounting(j, idx, c, scheds[0], before);
      RunAccounting(j, layers[1..], scheds[1..], AfterWave(j, layers[0], scheds[0], at),
        before + Started(j, idx, c, scheds[0]));
    }
  }

  // --- What a branch has spent at most ------------------------------------------------------

  ghost predicate Retriable(j: Job) {
    && (forall k :: k in j.plan.nodes ==> j.plan.nodes[k].retries >= 0)
    && (forall k :: k in j.plan.nodes ==> j.plan.nodes[k].key == k)
  }

  predicate Possible(n: Node, pc: Pc) {
    match pc
    case AtResolve => true
    case Finished(_) => true
    case AtCooldown => IsProvider(n)
    case AtTake(a, _, _) => IsProvider(n) && a <= n.retries
    case AtAnswer(a) => IsProvider(n) && a <= n.retries
    case AtObserve(a) => IsProvider(n) && a <= n.retries
    case AtStages(a) => IsProvider(n) && a <= n.retries
    case AtDecide(a) => IsProvider(n) && a <= n.retries
  }

  function Spent(env: Env, n: Node, pc: Pc): nat {
    match pc
    case AtResolve => 0
    case AtCooldown => 0
    case AtTake(a, _, _) => Cost(env, n.key, a)
    case AtAnswer(a) => Cost(env, n.key, a) + 1
    case AtObserve(a) => Cost(env, n.key, a) + 1
    case AtStages(a) => Cost(env, n.key, a) + 1
    case AtDecide(a) => Cost(env, n.key, a + 1)
    case Finished(_) => FullCost(env, n)
  }

  lemma StepSpends(env: Env, max: int, n: Node, idx: nat, pc: Pc, w: Walk)
    requires n.retries >= 0 && Possible(n, pc)
    ensures var (pc', w') := BranchStep(env, max, n, idx, pc, w);
            Possible(n, pc') && w'.steps - w.steps <= Spent(env, n, pc') - Spent(env, n, pc)
  {
    match pc
    case AtTake(a, _, _) => CostGrows(env, n.key, a, n.retries + 1);
    case AtDecide(a) => CostGrows(env, n.key, a + 1, n.retries + 1);
    case _ =>
  }

  lemma SpentWithinCost(env: Env, n: Node, pc: Pc)
    requires n.retries >= 0 && Possible(n, pc)
    ensures Spent(env, n, pc) <= FullCost(env, n)
    ensures pc.AtTake? ==> Spent(env, n, pc) + 1 <= FullCost(env, n)
  {
    match pc
    case AtTake(a, _, _) => CostGrows(env, n.key, a, n.retries + 1);
    case AtAnswer(a) => CostGrows(env, n.key, a, n.retries + 1);
    case AtObserve(a) => CostGrows(env, n.key, a, n.retries + 1);
    case AtStages(a) => CostGrows(env, n.key, a, n.retries + 1);
    case AtDecide(a) => CostGrows(env, n.key, a + 1, n.retries + 1);
    case _ =>
  }

  function PcAt(pcs: map<Key, Pc>, k: Key): Pc {
    if k in pcs then pcs[k] else AtResolve
  }

  function WaveSpent(j: Job, wave: seq<Key>, pcs: map<Key, Pc>): nat
    requires WaveHeld(j.plan, wave)
  {
    if wave == [] then 0
    else
      var k := wave[|wave| - 1];
      WaveSpent(j, wave[..|wave| - 1], pcs) + Spent(j.env, j.plan.nodes[k], PcAt(pcs, k))
  }

  function SeqCost(j: Job, keys: seq<Key>): nat
    requires WaveHeld(j.plan, keys)
  {
    if keys == [] then 0
    else SeqCost(j, keys[..|keys| - 1]) + FullCost(j.env, j.plan.nodes[keys[|keys| - 1]])
  }

  lemma {:induction false} WaveSpentStep(j: Job, wave: seq<Key>, pcs: map<Key, Pc>, k: Key, pc: Pc)
    requires WaveHeld(j.plan, wave) && Distinct(wave) && k in pcs
    ensures WaveSpent(j, wave, pcs[k := pc]) == WaveSpent(j, wave, pcs) +
            if k in wave then Spent(j.env, j.plan.nodes[k], pc) - Spent(j.env, j.plan.nodes[k], pcs[k]) else 0
  {
    if wave != [] {
      var front := wave[..|wave| - 1];
      WaveSpentStep(j, front, pcs, k, pc);
      assert wave == front + [wave[|wave| - 1]];
      assert wave[|wave| - 1] !in front;
    }
  }

  lemma {:induction false} WaveSpentBound(j: Job, wave: seq<Key>, pcs: map<Key, Pc>)
    requires WaveHeld(j.plan, wave) && Retriable(j)
    requires forall i :: 0 <= i < |wave| ==> Possible(j.plan.nodes[wave[i]], PcAt(pcs, wave[i]))
    ensures WaveSpent(j, wave, pcs) <= SeqCost(j, wave)
    ensures forall i :: 0 <= i < |wave| && PcAt(pcs, wave[i]).AtTake? ==>
      WaveSpent(j, wave, pcs) + 1 <= SeqCost(j, wave)
  {
    if wave != [] {
      var front, k := wave[..|wave| - 1], wave[|wave| - 1];
      assert forall i :: 0 <= i < |front| ==> front[i] == wave[i];
      WaveSpentBound(j, front, pcs);
      SpentWithinCost(j.env, j.plan.nodes[k], PcAt(pcs, k));
    }
  }

  lemma {:induction false} NothingSpentYet(j: Job, wave: seq<Key>, all: seq<Key>)
    requires WaveHeld(j.plan, wave) && forall i :: 0 <= i < |wave| ==> wave[i] in all
    ensures WaveSpent(j, wave, map k | k in all :: AtResolve) == 0
  {
    if wave != [] {
      NothingSpentYet(j, wave[..|wave| - 1], all);
    }
  }

  ghost predicate Ledger(j: Job, wave: seq<Key>, w0: Walk, c: Config)
    requires WaveHeld(j.plan, wave)
  {
    && c.pcs.Keys == Elements(wave)
    && (forall k :: k in c.pcs ==> k in j.plan.nodes && Possible(j.plan.nodes[k], c.pcs[k]))
    && c.w.steps <= w0.steps + WaveSpent(j, wave, c.pcs)
  }

  lemma {:induction false} LedgerHolds(j: Job, wave: seq<Key>, sched: seq<Key>, idx: map<Key, nat>, w0: Walk)
    requires WaveHeld(j.plan, wave) && Distinct(wave) && Retriable(j)
    ensures Ledger(j, wave, w0, Interleave(j, idx, Launch(wave, w0), sched))
  {
    if sched == [] {
      NothingSpentYet(j, wave, wave);
      assert Launch(wave, w0).pcs.Keys == Elements(wave);
    } else {
      var front, k := sched[..|sched| - 1], sched[|sched| - 1];
      LedgerHolds(j, wave, front, idx, w0);
      LedgerTurn(j, wave, idx, w0, Interleave(j, idx, Launch(wave, w0), front), k);
    }
  }

  lemma LedgerTurn(j: Job, wave: seq<Key>, idx: map<Key, nat>, w0: Walk, c: Config, k: Key)
    requires WaveHeld(j.plan, wave) && Distinct(wave) && Retriable(j) && Ledger(j, wave, w0, c)
    ensures Ledger(j, wave, w0, Turn(j, idx, c, k))
  {
    if k in c.pcs {
      assert k in wave;
      var i := if k in idx then idx[k] else 0;
      StepSpends(j.env, j.max, j.plan.nodes[k], i, c.pcs[k], c.w);
      var (pc, w) := BranchStep(j.env, j.max, j.plan.nodes[k], i, c.pcs[k], c.w);
      WaveSpentStep(j, wave, c.pcs, k, pc);
    }
  }

  /** When the budget left covers a wave's cost, no branch is ever refused an attempt. */
  lemma NoAttemptRefused(j: Job, wave: seq<Key>, sched: seq<Key>, at: Progress)
    requires WaveHeld(j.plan, wave) && Distinct(wave) && Retriable(j)
    requires at.w.steps + SeqCost(j, wave) <= j.max
    ensures var c := WaveUnder(j, wave, sched, at);
            && c.w.steps <= at.w.steps + SeqCost(j, wave)
            && forall k :: k in c.pcs && c.pcs[k].AtTake? ==> c.w.steps < j.max
  {
    var c := WaveUnder(j, wave, sched, at);
    LedgerHolds(j, wave, sched, WaveIdx(j.plan, wave, at.nextIdx), at.w);
    forall i | 0 <= i < |wave|
      ensures Possible(j.plan.nodes[wave[i]], PcAt(c.pcs, wave[i]))
    {
      assert wave[i] in Elements(wave);
    }
    WaveSpentBound(j, wave, c.pcs);
    forall k | k in c.pcs && c.pcs[k].AtTake?
      ensures c.w.steps < j.max
    {
      var i :| 0 <= i < |wave| && wave[i] == k;
      assert PcAt(c.pcs, wave[i]).AtTake?;
    }
  }

  // --- Whole runs ----------------------------------------------------------------------------

  lemma {:induction false} SeqCostAppend(j: Job, a: seq<Key>, b: seq<Key>)
    requires WaveHeld(j.plan, a) && WaveHeld(j.plan, b)
    ensures WaveHeld(j.plan, a + b) && SeqCost(j, a + b) == SeqCost(j, a) + SeqCost(j, b)
  {
    if b == [] {
      assert a + b == a;
    } else {
      SeqCostAppend(j, a, b[..|b| - 1]);
      assert (a + b)[..|a + b| - 1] == a + b[..|b| - 1];
    }
  }

  lemma {:induction false} SeqCostPositive(j: Job, keys: seq<Key>, k: Key)
    requires WaveHeld(j.plan, keys) && k in keys && IsProvider(j.plan.nodes[k]) && Retriable(j)
    ensures SeqCost(j, keys) >= 1
  {
    var last := keys[|keys| - 1];
    if k == last {
      CostGrows(j.env, k, 0, j.plan.nodes[k].retries + 1);
    } else {
      SeqCostPositive(j, keys[..|keys| - 1], k);
    }
  }

  lemma {:induction false} FlattenHeld(p: Plan, layers: seq<seq<Key>>)
    requires AllHeld(p, layers)
    ensures WaveHeld(p, Flatten(layers))
    ensures forall k :: k in Flatten(layers) <==> InSomeWave(layers, k)
  {
    if layers != [] {
      FlattenHeld(p, layers[1..]);
      assert layers == [layers[0]] + layers[1..];
      forall k
        ensures k in Flatten(layers) <==> InSomeWave(layers, k)
      {
        InSomeWaveStep(layers[0], layers[1..], k);
      }
    }
  }

  lemma BlocksKept(j: Job, layers: seq<seq<Key>>, scheds: seq<seq<Key>>, at: Progress)
    requires AllHeld(j.plan, layers) && Finishes(j, layers, scheds, at)
    ensures at.blocks.Keys <= RunUnder(j, layers, scheds, at).blocks.Keys
    decreases |layers|
  {
    if layers != [] && at.w.steps < j.max {
      BlocksKept(j, layers[1..], scheds[1..], AfterWave(j, layers[0], scheds[0], at));
    }
  }

  /** At no point of any wave does a branch that wants an attempt find the budget used up. */
  ghost predicate NeverRefused(j: Job, layers: seq<seq<Key>>, scheds: seq<seq<Key>>, at: Progress)
    requires AllHeld(j.plan, layers) && Finishes(j, layers, scheds, at)
    decreases |layers|
  {
    layers == [] || at.w.steps >= j.max ||
    (&& (forall n :: 0 <= n <= |scheds[0]| ==>
           var c := WaveUnder(j, layers[0], scheds[0][..n], at);
           forall k :: k in c.pcs && c.pcs[k].AtTake? ==> c.w.steps < j.max)
     && NeverRefused(j, layers[1..], scheds[1..], AfterWave(j, layers[0], scheds[0], at)))
  }

  /** A budget that covers the cost of the remaining waves processes every provider block
      in them, under any completing schedules. */
  lemma {:induction false} RunCovers(j: Job, layers: seq<seq<Key>>, scheds: seq<seq<Key>>, at: Progress)
    requires AllHeld(j.plan, layers) && Finishes(j, layers, scheds, at) && Retriable(j)
    requires forall i :: 0 <= i < |layers| ==> Distinct(layers[i])
    requires WaveHeld(j.plan, Flatten(layers)) && at.w.steps + SeqCost(j, Flatten(layers)) <= j.max
    ensures forall k :: k in Flatten(layers) && IsProvider(j.plan.nodes[k]) ==>
      k in RunUnder(j, layers, scheds, at).blocks
    ensures RunUnder(j, layers, scheds, at).w.steps <= at.w.steps + SeqCost(j, Flatten(layers))
    ensures NeverRefused(j, layers, scheds, at)
    decreases |layers|
  {
    if layers != [] && at.w.steps < j.max {
      var wave, rest := layers[0], layers[1..];
      FlattenHeld(j.plan, rest);
      SeqCostAppend(j, wave, Flatten(rest));
      forall n | 0 <= n <= |scheds[0]|
        ensures var c := WaveUnder(j, wave, scheds[0][..n], at);
                forall k :: k in c.pcs && c.pcs[k].AtTake? ==> c.w.steps < j.max
      {
        NoAttemptRefused(j, wave, scheds[0][..n], at);
      }
      NoAttemptRefused(j, wave, scheds[0], at);
      var next := AfterWave(j, wave, scheds[0], at);
      RunCovers(j, rest, scheds[1..], next);
      KeysStay(j, WaveIdx(j.plan, wave, at.nextIdx), Launch(wave, at.w), scheds[0]);
      BlocksKept(j, rest, scheds[1..], next);
      assert Launch(wave, at.w).pcs.Keys == Elements(wave);
    } else {
      forall k | k in Flatten(layers) && IsProvider(j.plan.nodes[k])
        ensures false
      {
        SeqCostPositive(j, Flatten(layers), k);
      }
    }
  }

  lemma DistinctAppend(a: seq<Key>, b: seq<Key>)
    requires Distinct(a) && Distinct(b) && forall k :: k in a ==> k !in b
    ensures Distinct(a + b)
  {
    var s := a + b;
    forall i, h | 0 <= i < h < |s|
      ensures s[i] != s[h]
    {
      if i < |a| <= h {
        assert a[i] in a && b[h - |a|] in b;
      }
    }
  }

  lemma {:induction false} FlattenDistinct(layers: seq<seq<Key>>, done: set<Key>)
    requires DisjointWaves(layers, done)
    ensures Distinct(Flatten(layers))
    ensures forall k :: k in Flatten(layers) ==> InSomeWave(layers, k)
  {
    if layers != [] {
      var rest := layers[1..];
      assert DisjointWaves(rest, done) by {
        assert forall i :: 0 <= i < |rest| ==> rest[i] == layers[i + 1];
      }
      FlattenDistinct(rest, done);
      assert layers == [layers[0]] + rest;
      forall k | k in Flatten(layers)
        ensures InSomeWave(layers, k)
      {
        InSomeWaveStep(layers[0], rest, k);
      }
      forall k | k in Flatten(rest)
        ensures k !in layers[0]
      {
        var i :| 0 <= i < |rest| && k in rest[i];
        assert k in layers[i + 1];
      }
      DistinctAppend(layers[0], Flatten(rest));
    }
  }

  // --- Accepted chains -------------------------------------------------------------------------

  /** What the blocks of a run may cost between them if every retry is used. */
  ghost function RunCost(j: Job): nat
    requires PlanShape(j.plan)
  {
    FlattenHeld(j.plan, AllWaves(j.plan));
    SeqCost(j, Flatten(AllWaves(j.plan)))
  }

  lemma AcceptedRetriable(c: Chain, j: Job)
    requires Accepts(c) && PlanOf(c) == Some(j.plan)
    ensures Retriable(j)
  {
    AcceptedReach(c, j.plan);
    AcceptedNodes(c);
    NodeMapSound(c.nodes);
    KnownIsHeld(c);
    forall k | k in j.plan.nodes
      ensures j.plan.nodes[k].retries >= 0
    {
      var i :| 0 <= i < |c.nodes| && c.nodes[i] == j.plan.nodes[k];
    }
  }

  /** On an accepted chain, if the budget covers every retry and stage call of the reachable
      blocks, every run processes all reachable provider blocks, whatever the interleaving,
      and no branch is refused an attempt on the way. */
  lemma AcceptedRunCovers(c: Chain, j: Job, scheds: seq<seq<Key>>, breaker: Breaker)
    requires Accepts(c) && PlanOf(c) == Some(j.plan) && PlanShape(j.plan)
    requires RunCost(j) <= j.max
    requires Finishes(j, AllWaves(j.plan), scheds, Origin(breaker))
    ensures var end := RunUnder(j, AllWaves(j.plan), scheds, Origin(breaker));
            && (forall k :: k in NeutralReach(j.plan) ==>
               k in j.plan.nodes && (IsProvider(j.plan.nodes[k]) ==> k in end.blocks))
            && end.w.steps <= RunCost(j)
            && NeverRefused(j, AllWaves(j.plan), scheds, Origin(breaker))
  {
    AcceptedRetriable(c, j);
    AcceptedReach(c, j.plan);
    WavesAreTopological(c, j.plan);
    FlattenHeld(j.plan, AllWaves(j.plan));
    RunCovers(j, AllWaves(j.plan), scheds, Origin(breaker));
  }

  lemma {:induction false} SingleCallSum(j: Job, keys: seq<Key>)
    requires WaveHeld(j.plan, keys) && Distinct(keys) && Retriable(j) && SingleCalls(j.env)
    ensures SeqCost(j, keys) == Attempts(j.plan.nodes, Elements(keys))
  {
    if keys == [] {
      assert Elements(keys) == {};
    } else {
      var front, k := keys[..|keys| - 1], keys[|keys| - 1];
      SingleCallSum(j, front);
      assert keys == front + [k];
      assert k !in front;
      assert Elements(keys) - {k} == Elements(front);
      AttemptsWithout(j.plan.nodes, Elements(keys), k);
      SingleCallCost(j.env, k, j.plan.nodes[k].retries + 1);
    }
  }

  lemma AllWavesSum(c: Chain, j: Job)
    requires Accepts(c) && PlanOf(c) == Some(j.plan) && PlanShape(j.plan)
    requires SingleCalls(j.env) && Retriable(j)
    ensures RunCost(j) == Attempts(j.plan.nodes, NeutralReach(j.plan))
  {
    var layers := AllWaves(j.plan);
    WavesAreTopological(c, j.plan);
    FlattenHeld(j.plan, layers);
    FlattenDistinct(layers, {});
    SingleCallSum(j, Flatten(layers));
    assert Elements(Flatten(layers)) == NeutralReach(j.plan);
  }

  const DEFAULT_ATTEMPTS := 10

  /** The budget a run gets under a setting; one that is not positive stands for the default. */
  function BudgetOf(setting: int): int {
    if setting <= 0 then DEFAULT_ATTEMPTS else setting
  }

  /** An accepted chain for which the setting raises no "may not finish" warning. */
  ghost predicate Silent(c: Chain, setting: int) {
    Accepts(c) && forall potential :: !MustWarn(c, setting, MayNotFinish(potential))
  }

  /** The attempts of all reachable blocks fit the budget the setting gives. */
  ghost predicate Fits(c: Chain, setting: int) {
    SoleEntry(c) && Potential(c, Entry(c)) <= BudgetOf(setting)
  }

  /** The warning looks at positive settings only, and for these its absence means that the
      attempts fit; any other setting never raises it, and they fit within the default or not. */
  lemma SilentFits(c: Chain, setting: int)
    requires Accepts(c)
    ensures SoleEntry(c)
    ensures Silent(c, setting) <==> setting <= 0 || Fits(c, setting)
    ensures setting <= 0 ==> (Fits(c, setting) <==> Potential(c, Entry(c)) <= 10)
  {
    AcceptedIsWellFormed(c);
    assert |c.nodes| > 0;
    if Silent(c, setting) {
      assert !MustWarn(c, setting, MayNotFinish(Potential(c, Entry(c))));
    }
  }

  /** When the attempts fit, a full-chain run of single-call drivers stays within the budget. */
  lemma FittingCost(c: Chain, j: Job, setting: int)
    requires Accepts(c) && PlanOf(c) == Some(j.plan) && PlanShape(j.plan)
    requires SingleCalls(j.env) && Fits(c, setting) && j.max == BudgetOf(setting)
    ensures RunCost(j) <= j.max
  {
    var reach := NeutralReach(j.plan);
    AcceptedRetriable(c, j);
    AcceptedReach(c, j.plan);
    AcceptedIsWellFormed(c);
    PlanOfWellFormed(c);
    AllWavesSum(c, j);
    NeutralWithinAll(c.edges);
    SubgraphReach(NeutralArcs(c.edges), AllArcs(c.edges), Entry(c));
    AttemptsMonotone(j.plan.nodes, reach, ReachSet(AllArcs(c.edges), Entry(c)));
  }
}

/** Parallel waves are confluent: when the blocks of a wave use different provider
    instances and the budget covers them, every interleaving ends in the same blocks and,
    once answers are picked in plan order, the same output. */
module Confluence {
  import opened Text
  import opened Graph
  import opened Chains
  import opened Validate
  import opened Plans
  import opened Cooldown
  import opened Walks
  import opened FullChain
  import opened Branches
  import opened Budget

  // --- What a branch can see of the shared state -------------------------------------------

  /** A branch reads and writes only its provider's liveness and breaker entry. */
  datatype Sight = Sight(dead: bool, slot: Slot)

  function Sees(w: Walk, provider: string): Sight {
    Sight(provider in w.dead, SlotOf(w.breaker, provider))
  }

  /** The step of a branch on its own sight, never refused; the number is its steps. */
  function SightStep(env: Env, n: Node, pc: Pc, s: Sight): (Pc, Sight, nat) {
    match pc
    case AtResolve =>
      if !IsProvider(n) then (Finished(Block(OkStatus, [], NO_RESULT, "")), s, 0)
      else if env.unconfigured(n.providerId) || s.dead then (Finished(SKIPPED), s, 0)
      else (AtCooldown, s, 0)
    case AtCooldown =>
      var (slot, blocked) := SlotBlocked(s.slot, n.providerId, env.resolvedAt(n.key));
      if blocked || env.unknownDriver(n.providerId) then (Finished(SKIPPED), s.(slot := slot), 0)
      else (Attempt(n, 0, NO_RESULT, false), s.(slot := slot), 0)
    case AtTake(a, _, _) => (AtAnswer(a), s, 1)
    case AtAnswer(a) => (AtObserve(a), s, 0)
    case AtObserve(a) =>
      var slot := SlotObserve(s.slot, n.providerId, env.call(n.key, a).ok, env.threshold, env.cooldown,
        env.observedAt(n.key, a));
      (AtStages(a), s.(slot := slot), 0)
    case AtStages(a) => (AtDecide(a), s, Extra(env.call(n.key, a)))
    case AtDecide(a) =>
      var r := env.call(n.key, a);
      if Wins(env, n, r) then (Finished(BlockOf(n, NodeRun(StepRows(env, n, r), true, r, true))), s, 0)
      else if r.permanent then (Finished(BlockOf(n, NodeRun([], false, r, true))), s.(dead := true), 0)
      else (Attempt(n, a + 1, r, true), s, 0)
    case Finished(_) => (pc, s, 0)
  }

  lemma StepBySight(env: Env, max: int, n: Node, idx: nat, pc: Pc, w: Walk)
    requires pc.AtTake? ==> w.steps < max
    ensures var (pc', w') := BranchStep(env, max, n, idx, pc, w);
            && SightStep(env, n, pc, Sees(w, n.providerId)) == (pc', Sees(w', n.providerId), w'.steps - w.steps)
            && forall q :: q != n.providerId ==> Sees(w', q) == Sees(w, q)
  {
    match pc
    case AtCooldown =>
      SlotsAgree(w.breaker, n.providerId, true, env.threshold, env.cooldown, env.resolvedAt(n.key));
    case AtObserve(a) =>
      SlotsAgree(w.breaker, n.providerId, env.call(n.key, a).ok, env.threshold, env.cooldown, env.observedAt(n.key, a));
    case _ =>
  }

  lemma SightStepLowersRank(env: Env, n: Node, pc: Pc, s: Sight)
    requires !pc.Finished?
    ensures Rank(n, SightStep(env, n, pc, s).0) < Rank(n, pc)
  {
  }

  /** Where a branch will end up, and the steps it still has to spend. */
  function Future(env: Env, n: Node, pc: Pc, s: Sight): (Block, Sight, nat)
    decreases Rank(n, pc)
  {
    if pc.Finished? then (pc.block, s, 0)
    else
      SightStepLowersRank(env, n, pc, s);
      var (pc1, s1, c) := SightStep(env, n, pc, s);
      var (block, s2, rest) := Future(env, n, pc1, s1);
      (block, s2, c + rest)
  }

  lemma FutureStep(env: Env, n: Node, pc: Pc, s: Sight)
    ensures var (pc1, s1, c) := SightStep(env, n, pc, s);
            Future(env, n, pc, s) == (Future(env, n, pc1, s1).0, Future(env, n, pc1, s1).1,
              c + Future(env, n, pc1, s1).2)
  {
    FutureUnfolds(env, n, pc, s, SightStep(env, n, pc, s));
  }

  lemma FutureUnfolds(env: Env, n: Node, pc: Pc, s: Sight, next: (Pc, Sight, nat))
    requires SightStep(env, n, pc, s) == next
    ensures var f := Future(env, n, next.0, next.1); Future(env, n, pc, s) == (f.0, f.1, next.2 + f.2)
  {
    if pc.Finished? {
      assert next == (pc, s, 0);
    } else {
      SightStepLowersRank(env, n, pc, s);
    }
  }

  /** A logical block's future does not depend on what it sees. */
  lemma LogicalFuture(env: Env, n: Node, pc: Pc, s: Sight, t: Sight)
    requires !IsProvider(n) && Possible(n, pc)
    ensures Future(env, n, pc, s).0 == Future(env, n, pc, t).0 && Future(env, n, pc, s).2 == 0
  {
  }

  // --- The future of every branch is an invariant of the wave -----------------------------------

  ghost predicate DifferentOwners(p: Plan, wave: seq<Key>)
    requires WaveHeld(p, wave)
  {
    forall x, y :: x in wave && y in wave && x != y && IsProvider(p.nodes[x]) && IsProvider(p.nodes[y]) ==>
      p.nodes[x].providerId != p.nodes[y].providerId
  }

  function FutureOf(j: Job, c: Config, k: Key): (Block, Sight, nat)
    requires k in j.plan.nodes
  {
    Future(j.env, j.plan.nodes[k], PcAt(c.pcs, k), Sees(c.w, j.plan.nodes[k].providerId))
  }

  function Owed(j: Job, wave: seq<Key>, c: Config): nat
    requires WaveHeld(j.plan, wave)
  {
    if wave == [] then 0
    else Owed(j, wave[..|wave| - 1], c) + FutureOf(j, c, wave[|wave| - 1]).2
  }

  predicate Owns(p: Plan, wave: seq<Key>, q: string)
    requires WaveHeld(p, wave)
  {
    exists k :: k in wave && IsProvider(p.nodes[k]) && p.nodes[k].providerId == q
  }

  /** c and c' promise the same outcome for every branch of the wave. */
  ghost predicate SameFutures(j: Job, wave: seq<Key>, c: Config, c': Config)
    requires WaveHeld(j.plan, wave)
  {
    && (forall k :: k in wave ==> FutureOf(j, c, k).0 == FutureOf(j, c', k).0)
    && (forall k :: k in wave && IsProvider(j.plan.nodes[k]) ==> FutureOf(j, c, k).1 == FutureOf(j, c', k).1)
    && (forall q :: !Owns(j.plan, wave, q) ==> Sees(c.w, q) == Sees(c'.w, q))
    && c.w.steps + Owed(j, wave, c) == c'.w.steps + Owed(j, wave, c')
  }

  ghost predicate WellPlaced(j: Job, wave: seq<Key>, c: Config)
    requires WaveHeld(j.plan, wave)
  {
    c.pcs.Keys == Elements(wave) && forall k :: k in c.pcs ==> k in j.plan.nodes && Possible(j.plan.nodes[k], c.pcs[k])
  }

  /** One turn: the mover's future unfolds by one step, nobody else's changes. */
  lemma TurnMoves(j: Job, wave: seq<Key>, idx: map<Key, nat>, c: Config, k: Key, x: Key)
    requires WaveHeld(j.plan, wave) && DifferentOwners(j.plan, wave) && Retriable(j) && WellPlaced(j, wave, c)
    requires k in wave && x in wave && (c.pcs[k].AtTake? ==> c.w.steps < j.max)
    ensures var c' := Turn(j, idx, c, k);
            && FutureOf(j, c, x).0 == FutureOf(j, c', x).0
            && (IsProvider(j.plan.nodes[x]) ==> FutureOf(j, c, x).1 == FutureOf(j, c', x).1)
            && FutureOf(j, c, x).2 == FutureOf(j, c', x).2 + if x == k then c'.w.steps - c.w.steps else 0
    ensures WellPlaced(j, wave, Turn(j, idx, c, k))
  {
    var n := j.plan.nodes[k];
    var i := if k in idx then idx[k] else 0;
    StepSpends(j.env, j.max, n, i, c.pcs[k], c.w);
    StepBySight(j.env, j.max, n, i, c.pcs[k], c.w);
    FutureStep(j.env, n, c.pcs[k], Sees(c.w, n.providerId));
    var c' := Turn(j, idx, c, k);
    if x != k {
      assert c'.pcs[x] == c.pcs[x];
      if !IsProvider(j.plan.nodes[x]) {
        LogicalFuture(j.env, j.plan.nodes[x], c.pcs[x], Sees(c.w, j.plan.nodes[x].providerId),
          Sees(c'.w, j.plan.nodes[x].providerId));
        LogicalFuture(j.env, j.plan.nodes[x], c.pcs[x], Sees(c'.w, j.plan.nodes[x].providerId),
          Sees(c.w, j.plan.nodes[x].providerId));
      } else if !IsProvider(n) {
        LogicalStepsNothing(j.env, j.max, n, i, c.pcs[k], c.w);
      }
    }
  }

  lemma LogicalStepsNothing(env: Env, max: int, n: Node, idx: nat, pc: Pc, w: Walk)
    requires !IsProvider(n) && Possible(n, pc)
    ensures BranchStep(env, max, n, idx, pc, w).1 == w
  {
  }

  lemma {:induction false} OwedTurn(j: Job, all: seq<Key>, wave: seq<Key>, idx: map<Key, nat>, c: Config, k: Key)
    requires WaveHeld(j.plan, all) && DifferentOwners(j.plan, all) && Retriable(j) && WellPlaced(j, all, c)
    requires k in all && (c.pcs[k].AtTake? ==> c.w.steps < j.max)
    requires WaveHeld(j.plan, wave) && Distinct(wave) && forall i :: 0 <= i < |wave| ==> wave[i] in all
    ensures Owed(j, wave, c) == Owed(j, wave, Turn(j, idx, c, k)) + if k in wave
      then Turn(j, idx, c, k).w.steps - c.w.steps else 0
  {
    if wave != [] {
      var front, x := wave[..|wave| - 1], wave[|wave| - 1];
      OwedTurn(j, all, front, idx, c, k);
      TurnMoves(j, all, idx, c, k, x);
      assert wave == front + [x];
      assert x !in front;
    }
  }

  lemma UnownedUntouched(j: Job, wave: seq<Key>, idx: map<Key, nat>, c: Config, k: Key, q: string)
    requires WaveHeld(j.plan, wave) && WellPlaced(j, wave, c) && k in wave && (c.pcs[k].AtTake? ==> c.w.steps < j.max)
    requires !Owns(j.plan, wave, q)
    ensures Sees(Turn(j, idx, c, k).w, q) == Sees(c.w, q)
  {
    var n := j.plan.nodes[k];
    var i := if k in idx then idx[k] else 0;
    if IsProvider(n) {
      StepBySight(j.env, j.max, n, i, c.pcs[k], c.w);
    } else {
      LogicalStepsNothing(j.env, j.max, n, i, c.pcs[k], c.w);
    }
  }

  lemma TurnKeepsFutures(j: Job, wave: seq<Key>, idx: map<Key, nat>, c: Config, k: Key)
    requires WaveHeld(j.plan, wave) && DifferentOwners(j.plan, wave) && Retriable(j) && WellPlaced(j, wave, c)
    requires Distinct(wave)
    requires k in wave && (c.pcs[k].AtTake? ==> c.w.steps < j.max)
    ensures SameFutures(j, wave, c, Turn(j, idx, c, k)) && WellPlaced(j, wave, Turn(j, idx, c, k))
  {
    var c' := Turn(j, idx, c, k);
    TurnMoves(j, wave, idx, c, k, k);
    forall x | x in wave
      ensures FutureOf(j, c, x).0 == FutureOf(j, c', x).0
      ensures IsProvider(j.plan.nodes[x]) ==> FutureOf(j, c, x).1 == FutureOf(j, c', x).1
    {
      TurnMoves(j, wave, idx, c, k, x);
    }
    OwedTurn(j, wave, wave, idx, c, k);
    forall q | !Owns(j.plan, wave, q)
      ensures Sees(c.w, q) == Sees(c'.w, q)
    {
      UnownedUntouched(j, wave, idx, c, k, q);
    }
  }

  lemma SameFuturesTransitive(j: Job, wave: seq<Key>, a: Config, b: Config, c: Config)
    requires WaveHeld(j.plan, wave) && SameFutures(j, wave, a, b) && SameFutures(j, wave, b, c)
    ensures SameFutures(j, wave, a, c)
  {
  }

  lemma {:induction false} FuturesHold(j: Job, wave: seq<Key>, sched: seq<Key>, at: Progress)
    requires WaveHeld(j.plan, wave) && Distinct(wave) && DifferentOwners(j.plan, wave) && Retriable(j)
    requires at.w.steps + SeqCost(j, wave) <= j.max
    ensures WellPlaced(j, wave, WaveUnder(j, wave, sched, at))
    ensures SameFutures(j, wave, Launch(wave, at.w), WaveUnder(j, wave, sched, at))
  {
    if sched == [] {
      assert Launch(wave, at.w).pcs.Keys == Elements(wave);
    } else {
      var front, k := sched[..|sched| - 1], sched[|sched| - 1];
      var c, idx := WaveUnder(j, wave, front, at), WaveIdx(j.plan, wave, at.nextIdx);
      FuturesHold(j, wave, front, at);
      NoAttemptRefused(j, wave, front, at);
      if k in c.pcs {
        assert k in wave;
        TurnKeepsFutures(j, wave, idx, c, k);
        SameFuturesTransitive(j, wave, Launch(wave, at.w), c, Turn(j, idx, c, k));
      }
    }
  }

  // --- Clocks ---------------------------------------------------------------------------------------

  /** The same settings and drivers, with clock readings of its own. */
  ghost predicate OwnClock(env: Env, env': Env) {
    env' == env.(resolvedAt := env'.resolvedAt, observedAt := env'.observedAt)
  }

  /** Once a branch has looked its cooldown up, the clock decides nothing for its block. */
  lemma {:induction false} LaterFuture(env: Env, env': Env, n: Node, pc: Pc, s: Sight, s': Sight)
    requires OwnClock(env, env') && s.dead == s'.dead && !pc.AtResolve? && !pc.AtCooldown?
    ensures var f, f' := Future(env, n, pc, s), Future(env', n, pc, s');
            f.0 == f'.0 && f.2 == f'.2 && f.1.dead == f'.1.dead
    decreases Rank(n, pc)
  {
    if !pc.Finished? {
      SightStepLowersRank(env, n, pc, s);
      FutureStep(env, n, pc, s);
      FutureStep(env', n, pc, s');
      LaterFuture(env, env', n, SightStep(env, n, pc, s).0, SightStep(env, n, pc, s).1, SightStep(env', n, pc, s').1);
    }
  }

  lemma LooksPast(env: Env, n: Node, s: Sight)
    requires s.slot.until.None?
    ensures SightStep(env, n, AtCooldown, s) ==
            (if env.unknownDriver(n.providerId) then Finished(SKIPPED) else Attempt(n, 0, NO_RESULT, false), s, 0)
  {
  }

  /** A branch whose instance is in no cooldown ends alike whatever the clock says. */
  lemma UntimedFuture(env: Env, env': Env, n: Node, s: Sight, s': Sight)
    requires OwnClock(env, env') && s.dead == s'.dead && s.slot.until.None? && s'.slot.until.None?
    ensures var f, f' := Future(env, n, AtResolve, s), Future(env', n, AtResolve, s');
            f.0 == f'.0 && f.2 == f'.2 && f.1.dead == f'.1.dead
  {
    FutureStep(env, n, AtResolve, s);
    FutureStep(env', n, AtResolve, s');
    if IsProvider(n) && !env.unconfigured(n.providerId) && !s.dead {
      LooksPast(env, n, s);
      LooksPast(env', n, s');
      FutureStep(env, n, AtCooldown, s);
      FutureStep(env', n, AtCooldown, s');
      LaterFuture(env, env', n, SightStep(env, n, AtCooldown, s).0, s, s');
    }
  }

  /** With the breaker off no cooldown begins. */
  lemma {:induction false} IdleFuture(env: Env, n: Node, pc: Pc, s: Sight)
    requires env.threshold <= 0 && s.slot.until.None?
    ensures Future(env, n, pc, s).1.slot.until.None?
    decreases Rank(n, pc)
  {
    if !pc.Finished? {
      SightStepLowersRank(env, n, pc, s);
      FutureStep(env, n, pc, s);
      IdleFuture(env, n, SightStep(env, n, pc, s).0, SightStep(env, n, pc, s).1);
    }
  }

  /** A pending cooldown makes the clock decide: the block is attempted exactly when it is
      looked up at or after the deadline. */
  lemma PendingReadsClock(env: Env, n: Node, s: Sight)
    requires IsProvider(n) && n.providerId != "" && n.retries >= 0 && !s.dead && s.slot.until.Some?
    requires !env.unconfigured(n.providerId) && !env.unknownDriver(n.providerId)
    ensures Future(env, n, AtResolve, s).2 > 0 <==> env.resolvedAt(n.key) >= s.slot.until.value
  {
    FutureStep(env, n, AtResolve, s);
    FutureStep(env, n, AtCooldown, s);
    var (pc, s1, _) := SightStep(env, n, AtCooldown, s);
    FutureStep(env, n, pc, s1);
  }

  // --- Two completing schedules agree ---------------------------------------------------------------

  /** Equal in everything later blocks can depend on: the answer and the trace aside. */
  ghost predicate Equivalent(w: Walk, w': Walk) {
    w.steps == w'.steps && forall q :: Sees(w, q) == Sees(w', q)
  }

  /** Equal but for what the breaker holds. */
  ghost predicate Alike(w: Walk, w': Walk) {
    w.steps == w'.steps && forall q :: Sees(w, q).dead == Sees(w', q).dead
  }

  /** No provider block of the wave finds its instance in a cooldown. */
  ghost predicate NoneCooling(p: Plan, wave: seq<Key>, w: Walk)
    requires WaveHeld(p, wave)
  {
    forall k :: k in wave && IsProvider(p.nodes[k]) ==> Sees(w, p.nodes[k].providerId).slot.until.None?
  }

  /** What lets a wave end alike in two runs: they read the same clock and have left the
      breaker alike, or none of its instances is in a cooldown. */
  ghost predicate Matched(j: Job, j': Job, wave: seq<Key>, w: Walk, w': Walk)
    requires WaveHeld(j.plan, wave)
  {
    && OwnClock(j.env, j'.env) && j' == j.(env := j'.env) && Alike(w, w')
    && ((j' == j && Equivalent(w, w')) || (NoneCooling(j.plan, wave, w) && NoneCooling(j.plan, wave, w')))
  }

  lemma FuturesMatch(j: Job, j': Job, wave: seq<Key>, w: Walk, w': Walk, k: Key)
    requires WaveHeld(j.plan, wave) && Matched(j, j', wave, w, w') && k in wave
    ensures var f, f' := FutureOf(j, Launch(wave, w), k), FutureOf(j', Launch(wave, w'), k);
            && f.0 == f'.0 && f.2 == f'.2
            && (IsProvider(j.plan.nodes[k]) ==> f.1.dead == f'.1.dead)
            && (j' == j && Equivalent(w, w') ==> f.1 == f'.1)
  {
    var n := j.plan.nodes[k];
    if !IsProvider(n) {
      FutureStep(j.env, n, AtResolve, Sees(w, n.providerId));
      FutureStep(j'.env, n, AtResolve, Sees(w', n.providerId));
    } else if !(j' == j && Equivalent(w, w')) {
      UntimedFuture(j.env, j'.env, n, Sees(w, n.providerId), Sees(w', n.providerId));
    }
  }

  lemma {:induction false} OwedNothing(j: Job, wave: seq<Key>, c: Config)
    requires WaveHeld(j.plan, wave) && Complete(c) && forall i :: 0 <= i < |wave| ==> wave[i] in c.pcs
    ensures Owed(j, wave, c) == 0
  {
    if wave != [] {
      OwedNothing(j, wave[..|wave| - 1], c);
    }
  }

  lemma {:induction false} OwedMatches(j: Job, j': Job, wave: seq<Key>, all: seq<Key>, w: Walk, w': Walk)
    requires WaveHeld(j.plan, all) && Matched(j, j', all, w, w')
    requires WaveHeld(j.plan, wave) && forall i :: 0 <= i < |wave| ==> wave[i] in all
    ensures Owed(j, wave, Launch(all, w)) == Owed(j', wave, Launch(all, w'))
  {
    if wave != [] {
      OwedMatches(j, j', wave[..|wave| - 1], all, w, w');
      FuturesMatch(j, j', all, w, w', wave[|wave| - 1]);
    }
  }

  lemma {:induction false} CostUntimed(env: Env, env': Env, k: Key, a: nat)
    requires OwnClock(env, env')
    ensures Cost(env', k, a) == Cost(env, k, a)
  {
    if a > 0 {
      CostUntimed(env, env', k, a - 1);
    }
  }

  lemma {:induction false} SeqCostUntimed(j: Job, j': Job, keys: seq<Key>)
    requires WaveHeld(j.plan, keys) && OwnClock(j.env, j'.env) && j' == j.(env := j'.env)
    ensures SeqCost(j', keys) == SeqCost(j, keys)
  {
    if keys != [] {
      var n := j.plan.nodes[keys[|keys| - 1]];
      SeqCostUntimed(j, j', keys[..|keys| - 1]);
      if n.retries >= 0 {
        CostUntimed(j.env, j'.env, n.key, n.retries + 1);
      }
    }
  }

  /** The result of a wave is settled by the state it starts from. */
  lemma CompleteIsSettled(j: Job, wave: seq<Key>, sched: seq<Key>, at: Progress)
    requires WaveHeld(j.plan, wave) && Distinct(wave) && DifferentOwners(j.plan, wave) && Retriable(j)
    requires at.w.steps + SeqCost(j, wave) <= j.max && Complete(WaveUnder(j, wave, sched, at))
    ensures var c, c0 := WaveUnder(j, wave, sched, at), Launch(wave, at.w);
            && c.pcs.Keys == Elements(wave)
            && (forall k :: k in wave ==> k in c.pcs && c.pcs[k].block == FutureOf(j, c0, k).0)
            && (forall k :: k in wave && IsProvider(j.plan.nodes[k]) ==>
               Sees(c.w, j.plan.nodes[k].providerId) == FutureOf(j, c0, k).1)
            && (forall q :: !Owns(j.plan, wave, q) ==> Sees(c.w, q) == Sees(at.w, q))
            && c.w.steps == at.w.steps + Owed(j, wave, c0)
  {
    var c, c0 := WaveUnder(j, wave, sched, at), Launch(wave, at.w);
    FuturesHold(j, wave, sched, at);
    forall i | 0 <= i < |wave|
      ensures wave[i] in c.pcs
    {
      assert wave[i] in Elements(wave);
    }
    OwedNothing(j, wave, c);
    forall k | k in wave
      ensures k in c.pcs && c.pcs[k].block == FutureOf(j, c0, k).0
      ensures IsProvider(j.plan.nodes[k]) ==> Sees(c.w, j.plan.nodes[k].providerId) == FutureOf(j, c0, k).1
    {
      assert k in Elements(wave);
      assert FutureOf(j, c, k).0 == c.pcs[k].block;
    }
  }

  /** A wave that can start and finish under the budget, its siblings on instances of their own. */
  ghost predicate Affordable(j: Job, wave: seq<Key>, sched: seq<Key>, at: Progress) {
    && WaveHeld(j.plan, wave) && Distinct(wave) && DifferentOwners(j.plan, wave) && Retriable(j)
    && at.w.steps + SeqCost(j, wave) <= j.max && Complete(WaveUnder(j, wave, sched, at))
  }

  lemma SameBlocks(wave: seq<Key>, c: Config, c': Config)
    requires Complete(c) && Complete(c') && c.pcs.Keys == Elements(wave) && c'.pcs.Keys == Elements(wave)
    requires forall k :: k in wave ==> k in c.pcs && k in c'.pcs && c.pcs[k].block == c'.pcs[k].block
    ensures BlocksOf(c) == BlocksOf(c')
  {
  }

  lemma WaveBlocksAgree(j: Job, j': Job, wave: seq<Key>, s: seq<Key>, t: seq<Key>, at: Progress, at': Progress)
    requires Affordable(j, wave, s, at) && Affordable(j', wave, t, at') && Matched(j, j', wave, at.w, at'.w)
    ensures BlocksOf(WaveUnder(j, wave, s, at)) == BlocksOf(WaveUnder(j', wave, t, at'))
    ensures WaveUnder(j, wave, s, at).w.steps == WaveUnder(j', wave, t, at').w.steps
  {
    var c, c' := WaveUnder(j, wave, s, at), WaveUnder(j', wave, t, at');
    CompleteIsSettled(j, wave, s, at);
    CompleteIsSettled(j', wave, t, at');
    OwedMatches(j, j', wave, wave, at.w, at'.w);
    forall k | k in wave
      ensures c.pcs[k].block == c'.pcs[k].block
    {
      FuturesMatch(j, j', wave, at.w, at'.w, k);
    }
    SameBlocks(wave, c, c');
  }

  lemma WaveSightsAgree(j: Job, j': Job, wave: seq<Key>, s: seq<Key>, t: seq<Key>, at: Progress, at': Progress,
          q: string)
    requires Affordable(j, wave, s, at) && Affordable(j', wave, t, at') && Matched(j, j', wave, at.w, at'.w)
    ensures var w, w' := WaveUnder(j, wave, s, at).w, WaveUnder(j', wave, t, at').w;
            Sees(w, q).dead == Sees(w', q).dead && (j' == j && Equivalent(at.w, at'.w) ==> Sees(w, q) == Sees(w', q))
  {
    CompleteIsSettled(j, wave, s, at);
    CompleteIsSettled(j', wave, t, at');
    if k :| k in wave && IsProvider(j.plan.nodes[k]) && j.plan.nodes[k].providerId == q {
      FuturesMatch(j, j', wave, at.w, at'.w, k);
    } else {
      assert !Owns(j.plan, wave, q);
    }
  }

  /** A wave starts no cooldown for an instance it does not use, nor with the breaker off. */
  lemma StaysOut(j: Job, wave: seq<Key>, sched: seq<Key>, at: Progress, q: string)
    requires Affordable(j, wave, sched, at) && Sees(at.w, q).slot.until.None?
    requires j.env.threshold <= 0 || !Owns(j.plan, wave, q)
    ensures Sees(WaveUnder(j, wave, sched, at).w, q).slot.until.None?
  {
    CompleteIsSettled(j, wave, sched, at);
    if k :| k in wave && IsProvider(j.plan.nodes[k]) && j.plan.nodes[k].providerId == q {
      IdleFuture(j.env, j.plan.nodes[k], AtResolve, Sees(at.w, q));
    }
  }

  ghost predicate WavesSeparate(p: Plan, layers: seq<seq<Key>>)
    requires AllHeld(p, layers)
  {
    forall i :: 0 <= i < |layers| ==> Distinct(layers[i]) && DifferentOwners(p, layers[i])
  }

  /** No instance is used in two waves. */
  ghost predicate NoneReused(p: Plan, layers: seq<seq<Key>>)
    requires AllHeld(p, layers)
  {
    forall h, i, x, y ::
      0 <= h < i < |layers| && x in layers[h] && y in layers[i] && IsProvider(p.nodes[x]) && IsProvider(p.nodes[y]) ==>
      p.nodes[x].providerId != p.nodes[y].providerId
  }

  /** The clock plays no part in these waves: no instance is in a cooldown when they begin,
      and none that might enter one is used again. */
  ghost predicate Untimed(j: Job, layers: seq<seq<Key>>, w: Walk)
    requires AllHeld(j.plan, layers)
  {
    && (forall i :: 0 <= i < |layers| ==> NoneCooling(j.plan, layers[i], w))
    && (j.env.threshold <= 0 || NoneReused(j.plan, layers))
  }

  lemma UntimedTail(j: Job, layers: seq<seq<Key>>, sched: seq<Key>, at: Progress)
    requires AllHeld(j.plan, layers) && layers != [] && Untimed(j, layers, at.w) && Affordable(j, layers[0], sched, at)
    ensures AllHeld(j.plan, layers[1..]) && Untimed(j, layers[1..], WaveUnder(j, layers[0], sched, at).w)
  {
    var rest, w := layers[1..], WaveUnder(j, layers[0], sched, at).w;
    forall i, y | 0 <= i < |rest| && y in rest[i] && IsProvider(j.plan.nodes[y])
      ensures Sees(w, j.plan.nodes[y].providerId).slot.until.None?
    {
      assert y in layers[i + 1] && NoneCooling(j.plan, layers[i + 1], at.w);
      StaysOut(j, layers[0], sched, at, j.plan.nodes[y].providerId);
    }
    if NoneReused(j.plan, layers) {
      forall h, i, x, y | 0 <= h < i < |rest| && x in rest[h] && y in rest[i] && IsProvider(j.plan.nodes[x]) &&
        IsProvider(j.plan.nodes[y])
        ensures j.plan.nodes[x].providerId != j.plan.nodes[y].providerId
      {
        assert x in layers[h + 1] && y in layers[i + 1];
      }
    }
  }

  /** Two runs that end alike: on one clock, or on waves for which no clock matters. */
  ghost predicate Paired(j: Job, j': Job, layers: seq<seq<Key>>, w: Walk, w': Walk)
    requires AllHeld(j.plan, layers)
  {
    && OwnClock(j.env, j'.env) && j' == j.(env := j'.env) && Alike(w, w')
    && ((j' == j && Equivalent(w, w')) || (Untimed(j, layers, w) && Untimed(j', layers, w')))
  }

  lemma PairedTail(j: Job, j': Job, layers: seq<seq<Key>>, s: seq<Key>, t: seq<Key>, at: Progress, at': Progress)
    requires AllHeld(j.plan, layers) && layers != [] && Paired(j, j', layers, at.w, at'.w)
    requires Affordable(j, layers[0], s, at) && Affordable(j', layers[0], t, at')
    ensures Matched(j, j', layers[0], at.w, at'.w)
    ensures Paired(j, j', layers[1..], WaveUnder(j, layers[0], s, at).w, WaveUnder(j', layers[0], t, at').w)
  {
    var wave := layers[0];
    if !(j' == j && Equivalent(at.w, at'.w)) {
      UntimedTail(j, layers, s, at);
      UntimedTail(j', layers, t, at');
    }
    WaveBlocksAgree(j, j', wave, s, t, at, at');
    forall q
      ensures var w, w' := WaveUnder(j, wave, s, at).w, WaveUnder(j', wave, t, at').w;
              Sees(w, q).dead == Sees(w', q).dead && (j' == j && Equivalent(at.w, at'.w) ==> Sees(w, q) == Sees(w', q))
    {
      WaveSightsAgree(j, j', wave, s, t, at, at', q);
    }
  }

  lemma {:induction false} RunsAgree(j: Job, j': Job, layers: seq<seq<Key>>, s: seq<seq<Key>>, t: seq<seq<Key>>,
          at: Progress, at': Progress)
    requires AllHeld(j.plan, layers) && WavesSeparate(j.plan, layers) && Retriable(j)
    requires Paired(j, j', layers, at.w, at'.w)
    requires Finishes(j, layers, s, at) && Finishes(j', layers, t, at')
    requires at.blocks == at'.blocks && at.nextIdx == at'.nextIdx
    requires WaveHeld(j.plan, Flatten(layers)) && at.w.steps + SeqCost(j, Flatten(layers)) <= j.max
    ensures var end, end' := RunUnder(j, layers, s, at), RunUnder(j', layers, t, at');
            end.blocks == end'.blocks && end.w.steps == end'.w.steps
    decreases |layers|
  {
    if layers != [] && at.w.steps < j.max {
      var wave, rest := layers[0], layers[1..];
      FlattenHeld(j.plan, rest);
      SeqCostAppend(j, wave, Flatten(rest));
      SeqCostUntimed(j, j', wave);
      NoAttemptRefused(j, wave, s[0], at);
      PairedTail(j, j', layers, s[0], t[0], at, at');
      WaveBlocksAgree(j, j', wave, s[0], t[0], at, at');
      RunsAgree(j, j', rest, s[1..], t[1..], AfterWave(j, wave, s[0], at), AfterWave(j', wave, t[0], at'));
    }
  }

  // --- The answer ---------------------------------------------------------------------------------

  /** If this is an answer block, its driver returns an answer only with a successful result. */
  ghost predicate AnswersHonestly(env: Env, n: Node) {
    IsProvider(n) && IsAnswer(n) ==> forall a: nat :: !Blank(env.call(n.key, a).answer) ==> env.call(n.key, a).ok
  }

  /** The drivers of the plan's answer blocks return answers only with successful results. */
  ghost predicate AnswersComeWithSuccess(env: Env, p: Plan) {
    forall k :: k in p.nodes ==> AnswersHonestly(env, p.nodes[k])
  }

  /** A branch that has written the request's answer keeps it until its block holds it. */
  predicate Carries(env: Env, n: Node, pc: Pc) {
    IsProvider(n) &&
    match pc
    case AtObserve(a) => HasAnswer(n, env.call(n.key, a))
    case AtStages(a) => HasAnswer(n, env.call(n.key, a))
    case AtDecide(a) => HasAnswer(n, env.call(n.key, a))
    case Finished(block) => block.answer != ""
    case _ => false
  }

  lemma StepCarries(env: Env, max: int, n: Node, idx: nat, pc: Pc, w: Walk)
    requires AnswersHonestly(env, n) && Possible(n, pc) && n.retries >= 0
    ensures var (pc', w') := BranchStep(env, max, n, idx, pc, w);
            (Carries(env, n, pc) ==> Carries(env, n, pc')) && (w'.answer != w.answer ==> Carries(env, n, pc'))
  {
  }

  ghost predicate AnswerAccounted(j: Job, a0: string, c: Config) {
    c.w.answer == a0 || exists k :: k in c.pcs && k in j.plan.nodes && Carries(j.env, j.plan.nodes[k], c.pcs[k])
  }

  lemma {:induction false} WaveAnswer(j: Job, wave: seq<Key>, sched: seq<Key>, at: Progress)
    requires WaveHeld(j.plan, wave) && Distinct(wave) && Retriable(j) && AnswersComeWithSuccess(j.env, j.plan)
    ensures AnswerAccounted(j, at.w.answer, WaveUnder(j, wave, sched, at))
  {
    if sched != [] {
      var front, k := sched[..|sched| - 1], sched[|sched| - 1];
      var idx := WaveIdx(j.plan, wave, at.nextIdx);
      WaveAnswer(j, wave, front, at);
      LedgerHolds(j, wave, front, idx, at.w);
      TurnAnswer(j, idx, WaveUnder(j, wave, front, at), k, at.w.answer);
    }
  }

  lemma TurnAnswer(j: Job, idx: map<Key, nat>, c: Config, k: Key, a0: string)
    requires Retriable(j) && AnswersComeWithSuccess(j.env, j.plan) && AnswerAccounted(j, a0, c)
    requires forall x :: x in c.pcs ==> x in j.plan.nodes && Possible(j.plan.nodes[x], c.pcs[x])
    ensures AnswerAccounted(j, a0, Turn(j, idx, c, k))
  {
    if k in c.pcs {
      var c' := Turn(j, idx, c, k);
      StepCarries(j.env, j.max, j.plan.nodes[k], if k in idx then idx[k] else 0, c.pcs[k], c.w);
      if x :| x in c.pcs && Carries(j.env, j.plan.nodes[x], c.pcs[x]) {
        assert x in c'.pcs && Carries(j.env, j.plan.nodes[x], c'.pcs[x]);
      } else if c'.w.answer != c.w.answer {
        assert k in c'.pcs && Carries(j.env, j.plan.nodes[k], c'.pcs[k]);
      }
    }
  }

  /** If the request has an answer, some merged block holds one. */
  ghost predicate AnswerHeld(j: Job, reach: set<Key>, at: Progress) {
    at.w.answer == "" || exists k :: k in at.blocks && Merges(j.plan, reach, k) && at.blocks[k].answer != ""
  }

  lemma WaveAnswerHeld(j: Job, reach: set<Key>, wave: seq<Key>, sched: seq<Key>, at: Progress)
    requires WaveHeld(j.plan, wave) && Distinct(wave) && Retriable(j) && AnswersComeWithSuccess(j.env, j.plan)
    requires Complete(WaveUnder(j, wave, sched, at)) && AnswerHeld(j, reach, at)
    requires forall k :: k in wave ==> k in reach && k !in at.blocks
    ensures AnswerHeld(j, reach, AfterWave(j, wave, sched, at))
  {
    var c, next := WaveUnder(j, wave, sched, at), AfterWave(j, wave, sched, at);
    WaveAnswer(j, wave, sched, at);
    LedgerHolds(j, wave, sched, WaveIdx(j.plan, wave, at.nextIdx), at.w);
    if next.w.answer != "" {
      if c.w.answer == at.w.answer {
        var k :| k in at.blocks && Merges(j.plan, reach, k) && at.blocks[k].answer != "";
        assert k !in wave && k !in c.pcs;
        assert next.blocks[k] == at.blocks[k];
      } else {
        var k :| k in c.pcs && k in j.plan.nodes && Carries(j.env, j.plan.nodes[k], c.pcs[k]);
        assert next.blocks[k] == c.pcs[k].block && k in wave;
      }
    }
  }

  lemma {:induction false} RunAnswerHeld(j: Job, reach: set<Key>, layers: seq<seq<Key>>, scheds: seq<seq<Key>>,
          at: Progress)
    requires AllHeld(j.plan, layers) && Retriable(j) && AnswersComeWithSuccess(j.env, j.plan)
    requires Finishes(j, layers, scheds, at) && AnswerHeld(j, reach, at)
    requires DisjointWaves(layers, at.blocks.Keys) && forall i, k :: 0 <= i < |layers| && k in layers[i] ==> k in reach
    ensures AnswerHeld(j, reach, RunUnder(j, layers, scheds, at))
    decreases |layers|
  {
    if layers != [] && at.w.steps < j.max {
      var wave, rest := layers[0], layers[1..];
      var next := AfterWave(j, wave, scheds[0], at);
      KeysStay(j, WaveIdx(j.plan, wave, at.nextIdx), Launch(wave, at.w), scheds[0]);
      assert Launch(wave, at.w).pcs.Keys == Elements(wave);
      forall k | k in wave
        ensures k in reach && k !in at.blocks
      {
        assert k in layers[0];
      }
      WaveAnswerHeld(j, reach, wave, scheds[0], at);
      TailDisjoint(layers, at.blocks.Keys);
      assert next.blocks.Keys == at.blocks.Keys + Elements(wave);
      forall i, k | 0 <= i < |rest| && k in rest[i]
        ensures k in reach
      {
        assert k in layers[i + 1];
      }
      RunAnswerHeld(j, reach, rest, scheds[1..], next);
    }
  }

  lemma TailDisjoint(layers: seq<seq<Key>>, done: set<Key>)
    requires layers != [] && DisjointWaves(layers, done)
    ensures DisjointWaves(layers[1..], done + Elements(layers[0]))
  {
    var rest := layers[1..];
    forall i, k | 0 <= i < |rest| && k in rest[i]
      ensures k !in done + Elements(layers[0])
    {
      assert k in layers[i + 1];
    }
    forall h, i, k | 0 <= h < i < |rest| && k in rest[h]
      ensures k !in rest[i]
    {
      assert k in layers[h + 1];
    }
  }

  lemma {:induction false} AnswerIsPicked(j: Job, reach: set<Key>, blocks: map<Key, Block>, order: seq<Key>, a: string,
          b: string, k: Key)
    requires k in order && k in blocks && Merges(j.plan, reach, k) && blocks[k].answer != ""
    ensures LastAnswer(j, reach, blocks, order, a) == LastAnswer(j, reach, blocks, order, b)
  {
    var front, last := order[..|order| - 1], order[|order| - 1];
    if !(Merges(j.plan, reach, last) && BlockAt(blocks, last).answer != "") {
      assert k in front;
      AnswerIsPicked(j, reach, blocks, front, a, b, k);
    }
  }

  lemma {:induction false} MergeUntimed(j: Job, j': Job, reach: set<Key>, blocks: map<Key, Block>, order: seq<Key>,
          answer: string)
    requires OwnClock(j.env, j'.env) && j' == j.(env := j'.env)
    ensures FoldOrder(j', reach, blocks, order) == FoldOrder(j, reach, blocks, order)
    ensures LastAnswer(j', reach, blocks, order, answer) == LastAnswer(j, reach, blocks, order, answer)
  {
    if order != [] {
      MergeUntimed(j, j', reach, blocks, order[..|order| - 1], answer);
    }
  }

  lemma SameAssembly(j: Job, j': Job, reach: set<Key>, at: Progress, at': Progress)
    requires OwnClock(j.env, j'.env) && j' == j.(env := j'.env)
    requires at.blocks == at'.blocks && at.w.steps == at'.w.steps
    requires AnswerHeld(j, reach, at) && AnswerHeld(j', reach, at') && reach <= Elements(j.plan.order)
    ensures Assemble(j, reach, at) == Assemble(j', reach, at')
  {
    MergeUntimed(j, j', reach, at.blocks, j.plan.order, at'.w.answer);
    if k :| k in at.blocks && Merges(j.plan, reach, k) && at.blocks[k].answer != "" {
      AnswerIsPicked(j, reach, at.blocks, j.plan.order, at.w.answer, at'.w.answer, k);
    } else {
      assert at.w.answer == "" && at'.w.answer == "";
    }
  }

  // --- The theorem ------------------------------------------------------------------------------------

  lemma SameDrivers(j: Job, j': Job)
    requires OwnClock(j.env, j'.env) && j' == j.(env := j'.env)
    ensures AnswersComeWithSuccess(j.env, j.plan) ==> AnswersComeWithSuccess(j'.env, j'.plan)
    ensures Retriable(j) ==> Retriable(j')
  {
    if AnswersComeWithSuccess(j.env, j.plan) {
      forall k | k in j.plan.nodes
        ensures AnswersHonestly(j'.env, j.plan.nodes[k])
      {
        assert AnswersHonestly(j.env, j.plan.nodes[k]);
      }
    }
  }

  lemma AcceptedRunsAgree(c: Chain, j: Job, j': Job, s: seq<seq<Key>>, t: seq<seq<Key>>, breaker: Breaker)
    requires Accepts(c) && PlanOf(c) == Some(j.plan) && PlanShape(j.plan)
    requires OwnClock(j.env, j'.env) && j' == j.(env := j'.env)
    requires j' == j || Untimed(j, AllWaves(j.plan), FreshWalk(breaker))
    requires RunCost(j) <= j.max && WavesSeparate(j.plan, AllWaves(j.plan))
    requires Finishes(j, AllWaves(j.plan), s, Origin(breaker)) && Finishes(j', AllWaves(j.plan), t, Origin(breaker))
    ensures var end := RunUnder(j, AllWaves(j.plan), s, Origin(breaker));
            var end' := RunUnder(j', AllWaves(j.plan), t, Origin(breaker));
            end.blocks == end'.blocks && end.w.steps == end'.w.steps
  {
    AcceptedRetriable(c, j);
    FlattenHeld(j.plan, AllWaves(j.plan));
    RunsAgree(j, j', AllWaves(j.plan), s, t, Origin(breaker), Origin(breaker));
  }

  lemma AcceptedAnswerHeld(c: Chain, j: Job, s: seq<seq<Key>>, breaker: Breaker)
    requires Accepts(c) && PlanOf(c) == Some(j.plan) && PlanShape(j.plan) && Retriable(j)
    requires AnswersComeWithSuccess(j.env, j.plan) && Finishes(j, AllWaves(j.plan), s, Origin(breaker))
    ensures AnswerHeld(j, NeutralReach(j.plan), RunUnder(j, AllWaves(j.plan), s, Origin(breaker)))
  {
    var layers := AllWaves(j.plan);
    WavesAreTopological(c, j.plan);
    forall i, k | 0 <= i < |layers| && k in layers[i]
      ensures k in NeutralReach(j.plan)
    {
      assert InSomeWave(layers, k);
    }
    assert Origin(breaker).blocks.Keys == {};
    RunAnswerHeld(j, NeutralReach(j.plan), layers, s, Origin(breaker));
  }

  /** On an accepted chain whose waves share no provider instance, with a budget that covers
      every retry and answers that come only with success, any two interleavings of the
      branches give the same output: rows, merge statistics, providers, answer, status,
      error and step count. Each run may read a clock of its own if no instance is in a
      cooldown when it starts and, unless the breaker is off, no two waves share one. */
  lemma ParallelIsConfluent(c: Chain, j: Job, j': Job, s: seq<seq<Key>>, t: seq<seq<Key>>, breaker: Breaker)
    requires Accepts(c) && PlanOf(c) == Some(j.plan) && PlanShape(j.plan)
    requires OwnClock(j.env, j'.env) && j' == j.(env := j'.env)
    requires j' == j || Untimed(j, AllWaves(j.plan), FreshWalk(breaker))
    requires RunCost(j) <= j.max && WavesSeparate(j.plan, AllWaves(j.plan)) && AnswersComeWithSuccess(j.env, j.plan)
    requires Finishes(j, AllWaves(j.plan), s, Origin(breaker)) && Finishes(j', AllWaves(j.plan), t, Origin(breaker))
    ensures OutputUnder(j, s, breaker) == OutputUnder(j', t, breaker)
  {
    var layers, at := AllWaves(j.plan), Origin(breaker);
    AcceptedRunsAgree(c, j, j', s, t, breaker);
    AcceptedRetriable(c, j);
    AcceptedReach(c, j.plan);
    SameDrivers(j, j');
    AcceptedAnswerHeld(c, j, s, breaker);
    AcceptedAnswerHeld(c, j', t, breaker);
    SameAssembly(j, j', NeutralReach(j.plan), RunUnder(j, layers, s, at), RunUnder(j', layers, t, at));
  }

  /** In particular every interleaving gives what running each wave in plan order gives. */
  lemma ParallelIsSequential(c: Chain, j: Job, j': Job, s: seq<seq<Key>>, breaker: Breaker)
    requires Accepts(c) && PlanOf(c) == Some(j.plan) && PlanShape(j.plan)
    requires OwnClock(j.env, j'.env) && j' == j.(env := j'.env)
    requires j' == j || Untimed(j, AllWaves(j.plan), FreshWalk(breaker))
    requires RunCost(j) <= j.max && WavesSeparate(j.plan, AllWaves(j.plan)) && AnswersComeWithSuccess(j.env, j.plan)
    requires Finishes(j, AllWaves(j.plan), s, Origin(breaker))
    ensures OutputUnder(j, s, breaker) == FullChainOutput(j', breaker)
  {
    var t := SequentialRun(j', AllWaves(j.plan), Origin(breaker));
    ParallelIsConfluent(c, j, j', s, t, breaker);
  }
}

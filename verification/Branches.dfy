/** Sibling blocks of a wave as concurrent branches: each branch is a program counter over
    the atomic accesses the code makes to shared state, and a schedule is any sequence of
    turns. */
module Branches {
  import opened Graph
  import opened Chains
  import opened Plans
  import opened Cooldown
  import opened Walks
  import opened FullChain

  datatype Pc =
    | AtResolve
    | AtCooldown
    | AtTake(a: nat, last: Result, attempted: bool)
    | AtAnswer(a: nat)
    | AtObserve(a: nat)
    | AtStages(a: nat)
    | AtDecide(a: nat)
    | Finished(block: Block)

  const SKIPPED := Block(SkipStatus, [], NO_RESULT, "")

  /** The loop head of the attempt loop. */
  function Attempt(n: Node, a: nat, last: Result, attempted: bool): Pc {
    if a >= n.retries + 1 then Finished(BlockOf(n, NodeRun([], false, last, attempted))) else AtTake(a, last, attempted)
  }

  /** One atomic access of one branch. */
  function BranchStep(env: Env, max: int, n: Node, idx: nat, pc: Pc, w: Walk): (Pc, Walk) {
    match pc
    case AtResolve =>
      if !IsProvider(n) then (Finished(Block(OkStatus, [], NO_RESULT, "")), w)
      else if env.unconfigured(n.providerId) || n.providerId in w.dead then (Finished(SKIPPED), Skipped(n, idx, w))
      else (AtCooldown, w)
    case AtCooldown =>
      var (breaker, blocked) := Blocked(w.breaker, n.providerId, env.resolvedAt(n.key));
      var w1 := w.(breaker := breaker);
      if blocked || env.unknownDriver(n.providerId) then (Finished(SKIPPED), Skipped(n, idx, w1))
      else (Attempt(n, 0, NO_RESULT, false), w1)
    case AtTake(a, last, attempted) =>
      if w.steps >= max then (Finished(BlockOf(n, NodeRun([], false, last, attempted))), w)
      else (AtAnswer(a), w.(steps := w.steps + 1))
    case AtAnswer(a) => (AtObserve(a), WriteAnswer(n, env.call(n.key, a), w))
    case AtObserve(a) => (AtStages(a), Settle(env, n, idx, a, env.call(n.key, a), w))
    case AtStages(a) => (AtDecide(a), w.(steps := w.steps + Extra(env.call(n.key, a))))
    case AtDecide(a) =>
      var r := env.call(n.key, a);
      if Wins(env, n, r) then (Finished(BlockOf(n, NodeRun(StepRows(env, n, r), true, r, true))), w)
      else if r.permanent
      then (Finished(BlockOf(n, NodeRun([], false, r, true))), w.(dead := w.dead + {n.providerId}))
      else (Attempt(n, a + 1, r, true), w)
    case Finished(_) => (pc, w)
  }

  /** Turns a branch has left, at most. */
  function Rank(n: Node, pc: Pc): nat {
    match pc
    case AtResolve => AttemptRank(n, 0) + 2
    case AtCooldown => AttemptRank(n, 0) + 1
    case AtTake(a, _, _) => AttemptRank(n, a)
    case AtAnswer(a) => AttemptRank(n, a) - 1
    case AtObserve(a) => AttemptRank(n, a) - 2
    case AtStages(a) => AttemptRank(n, a) - 3
    case AtDecide(a) => AttemptRank(n, a) - 4
    case Finished(_) => 0
  }

  function AttemptRank(n: Node, a: nat): (r: nat)
    ensures r >= 6
  {
    if a < n.retries + 1 then 6 * (n.retries + 1 - a) else 6
  }

  lemma StepLowersRank(env: Env, max: int, n: Node, idx: nat, pc: Pc, w: Walk)
    requires !pc.Finished?
    ensures Rank(n, BranchStep(env, max, n, idx, pc, w).0) < Rank(n, pc)
  {
  }

  // --- A branch alone is the sequential block ------------------------------------------

  function Solo(env: Env, max: int, n: Node, idx: nat, pc: Pc, w: Walk): (Block, Walk)
    decreases Rank(n, pc)
  {
    if pc.Finished? then (pc.block, w)
    else
      StepLowersRank(env, max, n, idx, pc, w);
      var (pc', w') := BranchStep(env, max, n, idx, pc, w);
      Solo(env, max, n, idx, pc', w')
  }

  lemma SoloOneAttempt(env: Env, max: int, n: Node, idx: nat, a: nat, last: Result, attempted: bool, w: Walk)
    requires w.steps < max
    ensures Solo(env, max, n, idx, AtTake(a, last, attempted), w) ==
      Solo(env, max, n, idx, AtDecide(a), AfterCall(env, n, idx, a, w))
  {
    var r := env.call(n.key, a);
    var w1 := w.(steps := w.steps + 1);
    var w2 := WriteAnswer(n, r, w1);
    var w3 := Settle(env, n, idx, a, r, w2);
    var w4 := w3.(steps := w3.steps + Extra(r));
    assert Solo(env, max, n, idx, AtTake(a, last, attempted), w) == Solo(env, max, n, idx, AtAnswer(a), w1);
    assert Solo(env, max, n, idx, AtAnswer(a), w1) == Solo(env, max, n, idx, AtObserve(a), w2);
    assert Solo(env, max, n, idx, AtObserve(a), w2) == Solo(env, max, n, idx, AtStages(a), w3);
    assert Solo(env, max, n, idx, AtStages(a), w3) == Solo(env, max, n, idx, AtDecide(a), w4);
  }

  lemma {:induction false} SoloIsExec(env: Env, max: int, n: Node, idx: nat, a: nat, last: Result, attempted: bool,
          w: Walk)
    ensures var (run, w') := ExecFrom(env, max, n, idx, a, w, last, attempted);
            Solo(env, max, n, idx, Attempt(n, a, last, attempted), w) == (BlockOf(n, run), w')
    decreases n.retries + 1 - a
  {
    if a < n.retries + 1 && w.steps < max {
      SoloOneAttempt(env, max, n, idx, a, last, attempted, w);
      var r := env.call(n.key, a);
      if !Wins(env, n, r) && !r.permanent {
        SoloIsExec(env, max, n, idx, a + 1, r, true, AfterCall(env, n, idx, a, w));
      }
    }
  }

  lemma SoloIsProcess(env: Env, max: int, n: Node, idx: nat, w: Walk)
    ensures Solo(env, max, n, idx, AtResolve, w) == Process(env, max, n, idx, w)
  {
    if IsProvider(n) && !env.unconfigured(n.providerId) && n.providerId !in w.dead {
      var (breaker, blocked) := Blocked(w.breaker, n.providerId, env.resolvedAt(n.key));
      var w1 := w.(breaker := breaker);
      assert Solo(env, max, n, idx, AtResolve, w) == Solo(env, max, n, idx, AtCooldown, w);
      SoloIsExec(env, max, n, idx, 0, NO_RESULT, false, w1);
    }
  }

  // --- Interleavings -----------------------------------------------------------------------

  datatype Config = Config(w: Walk, pcs: map<Key, Pc>)

  function Turn(j: Job, idx: map<Key, nat>, c: Config, k: Key): Config {
    if k in c.pcs && k in j.plan.nodes then
      var (pc, w) := BranchStep(j.env, j.max, j.plan.nodes[k], if k in idx then idx[k] else 0, c.pcs[k], c.w);
      Config(w, c.pcs[k := pc])
    else c
  }

  function Interleave(j: Job, idx: map<Key, nat>, c: Config, sched: seq<Key>): Config {
    if sched == [] then c
    else Turn(j, idx, Interleave(j, idx, c, sched[..|sched| - 1]), sched[|sched| - 1])
  }

  function Launch(wave: seq<Key>, w: Walk): Config {
    Config(w, map k | k in wave :: AtResolve)
  }

  predicate Complete(c: Config) {
    forall k :: k in c.pcs ==> c.pcs[k].Finished?
  }

  function BlocksOf(c: Config): map<Key, Block>
    requires Complete(c)
  {
    map k | k in c.pcs :: c.pcs[k].block
  }

  function WaveIdx(p: Plan, wave: seq<Key>, nextIdx: nat): map<Key, nat>
    requires WaveHeld(p, wave)
  {
    if wave == [] then map[]
    else
      var front := wave[..|wave| - 1];
      WaveIdx(p, front, nextIdx)[wave[|wave| - 1] := nextIdx + ProviderCount(p, front)]
  }

  /** The configuration a schedule brings one wave to. */
  function WaveUnder(j: Job, wave: seq<Key>, sched: seq<Key>, at: Progress): Config
    requires WaveHeld(j.plan, wave)
  {
    Interleave(j, WaveIdx(j.plan, wave, at.nextIdx), Launch(wave, at.w), sched)
  }

  function AfterWave(j: Job, wave: seq<Key>, sched: seq<Key>, at: Progress): Progress
    requires WaveHeld(j.plan, wave) && Complete(WaveUnder(j, wave, sched, at))
  {
    var c := WaveUnder(j, wave, sched, at);
    Progress(c.w, at.blocks + BlocksOf(c), at.nextIdx + ProviderCount(j.plan, wave))
  }

  /** A run of the executor: a completing schedule for every wave the budget lets start. */
  predicate Finishes(j: Job, layers: seq<seq<Key>>, scheds: seq<seq<Key>>, at: Progress)
    requires AllHeld(j.plan, layers)
  {
    layers == [] || at.w.steps >= j.max ||
    (scheds != [] && Complete(WaveUnder(j, layers[0], scheds[0], at)) &&
     Finishes(j, layers[1..], scheds[1..], AfterWave(j, layers[0], scheds[0], at)))
  }

  function RunUnder(j: Job, layers: seq<seq<Key>>, scheds: seq<seq<Key>>, at: Progress): Progress
    requires AllHeld(j.plan, layers) && Finishes(j, layers, scheds, at)
  {
    if layers == [] || at.w.steps >= j.max then at
    else RunUnder(j, layers[1..], scheds[1..], AfterWave(j, layers[0], scheds[0], at))
  }

  /** What a whole run returns under the given schedules. */
  ghost function OutputUnder(j: Job, scheds: seq<seq<Key>>, breaker: Breaker): Output
    requires PlanShape(j.plan) && Finishes(j, AllWaves(j.plan), scheds, Origin(breaker))
  {
    Assemble(j, NeutralReach(j.plan), RunUnder(j, AllWaves(j.plan), scheds, Origin(breaker)))
  }

  lemma {:induction false} InterleaveAppend(j: Job, idx: map<Key, nat>, c: Config, s: seq<Key>, t: seq<Key>)
    ensures Interleave(j, idx, c, s + t) == Interleave(j, idx, Interleave(j, idx, c, s), t)
  {
    if t == [] {
      assert s + t == s;
    } else {
      var front := t[..|t| - 1];
      InterleaveAppend(j, idx, c, s, front);
      InterleaveSnoc(j, idx, c, s + front, t[|t| - 1]);
      assert s + t == s + front + [t[|t| - 1]];
    }
  }

  lemma InterleaveSnoc(j: Job, idx: map<Key, nat>, c: Config, s: seq<Key>, k: Key)
    ensures Interleave(j, idx, c, s + [k]) == Turn(j, idx, Interleave(j, idx, c, s), k)
  {
    assert (s + [k])[..|s|] == s;
  }

  lemma {:induction false} KeysStay(j: Job, idx: map<Key, nat>, c: Config, sched: seq<Key>)
    ensures Interleave(j, idx, c, sched).pcs.Keys == c.pcs.Keys
  {
    if sched != [] {
      KeysStay(j, idx, c, sched[..|sched| - 1]);
    }
  }

  // --- Running the branches one after the other is one of the schedules -----------------------

  lemma SoloSchedule(j: Job, idx: map<Key, nat>, c: Config, k: Key) returns (sched: seq<Key>)
    requires k in c.pcs && k in j.plan.nodes && k in idx
    ensures var (block, w) := Solo(j.env, j.max, j.plan.nodes[k], idx[k], c.pcs[k], c.w);
            Interleave(j, idx, c, sched) == Config(w, c.pcs[k := Finished(block)])
    decreases Rank(j.plan.nodes[k], c.pcs[k])
  {
    if c.pcs[k].Finished? {
      sched := [];
      assert c.pcs[k := c.pcs[k]] == c.pcs;
    } else {
      var n := j.plan.nodes[k];
      StepLowersRank(j.env, j.max, n, idx[k], c.pcs[k], c.w);
      var c1 := Turn(j, idx, c, k);
      var rest := SoloSchedule(j, idx, c1, k);
      sched := [k] + rest;
      InterleaveAppend(j, idx, c, [k], rest);
      assert [k][..0] == [];
      assert Interleave(j, idx, c, [k]) == c1;
      var (block, w) := Solo(j.env, j.max, n, idx[k], c.pcs[k], c.w);
      assert c1.pcs[k := Finished(block)] == c.pcs[k := Finished(block)];
    }
  }

  lemma {:induction false} WaveIdxAt(p: Plan, wave: seq<Key>, nextIdx: nat, i: nat)
    requires WaveHeld(p, wave) && Distinct(wave) && i < |wave|
    ensures wave[i] in WaveIdx(p, wave, nextIdx)
    ensures WaveIdx(p, wave, nextIdx)[wave[i]] == nextIdx + ProviderCount(p, wave[..i])
  {
    var front := wave[..|wave| - 1];
    if i < |front| {
      WaveIdxAt(p, front, nextIdx, i);
      assert front[..i] == wave[..i] && front[i] == wave[i];
    }
  }

  function PartWayPcs(wave: seq<Key>, i: nat, blocks: map<Key, Block>): map<Key, Pc>
    requires i <= |wave| && forall k :: k in wave[..i] ==> k in blocks
  {
    map k | k in wave :: if k in wave[..i] then Finished(blocks[k]) else AtResolve
  }

  /** After the first i branches of a wave have run to their end one by one. */
  ghost function PartWay(j: Job, wave: seq<Key>, i: nat, at: Progress): Config
    requires WaveHeld(j.plan, wave) && i <= |wave|
  {
    var done := RunWave(j, wave[..i], at);
    WaveIndices(j, wave[..i], at);
    Config(done.w, PartWayPcs(wave, i, done.blocks))
  }

  lemma PartWayPcsStep(wave: seq<Key>, i: nat, blocks: map<Key, Block>, b: Block)
    requires Distinct(wave) && i < |wave| && forall k :: k in wave[..i] ==> k in blocks
    ensures forall k {:trigger k in blocks} :: k in wave[..i + 1] ==> k in blocks[wave[i] := b]
    ensures PartWayPcs(wave, i + 1, blocks[wave[i] := b]) == PartWayPcs(wave, i, blocks)[wave[i] := Finished(b)]
    ensures PartWayPcs(wave, i, blocks)[wave[i]] == AtResolve
  {
    assert wave[..i + 1] == wave[..i] + [wave[i]];
    assert wave[i] !in wave[..i];
  }

  lemma RunWaveStep(j: Job, wave: seq<Key>, i: nat, at: Progress)
    requires WaveHeld(j.plan, wave) && i < |wave|
    ensures RunWave(j, wave[..i + 1], at) == ProcessOne(j, wave[i], RunWave(j, wave[..i], at))
  {
    assert wave[..i + 1][..i] == wave[..i];
  }

  lemma SoloIsOne(j: Job, k: Key, at: Progress)
    requires k in j.plan.nodes
    ensures var next := ProcessOne(j, k, at);
            && next.blocks == at.blocks[k := next.blocks[k]]
            && Solo(j.env, j.max, j.plan.nodes[k], at.nextIdx, AtResolve, at.w) == (next.blocks[k], next.w)
  {
    SoloIsProcess(j.env, j.max, j.plan.nodes[k], at.nextIdx, at.w);
  }

  lemma PartWayStep(j: Job, wave: seq<Key>, i: nat, at: Progress)
    requires WaveHeld(j.plan, wave) && Distinct(wave) && i < |wave|
    ensures var next := RunWave(j, wave[..i + 1], at);
            && PartWay(j, wave, i, at).pcs[wave[i]] == AtResolve
            && wave[i] in next.blocks
            && PartWay(j, wave, i + 1, at) ==
               Config(next.w, PartWay(j, wave, i, at).pcs[wave[i] := Finished(next.blocks[wave[i]])])
  {
    WaveIndices(j, wave[..i], at);
    RunWaveStep(j, wave, i, at);
    SoloIsOne(j, wave[i], RunWave(j, wave[..i], at));
    PartWayPcsStep(wave, i, RunWave(j, wave[..i], at).blocks, RunWave(j, wave[..i + 1], at).blocks[wave[i]]);
  }

  lemma OneMoreBranch(j: Job, wave: seq<Key>, i: nat, at: Progress) returns (more: seq<Key>)
    requires WaveHeld(j.plan, wave) && Distinct(wave) && i < |wave|
    ensures Interleave(j, WaveIdx(j.plan, wave, at.nextIdx), PartWay(j, wave, i, at), more) ==
      PartWay(j, wave, i + 1, at)
  {
    var k, idx, c := wave[i], WaveIdx(j.plan, wave, at.nextIdx), PartWay(j, wave, i, at);
    var done, next := RunWave(j, wave[..i], at), RunWave(j, wave[..i + 1], at);
    PartWayStep(j, wave, i, at);
    WaveIdxAt(j.plan, wave, at.nextIdx, i);
    WaveIndices(j, wave[..i], at);
    RunWaveStep(j, wave, i, at);
    SoloIsOne(j, k, done);
    assert idx[k] == done.nextIdx && c.pcs[k] == AtResolve && c.w == done.w;
    assert Solo(j.env, j.max, j.plan.nodes[k], idx[k], c.pcs[k], c.w) == (next.blocks[k], next.w);
    more := SoloSchedule(j, idx, c, k);
  }

  lemma SequentialSchedule(j: Job, wave: seq<Key>, i: nat, at: Progress) returns (sched: seq<Key>)
    requires WaveHeld(j.plan, wave) && Distinct(wave) && i <= |wave|
    ensures WaveUnder(j, wave, sched, at) == PartWay(j, wave, i, at)
  {
    if i == 0 {
      sched := [];
      assert wave[..0] == [];
      assert WaveUnder(j, wave, sched, at).pcs == PartWay(j, wave, 0, at).pcs;
    } else {
      var before := SequentialSchedule(j, wave, i - 1, at);
      var more := OneMoreBranch(j, wave, i - 1, at);
      sched := before + more;
      InterleaveAppend(j, WaveIdx(j.plan, wave, at.nextIdx), Launch(wave, at.w), before, more);
    }
  }

  lemma WholeWave(j: Job, wave: seq<Key>, at: Progress)
    requires WaveHeld(j.plan, wave)
    ensures Complete(PartWay(j, wave, |wave|, at))
    ensures PartWay(j, wave, |wave|, at).w == RunWave(j, wave, at).w
    ensures at.blocks + BlocksOf(PartWay(j, wave, |wave|, at)) == RunWave(j, wave, at).blocks
    ensures RunWave(j, wave, at).nextIdx == at.nextIdx + ProviderCount(j.plan, wave)
  {
    assert wave[..|wave|] == wave;
    WaveIndices(j, wave, at);
    RunWaveKeeps(j, wave, at);
  }

  /** The executor that runs each wave in plan order is a run under some schedules. */
  lemma SequentialRun(j: Job, layers: seq<seq<Key>>, at: Progress) returns (scheds: seq<seq<Key>>)
    requires AllHeld(j.plan, layers) && forall i :: 0 <= i < |layers| ==> Distinct(layers[i])
    ensures Finishes(j, layers, scheds, at) && RunUnder(j, layers, scheds, at) == RunLayers(j, layers, at)
    decreases |layers|
  {
    if layers == [] || at.w.steps >= j.max {
      scheds := [];
    } else {
      var wave := layers[0];
      var first := SequentialSchedule(j, wave, |wave|, at);
      WholeWave(j, wave, at);
      var next := RunWave(j, wave, at);
      assert AfterWave(j, wave, first, at) == next;
      var rest := SequentialRun(j, layers[1..], next);
      scheds := [first] + rest;
    }
  }

  lemma {:induction false} RunWaveKeeps(j: Job, wave: seq<Key>, at: Progress)
    requires WaveHeld(j.plan, wave)
    ensures forall k :: k in at.blocks && k !in wave ==>
      k in RunWave(j, wave, at).blocks && RunWave(j, wave, at).blocks[k] == at.blocks[k]
  {
    if wave != [] {
      RunWaveKeeps(j, wave[..|wave| - 1], at);
      assert wave == wave[..|wave| - 1] + [wave[|wave| - 1]];
    }
  }

  /** From any configuration every branch can still run to its end: nothing deadlocks. */
  lemma CanComplete(j: Job, idx: map<Key, nat>, c: Config, todo: set<Key>) returns (sched: seq<Key>)
    requires todo <= c.pcs.Keys && forall k :: k in c.pcs ==> k in j.plan.nodes && k in idx
    requires forall k :: k in c.pcs && k !in todo ==> c.pcs[k].Finished?
    ensures Complete(Interleave(j, idx, c, sched))
    decreases todo
  {
    if todo == {} {
      sched := [];
    } else {
      var k :| k in todo;
      var first := SoloSchedule(j, idx, c, k);
      var rest := CanComplete(j, idx, Interleave(j, idx, c, first), todo - {k});
      InterleaveAppend(j, idx, c, first, rest);
      sched := first + rest;
    }
  }

  // --- A wave with one provider block has one outcome -------------------------------------------

  const PASSED := Block(OkStatus, [], NO_RESULT, "")

  /** The wave holds one provider block at most. */
  ghost predicate SoleProvider(p: Plan, wave: seq<Key>)
    requires WaveHeld(p, wave)
  {
    forall x, y :: x in wave && y in wave && IsProvider(p.nodes[x]) && IsProvider(p.nodes[y]) ==> x == y
  }

  function IndexIn(idx: map<Key, nat>, k: Key): nat {
    if k in idx then idx[k] else 0
  }

  /** What block k of a configuration ends with if it alone goes on. */
  function EndOf(j: Job, idx: map<Key, nat>, c: Config, k: Key): (Block, Walk)
    requires k in j.plan.nodes && k in c.pcs
  {
    Solo(j.env, j.max, j.plan.nodes[k], IndexIn(idx, k), c.pcs[k], c.w)
  }

  /** A configuration on the way from the launch: logical blocks have done nothing, and the
      provider block ends as if it had run alone. */
  ghost predicate OnTheWay(j: Job, wave: seq<Key>, idx: map<Key, nat>, w0: Walk, c: Config)
    requires WaveHeld(j.plan, wave)
  {
    && c.pcs.Keys == Elements(wave)
    && (forall x :: x in c.pcs && x in j.plan.nodes && !IsProvider(j.plan.nodes[x]) ==>
       c.pcs[x] == AtResolve || c.pcs[x] == Finished(PASSED))
    && (forall x :: x in c.pcs && x in j.plan.nodes && IsProvider(j.plan.nodes[x]) ==>
       EndOf(j, idx, c, x) == EndOf(j, idx, Launch(wave, w0), x))
    && ((forall x :: x in wave ==> !IsProvider(j.plan.nodes[x])) ==> c.w == w0)
  }

  lemma LogicalTurn(j: Job, idx: map<Key, nat>, c: Config, k: Key)
    requires k in c.pcs && k in j.plan.nodes && !IsProvider(j.plan.nodes[k])
    requires c.pcs[k] == AtResolve || c.pcs[k] == Finished(PASSED)
    ensures Turn(j, idx, c, k) == Config(c.w, c.pcs[k := Finished(PASSED)])
  {
  }

  lemma ProviderTurn(j: Job, idx: map<Key, nat>, c: Config, k: Key)
    requires k in c.pcs && k in j.plan.nodes
    ensures k in Turn(j, idx, c, k).pcs && EndOf(j, idx, Turn(j, idx, c, k), k) == EndOf(j, idx, c, k)
    ensures Turn(j, idx, c, k).pcs == c.pcs[k := Turn(j, idx, c, k).pcs[k]]
  {
    if !c.pcs[k].Finished? {
      StepLowersRank(j.env, j.max, j.plan.nodes[k], IndexIn(idx, k), c.pcs[k], c.w);
    }
  }

  lemma TurnOnTheWay(j: Job, wave: seq<Key>, idx: map<Key, nat>, w0: Walk, c: Config, k: Key)
    requires WaveHeld(j.plan, wave) && SoleProvider(j.plan, wave) && OnTheWay(j, wave, idx, w0, c)
    ensures OnTheWay(j, wave, idx, w0, Turn(j, idx, c, k))
  {
    if k in c.pcs && k in j.plan.nodes {
      assert k in wave;
      if IsProvider(j.plan.nodes[k]) {
        ProviderTurn(j, idx, c, k);
      } else {
        LogicalTurn(j, idx, c, k);
      }
    }
  }

  lemma {:induction false} AlwaysOnTheWay(j: Job, wave: seq<Key>, idx: map<Key, nat>, w0: Walk, sched: seq<Key>)
    requires WaveHeld(j.plan, wave) && SoleProvider(j.plan, wave)
    ensures OnTheWay(j, wave, idx, w0, Interleave(j, idx, Launch(wave, w0), sched))
  {
    if sched == [] {
      assert Launch(wave, w0).pcs.Keys == Elements(wave);
    } else {
      var front := sched[..|sched| - 1];
      AlwaysOnTheWay(j, wave, idx, w0, front);
      TurnOnTheWay(j, wave, idx, w0, Interleave(j, idx, Launch(wave, w0), front), sched[|sched| - 1]);
    }
  }

  lemma CompleteAtEnd(j: Job, wave: seq<Key>, idx: map<Key, nat>, w0: Walk, c: Config, k: Key)
    requires WaveHeld(j.plan, wave) && OnTheWay(j, wave, idx, w0, c) && Complete(c) && k in wave
    ensures k in c.pcs && k in Launch(wave, w0).pcs
    ensures IsProvider(j.plan.nodes[k]) ==> (c.pcs[k].block, c.w) == EndOf(j, idx, Launch(wave, w0), k)
    ensures !IsProvider(j.plan.nodes[k]) ==> c.pcs[k].block == PASSED
  {
    assert k in Elements(wave);
  }

  /** Every completing schedule brings such a wave to the same configuration. */
  lemma OneOutcome(j: Job, wave: seq<Key>, idx: map<Key, nat>, w0: Walk, c: Config, c': Config)
    requires WaveHeld(j.plan, wave) && OnTheWay(j, wave, idx, w0, c) && OnTheWay(j, wave, idx, w0, c')
    requires Complete(c) && Complete(c')
    ensures c.w == c'.w && BlocksOf(c) == BlocksOf(c')
  {
    forall k | k in wave
      ensures k in c.pcs && k in c'.pcs && c.pcs[k].block == c'.pcs[k].block
      ensures IsProvider(j.plan.nodes[k]) ==> c.w == c'.w
    {
      CompleteAtEnd(j, wave, idx, w0, c, k);
      CompleteAtEnd(j, wave, idx, w0, c', k);
    }
  }

  lemma LoneWave(j: Job, wave: seq<Key>, sched: seq<Key>, at: Progress)
    requires WaveHeld(j.plan, wave) && Distinct(wave) && SoleProvider(j.plan, wave)
    requires Complete(WaveUnder(j, wave, sched, at))
    ensures AfterWave(j, wave, sched, at) == RunWave(j, wave, at)
  {
    var idx := WaveIdx(j.plan, wave, at.nextIdx);
    var inOrder := SequentialSchedule(j, wave, |wave|, at);
    WholeWave(j, wave, at);
    AlwaysOnTheWay(j, wave, idx, at.w, sched);
    AlwaysOnTheWay(j, wave, idx, at.w, inOrder);
    OneOutcome(j, wave, idx, at.w, WaveUnder(j, wave, sched, at), WaveUnder(j, wave, inOrder, at));
  }

  /** Waves with one provider block at most leave the schedule nothing to decide: every run
      of them, under any budget and for any drivers, ends as running them in plan order. */
  lemma LoneRun(j: Job, layers: seq<seq<Key>>, scheds: seq<seq<Key>>, at: Progress)
    requires AllHeld(j.plan, layers) && Finishes(j, layers, scheds, at)
    requires forall i :: 0 <= i < |layers| ==> Distinct(layers[i]) && SoleProvider(j.plan, layers[i])
    ensures RunUnder(j, layers, scheds, at) == RunLayers(j, layers, at)
    decreases |layers|
  {
    if layers != [] && at.w.steps < j.max {
      LoneWave(j, layers[0], scheds[0], at);
      LoneRun(j, layers[1..], scheds[1..], RunWave(j, layers[0], at));
    }
  }

  /** The plan-order run is among the runs, so it returns one of their outputs. */
  lemma PlanOrderRun(j: Job, breaker: Breaker) returns (scheds: seq<seq<Key>>)
    requires PlanShape(j.plan) && Distinct(j.plan.order)
    ensures Finishes(j, AllWaves(j.plan), scheds, Origin(breaker))
    ensures RunUnder(j, AllWaves(j.plan), scheds, Origin(breaker)) == WavesInOrder(j, breaker)
    ensures OutputUnder(j, scheds, breaker) == FullChainOutput(j, breaker)
  {
    LayersOrder(j.plan, NeutralReach(j.plan), {});
    scheds := SequentialRun(j, AllWaves(j.plan), Origin(breaker));
  }
}

/** The validator's warnings against the executors: the reachability warning names exactly
    the blocks the wave executor leaves out, and when the attempts it counts fit the budget
    no mode loses one of them. */
module Warnings {
  import opened Text
  import opened Graph
  import opened Chains
  import opened Validate
  import opened Plans
  import opened Cooldown
  import opened Walks
  import opened FullChain
  import opened Legacy
  import FS = FirstSuccess
  import Branches
  import Budget

  /** On an accepted full-chain chain a block lacks the "not reachable via next edges"
      warning exactly when it is in the executor's search set. */
  lemma WarnedIsSkipped(c: Chain, p: Plan, k: Key, maxAttempts: int)
    requires Accepts(c) && PlanOf(c) == Some(p) && EffectiveMode(c).FullChain? && k in p.nodes
    ensures MustWarn(c, maxAttempts, NotViaNext(k)) <==> k !in NeutralReach(p)
  {
    AcceptedReach(c, p);
    AcceptedIsWellFormed(c);
    PlanOfWellFormed(c);
    PlanIndex(c);
    assert p.nodes[k] in c.nodes;
  }

  // --- What the walkers may spend -----------------------------------------------------------

  /** A request on an accepted chain whose attempts fit the budget of the setting: there was
      no "may not finish" warning, and the setting is positive or the default is enough. */
  ghost predicate Provided(c: Chain, p: Plan, env: Env, setting: int) {
    Accepts(c) && PlanOf(c) == Some(p) && SingleCalls(env) && Budget.Fits(c, setting)
  }

  /** The blocks a walk can get to, closed under edges, with enough budget for all. */
  ghost predicate Roomy(p: Plan, room: set<Key>, max: int) {
    && PlanShape(p) && p.start in room && Attempts(p.nodes, room) <= max
    && (forall k :: k in p.nodes ==> p.nodes[k].retries >= 0)
    && (forall a, b :: (a, b) in AllArcs(p.edges) && a in room ==> b in room)
  }

  lemma ProvidedIsRoomy(c: Chain, p: Plan, env: Env, setting: int, max: int)
    requires Provided(c, p, env, setting) && max == Budget.BudgetOf(setting)
    ensures Roomy(p, ReachSet(AllArcs(p.edges), p.start), max)
    ensures Acyclic(AllArcs(p.edges))
  {
    var g := AllArcs(c.edges);
    AcceptedReach(c, p);
    AcceptedIsWellFormed(c);
    PlanOfWellFormed(c);
    Budget.AcceptedRetriable(c, FullChain.Job(env, p, max, 0));
    ReachesRefl(g, p.start);
    forall a, b | (a, b) in g && Reaches(g, p.start, a)
      ensures Reaches(g, p.start, b)
    {
      ReachesStep(g, p.start, a, b);
    }
  }

  lemma RoomForOne(p: Plan, room: set<Key>, max: int, visited: set<Key>, k: Key)
    requires Roomy(p, room, max) && visited <= room && k in room && k !in visited
    ensures 0 <= Attempts(p.nodes, visited) && Attempts(p.nodes, visited) + BlockAttempts(p.nodes, k) <= max
    ensures Attempts(p.nodes, visited + {k}) == Attempts(p.nodes, visited) + BlockAttempts(p.nodes, k)
  {
    assert visited + {k} - {k} == visited;
    AttemptsWithout(p.nodes, visited + {k}, k);
    AttemptsMonotone(p.nodes, visited + {k}, room);
    AttemptsMonotone(p.nodes, visited, room);
  }

  /** A block that has room for all its attempts runs as it would without a budget. */
  lemma BlockUnrefused(env: Env, max: int, more: int, n: Node, idx: nat, w: Walk)
    requires SingleCalls(env) && n.retries >= 0 && w.steps + n.retries + 1 <= max <= more
    ensures Exec(env, max, n, idx, w) == Exec(env, more, n, idx, w)
    ensures w.steps <= Exec(env, max, n, idx, w).1.steps <= w.steps + n.retries + 1
  {
    SingleCallCost(env, n.key, n.retries + 1);
    ExecUnrefused(env, max, more, n, idx, 0, w, NO_RESULT, false);
    ExecWithinCost(env, max, n, idx, 0, w, NO_RESULT, false);
  }

  // --- The linear walker -----------------------------------------------------------------------

  lemma VisitUnrefused(j: Job, more: int, n: Node, idx: nat, w: Walk, t: Tally)
    requires SingleCalls(j.env) && j.max <= more
    requires IsProvider(n) ==> n.retries >= 0 && w.steps + n.retries + 1 <= j.max
    ensures Visit(j, n, idx, w, t) == Visit(j.(max := more), n, idx, w, t)
    ensures Visit(j, n, idx, w, t).0.steps <= w.steps + if IsProvider(n) then n.retries + 1 else 0
  {
    if IsProvider(n) {
      var (skip, w1) := Resolve(j.env, n, w);
      assert w1.steps == w.steps;
      BlockUnrefused(j.env, j.max, more, n, idx, w1);
    }
  }

  lemma {:induction false} LegacyUnrefused(j: Job, more: int, room: set<Key>, visited: set<Key>, node: Option<Key>,
          idx: nat, w: Walk, t: Tally)
    requires Roomy(j.plan, room, j.max) && SingleCalls(j.env) && j.max <= more
    requires visited <= room && w.steps <= Attempts(j.plan.nodes, visited) && (node.Some? ==> node.value in room)
    ensures WalkFrom(j, visited, node, idx, w, t) == WalkFrom(j.(max := more), visited, node, idx, w, t)
    decreases j.plan.nodes.Keys - visited
  {
    if node.Some? && node.value !in visited && node.value in j.plan.nodes {
      var k := node.value;
      var n := j.plan.nodes[k];
      RoomForOne(j.plan, room, j.max, visited, k);
      if w.steps < j.max || IsProvider(n) {
        VisitUnrefused(j, more, n, idx, w, t);
      }
      NextStaysInside(j.plan, room, j.max, k);
      var (w', t', idx') := Visit(j, n, idx, w, t);
      LegacyUnrefused(j, more, room, visited + {k}, NextInFullChain(j.plan, k), idx', w', t');
    }
  }

  lemma NextStaysInside(p: Plan, room: set<Key>, max: int, k: Key)
    requires Roomy(p, room, max) && k in room
    ensures NextInFullChain(p, k).Some? ==> NextInFullChain(p, k).value in room
  {
    if NextInFullChain(p, k).Some? {
      FullChainStepFollowsEdge(p, k);
      NeutralWithinAll(p.edges);
    }
  }

  /** A linear run whose attempts fit ends as it would with any larger budget. */
  lemma LegacyLosesNothing(c: Chain, j: Job, setting: int, more: int, breaker: Breaker)
    requires Provided(c, j.plan, j.env, setting) && j.max == Budget.BudgetOf(setting) <= more
    ensures LegacyOutput(j, breaker) == LegacyOutput(j.(max := more), breaker)
  {
    ProvidedIsRoomy(c, j.plan, j.env, setting, j.max);
    LegacyUnrefused(j, more, ReachSet(AllArcs(j.plan.edges), j.plan.start), {}, Some(j.plan.start), 0,
      FreshWalk(breaker), NO_TALLY);
  }

  // --- The fallback walker ------------------------------------------------------------------------

  lemma StepSpends(j: FS.Job, st: FS.State)
    requires FS.Running(j, st) && SingleCalls(j.env) && (forall k :: k in j.plan.nodes ==> j.plan.nodes[k].retries >= 0)
    ensures FS.Step(j, st).w.steps <= st.w.steps + BlockAttempts(j.plan.nodes, st.node.value)
  {
    var n := j.plan.nodes[st.node.value];
    if IsProvider(n) {
      var (skip, w1) := Resolve(j.env, n, st.w);
      SingleCallCost(j.env, n.key, n.retries + 1);
      ExecWithinCost(j.env, j.max, n, st.idx, 0, w1, NO_RESULT, false);
    }
  }

  lemma {:induction false} PathInside(g: Arcs, room: set<Key>, path: seq<Key>)
    requires IsPath(g, path) && path[0] in room && forall a, b :: (a, b) in g && a in room ==> b in room
    ensures Elements(path) <= room
  {
    forall k | k in path
      ensures k in room
    {
      var i :| 0 <= i < |path| && path[i] == k;
      PathSlice(g, path, 0, i + 1);
      ClosedPath(g, room, path[0..i + 1]);
    }
  }

  lemma IterateSpends(j: FS.Job, st: FS.State, i: nat, k: Key)
    requires FS.Running(j, FS.Iterate(j, st, i)) && FS.Iterate(j, st, i).node == Some(k)
    requires SingleCalls(j.env) && forall x :: x in j.plan.nodes ==> j.plan.nodes[x].retries >= 0
    ensures FS.Iterate(j, st, i + 1).w.steps <= FS.Iterate(j, st, i).w.steps + BlockAttempts(j.plan.nodes, k)
  {
    StepSpends(j, FS.Iterate(j, st, i));
    FS.NextIterate(j, st, i);
  }

  lemma AttemptsLonger(m: map<Key, Node>, path: seq<Key>, i: nat)
    requires i < |path| && Distinct(path)
    ensures Attempts(m, Elements(path[..i + 1])) == Attempts(m, Elements(path[..i])) + BlockAttempts(m, path[i])
  {
    assert path[..i + 1] == path[..i] + [path[i]];
    assert path[i] !in path[..i];
    AttemptsWithout(m, Elements(path[..i + 1]), path[i]);
    assert Elements(path[..i + 1]) - {path[i]} == Elements(path[..i]);
  }

  /** Steps that grow by at most the attempts of each block met stay within their sum. */
  lemma {:induction false} SumOnPath(m: map<Key, Node>, path: seq<Key>, spent: seq<int>, i: nat)
    requires Distinct(path) && |spent| == |path| && i < |path| && spent[0] == 0
    requires forall h :: 0 < h < |path| ==> spent[h] <= spent[h - 1] + BlockAttempts(m, path[h - 1])
    ensures spent[i] <= Attempts(m, Elements(path[..i]))
  {
    if i == 0 {
      assert Elements(path[..0]) == {};
    } else {
      SumOnPath(m, path, spent, i - 1);
      AttemptsLonger(m, path, i - 1);
    }
  }

  ghost function StepsAt(j: FS.Job, st: FS.State, i: nat): int {
    FS.Iterate(j, st, i).w.steps
  }

  lemma SpentStep(j: FS.Job, st: FS.State, n: nat, path: seq<Key>, i: nat)
    requires SingleCalls(j.env) && forall x :: x in j.plan.nodes ==> j.plan.nodes[x].retries >= 0
    requires FS.VisitPath(j, st, n, path) && 0 < i <= n
    ensures StepsAt(j, st, i) <= StepsAt(j, st, i - 1) + BlockAttempts(j.plan.nodes, path[i - 1])
  {
    IterateSpends(j, st, i - 1, path[i - 1]);
  }

  /** At iteration n the walk has spent at most the attempts of the n blocks before. */
  lemma SpentOnPath(j: FS.Job, st: FS.State, n: nat, path: seq<Key>)
    requires SingleCalls(j.env) && st.w.steps == 0 && forall x :: x in j.plan.nodes ==> j.plan.nodes[x].retries >= 0
    requires FS.VisitPath(j, st, n, path) && Distinct(path)
    ensures FS.Iterate(j, st, n).w.steps <= Attempts(j.plan.nodes, Elements(path[..n]))
  {
    var spent := seq(n + 1, i requires 0 <= i <= n => StepsAt(j, st, i));
    forall i | 0 < i <= n
      ensures spent[i] <= spent[i - 1] + BlockAttempts(j.plan.nodes, path[i - 1])
    {
      SpentStep(j, st, n, path, i);
    }
    SumOnPath(j.plan.nodes, path, spent, n);
  }

  /** The same request under a larger budget. */
  function Richer(j: FS.Job, more: int): FS.Job {
    j.(max := more)
  }

  /** Under any larger budget too, the fallback walk comes to no block without room for all
      its attempts within the smaller one: the block runs alike under both. */
  lemma RoomEverywhere(c: Chain, j: FS.Job, setting: int, more: int, breaker: Breaker, n: nat)
    requires Provided(c, j.plan, j.env, setting) && j.max == Budget.BudgetOf(setting) <= more
    requires FS.Running(j, FS.Iterate(Richer(j, more), FS.Begin(j, breaker), n))
    ensures var st := FS.Iterate(Richer(j, more), FS.Begin(j, breaker), n);
            IsProvider(j.plan.nodes[st.node.value]) ==> Unpressed(j, st, more)
  {
    var rich, room, st0 := Richer(j, more), ReachSet(AllArcs(j.plan.edges), j.plan.start), FS.Begin(j, breaker);
    ProvidedIsRoomy(c, j.plan, j.env, setting, j.max);
    var path := FS.VisitsFormPath(rich, st0, n);
    AcyclicPathDistinct(AllArcs(j.plan.edges), path);
    PathInside(AllArcs(j.plan.edges), room, path);
    SpentOnPath(rich, st0, n, path);
    HasRoom(j, room, path, n, FS.Iterate(rich, st0, n), more);
  }

  /** A block about to run has room for all its attempts. */
  ghost predicate Unpressed(j: FS.Job, st: FS.State, more: int)
    requires FS.Running(j, st)
  {
    var node := j.plan.nodes[st.node.value];
    && st.w.steps + node.retries + 1 <= j.max && node.retries >= 0
    && var w := Resolve(j.env, node, st.w).1;
       Exec(j.env, j.max, node, st.idx, w) == Exec(j.env, more, node, st.idx, w)
  }

  lemma HasRoom(j: FS.Job, room: set<Key>, path: seq<Key>, n: nat, st: FS.State, more: int)
    requires Roomy(j.plan, room, j.max) && SingleCalls(j.env) && j.max <= more && FS.Running(j, st)
    requires |path| == n + 1 && Distinct(path) && Elements(path) <= room && st.node == Some(path[n])
    requires st.w.steps <= Attempts(j.plan.nodes, Elements(path[..n]))
    ensures IsProvider(j.plan.nodes[st.node.value]) ==> Unpressed(j, st, more)
  {
    var node := j.plan.nodes[path[n]];
    RoomForOne(j.plan, room, j.max, Elements(path[..n]), path[n]);
    if IsProvider(node) {
      BlockUnrefused(j.env, j.max, more, node, st.idx, Resolve(j.env, node, st.w).1);
    }
  }

  /** What the two walks have in common: their state, or their output, or the smaller budget
      is used up and the larger one only passes logical blocks on to the same output. */
  ghost predicate Together(j: FS.Job, st: FS.State, st': FS.State) {
    || st == st'
    || (st.out == Some(FS.Exhausted(j, st')) && st'.w.steps >= j.max && st'.out.None?)
    || (st.out.Some? && st.out == st'.out)
  }

  lemma SameAdvance(j: FS.Job, more: int, st: FS.State, n: Node, run: NodeRun, w: Walk)
    ensures FS.Advance(j, st, n, run, w) == FS.Advance(Richer(j, more), st, n, run, w)
  {
  }

  lemma StepTogether(j: FS.Job, more: int, st: FS.State)
    requires j.max <= more
    requires FS.Running(j, st) && IsProvider(j.plan.nodes[st.node.value]) ==> Unpressed(j, st, more)
    ensures Together(j, FS.Step(j, st), FS.Step(Richer(j, more), st))
  {
    var rich := Richer(j, more);
    assert FS.Exhausted(rich, st) == FS.Exhausted(j, st);
    if FS.Running(j, st) && IsProvider(j.plan.nodes[st.node.value]) {
      var node := j.plan.nodes[st.node.value];
      var (skip, w) := Resolve(j.env, node, st.w);
      if !skip {
        var (run, w1) := Exec(j.env, j.max, node, st.idx, w);
        SameAdvance(j, more, st, node, run, w1);
        assert FS.Step(j, st) == FS.Advance(j, st, node, run, w1);
        assert FS.Step(rich, st) == FS.Advance(rich, st, node, run, w1);
      }
    }
  }

  /** With the smaller budget used up the richer walk collects nothing more. */
  lemma PassesOn(j: FS.Job, more: int, st: FS.State)
    requires j.max <= more && st.out.None? && st.w.steps >= j.max
    requires FS.Running(j, st) ==> !IsProvider(j.plan.nodes[st.node.value])
    ensures var next := FS.Step(Richer(j, more), st);
            next.out == Some(FS.Exhausted(j, st)) ||
              (next.out.None? && next.w == st.w && FS.Exhausted(j, next) == FS.Exhausted(j, st))
  {
    assert FS.Exhausted(Richer(j, more), st) == FS.Exhausted(j, st);
  }

  lemma TogetherStep(j: FS.Job, more: int, st: FS.State, st': FS.State)
    requires Together(j, st, st') && j.max <= more
    requires FS.Running(j, st') && IsProvider(j.plan.nodes[st'.node.value]) ==> Unpressed(j, st', more)
    ensures Together(j, FS.Step(j, st), FS.Step(Richer(j, more), st'))
  {
    if st == st' {
      StepTogether(j, more, st);
    } else {
      assert FS.Step(j, st) == st;
      if st'.out.None? {
        assert !(FS.Running(j, st') && IsProvider(j.plan.nodes[st'.node.value]));
        PassesOn(j, more, st');
      } else {
        assert FS.Step(Richer(j, more), st') == st';
      }
    }
  }

  ghost predicate AtEase(j: FS.Job, st: FS.State, more: int) {
    FS.Running(j, st) && IsProvider(j.plan.nodes[st.node.value]) ==> Unpressed(j, st, more)
  }

  lemma TogetherNext(j: FS.Job, more: int, st0: FS.State, n: nat)
    requires j.max <= more && Together(j, FS.Iterate(j, st0, n), FS.Iterate(Richer(j, more), st0, n))
    requires AtEase(j, FS.Iterate(Richer(j, more), st0, n), more)
    ensures Together(j, FS.Iterate(j, st0, n + 1), FS.Iterate(Richer(j, more), st0, n + 1))
  {
    TogetherStep(j, more, FS.Iterate(j, st0, n), FS.Iterate(Richer(j, more), st0, n));
    FS.NextIterate(j, st0, n);
    FS.NextIterate(Richer(j, more), st0, n);
  }

  lemma EverAtEase(c: Chain, j: FS.Job, setting: int, more: int, breaker: Breaker, n: nat)
    requires Provided(c, j.plan, j.env, setting) && j.max == Budget.BudgetOf(setting) <= more
    ensures AtEase(j, FS.Iterate(Richer(j, more), FS.Begin(j, breaker), n), more)
  {
    if FS.Running(j, FS.Iterate(Richer(j, more), FS.Begin(j, breaker), n)) {
      RoomEverywhere(c, j, setting, more, breaker, n);
    }
  }

  ghost predicate AtEaseAt(j: FS.Job, more: int, st0: FS.State, n: nat) {
    AtEase(j, FS.Iterate(Richer(j, more), st0, n), more)
  }

  ghost predicate TogetherAt(j: FS.Job, more: int, st0: FS.State, n: nat) {
    Together(j, FS.Iterate(j, st0, n), FS.Iterate(Richer(j, more), st0, n))
  }

  lemma {:induction false} StayTogether(j: FS.Job, more: int, st0: FS.State, n: nat)
    requires j.max <= more && forall m: nat :: AtEaseAt(j, more, st0, m)
    ensures TogetherAt(j, more, st0, n)
  {
    if n == 0 {
      assert FS.Iterate(j, st0, 0) == st0 == FS.Iterate(Richer(j, more), st0, 0);
    } else {
      StayTogether(j, more, st0, n - 1);
      assert AtEaseAt(j, more, st0, n - 1);
      TogetherNext(j, more, st0, n - 1);
    }
  }

  /** A fallback walk whose attempts fit returns what it would under any larger budget. */
  lemma FirstSuccessLosesNothing(c: Chain, j: FS.Job, setting: int, breaker: Breaker, more: int)
    requires Provided(c, j.plan, j.env, setting) && j.max == Budget.BudgetOf(setting) <= more
    ensures var out := FS.Iterate(j, FS.Begin(j, breaker), |j.plan.nodes| + 1).out;
            out.Some? && out == FS.Iterate(Richer(j, more), FS.Begin(j, breaker), |j.plan.nodes| + 1).out
  {
    ProvidedIsRoomy(c, j.plan, j.env, setting, j.max);
    FS.WalkEnds(j, FS.Begin(j, breaker));
    FS.WalkEnds(Richer(j, more), FS.Begin(j, breaker));
    forall m: nat
      ensures AtEaseAt(j, more, FS.Begin(j, breaker), m)
    {
      EverAtEase(c, j, setting, more, breaker, m);
    }
    StayTogether(j, more, FS.Begin(j, breaker), |j.plan.nodes| + 1);
  }

  // --- The wave executor ----------------------------------------------------------------------------

  /** Every reachable provider block was processed and no branch was refused an attempt. */
  ghost predicate NothingLost(j: Job, scheds: seq<seq<Key>>, breaker: Breaker)
    requires PlanShape(j.plan) && Branches.Finishes(j, AllWaves(j.plan), scheds, Origin(breaker))
  {
    var end := Branches.RunUnder(j, AllWaves(j.plan), scheds, Origin(breaker));
    && (forall k :: k in NeutralReach(j.plan) ==>
       k in j.plan.nodes && (IsProvider(j.plan.nodes[k]) ==> k in end.blocks))
    && Budget.NeverRefused(j, AllWaves(j.plan), scheds, Origin(breaker))
  }

  /** A wave run whose attempts fit loses nothing, whatever the interleaving. */
  lemma FullChainLosesNothing(c: Chain, j: Job, setting: int, scheds: seq<seq<Key>>, breaker: Breaker)
    requires Provided(c, j.plan, j.env, setting) && PlanShape(j.plan) && j.max == Budget.BudgetOf(setting)
    requires Branches.Finishes(j, AllWaves(j.plan), scheds, Origin(breaker))
    ensures NothingLost(j, scheds, breaker)
    ensures Branches.RunUnder(j, AllWaves(j.plan), scheds, Origin(breaker)).w.steps <= j.max
  {
    Budget.FittingCost(c, j, setting);
    Budget.AcceptedRunCovers(c, j, scheds, breaker);
  }
}

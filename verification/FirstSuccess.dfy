/** First-success mode: a fallback walk steered by outcomes and policies. One iteration
    of the loop is a step of a state machine; a run is the iteration of that step. */
module FirstSuccess {
  import opened Text
  import opened Graph
  import opened Chains
  import opened Validate
  import opened Plans
  import opened Merge
  import opened Cooldown
  import opened Walks

  /** A request: environment, plan, budget, row cap, and whether on_success may continue. */
  datatype Job = Job(env: Env, plan: Plan, max: int, count: int, continues: bool)

  datatype State = State(node: Option<Key>, idx: nat, w: Walk, last: Result, merged: Merged, out: Option<Output>)

  function Begin(j: Job, breaker: Breaker): State {
    State(Some(j.plan.start), 0, Walk(0, {}, breaker, "", []), NO_RESULT, NOTHING, None)
  }

  /** Rows in hand make the request a success; without any, the last result decides. */
  function Exhausted(j: Job, st: State): Output {
    if |st.merged.rows| > 0
    then Finalize(st.w, OkStatus, RowsUpTo(st.merged, j.count), Names(st.merged.rows), "", None)
    else if st.last.kind == "ok" then Finalize(st.w, EmptyStatus, [], "", "", None)
    else Finalize(st.w, FailStatus, [], "", if st.last.kind != "" then st.last.error else "", None)
  }

  /** The block that ends the chain: its rows join those collected before, if any. */
  function Victory(j: Job, st: State, n: Node, run: NodeRun, w: Walk): Output {
    var display := j.env.display(n.providerId);
    if |st.merged.rows| > 0 then
      var m := AddRows(j.env.norm, st.merged, display, run.rows);
      Finalize(w, OkStatus, Capped(RowsUpTo(m, j.count), j.count), Names(m.rows), "", None)
    else Finalize(w, OkStatus, Capped(run.rows, j.count), display, "", None)
  }

  /** After a block ran: a win is final, except where the policy for success goes on. */
  function Advance(j: Job, st: State, n: Node, run: NodeRun, w: Walk): State {
    if run.won then
      if j.continues && !PolicyFor(n, Success).StopPolicy? then
        State(Next(j.plan, n, Success), st.idx + 1, w, run.result,
              if |run.rows| > 0 then AddRows(j.env.norm, st.merged, j.env.display(n.providerId), run.rows)
                else st.merged, None)
      else st.(w := w, last := run.result, out := Some(Victory(j, st, n, run, w)))
    else
      State(Next(j.plan, n, EdgeOutcome(j.env, n, run.result)), st.idx + 1, w, run.result, st.merged, None)
  }

  function Step(j: Job, st: State): State {
    if st.out.Some? then st
    else if st.node.None? || st.node.value !in j.plan.nodes || st.w.steps >= j.max
       then st.(out := Some(Exhausted(j, st)))
    else
      var n := j.plan.nodes[st.node.value];
      if !IsProvider(n) then st.(node := FirstNeutral(j.plan, st.node.value))
      else
        var (skip, w1) := Resolve(j.env, n, st.w);
        if skip then st.(node := Next(j.plan, n, Fail), idx := st.idx + 1, w := Skipped(n, st.idx, w1))
        else
          var (run, w2) := Exec(j.env, j.max, n, st.idx, w1);
          Advance(j, st, n, run, w2)
  }

  function Iterate(j: Job, st: State, n: nat): State {
    if n == 0 then st else Step(j, Iterate(j, st, n - 1))
  }

  lemma {:induction false} EndIsFinal(j: Job, st: State, m: nat, n: nat)
    requires m <= n && Iterate(j, st, m).out.Some?
    ensures Iterate(j, st, n) == Iterate(j, st, m)
    decreases n
  {
    if m < n {
      EndIsFinal(j, st, m, n - 1);
    }
  }

  // --- The walk follows edges, so acceptance bounds it -----------------------------------

  ghost predicate Running(j: Job, st: State) {
    st.out.None? && st.node.Some? && st.node.value in j.plan.nodes
  }

  lemma StepFollowsEdge(j: Job, st: State)
    requires PlanShape(j.plan) && Running(j, st) && Running(j, Step(j, st))
    ensures (st.node.value, Step(j, st).node.value) in AllArcs(j.plan.edges)
  {
    var n := j.plan.nodes[st.node.value];
    if !IsProvider(n) {
      FirstNeutralFollowsEdge(j.plan, st.node.value);
      NeutralWithinAll(j.plan.edges);
    } else {
      var o :| Step(j, st).node == Next(j.plan, n, o) by {
        var (skip, w1) := Resolve(j.env, n, st.w);
        if skip {
          assert Step(j, st).node == Next(j.plan, n, Fail);
        } else {
          var run := Exec(j.env, j.max, n, st.idx, w1).0;
          assert Step(j, st).node == Next(j.plan, n, if run.won then Success else EdgeOutcome(j.env, n, run.result));
        }
      }
      NextFollowsEdge(j.plan, n, o);
    }
  }

  lemma WasRunning(j: Job, st: State)
    requires Running(j, Step(j, st))
    ensures Running(j, st)
  {
  }

  ghost predicate VisitPath(j: Job, st: State, n: nat, path: seq<Key>) {
    && IsPath(AllArcs(j.plan.edges), path) && |path| == n + 1 && Elements(path) <= j.plan.nodes.Keys
    && forall i :: 0 <= i <= n ==> Running(j, Iterate(j, st, i)) && path[i] == Iterate(j, st, i).node.value
  }

  lemma OneMoreVisit(j: Job, st: State, n: nat, front: seq<Key>) returns (path: seq<Key>)
    requires PlanShape(j.plan) && VisitPath(j, st, n, front) && Running(j, Iterate(j, st, n + 1))
    ensures VisitPath(j, st, n + 1, path)
  {
    StepFollowsEdge(j, Iterate(j, st, n));
    PathExtend(AllArcs(j.plan.edges), front, Iterate(j, st, n + 1).node.value);
    path := front + [Iterate(j, st, n + 1).node.value];
  }

  lemma FirstVisit(j: Job, st: State)
    requires PlanShape(j.plan) && Running(j, Iterate(j, st, 0))
    ensures VisitPath(j, st, 0, [st.node.value])
  {
  }

  /** The blocks visited up to iteration n form a path of the chain's graph. */
  lemma {:induction false} VisitsFormPath(j: Job, st: State, n: nat) returns (path: seq<Key>)
    requires PlanShape(j.plan) && Running(j, Iterate(j, st, n))
    ensures VisitPath(j, st, n, path)
  {
    if n == 0 {
      path := [st.node.value];
      FirstVisit(j, st);
    } else {
      WasRunning(j, Iterate(j, st, n - 1));
      var front := VisitsFormPath(j, st, n - 1);
      path := OneMoreVisit(j, st, n - 1, front);
    }
  }

  /** No block is visited twice. */
  lemma NeverRevisits(j: Job, st: State, m: nat, n: nat)
    requires PlanShape(j.plan) && Acyclic(AllArcs(j.plan.edges))
    requires m < n && Running(j, Iterate(j, st, n))
    ensures Running(j, Iterate(j, st, m)) && Iterate(j, st, m).node != Iterate(j, st, n).node
  {
    var path := VisitsFormPath(j, st, n);
    AcyclicPathDistinct(AllArcs(j.plan.edges), path);
    assert path[m] != path[n];
  }

  lemma RunningBound(j: Job, st: State, n: nat)
    requires PlanShape(j.plan) && Acyclic(AllArcs(j.plan.edges))
    requires Running(j, Iterate(j, st, n))
    ensures n < |j.plan.nodes|
  {
    var path := VisitsFormPath(j, st, n);
    AcyclicPathDistinct(AllArcs(j.plan.edges), path);
    DistinctWithin(path, j.plan.nodes.Keys);
  }

  /** The walk ends: after at most |nodes| blocks the next iteration has an output. */
  lemma WalkEnds(j: Job, st: State)
    requires PlanShape(j.plan) && Acyclic(AllArcs(j.plan.edges))
    ensures Iterate(j, st, |j.plan.nodes| + 1).out.Some?
  {
    var st1 := Iterate(j, st, |j.plan.nodes|);
    if Running(j, st1) {
      RunningBound(j, st, |j.plan.nodes|);
    }
  }

  /** On every chain the validator accepts the fallback walk visits no block twice and ends
      within as many iterations as the chain has blocks, whatever drivers answer, however
      many blocks are skipped, and for every budget. */
  lemma AcceptedWalkEnds(c: Chain, j: Job, breaker: Breaker, m: nat, n: nat)
    requires Accepts(c) && PlanOf(c) == Some(j.plan)
    ensures Iterate(j, Begin(j, breaker), |c.nodes| + 1).out.Some?
    ensures m < n && Running(j, Iterate(j, Begin(j, breaker), n)) ==>
      n < |c.nodes| && Iterate(j, Begin(j, breaker), m).node != Iterate(j, Begin(j, breaker), n).node
  {
    AcceptedIsWellFormed(c);
    PlanOfWellFormed(c);
    PlanIndex(c);
    assert j.plan.nodes.Keys == Elements(Keys(c));
    DistinctCard(Keys(c));
    WalkEnds(j, Begin(j, breaker));
    assert |j.plan.nodes| == |j.plan.nodes.Keys| == |c.nodes|;
    if m < n && Running(j, Iterate(j, Begin(j, breaker), n)) {
      NeverRevisits(j, Begin(j, breaker), m, n);
      RunningBound(j, Begin(j, breaker), n);
    }
  }

  // --- The code's own form -------------------------------------------------------------

  method FinishExhausted(j: Job, run: Run, merger: Merger, last: Result, ghost st: State) returns (out: Output)
    requires st.w == run.View() && st.merged == merger.View() && st.last == last
    ensures out == Exhausted(j, st)
  {
    if |merger.rows| > 0 {
      var names := merger.Contributing();
      return Finalize(run.Snapshot(), OkStatus, RowsUpTo(merger.Snapshot(), j.count), Join(names, ", "), "", None);
    }
    var status, error := FailStatus, "";
    if last.kind != "" {
      if last.kind == "ok" {
        status := EmptyStatus;
      } else if last.error != "" {
        error := last.error;
      }
    }
    return Finalize(run.Snapshot(), status, [], "", error, None);
  }

  method FinishVictory(j: Job, run: Run, merger: Merger, n: Node, won: NodeRun, ghost st: State) returns (out: Output)
    requires st.merged == merger.View()
    requires Indexed(merger.View()) && merger.norm == j.env.norm
    modifies merger
    ensures Indexed(merger.View())
    ensures out == Victory(j, st, n, won, run.View())
  {
    var rows, used := won.rows, j.env.display(n.providerId);
    if |merger.rows| > 0 {
      var changed := merger.Add(used, won.rows);
      rows := RowsUpTo(merger.Snapshot(), j.count);
      var names := merger.Contributing();
      used := Join(names, ", ");
    }
    return Finalize(run.Snapshot(), OkStatus, Capped(rows, j.count), used, "", None);
  }

  /** The loop's variables agree with a state of the walk. */
  ghost predicate InStep(j: Job, st: State, run: Run, merger: Merger)
    reads run, run.cooldowns, merger
  {
    && run.maxAttempts == j.max && merger.norm == j.env.norm && Indexed(merger.View())
    && (st.out.None? ==> st.w == run.View() && st.merged == merger.View())
  }

  /** One iteration of the loop, on a block in hand and with budget left. */
  method Iteration(j: Job, run: Run, merger: Merger, key: Key, idx: nat, last: Result, ghost st: State)
    returns (node: Option<Key>, idx': nat, last': Result, out: Option<Output>, ghost st': State)
    requires InStep(j, st, run, merger) && st == State(Some(key), idx, st.w, last, st.merged, None)
    requires key in j.plan.nodes && run.HasBudget()
    modifies run, run.cooldowns, merger
    ensures st' == Step(j, st) && InStep(j, st', run, merger)
    ensures st'.out == out && (out.None? ==> st'.node == node && st'.idx == idx' && st'.last == last')
  {
    st' := Step(j, st);
    var n := j.plan.nodes[key];
    if !IsProvider(n) {
      return FirstNeutral(j.plan, key), idx, last, None, st';
    }
    var skip := run.ResolveNode(j.env, n);
    if skip {
      run.RecordSkip(n, idx);
      return Next(j.plan, n, Fail), idx + 1, last, None, st';
    }
    var ran := run.ExecNode(j.env, idx, n);
    if !ran.won {
      return Next(j.plan, n, EdgeOutcome(j.env, n, ran.result)), idx + 1, ran.result, None, st';
    }
    if j.continues && !PolicyFor(n, Success).StopPolicy? {
      if |ran.rows| > 0 {
        var changed := merger.Add(j.env.display(n.providerId), ran.rows);
      }
      return Next(j.plan, n, Success), idx + 1, ran.result, None, st';
    }
    var victory := FinishVictory(j, run, merger, n, ran, st);
    return None, idx, ran.result, Some(victory), st';
  }

  /** The walk is bounded: iteration n still has a block only if n is below the limit. */
  ghost predicate Bounded(j: Job, st0: State, limit: nat) {
    forall n: nat :: Running(j, Iterate(j, st0, n)) ==> n < limit
  }

  /** The loop's variables after i iterations. */
  ghost predicate Reached(j: Job, st0: State, i: nat, node: Option<Key>, idx: nat, last: Result, run: Run,
          merger: Merger)
    reads run, run.cooldowns, merger
  {
    var st := Iterate(j, st0, i);
    && InStep(j, st, run, merger)
    && st == State(node, idx, st.w, last, st.merged, None)
    && (node.Some? ==> node.value in j.plan.nodes)
  }

  method Turn(j: Job, run: Run, merger: Merger, key: Key, idx: nat, last: Result, ghost st0: State, ghost i: nat)
    returns (node: Option<Key>, idx': nat, last': Result, out: Option<Output>)
    requires Reached(j, st0, i, Some(key), idx, last, run, merger) && run.HasBudget()
    modifies run, run.cooldowns, merger
    ensures out.None? ==> Reached(j, st0, i + 1, node, idx', last', run, merger)
    ensures out.Some? ==> Iterate(j, st0, i + 1).out == out
  {
    ghost var st1;
    NextIterate(j, st0, i);
    NextHeld(j, st0, i);
    node, idx', last', out, st1 := Iteration(j, run, merger, key, idx, last, Iterate(j, st0, i));
  }

  lemma BoundedHere(j: Job, st0: State, i: nat, limit: nat)
    requires Running(j, Iterate(j, st0, i)) && Bounded(j, st0, limit)
    ensures i < limit
  {
  }

  lemma NextHeld(j: Job, st0: State, i: nat)
    requires Running(j, Iterate(j, st0, i))
    ensures Iterate(j, st0, i + 1).out.None? && Iterate(j, st0, i + 1).node.Some? ==>
      Iterate(j, st0, i + 1).node.value in j.plan.nodes
  {
    StepStaysHeld(j, Iterate(j, st0, i));
  }

  lemma NextIterate(j: Job, st0: State, i: nat)
    ensures Iterate(j, st0, i + 1) == Step(j, Iterate(j, st0, i))
  {
  }

  method Conclude(j: Job, run: Run, merger: Merger, node: Option<Key>, idx: nat, last: Result, ghost st0: State,
          ghost i: nat)
    returns (out: Output)
    requires Reached(j, st0, i, node, idx, last, run, merger) && (node.None? || !run.HasBudget())
    ensures Iterate(j, st0, i + 1).out == Some(out)
  {
    out := FinishExhausted(j, run, merger, last, Iterate(j, st0, i));
  }

  lemma Continues(j: Job, st0: State, i: nat, limit: nat, node: Option<Key>, idx: nat, last: Result, run: Run,
          merger: Merger)
    requires Reached(j, st0, i, node, idx, last, run, merger) && node.Some? && Bounded(j, st0, limit)
    ensures i < limit
  {
    BoundedHere(j, st0, i, limit);
  }

  method WalkOn(j: Job, run: Run, merger: Merger, ghost st0: State, ghost limit: nat)
    returns (out: Output, ghost n: nat)
    requires Reached(j, st0, 0, Some(j.plan.start), 0, NO_RESULT, run, merger) && Bounded(j, st0, limit)
    modifies run, run.cooldowns, merger
    ensures n <= limit + 1 && Iterate(j, st0, n).out == Some(out)
  {
    var node, idx, last := Some(j.plan.start), 0, NO_RESULT;
    n := 0;
    while node.Some? && run.HasBudget()
      invariant Reached(j, st0, n, node, idx, last, run, merger) && n <= limit
      decreases limit - n
    {
      Continues(j, st0, n, limit, node, idx, last, run, merger);
      var finished;
      node, idx, last, finished := Turn(j, run, merger, node.value, idx, last, st0, n);
      n := n + 1;
      if finished.Some? {
        return finished.value, n;
      }
    }
    out := Conclude(j, run, merger, node, idx, last, st0, n);
    n := n + 1;
  }

  lemma StepStaysHeld(j: Job, st: State)
    requires Running(j, st)
    ensures Step(j, st).out.None? && Step(j, st).node.Some? ==> Step(j, st).node.value in j.plan.nodes
  {
  }

  method RunFirstSuccess(j: Job, cooldowns: ProviderCooldowns) returns (out: Output)
    requires PlanShape(j.plan) && Acyclic(AllArcs(j.plan.edges))
    modifies cooldowns
    ensures Iterate(j, Begin(j, old(cooldowns.View())), |j.plan.nodes| + 1).out == Some(out)
  {
    var run := new Run(j.max, cooldowns);
    var merger := new Merger(j.env.norm);
    ghost var st0 := Begin(j, cooldowns.View());
    assert Bounded(j, st0, |j.plan.nodes|) by {
      forall n: nat | Running(j, Iterate(j, st0, n))
        ensures n < |j.plan.nodes|
      {
        RunningBound(j, st0, n);
      }
    }
    ghost var n;
    out, n := WalkOn(j, run, merger, st0, |j.plan.nodes|);
    EndIsFinal(j, st0, n, |j.plan.nodes| + 1);
  }
}

/** Where a fallback walk goes next, said of the chain's edges and the driver's results
    alone, and with which status it ends. */
module Steering {
  import opened Text
  import opened Graph
  import opened Chains
  import opened Plans
  import opened Merge
  import opened Cooldown
  import opened Walks
  import opened FirstSuccess
  import opened Attempts

  // --- Ways out, in the order in which the edges are stored ------------------------------------

  predicate LeavesAt(edges: seq<Edge>, k: Key, i: int) {
    0 <= i < |edges| && edges[i].source == k
  }

  /** How well an edge suits: the wanted condition, then none in particular, then another. */
  function Distance(e: Edge, wanted: Condition): nat {
    if e.condition == wanted then 0
    else if e.condition in {BlankCondition, NextCondition, AnyCondition} then 1
    else 2
  }

  /** Edge i leaves block k and none that does suits better, or as well and comes earlier. */
  ghost predicate BestOut(edges: seq<Edge>, k: Key, wanted: Condition, i: int) {
    LeavesAt(edges, k, i) && forall h :: LeavesAt(edges, k, h) ==>
      Distance(edges[i], wanted) < Distance(edges[h], wanted) ||
      (Distance(edges[i], wanted) == Distance(edges[h], wanted) && i <= h)
  }

  predicate AdmitsAt(edges: seq<Edge>, k: Key, wanted: Condition, i: int) {
    LeavesAt(edges, k, i) && Distance(edges[i], wanted) < 2
  }

  ghost predicate FirstOut(edges: seq<Edge>, k: Key, wanted: Condition, i: int) {
    AdmitsAt(edges, k, wanted, i) && forall h :: AdmitsAt(edges, k, wanted, h) ==> i <= h
  }

  function TargetAt(p: Plan, i: int): Option<Key>
    requires 0 <= i < |p.edges|
  {
    if p.edges[i].target in p.nodes then Some(p.edges[i].target) else None
  }

  /** The policies: stop; the first edge that admits the outcome, or the end; or else the
      best-suited edge, if there is any. */
  ghost predicate Leads(p: Plan, k: Key, policy: PolicyWord, wanted: Condition, next: Option<Key>) {
    match policy
    case StopPolicy => next == None
    case EdgePolicy =>
      if exists i :: AdmitsAt(p.edges, k, wanted, i)
      then exists i :: FirstOut(p.edges, k, wanted, i) && next == TargetAt(p, i)
      else next == None
    case _ =>
      if exists i :: LeavesAt(p.edges, k, i)
      then exists i :: BestOut(p.edges, k, wanted, i) && next == TargetAt(p, i)
      else next == None
  }

  /** Edge i is a neutral way out of k to a block of the plan. */
  predicate PassesAt(p: Plan, k: Key, i: int) {
    LeavesAt(p.edges, k, i) && p.edges[i].target in p.nodes &&
    p.edges[i].condition in {BlankCondition, NextCondition, AnyCondition}
  }

  /** A logical block hands on along the first such edge. */
  ghost predicate Passes(p: Plan, k: Key, next: Option<Key>) {
    if exists i :: PassesAt(p, k, i)
    then exists i :: PassesAt(p, k, i) && next == Some(p.edges[i].target) && forall h :: PassesAt(p, k, h) ==> i <= h
    else next == None
  }

  // --- The table of ways out keeps that order ---------------------------------------------------

  ghost predicate PlacesOf(edges: seq<Edge>, k: Key, out: seq<Edge>, at: seq<int>) {
    && |at| == |out|
    && (forall h :: 0 <= h < |at| ==> LeavesAt(edges, k, at[h]) && edges[at[h]] == out[h])
    && (forall g, h :: 0 <= g < h < |at| ==> at[g] < at[h])
    && (forall i :: LeavesAt(edges, k, i) ==> exists h :: 0 <= h < |at| && at[h] == i)
  }

  function OutOf(edges: seq<Edge>, k: Key): seq<Edge> {
    var m := OutMap(edges);
    if k in m then m[k] else []
  }

  lemma PlacesGrow(front: seq<Edge>, e: Edge, k: Key, out: seq<Edge>, at: seq<int>)
    requires PlacesOf(front, k, out, at)
    ensures e.source == k ==> PlacesOf(front + [e], k, out + [e], at + [|front|])
    ensures e.source != k ==> PlacesOf(front + [e], k, out, at)
  {
    var edges, more := front + [e], at + [|front|];
    forall i | LeavesAt(edges, k, i) && i < |front|
      ensures exists h :: 0 <= h < |at| && at[h] == i && more[h] == i
    {
      assert LeavesAt(front, k, i);
      var h :| 0 <= h < |at| && at[h] == i;
      assert more[h] == i;
    }
    assert more[|at|] == |front|;
  }

  lemma {:induction false} OutPlaces(edges: seq<Edge>, k: Key) returns (at: seq<int>)
    ensures PlacesOf(edges, k, OutOf(edges, k), at)
  {
    at := [];
    if edges != [] {
      var front, e := edges[..|edges| - 1], edges[|edges| - 1];
      at := OutPlaces(front, k);
      PlacesGrow(front, e, k, OutOf(front, k), at);
      assert edges == front + [e];
      if e.source == k {
        at := at + [|front|];
      }
    }
  }

  /** The condition an outcome asks for, and what a block does about it. */
  function WantedFor(o: Outcome): Condition {
    match o
    case Success => SuccessCondition
    case Empty => EmptyCondition
    case Fail => FailCondition
  }

  function Default(p: PolicyWord, otherwise: PolicyWord): PolicyWord {
    if p == BlankPolicy then otherwise else p
  }

  function ChosenFor(n: Node, o: Outcome): PolicyWord {
    match o
    case Success => Default(n.onSuccess.word, StopPolicy)
    case Empty => Default(n.onEmpty.word, NextPolicy)
    case Fail => Default(n.onFail.word, NextPolicy)
  }

  lemma FitIsDistance(e: Edge, o: Outcome)
    ensures Fit(e, o) == Distance(e, WantedFor(o))
  {
  }

  lemma BestIsBestOut(edges: seq<Edge>, k: Key, o: Outcome, at: seq<int>, i: nat)
    requires PlacesOf(edges, k, OutOf(edges, k), at) && BestEdge(OutOf(edges, k), o, i)
    ensures BestOut(edges, k, WantedFor(o), at[i])
  {
    forall h | LeavesAt(edges, k, h)
      ensures Distance(edges[at[i]], WantedFor(o)) < Distance(edges[h], WantedFor(o)) ||
              (Distance(edges[at[i]], WantedFor(o)) == Distance(edges[h], WantedFor(o)) && at[i] <= h)
    {
      var g :| 0 <= g < |at| && at[g] == h;
      FitIsDistance(edges[at[i]], o);
      FitIsDistance(edges[h], o);
    }
  }

  lemma FirstIsFirstOut(edges: seq<Edge>, k: Key, o: Outcome, at: seq<int>, i: nat)
    requires PlacesOf(edges, k, OutOf(edges, k), at) && FirstAdmitting(OutOf(edges, k), o, i)
    ensures FirstOut(edges, k, WantedFor(o), at[i])
  {
    FitIsDistance(edges[at[i]], o);
    forall h | AdmitsAt(edges, k, WantedFor(o), h)
      ensures at[i] <= h
    {
      var g :| 0 <= g < |at| && at[g] == h;
      FitIsDistance(edges[h], o);
    }
  }

  lemma NoneAdmits(edges: seq<Edge>, k: Key, o: Outcome, at: seq<int>)
    requires PlacesOf(edges, k, OutOf(edges, k), at)
    requires forall h :: 0 <= h < |OutOf(edges, k)| ==> Fit(OutOf(edges, k)[h], o) == 2
    ensures forall i :: !AdmitsAt(edges, k, WantedFor(o), i)
  {
    forall i | LeavesAt(edges, k, i)
      ensures !AdmitsAt(edges, k, WantedFor(o), i)
    {
      var h :| 0 <= h < |at| && at[h] == i;
      assert Fit(OutOf(edges, k)[h], o) == 2;
      FitIsDistance(edges[i], o);
    }
  }

  lemma InsistsNext(p: Plan, n: Node, o: Outcome)
    requires PlanShape(p) && ChosenFor(n, o) == EdgePolicy
    ensures Next(p, n, o) == match FirstMatching(OutOf(p.edges, n.key), o)
                             case Some(e) => Held(p, e.target)
                             case None => None
  {
    assert Out(p, n.key) == OutOf(p.edges, n.key);
  }

  lemma InsistsLeads(p: Plan, n: Node, o: Outcome, at: seq<int>)
    requires PlanShape(p) && ChosenFor(n, o) == EdgePolicy && PlacesOf(p.edges, n.key, OutOf(p.edges, n.key), at)
    ensures Leads(p, n.key, EdgePolicy, WantedFor(o), Next(p, n, o))
  {
    var out := OutOf(p.edges, n.key);
    InsistsNext(p, n, o);
    var i := MatchPlace(out, o);
    if FirstMatching(out, o).None? {
      NoneAdmits(p.edges, n.key, o, at);
    } else {
      FirstIsFirstOut(p.edges, n.key, o, at, i);
      assert Next(p, n, o) == TargetAt(p, at[i]);
    }
  }

  lemma PrefersLeads(p: Plan, n: Node, o: Outcome, at: seq<int>)
    requires PlanShape(p) && ChosenFor(n, o) !in {StopPolicy, EdgePolicy}
    requires PlacesOf(p.edges, n.key, OutOf(p.edges, n.key), at)
    ensures Leads(p, n.key, ChosenFor(n, o), WantedFor(o), Next(p, n, o))
  {
    var out := OutOf(p.edges, n.key);
    assert Out(p, n.key) == out;
    if out != [] {
      var i := NextTakesBest(p, n, o);
      BestIsBestOut(p.edges, n.key, o, at, i);
      assert LeavesAt(p.edges, n.key, at[i]) && Next(p, n, o) == TargetAt(p, at[i]);
    }
  }

  lemma NextLeads(p: Plan, n: Node, o: Outcome)
    requires PlanShape(p)
    ensures Leads(p, n.key, ChosenFor(n, o), WantedFor(o), Next(p, n, o))
  {
    var at := OutPlaces(p.edges, n.key);
    if ChosenFor(n, o) == EdgePolicy {
      InsistsLeads(p, n, o, at);
    } else if ChosenFor(n, o) != StopPolicy {
      PrefersLeads(p, n, o, at);
    }
  }

  lemma {:induction false} PassPlace(p: Plan, out: seq<Edge>) returns (i: nat)
    ensures var next := NeutralSuccessors(p, out);
            if next == [] then forall h :: 0 <= h < |out| ==> !(Neutral(out[h].condition) && out[h].target in p.nodes)
            else
              && i < |out| && Neutral(out[i].condition) && out[i].target in p.nodes && next[0] == out[i].target
              && forall h :: 0 <= h < i ==> !(Neutral(out[h].condition) && out[h].target in p.nodes)
  {
    i := 0;
    if out != [] && !(Neutral(out[0].condition) && out[0].target in p.nodes) {
      var k := PassPlace(p, out[1..]);
      assert forall h :: 0 < h < |out| ==> out[h] == out[1..][h - 1];
      i := k + 1;
    }
  }

  /** A logical block passes the walk on along its first neutral edge. */
  lemma FirstNeutralPasses(p: Plan, k: Key)
    requires PlanShape(p)
    ensures Passes(p, k, FirstNeutral(p, k))
  {
    var at := OutPlaces(p.edges, k);
    var out := OutOf(p.edges, k);
    assert Out(p, k) == out;
    var i := PassPlace(p, out);
    if NeutralSuccessors(p, out) == [] {
      forall h | LeavesAt(p.edges, k, h)
        ensures !PassesAt(p, k, h)
      {
        var g :| 0 <= g < |at| && at[g] == h;
        assert !(Neutral(out[g].condition) && out[g].target in p.nodes);
      }
    } else {
      assert PassesAt(p, k, at[i]);
      forall h | PassesAt(p, k, h)
        ensures at[i] <= h
      {
        var g :| 0 <= g < |at| && at[g] == h;
        assert Neutral(out[g].condition);
      }
    }
  }

  lemma {:induction false} NeutralFirst(out: seq<Edge>) returns (i: nat)
    ensures match FirstNeutralEdge(out)
            case None => forall h :: 0 <= h < |out| ==> !Neutral(out[h].condition)
            case Some(e) => i < |out| && e == out[i] && Neutral(e.condition) &&
                            forall h :: 0 <= h < i ==> !Neutral(out[h].condition)
  {
    i := 0;
    if out != [] && !Neutral(out[0].condition) {
      var k := NeutralFirst(out[1..]);
      assert forall h :: 0 < h < |out| ==> out[h] == out[1..][h - 1];
      i := k + 1;
    }
  }

  predicate NeutralAt(edges: seq<Edge>, k: Key, i: int) {
    LeavesAt(edges, k, i) && edges[i].condition in {BlankCondition, NextCondition, AnyCondition}
  }

  ghost predicate FirstNeutralAt(edges: seq<Edge>, k: Key, i: int) {
    NeutralAt(edges, k, i) && forall h :: NeutralAt(edges, k, h) ==> i <= h
  }

  lemma NeutralIsFirst(edges: seq<Edge>, k: Key, at: seq<int>, i: nat)
    requires PlacesOf(edges, k, OutOf(edges, k), at) && i < |at| && Neutral(OutOf(edges, k)[i].condition)
    requires forall h :: 0 <= h < i ==> !Neutral(OutOf(edges, k)[h].condition)
    ensures FirstNeutralAt(edges, k, at[i])
  {
    forall h | NeutralAt(edges, k, h)
      ensures at[i] <= h
    {
      var g :| 0 <= g < |at| && at[g] == h;
      assert Neutral(OutOf(edges, k)[g].condition);
    }
  }

  lemma NoneNeutral(edges: seq<Edge>, k: Key, at: seq<int>)
    requires PlacesOf(edges, k, OutOf(edges, k), at)
    requires forall h :: 0 <= h < |at| ==> !Neutral(OutOf(edges, k)[h].condition)
    ensures forall i :: !NeutralAt(edges, k, i)
  {
    forall i | LeavesAt(edges, k, i)
      ensures !NeutralAt(edges, k, i)
    {
      var g :| 0 <= g < |at| && at[g] == i;
      assert !Neutral(OutOf(edges, k)[g].condition);
    }
  }

  /** The linear full-chain walk moves along the first neutral edge of a block, and ends
      where there is none. */
  lemma LinearStepTakesFirst(p: Plan, k: Key)
    requires PlanShape(p)
    ensures if exists i :: NeutralAt(p.edges, k, i)
            then exists i :: FirstNeutralAt(p.edges, k, i) && NextInFullChain(p, k) == TargetAt(p, i)
            else NextInFullChain(p, k) == None
  {
    var at := OutPlaces(p.edges, k);
    var out := OutOf(p.edges, k);
    assert Out(p, k) == out;
    var i := NeutralFirst(out);
    if FirstNeutralEdge(out).Some? {
      NeutralIsFirst(p.edges, k, at, i);
    } else {
      NoneNeutral(p.edges, k, at);
    }
  }

  // --- One iteration -------------------------------------------------------------------------

  /** The block is not called: its provider is not set up, failed for good earlier in the
      request, has no driver, or is in cooldown. */
  predicate Barred(env: Env, n: Node, w: Walk) {
    var id := n.providerId;
    env.unconfigured(id) || id in w.dead || env.unknownDriver(id) ||
    (id != "" && id in w.breaker.until && env.resolvedAt(n.key) < w.breaker.until[id])
  }

  predicate Logical(n: Node) {
    n.kind in {StartKind, JoinKind}
  }

  /** The walk stands at a block and has budget left. */
  ghost predicate Stands(j: Job, st: State) {
    Running(j, st) && st.w.steps < j.max
  }

  /** A satisfied block ends the walk, unless success is told to lead on. */
  predicate EndsHere(j: Job, n: Node, r: Result) {
    Satisfies(j.env, n, r) && (!j.continues || n.onSuccess.word in {BlankPolicy, StopPolicy})
  }

  /** Where a block leads that was called and last got result r. */
  ghost predicate LeadsOn(j: Job, n: Node, r: Result, next: Option<Key>) {
    if Satisfies(j.env, n, r) then Leads(j.plan, n.key, n.onSuccess.word, SuccessCondition, next)
    else if r.ok then Leads(j.plan, n.key, Default(n.onEmpty.word, NextPolicy), EmptyCondition, next)
    else Leads(j.plan, n.key, Default(n.onFail.word, NextPolicy), FailCondition, next)
  }

  lemma BarredIsSkipped(env: Env, n: Node, w: Walk)
    ensures Resolve(env, n, w).0 <==> Barred(env, n, w)
    ensures Resolve(env, n, w).1.steps == w.steps && Resolve(env, n, w).1.answer == w.answer
    ensures Resolve(env, n, w).1.trace == w.trace && Resolve(env, n, w).1.dead == w.dead
  {
  }

  /** What a block that is called ends with. */
  ghost predicate Heard(j: Job, st: State, n: Node, m: nat) {
    Made(j.env, j.max, n, st.w.steps, m) && Over(j.env, j.max, n, st.w.steps, m)
  }

  lemma LogicalSteers(j: Job, st: State)
    requires PlanShape(j.plan) && Stands(j, st) && Logical(j.plan.nodes[st.node.value])
    ensures Step(j, st) == st.(node := Step(j, st).node) && Passes(j.plan, st.node.value, Step(j, st).node)
  {
    FirstNeutralPasses(j.plan, st.node.value);
  }

  lemma SkipSteers(j: Job, st: State)
    requires PlanShape(j.plan) && Stands(j, st)
    requires !Logical(j.plan.nodes[st.node.value]) && Barred(j.env, j.plan.nodes[st.node.value], st.w)
    ensures var n, next := j.plan.nodes[st.node.value], Step(j, st);
            && Leads(j.plan, n.key, Default(n.onFail.word, NextPolicy), FailCondition, next.node)
            && next == State(next.node, st.idx + 1, next.w, st.last, st.merged, None)
            && next.w == Walk(st.w.steps, st.w.dead, next.w.breaker, st.w.answer,
                              st.w.trace + [Record(st.idx, n.key, 1, SkipStatus, 0)])
  {
    var n := j.plan.nodes[st.node.value];
    BarredIsSkipped(j.env, n, st.w);
    NextLeads(j.plan, n, Fail);
  }

  lemma AdvanceGoesOn(j: Job, st: State, n: Node, run: NodeRun, w: Walk)
    requires (run.won <==> Satisfies(j.env, n, run.result)) && !EndsHere(j, n, run.result)
    ensures var next := Advance(j, st, n, run, w);
            && next == State(next.node, st.idx + 1, w, run.result, next.merged, None)
            && (!run.won ==> next.merged == st.merged)
  {
  }

  lemma OutcomeSteers(j: Job, st: State, n: Node, run: NodeRun, w: Walk)
    requires PlanShape(j.plan) && (run.won <==> Satisfies(j.env, n, run.result)) && !EndsHere(j, n, run.result)
    ensures LeadsOn(j, n, run.result, Advance(j, st, n, run, w).node)
  {
    WinsIfSatisfied(j.env, n, run.result);
    if run.won {
      NextLeads(j.plan, n, Success);
    } else if run.result.ok {
      NextLeads(j.plan, n, Empty);
    } else {
      NextLeads(j.plan, n, Fail);
    }
  }

  lemma CallSteers(j: Job, st: State) returns (m: nat)
    requires PlanShape(j.plan) && Stands(j, st)
    requires !Logical(j.plan.nodes[st.node.value]) && !Barred(j.env, j.plan.nodes[st.node.value], st.w)
    ensures var n, next := j.plan.nodes[st.node.value], Step(j, st);
            && Heard(j, st, n, m)
            && (EndsHere(j, n, RunAfter(j.env, n, m).result) <==> next.out.Some?)
            && next.last == RunAfter(j.env, n, m).result
            && next.w == Ends(j.env, n, st.idx, m, Resolve(j.env, n, st.w).1).1
            && (next.out.None? ==> LeadsOn(j, n, next.last, next.node) && next.idx == st.idx + 1)
  {
    var n := j.plan.nodes[st.node.value];
    BarredIsSkipped(j.env, n, st.w);
    var w := Resolve(j.env, n, st.w).1;
    m := AttemptsExactly(j.env, j.max, n, st.idx, w);
    var run := RunAfter(j.env, n, m);
    if !EndsHere(j, n, run.result) {
      AdvanceGoesOn(j, st, n, run, Ends(j.env, n, st.idx, m, w).1);
      OutcomeSteers(j, st, n, run, Ends(j.env, n, st.idx, m, w).1);
    }
  }

  ghost predicate FollowsResult(j: Job, n: Node, r: Result, next: State) {
    (next.out.Some? <==> EndsHere(j, n, r)) && (next.out.None? ==> LeadsOn(j, n, r, next.node))
  }

  /** It follows the result that the block called in this state ends with. */
  ghost predicate FollowsCall(j: Job, st: State, n: Node, next: State) {
    exists m: nat :: Heard(j, st, n, m) && FollowsResult(j, n, RunAfter(j.env, n, m).result, next)
  }

  /** Iteration n + 1 stands where the chain says, for the result the block of iteration n
      last got from its driver: a logical block passes on along its first neutral edge; a
      block that may not be called leads on as one that failed; a satisfied block ends the
      walk or leads on for success; and any other leads on for empty if the driver had
      succeeded, and for fail if it had not. */
  lemma WalkIsSteered(j: Job, st0: State, n: nat)
    requires PlanShape(j.plan) && Stands(j, Iterate(j, st0, n))
    ensures var st, next := Iterate(j, st0, n), Iterate(j, st0, n + 1);
            var block := j.plan.nodes[st.node.value];
            if Logical(block) then next.out.None? && Passes(j.plan, st.node.value, next.node)
            else if Barred(j.env, block, st.w) then next.out.None? &&
              Leads(j.plan, block.key, Default(block.onFail.word, NextPolicy), FailCondition, next.node)
            else FollowsCall(j, st, block, next)
  {
    var st := Iterate(j, st0, n);
    NextIterate(j, st0, n);
    var block := j.plan.nodes[st.node.value];
    if Logical(block) {
      LogicalSteers(j, st);
    } else if Barred(j.env, block, st.w) {
      SkipSteers(j, st);
    } else {
      var m := CallSteers(j, st);
    }
  }

  // --- Whole runs -------------------------------------------------------------------------------

  ghost predicate CalledAt(j: Job, st: State) {
    Stands(j, st) && !Logical(j.plan.nodes[st.node.value]) && !Barred(j.env, j.plan.nodes[st.node.value], st.w)
  }

  /** The block called in this state ends with r. */
  ghost predicate HeardAt(j: Job, st: State, r: Result) {
    CalledAt(j, st) && exists m: nat ::
      Heard(j, st, j.plan.nodes[st.node.value], m) && r == RunAfter(j.env, j.plan.nodes[st.node.value], m).result
  }

  /** Of the first n iterations the latest that called a block heard r; none did if r is
      the blank result. */
  ghost predicate LastHeard(j: Job, st0: State, n: nat, r: Result) {
    if n == 0 then r == BLANK
    else
      var st := Iterate(j, st0, n - 1);
      if CalledAt(j, st) then HeardAt(j, st, r) else LastHeard(j, st0, n - 1, r)
  }

  lemma StepKeepsLast(j: Job, st: State)
    requires PlanShape(j.plan) && st.out.None?
    ensures CalledAt(j, st) ==> HeardAt(j, st, Step(j, st).last)
    ensures !CalledAt(j, st) ==> Step(j, st).last == st.last
  {
    if Stands(j, st) {
      var n := j.plan.nodes[st.node.value];
      if CalledAt(j, st) {
        var m := CallSteers(j, st);
      } else if Logical(n) {
        LogicalSteers(j, st);
      } else {
        SkipSteers(j, st);
      }
    }
  }

  ghost predicate LastAgrees(j: Job, st0: State, n: nat) {
    Iterate(j, st0, n).out.None? ==> LastHeard(j, st0, n, Iterate(j, st0, n).last)
  }

  lemma LastStep(j: Job, st0: State, n: nat)
    requires PlanShape(j.plan) && LastAgrees(j, st0, n)
    ensures LastAgrees(j, st0, n + 1)
  {
    NextIterate(j, st0, n);
    if Iterate(j, st0, n).out.None? {
      StepKeepsLast(j, Iterate(j, st0, n));
    }
  }

  lemma {:induction false} LastIsHeard(j: Job, breaker: Breaker, n: nat)
    requires PlanShape(j.plan)
    ensures LastAgrees(j, Begin(j, breaker), n)
  {
    for i := 0 to n
      invariant LastAgrees(j, Begin(j, breaker), i)
    {
      LastStep(j, Begin(j, breaker), i);
    }
  }

  lemma ExhaustedVerdict(j: Job, st: State)
    ensures var out := Exhausted(j, st);
            && (out.status == OkStatus <==> st.merged.rows != [] || (st.last.kind == "ok" && !Blank(out.answer)))
            && (out.status == EmptyStatus <==> st.merged.rows == [] && st.last.kind == "ok" && Blank(out.answer))
            && out.status in {OkStatus, EmptyStatus, FailStatus} && out.rows == RowsUpTo(st.merged, j.count)
            && out.error == (if out.status == FailStatus && st.last.kind != "" then st.last.error else "")
            && out.answer == st.w.answer && out.steps == st.w.steps
  {
  }

  /** A fallback run ends at a block that is satisfied, and then well; or with no block to
      go to or no budget: well if it returns rows, or if the driver heard last reported
      success and the request holds an answer; empty if it reported success and there is
      none; and otherwise as failed, with the error that driver named. */
  lemma FallbackVerdict(j: Job, breaker: Breaker, n: nat)
    requires PlanShape(j.plan)
    requires Iterate(j, Begin(j, breaker), n).out.None? && Iterate(j, Begin(j, breaker), n + 1).out.Some?
    ensures var st, out := Iterate(j, Begin(j, breaker), n), Iterate(j, Begin(j, breaker), n + 1).out.value;
            if Stands(j, st) then
              && (exists r :: HeardAt(j, st, r) && EndsHere(j, j.plan.nodes[st.node.value], r))
              && out.status == OkStatus && out.error == ""
            else exists r :: LastHeard(j, Begin(j, breaker), n, r) && ExhaustedWith(r, st.w.answer, out)
  {
    var st := Iterate(j, Begin(j, breaker), n);
    NextIterate(j, Begin(j, breaker), n);
    if Stands(j, st) {
      StandsToEnd(j, st);
    } else {
      LastIsHeard(j, breaker, n);
      ExhaustedVerdict(j, st);
    }
  }

  predicate ExhaustedWith(r: Result, answer: string, out: Output) {
    && (out.status == OkStatus <==> out.rows != [] || (r.kind == "ok" && !Blank(answer)))
    && (out.status == EmptyStatus <==> out.rows == [] && r.kind == "ok" && Blank(answer))
    && out.status in {OkStatus, EmptyStatus, FailStatus} && out.answer == answer
    && out.error == (if out.status == FailStatus && r.kind != "" then r.error else "")
  }

  lemma StandsToEnd(j: Job, st: State)
    requires PlanShape(j.plan) && Stands(j, st) && Step(j, st).out.Some?
    ensures var out := Step(j, st).out.value;
            && (exists r :: HeardAt(j, st, r) && EndsHere(j, j.plan.nodes[st.node.value], r))
            && out.status == OkStatus && out.error == ""
  {
    if Logical(j.plan.nodes[st.node.value]) {
      LogicalSteers(j, st);
    } else if !CalledAt(j, st) {
      SkipSteers(j, st);
    } else {
      var m := CallSteers(j, st);
      assert HeardAt(j, st, Step(j, st).last);
    }
  }

  // --- Providers given up ------------------------------------------------------------------------

  /** The block called in this state is one of provider id, and failed for good. */
  ghost predicate FailsForGood(j: Job, st: State, id: string) {
    CalledAt(j, st) && j.plan.nodes[st.node.value].providerId == id &&
    exists r :: HeardAt(j, st, r) && r.permanent && !Satisfies(j.env, j.plan.nodes[st.node.value], r)
  }

  lemma StepBuries(j: Job, st: State, id: string)
    requires PlanShape(j.plan) && st.out.None?
    ensures id in Step(j, st).w.dead <==> id in st.w.dead || FailsForGood(j, st, id)
  {
    if CalledAt(j, st) {
      var n := j.plan.nodes[st.node.value];
      var m := CallSteers(j, st);
      BarredIsSkipped(j.env, n, st.w);
      assert HeardAt(j, st, RunAfter(j.env, n, m).result);
      if FailsForGood(j, st, id) {
        var r :| HeardAt(j, st, r) && r.permanent && !Satisfies(j.env, n, r);
        HeardOnce(j, st, r, m);
      }
    } else if Stands(j, st) {
      if Logical(j.plan.nodes[st.node.value]) {
        LogicalSteers(j, st);
      } else {
        SkipSteers(j, st);
      }
    }
  }

  lemma HeardOnce(j: Job, st: State, r: Result, m: nat)
    requires HeardAt(j, st, r) && Heard(j, st, j.plan.nodes[st.node.value], m)
    ensures r == RunAfter(j.env, j.plan.nodes[st.node.value], m).result
  {
    var n := j.plan.nodes[st.node.value];
    var m': nat :| Heard(j, st, n, m') && r == RunAfter(j.env, n, m').result;
    if m < m' {
      NotOverBefore(j.env, j.max, n, st.w.steps, m, m');
    } else if m' < m {
      NotOverBefore(j.env, j.max, n, st.w.steps, m', m);
    }
  }

  ghost predicate GivenUp(j: Job, st0: State, n: nat, id: string) {
    exists i: nat :: i < n && FailsForGood(j, Iterate(j, st0, i), id)
  }

  ghost predicate GivenUpAgrees(j: Job, st0: State, n: nat, id: string) {
    Iterate(j, st0, n).out.None? ==> (id in Iterate(j, st0, n).w.dead <==> GivenUp(j, st0, n, id))
  }

  lemma GivenUpStep(j: Job, st0: State, n: nat, id: string)
    requires PlanShape(j.plan) && GivenUpAgrees(j, st0, n, id)
    ensures GivenUpAgrees(j, st0, n + 1, id)
  {
    NextIterate(j, st0, n);
    if Iterate(j, st0, n).out.None? {
      StepBuries(j, Iterate(j, st0, n), id);
    }
  }

  /** A provider is given up for the rest of the request exactly when one of its blocks has
      ended with a permanent failure. */
  lemma {:induction false} GivenUpExactly(j: Job, breaker: Breaker, n: nat, id: string)
    requires PlanShape(j.plan) && Iterate(j, Begin(j, breaker), n).out.None?
    ensures id in Iterate(j, Begin(j, breaker), n).w.dead <==> GivenUp(j, Begin(j, breaker), n, id)
  {
    for i := 0 to n
      invariant GivenUpAgrees(j, Begin(j, breaker), i, id)
    {
      GivenUpStep(j, Begin(j, breaker), i, id);
    }
  }
}

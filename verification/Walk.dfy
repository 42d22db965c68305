/** State shared by a request's walk, and the attempt loop of one block. Drivers are an
    oracle from (block, attempt) to a result; clock readings are oracles too. */
module Walks {
  import opened Text
  import opened Graph
  import opened Chains
  import opened Merge
  import opened Cooldown

  datatype Result = Result(
    ok: bool,
    rows: seq<Row>,
    kind: string,
    error: string,
    permanent: bool,
    answer: string,
    stages: nat)

  const NO_RESULT := Result(false, [], "", "", false, "", 0)

  datatype Status = NoStatus | OkStatus | EmptyStatus | FailStatus | SkipStatus

  /** One persisted step: trace index, block, attempt number, outcome, rows counted. */
  datatype Record = Record(idx: nat, key: Key, attempt: nat, status: Status, results: nat)

  datatype Env = Env(
    call: (Key, nat) -> Result,
    unconfigured: string -> bool,
    unknownDriver: string -> bool,
    display: string -> string,
    norm: KeyOf,
    treatEmpty: bool,
    sparse: bool,
    threshold: int,
    cooldown: int,
    resolvedAt: Key -> int,
    observedAt: (Key, nat) -> int)

  datatype Walk = Walk(steps: int, dead: set<string>, breaker: Breaker, answer: string, trace: seq<Record>)

  datatype NodeRun = NodeRun(rows: seq<Row>, won: bool, result: Result, attempted: bool)

  datatype Stats = Stats(collected: nat, unique: nat, duplicates: int)

  datatype Output = Output(
    status: Status,
    rows: seq<Row>,
    used: string,
    steps: int,
    answer: string,
    error: string,
    stats: Option<Stats>)

  /** Closes a request: an answer alone turns an empty outcome into a success. */
  function Finalize(w: Walk, status: Status, rows: seq<Row>, used: string, error: string,
          stats: Option<Stats>): Output {
    Output(if status == EmptyStatus && !Blank(w.answer) then OkStatus
      else status, rows, used, w.steps, w.answer, error, stats)
  }

  function Names(rows: seq<Row>): string {
    Join(Providers(rows), ", ")
  }

  function Capped(rows: seq<Row>, count: int): (r: seq<Row>)
    ensures r <= rows && |r| == if 0 < count < |rows| then count else |rows|
  {
    if count > 0 && |rows| > count then rows[..count] else rows
  }

  // --- One attempt ------------------------------------------------------------------

  function TreatEmpty(env: Env, n: Node): bool {
    if n.treatEmpty.Some? then n.treatEmpty.value else env.treatEmpty
  }

  function Sparse(env: Env, n: Node): bool {
    if n.sparse.Some? then n.sparse.value else env.sparse
  }

  /** Rows that count: an answer block contributes its sources only when allowed to. */
  function StepRows(env: Env, n: Node, r: Result): seq<Row> {
    if IsAnswer(n) && !Sparse(env, n) then [] else r.rows
  }

  predicate HasAnswer(n: Node, r: Result) {
    IsAnswer(n) && !Blank(r.answer)
  }

  function AttemptStatus(env: Env, n: Node, r: Result): Status {
    if r.ok && (HasAnswer(n, r) || |StepRows(env, n, r)| > 0) then OkStatus
    else if r.ok then EmptyStatus
    else FailStatus
  }

  predicate Wins(env: Env, n: Node, r: Result) {
    r.ok &&
    if IsAnswer(n) then !Blank(r.answer) || |StepRows(env, n, r)| > 0
    else |r.rows| > 0 || !TreatEmpty(env, n)
  }

  function OutcomeOf(r: Result, treatEmpty: bool): Outcome {
    if !r.ok then Fail else if r.rows == [] && treatEmpty then Empty else Success
  }

  function OutcomeOfAnswer(r: Result, sparse: bool): Outcome {
    if !r.ok then Fail
    else if !Blank(r.answer) then Success
    else if sparse && |r.rows| > 0 then Success
    else Empty
  }

  function EdgeOutcome(env: Env, n: Node, r: Result): Outcome {
    if IsAnswer(n) then OutcomeOfAnswer(r, Sparse(env, n)) else OutcomeOf(r, TreatEmpty(env, n))
  }

  /** The attempt loop and the edge outcome classify a result alike. */
  lemma WinsIffSuccess(env: Env, n: Node, r: Result)
    ensures Wins(env, n, r) <==> EdgeOutcome(env, n, r) == Success
  {
  }

  function WriteAnswer(n: Node, r: Result, w: Walk): Walk {
    if HasAnswer(n, r) then w.(answer := r.answer) else w
  }

  function Settle(env: Env, n: Node, idx: nat, a: nat, r: Result, w: Walk): Walk {
    w.(trace := w.trace + [Record(idx, n.key, a + 1, AttemptStatus(env, n, r), |StepRows(env, n, r)|)],
       breaker := Observe(w.breaker, n.providerId, r.ok, env.threshold, env.cooldown, env.observedAt(n.key, a)).0)
  }

  function Extra(r: Result): nat {
    if r.stages > 1 then r.stages - 1 else 0
  }

  /** Everything one attempt does to the shared state once its step is reserved. */
  function AfterCall(env: Env, n: Node, idx: nat, a: nat, w: Walk): Walk {
    var r := env.call(n.key, a);
    var w1 := Settle(env, n, idx, a, r, WriteAnswer(n, r, w.(steps := w.steps + 1)));
    w1.(steps := w1.steps + Extra(r))
  }

  // --- One block ----------------------------------------------------------------------

  /** The attempts of a block from attempt a on, under a shared budget. */
  function ExecFrom(env: Env, max: int, n: Node, idx: nat, a: nat, w: Walk, last: Result, attempted: bool): (NodeRun,
          Walk)
    decreases n.retries + 1 - a
  {
    if a >= n.retries + 1 || w.steps >= max then (NodeRun([], false, last, attempted), w)
    else
      var r := env.call(n.key, a);
      var w1 := AfterCall(env, n, idx, a, w);
      if Wins(env, n, r) then (NodeRun(StepRows(env, n, r), true, r, true), w1)
      else if r.permanent then (NodeRun([], false, r, true), w1.(dead := w1.dead + {n.providerId}))
      else ExecFrom(env, max, n, idx, a + 1, w1, r, true)
  }

  function Exec(env: Env, max: int, n: Node, idx: nat, w: Walk): (NodeRun, Walk) {
    ExecFrom(env, max, n, idx, 0, w, NO_RESULT, false)
  }

  /** Whether a block must be skipped; looking the cooldown up may clear an expired one. */
  function Resolve(env: Env, n: Node, w: Walk): (bool, Walk) {
    if env.unconfigured(n.providerId) || n.providerId in w.dead then (true, w)
    else
      var (breaker, blocked) := Blocked(w.breaker, n.providerId, env.resolvedAt(n.key));
      (blocked || env.unknownDriver(n.providerId), w.(breaker := breaker))
  }

  function Skipped(n: Node, idx: nat, w: Walk): Walk {
    w.(trace := w.trace + [Record(idx, n.key, 1, SkipStatus, 0)])
  }

  /** A block that did not win reports a result whose edge outcome is not success. */
  lemma {:induction false} LoserIsNotSuccess(env: Env, max: int, n: Node, idx: nat, a: nat, w: Walk, last: Result,
          attempted: bool)
    requires !Wins(env, n, last)
    ensures var run := ExecFrom(env, max, n, idx, a, w, last, attempted).0;
            run.won <==> EdgeOutcome(env, n, run.result) == Success
    decreases n.retries + 1 - a
  {
    WinsIffSuccess(env, n, last);
    if a < n.retries + 1 && w.steps < max {
      var r := env.call(n.key, a);
      WinsIffSuccess(env, n, r);
      if !Wins(env, n, r) && !r.permanent {
        LoserIsNotSuccess(env, max, n, idx, a + 1, AfterCall(env, n, idx, a, w), r, true);
      }
    }
  }

  // --- What a block costs ----------------------------------------------------------------

  /** Steps the first a attempts of a block cost if they are all made. */
  function Cost(env: Env, k: Key, a: nat): nat {
    if a == 0 then 0 else Cost(env, k, a - 1) + 1 + Extra(env.call(k, a - 1))
  }

  function FullCost(env: Env, n: Node): nat {
    if IsProvider(n) && n.retries >= 0 then Cost(env, n.key, n.retries + 1) else 0
  }

  ghost predicate SingleCalls(env: Env) {
    forall k, a :: env.call(k, a).stages <= 1
  }

  lemma {:induction false} SingleCallCost(env: Env, k: Key, a: nat)
    requires SingleCalls(env)
    ensures Cost(env, k, a) == a
  {
    if a > 0 {
      SingleCallCost(env, k, a - 1);
    }
  }

  lemma {:induction false} CostGrows(env: Env, k: Key, a: nat, b: nat)
    requires a <= b
    ensures Cost(env, k, a) + (b - a) <= Cost(env, k, b)
    decreases b
  {
    if a < b {
      CostGrows(env, k, a, b - 1);
    }
  }

  /** A block spends at most the cost of its remaining attempts. */
  lemma {:induction false} ExecWithinCost(env: Env, max: int, n: Node, idx: nat, a: nat, w: Walk, last: Result,
          attempted: bool)
    requires a <= n.retries + 1
    ensures var w1 := ExecFrom(env, max, n, idx, a, w, last, attempted).1;
            w.steps <= w1.steps <= w.steps + Cost(env, n.key, n.retries + 1) - Cost(env, n.key, a)
    decreases n.retries + 1 - a
  {
    if a < n.retries + 1 && w.steps < max {
      CostGrows(env, n.key, a + 1, n.retries + 1);
      var r := env.call(n.key, a);
      if !Wins(env, n, r) && !r.permanent {
        ExecWithinCost(env, max, n, idx, a + 1, AfterCall(env, n, idx, a, w), r, true);
      }
    } else {
      CostGrows(env, n.key, a, n.retries + 1);
    }
  }

  /** With a budget that covers the block, no attempt is refused: the budget plays no part. */
  lemma {:induction false} ExecUnrefused(env: Env, max: int, more: int, n: Node, idx: nat, a: nat, w: Walk,
          last: Result, attempted: bool)
    requires a <= n.retries + 1
    requires w.steps + Cost(env, n.key, n.retries + 1) - Cost(env, n.key, a) <= max <= more
    ensures ExecFrom(env, max, n, idx, a, w, last, attempted) == ExecFrom(env, more, n, idx, a, w, last, attempted)
    decreases n.retries + 1 - a
  {
    if a < n.retries + 1 {
      CostGrows(env, n.key, a + 1, n.retries + 1);
      var r := env.call(n.key, a);
      if !Wins(env, n, r) && !r.permanent {
        ExecUnrefused(env, max, more, n, idx, a + 1, AfterCall(env, n, idx, a, w), r, true);
      }
    }
  }

  // --- The code's own form ------------------------------------------------------------------

  /** Per-request state: the attempt counter with its budget, the dead providers, the
      answer and the recorded steps, beside the process-wide breaker. */
  class Run {
    const maxAttempts: int
    const cooldowns: ProviderCooldowns
    var stepNo: int
    var dead: set<string>
    var answer: string
    var trace: seq<Record>

    ghost function View(): Walk
      reads this, cooldowns
    {
      Walk(stepNo, dead, cooldowns.View(), answer, trace)
    }

    function Snapshot(): (w: Walk)
      reads this, cooldowns
      ensures w == View()
    {
      Walk(stepNo, dead, Breaker(cooldowns.fails, cooldowns.until), answer, trace)
    }

    constructor (maxAttempts: int, cooldowns: ProviderCooldowns)
      ensures this.maxAttempts == maxAttempts && this.cooldowns == cooldowns
      ensures View() == Walk(0, {}, cooldowns.View(), "", [])
    {
      this.maxAttempts, this.cooldowns := maxAttempts, cooldowns;
      stepNo, dead, answer, trace := 0, {}, "", [];
    }

    method TakeStep() returns (granted: bool)
      modifies this`stepNo
      ensures granted <==> old(stepNo) < maxAttempts
      ensures stepNo == old(stepNo) + if granted then 1 else 0
    {
      if stepNo >= maxAttempts {
        return false;
      }
      stepNo := stepNo + 1;
      return true;
    }

    method AddSteps(n: int)
      modifies this`stepNo
      ensures stepNo == old(stepNo) + if n > 0 then n else 0
    {
      if n > 0 {
        stepNo := stepNo + n;
      }
    }

    predicate HasBudget()
      reads this
    {
      stepNo < maxAttempts
    }

    method ResolveNode(env: Env, n: Node) returns (skip: bool)
      modifies cooldowns
      ensures (skip, View()) == Resolve(env, n, old(View()))
    {
      skip := env.unconfigured(n.providerId) || n.providerId in dead;
      if !skip {
        var blocked := cooldowns.IsBlocked(n.providerId, env.resolvedAt(n.key));
        skip := blocked || env.unknownDriver(n.providerId);
      }
    }

    method RecordSkip(n: Node, idx: nat)
      modifies this`trace
      ensures View() == Skipped(n, idx, old(View()))
    {
      trace := trace + [Record(idx, n.key, 1, SkipStatus, 0)];
    }

    /** What follows the reservation of an attempt's step. */
    method Call(env: Env, idx: nat, n: Node, attempt: nat) returns (result: Result)
      modifies this`stepNo, this`answer, this`trace, cooldowns
      ensures result == env.call(n.key, attempt)
      ensures View() == AfterCall(env, n, idx, attempt, old(View()).(steps := old(stepNo) - 1))
    {
      result := env.call(n.key, attempt);
      if HasAnswer(n, result) {
        answer := result.answer;
      }
      trace := trace + [Record(idx, n.key, attempt + 1, AttemptStatus(env, n, result), |StepRows(env, n, result)|)];
      var tripped := cooldowns.Record(n.providerId, result.ok, env.threshold, env.cooldown,
        env.observedAt(n.key, attempt));
      AddSteps(result.stages - 1);
    }

    method ExecNode(env: Env, idx: nat, n: Node) returns (run: NodeRun)
      modifies this, cooldowns
      ensures (run, View()) == Exec(env, maxAttempts, n, idx, old(View()))
    {
      var result, attempted := NO_RESULT, false;
      var attempt := 0;
      while attempt < n.retries + 1
        invariant 0 <= attempt
        invariant ExecFrom(env, maxAttempts, n, idx, attempt, View(), result, attempted) ==
          Exec(env, maxAttempts, n, idx, old(View()))
        decreases n.retries + 1 - attempt
      {
        var granted := TakeStep();
        if !granted {
          break;
        }
        attempted := true;
        result := Call(env, idx, n, attempt);
        if Wins(env, n, result) {
          return NodeRun(StepRows(env, n, result), true, result, attempted);
        }
        if result.permanent {
          dead := dead + {n.providerId};
          return NodeRun([], false, result, attempted);
        }
        attempt := attempt + 1;
      }
      return NodeRun([], false, result, attempted);
    }
  }
}

/** The attempt loop of one block, read off the driver's results: which attempts are made,
    what they record and cost, and with what the block ends. */
module Attempts {
  import opened Text
  import opened Graph
  import opened Chains
  import opened Merge
  import opened Cooldown
  import opened Walks

  /** A block's own setting, or else the general one. */
  function Own(setting: Option<bool>, general: bool): bool {
    match setting
    case Some(own) => own
    case None => general
  }

  /** The driver of an answer block answered in words. */
  predicate Spoke(n: Node, r: Result) {
    r.ok && n.mode.word == AnswerMode && !Blank(r.answer)
  }

  /** The rows that count: the sources of an answer only where they are asked for. */
  function Usable(env: Env, n: Node, r: Result): seq<Row> {
    if n.mode.word == AnswerMode && !Own(n.sparse, env.sparse) then [] else r.rows
  }

  /** The result is what the block was asked for. */
  predicate Satisfies(env: Env, n: Node, r: Result) {
    r.ok && (Spoke(n, r) || Usable(env, n, r) != [] ||
      (n.mode.word != AnswerMode && !Own(n.treatEmpty, env.treatEmpty)))
  }

  function RecordOf(env: Env, n: Node, idx: nat, i: nat): Record {
    var r := env.call(n.key, i);
    var status := if !r.ok then FailStatus else if Spoke(n, r) || Usable(env, n, r) != [] then OkStatus
      else EmptyStatus;
    Record(idx, n.key, i + 1, status, |Usable(env, n, r)|)
  }

  /** What a block ends with that made no attempt. */
  const BLANK := Result(false, [], "", "", false, "", 0)

  // --- After the first m attempts ------------------------------------------------------------

  function Records(env: Env, n: Node, idx: nat, m: nat): seq<Record> {
    if m == 0 then [] else Records(env, n, idx, m - 1) + [RecordOf(env, n, idx, m - 1)]
  }

  /** An attempt uses one step, or as many as the upstream calls it made. */
  function Used(env: Env, k: Key, m: nat): nat {
    if m == 0 then 0
    else
      var stages := env.call(k, m - 1).stages;
      Used(env, k, m - 1) + if stages > 1 then stages else 1
  }

  /** The answer of the request: whatever an answer block's driver said last, failed or not. */
  function Said(env: Env, n: Node, m: nat, answer: string): string {
    if m == 0 then answer
    else
      var r := env.call(n.key, m - 1);
      if n.mode.word == AnswerMode && !Blank(r.answer) then r.answer else Said(env, n, m - 1, answer)
  }

  function Observed(env: Env, n: Node, m: nat, breaker: Breaker): Breaker {
    if m == 0 then breaker
    else
      Observe(Observed(env, n, m - 1, breaker), n.providerId, env.call(n.key, m - 1).ok, env.threshold, env.cooldown,
        env.observedAt(n.key, m - 1)).0
  }

  function WalkAfter(env: Env, n: Node, idx: nat, m: nat, w: Walk): Walk {
    Walk(w.steps + Used(env, n.key, m), w.dead, Observed(env, n, m, w.breaker), Said(env, n, m, w.answer),
         w.trace + Records(env, n, idx, m))
  }

  lemma OneMoreAttempt(env: Env, n: Node, idx: nat, m: nat, w: Walk)
    ensures AfterCall(env, n, idx, m, WalkAfter(env, n, idx, m, w)) == WalkAfter(env, n, idx, m + 1, w)
  {
    var records := Records(env, n, idx, m);
    assert w.trace + (records + [RecordOf(env, n, idx, m)]) == w.trace + records + [RecordOf(env, n, idx, m)];
  }

  lemma WinsIfSatisfied(env: Env, n: Node, r: Result)
    ensures Wins(env, n, r) <==> Satisfies(env, n, r)
    ensures StepRows(env, n, r) == Usable(env, n, r)
  {
  }

  // --- Which attempts are made ----------------------------------------------------------------

  /** Attempt i was made and another may follow. */
  predicate GoesOn(env: Env, n: Node, i: nat) {
    !Satisfies(env, n, env.call(n.key, i)) && !env.call(n.key, i).permanent
  }

  /** The first m attempts were made: each found budget left and followed on those before. */
  ghost predicate Made(env: Env, max: int, n: Node, steps: int, m: nat) {
    && (m > 0 ==> m <= n.retries + 1)
    && (forall i: nat :: i < m ==> steps + Used(env, n.key, i) < max)
    && (forall i: nat :: i + 1 < m ==> GoesOn(env, n, i))
  }

  /** None follows: the last was enough or final, or retries or budget are used up. */
  predicate Over(env: Env, max: int, n: Node, steps: int, m: nat) {
    m >= n.retries + 1 || steps + Used(env, n.key, m) >= max || (m > 0 && !GoesOn(env, n, m - 1))
  }

  function RunAfter(env: Env, n: Node, m: nat): NodeRun {
    if m == 0 then NodeRun([], false, BLANK, false)
    else
      var r := env.call(n.key, m - 1);
      if Satisfies(env, n, r) then NodeRun(Usable(env, n, r), true, r, true) else NodeRun([], false, r, true)
  }

  function DeadAfter(env: Env, n: Node, m: nat): set<string> {
    if m > 0 && !Satisfies(env, n, env.call(n.key, m - 1)) && env.call(n.key, m - 1).permanent then {n.providerId}
      else {}
  }

  /** What the loop returns and leaves when m attempts are made. */
  function Ends(env: Env, n: Node, idx: nat, m: nat, w: Walk): (NodeRun, Walk) {
    (RunAfter(env, n, m), WalkAfter(env, n, idx, m, w).(dead := w.dead + DeadAfter(env, n, m)))
  }

  lemma {:induction false} AttemptsFrom(env: Env, max: int, n: Node, idx: nat, w: Walk, a: nat) returns (m: nat)
    requires Made(env, max, n, w.steps, a) && (a > 0 ==> GoesOn(env, n, a - 1))
    ensures Made(env, max, n, w.steps, m) && Over(env, max, n, w.steps, m)
    ensures var at := WalkAfter(env, n, idx, a, w);
            ExecFrom(env, max, n, idx, a, at, RunAfter(env, n, a).result, a > 0) == Ends(env, n, idx, m, w)
    decreases n.retries + 1 - a
  {
    var at := WalkAfter(env, n, idx, a, w);
    assert w.dead + {} == w.dead;
    m := a;
    if a < n.retries + 1 && at.steps < max {
      OneMoreAttempt(env, n, idx, a, w);
      WinsIfSatisfied(env, n, env.call(n.key, a));
      m := a + 1;
      if GoesOn(env, n, a) {
        m := AttemptsFrom(env, max, n, idx, w, a + 1);
      }
    }
  }

  lemma NotOverBefore(env: Env, max: int, n: Node, steps: int, m: nat, m': nat)
    requires Made(env, max, n, steps, m') && m < m'
    ensures !Over(env, max, n, steps, m)
  {
    assert steps + Used(env, n.key, m) < max;
    assert m > 0 ==> GoesOn(env, n, m - 1);
  }

  /** A block makes its attempts in order until one satisfies it or fails for good, its
      retries are used up or the budget is; there is one such number of attempts. Each is
      recorded, charged and reported to the breaker; the block ends with the last result,
      and with rows only if that satisfied it. */
  lemma AttemptsExactly(env: Env, max: int, n: Node, idx: nat, w: Walk) returns (m: nat)
    ensures Made(env, max, n, w.steps, m) && Over(env, max, n, w.steps, m)
    ensures Exec(env, max, n, idx, w) == Ends(env, n, idx, m, w)
    ensures forall m': nat :: Made(env, max, n, w.steps, m') && Over(env, max, n, w.steps, m') ==> m' == m
  {
    assert WalkAfter(env, n, idx, 0, w) == w;
    m := AttemptsFrom(env, max, n, idx, w, 0);
    forall m': nat | Made(env, max, n, w.steps, m') && Over(env, max, n, w.steps, m')
      ensures m' == m
    {
      if m < m' {
        NotOverBefore(env, max, n, w.steps, m, m');
      } else if m' < m {
        NotOverBefore(env, max, n, w.steps, m', m);
      }
    }
  }
}

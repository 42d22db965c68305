/** A whole request: the budget a setting gives, and which executor runs a plan. */
module Engine {
  import opened Text
  import opened Graph
  import opened Chains
  import opened Validate
  import opened Plans
  import opened Cooldown
  import opened Walks
  import FC = FullChain
  import FS = FirstSuccess
  import Legacy
  import Scheduler
  import Budget
  import Migration
  import Results
  import Saved
  import Steering
  import Verdicts

  /** What the executors rely on. */
  ghost predicate Runnable(p: Plan) {
    PlanShape(p) && Distinct(p.order) && Acyclic(AllArcs(p.edges))
  }

  lemma AcceptedIsRunnable(c: Chain)
    requires Accepts(c)
    ensures PlanOf(c).Some? && Runnable(PlanOf(c).value)
  {
    AcceptedIsWellFormed(c);
    PlanOfWellFormed(c);
    PlanIndex(c);
  }

  function FallbackJob(env: Env, p: Plan, setting: int, count: int): FS.Job
    requires forall i :: 0 <= i < |p.order| ==> p.order[i] in p.nodes
  {
    FS.Job(env, p, Budget.BudgetOf(setting), count, HasStartBlock(p))
  }

  function ChainJob(env: Env, p: Plan, setting: int, count: int): FC.Job {
    FC.Job(env, p, Budget.BudgetOf(setting), count)
  }

  /** What a request on a plan returns; the waves of a full-chain run in plan order. */
  ghost function Answer(env: Env, p: Plan, setting: int, count: int, breaker: Breaker): Output
    requires Runnable(p)
  {
    if p.mode.FullChain? then
      if HasStartBlock(p) then FC.FullChainOutput(ChainJob(env, p, setting, count), breaker)
      else Legacy.LegacyOutput(ChainJob(env, p, setting, count), breaker)
    else
      var j := FallbackJob(env, p, setting, count);
      FS.WalkEnds(j, FS.Begin(j, breaker));
      FS.Iterate(j, FS.Begin(j, breaker), |p.nodes| + 1).out.value
  }

  method Request(env: Env, p: Plan, setting: int, count: int, cooldowns: ProviderCooldowns) returns (out: Output)
    requires Runnable(p)
    modifies cooldowns
    ensures out == Answer(env, p, setting, count, old(cooldowns.View()))
  {
    var maxAttempts := setting;
    if maxAttempts <= 0 {
      maxAttempts := 10;
    }
    var logical := false;
    for i := 0 to |p.order|
      invariant logical <==> exists h :: 0 <= h < i && p.nodes[p.order[h]].kind.StartKind?
    {
      if p.nodes[p.order[i]].kind.StartKind? {
        logical := true;
      }
    }
    if p.mode.FullChain? {
      if logical {
        out := Scheduler.RunFullChain(FC.Job(env, p, maxAttempts, count), cooldowns);
      } else {
        out := Legacy.RunFullChainLegacy(FC.Job(env, p, maxAttempts, count), cooldowns);
      }
    } else {
      out := FS.RunFirstSuccess(FS.Job(env, p, maxAttempts, count, logical), cooldowns);
    }
  }

  // --- Opening an old chain -------------------------------------------------------------------

  lemma {:induction false} EndsBefore(j: FS.Job, st: FS.State, m: nat, n: nat)
    requires m <= n && FS.Iterate(j, st, m).out.Some?
    ensures FS.Iterate(j, st, n).out == FS.Iterate(j, st, m).out
  {
    FS.EndIsFinal(j, st, m, n);
  }

  lemma PlanMode(c: Chain)
    requires PlanOf(c).Some?
    ensures PlanOf(c).value.mode == c.mode
  {
  }

  lemma OpenedRunnable(c: Chain, s: Key, at: nat)
    requires Accepts(c) && !Blank(s) && !HasKey(c, s) && at <= |c.nodes|
    requires forall n :: n in c.nodes ==> n.kind != StartKind
    ensures SoleEntry(c)
    ensures var after := PlanOf(Migration.Migrate(c, s, Entry(c), at));
            after.Some? && Runnable(after.value) && after.value.mode == c.mode
  {
    Saved.OpenedIsAccepted(c, s, at);
    AcceptedIsRunnable(Migration.Migrate(c, s, Entry(c), at));
    PlanMode(Migration.Migrate(c, s, Entry(c), at));
  }

  lemma OpenedPlans(c: Chain, s: Key, at: nat)
    requires Accepts(c) && !Blank(s) && !HasKey(c, s) && at <= |c.nodes|
    requires forall n :: n in c.nodes ==> n.kind != StartKind
    ensures WellFormed(c) && PlanOf(c).Some? && Runnable(PlanOf(c).value) && PlanOf(c).value.mode == c.mode
    ensures var after := PlanOf(Migration.Migrate(c, s, Entry(c), at));
            && after.Some? && Runnable(after.value) && after.value.mode == c.mode
            && Migration.MigratedPlan(PlanOf(c).value, after.value, s, at) && !HasStartBlock(PlanOf(c).value)
  {
    AcceptedIsWellFormed(c);
    AcceptedIsRunnable(c);
    PlanMode(c);
    OpenedRunnable(c, s, at);
    Migration.MigrationPlans(c, s, at);
  }

  lemma OneNodeMore(p: Plan, p': Plan, s: Key, at: nat)
    requires Migration.MigratedPlan(p, p', s, at)
    ensures |p'.nodes| == |p.nodes| + 1
  {
    assert |p'.nodes.Keys| == |p'.nodes| && |p.nodes.Keys| == |p.nodes|;
  }

  lemma SameEnd(j: FS.Job, j': FS.Job, breaker: Breaker, n: nat, m: nat)
    requires FS.Iterate(j', FS.Begin(j', breaker), n + 1) == FS.Iterate(j, FS.Begin(j, breaker), n) && m == n + 1
    ensures FS.Iterate(j', FS.Begin(j', breaker), m).out == FS.Iterate(j, FS.Begin(j, breaker), n).out
  {
  }

  lemma OpenedFallback(j: FS.Job, j': FS.Job, s: Key, at: nat, breaker: Breaker)
    requires Migration.MigratedPlan(j.plan, j'.plan, s, at) && !j.continues && j.max > 0
    requires j' == j.(plan := j'.plan, continues := j'.continues)
    ensures FS.Iterate(j', FS.Begin(j', breaker), |j'.plan.nodes| + 1).out ==
      FS.Iterate(j, FS.Begin(j, breaker), |j.plan.nodes| + 1).out
  {
    OneNodeMore(j.plan, j'.plan, s, at);
    Migration.IterationsSame(j, j', s, at, breaker, |j.plan.nodes| + 1);
    SameEnd(j, j', breaker, |j.plan.nodes| + 1, |j'.plan.nodes| + 1);
  }

  lemma AnswerIsWalk(env: Env, p: Plan, setting: int, count: int, breaker: Breaker)
    requires Runnable(p) && !p.mode.FullChain?
    ensures var j := FallbackJob(env, p, setting, count);
            FS.Iterate(j, FS.Begin(j, breaker), |p.nodes| + 1).out == Some(Answer(env, p, setting, count, breaker))
  {
    var j := FallbackJob(env, p, setting, count);
    FS.WalkEnds(j, FS.Begin(j, breaker));
  }

  lemma WalksAnswerAlike(env: Env, p: Plan, p': Plan, setting: int, count: int, breaker: Breaker)
    requires Runnable(p) && Runnable(p') && !p.mode.FullChain? && !p'.mode.FullChain?
    requires var j, j' := FallbackJob(env, p, setting, count), FallbackJob(env, p', setting, count);
             FS.Iterate(j', FS.Begin(j', breaker), |p'.nodes| + 1).out ==
             FS.Iterate(j, FS.Begin(j, breaker), |p.nodes| + 1).out
    ensures Answer(env, p', setting, count, breaker) == Answer(env, p, setting, count, breaker)
  {
    AnswerIsWalk(env, p, setting, count, breaker);
    AnswerIsWalk(env, p', setting, count, breaker);
  }

  /** In first-success mode a request on an accepted old chain returns the same before and
      after the editor has given it a Start block: for every driver, setting, row count and
      state of the breaker. Both chains have plans that can be run. */
  lemma OpenedAnswersAlike(c: Chain, s: Key, at: nat, p: Plan, p': Plan, env: Env, setting: int, count: int,
          breaker: Breaker)
    requires Accepts(c) && c.mode != FullChain && !Blank(s) && !HasKey(c, s) && at <= |c.nodes|
    requires (forall n :: n in c.nodes ==> n.kind != StartKind) && SoleEntry(c)
    requires PlanOf(c) == Some(p) && PlanOf(Migration.Migrate(c, s, Entry(c), at)) == Some(p')
    ensures Runnable(p) && Runnable(p')
    ensures Answer(env, p', setting, count, breaker) == Answer(env, p, setting, count, breaker)
  {
    OpenedPlans(c, s, at);
    OpenedAlike(p, p', s, at, env, setting, count, breaker);
  }

  lemma OpenedAlike(p: Plan, p': Plan, s: Key, at: nat, env: Env, setting: int, count: int, breaker: Breaker)
    requires Runnable(p) && Runnable(p') && Migration.MigratedPlan(p, p', s, at) && !HasStartBlock(p)
    requires !p.mode.FullChain? && !p'.mode.FullChain?
    ensures Answer(env, p', setting, count, breaker) == Answer(env, p, setting, count, breaker)
  {
    OpenedFallback(FallbackJob(env, p, setting, count), FallbackJob(env, p', setting, count), s, at, breaker);
    WalksAnswerAlike(env, p, p', setting, count, breaker);
  }

  // --- What every answer looks like ---------------------------------------------------------------

  /** The iteration that ends a fallback run. */
  lemma LastIteration(j: FS.Job, st: FS.State, n: nat) returns (m: nat)
    requires st.out.None? && FS.Iterate(j, st, n).out.Some?
    ensures FS.Iterate(j, st, m).out.None? && FS.Iterate(j, st, m + 1).out == FS.Iterate(j, st, n).out
  {
    m := n;
    while FS.Iterate(j, st, m).out.Some?
      invariant m <= n
      invariant FS.Iterate(j, st, m).out.Some? ==> FS.Iterate(j, st, m).out == FS.Iterate(j, st, n).out
      invariant FS.Iterate(j, st, m).out.None? ==> FS.Iterate(j, st, m + 1).out == FS.Iterate(j, st, n).out
      decreases m
    {
      if FS.Iterate(j, st, m - 1).out.Some? {
        EndsBefore(j, st, m - 1, n);
      }
      m := m - 1;
    }
  }

  /** A request ends as ok, empty or failed; it names an error only if it failed, returns
      rows only if it is ok and no more than asked for, and is never empty beside an
      answer. */
  predicate WellShaped(out: Output, count: int) {
    && out.status in {OkStatus, EmptyStatus, FailStatus}
    && (out.error != "" ==> out.status == FailStatus)
    && (out.rows != [] ==> out.status == OkStatus)
    && (count > 0 ==> |out.rows| <= count)
    && (out.status == EmptyStatus ==> Blank(out.answer))
  }

  lemma FallbackWellShaped(j: FS.Job, breaker: Breaker, n: nat)
    requires PlanShape(j.plan)
    requires FS.Iterate(j, FS.Begin(j, breaker), n).out.None? && FS.Iterate(j, FS.Begin(j, breaker), n + 1).out.Some?
    ensures WellShaped(FS.Iterate(j, FS.Begin(j, breaker), n + 1).out.value, j.count)
  {
    Steering.FallbackVerdict(j, breaker, n);
    Results.FirstSuccessReturnsWinners(j, breaker, n);
  }

  /** Whichever executor runs it. */
  lemma AnswersWellShaped(env: Env, p: Plan, setting: int, count: int, breaker: Breaker)
    requires Runnable(p)
    ensures WellShaped(Answer(env, p, setting, count, breaker), count)
  {
    if p.mode.FullChain? {
      if HasStartBlock(p) {
        Verdicts.FullChainIsJudged(ChainJob(env, p, setting, count), breaker);
      } else {
        Verdicts.LinearIsJudged(ChainJob(env, p, setting, count), breaker);
      }
    } else {
      var j := FallbackJob(env, p, setting, count);
      FS.WalkEnds(j, FS.Begin(j, breaker));
      var n := LastIteration(j, FS.Begin(j, breaker), |p.nodes| + 1);
      FallbackWellShaped(j, breaker, n);
    }
  }
}

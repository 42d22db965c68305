/** Why confluence needs its hypotheses. Siblings race when the budget does not cover their
    wave, when they share a provider instance, and when they attach answers to failures. */
module Races {
  import opened Text
  import opened Graph
  import opened Chains
  import opened Cooldown
  import opened Walks
  import opened FullChain
  import opened Branches
  import Refinement

  /** The block would call its provider if it were next. */
  predicate Callable(j: Job, k: Key, w: Walk) {
    k in j.plan.nodes && IsProvider(j.plan.nodes[k]) && j.plan.nodes[k].retries >= 0 &&
      !Resolve(j.env, j.plan.nodes[k], w).0
  }

  lemma CallSpends(j: Job, k: Key, idx: nat, w: Walk)
    requires Callable(j, k, w) && w.steps < j.max
    ensures var (block, w') := Process(j.env, j.max, j.plan.nodes[k], idx, w);
            block.status != SkipStatus && w'.steps > w.steps
  {
    var n := j.plan.nodes[k];
    var w1 := Resolve(j.env, n, w).1;
    Refinement.ExecAttempts(j.env, j.max, n, idx, 0, w1, NO_RESULT, false);
    var r := j.env.call(n.key, 0);
    if !Wins(j.env, n, r) && !r.permanent {
      ExecWithinCost(j.env, j.max, n, idx, 1, AfterCall(j.env, n, idx, 0, w1), r, true);
    }
  }

  lemma NothingLeft(j: Job, n: Node, idx: nat, w: Walk)
    requires IsProvider(n) && w.steps >= j.max
    ensures Process(j.env, j.max, n, idx, w).0.status == SkipStatus
  {
  }

  /** One branch after the other, from the launch of a wave of two. */
  lemma OneThenOther(j: Job, wave: seq<Key>, idx: map<Key, nat>, w: Walk, a: Key, b: Key) returns (sched: seq<Key>)
    requires a != b && a in wave && b in wave && Elements(wave) == {a, b} && a in idx && b in idx
    requires a in j.plan.nodes && b in j.plan.nodes
    ensures var c := Interleave(j, idx, Launch(wave, w), sched);
            var (first, mid) := Process(j.env, j.max, j.plan.nodes[a], idx[a], w);
            && Complete(c) && a in c.pcs && b in c.pcs && c.pcs[a].block == first
            && (c.pcs[b].block, c.w) == Process(j.env, j.max, j.plan.nodes[b], idx[b], mid)
  {
    var c0 := Launch(wave, w);
    assert c0.pcs.Keys == {a, b};
    var first := SoloSchedule(j, idx, c0, a);
    SoloIsProcess(j.env, j.max, j.plan.nodes[a], idx[a], w);
    var c1 := Interleave(j, idx, c0, first);
    var second := SoloSchedule(j, idx, c1, b);
    SoloIsProcess(j.env, j.max, j.plan.nodes[b], idx[b], c1.w);
    InterleaveAppend(j, idx, c0, first, second);
    sched := first + second;
  }

  /** A wave of two run as a before b: what each leaves. */
  ghost predicate RunAs(j: Job, wave: seq<Key>, a: Key, b: Key, sched: seq<Key>, at: Progress)
    requires WaveHeld(j.plan, wave) && a in wave && b in wave
  {
    var idx, c := WaveIdx(j.plan, wave, at.nextIdx), WaveUnder(j, wave, sched, at);
    && a in idx && b in idx && Complete(c) && a in c.pcs && b in c.pcs
    && var (first, mid) := Process(j.env, j.max, j.plan.nodes[a], idx[a], at.w);
       c.pcs[a].block == first && (c.pcs[b].block, c.w) == Process(j.env, j.max, j.plan.nodes[b], idx[b], mid)
  }

  lemma BothOrders(j: Job, a: Key, b: Key, at: Progress) returns (s: seq<Key>, t: seq<Key>)
    requires WaveHeld(j.plan, [a, b]) && a != b
    ensures RunAs(j, [a, b], a, b, s, at) && RunAs(j, [a, b], b, a, t, at)
  {
    var wave := [a, b];
    var idx := WaveIdx(j.plan, wave, at.nextIdx);
    WaveIdxAt(j.plan, wave, at.nextIdx, 0);
    WaveIdxAt(j.plan, wave, at.nextIdx, 1);
    assert wave[0] in j.plan.nodes && wave[1] in j.plan.nodes;
    s := OneThenOther(j, wave, idx, at.w, a, b);
    t := OneThenOther(j, wave, idx, at.w, b, a);
  }

  /** With one attempt left, any two siblings that would both use it race: there are
      completing schedules in which the one, and in which the other, is left out. */
  lemma LastAttemptRaces(j: Job, a: Key, b: Key, at: Progress) returns (s: seq<Key>, t: seq<Key>)
    requires WaveHeld(j.plan, [a, b]) && a != b
    requires Callable(j, a, at.w) && Callable(j, b, at.w) && at.w.steps + 1 == j.max
    ensures Complete(WaveUnder(j, [a, b], s, at)) && Complete(WaveUnder(j, [a, b], t, at))
    ensures BlocksOf(WaveUnder(j, [a, b], s, at)) != BlocksOf(WaveUnder(j, [a, b], t, at))
  {
    s, t := BothOrders(j, a, b, at);
    var idx := WaveIdx(j.plan, [a, b], at.nextIdx);
    CallSpends(j, a, idx[a], at.w);
    CallSpends(j, b, idx[b], at.w);
    NothingLeft(j, j.plan.nodes[a], idx[a], Process(j.env, j.max, j.plan.nodes[b], idx[b], at.w).1);
    assert BlocksOf(WaveUnder(j, [a, b], s, at))[a].status != BlocksOf(WaveUnder(j, [a, b], t, at))[a].status;
  }

  // --- Siblings on one instance ----------------------------------------------------------------

  /** A permanent failure at the first attempt takes the instance from everyone else. */
  lemma FailureKills(j: Job, k: Key, idx: nat, w: Walk)
    requires Callable(j, k, w) && w.steps < j.max
    requires !Wins(j.env, j.plan.nodes[k], j.env.call(j.plan.nodes[k].key, 0))
    requires j.env.call(j.plan.nodes[k].key, 0).permanent
    ensures j.plan.nodes[k].providerId in Process(j.env, j.max, j.plan.nodes[k], idx, w).1.dead
  {
  }

  /** Siblings that share an instance race if one fails for good, whatever the budget and
      whatever the other's driver does: the other runs or is skipped. */
  lemma SharedInstanceRaces(j: Job, a: Key, b: Key, at: Progress) returns (s: seq<Key>, t: seq<Key>)
    requires WaveHeld(j.plan, [a, b]) && a != b && at.w.steps < j.max
    requires Callable(j, a, at.w) && Callable(j, b, at.w) && j.plan.nodes[a].providerId == j.plan.nodes[b].providerId
    requires !Wins(j.env, j.plan.nodes[a], j.env.call(j.plan.nodes[a].key, 0))
    requires j.env.call(j.plan.nodes[a].key, 0).permanent
    ensures Complete(WaveUnder(j, [a, b], s, at)) && Complete(WaveUnder(j, [a, b], t, at))
    ensures BlocksOf(WaveUnder(j, [a, b], s, at)) != BlocksOf(WaveUnder(j, [a, b], t, at))
  {
    s, t := BothOrders(j, a, b, at);
    var idx := WaveIdx(j.plan, [a, b], at.nextIdx);
    FailureKills(j, a, idx[a], at.w);
    CallSpends(j, b, idx[b], at.w);
    assert BlocksOf(WaveUnder(j, [a, b], s, at))[b].status != BlocksOf(WaveUnder(j, [a, b], t, at))[b].status;
  }

  // --- Siblings that answer and fail ------------------------------------------------------------

  /** Every attempt of the block fails, and yet brings this answer. */
  ghost predicate FailsSaying(env: Env, n: Node, text: string) {
    IsAnswer(n) && !Blank(text) && forall a: nat :: !env.call(n.key, a).ok && env.call(n.key, a).answer == text
  }

  lemma {:induction false} ExecSays(env: Env, max: int, n: Node, idx: nat, a: nat, w: Walk, last: Result,
          attempted: bool, text: string)
    requires FailsSaying(env, n, text) && !last.ok
    ensures var (run, w') := ExecFrom(env, max, n, idx, a, w, last, attempted);
            && w'.answer == (if a < n.retries + 1 && w.steps < max then text else w.answer)
            && BlockOf(n, run).answer == ""
            && forall q :: q != n.providerId ==>
               (q in w'.dead <==> q in w.dead) && SlotOf(w'.breaker, q) == SlotOf(w.breaker, q)
    decreases n.retries + 1 - a
  {
    if a < n.retries + 1 && w.steps < max {
      var r := env.call(n.key, a);
      forall q | q != n.providerId
        ensures SlotOf(AfterCall(env, n, idx, a, w).breaker, q) == SlotOf(w.breaker, q)
      {
        OthersUntouched(w.breaker, n.providerId, q, r.ok, env.threshold, env.cooldown, env.observedAt(n.key, a));
      }
      if !r.permanent {
        ExecSays(env, max, n, idx, a + 1, AfterCall(env, n, idx, a, w), r, true, text);
      }
    }
  }

  lemma ProcessSays(j: Job, k: Key, other: Key, idx: nat, w: Walk, text: string)
    requires Callable(j, k, w) && w.steps < j.max && FailsSaying(j.env, j.plan.nodes[k], text)
    requires Callable(j, other, w) && j.plan.nodes[k].providerId != j.plan.nodes[other].providerId
    ensures var (block, w') := Process(j.env, j.max, j.plan.nodes[k], idx, w);
            && block.answer == "" && w'.answer == text && Callable(j, other, w')
            && w'.steps <= w.steps + FullCost(j.env, j.plan.nodes[k])
  {
    var n, m := j.plan.nodes[k], j.plan.nodes[other];
    var w1 := Resolve(j.env, n, w).1;
    ExecSays(j.env, j.max, n, idx, 0, w1, NO_RESULT, false, text);
    ExecWithinCost(j.env, j.max, n, idx, 0, w1, NO_RESULT, false);
    OthersUntouched(w.breaker, n.providerId, m.providerId, true, 0, 0, j.env.resolvedAt(n.key));
    SlotsAgree(w.breaker, m.providerId, true, 0, 0, j.env.resolvedAt(m.key));
    SlotsAgree(Process(j.env, j.max, n, idx, w).1.breaker, m.providerId, true, 0, 0, j.env.resolvedAt(m.key));
  }

  lemma SaysLast(j: Job, a: Key, b: Key, at: Progress, x: string, y: string, idx: map<Key, nat>)
    requires Callable(j, a, at.w) && Callable(j, b, at.w) && j.plan.nodes[a].providerId != j.plan.nodes[b].providerId
    requires a in idx && b in idx && at.w.steps + FullCost(j.env, j.plan.nodes[a]) < j.max
    requires FailsSaying(j.env, j.plan.nodes[a], x) && FailsSaying(j.env, j.plan.nodes[b], y)
    ensures var (first, mid) := Process(j.env, j.max, j.plan.nodes[a], idx[a], at.w);
            var (second, end) := Process(j.env, j.max, j.plan.nodes[b], idx[b], mid);
            first.answer == "" && second.answer == "" && end.answer == y
  {
    ProcessSays(j, a, b, idx[a], at.w, x);
    var mid := Process(j.env, j.max, j.plan.nodes[a], idx[a], at.w).1;
    var w1 := Resolve(j.env, j.plan.nodes[b], mid).1;
    ExecSays(j.env, j.max, j.plan.nodes[b], idx[b], 0, w1, NO_RESULT, false, y);
  }

  lemma SaidLast(j: Job, wave: seq<Key>, a: Key, b: Key, sched: seq<Key>, at: Progress, x: string, y: string)
    requires WaveHeld(j.plan, wave) && a in wave && b in wave && Elements(wave) == {a, b}
    requires RunAs(j, wave, a, b, sched, at)
    requires Callable(j, a, at.w) && Callable(j, b, at.w) && j.plan.nodes[a].providerId != j.plan.nodes[b].providerId
    requires at.w.steps + FullCost(j.env, j.plan.nodes[a]) < j.max
    requires FailsSaying(j.env, j.plan.nodes[a], x) && FailsSaying(j.env, j.plan.nodes[b], y)
    ensures var c := WaveUnder(j, wave, sched, at);
            Complete(c) && c.w.answer == y && forall k :: k in c.pcs ==> c.pcs[k].block.answer == ""
  {
    var idx := WaveIdx(j.plan, wave, at.nextIdx);
    SaysLast(j, a, b, at, x, y, idx);
    KeysStay(j, idx, Launch(wave, at.w), sched);
    assert Launch(wave, at.w).pcs.Keys == {a, b};
  }

  /** Siblings on different instances, with budget for both, race for the request's answer if
      both attach answers to failures: no block holds one, and the last to write decides. */
  lemma FailedAnswersRace(j: Job, a: Key, b: Key, at: Progress, x: string, y: string) returns (s: seq<Key>, t: seq<Key>)
    requires WaveHeld(j.plan, [a, b]) && a != b
    requires Callable(j, a, at.w) && Callable(j, b, at.w) && j.plan.nodes[a].providerId != j.plan.nodes[b].providerId
    requires at.w.steps + FullCost(j.env, j.plan.nodes[a]) < j.max
    requires at.w.steps + FullCost(j.env, j.plan.nodes[b]) < j.max
    requires FailsSaying(j.env, j.plan.nodes[a], x) && FailsSaying(j.env, j.plan.nodes[b], y)
    ensures var c, c' := WaveUnder(j, [a, b], s, at), WaveUnder(j, [a, b], t, at);
            && Complete(c) && Complete(c') && c.w.answer == y && c'.w.answer == x
            && (forall k :: k in c.pcs ==> c.pcs[k].block.answer == "") &&
               (forall k :: k in c'.pcs ==> c'.pcs[k].block.answer == "")
  {
    s, t := BothOrders(j, a, b, at);
    assert Elements([a, b]) == {a, b};
    SaidLast(j, [a, b], a, b, s, at, x, y);
    SaidLast(j, [a, b], b, a, t, at, y, x);
  }
}

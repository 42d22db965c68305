/** The sliding-log rate limiter: hit logs compacted in place, and what its decisions mean
    in terms of the calls made. Times are clock readings in nanoseconds. */
module RateLimit {

  /** Hit log per key, oldest first, and when the limiter last dropped expired logs. */
  datatype State = State(hits: map<string, seq<int>>, lastSweep: int)

  const MINUTE := 60_000_000_000

  function Later(times: seq<int>, cutoff: int): seq<int> {
    if times == [] then []
    else Later(times[..|times| - 1], cutoff) + if times[|times| - 1] > cutoff then [times[|times| - 1]] else []
  }

  function HitsOf(st: State, key: string): seq<int> {
    if key in st.hits then st.hits[key] else []
  }

  function Swept(hits: map<string, seq<int>>, cutoff: int): map<string, seq<int>> {
    map k | k in hits && Later(hits[k], cutoff) != [] :: Later(hits[k], cutoff)
  }

  function WindowOf(window: int): int {
    if window <= 0 then MINUTE else window
  }

  /** The state in which a call looks at its log. */
  function Prepared(st: State, window: int, now: int): State {
    if now - st.lastSweep >= window then State(Swept(st.hits, now - window), now) else st
  }

  /** Counts the hits after the cutoff; the log keeps those, and this call if it fits. */
  function Judge(st: State, key: string, limit: int, cutoff: int, now: int): (State, bool) {
    var kept := Later(HitsOf(st, key), cutoff);
    if |kept| >= limit then (st.(hits := st.hits[key := kept]), false)
    else (st.(hits := st.hits[key := kept + [now]]), true)
  }

  function Decide(st: State, key: string, limit: int, window: int, now: int): (State, bool) {
    if limit <= 0 then (st, true)
    else Judge(Prepared(st, WindowOf(window), now), key, limit, now - WindowOf(window), now)
  }

  // --- The code's own form -----------------------------------------------------------------

  /** A slice: a backing array and how much of it is in use. */
  datatype Slice = Slice(data: array<int>, len: nat)

  /** Keeps the later times, overwriting the slice from its start. */
  method Compact(s: Slice, cutoff: int) returns (kept: Slice)
    requires s.len <= s.data.Length
    modifies s.data
    ensures kept.data == s.data && kept.len <= s.len
    ensures kept.data[..kept.len] == Later(old(s.data[..s.len]), cutoff)
  {
    ghost var before := s.data[..s.len];
    var j := 0;
    for i := 0 to s.len
      invariant j <= i && s.data[..j] == Later(before[..i], cutoff)
      invariant s.data[i..s.len] == before[i..]
    {
      var t := s.data[i];
      LaterNext(before, i, cutoff);
      assert t == before[i] && s.data[i + 1..s.len] == before[i + 1..];
      if t > cutoff {
        s.data[j] := t;
        j := j + 1;
      }
    }
    assert before[..s.len] == before;
    kept := Slice(s.data, j);
  }

  lemma LaterNext(times: seq<int>, i: nat, cutoff: int)
    requires i < |times|
    ensures Later(times[..i + 1], cutoff) == if times[i] > cutoff then Later(times[..i], cutoff) + [times[i]]
      else Later(times[..i], cutoff)
  {
    assert times[..i + 1] == times[..i] + [times[i]];
    LaterSnoc(times[..i], times[i], cutoff);
  }

  /** Appends in place while there is room, else into a larger array. */
  method Push(s: Slice, x: int) returns (r: Slice)
    requires s.len <= s.data.Length
    modifies s.data
    ensures r.len == s.len + 1 <= r.data.Length && r.data[..r.len] == old(s.data[..s.len]) + [x]
    ensures r.data == s.data || fresh(r.data)
  {
    if s.len < s.data.Length {
      s.data[s.len] := x;
      r := Slice(s.data, s.len + 1);
    } else {
      var bigger := new int[2 * s.len + 1];
      forall i | 0 <= i < s.len {
        bigger[i] := s.data[i];
      }
      bigger[s.len] := x;
      r := Slice(bigger, s.len + 1);
    }
  }

  lemma SameMap(a: map<string, seq<int>>, b: map<string, seq<int>>)
    requires a.Keys == b.Keys && forall k :: k in a ==> a[k] == b[k]
    ensures a == b
  {
  }

  lemma Overwritten(m: map<string, seq<int>>, key: string, a: seq<int>, b: seq<int>)
    ensures m[key := a][key := b] == m[key := b]
  {
  }

  lemma Judged(st: State, ready: State, key: string, limit: int, window: int, now: int)
    requires limit > 0 && window > 0 && ready == Prepared(st, window, now)
    ensures Decide(st, key, limit, window, now) == Judge(ready, key, limit, now - window, now)
  {
  }

  /** The logs when those in todo are still to be swept. */
  ghost function PartSwept(was: map<string, seq<int>>, todo: set<string>, cutoff: int): map<string, seq<int>> {
    map k | k in was && (k in todo || Later(was[k], cutoff) != []) :: if k in todo then was[k]
      else Later(was[k], cutoff)
  }

  lemma PartSweptStep(was: map<string, seq<int>>, todo: set<string>, cutoff: int, key: string)
    requires key in todo && todo <= was.Keys
    ensures var before, kept := PartSwept(was, todo, cutoff), Later(was[key], cutoff);
            && key in before && before[key] == was[key]
            && PartSwept(was, todo - {key}, cutoff) == if kept == [] then before - {key} else before[key := kept]
  {
  }

  class RateLimiter {
    var hits: map<string, Slice>
    var lastSweep: int
    const limit: int
    const window: int

    ghost function Arrays(): set<object>
      reads this`hits
    {
      set k | k in hits :: hits[k].data
    }

    /** Every slice fits its array, and no two keys share one. */
    ghost predicate Valid()
      reads this`hits
    {
      && (forall k :: k in hits ==> hits[k].len <= hits[k].data.Length)
      && (forall a, b :: a in hits && b in hits && a != b ==> hits[a].data != hits[b].data)
    }

    ghost function Logs(): map<string, seq<int>>
      requires Valid()
      reads this`hits, Arrays()
    {
      map k | k in hits :: hits[k].data[..hits[k].len]
    }

    ghost function View(): State
      requires Valid()
      reads this, Arrays()
    {
      State(Logs(), lastSweep)
    }

    constructor (limit: int, window: int, now: int)
      ensures Valid() && View() == State(map[], now) && this.limit == limit && this.window == window
      ensures fresh(Arrays())
    {
      this.limit, this.window, hits, lastSweep := limit, window, map[], now;
    }

    method SweepOne(key: string, cutoff: int)
      requires Valid() && key in hits
      modifies this`hits, hits[key].data
      ensures Valid() && Arrays() <= old(Arrays())
      ensures var was := old(Logs());
              var kept := Later(was[key], cutoff);
              Logs() == if kept == [] then was - {key} else was[key := kept]
    {
      ghost var was := Logs();
      var kept := Compact(hits[key], cutoff);
      hits := if kept.len == 0 then hits - {key} else hits[key := kept];
      ghost var after, times := Logs(), Later(was[key], cutoff);
      SameMap(after, if times == [] then was - {key} else was[key := times]);
    }

    method Sweep(cutoff: int)
      requires Valid()
      modifies this`hits, Arrays()
      ensures Valid() && Arrays() <= old(Arrays())
      ensures Logs() == Swept(old(Logs()), cutoff)
    {
      var todo := hits.Keys;
      ghost var was := Logs();
      SameMap(was, PartSwept(was, todo, cutoff));
      while todo != {}
        invariant Valid() && Arrays() <= old(Arrays()) && todo <= was.Keys
        invariant Logs() == PartSwept(was, todo, cutoff)
      {
        var key :| key in todo;
        PartSweptStep(was, todo, cutoff, key);
        assert key in Logs();
        todo := todo - {key};
        SweepOne(key, cutoff);
      }
      SameMap(PartSwept(was, {}, cutoff), Swept(was, cutoff));
    }

    /** A key met for the first time gets an empty log. */
    method Open(key: string)
      requires Valid()
      modifies this`hits
      ensures Valid() && key in hits && fresh(Arrays() - old(Arrays()))
      ensures Logs() == old(Logs())[key := HitsOf(old(View()), key)]
    {
      ghost var was := View();
      if key !in hits {
        var empty := new int[0];
        hits := hits[key := Slice(empty, 0)];
        assert empty[..0] == [];
      }
      ghost var after := Logs();
      SameMap(after, was.hits[key := HitsOf(was, key)]);
    }

    method CompactAt(key: string, cutoff: int) returns (count: nat)
      requires Valid() && key in hits
      modifies this`hits, hits[key].data
      ensures Valid() && key in hits && Arrays() <= old(Arrays())
      ensures var kept := Later(old(Logs())[key], cutoff);
              count == |kept| && Logs() == old(Logs())[key := kept]
    {
      ghost var was := Logs();
      var kept := Compact(hits[key], cutoff);
      count, hits := kept.len, hits[key := kept];
      ghost var after := Logs();
      SameMap(after, was[key := Later(was[key], cutoff)]);
    }

    method Note(key: string, now: int)
      requires Valid() && key in hits
      modifies this`hits, hits[key].data
      ensures Valid() && fresh(Arrays() - old(Arrays()))
      ensures Logs() == old(Logs())[key := old(Logs())[key] + [now]]
    {
      ghost var was := Logs();
      var grown := Push(hits[key], now);
      hits := hits[key := grown];
      ghost var after := Logs();
      SameMap(after, was[key := was[key] + [now]]);
    }

    /** Compacts the log of a key, which may be new. */
    method Refresh(key: string, cutoff: int) returns (count: nat)
      requires Valid()
      modifies this`hits, Arrays()
      ensures Valid() && key in hits && fresh(Arrays() - old(Arrays()))
      ensures var kept := Later(HitsOf(old(View()), key), cutoff);
              count == |kept| && Logs() == old(Logs())[key := kept]
    {
      ghost var was := View();
      Open(key);
      count := CompactAt(key, cutoff);
      Overwritten(was.hits, key, HitsOf(was, key), Later(HitsOf(was, key), cutoff));
    }

    method Admit(key: string, limit: int, cutoff: int, now: int) returns (ok: bool)
      requires Valid()
      modifies this`hits, Arrays()
      ensures Valid() && fresh(Arrays() - old(Arrays()))
      ensures (View(), ok) == Judge(old(View()), key, limit, cutoff, now)
    {
      ghost var was := View();
      var count := Refresh(key, cutoff);
      ok := count < limit;
      if ok {
        Note(key, now);
        ghost var kept := Later(HitsOf(was, key), cutoff);
        Overwritten(was.hits, key, kept, kept + [now]);
      }
    }

    method AllowLimit(key: string, limit: int, window: int, now: int) returns (ok: bool)
      requires Valid()
      modifies this, Arrays()
      ensures Valid() && fresh(Arrays() - old(Arrays()))
      ensures (View(), ok) == Decide(old(View()), key, limit, window, now)
    {
      if limit <= 0 {
        return true;
      }
      ok := Check(key, limit, if window <= 0 then MINUTE else window, now);
    }

    method Check(key: string, limit: int, window: int, now: int) returns (ok: bool)
      requires Valid() && limit > 0 && window > 0
      modifies this, Arrays()
      ensures Valid() && fresh(Arrays() - old(Arrays()))
      ensures (View(), ok) == Decide(old(View()), key, limit, window, now)
    {
      ghost var was := View();
      Prepare(window, now);
      ghost var ready := View();
      ok := Admit(key, limit, now - window, now);
      Judged(was, ready, key, limit, window, now);
    }

    method Stamp(now: int)
      requires Valid()
      modifies this`lastSweep
      ensures Valid() && Arrays() == old(Arrays()) && Logs() == old(Logs()) && lastSweep == now
    {
      lastSweep := now;
    }

    /** Drops expired logs periodically. */
    method Prepare(window: int, now: int)
      requires Valid()
      modifies this, Arrays()
      ensures Valid() && Arrays() <= old(Arrays())
      ensures View() == Prepared(old(View()), window, now)
    {
      if now - lastSweep >= window {
        SweepNow(now - window, now);
      }
    }

    method SweepNow(cutoff: int, now: int)
      requires Valid()
      modifies this, Arrays()
      ensures Valid() && Arrays() <= old(Arrays())
      ensures lastSweep == now && Logs() == Swept(old(Logs()), cutoff)
    {
      Sweep(cutoff);
      Stamp(now);
    }

    method Allow(key: string, now: int) returns (ok: bool)
      requires Valid()
      modifies this, Arrays()
      ensures Valid() && fresh(Arrays() - old(Arrays()))
      ensures (View(), ok) == Decide(old(View()), key, limit, window, now)
    {
      ok := AllowLimit(key, limit, window, now);
    }
  }

  // --- Decisions in terms of the calls made ---------------------------------------------------

  /** A call and the answer it got. */
  datatype Call = Call(key: string, limit: int, window: int, at: int, allowed: bool)

  /** The moment a call looks back to: a minute ago, unless it names a positive window. */
  function Start(call: Call): int {
    call.at - if call.window > 0 then call.window else 60_000_000_000
  }

  /** The state before a call and after it. A limiter that never sweeps is one that takes
      every call to come right after a sweep. */
  ghost predicate Follows(sweeps: bool, st: State, call: Call, st': State) {
    Decide(if sweeps then st else st.(lastSweep := call.at), call.key, call.limit, call.window, call.at) ==
      (st', call.allowed)
  }

  ghost predicate FollowsAt(sweeps: bool, h: seq<Call>, states: seq<State>, i: nat) {
    i < |h| && i + 1 < |states| ==> Follows(sweeps, states[i], h[i], states[i + 1])
  }

  predicate Timely(h: seq<Call>, i: nat) {
    0 < i < |h| ==> h[i - 1].at <= h[i].at
  }

  /** A history of calls at non-decreasing times, each answered as the limiter answers. */
  ghost predicate Genuine(sweeps: bool, h: seq<Call>, states: seq<State>, born: int) {
    && |states| == |h| + 1 && states[0] == State(map[], born)
    && (forall i: nat {:trigger Timely(h, i)} :: Timely(h, i))
    && (forall i: nat :: FollowsAt(sweeps, h, states, i))
  }

  /** No earlier limited call looked back less far than to where call i does. */
  predicate Covered(h: seq<Call>, i: nat)
    requires i < |h|
  {
    forall n :: 0 <= n < i && h[n].limit > 0 ==> Start(h[n]) <= Start(h[i])
  }

  predicate Counts(call: Call, key: string) {
    call.limit > 0 && call.allowed && call.key == key
  }

  /** Times of those of the first i calls for a key that were admitted under a limit. */
  function Admitted(h: seq<Call>, i: nat, key: string): seq<int>
    requires i <= |h|
  {
    if i == 0 then []
    else if Counts(h[i - 1], key) then Admitted(h, i - 1, key) + [h[i - 1].at]
    else Admitted(h, i - 1, key)
  }

  lemma LaterSnoc(times: seq<int>, x: int, cutoff: int)
    ensures Later(times + [x], cutoff) == if x > cutoff then Later(times, cutoff) + [x] else Later(times, cutoff)
  {
    assert (times + [x])[..|times|] == times;
  }

  lemma {:induction false} LaterTwice(times: seq<int>, low: int, high: int)
    requires low <= high
    ensures Later(Later(times, low), high) == Later(times, high)
  {
    if times != [] {
      var front, last := times[..|times| - 1], times[|times| - 1];
      LaterTwice(front, low, high);
      if last > low {
        LaterSnoc(Later(front, low), last, high);
      } else {
        assert Later(times, low) == Later(front, low);
      }
    }
  }

  /** Sweeping drops nothing that this or a later decision could count. */
  lemma SweepKeeps(st: State, window: int, now: int, key: string, cutoff: int)
    requires cutoff >= now - window
    ensures Later(HitsOf(Prepared(st, window, now), key), cutoff) == Later(HitsOf(st, key), cutoff)
  {
    if key in st.hits {
      LaterTwice(st.hits[key], now - window, cutoff);
    }
  }

  lemma DecideCounts(st: State, key: string, limit: int, window: int, now: int)
    ensures Decide(st, key, limit, window, now).1 <==>
      limit <= 0 || |Later(HitsOf(st, key), now - WindowOf(window))| < limit
  {
    var width := WindowOf(window);
    SweepKeeps(st, width, now, key, now - width);
    assert limit > 0 ==>
      Decide(st, key, limit, window, now).1 == (|Later(HitsOf(Prepared(st, width, now), key), now - width)| < limit);
  }

  lemma DecideLog(st: State, call: string, limit: int, window: int, now: int, key: string)
    requires limit > 0
    ensures var (st', ok) := Decide(st, call, limit, window, now);
            var log := HitsOf(Prepared(st, WindowOf(window), now), key);
            var kept := Later(log, now - WindowOf(window));
            HitsOf(st', key) == if key != call then log else if ok then kept + [now] else kept
  {
  }

  /** What a call leaves in any log, as far as this or a later decision can count it. */
  lemma StepKeepsLog(st: State, call: string, limit: int, window: int, now: int, key: string, cutoff: int)
    requires limit > 0 && cutoff >= now - WindowOf(window)
    ensures var (st', ok) := Decide(st, call, limit, window, now);
            var log := Later(HitsOf(st, key), cutoff);
            Later(HitsOf(st', key), cutoff) == if ok && call == key && now > cutoff then log + [now] else log
  {
    var width := WindowOf(window);
    DecideLog(st, call, limit, window, now, key);
    SweepKeeps(st, width, now, key, cutoff);
    LaterAgain(HitsOf(Prepared(st, width, now), key), now - width, cutoff, now);
  }

  lemma LaterAgain(times: seq<int>, low: int, high: int, x: int)
    requires low <= high
    ensures Later(Later(times, low), high) == Later(times, high)
    ensures Later(Later(times, low) + [x], high) == if x > high then Later(times, high) + [x] else Later(times, high)
  {
    LaterTwice(times, low, high);
    LaterSnoc(Later(times, low), x, high);
  }

  /** From a cutoff, a log counts as before with this call added if it counts. */
  predicate LogKept(st: State, call: Call, st': State, key: string, cutoff: int) {
    cutoff >= Start(call) || call.limit <= 0 ==>
      Later(HitsOf(st', key), cutoff) ==
      Later(HitsOf(st, key), cutoff) + if Counts(call, key) && call.at > cutoff then [call.at] else []
  }

  /** What a call amounts to for later decisions: it was judged by the hits in its window,
      and every log counts, from where it looks back to, as it should. */
  ghost predicate Abides(st: State, call: Call, st': State) {
    && (call.allowed <==> call.limit <= 0 || |Later(HitsOf(st, call.key), Start(call))| < call.limit)
    && forall key, cutoff :: LogKept(st, call, st', key, cutoff)
  }

  ghost predicate Abiding(h: seq<Call>, states: seq<State>) {
    && |states| == |h| + 1 && states[0].hits == map[]
    && forall i: nat :: AbidesAt(h, states, i)
  }

  ghost predicate AbidesAt(h: seq<Call>, states: seq<State>, i: nat) {
    i < |h| && i + 1 < |states| ==> Abides(states[i], h[i], states[i + 1])
  }

  lemma FollowsLogs(sweeps: bool, st: State, call: Call, st': State, key: string, cutoff: int)
    requires Follows(sweeps, st, call, st')
    ensures LogKept(st, call, st', key, cutoff)
  {
    if call.limit > 0 && cutoff >= Start(call) {
      var from := if sweeps then st else st.(lastSweep := call.at);
      StepKeepsLog(from, call.key, call.limit, call.window, call.at, key, cutoff);
    }
  }

  lemma FollowsJudges(sweeps: bool, st: State, call: Call, st': State)
    requires Follows(sweeps, st, call, st')
    ensures call.allowed <==> call.limit <= 0 || |Later(HitsOf(st, call.key), Start(call))| < call.limit
  {
    DecideCounts(if sweeps then st else st.(lastSweep := call.at), call.key, call.limit, call.window, call.at);
  }

  lemma FollowsAbides(sweeps: bool, st: State, call: Call, st': State)
    requires Follows(sweeps, st, call, st')
    ensures Abides(st, call, st')
  {
    FollowsJudges(sweeps, st, call, st');
    forall key, cutoff
      ensures LogKept(st, call, st', key, cutoff)
    {
      FollowsLogs(sweeps, st, call, st', key, cutoff);
    }
  }

  lemma GenuineAbides(sweeps: bool, h: seq<Call>, states: seq<State>, born: int)
    requires Genuine(sweeps, h, states, born)
    ensures Abiding(h, states)
  {
    forall i: nat
      ensures AbidesAt(h, states, i)
    {
      if i < |h| {
        assert FollowsAt(sweeps, h, states, i);
        FollowsAbides(sweeps, states[i], h[i], states[i + 1]);
      }
    }
  }

  lemma LogStep(st: State, call: Call, st': State, before: seq<int>, key: string, cutoff: int)
    requires Abides(st, call, st') && (call.limit > 0 ==> Start(call) <= cutoff)
    requires Later(HitsOf(st, key), cutoff) == Later(before, cutoff)
    ensures Later(HitsOf(st', key), cutoff) == Later(if Counts(call, key) then before + [call.at] else before, cutoff)
  {
    assert LogKept(st, call, st', key, cutoff);
    LaterSnoc(before, call.at, cutoff);
  }

  /** Whatever was swept or compacted, the log counts as the full history of admissions
      does, from any cutoff that no limited call so far looked back less far than. */
  lemma {:induction false} LogIsHistory(h: seq<Call>, states: seq<State>, i: nat, key: string, cutoff: int)
    requires Abiding(h, states) && i <= |h| && forall n :: 0 <= n < i && h[n].limit > 0 ==> Start(h[n]) <= cutoff
    ensures Later(HitsOf(states[i], key), cutoff) == Later(Admitted(h, i, key), cutoff)
  {
    if i > 0 {
      assert AbidesAt(h, states, i - 1);
      LogIsHistory(h, states, i - 1, key, cutoff);
      LogStep(states[i - 1], h[i - 1], states[i], Admitted(h, i - 1, key), key, cutoff);
    }
  }

  /** The answer the history calls for: a refusal exactly when the limit is positive and as
      many counted admissions really lie in the window before the call. */
  predicate Deserved(h: seq<Call>, i: nat)
    requires i < |h|
  {
    h[i].allowed <==> h[i].limit <= 0 || |Later(Admitted(h, i, h[i].key), Start(h[i]))| < h[i].limit
  }

  lemma JudgedByHistory(h: seq<Call>, states: seq<State>, i: nat)
    requires Abiding(h, states) && i < |h| && Covered(h, i)
    ensures Deserved(h, i)
  {
    assert AbidesAt(h, states, i);
    LogIsHistory(h, states, i, h[i].key, Start(h[i]));
  }

  /** Whatever windows its calls named, the limiter judges a call as the history calls for
      when no earlier limited call looked back less far. */
  lemma DecisionIsExact(sweeps: bool, h: seq<Call>, states: seq<State>, born: int, i: nat)
    requires Genuine(sweeps, h, states, born) && i < |h| && Covered(h, i)
    ensures Deserved(h, i)
  {
    GenuineAbides(sweeps, h, states, born);
    JudgedByHistory(h, states, i);
  }

  lemma {:induction false} TimesRise(h: seq<Call>, m: nat, n: nat)
    requires m <= n < |h| && forall i: nat {:trigger Timely(h, i)} :: Timely(h, i)
    ensures h[m].at <= h[n].at
  {
    if m < n {
      assert Timely(h, n);
      TimesRise(h, m, n - 1);
    }
  }

  predicate OneWindow(h: seq<Call>) {
    forall m, n :: 0 <= m < n < |h| ==> WindowOf(h[m].window) == WindowOf(h[n].window)
  }

  /** With one window throughout, every call is covered. */
  lemma OneWindowCovers(sweeps: bool, h: seq<Call>, states: seq<State>, born: int, i: nat)
    requires Genuine(sweeps, h, states, born) && OneWindow(h) && i < |h|
    ensures Covered(h, i)
  {
    forall n | 0 <= n < i
      ensures Start(h[n]) <= Start(h[i])
    {
      TimesRise(h, n, i);
    }
  }

  // --- No window overflows -----------------------------------------------------------------------

  /** Admissions in the half-open interval from x, x included, of the given length. */
  function Within(times: seq<int>, x: int, length: int): nat {
    if times == [] then 0
    else Within(times[..|times| - 1], x, length) + if x <= times[|times| - 1] < x + length then 1 else 0
  }

  lemma {:induction false} WithinIsLater(times: seq<int>, x: int, length: int, cutoff: int)
    requires cutoff < x
    ensures Within(times, x, length) <= |Later(times, cutoff)|
  {
    if times != [] {
      WithinIsLater(times[..|times| - 1], x, length, cutoff);
    }
  }

  lemma WithinSnoc(times: seq<int>, t: int, x: int, length: int)
    ensures Within(times + [t], x, length) == Within(times, x, length) + if x <= t < x + length then 1 else 0
  {
    assert (times + [t])[..|times|] == times;
  }

  lemma OneMoreFits(before: seq<int>, call: Call, width: int, key: string, limit: int, x: int)
    requires Within(before, x, width) <= limit
    requires call.key == key ==> call.limit <= limit && WindowOf(call.window) >= width
    requires call.allowed && call.key == key ==> call.limit <= 0 || |Later(before, Start(call))| < call.limit
    ensures Within(if Counts(call, key) then before + [call.at] else before, x, width) <= limit
  {
    WithinSnoc(before, call.at, x, width);
    if x <= call.at < x + width && call.key == key {
      WithinIsLater(before, x, width, Start(call));
    }
  }

  /** No half-open interval as long as the shortest window holds more admissions of a key
      than the largest limit its calls named. */
  lemma WindowNeverOverflows(h: seq<Call>, states: seq<State>, width: int, born: int, key: string, limit: int, x: int)
    requires limit >= 0 && Genuine(true, h, states, born) && forall i: nat :: i < |h| ==> Covered(h, i)
    requires forall n :: 0 <= n < |h| && h[n].key == key ==> h[n].limit <= limit && WindowOf(h[n].window) >= width
    ensures Within(Admitted(h, |h|, key), x, width) <= limit
  {
    GenuineAbides(true, h, states, born);
    NoOverflow(h, states, width, |h|, key, limit, x);
  }

  lemma {:induction false} NoOverflow(h: seq<Call>, states: seq<State>, width: int, i: nat, key: string, limit: int,
          x: int)
    requires limit >= 0 && Abiding(h, states) && i <= |h| && forall n: nat :: n < |h| ==> Covered(h, n)
    requires forall n :: 0 <= n < |h| && h[n].key == key ==> h[n].limit <= limit && WindowOf(h[n].window) >= width
    ensures Within(Admitted(h, i, key), x, width) <= limit
  {
    if i > 0 {
      NoOverflow(h, states, width, i - 1, key, limit, x);
      JudgedByHistory(h, states, i - 1);
      OneMoreFits(Admitted(h, i - 1, key), h[i - 1], width, key, limit, x);
    }
  }

  // --- What the sweep forgets ----------------------------------------------------------------------

  lemma {:induction false} LaterExact(times: seq<int>, cutoff: int, t: int)
    ensures t in Later(times, cutoff) <==> t in times && t > cutoff
  {
    if times != [] {
      LaterExact(times[..|times| - 1], cutoff, t);
    }
  }

  /** A limited call that comes a window or more after the last sweep leaves no other key
      without a hit since the start of its window, and keeps all of these; one that comes
      sooner leaves the logs of other keys alone. */
  lemma SweepForgets(st: State, key: string, limit: int, window: int, now: int, other: string, t: int)
    requires limit > 0 && other != key
    ensures var width := if window > 0 then window else 60_000_000_000;
            var after := Decide(st, key, limit, window, now).0;
            if now - st.lastSweep >= width then
              && (t in HitsOf(after, other) <==> t in HitsOf(st, other) && t > now - width)
              && (other in after.hits ==> after.hits[other] != []) && after.lastSweep == now
            else
              && HitsOf(after, other) == HitsOf(st, other) && (other in after.hits <==> other in st.hits)
              && after.lastSweep == st.lastSweep
  {
    var width := WindowOf(window);
    LaterExact(HitsOf(st, other), now - width, t);
  }

  // --- The sweep is invisible ---------------------------------------------------------------------

  /** A limiter that never sweeps answers the same calls alike. */
  lemma SweepInvisible(h: seq<Call>, states: seq<State>, h': seq<Call>, states': seq<State>, born: int)
    requires Genuine(true, h, states, born) && Genuine(false, h', states', born)
    requires |h'| == |h| && forall n :: 0 <= n < |h| ==> h'[n] == h[n].(allowed := h'[n].allowed)
    requires forall i: nat :: i < |h| ==> Covered(h, i)
    ensures h' == h
  {
    GenuineAbides(true, h, states, born);
    GenuineAbides(false, h', states', born);
    SameAnswers(h, states, h', states', |h|);
  }

  lemma {:induction false} SameAnswers(h: seq<Call>, states: seq<State>, h': seq<Call>, states': seq<State>, i: nat)
    requires Abiding(h, states) && Abiding(h', states') && i <= |h|
    requires |h'| == |h| && forall n :: 0 <= n < |h| ==> h'[n] == h[n].(allowed := h'[n].allowed)
    requires forall n: nat :: n < |h| ==> Covered(h, n)
    ensures forall n :: 0 <= n < i ==> h'[n] == h[n]
    ensures forall key :: Admitted(h', i, key) == Admitted(h, i, key)
  {
    if i > 0 {
      SameAnswers(h, states, h', states', i - 1);
      assert Covered(h, i - 1) && Covered(h', i - 1);
      JudgedByHistory(h, states, i - 1);
      JudgedByHistory(h', states', i - 1);
    }
  }

  // --- Which windows may be mixed -------------------------------------------------------------------

  ghost predicate Names(h: seq<Call>, u: int, v: int) {
    forall n :: 0 <= n < |h| ==> h[n].window == u || h[n].window == v
  }

  /** A limiter whose calls name these two windows always answers as the history calls for. */
  ghost predicate JudgesExactly(u: int, v: int) {
    forall h: seq<Call>, states: seq<State>, born: int ::
      Genuine(true, h, states, born) && Names(h, u, v) ==> forall i: nat :: i < |h| ==> Deserved(h, i)
  }

  /** One call under the long window, one under the short one that makes the log forget it,
      and a third under the long one that should have met both. */
  function Forgetful(short: int, long: int): seq<Call> {
    var w := WindowOf(short);
    [Call("a", 1, long, 0, true), Call("a", 1, short, w, true), Call("a", 2, long, w, true)]
  }

  function ForgetfulStates(short: int): seq<State> {
    var w := WindowOf(short);
    [State(map[], 0), State(map["a" := [0]], 0), State(map["a" := [w]], w), State(map["a" := [w, w]], w)]
  }

  lemma LaterOne(x: int, cutoff: int)
    ensures Later([x], cutoff) == if x > cutoff then [x] else []
  {
    assert Later([], cutoff) == [];
    LaterSnoc([], x, cutoff);
    assert [] + [x] == [x];
  }

  lemma ForgetfulFirst(short: int, long: int)
    ensures Follows(true, ForgetfulStates(short)[0], Forgetful(short, long)[0], ForgetfulStates(short)[1])
  {
    assert Later([], 0 - WindowOf(long)) == [] && [] + [0] == [0];
    assert map[]["a" := [0]] == map["a" := [0]];
  }

  lemma ForgetfulSecond(short: int, long: int)
    ensures Follows(true, ForgetfulStates(short)[1], Forgetful(short, long)[1], ForgetfulStates(short)[2])
  {
    var w := WindowOf(short);
    var st := ForgetfulStates(short)[1];
    LaterOne(0, 0);
    assert Swept(st.hits, 0) == map[];
    assert Prepared(st, w, w) == State(map[], w);
    assert Later([], 0) == [] && [] + [w] == [w];
    assert map[]["a" := [w]] == map["a" := [w]];
  }

  lemma ForgetfulThird(short: int, long: int)
    requires WindowOf(short) < WindowOf(long)
    ensures Follows(true, ForgetfulStates(short)[2], Forgetful(short, long)[2], ForgetfulStates(short)[3])
  {
    var w := WindowOf(short);
    LaterOne(w, w - WindowOf(long));
    assert [w] + [w] == [w, w];
    assert map["a" := [w]]["a" := [w, w]] == map["a" := [w, w]];
  }

  lemma ForgetfulHistory(short: int, long: int)
    requires WindowOf(short) < WindowOf(long)
    ensures !Deserved(Forgetful(short, long), 2)
  {
    var h, w := Forgetful(short, long), WindowOf(short);
    assert Admitted(h, 1, "a") == [] + [0] == [0];
    assert Admitted(h, 2, "a") == [0] + [w];
    LaterOne(0, w - WindowOf(long));
    LaterSnoc([0], w, w - WindowOf(long));
  }

  lemma OneOfThree(h: seq<Call>, states: seq<State>, i: nat)
    requires |h| == 3
    requires FollowsAt(true, h, states, 0) && FollowsAt(true, h, states, 1) && FollowsAt(true, h, states, 2)
    ensures FollowsAt(true, h, states, i)
  {
    if i < 3 {
      assert i == 0 || i == 1 || i == 2;
    } else {
      assert i >= |h|;
    }
  }

  lemma ThreeTimely(h: seq<Call>)
    requires |h| == 3 && h[0].at <= h[1].at <= h[2].at
    ensures forall i: nat {:trigger Timely(h, i)} :: Timely(h, i)
  {
    forall i: nat
      ensures Timely(h, i)
    {
      assert 0 < i < |h| ==> i == 1 || i == 2;
    }
  }

  lemma ThreeCalls(h: seq<Call>, states: seq<State>, born: int)
    requires |h| == 3 && |states| == 4 && states[0] == State(map[], born) && h[0].at <= h[1].at <= h[2].at
    requires FollowsAt(true, h, states, 0) && FollowsAt(true, h, states, 1) && FollowsAt(true, h, states, 2)
    ensures Genuine(true, h, states, born)
  {
    forall i: nat
      ensures FollowsAt(true, h, states, i)
    {
      OneOfThree(h, states, i);
    }
    ThreeTimely(h);
  }

  lemma ForgetfulGenuine(short: int, long: int)
    requires WindowOf(short) < WindowOf(long)
    ensures Genuine(true, Forgetful(short, long), ForgetfulStates(short), 0)
  {
    ForgetfulFirst(short, long);
    ForgetfulSecond(short, long);
    ForgetfulThird(short, long);
    ThreeCalls(Forgetful(short, long), ForgetfulStates(short), 0);
  }

  /** A limiter used with two windows always answers as the history calls for if and only if
      they are the same length. */
  lemma WindowsMayMix(u: int, v: int)
    ensures JudgesExactly(u, v) <==>
      (if u > 0 then u else 60_000_000_000) == if v > 0 then v else 60_000_000_000
  {
    if WindowOf(u) == WindowOf(v) {
      forall h: seq<Call>, states: seq<State>, born: int, i: nat | Genuine(true, h, states, born) && Names(h, u, v) &&
        i < |h|
        ensures Deserved(h, i)
      {
        OneWindowCovers(true, h, states, born, i);
        DecisionIsExact(true, h, states, born, i);
      }
    } else {
      var short, long := if WindowOf(u) < WindowOf(v) then u else v, if WindowOf(u) < WindowOf(v) then v else u;
      ForgetfulGenuine(short, long);
      ForgetfulHistory(short, long);
      assert Names(Forgetful(short, long), u, v);
    }
  }
}

/** The circuit breaker per provider instance, and what it does in terms of the history
    of all calls made to it. */
module Cooldown {
  import opened Text

  datatype Breaker = Breaker(fails: map<string, int>, until: map<string, int>)

  /** What the breaker knows about one key. */
  datatype Slot = Slot(fails: int, until: Option<int>)

  const NO_BREAKER := Breaker(map[], map[])
  const MINUTE := 60_000_000_000

  /** A pause that is not positive stands for a minute. */
  function Pause(cooldown: int): int {
    if cooldown <= 0 then MINUTE else cooldown
  }

  function SlotOf(b: Breaker, key: string): Slot {
    Slot(if key in b.fails then b.fails[key] else 0, if key in b.until then Some(b.until[key]) else None)
  }

  function Blocked(b: Breaker, key: string, now: int): (Breaker, bool) {
    if key == "" || key !in b.until then (b, false)
    else if now >= b.until[key] then (Breaker(b.fails - {key}, b.until - {key}), false)
    else (b, true)
  }

  function Observe(b: Breaker, key: string, ok: bool, threshold: int, cooldown: int, now: int): (Breaker, bool) {
    if key == "" || threshold <= 0 then (b, false)
    else if ok then (Breaker(b.fails - {key}, b.until - {key}), false)
    else
      var n := (if key in b.fails then b.fails[key] else 0) + 1;
      if n >= threshold
      then (Breaker(b.fails - {key}, b.until[key := now + Pause(cooldown)]), true)
      else (Breaker(b.fails[key := n], b.until), false)
  }

  /** Forgets every expired cooldown; what is left is active. */
  function Active(b: Breaker, now: int): (Breaker, nat) {
    var expired := set k | k in b.until && now >= b.until[k];
    (Breaker(b.fails - expired, b.until - expired), |b.until - expired|)
  }

  lemma DropOne(m: map<string, int>, k: string)
    requires k in m
    ensures |m - {k}| == |m| - 1
  {
    assert (m - {k}).Keys == m.Keys - {k};
    assert |m - {k}| == |(m - {k}).Keys| && |m| == |m.Keys|;
  }

  /** Part of the way through the count: which keys were dropped and which still await. */
  ghost predicate Scanned(was: Breaker, b: Breaker, todo: set<string>, dropped: set<string>, now: int) {
    && b == Breaker(was.fails - dropped, was.until - dropped)
    && todo <= b.until.Keys && dropped <= was.until.Keys
    && (forall k :: k in dropped ==> now >= was.until[k])
    && (forall k :: k in b.until && k !in todo ==> now < b.until[k])
  }

  lemma DropScanned(was: Breaker, b: Breaker, todo: set<string>, dropped: set<string>, now: int, key: string)
    requires Scanned(was, b, todo, dropped, now) && key in todo && now >= b.until[key]
    ensures Scanned(was, Breaker(b.fails - {key}, b.until - {key}), todo - {key}, dropped + {key}, now)
    ensures |b.until - {key}| == |b.until| - 1
  {
    assert was.until - dropped - {key} == was.until - (dropped + {key});
    assert was.fails - dropped - {key} == was.fails - (dropped + {key});
    DropOne(b.until, key);
  }

  lemma ActiveIs(b: Breaker, now: int, dropped: set<string>)
    requires dropped <= b.until.Keys
    requires forall k :: k in dropped ==> now >= b.until[k]
    requires forall k :: k in b.until && k !in dropped ==> now < b.until[k]
    ensures Active(b, now) == (Breaker(b.fails - dropped, b.until - dropped), |b.until - dropped|)
  {
    assert dropped == set k | k in b.until && now >= b.until[k];
  }

  class ProviderCooldowns {
    var fails: map<string, int>
    var until: map<string, int>

    ghost function View(): Breaker
      reads this
    {
      Breaker(fails, until)
    }

    constructor ()
      ensures View() == NO_BREAKER
    {
      fails, until := map[], map[];
    }

    method IsBlocked(key: string, now: int) returns (blocked: bool)
      modifies this
      ensures (View(), blocked) == Blocked(old(View()), key, now)
    {
      if key == "" || key !in until {
        return false;
      }
      if now >= until[key] {
        until := until - {key};
        fails := fails - {key};
        return false;
      }
      return true;
    }

    method Record(key: string, ok: bool, threshold: int, cooldown: int, now: int) returns (tripped: bool)
      modifies this
      ensures (View(), tripped) == Observe(old(View()), key, ok, threshold, cooldown, now)
    {
      if key == "" || threshold <= 0 {
        return false;
      }
      var pause := if cooldown <= 0 then MINUTE else cooldown;
      if ok {
        fails := fails - {key};
        until := until - {key};
        return false;
      }
      fails := fails[key := (if key in fails then fails[key] else 0) + 1];
      if fails[key] >= threshold {
        until := until[key := now + pause];
        fails := fails - {key};
        assert fails == old(fails) - {key};
        return true;
      }
      return false;
    }

    method CountActive(now: int) returns (n: nat)
      modifies this
      ensures (View(), n) == Active(old(View()), now)
    {
      n := 0;
      var todo := until.Keys;
      ghost var was, dropped := View(), {};
      while todo != {}
        invariant Scanned(was, View(), todo, dropped, now) && n + |todo| == |until|
      {
        var key :| key in todo;
        todo := todo - {key};
        ghost var before := View();
        if now < until[key] {
          n := n + 1;
        } else {
          until := until - {key};
          fails := fails - {key};
          DropScanned(was, before, todo + {key}, dropped, now, key);
          dropped := dropped + {key};
        }
      }
      ActiveIs(was, now, dropped);
    }
  }

  // --- One key at a time ---------------------------------------------------------

  lemma OthersUntouched(b: Breaker, key: string, other: string, ok: bool, threshold: int, cooldown: int, now: int)
    requires key != other
    ensures SlotOf(Blocked(b, key, now).0, other) == SlotOf(b, other)
    ensures SlotOf(Observe(b, key, ok, threshold, cooldown, now).0, other) == SlotOf(b, other)
  {
  }

  /** Counting the active keys probes each key as a block check would. */
  lemma ActiveProbesAll(b: Breaker, key: string, now: int)
    requires key != ""
    ensures SlotOf(Active(b, now).0, key) == SlotOf(Blocked(b, key, now).0, key)
    ensures key in Active(b, now).0.until <==> Blocked(b, key, now).1
  {
  }

  function SlotBlocked(s: Slot, key: string, now: int): (Slot, bool) {
    if key == "" || s.until.None? then (s, false)
    else if now >= s.until.value then (Slot(0, None), false)
    else (s, true)
  }

  function SlotObserve(s: Slot, key: string, ok: bool, threshold: int, cooldown: int, now: int): Slot {
    if key == "" || threshold <= 0 then s
    else if ok then Slot(0, None)
    else if s.fails + 1 >= threshold then Slot(0, Some(now + Pause(cooldown)))
    else Slot(s.fails + 1, s.until)
  }

  /** What a call does to its key depends on what is known of that key alone. */
  lemma SlotsAgree(b: Breaker, key: string, ok: bool, threshold: int, cooldown: int, now: int)
    ensures (SlotOf(Blocked(b, key, now).0, key), Blocked(b, key, now).1) == SlotBlocked(SlotOf(b, key), key, now)
    ensures SlotOf(Observe(b, key, ok, threshold, cooldown, now).0, key) ==
      SlotObserve(SlotOf(b, key), key, ok, threshold, cooldown, now)
  {
  }

  // --- History -----------------------------------------------------------------------

  /** A call, the settings in force, and the answer it got. */
  datatype Event =
    | Attempted(key: string, ok: bool, threshold: int, cooldown: int, at: int, tripped: bool)
    | Probed(key: string, at: int, blocked: bool)
    | Counted(at: int, count: nat)

  /** The event is an attempt that bears on a key. */
  predicate Bears(e: Event, key: string) {
    e.Attempted? && e.key == key && e.threshold > 0
  }

  /** The event looks whether a key is in cooldown. */
  predicate Looks(e: Event, key: string) {
    e.Counted? || (e.Probed? && e.key == key)
  }

  /** When the latest trip of a key that no later success cleared runs out. */
  function Deadline(h: seq<Event>, key: string): Option<int> {
    if h == [] then None
    else
      var e := h[|h| - 1];
      if !Bears(e, key) || (!e.ok && !e.tripped) then Deadline(h[..|h| - 1], key)
      else if e.ok then None
      else Some(e.at + Pause(e.cooldown))
  }

  /** Some look since that trip came after it ran out. */
  predicate Expired(h: seq<Event>, key: string) {
    h != [] &&
    var front, e := h[..|h| - 1], h[|h| - 1];
    if Bears(e, key) then !e.ok && !e.tripped && Expired(front, key)
    else Expired(front, key) || (Looks(e, key) && RanOut(front, key, e.at))
  }

  predicate RanOut(h: seq<Event>, key: string, at: int) {
    Deadline(h, key).Some? && at >= Deadline(h, key).value
  }

  /** Failures since the last success, trip or look that found a trip run out. */
  function Streak(h: seq<Event>, key: string): nat {
    if h == [] then 0
    else
      var front, e := h[..|h| - 1], h[|h| - 1];
      if Bears(e, key) then (if e.ok || e.tripped then 0 else Streak(front, key) + 1)
      else if Looks(e, key) && RanOut(front, key, e.at) && !Expired(front, key) then 0
      else Streak(front, key)
  }

  function After(b: Breaker, e: Event): Breaker {
    match e
    case Attempted(key, ok, threshold, cooldown, at, _) => Observe(b, key, ok, threshold, cooldown, at).0
    case Probed(key, at, _) => Blocked(b, key, at).0
    case Counted(at, _) => Active(b, at).0
  }

  predicate Answered(b: Breaker, e: Event) {
    match e
    case Attempted(key, ok, threshold, cooldown, at, tripped) =>
      tripped == Observe(b, key, ok, threshold, cooldown, at).1
    case Probed(key, at, blocked) => blocked == Blocked(b, key, at).1
    case Counted(at, count) => count == Active(b, at).1
  }

  function Replay(h: seq<Event>): Breaker {
    if h == [] then NO_BREAKER else After(Replay(h[..|h| - 1]), h[|h| - 1])
  }

  /** Histories the breaker can produce: times do not fall, each answer is the one it gave. */
  ghost predicate Genuine(h: seq<Event>) {
    h == [] ||
    (var front := h[..|h| - 1];
     && Genuine(front)
     && (front != [] ==> front[|front| - 1].at <= h[|h| - 1].at)
     && Answered(Replay(front), h[|h| - 1]))
  }

  function SlotAfter(s: Slot, e: Event, key: string): Slot {
    if Bears(e, key) then SlotObserve(s, key, e.ok, e.threshold, e.cooldown, e.at)
    else if Looks(e, key) then SlotBlocked(s, key, e.at).0
    else s
  }

  lemma AfterSlot(b: Breaker, e: Event, key: string)
    requires key != ""
    ensures SlotOf(After(b, e), key) == SlotAfter(SlotOf(b, key), e, key)
  {
    match e
    case Counted(at, _) =>
      ActiveProbesAll(b, key, at);
      SlotsAgree(b, key, true, 0, 0, at);
    case Probed(other, at, _) =>
      if other == key {
        SlotsAgree(b, key, true, 0, 0, at);
      } else {
        OthersUntouched(b, other, key, true, 0, 0, at);
      }
    case Attempted(other, ok, threshold, cooldown, at, _) =>
      if other == key {
        SlotsAgree(b, key, ok, threshold, cooldown, at);
      } else {
        OthersUntouched(b, other, key, ok, threshold, cooldown, at);
      }
  }

  /** What the breaker should know of a key after a history. */
  predicate Reads(h: seq<Event>, key: string, s: Slot) {
    && s.fails == Streak(h, key)
    && s.until == (if Deadline(h, key).Some? && !Expired(h, key) then Deadline(h, key) else None)
    && (Expired(h, key) ==> h != [] && RanOut(h, key, h[|h| - 1].at))
  }

  lemma AttemptReads(front: seq<Event>, e: Event, key: string, s: Slot)
    requires key != "" && Reads(front, key, s) && Bears(e, key)
    requires e.tripped == (!e.ok && s.fails + 1 >= e.threshold)
    requires front != [] ==> front[|front| - 1].at <= e.at
    ensures Reads(front + [e], key, SlotAfter(s, e, key))
  {
    assert (front + [e])[..|front|] == front;
  }

  lemma LookReads(front: seq<Event>, e: Event, key: string, s: Slot)
    requires key != "" && Reads(front, key, s) && !Bears(e, key)
    requires front != [] ==> front[|front| - 1].at <= e.at
    ensures Reads(front + [e], key, SlotAfter(s, e, key))
  {
    assert (front + [e])[..|front|] == front;
  }

  /** The breaker's memory of each key, read off the history. */
  lemma {:induction false} SlotReadsHistory(h: seq<Event>, key: string)
    requires key != "" && Genuine(h)
    ensures Reads(h, key, SlotOf(Replay(h), key))
  {
    if h != [] {
      var front, e := h[..|h| - 1], h[|h| - 1];
      var b := Replay(front);
      SlotReadsHistory(front, key);
      AfterSlot(b, e, key);
      assert h == front + [e];
      if Bears(e, key) {
        AttemptReads(front, e, key, SlotOf(b, key));
      } else {
        LookReads(front, e, key, SlotOf(b, key));
      }
    }
  }

  lemma {:induction false} NothingUnnamed(h: seq<Event>)
    ensures "" !in Replay(h).until
  {
    if h != [] {
      NothingUnnamed(h[..|h| - 1]);
    }
  }

  function Named(h: seq<Event>): set<string> {
    set i | 0 <= i < |h| && !h[i].Counted? :: h[i].key
  }

  /** The keys whose latest uncleared trip has not run out. */
  function Cooling(h: seq<Event>, at: int): set<string> {
    set key | key in Named(h) && key != "" && Deadline(h, key).Some? && at < Deadline(h, key).value
  }

  lemma {:induction false} DeadlineNamed(h: seq<Event>, key: string)
    requires Deadline(h, key).Some?
    ensures key in Named(h)
  {
    var front, e := h[..|h| - 1], h[|h| - 1];
    if !Bears(e, key) || (!e.ok && !e.tripped) {
      DeadlineNamed(front, key);
      var i :| 0 <= i < |front| && !front[i].Counted? && front[i].key == key;
      assert h[i] == front[i];
    }
  }

  /** Among keys still in cooldown none has had its expiry seen. */
  lemma CoolingIsActive(h: seq<Event>, at: int)
    requires Genuine(h) && (h != [] ==> h[|h| - 1].at <= at)
    ensures Cooling(h, at) == set k | k in Replay(h).until && at < Replay(h).until[k]
  {
    NothingUnnamed(h);
    var b := Replay(h);
    forall key: string
      ensures key in Cooling(h, at) <==> key in b.until && at < b.until[key]
    {
      if key != "" {
        SlotReadsHistory(h, key);
        if Deadline(h, key).Some? {
          DeadlineNamed(h, key);
        }
      }
    }
  }

  lemma CountsCooling(h: seq<Event>, at: int)
    requires Genuine(h) && (h != [] ==> h[|h| - 1].at <= at)
    ensures Active(Replay(h), at).1 == |Cooling(h, at)|
  {
    var b := Replay(h);
    var expired := set k | k in b.until && at >= b.until[k];
    CoolingIsActive(h, at);
    assert (b.until - expired).Keys == Cooling(h, at);
    assert |b.until - expired| == |(b.until - expired).Keys|;
  }

  /** Over any history of calls about any keys, whatever settings each found in force: a
      failure trips exactly when it brings the failures since the last success, trip or
      expiry seen to the threshold; a probe is blocked exactly while the latest trip not
      cleared by a success has not run out; and a count gives the number of such keys. */
  lemma BreakerRefinesHistory(h: seq<Event>)
    requires h != [] && Genuine(h)
    ensures var front := h[..|h| - 1];
            match h[|h| - 1]
            case Attempted(key, ok, threshold, _, _, tripped) =>
              tripped <==> key != "" && !ok && threshold > 0 && Streak(front, key) + 1 >= threshold
            case Probed(key, at, blocked) =>
              blocked <==> key != "" && Deadline(front, key).Some? && at < Deadline(front, key).value
            case Counted(at, count) => count == |Cooling(front, at)|
  {
    var front, e := h[..|h| - 1], h[|h| - 1];
    if e.Counted? {
      CountsCooling(front, e.at);
    } else if e.key != "" {
      SlotReadsHistory(front, e.key);
    }
  }

  lemma {:induction false} GenuineSoFar(h: seq<Event>, i: nat)
    requires Genuine(h) && i <= |h|
    ensures Genuine(h[..i])
  {
    if i < |h| {
      GenuineSoFar(h[..|h| - 1], i);
      assert h[..|h| - 1][..i] == h[..i];
    } else {
      assert h[..i] == h;
    }
  }

  lemma {:induction false} DeadlineStays(h: seq<Event>, key: string, i: nat)
    requires i < |h| && Bears(h[i], key) && !h[i].ok && h[i].tripped
    requires forall l :: i < l < |h| && Bears(h[l], key) ==> !h[l].ok && !h[l].tripped
    ensures Deadline(h, key) == Some(h[i].at + Pause(h[i].cooldown))
  {
    if i < |h| - 1 {
      DeadlineStays(h[..|h| - 1], key, i);
    }
  }

  /** A trip lasts for the pause in force when it happened, or for a minute if that is not
      positive: until another attempt succeeds or trips, probes are turned away before that
      moment, and let through from it on. */
  lemma TripLasts(h: seq<Event>, i: nat)
    requires Genuine(h) && i < |h| - 1 && h[i].Attempted? && h[i].tripped
    requires h[|h| - 1].Probed? && h[|h| - 1].key == h[i].key
    requires forall l :: i < l < |h| && Bears(h[l], h[i].key) ==> !h[l].ok && !h[l].tripped
    ensures var probe := h[|h| - 1];
            probe.blocked <==> probe.at < h[i].at + if h[i].cooldown > 0 then h[i].cooldown else 60_000_000_000
  {
    GenuineSoFar(h, i + 1);
    BreakerRefinesHistory(h[..i + 1]);
    DeadlineStays(h[..|h| - 1], h[i].key, i);
    BreakerRefinesHistory(h);
  }

  /** Attempts that find no positive threshold in force, or name no key, leave no trace. */
  lemma {:induction false} DisabledBreakerInert(h: seq<Event>)
    requires forall i :: 0 <= i < |h| && h[i].Attempted? ==> h[i].threshold <= 0 || h[i].key == ""
    ensures Replay(h) == NO_BREAKER
  {
    if h != [] {
      DisabledBreakerInert(h[..|h| - 1]);
    }
  }
}

/** The event hub: bounded replay buffers with first-in-first-out eviction of topics, and
    live fan-out whose sends happen after the lock is released. */
module Hub {
  import opened Text

  type Topic = string
  type Sub = nat

  datatype Event = Event(id: int, kind: string, data: string)

  /** What a publisher hands in; entry i of the log becomes the event with id i + 1. */
  datatype Entry = Entry(topic: Topic, kind: string, data: string)

  const MAX_BUF := 500
  const MAX_KEYS := 256
  const CHANNEL := 256

  /** Subscriptions in place by topic, replay buffers, topics in the order of admission, and
      the subscriptions whose channels have been closed. */
  datatype State = State(last: int, subs: map<Topic, set<Sub>>, buffers: map<Topic, seq<Event>>, order: seq<Topic>,
          closed: bool, shut: set<Sub>)

  const FRESH := State(0, map[], map[], [], false, {})

  function Suffix<T>(s: seq<T>, n: nat): seq<T> {
    if |s| > n then s[|s| - n..] else s
  }

  // --- What the methods do ---------------------------------------------------------------

  function BufferOf(h: State, topic: Topic): seq<Event> {
    if topic in h.buffers then h.buffers[topic] else []
  }

  function SubsOf(h: State, topic: Topic): set<Sub> {
    if topic in h.subs then h.subs[topic] else {}
  }

  /** Drops the topics admitted first until few enough are left. */
  function Evict(h: State): State
    decreases |h.order|
  {
    if |h.order| > MAX_KEYS then Evict(h.(order := h.order[1..], buffers := h.buffers - {h.order[0]})) else h
  }

  function Append(h: State, e: Entry): State {
    if h.closed then h
    else
      Evict(State(
              h.last + 1,
              h.subs,
              h.buffers[e.topic := Suffix(BufferOf(h, e.topic) + [Event(h.last + 1, e.kind, e.data)], MAX_BUF)],
              if e.topic in h.buffers then h.order else h.order + [e.topic],
              false,
              h.shut))
  }

  function Newer(events: seq<Event>, lastId: int): seq<Event> {
    if events == [] then []
    else Newer(events[..|events| - 1], lastId) + if events[|events| - 1].id > lastId then [events[|events| - 1]] else []
  }

  function Enrol(h: State, topic: Topic, sub: Sub): State {
    h.(subs := h.subs[topic := SubsOf(h, topic) + {sub}])
  }

  function Leave(h: State, topic: Topic, sub: Sub): State {
    if topic !in h.subs then h
    else if h.subs[topic] - {sub} == {} then h.(subs := h.subs - {topic})
    else h.(subs := h.subs[topic := h.subs[topic] - {sub}])
  }

  function AllSubs(subs: map<Topic, set<Sub>>): set<Sub> {
    set t, s | t in subs && s in subs[t] :: s
  }

  /** Closes every channel in place. */
  function Shut(h: State): State {
    h.(closed := true, subs := map[], shut := h.shut + AllSubs(h.subs))
  }

  class Hub {
    var seqNo: int
    var subs: map<Topic, set<Sub>>
    var buffers: map<Topic, seq<Event>>
    var order: seq<Topic>
    var closed: bool
    var shut: set<Sub>
    var nextSub: Sub

    ghost function View(): State
      reads this
    {
      State(seqNo, subs, buffers, order, closed, shut)
    }

    constructor ()
      ensures View() == FRESH
    {
      seqNo, subs, buffers, order, closed, shut, nextSub := 0, map[], map[], [], false, {}, 0;
    }

    method Subscribe(topic: Topic, lastId: int) returns (sub: Sub, past: seq<Event>)
      modifies this
      ensures sub == old(nextSub) && nextSub == sub + 1
      ensures View() == Enrol(old(View()), topic, sub)
      ensures past == Newer(BufferOf(old(View()), topic), lastId)
    {
      sub, nextSub := nextSub, nextSub + 1;
      subs := subs[topic := (if topic in subs then subs[topic] else {}) + {sub}];
      var buffered := if topic in buffers then buffers[topic] else [];
      past := [];
      for i := 0 to |buffered|
        invariant past == Newer(buffered[..i], lastId)
      {
        assert buffered[..i + 1][..i] == buffered[..i];
        if buffered[i].id > lastId {
          past := past + [buffered[i]];
        }
      }
      assert buffered[..|buffered|] == buffered;
    }

    method Unsubscribe(topic: Topic, sub: Sub)
      modifies this
      ensures View() == Leave(old(View()), topic, sub) && nextSub == old(nextSub)
    {
      if topic in subs {
        var left := subs[topic] - {sub};
        subs := if |left| == 0 then subs - {topic} else subs[topic := left];
      }
    }

    /** The locked part of publishing: the event, and a snapshot of whom to send it to. */
    method Publish(e: Entry) returns (ev: Option<Event>, targets: set<Sub>)
      modifies this
      ensures View() == Append(old(View()), e) && nextSub == old(nextSub)
      ensures old(closed) ==> ev == None && targets == {}
      ensures !old(closed) ==>
        ev == Some(Event(old(seqNo) + 1, e.kind, e.data)) && targets == SubsOf(old(View()), e.topic)
    {
      if closed {
        return None, {};
      }
      seqNo := seqNo + 1;
      ev := Some(Event(seqNo, e.kind, e.data));
      if e.topic !in buffers {
        order := order + [e.topic];
      }
      var buffer := (if e.topic in buffers then buffers[e.topic] else []) + [ev.value];
      if |buffer| > MAX_BUF {
        buffer := buffer[|buffer| - MAX_BUF..];
      }
      buffers := buffers[e.topic := buffer];
      while |order| > MAX_KEYS
        invariant Evict(View()) == Append(old(View()), e) && seqNo == old(seqNo) + 1
        invariant subs == old(subs) && shut == old(shut) && nextSub == old(nextSub)
        decreases |order|
      {
        buffers := buffers - {order[0]};
        order := order[1..];
      }
      targets := if e.topic in subs then subs[e.topic] else {};
    }

    method Close()
      modifies this
      ensures View() == Shut(old(View())) && nextSub == old(nextSub)
    {
      closed := true;
      var topics, ended := subs.Keys, {};
      while topics != {}
        invariant topics <= subs.Keys && subs == old(subs) && closed && shut == old(shut)
        invariant seqNo == old(seqNo) && buffers == old(buffers) && order == old(order) && nextSub == old(nextSub)
        invariant ended == set t, s | t in subs && t !in topics && s in subs[t] :: s
      {
        var topic :| topic in topics;
        topics := topics - {topic};
        ended := ended + subs[topic];
      }
      shut := shut + ended;
      subs := map[];
    }
  }

  // --- The buffers in terms of everything published -----------------------------------------

  /** Log positions at which a topic was admitted: it was not among the MAX_KEYS topics
      admitted last. */
  function Admissions(log: seq<Entry>): (r: seq<nat>)
    ensures forall i :: 0 <= i < |r| ==> r[i] < |log|
  {
    if log == [] then []
    else
      var front := log[..|log| - 1];
      var before := Admissions(front);
      if Admits(front, Suffix(before, MAX_KEYS), log[|log| - 1].topic) then before else before + [|log| - 1]
  }

  predicate Admits(log: seq<Entry>, held: seq<nat>, topic: Topic)
    requires forall i :: 0 <= i < |held| ==> held[i] < |log|
  {
    exists i :: 0 <= i < |held| && log[held[i]].topic == topic
  }

  function Held(log: seq<Entry>): (r: seq<nat>)
    ensures forall i :: 0 <= i < |r| ==> r[i] < |log|
  {
    Suffix(Admissions(log), MAX_KEYS)
  }

  function EventAt(log: seq<Entry>, i: nat): Event
    requires i < |log|
  {
    Event(i + 1, log[i].kind, log[i].data)
  }

  /** The events of a topic from a log position on. */
  function EventsFrom(log: seq<Entry>, at: nat, topic: Topic): seq<Event> {
    if |log| <= at then []
    else
      EventsFrom(log[..|log| - 1], at, topic) +
      if log[|log| - 1].topic == topic then [EventAt(log, |log| - 1)] else []
  }

  ghost predicate NoRepeat(s: seq<Topic>) {
    forall i, j :: 0 <= i < j < |s| ==> s[i] != s[j]
  }

  /** Kept topic i is that of the i-th of the last admissions, and its buffer is the longest
      allowed suffix of what was published since. */
  ghost predicate TracksAt(order: seq<Topic>, buffers: map<Topic, seq<Event>>, log: seq<Entry>, i: nat, at: nat) {
    && i < |order| && at < |log| && order[i] == log[at].topic && order[i] in buffers
    && buffers[order[i]] == Suffix(EventsFrom(log, at, order[i]), MAX_BUF)
  }

  ghost predicate Tracks(h: State, log: seq<Entry>) {
    && h.last == |log|
    && |h.order| == |Held(log)| && NoRepeat(h.order)
    && (forall t :: t in h.buffers <==> t in h.order)
    && (forall i :: 0 <= i < |h.order| ==> TracksAt(h.order, h.buffers, log, i, Held(log)[i]))
  }

  lemma SuffixSnoc<T>(s: seq<T>, x: T, n: nat)
    requires n > 0
    ensures Suffix(Suffix(s, n) + [x], n) == Suffix(s + [x], n)
  {
  }

  lemma EventsFromSnoc(log: seq<Entry>, e: Entry, at: nat, topic: Topic)
    requires at <= |log|
    ensures EventsFrom(log + [e], at, topic) ==
            EventsFrom(log, at, topic) + if e.topic == topic then [Event(|log| + 1, e.kind, e.data)] else []
  {
    assert (log + [e])[..|log|] == log;
  }

  lemma HeldSnoc(log: seq<Entry>, e: Entry)
    ensures Held(log + [e]) == if Admits(log, Held(log), e.topic) then Held(log)
      else Suffix(Held(log) + [|log|], MAX_KEYS)
  {
    assert (log + [e])[..|log|] == log;
    SuffixSnoc(Admissions(log), |log|, MAX_KEYS);
  }

  lemma AdmitsIsBuffered(h: State, log: seq<Entry>, topic: Topic)
    requires Tracks(h, log)
    ensures Admits(log, Held(log), topic) <==> topic in h.buffers
  {
    if topic in h.buffers {
      var i :| 0 <= i < |h.order| && h.order[i] == topic;
      assert TracksAt(h.order, h.buffers, log, i, Held(log)[i]);
    }
    if i :| 0 <= i < |Held(log)| && log[Held(log)[i]].topic == topic {
      assert TracksAt(h.order, h.buffers, log, i, Held(log)[i]);
    }
  }

  /** One more event: the buffer of its topic grows, the others stay. */
  lemma BufferGrows(order: seq<Topic>, buffers: map<Topic, seq<Event>>, log: seq<Entry>, e: Entry, i: nat, at: nat)
    requires TracksAt(order, buffers, log, i, at) && e.topic in buffers
    ensures TracksAt(order, buffers[e.topic := Suffix(buffers[e.topic] + [Event(|log| + 1, e.kind, e.data)], MAX_BUF)],
      log + [e], i, at)
  {
    EventsFromSnoc(log, e, at, order[i]);
    SuffixSnoc(EventsFrom(log, at, order[i]), Event(|log| + 1, e.kind, e.data), MAX_BUF);
  }

  lemma AppendKnown(h: State, log: seq<Entry>, e: Entry)
    requires Tracks(h, log) && !h.closed && e.topic in h.buffers
    ensures Tracks(Append(h, e), log + [e])
  {
    HeldSnoc(log, e);
    AdmitsIsBuffered(h, log, e.topic);
    var buffers := h.buffers[e.topic := Suffix(h.buffers[e.topic] + [Event(|log| + 1, e.kind, e.data)], MAX_BUF)];
    assert Append(h, e) == State(h.last + 1, h.subs, buffers, h.order, false, h.shut);
    forall i | 0 <= i < |h.order|
      ensures TracksAt(h.order, buffers, log + [e], i, Held(log)[i])
    {
      BufferGrows(h.order, h.buffers, log, e, i, Held(log)[i]);
    }
  }

  function Oldest(h: State): nat {
    if |h.order| == MAX_KEYS then 1 else 0
  }

  /** Admitting a topic drops at most the one admitted longest ago. */
  lemma AppendNewShape(h: State, e: Entry)
    requires !h.closed && e.topic !in h.buffers && |h.order| <= MAX_KEYS
    ensures Append(h, e) == State(h.last + 1, h.subs,
                                  h.buffers[e.topic := [Event(h.last + 1, e.kind, e.data)]] - if Oldest(h) == 1
                                    then {h.order[0]} else {},
                                  h.order[Oldest(h)..] + [e.topic], false, h.shut)
  {
    var ev := Event(h.last + 1, e.kind, e.data);
    assert [] + [ev] == [ev];
    var mid := State(h.last + 1, h.subs, h.buffers[e.topic := [ev]], h.order + [e.topic], false, h.shut);
    assert Append(h, e) == Evict(mid);
    if Oldest(h) == 1 {
      var cut := mid.(order := mid.order[1..], buffers := mid.buffers - {mid.order[0]});
      assert Evict(mid) == Evict(cut) == cut;
      assert mid.order[1..] == h.order[1..] + [e.topic];
    } else {
      assert h.order[0..] == h.order && mid.buffers - {} == mid.buffers;
    }
  }

  lemma OtherBufferStays(order: seq<Topic>, order': seq<Topic>, buffers: map<Topic, seq<Event>>,
          buffers': map<Topic, seq<Event>>,
                         log: seq<Entry>, e: Entry, i: nat, i': nat, at: nat)
    requires TracksAt(order, buffers, log, i, at) && i' < |order'| && order'[i'] == order[i] != e.topic
    requires order[i] in buffers' && buffers'[order[i]] == buffers[order[i]]
    ensures TracksAt(order', buffers', log + [e], i', at)
  {
    EventsFromSnoc(log, e, at, order[i]);
  }

  lemma NewBuffer(order: seq<Topic>, buffers: map<Topic, seq<Event>>, log: seq<Entry>, e: Entry, i: nat)
    requires i < |order| && order[i] == e.topic && e.topic in buffers
    requires buffers[e.topic] == [Event(|log| + 1, e.kind, e.data)]
    ensures TracksAt(order, buffers, log + [e], i, |log|)
  {
    EventsFromSnoc(log, e, |log|, e.topic);
  }

  lemma NewKeys(h: State, e: Entry)
    requires !h.closed && e.topic !in h.buffers && |h.order| <= MAX_KEYS && NoRepeat(h.order)
    requires forall t :: t in h.buffers <==> t in h.order
    ensures NoRepeat(Append(h, e).order) && forall t :: t in Append(h, e).buffers <==> t in Append(h, e).order
  {
    var h' := Append(h, e);
    AppendNewShape(h, e);
    forall t
      ensures t in h'.buffers <==> t in h'.order
    {
      assert h'.order[|h'.order| - 1] == e.topic;
      if t != e.topic && t in h'.buffers {
        var i :| 0 <= i < |h.order| && h.order[i] == t;
        assert h'.order[i - Oldest(h)] == t;
      }
    }
  }

  lemma KeptBuffer(h: State, log: seq<Entry>, e: Entry, i: nat)
    requires Tracks(h, log) && !h.closed && e.topic !in h.buffers && |h.order| <= MAX_KEYS
    requires NoRepeat(h.order) && i + Oldest(h) < |h.order|
    ensures TracksAt(Append(h, e).order, Append(h, e).buffers, log + [e], i, Held(log)[i + Oldest(h)])
  {
    var h', k := Append(h, e), Oldest(h);
    AppendNewShape(h, e);
    assert h'.order[i] == h.order[i + k];
    assert TracksAt(h.order, h.buffers, log, i + k, Held(log)[i + k]);
    OtherBufferStays(h.order, h'.order, h.buffers, h'.buffers, log, e, i + k, i, Held(log)[i + k]);
  }

  lemma HeldNew(h: State, log: seq<Entry>, e: Entry)
    requires Tracks(h, log) && e.topic !in h.buffers
    ensures |h.order| <= MAX_KEYS && Held(log + [e]) == Held(log)[Oldest(h)..] + [|log|]
  {
    HeldSnoc(log, e);
    AdmitsIsBuffered(h, log, e.topic);
    SuffixShift(Held(log), |log|, MAX_KEYS);
  }

  lemma SuffixShift(s: seq<nat>, x: nat, n: nat)
    requires 0 < n && |s| <= n
    ensures Suffix(s + [x], n) == s[if |s| == n then 1 else 0..] + [x]
  {
  }

  lemma AppendNew(h: State, log: seq<Entry>, e: Entry)
    requires Tracks(h, log) && !h.closed && e.topic !in h.buffers
    ensures Tracks(Append(h, e), log + [e])
  {
    var h', k := Append(h, e), Oldest(h);
    HeldNew(h, log, e);
    AppendNewShape(h, e);
    NewKeys(h, e);
    forall i | 0 <= i < |h'.order|
      ensures TracksAt(h'.order, h'.buffers, log + [e], i, Held(log + [e])[i])
    {
      if i < |h'.order| - 1 {
        KeptBuffer(h, log, e, i);
      } else {
        NewBuffer(h'.order, h'.buffers, log, e, i);
      }
    }
  }

  /** Every published event keeps the bookkeeping. */
  lemma AppendTracks(h: State, log: seq<Entry>, e: Entry)
    requires Tracks(h, log) && !h.closed
    ensures Tracks(Append(h, e), log + [e])
  {
    if e.topic in h.buffers {
      AppendKnown(h, log, e);
    } else {
      AppendNew(h, log, e);
    }
  }

  // --- Which events a buffer holds ------------------------------------------------------------

  ghost predicate Increasing(events: seq<Event>) {
    forall i, j :: 0 <= i < j < |events| ==> events[i].id < events[j].id
  }

  /** An event of the log, of the topic and at or after the position. */
  predicate FromLog(log: seq<Entry>, at: nat, topic: Topic, e: Event) {
    at < e.id <= |log| && log[e.id - 1].topic == topic && e == EventAt(log, e.id - 1)
  }

  lemma {:induction false} EventsIncrease(log: seq<Entry>, at: nat, topic: Topic)
    ensures Increasing(EventsFrom(log, at, topic))
    ensures forall e :: e in EventsFrom(log, at, topic) ==> FromLog(log, at, topic, e)
  {
    if |log| > at {
      var front := log[..|log| - 1];
      EventsIncrease(front, at, topic);
      forall e | e in EventsFrom(front, at, topic)
        ensures FromLog(log, at, topic, e) && e.id < |log|
      {
        assert FromLog(front, at, topic, e);
        assert front[e.id - 1] == log[e.id - 1];
      }
    }
  }

  lemma {:induction false} EventsSplit(log: seq<Entry>, at: nat, i: nat, topic: Topic)
    requires at <= i < |log| && log[i].topic == topic
    ensures EventsFrom(log, at, topic) ==
      EventsFrom(log[..i], at, topic) + [EventAt(log, i)] + EventsFrom(log, i + 1, topic)
  {
    var front := log[..|log| - 1];
    if i < |log| - 1 {
      EventsSplit(front, at, i, topic);
      assert front[..i] == log[..i];
    } else {
      assert log[..i] == front;
    }
  }

  /** A published event is still replayable: its topic has not been evicted since, and
      fewer than 500 events of the topic followed it. */
  ghost predicate Replayable(log: seq<Entry>, i: nat) {
    i < |log| &&
    (exists h :: 0 <= h < |Held(log)| && log[Held(log)[h]].topic == log[i].topic && Held(log)[h] <= i) &&
    |EventsFrom(log, i + 1, log[i].topic)| < 500
  }

  lemma InSuffix(log: seq<Entry>, at: nat, i: nat)
    requires i < |log|
    ensures EventAt(log, i) in Suffix(EventsFrom(log, at, log[i].topic), MAX_BUF) <==>
            at <= i && |EventsFrom(log, i + 1, log[i].topic)| < MAX_BUF
  {
    var topic, ev := log[i].topic, EventAt(log, i);
    var all := EventsFrom(log, at, topic);
    EventsIncrease(log, at, topic);
    if ev in Suffix(all, MAX_BUF) {
      assert ev in all && FromLog(log, at, topic, ev);
    }
    if at <= i {
      EventsSplit(log, at, i, topic);
      var place := |EventsFrom(log[..i], at, topic)|;
      assert all[place] == ev;
      if |all| - place <= MAX_BUF {
        var cut := if |all| > MAX_BUF then |all| - MAX_BUF else 0;
        assert Suffix(all, MAX_BUF)[place - cut] == ev;
      }
    }
  }

  lemma BufferHolds(h: State, log: seq<Entry>, i: nat)
    requires Tracks(h, log) && i < |log|
    ensures EventAt(log, i) in BufferOf(h, log[i].topic) <==> Replayable(log, i)
  {
    var topic := log[i].topic;
    if x :| 0 <= x < |h.order| && h.order[x] == topic {
      assert TracksAt(h.order, h.buffers, log, x, Held(log)[x]);
      InSuffix(log, Held(log)[x], i);
      forall y | 0 <= y < |Held(log)| && log[Held(log)[y]].topic == topic
        ensures y == x
      {
        assert TracksAt(h.order, h.buffers, log, y, Held(log)[y]);
      }
    } else {
      AdmitsIsBuffered(h, log, topic);
    }
  }

  lemma {:induction false} NewerExact(events: seq<Event>, lastId: int)
    ensures forall e :: e in Newer(events, lastId) <==> e in events && e.id > lastId
    ensures Increasing(events) ==> Increasing(Newer(events, lastId))
  {
    if events != [] {
      var front := events[..|events| - 1];
      NewerExact(front, lastId);
      assert events == front + [events[|events| - 1]];
    }
  }

  lemma BufferFromLog(h: State, log: seq<Entry>, topic: Topic)
    requires Tracks(h, log)
    ensures Increasing(BufferOf(h, topic)) && forall e :: e in BufferOf(h, topic) ==> FromLog(log, 0, topic, e)
  {
    if topic in h.buffers {
      var x :| 0 <= x < |h.order| && h.order[x] == topic;
      assert TracksAt(h.order, h.buffers, log, x, Held(log)[x]);
      var all := EventsFrom(log, Held(log)[x], topic);
      EventsIncrease(log, Held(log)[x], topic);
      forall e | e in Suffix(all, MAX_BUF)
        ensures FromLog(log, 0, topic, e)
      {
        assert e in all && FromLog(log, Held(log)[x], topic, e);
      }
    }
  }

  /** The replay a subscriber gets: in order, the replayable events of its topic newer than
      the id it names, each once. */
  lemma ReplayExact(h: State, log: seq<Entry>, topic: Topic, lastId: int)
    requires Tracks(h, log)
    ensures var past := Newer(BufferOf(h, topic), lastId);
            && Increasing(past)
            && (forall e :: e in past ==> FromLog(log, 0, topic, e))
            && forall i :: 0 <= i < |log| && log[i].topic == topic ==>
                 (EventAt(log, i) in past <==> Replayable(log, i) && i + 1 > lastId)
  {
    var buffer := BufferOf(h, topic);
    NewerExact(buffer, lastId);
    BufferFromLog(h, log, topic);
    forall i | 0 <= i < |log| && log[i].topic == topic
      ensures EventAt(log, i) in Newer(buffer, lastId) <==> Replayable(log, i) && i + 1 > lastId
    {
      BufferHolds(h, log, i);
    }
  }

  lemma BufferShape(log: seq<Entry>, at: nat)
    requires at < |log|
    ensures var buffer := Suffix(EventsFrom(log, at, log[at].topic), MAX_BUF);
            1 <= |buffer| <= MAX_BUF && Increasing(buffer)
  {
    EventsIncrease(log, at, log[at].topic);
    EventsSplit(log, at, at, log[at].topic);
  }

  /** Topics are kept up to the last 256 admitted and no further; buffers are never empty
      and hold 500 events at most, and ids rise within each. */
  lemma BufferLimits(h: State, log: seq<Entry>)
    requires Tracks(h, log)
    ensures |h.order| == if |Admissions(log)| < 256 then |Admissions(log)| else 256
    ensures |h.buffers| == |h.order|
    ensures forall t :: t in h.buffers ==> 1 <= |h.buffers[t]| <= 500 && Increasing(h.buffers[t])
  {
    assert h.buffers.Keys == set t | t in h.order;
    NoRepeatCard(h.order);
    assert |h.buffers| == |h.buffers.Keys|;
    forall t | t in h.buffers
      ensures 1 <= |h.buffers[t]| <= MAX_BUF && Increasing(h.buffers[t])
    {
      var i :| 0 <= i < |h.order| && h.order[i] == t;
      assert TracksAt(h.order, h.buffers, log, i, Held(log)[i]);
      BufferShape(log, Held(log)[i]);
    }
  }

  lemma {:induction false} NoRepeatCard(s: seq<Topic>)
    requires NoRepeat(s)
    ensures |set t | t in s| == |s|
  {
    if s != [] {
      var front, last := s[..|s| - 1], s[|s| - 1];
      NoRepeatCard(front);
      assert s == front + [last];
      assert (set t | t in s) == (set t | t in front) + {last};
    }
  }
}

/** Publishers, subscribers and consumers of the hub interleaved: a publisher fixes its
    audience under the lock and sends afterwards, one subscriber at a time, in any order;
    the hub may be closed at any point between. */
module FanOut {
  import opened Text
  import opened Hub

  /** A subscription: what it was promised when it joined, and the log position at which
      it joined and left. */
  datatype Joined = Joined(topic: Topic, lastId: int, replay: seq<Event>, at: nat, left: Option<nat>)

  /** A send that was attempted: to whom, of which log entry, and whether it found room. */
  datatype Offer = Offer(sub: Sub, entry: nat, taken: bool)

  /** The hub, what was published, all subscriptions ever made, sends still to come, sends
      made, the entries whose publisher died of a send to a closed channel, and per
      subscription the channel and what its consumer has read. */
  datatype Net = Net(
    hub: State,
    log: seq<Entry>,
    joins: seq<Joined>,
    pending: set<(Sub, nat)>,
    offers: seq<Offer>,
    panicked: set<nat>,
    queues: seq<seq<Event>>,
    consumed: seq<seq<Event>>)

  datatype Action =
    | Publishes(entry: Entry)
    | Subscribes(topic: Topic, lastId: int)
    | Unsubscribes(sub: Sub)
    | Delivers(sub: Sub, index: nat)
    | Receives(sub: Sub)
    | Closes

  const IDLE := Net(FRESH, [], [], {}, [], {}, [], [])

  function Ended(join: Joined, at: nat): Joined {
    if join.left.None? then join.(left := Some(at)) else join
  }

  function Publish(n: Net, e: Entry): Net {
    if n.hub.closed then n
    else n.(hub := Append(n.hub, e), log := n.log + [e],
            pending := n.pending + set s | s in SubsOf(n.hub, e.topic) :: (s, |n.log|))
  }

  function Subscribe(n: Net, topic: Topic, lastId: int): Net {
    n.(hub := Enrol(n.hub, topic, |n.joins|),
       joins := n.joins + [Joined(topic, lastId, Newer(BufferOf(n.hub, topic), lastId), |n.log|, None)],
       queues := n.queues + [[]], consumed := n.consumed + [[]])
  }

  function Unsubscribe(n: Net, s: Sub): Net
    requires s < |n.joins|
  {
    n.(hub := Leave(n.hub, n.joins[s].topic, s), joins := n.joins[s := Ended(n.joins[s], |n.log|)])
  }

  /** A non-blocking send: it is lost when the channel is full. */
  function Send(n: Net, s: Sub, i: nat): Net
    requires s < |n.queues| && i < |n.log|
  {
    var room := |n.queues[s]| < CHANNEL;
    n.(pending := n.pending - {(s, i)}, offers := n.offers + [Offer(s, i, room)],
       queues := if room then n.queues[s := n.queues[s] + [EventAt(n.log, i)]] else n.queues)
  }

  function Receive(n: Net, s: Sub): Net
    requires s < |n.queues| && s < |n.consumed| && n.queues[s] != []
  {
    n.(queues := n.queues[s := n.queues[s][1..]], consumed := n.consumed[s := n.consumed[s] + [n.queues[s][0]]])
  }

  /** A send to a closed channel ends its publisher, whose other sends are never made. */
  function Panic(n: Net, i: nat): Net {
    n.(pending := (set p | p in n.pending && p.1 != i), panicked := n.panicked + {i})
  }

  function Close(n: Net): Net {
    n.(hub := Shut(n.hub), joins := seq(|n.joins|, i requires 0 <= i < |n.joins| => Ended(n.joins[i], |n.log|)))
  }

  function Step(n: Net, a: Action): Net {
    match a
    case Publishes(e) => Publish(n, e)
    case Subscribes(topic, lastId) => Subscribe(n, topic, lastId)
    case Unsubscribes(s) => if s < |n.joins| then Unsubscribe(n, s) else n
    case Delivers(s, i) =>
      if (s, i) !in n.pending then n
      else if s in n.hub.shut then Panic(n, i)
      else if s < |n.queues| && i < |n.log| then Send(n, s, i)
      else n
    case Receives(s) => if s < |n.queues| && s < |n.consumed| && n.queues[s] != [] then Receive(n, s) else n
    case Closes => Close(n)
  }

  function Run(actions: seq<Action>): Net {
    if actions == [] then IDLE else Step(Run(actions[..|actions| - 1]), actions[|actions| - 1])
  }

  // --- What holds in every reachable state ----------------------------------------------------

  /** Entry i was published while subscription s was in place, on its topic. */
  predicate Due(n: Net, s: Sub, i: nat) {
    s < |n.joins| && i < |n.log| && n.joins[s].at <= i && n.log[i].topic == n.joins[s].topic &&
    (n.joins[s].left.Some? ==> i < n.joins[s].left.value)
  }

  function Offered(offers: seq<Offer>, s: Sub, i: nat): nat {
    if offers == [] then 0
    else
      var last := offers[|offers| - 1];
      Offered(offers[..|offers| - 1], s, i) + if last.sub == s && last.entry == i then 1 else 0
  }

  /** The events of the sends to s that found room, in order. */
  function Taken(log: seq<Entry>, offers: seq<Offer>, s: Sub): seq<Event> {
    if offers == [] then []
    else
      var last := offers[|offers| - 1];
      Taken(log, offers[..|offers| - 1], s) +
      if last.sub == s && last.taken && last.entry < |log| then [EventAt(log, last.entry)] else []
  }

  /** Subscription s is in place on topic t. */
  predicate InPlace(n: Net, t: Topic, s: Sub) {
    s < |n.joins| && n.joins[s].topic == t && n.joins[s].left.None?
  }

  ghost predicate Subscribed(n: Net) {
    forall t: Topic, s: Sub :: s in SubsOf(n.hub, t) <==> InPlace(n, t, s)
  }

  ghost predicate JoinsSound(n: Net) {
    forall s: Sub :: s < |n.joins| ==> JoinSound(n.log, n.joins[s])
  }

  ghost predicate JoinSound(log: seq<Entry>, join: Joined) {
    && join.at <= |log| && (join.left.Some? ==> join.at <= join.left.value <= |log|)
    && IsReplay(log[..join.at], join.topic, join.lastId, join.replay)
  }

  /** A replay is, in order, the replayable events of the topic newer than the id given. */
  ghost predicate IsReplay(log: seq<Entry>, topic: Topic, lastId: int, past: seq<Event>) {
    && Increasing(past)
    && (forall e :: e in past ==> FromLog(log, 0, topic, e))
    && forall i :: 0 <= i < |log| && log[i].topic == topic ==>
         (EventAt(log, i) in past <==> Replayable(log, i) && i + 1 > lastId)
  }

  /** Sends of entry i to subscription s, made and still to come. */
  function Sends(n: Net, s: Sub, i: nat): nat {
    Offered(n.offers, s, i) + if (s, i) in n.pending then 1 else 0
  }

  /** Each due send is made once or still to come, unless its publisher died before it. */
  ghost predicate SendExact(n: Net, s: Sub, i: nat) {
    && Sends(n, s, i) <= (if Due(n, s, i) then 1 else 0)
    && (i !in n.panicked ==> Sends(n, s, i) == if Due(n, s, i) then 1 else 0)
    && (i in n.panicked ==> (s, i) !in n.pending)
  }

  ghost predicate SendsExact(n: Net) {
    forall s: Sub, i: nat :: SendExact(n, s, i)
  }

  /** Channels are closed, and publishers die, only after a close, which ends every
      subscription a send may still be under way to. */
  ghost predicate ShutExact(n: Net) {
    && (!n.hub.closed ==> n.hub.shut == {} && n.panicked == {})
    && (forall s: Sub :: s in n.hub.shut ==> s < |n.joins| && n.joins[s].left.Some?)
    && (n.hub.closed ==> forall p :: p in n.pending && p.0 < |n.joins| ==> n.joins[p.0].left.Some?)
    && (forall i :: i in n.panicked ==> i < |n.log|)
  }

  ghost predicate QueuesExact(n: Net) {
    && |n.queues| == |n.joins| && |n.consumed| == |n.joins|
    && (forall x :: 0 <= x < |n.offers| ==> n.offers[x].entry < |n.log| && n.offers[x].sub < |n.joins|)
    && forall s: Sub :: s < |n.queues| ==> QueueExact(n, s)
  }

  ghost predicate QueueExact(n: Net, s: Sub) {
    s < |n.queues| && s < |n.consumed| && |n.queues[s]| <= CHANNEL &&
      n.consumed[s] + n.queues[s] == Taken(n.log, n.offers, s)
  }

  ghost predicate Sound(n: Net) {
    Tracks(n.hub, n.log) && Subscribed(n) && JoinsSound(n) && SendsExact(n) && QueuesExact(n) && ShutExact(n)
  }

  lemma SubsAfterAppend(h: State, e: Entry)
    ensures Append(h, e).subs == h.subs && Append(h, e).closed == h.closed && Append(h, e).shut == h.shut
  {
    if !h.closed {
      var mid := State(h.last + 1, h.subs,
        h.buffers[e.topic := Suffix(BufferOf(h, e.topic) + [Event(h.last + 1, e.kind, e.data)], MAX_BUF)],
                       if e.topic in h.buffers then h.order else h.order + [e.topic], false, h.shut);
      EvictKeepsSubs(mid);
    }
  }

  lemma {:induction false} EvictKeepsSubs(h: State)
    ensures Evict(h).subs == h.subs && Evict(h).closed == h.closed && Evict(h).shut == h.shut
    decreases |h.order|
  {
    if |h.order| > MAX_KEYS {
      EvictKeepsSubs(h.(order := h.order[1..], buffers := h.buffers - {h.order[0]}));
    }
  }

  lemma {:induction false} TakenGrows(log: seq<Entry>, e: Entry, offers: seq<Offer>, s: Sub)
    requires forall x :: 0 <= x < |offers| ==> offers[x].entry < |log|
    ensures Taken(log + [e], offers, s) == Taken(log, offers, s)
  {
    if offers != [] {
      TakenGrows(log, e, offers[..|offers| - 1], s);
    }
  }

  lemma {:induction false} NobodyYet(log: seq<Entry>, offers: seq<Offer>, s: Sub)
    requires forall x :: 0 <= x < |offers| ==> offers[x].sub < s
    ensures Taken(log, offers, s) == []
  {
    if offers != [] {
      NobodyYet(log, offers[..|offers| - 1], s);
    }
  }

  lemma PublishSends(n: Net, e: Entry)
    requires Sound(n) && !n.hub.closed
    ensures SendsExact(Publish(n, e))
  {
    var n' := Publish(n, e);
    forall s: Sub, i: nat
      ensures SendExact(n', s, i)
    {
      assert SendExact(n, s, i);
      if i == |n.log| {
        assert !Due(n, s, i) && n'.log[i] == e;
        assert s < |n.joins| ==> JoinSound(n.log, n.joins[s]);
        assert s in SubsOf(n.hub, e.topic) <==> InPlace(n, e.topic, s);
      } else {
        assert Due(n', s, i) <==> Due(n, s, i);
      }
    }
  }

  lemma JoinSoundGrows(log: seq<Entry>, e: Entry, join: Joined)
    requires JoinSound(log, join)
    ensures JoinSound(log + [e], join)
  {
    assert (log + [e])[..join.at] == log[..join.at];
  }

  lemma PublishSound(n: Net, e: Entry)
    requires Sound(n)
    ensures Sound(Publish(n, e))
  {
    if !n.hub.closed {
      var n' := Publish(n, e);
      AppendTracks(n.hub, n.log, e);
      SubsAfterAppend(n.hub, e);
      PublishSends(n, e);
      forall s: Sub | s < |n.joins|
        ensures JoinSound(n'.log, n'.joins[s])
        ensures QueueExact(n', s)
      {
        assert QueueExact(n, s);
        JoinSoundGrows(n.log, e, n.joins[s]);
        TakenGrows(n.log, e, n.offers, s);
      }
      assert Subscribed(n') by {
        forall t: Topic, s: Sub
          ensures s in SubsOf(n'.hub, t) <==> InPlace(n', t, s)
        {
          assert s in SubsOf(n.hub, t) <==> InPlace(n, t, s);
        }
      }
    }
  }

  /** What the new subscription is promised. */
  lemma NewJoinSound(n: Net, topic: Topic, lastId: int)
    requires Tracks(n.hub, n.log) && JoinsSound(n)
    ensures JoinsSound(Subscribe(n, topic, lastId))
  {
    ReplayExact(n.hub, n.log, topic, lastId);
    assert n.log[..|n.log|] == n.log;
  }

  /** Nothing published so far is due to a new subscription. */
  lemma NewJoinSends(n: Net, topic: Topic, lastId: int)
    requires SendsExact(n)
    ensures SendsExact(Subscribe(n, topic, lastId))
  {
    var n' := Subscribe(n, topic, lastId);
    forall s: Sub, i: nat
      ensures SendExact(n', s, i)
    {
      assert SendExact(n, s, i);
      assert Due(n', s, i) <==> Due(n, s, i);
    }
  }

  lemma NewJoinQueues(n: Net, topic: Topic, lastId: int)
    requires QueuesExact(n)
    ensures QueuesExact(Subscribe(n, topic, lastId))
  {
    var n' := Subscribe(n, topic, lastId);
    NobodyYet(n.log, n.offers, |n.joins|);
    forall x: Sub | x < |n'.queues|
      ensures QueueExact(n', x)
    {
      if x < |n.queues| {
        assert QueueExact(n, x);
      }
    }
  }

  lemma PendingJoined(n: Net, s: Sub, i: nat)
    requires SendsExact(n) && (s, i) in n.pending
    ensures Due(n, s, i) && i !in n.panicked && Offered(n.offers, s, i) == 0
  {
    assert SendExact(n, s, i);
  }

  lemma NewJoinShut(n: Net, topic: Topic, lastId: int)
    requires ShutExact(n) && SendsExact(n)
    ensures ShutExact(Subscribe(n, topic, lastId))
  {
    forall p | p in n.pending
      ensures p.0 < |n.joins|
    {
      PendingJoined(n, p.0, p.1);
    }
  }

  lemma SubscribeSound(n: Net, topic: Topic, lastId: int)
    requires Sound(n)
    ensures Sound(Subscribe(n, topic, lastId))
  {
    NewJoinSound(n, topic, lastId);
    NewJoinSends(n, topic, lastId);
    NewJoinQueues(n, topic, lastId);
    NewJoinShut(n, topic, lastId);
    NewSubscribed(n, topic, lastId);
  }

  lemma NewSubscribed(n: Net, topic: Topic, lastId: int)
    requires Subscribed(n)
    ensures Subscribed(Subscribe(n, topic, lastId))
  {
    var n' := Subscribe(n, topic, lastId);
    forall t: Topic, s: Sub
      ensures s in SubsOf(n'.hub, t) <==> InPlace(n', t, s)
    {
      assert s in SubsOf(n.hub, t) <==> InPlace(n, t, s);
    }
  }

  lemma LeaveExact(h: State, topic: Topic, sub: Sub, t: Topic)
    ensures SubsOf(Leave(h, topic, sub), t) == SubsOf(h, t) - if t == topic then {sub} else {}
  {
  }

  lemma UnsubscribeSound(n: Net, s: Sub)
    requires Sound(n) && s < |n.joins|
    ensures Sound(Unsubscribe(n, s))
  {
    var n' := Unsubscribe(n, s);
    assert Tracks(n'.hub, n'.log);
    forall t: Topic, x: Sub
      ensures x in SubsOf(n'.hub, t) <==> InPlace(n', t, x)
    {
      LeaveExact(n.hub, n.joins[s].topic, s, t);
      assert x in SubsOf(n.hub, t) <==> InPlace(n, t, x);
    }
    EndingKeepsSends(n, n');
    QueuesKept(n, n');
  }

  lemma QueuesKept(n: Net, n': Net)
    requires QueuesExact(n) && n'.log == n.log && n'.offers == n.offers && n'.queues == n.queues
    requires n'.consumed == n.consumed
    requires |n'.joins| == |n.joins|
    ensures QueuesExact(n')
  {
    forall s: Sub | s < |n'.queues|
      ensures QueueExact(n', s)
    {
      assert QueueExact(n, s);
    }
  }

  /** Ending subscriptions now leaves what is due to them as it is. */
  lemma EndingKeepsSends(n: Net, n': Net)
    requires JoinsSound(n) && SendsExact(n) && n'.log == n.log && n'.offers == n.offers && n'.pending == n.pending
    requires n'.panicked == n.panicked
    requires |n'.joins| == |n.joins|
    requires forall s :: 0 <= s < |n.joins| ==> n'.joins[s] == n.joins[s] || n'.joins[s] == Ended(n.joins[s], |n.log|)
    ensures JoinsSound(n') && SendsExact(n')
  {
    forall s: Sub | s < |n.joins|
      ensures JoinSound(n'.log, n'.joins[s])
    {
      assert JoinSound(n.log, n.joins[s]);
    }
    forall s: Sub, i: nat
      ensures SendExact(n', s, i)
    {
      assert SendExact(n, s, i);
      assert Due(n', s, i) <==> Due(n, s, i);
    }
  }

  lemma SendSound(n: Net, s: Sub, i: nat)
    requires Sound(n) && (s, i) in n.pending && s < |n.queues| && i < |n.log|
    ensures Sound(Send(n, s, i))
  {
    var n' := Send(n, s, i);
    assert n'.offers[..|n.offers|] == n.offers;
    forall x: Sub, y: nat
      ensures SendExact(n', x, y)
    {
      assert SendExact(n, x, y);
      assert Due(n', x, y) <==> Due(n, x, y);
    }
    forall x: Sub | x < |n'.queues|
      ensures QueueExact(n', x)
    {
      assert QueueExact(n, x);
    }
  }

  lemma ReceiveSound(n: Net, s: Sub)
    requires Sound(n) && s < |n.queues| && s < |n.consumed| && n.queues[s] != []
    ensures Sound(Receive(n, s))
  {
    var n' := Receive(n, s);
    forall x: Sub, y: nat
      ensures SendExact(n', x, y)
    {
      assert SendExact(n, x, y);
      assert Due(n', x, y) <==> Due(n, x, y);
    }
    forall x: Sub | x < |n'.queues|
      ensures QueueExact(n', x)
    {
      assert QueueExact(n, x);
      assert n'.consumed[s] + n'.queues[s] == n.consumed[s] + n.queues[s];
    }
  }

  lemma PanicSends(n: Net, s: Sub, i: nat)
    requires SendsExact(n) && (s, i) in n.pending
    ensures SendsExact(Panic(n, i)) && i < |n.log|
  {
    var n' := Panic(n, i);
    PendingJoined(n, s, i);
    forall x: Sub, y: nat
      ensures SendExact(n', x, y)
    {
      assert SendExact(n, x, y);
      assert Due(n', x, y) <==> Due(n, x, y);
    }
  }

  lemma PanicSound(n: Net, s: Sub, i: nat)
    requires Sound(n) && (s, i) in n.pending && s in n.hub.shut
    ensures Sound(Panic(n, i))
  {
    var n' := Panic(n, i);
    PanicSends(n, s, i);
    forall t: Topic, x: Sub
      ensures x in SubsOf(n'.hub, t) <==> InPlace(n', t, x)
    {
      assert x in SubsOf(n.hub, t) <==> InPlace(n, t, x);
    }
    QueuesKept(n, n');
  }

  lemma InPlaceSubs(n: Net, s: Sub)
    requires Subscribed(n)
    ensures s in AllSubs(n.hub.subs) <==> s < |n.joins| && n.joins[s].left.None?
  {
    if s in AllSubs(n.hub.subs) {
      var t :| t in n.hub.subs && s in n.hub.subs[t];
      assert s in SubsOf(n.hub, t);
      assert InPlace(n, t, s);
    }
    if s < |n.joins| && n.joins[s].left.None? {
      assert InPlace(n, n.joins[s].topic, s);
      assert s in SubsOf(n.hub, n.joins[s].topic);
    }
  }

  lemma CloseShut(n: Net)
    requires Subscribed(n) && ShutExact(n)
    ensures ShutExact(Close(n)) && Subscribed(Close(n))
  {
    forall s: Sub | s in Shut(n.hub).shut
      ensures s < |n.joins|
    {
      InPlaceSubs(n, s);
    }
  }

  lemma CloseSound(n: Net)
    requires Sound(n)
    ensures Sound(Close(n))
  {
    EndingKeepsSends(n, Close(n));
    QueuesKept(n, Close(n));
    CloseShut(n);
  }

  lemma DeliverSound(n: Net, s: Sub, i: nat)
    requires Sound(n)
    ensures Sound(Step(n, Delivers(s, i)))
  {
    if (s, i) in n.pending {
      if s in n.hub.shut {
        PanicSound(n, s, i);
      } else if s < |n.queues| && i < |n.log| {
        SendSound(n, s, i);
      }
    }
  }

  lemma {:induction false} RunSound(actions: seq<Action>)
    ensures Sound(Run(actions))
  {
    if actions != [] {
      var n := Run(actions[..|actions| - 1]);
      RunSound(actions[..|actions| - 1]);
      match actions[|actions| - 1] {
        case Publishes(e) => PublishSound(n, e);
        case Subscribes(topic, lastId) => SubscribeSound(n, topic, lastId);
        case Unsubscribes(s) => if s < |n.joins| { UnsubscribeSound(n, s); }
        case Delivers(s, i) => DeliverSound(n, s, i);
        case Receives(s) => if s < |n.queues| && s < |n.consumed| && n.queues[s] != [] { ReceiveSound(n, s); }
        case Closes => CloseSound(n);
      }
    }
  }

  // --- Who is sent what ------------------------------------------------------------------------

  /** After any interleaving, an event published while a subscription was in place is sent
      to it exactly once, or its one send is still to come; only a publisher that died of a
      close may leave it out. Any other event is never sent to it. The replay holds exactly
      the events of the topic that came before, are newer than the id named and were still
      replayable: so no event is both replayed and sent. */
  lemma ExactlyOnce(actions: seq<Action>, s: Sub, i: nat)
    requires s < |Run(actions).joins| && i < |Run(actions).log|
    requires Run(actions).log[i].topic == Run(actions).joins[s].topic
    ensures var n := Run(actions);
            var join := n.joins[s];
            var due := join.at <= i && (join.left.Some? ==> i < join.left.value);
            && join.at <= |n.log|
            && Sends(n, s, i) <= (if due then 1 else 0)
            && (due && Sends(n, s, i) == 0 ==> i in n.panicked)
            && (EventAt(n.log, i) in join.replay <==>
               i < join.at && Replayable(n.log[..join.at], i) && i + 1 > join.lastId)
            && (EventAt(n.log, i) in join.replay ==> Sends(n, s, i) == 0)
  {
    var n := Run(actions);
    RunSound(actions);
    var join := n.joins[s];
    assert JoinSound(n.log, join);
    assert SendExact(n, s, i);
    if i < join.at {
      assert n.log[..join.at][i] == n.log[i];
      assert EventAt(n.log[..join.at], i) == EventAt(n.log, i);
    }
  }

  /** Events of other topics reach a subscription neither way. */
  lemma OtherTopicsNever(actions: seq<Action>, s: Sub, i: nat)
    requires s < |Run(actions).joins| && i < |Run(actions).log|
    requires Run(actions).log[i].topic != Run(actions).joins[s].topic
    ensures var n := Run(actions);
            Sends(n, s, i) == 0 && EventAt(n.log, i) !in n.joins[s].replay
  {
    RunSound(actions);
    var n := Run(actions);
    assert SendExact(n, s, i);
    if EventAt(n.log, i) in n.joins[s].replay {
      ReplayOnTopic(n.log, n.joins[s], i);
    }
  }

  lemma ReplayOnTopic(log: seq<Entry>, join: Joined, i: nat)
    requires JoinSound(log, join) && i < |log| && EventAt(log, i) in join.replay
    ensures i < join.at && log[i].topic == join.topic
  {
    assert FromLog(log[..join.at], 0, join.topic, EventAt(log, i));
  }

  /** What a consumer has read and what waits in its channel are, in order, the sends that
      found room; the channel never holds more than its capacity. */
  lemma ChannelsConserve(actions: seq<Action>, s: Sub)
    requires s < |Run(actions).joins|
    ensures var n := Run(actions);
            && s < |n.queues| && s < |n.consumed|
            && |n.queues[s]| <= 256 && n.consumed[s] + n.queues[s] == Taken(n.log, n.offers, s)
  {
    RunSound(actions);
    assert QueueExact(Run(actions), s);
  }

  /** The buffers' bookkeeping in every reachable state. */
  lemma BuffersTrack(actions: seq<Action>)
    ensures Tracks(Run(actions).hub, Run(actions).log)
  {
    RunSound(actions);
  }

  // --- Closing while sends are under way ----------------------------------------------------------

  /** A send is under way to a subscription that a close would take the channel from. */
  ghost predicate Exposed(n: Net) {
    exists p :: p in n.pending && (p.0 in n.hub.shut || (p.0 < |n.joins| && n.joins[p.0].left.None?))
  }

  /** The hub is closed, and no send under way is to a closed channel. */
  ghost predicate Quiet(n: Net) {
    n.hub.closed && forall p :: p in n.pending ==> p.0 !in n.hub.shut && p.0 < |n.joins| && n.joins[p.0].left.Some?
  }

  lemma RunSnoc(actions: seq<Action>, a: Action)
    ensures Run(actions + [a]) == Step(Run(actions), a)
  {
    assert (actions + [a])[..|actions|] == actions;
  }

  lemma QuietStep(n: Net, a: Action)
    requires Sound(n) && Quiet(n)
    ensures Quiet(Step(n, a)) && Step(n, a).panicked == n.panicked
  {
    forall p | p in Step(n, a).pending
      ensures p.0 !in Step(n, a).hub.shut
    {
      InPlaceSubs(n, p.0);
    }
  }

  lemma {:induction false} QuietStays(actions: seq<Action>, later: seq<Action>)
    requires Quiet(Run(actions))
    ensures Quiet(Run(actions + later)) && Run(actions + later).panicked == Run(actions).panicked
  {
    if later == [] {
      assert actions + later == actions;
    } else {
      var front, a := later[..|later| - 1], later[|later| - 1];
      QuietStays(actions, front);
      RunSound(actions + front);
      QuietStep(Run(actions + front), a);
      RunSnoc(actions + front, a);
      assert actions + later == actions + front + [a];
    }
  }

  /** A close can be followed by a send to a closed channel, which ends the publisher,
      exactly when a send is under way to a subscription still in place, or to one whose
      channel an earlier close has taken already. */
  lemma CloseKills(actions: seq<Action>)
    ensures (exists later: seq<Action> :: Run(actions + [Closes] + later).panicked != Run(actions).panicked) <==>
      Exposed(Run(actions))
  {
    var n, closed := Run(actions), actions + [Closes];
    RunSound(actions);
    RunSnoc(actions, Closes);
    if Exposed(n) {
      var p :| p in n.pending && (p.0 in n.hub.shut || (p.0 < |n.joins| && n.joins[p.0].left.None?));
      InPlaceSubs(n, p.0);
      PendingJoined(n, p.0, p.1);
      RunSnoc(closed, Delivers(p.0, p.1));
      assert p.1 in Run(closed + [Delivers(p.0, p.1)]).panicked;
    } else {
      forall p | p in n.pending
        ensures p.0 !in Shut(n.hub).shut && p.0 < |n.joins|
      {
        InPlaceSubs(n, p.0);
        PendingJoined(n, p.0, p.1);
      }
      assert Quiet(Run(closed));
      forall later: seq<Action>
        ensures Run(closed + later).panicked == n.panicked
      {
        QuietStays(closed, later);
      }
    }
  }

  /** While the hub is open no publisher has died and no channel is closed. */
  lemma OpenIsSafe(actions: seq<Action>)
    requires Closes !in actions
    ensures Run(actions).panicked == {} && !Run(actions).hub.closed
  {
    if actions == [] {
    } else {
      var front := actions[..|actions| - 1];
      OpenIsSafe(front);
      RunSound(actions);
      RunSound(front);
      match actions[|actions| - 1] {
        case Publishes(e) => SubsAfterAppend(Run(front).hub, e);
        case _ =>
      }
    }
  }

  lemma OneSend(topic: Topic, e: Entry)
    requires e.topic == topic
    ensures (0, 0) in Run([Subscribes(topic, 0), Publishes(e)]).pending
    ensures Run([Subscribes(topic, 0), Publishes(e)]).panicked == {}
  {
    var start := [Subscribes(topic, 0)];
    assert [] + start == start && start + [Publishes(e)] == [Subscribes(topic, 0), Publishes(e)];
    RunSnoc([], Subscribes(topic, 0));
    RunSnoc(start, Publishes(e));
    var n := Subscribe(IDLE, topic, 0);
    assert Run(start) == n && n.log == [] && n.joins == [Joined(topic, 0, [], 0, None)];
    assert 0 in SubsOf(n.hub, topic);
  }

  lemma InPlaceAfter(topic: Topic, e: Entry)
    ensures var n := Run([Subscribes(topic, 0), Publishes(e)]); |n.joins| == 1 && n.joins[0].left.None?
  {
    var start := [Subscribes(topic, 0)];
    assert [] + start == start && start + [Publishes(e)] == [Subscribes(topic, 0), Publishes(e)];
    RunSnoc([], Subscribes(topic, 0));
    RunSnoc(start, Publishes(e));
  }

  /** Subscribe, publish, close, and the publisher sends what it had under way. */
  lemma CloseRace(topic: Topic, e: Entry)
    requires e.topic == topic
    ensures Run([Subscribes(topic, 0), Publishes(e), Closes, Delivers(0, 0)]).panicked == {0}
  {
    var sent := [Subscribes(topic, 0), Publishes(e)];
    var n := Run(sent);
    OneSend(topic, e);
    InPlaceAfter(topic, e);
    RunSound(sent);
    InPlaceSubs(n, 0);
    RunSnoc(sent, Closes);
    RunSnoc(sent + [Closes], Delivers(0, 0));
    assert Run(sent + [Closes] + [Delivers(0, 0)]) == Panic(Close(n), 0);
    assert sent + [Closes] + [Delivers(0, 0)] == [Subscribes(topic, 0), Publishes(e), Closes, Delivers(0, 0)];
  }
}

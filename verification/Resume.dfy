/** When a client that names the last event it saw, or none, gets everything that followed. */
module Resume {
  import opened Text
  import opened Hub
  import opened FanOut

  /** Position of the first event newer than an id. */
  function Cut(lastId: int): nat {
    if lastId < 0 then 0 else lastId
  }

  ghost predicate Complete(log: seq<Entry>, topic: Topic, lastId: int, past: seq<Event>) {
    forall i :: Cut(lastId) <= i < |log| && log[i].topic == topic ==> EventAt(log, i) in past
  }

  /** Nothing followed; or at most 500 events of the topic did, and the topic, still
      held, was admitted before the first of them. */
  ghost predicate Remembers(log: seq<Entry>, topic: Topic, lastId: int) {
    var cut := Cut(lastId);
    EventsFrom(log, cut, topic) == [] ||
    (&& |EventsFrom(log, cut, topic)| <= 500
     && exists h ::
       0 <= h < |Held(log)| && log[Held(log)[h]].topic == topic && EventsFrom(log[..Held(log)[h]], cut, topic) == [])
  }

  lemma EmptyBefore(log: seq<Entry>, cut: nat, topic: Topic, i: nat)
    requires i <= |log|
    ensures EventsFrom(log[..i], cut, topic) == [] <==> forall j :: cut <= j < i ==> log[j].topic != topic
  {
    var front := log[..i];
    if j :| cut <= j < i && log[j].topic == topic {
      assert front[j] == log[j];
      EventsSplit(front, cut, j, topic);
    } else if EventsFrom(front, cut, topic) != [] {
      EventsIncrease(front, cut, topic);
      assert FromLog(front, cut, topic, EventsFrom(front, cut, topic)[0]);
    }
  }

  /** If the first of the events that followed is entry i, nothing of the topic came before. */
  lemma NothingBefore(log: seq<Entry>, cut: nat, topic: Topic, i: nat)
    requires cut <= i < |log| && log[i].topic == topic
    requires EventsFrom(log, cut, topic) != [] && EventsFrom(log, cut, topic)[0].id == i + 1
    ensures EventsFrom(log[..i], cut, topic) == []
    ensures |EventsFrom(log, cut, topic)| == 1 + |EventsFrom(log, i + 1, topic)|
  {
    EventsSplit(log, cut, i, topic);
    var before, rest := EventsFrom(log[..i], cut, topic), [EventAt(log, i)] + EventsFrom(log, i + 1, topic);
    assert EventsFrom(log, cut, topic) == before + rest;
    EarlierIds(log, cut, topic, i);
    NothingFirst(before, rest, i);
  }

  lemma EarlierIds(log: seq<Entry>, cut: nat, topic: Topic, i: nat)
    requires i <= |log|
    ensures forall e :: e in EventsFrom(log[..i], cut, topic) ==> e.id <= i
  {
    EventsIncrease(log[..i], cut, topic);
    forall e | e in EventsFrom(log[..i], cut, topic)
      ensures e.id <= i
    {
      assert FromLog(log[..i], cut, topic, e);
    }
  }

  /** The first of the events that followed. */
  lemma FirstLater(log: seq<Entry>, cut: nat, topic: Topic) returns (i: nat)
    requires EventsFrom(log, cut, topic) != []
    ensures cut <= i < |log| && log[i].topic == topic
    ensures forall j :: cut <= j < i ==> log[j].topic != topic
    ensures |EventsFrom(log, cut, topic)| == 1 + |EventsFrom(log, i + 1, topic)|
  {
    var first := EventsFrom(log, cut, topic)[0];
    EventsIncrease(log, cut, topic);
    assert FromLog(log, cut, topic, first);
    i := first.id - 1;
    NothingBefore(log, cut, topic, i);
    EmptyBefore(log, cut, topic, i);
  }

  /** Events with ids up to a bound cannot come before one beyond it that is first. */
  lemma NothingFirst(before: seq<Event>, rest: seq<Event>, bound: int)
    requires (forall e :: e in before ==> e.id <= bound) && before + rest != [] && (before + rest)[0].id > bound
    ensures before == []
  {
    HeadStays(before, rest);
  }

  lemma HeadStays(before: seq<Event>, rest: seq<Event>)
    ensures before != [] ==> before[0] in before && (before + rest)[0] == before[0]
  {
  }

  lemma RememberedIsComplete(log: seq<Entry>, topic: Topic, lastId: int, past: seq<Event>)
    requires IsReplay(log, topic, lastId, past) && Remembers(log, topic, lastId)
    ensures Complete(log, topic, lastId, past)
  {
    var cut := Cut(lastId);
    assert log[..|log|] == log;
    EmptyBefore(log, cut, topic, |log|);
    forall i | cut <= i < |log| && log[i].topic == topic
      ensures EventAt(log, i) in past
    {
      EventsSplit(log, cut, i, topic);
      var h :| 0 <= h < |Held(log)| && log[Held(log)[h]].topic == topic &&
        EventsFrom(log[..Held(log)[h]], cut, topic) == [];
      EmptyBefore(log, cut, topic, Held(log)[h]);
      assert Replayable(log, i);
    }
  }

  lemma CompleteIsRemembered(log: seq<Entry>, topic: Topic, lastId: int, past: seq<Event>)
    requires IsReplay(log, topic, lastId, past) && Complete(log, topic, lastId, past)
    ensures Remembers(log, topic, lastId)
  {
    var cut := Cut(lastId);
    if EventsFrom(log, cut, topic) != [] {
      var i := FirstLater(log, cut, topic);
      assert EventAt(log, i) in past && Replayable(log, i);
      var h :| 0 <= h < |Held(log)| && log[Held(log)[h]].topic == topic && Held(log)[h] <= i;
      EmptyBefore(log, cut, topic, Held(log)[h]);
    }
  }

  /** A replay lacks nothing that followed the id exactly when the hub remembers it all. */
  lemma ReplayComplete(log: seq<Entry>, topic: Topic, lastId: int, past: seq<Event>)
    requires IsReplay(log, topic, lastId, past)
    ensures Complete(log, topic, lastId, past) <==> Remembers(log, topic, lastId)
  {
    if Complete(log, topic, lastId, past) {
      CompleteIsRemembered(log, topic, lastId, past);
    } else if Remembers(log, topic, lastId) {
      RememberedIsComplete(log, topic, lastId, past);
    }
  }

  /** Entry i is for subscription s: of its topic, from before it joined and newer than the id
      it named, or from while it was in place, unless a close ended its publisher first. */
  predicate Meant(n: Net, s: Sub, i: nat) {
    && s < |n.joins| && i < |n.log| && n.log[i].topic == n.joins[s].topic
    && (n.joins[s].left.Some? ==> i < n.joins[s].left.value)
    && if i < n.joins[s].at then i + 1 > n.joins[s].lastId else i !in n.panicked || Sends(n, s, i) > 0
  }

  predicate Offers(offers: seq<Offer>, s: Sub, i: nat, taken: bool) {
    exists x :: 0 <= x < |offers| && offers[x] == Offer(s, i, taken)
  }

  /** It is replayed, was sent and found room, or its send is still to come. */
  predicate Reaches(n: Net, s: Sub, i: nat) {
    s < |n.joins| && i < |n.log| &&
    (EventAt(n.log, i) in n.joins[s].replay || Offers(n.offers, s, i, true) || (s, i) in n.pending)
  }

  /** No send to the subscription met a full channel. */
  ghost predicate NoneRefused(n: Net, s: Sub) {
    forall i: nat :: !Offers(n.offers, s, i, false)
  }

  lemma {:induction false} OfferedOnce(offers: seq<Offer>, s: Sub, i: nat)
    ensures Offered(offers, s, i) > 0 <==> Offers(offers, s, i, true) || Offers(offers, s, i, false)
    ensures Offers(offers, s, i, true) && Offers(offers, s, i, false) ==> Offered(offers, s, i) > 1
  {
    if offers != [] {
      var front, last := offers[..|offers| - 1], offers[|offers| - 1];
      OfferedOnce(front, s, i);
      OffersSnoc(front, last, s, i, true);
      OffersSnoc(front, last, s, i, false);
      assert offers == front + [last];
    }
  }

  lemma OffersSnoc(front: seq<Offer>, last: Offer, s: Sub, i: nat, taken: bool)
    ensures Offers(front + [last], s, i, taken) <==> Offers(front, s, i, taken) || last == Offer(s, i, taken)
  {
    var all := front + [last];
    assert all[|front|] == last;
    if x :| 0 <= x < |front| && front[x] == Offer(s, i, taken) {
      assert all[x] == front[x];
    }
  }

  lemma JoinedSound(actions: seq<Action>, s: Sub)
    requires s < |Run(actions).joins|
    ensures JoinSound(Run(actions).log, Run(actions).joins[s])
  {
    RunSound(actions);
  }

  /** An entry from while the subscription was in place reaches it unless its send was refused. */
  lemma LaterReaches(actions: seq<Action>, s: Sub, i: nat)
    requires Meant(Run(actions), s, i) && Run(actions).joins[s].at <= i
    ensures Reaches(Run(actions), s, i) <==> !Offers(Run(actions).offers, s, i, false)
  {
    ExactlyOnce(actions, s, i);
    OfferedOnce(Run(actions).offers, s, i);
  }

  /** An entry from before it joined reaches it only in the replay. */
  lemma EarlierReaches(actions: seq<Action>, s: Sub, i: nat)
    requires Meant(Run(actions), s, i) && i < Run(actions).joins[s].at
    ensures Reaches(Run(actions), s, i) <==> EventAt(Run(actions).log, i) in Run(actions).joins[s].replay
  {
    ExactlyOnce(actions, s, i);
    OfferedOnce(Run(actions).offers, s, i);
  }

  /** Sends are made only of entries meant for their subscription, after it joined. */
  lemma RefusedIsMeant(actions: seq<Action>, s: Sub, i: nat)
    requires Offers(Run(actions).offers, s, i, false)
    ensures Meant(Run(actions), s, i) && Run(actions).joins[s].at <= i
  {
    RunSound(actions);
    OfferedOnce(Run(actions).offers, s, i);
    assert SendExact(Run(actions), s, i);
  }

  lemma EarlierComplete(actions: seq<Action>, s: Sub)
    requires s < |Run(actions).joins|
    ensures var n := Run(actions);
            var join := n.joins[s];
            && join.at <= |n.log|
            && ((forall i: nat :: Meant(n, s, i) && i < join.at ==> Reaches(n, s, i)) <==>
                Remembers(n.log[..join.at], join.topic, join.lastId))
  {
    var n := Run(actions);
    var join := n.joins[s];
    JoinedSound(actions, s);
    var before := n.log[..join.at];
    ReplayComplete(before, join.topic, join.lastId, join.replay);
    if Complete(before, join.topic, join.lastId, join.replay) {
      forall i: nat | Meant(n, s, i) && i < join.at
        ensures Reaches(n, s, i)
      {
        EarlierReaches(actions, s, i);
        assert before[i] == n.log[i] && EventAt(before, i) == EventAt(n.log, i);
      }
    } else {
      var i: nat :| Cut(join.lastId) <= i < |before| && before[i].topic == join.topic &&
        EventAt(before, i) !in join.replay;
      assert before[i] == n.log[i] && EventAt(before, i) == EventAt(n.log, i);
      assert Meant(n, s, i);
      EarlierReaches(actions, s, i);
    }
  }

  /** In any interleaving, everything meant for a subscription reaches it exactly when the
      hub remembered what followed the id named at the moment of joining, and no send to it
      has met a full channel. */
  lemma ReachesAll(actions: seq<Action>, s: Sub)
    requires s < |Run(actions).joins|
    ensures var n := Run(actions);
            var join := n.joins[s];
            && join.at <= |n.log|
            && ((forall i: nat :: Meant(n, s, i) ==> Reaches(n, s, i)) <==>
                Remembers(n.log[..join.at], join.topic, join.lastId) && NoneRefused(n, s))
  {
    var n := Run(actions);
    var join := n.joins[s];
    EarlierComplete(actions, s);
    if i: nat :| Offers(n.offers, s, i, false) {
      RefusedIsMeant(actions, s, i);
      LaterReaches(actions, s, i);
    } else {
      forall i: nat | Meant(n, s, i) && join.at <= i
        ensures Reaches(n, s, i)
      {
        LaterReaches(actions, s, i);
      }
    }
  }

  // --- When sends are refused -----------------------------------------------------------------

  function OffersTo(offers: seq<Offer>, s: Sub): nat {
    if offers == [] then 0
    else OffersTo(offers[..|offers| - 1], s) + if offers[|offers| - 1].sub == s then 1 else 0
  }

  function EntriesTo(offers: seq<Offer>, s: Sub): set<nat> {
    set x | 0 <= x < |offers| && offers[x].sub == s :: offers[x].entry
  }

  lemma {:induction false} TakenWithin(log: seq<Entry>, offers: seq<Offer>, s: Sub)
    ensures |Taken(log, offers, s)| <= OffersTo(offers, s)
  {
    if offers != [] {
      TakenWithin(log, offers[..|offers| - 1], s);
    }
  }

  /** A send is refused only once more sends to its subscription were made than fit. */
  ghost predicate RefusedLate(n: Net) {
    forall s: Sub, i: nat :: Offers(n.offers, s, i, false) ==> OffersTo(n.offers, s) > CHANNEL
  }

  lemma SendRefusedLate(n: Net, s: Sub, i: nat)
    requires Sound(n) && RefusedLate(n) && s < |n.queues| && i < |n.log|
    ensures RefusedLate(Send(n, s, i))
  {
    var n' := Send(n, s, i);
    var last := n'.offers[|n.offers|];
    assert n'.offers == n.offers + [last] && n'.offers[..|n.offers|] == n.offers;
    assert QueueExact(n, s);
    TakenWithin(n.log, n.offers, s);
    forall x: Sub, y: nat | Offers(n'.offers, x, y, false)
      ensures OffersTo(n'.offers, x) > CHANNEL
    {
      OffersSnoc(n.offers, last, x, y, false);
    }
  }

  lemma StepOffers(n: Net, a: Action)
    ensures Step(n, a).offers == n.offers ||
            (a.Delivers? && a.sub < |n.queues| && a.index < |n.log| && Step(n, a) == Send(n, a.sub, a.index))
  {
  }

  lemma {:induction false} RunRefusedLate(actions: seq<Action>)
    ensures RefusedLate(Run(actions))
  {
    if actions != [] {
      var front, a := actions[..|actions| - 1], actions[|actions| - 1];
      RunRefusedLate(front);
      RunSound(front);
      StepOffers(Run(front), a);
      if Run(actions).offers != Run(front).offers {
        SendRefusedLate(Run(front), a.sub, a.index);
      }
    }
  }

  /** Each entry is sent to a subscription once, so sends and entries are as many. */
  lemma {:induction false} EntriesCounted(offers: seq<Offer>, s: Sub)
    requires forall i: nat :: Offered(offers, s, i) <= 1
    ensures |EntriesTo(offers, s)| == OffersTo(offers, s)
  {
    if offers != [] {
      var front, last := offers[..|offers| - 1], offers[|offers| - 1];
      forall i: nat
        ensures Offered(front, s, i) <= 1
      {
        assert Offered(offers, s, i) <= 1;
      }
      EntriesCounted(front, s);
      EntriesSnoc(front, last, s);
      assert offers == front + [last];
      if last.sub == s && last.entry in EntriesTo(front, s) {
        SentTwice(front, last, s);
      }
    }
  }

  lemma SentTwice(front: seq<Offer>, last: Offer, s: Sub)
    requires last.sub == s && last.entry in EntriesTo(front, s)
    ensures Offered(front + [last], s, last.entry) > 1
  {
    var x :| 0 <= x < |front| && front[x].sub == s && front[x].entry == last.entry;
    OfferedOnce(front, s, last.entry);
    assert Offers(front, s, last.entry, front[x].taken);
    assert (front + [last])[..|front|] == front;
  }

  lemma EntriesSnoc(front: seq<Offer>, last: Offer, s: Sub)
    ensures EntriesTo(front + [last], s) == EntriesTo(front, s) + if last.sub == s then {last.entry} else {}
  {
    var all := front + [last];
    assert all[|front|] == last;
    forall i
      ensures i in EntriesTo(all, s) <==> i in EntriesTo(front, s) || (last.sub == s && i == last.entry)
    {
      if x :| 0 <= x < |front| && front[x].sub == s && front[x].entry == i {
        assert all[x] == front[x];
      }
    }
  }

  /** The entries published on its topic while a subscription was in place. */
  function DueTo(n: Net, s: Sub): set<nat> {
    set i: nat | i < |n.log| && Due(n, s, i)
  }

  lemma EntriesAreDue(actions: seq<Action>, s: Sub)
    ensures OffersTo(Run(actions).offers, s) <= |DueTo(Run(actions), s)|
  {
    var n := Run(actions);
    RunSound(actions);
    forall i: nat
      ensures Offered(n.offers, s, i) <= 1
    {
      assert SendExact(n, s, i);
    }
    EntriesCounted(n.offers, s);
    forall i | i in EntriesTo(n.offers, s)
      ensures i in DueTo(n, s)
    {
      var x :| 0 <= x < |n.offers| && n.offers[x].sub == s && n.offers[x].entry == i;
      OfferedOnce(n.offers, s, i);
      assert Offers(n.offers, s, i, n.offers[x].taken);
      assert SendExact(n, s, i);
    }
    SubsetCard(EntriesTo(n.offers, s), DueTo(n, s));
  }

  lemma {:induction false} SubsetCard(a: set<nat>, b: set<nat>)
    requires a <= b
    ensures |a| <= |b|
  {
    if a != {} {
      var x :| x in a;
      SubsetCard(a - {x}, b - {x});
    }
  }

  /** In any run, a subscription that no more events were due to than its channel holds has
      had none refused, whether or not its consumer reads. */
  lemma FewAreAllTaken(actions: seq<Action>, s: Sub)
    requires |DueTo(Run(actions), s)| <= 256
    ensures NoneRefused(Run(actions), s)
  {
    RunRefusedLate(actions);
    EntriesAreDue(actions, s);
  }

  // --- A late subscriber of one topic --------------------------------------------------------------

  function Repeated(e: Entry, count: nat): seq<Action> {
    seq(count, _ => Publishes(e))
  }

  lemma {:induction false} RepeatedLog(e: Entry, count: nat)
    ensures Run(Repeated(e, count)).log == seq(count, _ => e) && Run(Repeated(e, count)).joins == []
  {
    if count == 0 {
    } else {
      RepeatedLog(e, count - 1);
      assert Repeated(e, count) == Repeated(e, count - 1) + [Publishes(e)];
      RunSnoc(Repeated(e, count - 1), Publishes(e));
      OpenIsSafe(Repeated(e, count - 1));
    }
  }

  lemma {:induction false} OneTopic(log: seq<Entry>, topic: Topic)
    requires forall i :: 0 <= i < |log| ==> log[i].topic == topic
    ensures |EventsFrom(log, 0, topic)| == |log| && (log != [] ==> Admissions(log) == [0])
  {
    if |log| > 1 {
      var front := log[..|log| - 1];
      OneTopic(front, topic);
      assert Admissions(front) == [0] && Suffix(Admissions(front), MAX_KEYS)[0] == 0;
    }
  }

  lemma LateJoin(e: Entry, count: nat)
    ensures var n := Run(Repeated(e, count) + [Subscribes(e.topic, 0)]);
            && n.log == seq(count, _ => e) && |n.joins| == 1
            && IsReplay(n.log, e.topic, 0, n.joins[0].replay)
  {
    var front := Repeated(e, count);
    var n := Run(front + [Subscribes(e.topic, 0)]);
    RepeatedLog(e, count);
    RunSnoc(front, Subscribes(e.topic, 0));
    JoinedSound(front + [Subscribes(e.topic, 0)], 0);
    assert n.log[..count] == n.log;
  }

  lemma OneTopicRemembered(log: seq<Entry>, topic: Topic)
    requires forall i :: 0 <= i < |log| ==> log[i].topic == topic
    ensures Remembers(log, topic, 0) <==> |log| <= 500
  {
    OneTopic(log, topic);
    if log != [] {
      assert Held(log) == [0] && log[Held(log)[0]].topic == topic && EventsFrom(log[..Held(log)[0]], 0, topic) == [];
    }
  }

  /** A client that joins after events of one topic were published, naming no event, gets
      them all exactly when there were at most 500 of them. */
  lemma LateSubscriber(e: Entry, count: nat)
    ensures var n := Run(Repeated(e, count) + [Subscribes(e.topic, 0)]);
            && |n.joins| == 1 && |n.log| == count
            && ((forall i: nat :: i < count ==> EventAt(n.log, i) in n.joins[0].replay) <==> count <= 500)
  {
    var n := Run(Repeated(e, count) + [Subscribes(e.topic, 0)]);
    LateJoin(e, count);
    OneTopicRemembered(n.log, e.topic);
    ReplayComplete(n.log, e.topic, 0, n.joins[0].replay);
  }

  // --- A subscriber that reads nothing ---------------------------------------------------------

  /** One subscription, then events of its topic, each sent at once and none received. */
  function Unread(e: Entry, count: nat): seq<Action> {
    if count == 0 then [Subscribes(e.topic, 0)]
    else Unread(e, count - 1) + [Publishes(e), Delivers(0, count - 1)]
  }

  /** The state that leads to: the first CHANNEL sends found room. */
  ghost predicate Filling(n: Net, e: Entry, count: nat) {
    && !n.hub.closed && n.hub.shut == {} && n.hub.subs == map[e.topic := {0}]
    && n.log == seq(count, _ => e) && n.joins == [Joined(e.topic, 0, [], 0, None)]
    && n.pending == {} && n.panicked == {}
    && |n.offers| == count && (forall i: nat :: i < count ==> n.offers[i] == Offer(0, i, i < CHANNEL))
    && |n.queues| == 1 && |n.queues[0]| == if count <= CHANNEL then count else CHANNEL
  }

  lemma FillingPublish(n: Net, e: Entry, count: nat)
    requires Filling(n, e, count)
    ensures var n' := Publish(n, e);
            && n' == n.(hub := n'.hub, log := seq(count + 1, _ => e), pending := {(0, count)})
            && !n'.hub.closed && n'.hub.shut == {} && n'.hub.subs == map[e.topic := {0}]
  {
    SubsAfterAppend(n.hub, e);
    assert SubsOf(n.hub, e.topic) == {0};
  }

  lemma FillingStep(n: Net, e: Entry, count: nat)
    requires Filling(n, e, count)
    ensures Filling(Step(Publish(n, e), Delivers(0, count)), e, count + 1)
  {
    var n' := Publish(n, e);
    FillingPublish(n, e, count);
    assert Step(n', Delivers(0, count)) == Send(n', 0, count);
  }

  lemma {:induction false} UnreadFills(e: Entry, count: nat)
    ensures Filling(Run(Unread(e, count)), e, count)
  {
    if count == 0 {
      assert [] + [Subscribes(e.topic, 0)] == Unread(e, 0);
      RunSnoc([], Subscribes(e.topic, 0));
      assert {} + {0} == {0} && map[][e.topic := {0}] == map[e.topic := {0}];
      assert Filling(Subscribe(IDLE, e.topic, 0), e, 0);
    } else {
      var front := Unread(e, count - 1);
      UnreadFills(e, count - 1);
      FillingStep(Run(front), e, count - 1);
      RunSnoc(front, Publishes(e));
      RunSnoc(front + [Publishes(e)], Delivers(0, count - 1));
      assert front + [Publishes(e)] + [Delivers(0, count - 1)] == Unread(e, count);
    }
  }

  /** Events sent to a subscriber that reads nothing all reach it exactly when there are at
      most 256 of them: from then on each is lost, though the hub remembers it. */
  lemma SlowReader(e: Entry, count: nat)
    ensures var n := Run(Unread(e, count));
            && |n.joins| == 1 && |n.log| == count && n.pending == {} && n.panicked == {}
            && (forall i: nat :: i < count ==> Meant(n, 0, i) && (Reaches(n, 0, i) <==> i < 256))
            && (NoneRefused(n, 0) <==> count <= 256)
  {
    var n := Run(Unread(e, count));
    UnreadFills(e, count);
    forall i: nat | i < count
      ensures Offers(n.offers, 0, i, i < CHANNEL) && (Offers(n.offers, 0, i, true) <==> i < CHANNEL)
      ensures Meant(n, 0, i)
    {
      assert n.offers[i] == Offer(0, i, i < CHANNEL);
    }
    if count > CHANNEL {
      assert n.offers[CHANNEL] == Offer(0, CHANNEL, false);
      assert Offers(n.offers, 0, CHANNEL, false);
    }
  }
}

/**
 The in-memory publish/subscribe hub as a state machine. A mutex guards the subscription
 lists, and a publish holds it while it offers the event to one channel after another.
 Receivers take from their channel without the mutex, so they may run between two offers.
 The state also records what happened, so that delivery can be stated over whole runs.
 */
module Hub {
  import opened Seqs

  const CAPACITY := 32

  datatype Event = Event(kind: string, household: string, payload: string, timestamp: int)

  /** An event offered to a channel that had `unread` events in its buffer at that moment. */
  datatype Offer = Offer(event: Event, unread: nat)

  /** The events published on `topic` from position `since` on, up to `until` once it is cancelled, concern it. */
  datatype Chan = Chan(
    topic: string,
    open: bool,
    buffer: seq<Event>,
    received: seq<Event>,
    offers: seq<Offer>,
    since: nat,
    until: nat)

  datatype Mutex = Free | Publishing(topic: string, event: Event, next: nat)

  /** `crashed` is set by a send on a closed channel or a second close, which panic in the source. */
  datatype State = State(
    chans: seq<Chan>,
    subs: map<string, seq<nat>>,
    log: map<string, seq<Event>>,
    mutex: Mutex,
    crashed: bool)

  datatype Action =
    | Subscribe(topic: string)
    | BeginPublish(topic: string, event: Event)
    | SendNext
    | EndPublish
    | Cancel(id: nat)
    | Receive(id: nat)

  const EMPTY := State([], map[], map[], Free, false)

  function Listeners(s: State, topic: string): seq<nat> {
    if topic in s.subs then s.subs[topic] else []
  }

  function Published(s: State, topic: string): seq<Event> {
    if topic in s.log then s.log[topic] else []
  }

  /** A send that does not wait: the event is appended if there is room and dropped otherwise. */
  function TrySend(c: Chan, event: Event): Chan {
    c.(buffer := if |c.buffer| < CAPACITY then c.buffer + [event] else c.buffer,
       offers := c.offers + [Offer(event, |c.buffer|)])
  }

  function FirstIndex<T(==)>(xs: seq<T>, x: T): (i: nat)
    ensures i <= |xs|
    ensures i < |xs| ==> xs[i] == x
    ensures x !in xs[..i]
  {
    if xs == [] || xs[0] == x then 0 else 1 + FirstIndex(xs[1..], x)
  }

  lemma FirstIndexIs<T>(xs: seq<T>, x: T, i: nat)
    requires i < |xs| && xs[i] == x
    requires forall k :: 0 <= k < i ==> xs[k] != x
    ensures FirstIndex(xs, x) == i
  {
  }

  /** The list with its first `x` taken out and the later entries shifted down. */
  function Without<T(==)>(xs: seq<T>, x: T): seq<T> {
    var i := FirstIndex(xs, x);
    if i < |xs| then xs[..i] + xs[i + 1..] else xs
  }

  function DoSubscribe(s: State, topic: string): State {
    s.(chans := s.chans + [Chan(topic, true, [], [], [], |Published(s, topic)|, 0)],
       subs := s.subs[topic := Listeners(s, topic) + [|s.chans|]])
  }

  function DoCancel(s: State, id: nat): State
    requires id < |s.chans|
  {
    var c := s.chans[id];
    var subs := Listeners(s, c.topic);
    if id !in subs then s
    else
      s.(subs := s.subs[c.topic := Without(subs, id)],
         chans := s.chans[id := c.(open := false, until := |Published(s, c.topic)|)],
         crashed := s.crashed || !c.open)
  }

  predicate Enabled(s: State, a: Action) {
    match a
    case Subscribe(_) => s.mutex.Free?
    case BeginPublish(_, _) => s.mutex.Free?
    case SendNext =>
      s.mutex.Publishing? && s.mutex.next < |Listeners(s, s.mutex.topic)|
      && Listeners(s, s.mutex.topic)[s.mutex.next] < |s.chans|
    case EndPublish => s.mutex.Publishing? && s.mutex.next >= |Listeners(s, s.mutex.topic)|
    case Cancel(id) => s.mutex.Free? && id < |s.chans|
    case Receive(id) => id < |s.chans| && s.chans[id].buffer != []
  }

  /** One step of one goroutine; an action that is not enabled changes nothing. */
  function Step(s: State, a: Action): State {
    if !Enabled(s, a) then s else
    match a
    case Subscribe(topic) => DoSubscribe(s, topic)
    case BeginPublish(topic, event) =>
      s.(mutex := Publishing(topic, event, 0), log := s.log[topic := Published(s, topic) + [event]])
    case SendNext =>
      var Publishing(topic, event, next) := s.mutex;
      var id := Listeners(s, topic)[next];
      s.(chans := s.chans[id := TrySend(s.chans[id], event)],
         mutex := Publishing(topic, event, next + 1),
         crashed := s.crashed || !s.chans[id].open)
    case EndPublish => s.(mutex := Free)
    case Cancel(id) => DoCancel(s, id)
    case Receive(id) =>
      var c := s.chans[id];
      s.(chans := s.chans[id := c.(buffer := c.buffer[1..], received := c.received + [c.buffer[0]])])
  }

  function Run(s: State, actions: seq<Action>): State {
    if actions == [] then s else Step(Run(s, actions[..|actions| - 1]), actions[|actions| - 1])
  }

  // ---- The invariant ----

  predicate IsKept(o: Offer) { o.unread < CAPACITY }

  function EventOf(o: Offer): Event { o.event }

  function Events(offers: seq<Offer>): seq<Event> {
    Map(offers, EventOf)
  }

  /** The offered events that found room. */
  function KeptEvents(offers: seq<Offer>): seq<Event> {
    if offers == [] then []
    else
      KeptEvents(offers[..|offers| - 1])
      + if IsKept(offers[|offers| - 1]) then [offers[|offers| - 1].event] else []
  }

  /** The publish in progress has yet to reach this channel. */
  ghost predicate Awaits(s: State, id: nat)
    requires id < |s.chans|
  {
    && s.mutex.Publishing?
    && s.mutex.topic == s.chans[id].topic
    && s.mutex.next <= |Listeners(s, s.mutex.topic)|
    && id in Listeners(s, s.mutex.topic)[s.mutex.next..]
  }

  /** How many of the topic's events have been put to this channel or passed it by. */
  ghost function Horizon(s: State, id: nat): int
    requires id < |s.chans|
  {
    var c := s.chans[id];
    if !c.open then c.until
    else if Awaits(s, id) then |Published(s, c.topic)| - 1
    else |Published(s, c.topic)|
  }

  /** Received and buffered together are the events that found room, in the order they were offered. */
  ghost predicate BufferOk(c: Chan) {
    && |c.buffer| <= CAPACITY
    && c.received + c.buffer == KeptEvents(c.offers)
    && (forall o :: o in c.offers ==> o.unread <= CAPACITY)
  }

  ghost predicate ChanOk(s: State, id: nat)
    requires id < |s.chans|
  {
    var c := s.chans[id];
    && BufferOk(c)
    && c.since <= Horizon(s, id) <= |Published(s, c.topic)|
    && Events(c.offers) == Published(s, c.topic)[c.since..Horizon(s, id)]
    && (c.open <==> id in Listeners(s, c.topic))
  }

  ghost predicate ListOk(s: State, topic: string) {
    var ids := Listeners(s, topic);
    && (forall i :: 0 <= i < |ids| ==> ids[i] < |s.chans| && s.chans[ids[i]].topic == topic)
    && (forall i, j :: 0 <= i < j < |ids| ==> ids[i] != ids[j])
  }

  ghost predicate Inv(s: State) {
    && !s.crashed
    && (forall t :: ListOk(s, t))
    && (forall id :: 0 <= id < |s.chans| ==> ChanOk(s, id))
    && (s.mutex.Publishing? ==>
          && s.mutex.next <= |Listeners(s, s.mutex.topic)|
          && Published(s, s.mutex.topic) != []
          && Published(s, s.mutex.topic)[|Published(s, s.mutex.topic)| - 1] == s.mutex.event)
  }

  lemma KeptEventsAppend(offers: seq<Offer>, o: Offer)
    ensures KeptEvents(offers + [o]) == KeptEvents(offers) + if IsKept(o) then [o.event] else []
    ensures Events(offers + [o]) == Events(offers) + [o.event]
  {
  }

  lemma SubscribeKeepsChanOk(s: State, topic: string, id: nat)
    requires Inv(s) && s.mutex.Free? && id < |s.chans|
    ensures ChanOk(DoSubscribe(s, topic), id)
  {
    var s' := DoSubscribe(s, topic);
    assert ChanOk(s, id);
    assert Listeners(s', topic) == Listeners(s, topic) + [|s.chans|];
    assert Horizon(s', id) == Horizon(s, id);
  }

  lemma SubscribeKeepsInv(s: State, topic: string)
    requires Inv(s) && s.mutex.Free?
    ensures Inv(DoSubscribe(s, topic))
  {
    var s' := DoSubscribe(s, topic);
    assert Listeners(s', topic) == Listeners(s, topic) + [|s.chans|];
    forall t ensures ListOk(s', t) {
      assert ListOk(s, t);
    }
    forall id | 0 <= id < |s'.chans| ensures ChanOk(s', id) {
      if id < |s.chans| {
        SubscribeKeepsChanOk(s, topic, id);
      } else {
        assert s'.chans[id] == Chan(topic, true, [], [], [], |Published(s, topic)|, 0);
        assert Events([]) == [];
      }
    }
  }

  lemma SliceOfLongerLog(log: seq<Event>, event: Event, i: nat, j: nat)
    requires i <= j <= |log|
    ensures (log + [event])[i..j] == log[i..j]
  {
  }

  lemma BeginPublishKeepsInv(s: State, topic: string, event: Event)
    requires Inv(s) && s.mutex.Free?
    ensures Inv(Step(s, BeginPublish(topic, event)))
  {
    var s' := Step(s, BeginPublish(topic, event));
    forall t ensures ListOk(s', t) {
      assert ListOk(s, t);
    }
    forall id | 0 <= id < |s'.chans| ensures ChanOk(s', id) {
      assert ChanOk(s, id);
      assert Listeners(s', topic)[0..] == Listeners(s, topic);
      if s.chans[id].topic == topic {
        assert Horizon(s', id) == Horizon(s, id);
        SliceOfLongerLog(Published(s, topic), event, s.chans[id].since, Horizon(s, id));
      }
    }
  }

  /** The channel a publish is about to reach still awaits the event; once reached it does not. */
  lemma NextListenerAwaits(s: State)
    requires Inv(s) && Enabled(s, SendNext)
    ensures var ids := Listeners(s, s.mutex.topic);
      var sent := ids[s.mutex.next];
      && s.chans[sent].topic == s.mutex.topic && s.chans[sent].open
      && Awaits(s, sent) && !Awaits(Step(s, SendNext), sent)
      && forall id :: 0 <= id < |s.chans| && id != sent ==> (Awaits(s, id) <==> Awaits(Step(s, SendNext), id))
  {
    var ids, next := Listeners(s, s.mutex.topic), s.mutex.next;
    assert ListOk(s, s.mutex.topic);
    assert ChanOk(s, ids[next]);
    assert ids[next..] == [ids[next]] + ids[next + 1..];
    assert ids[next] !in ids[next + 1..];
  }

  lemma TrySendKeepsBufferOk(c: Chan, event: Event)
    requires BufferOk(c)
    ensures BufferOk(TrySend(c, event))
    ensures Events(TrySend(c, event).offers) == Events(c.offers) + [event]
  {
  }

  lemma SendMovesHorizon(s: State)
    requires Inv(s) && Enabled(s, SendNext)
    ensures var id := Listeners(s, s.mutex.topic)[s.mutex.next];
      && s.chans[id].topic == s.mutex.topic && s.chans[id].open
      && Horizon(s, id) == |Published(s, s.mutex.topic)| - 1
      && Horizon(Step(s, SendNext), id) == |Published(s, s.mutex.topic)|
  {
    NextListenerAwaits(s);
  }

  lemma OfferedChannelOk(s: State, id: nat)
    requires Enabled(s, SendNext) && id == Listeners(s, s.mutex.topic)[s.mutex.next]
    requires ChanOk(s, id) && s.chans[id].topic == s.mutex.topic
    requires Horizon(s, id) == |Published(s, s.mutex.topic)| - 1
    requires Horizon(Step(s, SendNext), id) == |Published(s, s.mutex.topic)|
    requires Published(s, s.mutex.topic)[|Published(s, s.mutex.topic)| - 1] == s.mutex.event
    ensures ChanOk(Step(s, SendNext), id)
  {
    TrySendKeepsBufferOk(s.chans[id], s.mutex.event);
    ExtendSlice(Published(s, s.mutex.topic), s.chans[id].since);
  }

  lemma SendKeepsReachedChannelOk(s: State)
    requires Inv(s) && Enabled(s, SendNext)
    ensures ChanOk(Step(s, SendNext), Listeners(s, s.mutex.topic)[s.mutex.next])
  {
    var id := Listeners(s, s.mutex.topic)[s.mutex.next];
    SendMovesHorizon(s);
    assert ChanOk(s, id);
    OfferedChannelOk(s, id);
  }

  lemma ExtendSlice(log: seq<Event>, i: nat)
    requires i < |log|
    ensures log[i..|log|] == log[i..|log| - 1] + [log[|log| - 1]]
  {
  }

  lemma SendKeepsOtherChannelOk(s: State, id: nat)
    requires Inv(s) && Enabled(s, SendNext) && id < |s.chans| && id != Listeners(s, s.mutex.topic)[s.mutex.next]
    ensures ChanOk(Step(s, SendNext), id)
  {
    NextListenerAwaits(s);
    assert ChanOk(s, id);
    assert Horizon(Step(s, SendNext), id) == Horizon(s, id);
  }

  lemma SendNextKeepsInv(s: State)
    requires Inv(s) && Enabled(s, SendNext)
    ensures Inv(Step(s, SendNext))
  {
    var s' := Step(s, SendNext);
    NextListenerAwaits(s);
    forall t ensures ListOk(s', t) {
      assert ListOk(s, t);
    }
    forall id | 0 <= id < |s'.chans| ensures ChanOk(s', id) {
      if id == Listeners(s, s.mutex.topic)[s.mutex.next] {
        SendKeepsReachedChannelOk(s);
      } else {
        SendKeepsOtherChannelOk(s, id);
      }
    }
  }

  lemma WithoutProperties(xs: seq<nat>, x: nat)
    requires forall i, j :: 0 <= i < j < |xs| ==> xs[i] != xs[j]
    ensures forall y :: y in Without(xs, x) <==> y in xs && y != x
    ensures forall i, j :: 0 <= i < j < |Without(xs, x)| ==> Without(xs, x)[i] != Without(xs, x)[j]
  {
    var i := FirstIndex(xs, x);
    if i < |xs| {
      assert xs == xs[..i] + [x] + xs[i + 1..];
    } else {
      assert xs[..i] == xs;
    }
  }

  lemma CancelKeepsListOk(s: State, id: nat, t: string)
    requires Inv(s) && Enabled(s, Cancel(id)) && id in Listeners(s, s.chans[id].topic)
    ensures ListOk(DoCancel(s, id), t)
  {
    var s' := DoCancel(s, id);
    assert ListOk(s, t);
    if t == s.chans[id].topic {
      WithoutProperties(Listeners(s, t), id);
      forall i | 0 <= i < |Listeners(s', t)|
        ensures Listeners(s', t)[i] < |s'.chans| && s'.chans[Listeners(s', t)[i]].topic == t
      {
        assert Listeners(s', t)[i] in Listeners(s, t);
      }
    }
  }

  lemma CancelKeepsInv(s: State, id: nat)
    requires Inv(s) && Enabled(s, Cancel(id))
    ensures Inv(DoCancel(s, id))
  {
    var s' := DoCancel(s, id);
    var topic := s.chans[id].topic;
    assert ListOk(s, topic) && ChanOk(s, id);
    if id in Listeners(s, topic) {
      WithoutProperties(Listeners(s, topic), id);
      forall t ensures ListOk(s', t) {
        CancelKeepsListOk(s, id, t);
      }
      forall k | 0 <= k < |s'.chans| ensures ChanOk(s', k) {
        assert ChanOk(s, k);
      }
    }
  }

  lemma EndPublishKeepsInv(s: State)
    requires Inv(s) && Enabled(s, EndPublish)
    ensures Inv(Step(s, EndPublish))
  {
    var s' := Step(s, EndPublish);
    forall t ensures ListOk(s', t) {
      assert ListOk(s, t);
    }
    forall id | 0 <= id < |s'.chans| ensures ChanOk(s', id) {
      assert ChanOk(s, id);
    }
  }

  /** A receive leaves lists, log and mutex alone, so only the channel's own buffer needs a look. */
  lemma ReceiveKeepsChanOk(s: State, r: nat, id: nat)
    requires Inv(s) && Enabled(s, Receive(r)) && id < |s.chans|
    ensures ChanOk(Step(s, Receive(r)), id)
  {
    var s' := Step(s, Receive(r));
    assert ChanOk(s, id);
    assert Awaits(s, id) <==> Awaits(s', id);
    assert Horizon(s', id) == Horizon(s, id);
    if id == r {
      var c := s.chans[id];
      assert c.received + [c.buffer[0]] + c.buffer[1..] == c.received + c.buffer;
    }
  }

  lemma ReceiveKeepsInv(s: State, r: nat)
    requires Inv(s) && Enabled(s, Receive(r))
    ensures Inv(Step(s, Receive(r)))
  {
    var s' := Step(s, Receive(r));
    forall t ensures ListOk(s', t) {
      assert ListOk(s, t);
    }
    forall id | 0 <= id < |s'.chans| ensures ChanOk(s', id) {
      ReceiveKeepsChanOk(s, r, id);
    }
  }

  lemma StepKeepsInv(s: State, a: Action)
    requires Inv(s)
    ensures Inv(Step(s, a))
  {
    if Enabled(s, a) {
      match a {
        case Subscribe(topic) => SubscribeKeepsInv(s, topic);
        case BeginPublish(topic, event) => BeginPublishKeepsInv(s, topic, event);
        case SendNext => SendNextKeepsInv(s);
        case EndPublish => EndPublishKeepsInv(s);
        case Cancel(id) => CancelKeepsInv(s, id);
        case Receive(id) => ReceiveKeepsInv(s, id);
      }
    }
  }

  lemma {:induction false} RunFromInvKeepsInv(s: State, actions: seq<Action>)
    requires Inv(s)
    ensures Inv(Run(s, actions))
  {
    if actions != [] {
      RunFromInvKeepsInv(s, actions[..|actions| - 1]);
      StepKeepsInv(Run(s, actions[..|actions| - 1]), actions[|actions| - 1]);
    }
  }

  lemma RunKeepsInv(actions: seq<Action>)
    ensures Inv(Run(EMPTY, actions))
  {
    RunFromInvKeepsInv(EMPTY, actions);
  }

  // ---- What holds in every run ----

  /** The entries of `xs` stand in `ys` at the increasing positions `at`. */
  predicate Embeds(at: seq<nat>, xs: seq<Event>, ys: seq<Event>) {
    && |at| == |xs|
    && (forall i :: 0 <= i < |at| ==> at[i] < |ys| && ys[at[i]] == xs[i])
    && (forall i, j :: 0 <= i < j < |at| ==> at[i] < at[j])
  }

  /** `xs` can be had from `ys` by leaving events out. */
  ghost predicate IsSubsequence(xs: seq<Event>, ys: seq<Event>) {
    exists at :: Embeds(at, xs, ys)
  }

  function Dropped(offers: seq<Offer>): nat {
    if offers == [] then 0
    else Dropped(offers[..|offers| - 1]) + if IsKept(offers[|offers| - 1]) then 0 else 1
  }

  lemma {:induction false} KeptEventsAreASubsequence(offers: seq<Offer>) returns (at: seq<nat>)
    ensures Embeds(at, KeptEvents(offers), Events(offers))
  {
    if offers == [] {
      at := [];
    } else {
      var init, last := offers[..|offers| - 1], offers[|offers| - 1];
      at := KeptEventsAreASubsequence(init);
      assert offers == init + [last];
      KeptEventsAppend(init, last);
      if IsKept(last) {
        at := at + [|init|];
      }
    }
  }

  lemma {:induction false} KeptAndDropped(offers: seq<Offer>)
    ensures |KeptEvents(offers)| + Dropped(offers) == |offers|
  {
    if offers != [] {
      KeptAndDropped(offers[..|offers| - 1]);
    }
  }

  /** The events of its own topic that concern a subscriber: from its subscription to its cancellation or to now. */
  ghost function Owed(s: State, id: nat): seq<Event>
    requires id < |s.chans| && 0 <= s.chans[id].since <= Horizon(s, id) <= |Published(s, s.chans[id].topic)|
  {
    Published(s, s.chans[id].topic)[s.chans[id].since..Horizon(s, id)]
  }

  /**
   What a subscriber has received followed by what is buffered is an in-order subsequence of the
   events published on its topic while it was subscribed; at most 32 are buffered; and every missing
   event was offered to a buffer that held exactly 32.
   */
  lemma Delivery(actions: seq<Action>, id: nat)
    requires id < |Run(EMPTY, actions).chans|
    ensures var s := Run(EMPTY, actions);
      var c := s.chans[id];
      && |c.buffer| <= 32
      && c.since <= Horizon(s, id) <= |Published(s, c.topic)|
      && IsSubsequence(c.received + c.buffer, Owed(s, id))
      && Events(c.offers) == Owed(s, id)
      && |Owed(s, id)| - |c.received + c.buffer| == Dropped(c.offers)
      && (forall o :: o in c.offers && !IsKept(o) ==> o.unread == 32)
  {
    RunKeepsInv(actions);
    var s := Run(EMPTY, actions);
    assert ChanOk(s, id);
    var at := KeptEventsAreASubsequence(s.chans[id].offers);
    KeptAndDropped(s.chans[id].offers);
  }

  lemma {:induction false} NothingDropped(offers: seq<Offer>)
    ensures Dropped(offers) == 0 <==> forall o :: o in offers ==> IsKept(o)
    ensures Dropped(offers) == 0 ==> KeptEvents(offers) == Events(offers)
  {
    if offers != [] {
      var init, last := offers[..|offers| - 1], offers[|offers| - 1];
      NothingDropped(init);
      KeptEventsAppend(init, last);
      assert init + [last] == offers;
    }
  }

  /** A subscriber gets every event, in order, exactly when no publish ever found its buffer full. */
  lemma CompleteIffNeverFull(actions: seq<Action>, id: nat)
    requires id < |Run(EMPTY, actions).chans|
    ensures var s := Run(EMPTY, actions);
      var c := s.chans[id];
      && c.since <= Horizon(s, id) <= |Published(s, c.topic)|
      && (c.received + c.buffer == Owed(s, id) <==> forall o :: o in c.offers ==> o.unread != 32)
  {
    Delivery(actions, id);
    var c := Run(EMPTY, actions).chans[id];
    NothingDropped(c.offers);
    RunKeepsInv(actions);
    assert ChanOk(Run(EMPTY, actions), id);
  }

  ghost predicate ListedIffOpen(s: State, topic: string, id: nat) {
    id in Listeners(s, topic) <==> id < |s.chans| && s.chans[id].topic == topic && s.chans[id].open
  }

  /** The channel that the next send of a publish reaches. */
  function NextTarget(s: State): nat
    requires Enabled(s, SendNext)
  {
    Listeners(s, s.mutex.topic)[s.mutex.next]
  }

  /**
   No send on a closed channel, no second close: the next send always reaches an open channel, and a cancel
   closes only what is open. The listed channels are distinct and are the open ones.
   */
  lemma NeverCrashes(actions: seq<Action>)
    ensures var s := Run(EMPTY, actions);
      && !s.crashed
      && (Enabled(s, SendNext) ==> s.chans[NextTarget(s)].open)
      && (forall id: nat :: Enabled(s, Cancel(id)) && Step(s, Cancel(id)) != s ==> s.chans[id].open)
      && (forall t, i, j :: 0 <= i < j < |Listeners(s, t)| ==> Listeners(s, t)[i] != Listeners(s, t)[j])
      && (forall t, id :: ListedIffOpen(s, t, id))
  {
    RunKeepsInv(actions);
    var s := Run(EMPTY, actions);
    if Enabled(s, SendNext) {
      NextListenerAwaits(s);
    }
    forall id: nat | Enabled(s, Cancel(id)) && Step(s, Cancel(id)) != s ensures s.chans[id].open {
      assert ChanOk(s, id);
    }
    forall t ensures forall i, j :: 0 <= i < j < |Listeners(s, t)| ==> Listeners(s, t)[i] != Listeners(s, t)[j] {
      assert ListOk(s, t);
    }
    forall t, id: nat ensures ListedIffOpen(s, t, id) {
      assert ListOk(s, t);
      if id < |s.chans| {
        assert ChanOk(s, id);
      }
    }
  }

  /** `after` is `before` with the one entry `x` taken out and the rest in order. */
  ghost predicate LosesOnly(before: seq<nat>, after: seq<nat>, x: nat) {
    && x !in after
    && exists i :: 0 <= i < |before| && before[i] == x && after == before[..i] + before[i + 1..]
  }

  lemma WithoutLosesOnly(xs: seq<nat>, x: nat)
    requires forall i, j :: 0 <= i < j < |xs| ==> xs[i] != xs[j]
    requires x in xs
    ensures LosesOnly(xs, Without(xs, x), x)
  {
  }

  /** Cancelling removes that one subscriber, keeps the others in order, and is complete after one call. */
  lemma CancelRemovesExactlyItself(actions: seq<Action>, id: nat)
    requires Enabled(Run(EMPTY, actions), Cancel(id))
    ensures var s := Run(EMPTY, actions);
      var s' := Step(s, Cancel(id));
      var topic := s.chans[id].topic;
      && (if id in Listeners(s, topic) then LosesOnly(Listeners(s, topic), Listeners(s', topic), id) else s' == s)
      && (forall t :: t != topic ==> Listeners(s', t) == Listeners(s, t))
      && (forall k :: 0 <= k < |s.chans| && k != id ==> s'.chans[k] == s.chans[k])
      && s'.chans[id] == s.chans[id].(open := false, until := s'.chans[id].until)
      && Step(s', Cancel(id)) == s'
  {
    RunKeepsInv(actions);
    var s := Run(EMPTY, actions);
    assert ListOk(s, s.chans[id].topic) && ChanOk(s, id);
    if id in Listeners(s, s.chans[id].topic) {
      WithoutLosesOnly(Listeners(s, s.chans[id].topic), id);
    }
  }

  // ---- A publish nobody interrupts ----

  /** Every channel in `ids` has been offered the event once; the others are untouched. */
  function OfferTo(chans: seq<Chan>, ids: seq<nat>, event: Event): seq<Chan> {
    seq(|chans|, id requires 0 <= id < |chans| => if id in ids then TrySend(chans[id], event) else chans[id])
  }

  /** A publish as one step: the event is logged and offered once to each listener of its topic. */
  function PublishAll(s: State, topic: string, event: Event): State {
    s.(chans := OfferTo(s.chans, Listeners(s, topic), event),
       log := s.log[topic := Published(s, topic) + [event]])
  }

  /** The publish has reached the first `n` listeners. */
  function PublishUpTo(s: State, topic: string, event: Event, n: nat): State
    requires n <= |Listeners(s, topic)|
  {
    s.(chans := OfferTo(s.chans, Listeners(s, topic)[..n], event),
       log := s.log[topic := Published(s, topic) + [event]],
       mutex := Publishing(topic, event, n))
  }

  lemma OfferToOneMore(chans: seq<Chan>, ids: seq<nat>, n: nat, event: Event)
    requires n < |ids| && ids[n] < |chans| && ids[n] !in ids[..n]
    ensures OfferTo(chans, ids[..n + 1], event) == OfferTo(chans, ids[..n], event)[ids[n] := TrySend(chans[ids[n]], event)]
    ensures OfferTo(chans, ids[..n], event)[ids[n]] == chans[ids[n]]
  {
  }

  lemma SendNextExtends(s: State, topic: string, event: Event, n: nat)
    requires ListOk(s, topic) && n < |Listeners(s, topic)|
    requires s.chans[Listeners(s, topic)[n]].open
    ensures Step(PublishUpTo(s, topic, event, n), SendNext) == PublishUpTo(s, topic, event, n + 1)
  {
    var ids := Listeners(s, topic);
    assert ids[n] !in ids[..n];
    OfferToOneMore(s.chans, ids, n, event);
  }

  /** The actions of a publish after it has reached `n` listeners. */
  function PublishActions(topic: string, event: Event, n: nat): seq<Action> {
    [BeginPublish(topic, event)] + seq(n, _ => SendNext)
  }

  lemma {:induction false} SendsReach(s: State, topic: string, event: Event, n: nat)
    requires s.mutex.Free? && ListOk(s, topic) && n <= |Listeners(s, topic)|
    requires forall id :: id in Listeners(s, topic) ==> s.chans[id].open
    ensures Run(s, PublishActions(topic, event, n)) == PublishUpTo(s, topic, event, n)
  {
    var actions := PublishActions(topic, event, n);
    if n == 0 {
      assert actions == [BeginPublish(topic, event)] && actions[..0] == [];
      assert OfferTo(s.chans, [], event) == s.chans;
    } else {
      assert actions[..|actions| - 1] == PublishActions(topic, event, n - 1);
      SendsReach(s, topic, event, n - 1);
      SendNextExtends(s, topic, event, n - 1);
    }
  }

  lemma ListenersAreOpen(s: State, topic: string)
    requires Inv(s)
    ensures ListOk(s, topic)
    ensures forall id :: id in Listeners(s, topic) ==> s.chans[id].open
  {
    assert ListOk(s, topic);
    forall id | id in Listeners(s, topic) ensures s.chans[id].open {
      assert ChanOk(s, id);
    }
  }

  lemma EndsPublish(s: State, topic: string, event: Event)
    requires s.mutex.Free?
    ensures Step(PublishUpTo(s, topic, event, |Listeners(s, topic)|), EndPublish) == PublishAll(s, topic, event)
  {
    assert Listeners(s, topic)[..|Listeners(s, topic)|] == Listeners(s, topic);
  }

  lemma RunAppend(s: State, actions: seq<Action>, a: Action)
    ensures Run(s, actions + [a]) == Step(Run(s, actions), a)
  {
    assert (actions + [a])[..|actions|] == actions;
  }

  /** The step-by-step publish, when no receive comes between, is the one-step publish. */
  lemma PublishAllIsARun(s: State, topic: string, event: Event)
    requires Inv(s) && s.mutex.Free?
    ensures Run(s, PublishActions(topic, event, |Listeners(s, topic)|) + [EndPublish]) == PublishAll(s, topic, event)
  {
    var n := |Listeners(s, topic)|;
    ListenersAreOpen(s, topic);
    SendsReach(s, topic, event, n);
    EndsPublish(s, topic, event);
    RunAppend(s, PublishActions(topic, event, n), EndPublish);
  }

  lemma PublishAllKeepsInv(s: State, topic: string, event: Event)
    requires Inv(s) && s.mutex.Free?
    ensures Inv(PublishAll(s, topic, event))
  {
    PublishAllIsARun(s, topic, event);
    RunFromInvKeepsInv(s, PublishActions(topic, event, |Listeners(s, topic)|) + [EndPublish]);
  }

  // ---- A subscription is served ----

  lemma SubscribeShows(s: State, topic: string)
    requires Inv(s) && s.mutex.Free?
    ensures var s', id := DoSubscribe(s, topic), |s.chans|;
      && Inv(s') && s'.mutex.Free? && |s'.chans| == id + 1 && id in Listeners(s', topic)
      && s'.chans[id] == Chan(topic, true, [], [], [], |Published(s, topic)|, 0)
  {
    SubscribeKeepsInv(s, topic);
    assert Listeners(DoSubscribe(s, topic), topic) == Listeners(s, topic) + [|s.chans|];
  }

  lemma PublishThenReceive(s: State, topic: string, event: Event, id: nat)
    requires id < |s.chans| && id in Listeners(s, topic) && s.chans[id].received == [] && s.chans[id].buffer == []
    ensures var s' := Step(PublishAll(s, topic, event), Receive(id));
      && id < |s'.chans|
      && s'.chans[id] == s.chans[id].(received := [event], offers := s'.chans[id].offers)
  {
    assert TrySend(s.chans[id], event).buffer == [event];
  }

  /** From any reachable state: subscribe, publish, receive. The new channel is open and has got the event, first of all. */
  lemma SubscriberIsServed(actions: seq<Action>, topic: string, event: Event)
    requires Run(EMPTY, actions).mutex.Free?
    ensures var s := Run(EMPTY, actions);
      var id, subscribed := |s.chans|, Step(s, Subscribe(topic));
      var sends := PublishActions(topic, event, |Listeners(subscribed, topic)|) + [EndPublish];
      var served := Step(Run(subscribed, sends), Receive(id));
      && id < |served.chans|
      && served.chans[id].topic == topic && served.chans[id].open && served.chans[id].since == |Published(s, topic)|
      && served.chans[id].received == [event] && served.chans[id].buffer == []
  {
    var s := Run(EMPTY, actions);
    RunKeepsInv(actions);
    SubscribeShows(s, topic);
    PublishAllIsARun(DoSubscribe(s, topic), topic, event);
    PublishThenReceive(DoSubscribe(s, topic), topic, event, |s.chans|);
  }

  lemma StepKeepsOpen(s: State, a: Action, id: nat)
    requires id < |s.chans| && s.chans[id].open && a != Cancel(id)
    ensures var s' := Step(s, a);
      && |s.chans| <= |s'.chans|
      && s'.chans[id].open && s'.chans[id].topic == s.chans[id].topic && s'.chans[id].since == s.chans[id].since
      && s.chans[id].received <= s'.chans[id].received
  {
  }

  /** A channel stays open on its topic, and what it has received stays received, until it is itself cancelled. */
  lemma {:induction false} OpenUntilCancelled(s: State, actions: seq<Action>, id: nat)
    requires id < |s.chans| && s.chans[id].open && Cancel(id) !in actions
    ensures var s' := Run(s, actions);
      && |s.chans| <= |s'.chans|
      && s'.chans[id].open && s'.chans[id].topic == s.chans[id].topic && s'.chans[id].since == s.chans[id].since
      && s.chans[id].received <= s'.chans[id].received
  {
    if actions != [] {
      var init, last := actions[..|actions| - 1], actions[|actions| - 1];
      assert actions == init + [last];
      OpenUntilCancelled(s, init, id);
      StepKeepsOpen(Run(s, init), last, id);
    }
  }

  lemma {:induction false} RunConcat(s: State, first: seq<Action>, rest: seq<Action>)
    ensures Run(s, first + rest) == Run(Run(s, first), rest)
  {
    if rest == [] {
      assert first + rest == first;
    } else {
      assert (first + rest)[..|first + rest| - 1] == first + rest[..|rest| - 1];
      RunConcat(s, first, rest[..|rest| - 1]);
    }
  }

  /**
   Whatever happens after a subscription, short of its own cancellation, once no publish is under way the
   channel has been offered exactly the events published on its topic since then.
   */
  lemma EveryEventIsOffered(before: seq<Action>, topic: string, after: seq<Action>)
    requires Run(EMPTY, before).mutex.Free? && Cancel(|Run(EMPTY, before).chans|) !in after
    requires Run(EMPTY, before + [Subscribe(topic)] + after).mutex.Free?
    ensures var s, s' := Run(EMPTY, before), Run(EMPTY, before + [Subscribe(topic)] + after);
      var id := |s.chans|;
      && id < |s'.chans| && s'.chans[id].open && |Published(s, topic)| <= |Published(s', topic)|
      && Events(s'.chans[id].offers) == Published(s', topic)[|Published(s, topic)|..]
  {
    var s, s' := Run(EMPTY, before), Run(EMPTY, before + [Subscribe(topic)] + after);
    RunAppend(EMPTY, before, Subscribe(topic));
    RunConcat(EMPTY, before + [Subscribe(topic)], after);
    OpenUntilCancelled(Step(s, Subscribe(topic)), after, |s.chans|);
    RunKeepsInv(before + [Subscribe(topic)] + after);
    assert ChanOk(s', |s.chans|);
  }

  /** In any interleaving a publish leaves the lists, logs and channels of other topics unchanged. */
  lemma PublishTouchesOneTopic(s: State, a: Action, topic: string)
    requires Inv(s) && Enabled(s, a)
    requires a.BeginPublish? || a.SendNext? || a.EndPublish?
    requires topic == if a.BeginPublish? then a.topic else s.mutex.topic
    ensures var s' := Step(s, a);
      && s'.subs == s.subs
      && |s'.chans| == |s.chans|
      && (forall t :: t != topic ==> Published(s', t) == Published(s, t))
      && (forall id :: 0 <= id < |s.chans| && s.chans[id].topic != topic ==> s'.chans[id] == s.chans[id])
  {
    if a.SendNext? {
      assert ListOk(s, topic);
    }
  }
}

/**
 The in-memory broadcaster: a map from topic to the channels subscribed to it. Every method
 runs under the mutex and is proved to be one (or, for a publish, one uninterrupted sequence)
 of the hub machine's steps, so everything proved there about runs holds here.
 */
module Broadcast {
  import H = Hub

  datatype Receipt = Received(event: H.Event) | Closed | WouldBlock

  /** A buffered Go channel of capacity 32. */
  class Channel {
    const topic: string
    var open: bool
    var buffer: seq<H.Event>
    ghost const id: nat
    ghost const since: nat
    ghost var until: nat
    ghost var received: seq<H.Event>
    ghost var offers: seq<H.Offer>

    ghost function Snapshot(): H.Chan
      reads this
    {
      H.Chan(topic, open, buffer, received, offers, since, until)
    }

    constructor (topic: string, ghost id: nat, ghost since: nat)
      ensures this.topic == topic && this.id == id
      ensures Snapshot() == H.Chan(topic, true, [], [], [], since, 0)
    {
      this.topic := topic;
      this.open := true;
      this.buffer := [];
      this.id := id;
      this.since := since;
      this.until := 0;
      this.received := [];
      this.offers := [];
    }

    /** A send that drops the event when the buffer is full; sending on a closed channel would panic. */
    method TrySend(event: H.Event)
      requires open
      modifies this
      ensures Snapshot() == H.TrySend(old(Snapshot()), event)
    {
      offers := offers + [H.Offer(event, |buffer|)];
      if |buffer| < H.CAPACITY {
        buffer := buffer + [event];
      }
    }

    /** Closing twice would panic. What is buffered can still be received. */
    method Close(ghost at: nat)
      requires open
      modifies this
      ensures Snapshot() == old(Snapshot()).(open := false, until := at)
    {
      open := false;
      until := at;
    }

    method Receive() returns (r: Receipt)
      modifies this
      ensures old(buffer) != [] ==>
        && r == Received(old(buffer)[0])
        && Snapshot() == old(Snapshot()).(buffer := old(buffer)[1..], received := old(received) + [old(buffer)[0]])
      ensures old(buffer) == [] ==>
        && r == (if open then WouldBlock else Closed)
        && Snapshot() == old(Snapshot())
    {
      if buffer != [] {
        r := Received(buffer[0]);
        received := received + [buffer[0]];
        buffer := buffer[1..];
      } else if open {
        r := WouldBlock;
      } else {
        r := Closed;
      }
    }
  }

  /** A Go slice of channels: the first `count` elements of a backing array that it may share with nobody else. */
  datatype Slice = Slice(items: array<Channel>, count: nat)

  predicate Fits(s: Slice) {
    s.count <= s.items.Length
  }

  ghost function View(s: Slice): seq<Channel>
    requires Fits(s)
    reads s.items
  {
    s.items[..s.count]
  }

  /** Appends in place while there is room, and otherwise moves to a larger array. */
  method Append(s: Slice, c: Channel) returns (r: Slice)
    requires Fits(s)
    modifies s.items
    ensures Fits(r) && (r.items == s.items || fresh(r.items))
    ensures View(r) == old(View(s)) + [c]
  {
    if s.count < s.items.Length {
      s.items[s.count] := c;
      r := Slice(s.items, s.count + 1);
      assert s.items[..s.count] == old(View(s));
    } else {
      var items := new Channel[2 * s.count + 1](_ => c);
      for k := 0 to s.count
        invariant View(s) == old(View(s)) && items[..k] == s.items[..k]
        invariant forall j :: k <= j < items.Length ==> items[j] == c
      {
        items[k] := s.items[k];
      }
      r := Slice(items, s.count + 1);
      assert items[..s.count] == old(View(s)) && items[s.count] == c;
    }
  }

  /** Takes element `i` out by moving the later ones down one place inside the same array. */
  method RemoveAt(s: Slice, i: nat) returns (r: Slice)
    requires Fits(s) && i < s.count
    modifies s.items
    ensures r == Slice(s.items, s.count - 1)
    ensures View(r) == old(View(s))[..i] + old(View(s))[i + 1..]
  {
    for k := i to s.count - 1
      invariant forall j :: 0 <= j < i ==> s.items[j] == old(s.items[j])
      invariant forall j :: i <= j < k ==> s.items[j] == old(s.items[j + 1])
      invariant forall j :: k <= j < s.items.Length ==> s.items[j] == old(s.items[j])
    {
      s.items[k] := s.items[k + 1];
    }
    r := Slice(s.items, s.count - 1);
  }

  // ---- The lists as values ----

  ghost function Ids(channels: seq<Channel>): seq<nat> {
    seq(|channels|, i requires 0 <= i < |channels| => channels[i].id)
  }

  ghost function IdLists(lists: map<string, seq<Channel>>): map<string, seq<nat>> {
    map t | t in lists :: Ids(lists[t])
  }

  ghost function ListOf(lists: map<string, seq<Channel>>, topic: string): seq<Channel> {
    if topic in lists then lists[topic] else []
  }

  ghost predicate Registers(registry: seq<Channel>, c: Channel) {
    c.id < |registry| && registry[c.id] == c
  }

  /** Channels know their position in the registry, and only registered channels are listed. */
  ghost predicate Links(registry: seq<Channel>, lists: map<string, seq<Channel>>) {
    && (forall i :: 0 <= i < |registry| ==> registry[i].id == i)
    && (forall t, i :: t in lists && 0 <= i < |lists[t]| ==> Registers(registry, lists[t][i]))
  }

  lemma LinksAppend(registry: seq<Channel>, lists: map<string, seq<Channel>>, topic: string, c: Channel)
    requires Links(registry, lists) && Registers(registry, c)
    ensures var listed := ListOf(lists, topic);
      && Links(registry, lists[topic := listed + [c]])
      && IdLists(lists[topic := listed + [c]]) == IdLists(lists)[topic := Ids(listed) + [c.id]]
  {
    var listed := ListOf(lists, topic);
    assert Ids(listed + [c]) == Ids(listed) + [c.id];
  }

  lemma LinksDrop(registry: seq<Channel>, lists: map<string, seq<Channel>>, topic: string, i: nat)
    requires Links(registry, lists) && topic in lists && i < |lists[topic]|
    ensures var listed := lists[topic];
      var rest := listed[..i] + listed[i + 1..];
      && Links(registry, lists[topic := rest])
      && IdLists(lists[topic := rest]) == IdLists(lists)[topic := Ids(listed)[..i] + Ids(listed)[i + 1..]]
  {
    var listed := lists[topic];
    var rest := listed[..i] + listed[i + 1..];
    assert forall k :: 0 <= k < |rest| ==> Registers(registry, rest[k]);
    assert Ids(rest) == Ids(listed)[..i] + Ids(listed)[i + 1..];
  }

  class MemoryBroadcaster {
    var subs: map<string, Slice>
    ghost var lists: map<string, seq<Channel>>
    ghost var owner: map<array<Channel>, string>
    ghost var registry: seq<Channel>
    ghost var log: map<string, seq<H.Event>>

    ghost function Snapshots(channels: seq<Channel>): seq<H.Chan>
      reads channels
    {
      seq(|channels|, i requires 0 <= i < |channels| reads channels => channels[i].Snapshot())
    }

    /** The hub machine's state this object stands for, between two methods. */
    ghost function Model(): H.State
      reads this, registry
    {
      H.State(
        Snapshots(registry),
        IdLists(lists),
        log,
        H.Free,
        false)
    }

    ghost predicate Registered(c: Channel)
      reads this
    {
      Registers(registry, c)
    }

    ghost predicate Linked()
      reads this
    {
      Links(registry, lists)
    }

    ghost predicate Holds(t: string)
      reads this, owner.Keys
    {
      t in subs && t in lists && subs[t].items in owner && owner[subs[t].items] == t && Fits(subs[t]) && View(subs[t]) == lists[t]
    }

    /** Each topic has an array of its own, which holds its list. */
    ghost predicate Stored()
      reads this, owner.Keys
    {
      subs.Keys == lists.Keys && forall t :: t in subs ==> Holds(t)
    }

    ghost predicate Valid()
      reads this, registry, owner.Keys
    {
      Stored() && Linked() && H.Inv(Model())
    }

    constructor ()
      ensures Valid() && registry == [] && owner == map[]
      ensures Model() == H.EMPTY
    {
      subs := map[];
      lists := map[];
      owner := map[];
      registry := [];
      log := map[];
      new;
      H.RunKeepsInv([]);
      assert Model() == H.EMPTY;
    }

    // ---- The critical sections ----

    /** The topic's slice with one more subscriber; the arrays of other topics are untouched. */
    method Grow(topic: string, c: Channel) returns (slice: Slice)
      requires Stored()
      modifies owner.Keys
      ensures Fits(slice) && View(slice) == ListOf(lists, topic) + [c]
      ensures fresh(slice.items) || (topic in subs && slice.items == subs[topic].items)
      ensures forall t :: t in subs && t != topic ==> Holds(t)
    {
      if topic in subs {
        assert Holds(topic);
        slice := Append(subs[topic], c);
        forall t | t in subs && t != topic ensures Holds(t) {
          assert old(Holds(t)) && View(subs[t]) == old(View(subs[t]));
        }
      } else {
        var items := new Channel[1](_ => c);
        slice := Slice(items, 1);
      }
    }

    method Store(topic: string, c: Channel)
      requires Stored()
      modifies this`subs, this`lists, this`owner, owner.Keys
      ensures Stored() && fresh(owner.Keys - old(owner.Keys))
      ensures lists == old(lists)[topic := ListOf(old(lists), topic) + [c]]
    {
      var slice := Grow(topic, c);
      ghost var before := subs;
      lists := lists[topic := ListOf(lists, topic) + [c]];
      subs := subs[topic := slice];
      owner := owner[slice.items := topic];
      forall t | t in subs ensures Holds(t) {
        assert t != topic ==> subs[t] == before[t] && View(subs[t]) == lists[t];
      }
    }

    method Register(topic: string) returns (c: Channel)
      requires Stored() && Linked()
      modifies this`registry
      ensures Stored() && Linked()
      ensures fresh(c) && c.topic == topic && registry == old(registry) + [c] && c.id == |old(registry)|
      ensures c.open && c.buffer == []
      ensures Snapshots(registry)
           == old(Snapshots(registry)) + [H.Chan(topic, true, [], [], [], |H.Published(old(Model()), topic)|, 0)]
    {
      c := new Channel(topic, |registry|, |H.Published(Model(), topic)|);
      registry := registry + [c];
    }

    method Enlist(topic: string, c: Channel)
      requires Stored() && Linked() && Registered(c)
      modifies this`subs, this`lists, this`owner, owner.Keys
      ensures Stored() && fresh(owner.Keys - old(owner.Keys))
      ensures Linked()
      ensures IdLists(lists) == old(IdLists(lists))[topic := Ids(ListOf(old(lists), topic)) + [c.id]]
      ensures c in ListOf(lists, topic)
      ensures Snapshots(registry) == old(Snapshots(registry))
    {
      LinksAppend(registry, lists, topic, c);
      Store(topic, c);
    }

    method AppendSubscriber(topic: string) returns (c: Channel)
      requires Stored() && Linked()
      modifies this, owner.Keys
      ensures Stored() && fresh(owner.Keys - old(owner.Keys))
      ensures Linked() && fresh(c) && Registered(c) && c.topic == topic && registry == old(registry) + [c]
      ensures c.open && c.buffer == [] && c in ListOf(lists, topic)
      ensures Model() == H.DoSubscribe(old(Model()), topic)
    {
      ghost var before := Model();
      assert H.Listeners(before, topic) == Ids(ListOf(lists, topic));
      c := Register(topic);
      assert Snapshots(registry) == H.DoSubscribe(before, topic).chans;
      Enlist(topic, c);
      assert IdLists(lists) == H.DoSubscribe(before, topic).subs;
    }

    method SendTo(c: Channel, event: H.Event)
      requires Linked() && Registered(c) && c.open
      modifies c
      ensures Snapshots(registry) == old(Snapshots(registry))[c.id := H.TrySend(old(c.Snapshot()), event)]
    {
      c.TrySend(event);
    }

    method SendToAll(topic: string, event: H.Event)
      requires Stored() && Linked() && H.ListOk(Model(), topic)
      requires forall id :: id in H.Listeners(Model(), topic) ==> Model().chans[id].open
      modifies registry
      ensures Snapshots(registry) == H.OfferTo(old(Snapshots(registry)), H.Listeners(old(Model()), topic), event)
    {
      ghost var chans, ids := Snapshots(registry), H.Listeners(Model(), topic);
      if topic !in subs {
        assert H.OfferTo(chans, ids, event) == chans;
        return;
      }
      var slice := subs[topic];
      assert ids == Ids(lists[topic]) && View(slice) == lists[topic];
      for i := 0 to slice.count
        invariant View(slice) == lists[topic]
        invariant Snapshots(registry) == H.OfferTo(chans, ids[..i], event)
      {
        H.OfferToOneMore(chans, ids, i, event);
        assert slice.items[i] == lists[topic][i] && Registered(lists[topic][i]);
        assert ids[i] == slice.items[i].id && Snapshots(registry)[ids[i]].open;
        SendTo(slice.items[i], event);
      }
      assert ids[..slice.count] == ids;
    }

    method Find(s: Slice, c: Channel) returns (i: nat)
      requires Fits(s)
      ensures i <= s.count
      ensures i < s.count ==> View(s)[i] == c
      ensures forall k :: 0 <= k < i ==> View(s)[k] != c
    {
      i := 0;
      while i < s.count && s.items[i] != c
        invariant 0 <= i <= s.count
        invariant forall k :: 0 <= k < i ==> View(s)[k] != c
      {
        i := i + 1;
      }
    }

    /** The in-place removal: the entries after position `i` move down by one in the topic's array. */
    method Unstore(topic: string, i: nat)
      requires Stored() && topic in subs && i < subs[topic].count
      modifies this`subs, this`lists, subs[topic].items
      ensures Stored()
      ensures lists == old(lists)[topic := old(lists[topic])[..i] + old(lists[topic])[i + 1..]]
    {
      var shorter := RemoveAt(subs[topic], i);
      forall t | t in subs && t != topic ensures Holds(t) {
        assert old(Holds(t)) && View(subs[t]) == old(View(subs[t]));
      }
      lists := lists[topic := lists[topic][..i] + lists[topic][i + 1..]];
      subs := subs[topic := shorter];
    }

    method DropAt(topic: string, i: nat)
      requires Stored() && Linked() && topic in subs && i < subs[topic].count
      modifies this`subs, this`lists, owner.Keys
      ensures Stored() && Linked()
      ensures IdLists(lists)
           == old(IdLists(lists))[topic := Ids(old(lists[topic]))[..i] + Ids(old(lists[topic]))[i + 1..]]
      ensures Snapshots(registry) == old(Snapshots(registry))
    {
      LinksDrop(registry, lists, topic, i);
      Unstore(topic, i);
    }

    method CloseChannel(c: Channel, ghost at: nat)
      requires Stored() && Linked() && Registered(c) && c.open
      modifies c
      ensures Stored() && Linked()
      ensures Snapshots(registry) == old(Snapshots(registry))[c.id := old(c.Snapshot()).(open := false, until := at)]
    {
      c.Close(at);
    }

    /** Takes the channel out of its topic's list, if it is there. */
    method Detach(c: Channel) returns (found: bool)
      requires Stored() && Linked() && Registered(c)
      modifies this`subs, this`lists, owner.Keys
      ensures Stored() && Linked()
      ensures var ids := H.Listeners(old(Model()), c.topic);
        && found == (c.id in ids)
        && IdLists(lists) == if found then old(IdLists(lists))[c.topic := H.Without(ids, c.id)] else old(IdLists(lists))
      ensures Snapshots(registry) == old(Snapshots(registry))
    {
      ghost var ids := H.Listeners(Model(), c.topic);
      if c.topic !in subs {
        return false;
      }
      assert ids == Ids(lists[c.topic]) && View(subs[c.topic]) == lists[c.topic];
      var i := Find(subs[c.topic], c);
      found := i < subs[c.topic].count;
      if found {
        assert ids[i] == c.id;
        forall k | 0 <= k < i ensures ids[k] != c.id {
          assert Registered(lists[c.topic][k]) && View(subs[c.topic])[k] != c;
        }
        H.FirstIndexIs(ids, c.id, i);
        DropAt(c.topic, i);
      } else {
        forall k | 0 <= k < |ids| ensures ids[k] != c.id {
          assert Registered(lists[c.topic][k]) && View(subs[c.topic])[k] != c;
        }
      }
    }

    method RemoveSubscriber(c: Channel)
      requires Stored() && Linked() && Registered(c)
      requires c.id in H.Listeners(Model(), c.topic) ==> c.open
      modifies this`subs, this`lists, owner.Keys, c
      ensures Stored() && Linked()
      ensures Model() == H.DoCancel(old(Model()), c.id)
    {
      ghost var before := Model();
      var found := Detach(c);
      assert IdLists(lists) == H.DoCancel(before, c.id).subs;
      if found {
        CloseChannel(c, |H.Published(before, c.topic)|);
        assert Snapshots(registry) == H.DoCancel(before, c.id).chans;
      }
    }

    // ---- The operations ----

    method Subscribe(topic: string) returns (c: Channel)
      requires Valid()
      modifies this, owner.Keys
      ensures fresh(owner.Keys - old(owner.Keys))
      ensures Valid() && fresh(c) && Registered(c) && c.topic == topic && registry == old(registry) + [c]
      ensures c.open && c.buffer == [] && c in ListOf(lists, topic)
      ensures Model() == H.DoSubscribe(old(Model()), topic)
    {
      H.SubscribeKeepsInv(Model(), topic);
      c := AppendSubscriber(topic);
    }

    method Publish(topic: string, event: H.Event)
      requires Valid()
      modifies this`log, registry
      ensures Valid() && registry == old(registry)
      ensures Model() == H.PublishAll(old(Model()), topic, event)
    {
      ghost var before := Model();
      H.PublishAllKeepsInv(before, topic, event);
      H.ListenersAreOpen(before, topic);
      SendToAll(topic, event);
      log := log[topic := H.Published(before, topic) + [event]];
      assert Model() == H.PublishAll(before, topic, event);
    }

    /** What the cancel function returned by Subscribe does; calling it again finds nothing to remove. */
    method Cancel(c: Channel)
      requires Valid() && Registered(c)
      modifies this`subs, this`lists, owner.Keys, c
      ensures Valid()
      ensures Model() == H.DoCancel(old(Model()), c.id)
    {
      H.CancelKeepsInv(Model(), c.id);
      assert H.ChanOk(Model(), c.id);
      RemoveSubscriber(c);
    }

    /** A receiver takes from its channel without the mutex; the broadcaster's state stays valid. */
    method Receive(c: Channel) returns (r: Receipt)
      requires Valid() && Registered(c)
      modifies c
      ensures Valid()
      ensures Model() == H.Step(old(Model()), H.Receive(c.id))
      ensures r == if old(c.buffer) != [] then Received(old(c.buffer)[0]) else if old(c.open) then WouldBlock else Closed
    {
      ghost var before := Model();
      H.StepKeepsInv(before, H.Receive(c.id));
      r := c.Receive();
      assert Model().chans == H.Step(before, H.Receive(c.id)).chans;
    }
  }
}

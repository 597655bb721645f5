/** The bounded broadcast hub (internal/events/events.go). */
module EventHub {
  import opened Text

  const SUBSCRIBER_BUFFER: nat := 64

  datatype Event = Event(kind: string, mailboxID: Option<int>)

  // A buffered channel. Sending to or closing a closed one would panic, hence the preconditions.
  class Channel {
    const id: nat
    const capacity: nat
    var buffer: seq<Event>
    var closed: bool
    // The length of the broadcast log when the channel was made and when it was closed, and what its reader has taken.
    ghost const joined: nat
    ghost var left: nat
    ghost var taken: seq<Event>

    constructor (id: nat, capacity: nat, ghost joined: nat)
      ensures this.id == id && this.capacity == capacity && this.joined == joined == left
      ensures buffer == [] && taken == [] && !closed
    {
      this.id, this.capacity, this.joined, left := id, capacity, joined, joined;
      buffer, taken, closed := [], [], false;
    }

    // What was read and what waits is one gap-free piece of the log, up to now or to the closing.
    ghost predicate GapFree(log: seq<Event>)
      reads this
    {
      var end := if closed then left else |log|;
      joined <= end <= |log| && taken + buffer == log[joined..end] && |buffer| <= capacity <= SUBSCRIBER_BUFFER
    }

    method TrySend(event: Event) returns (sent: bool)
      requires !closed
      modifies this`buffer
      ensures sent == (|old(buffer)| < capacity)
      ensures buffer == if sent then old(buffer) + [event] else old(buffer)
    {
      sent := |buffer| < capacity;
      if sent {
        buffer := buffer + [event];
      }
    }

    method Shut(ghost now: nat)
      requires !closed
      modifies this`closed, this`left
      ensures closed && left == now
    {
      closed, left := true, now;
    }

    // A receive: the oldest event, or the end of a closed channel, or nothing yet.
    method Receive() returns (event: Option<Event>, ended: bool)
      modifies this`buffer, this`taken
      ensures event == if old(buffer) == [] then None else Some(old(buffer)[0])
      ensures ended == (closed && old(buffer) == [])
      ensures taken == if event.Some? then old(taken) + [event.value] else old(taken)
      ensures buffer == if event.Some? then old(buffer)[1..] else []
      ensures taken + buffer == old(taken + buffer)
    {
      ended := closed && buffer == [];
      if buffer == [] {
        event := None;
      } else {
        event := Some(buffer[0]);
        taken, buffer := taken + [buffer[0]], buffer[1..];
      }
    }
  }

  class Hub {
    var nextID: nat
    var subscribers: map<nat, Channel>
    var closed: bool
    // Every event broadcast so far, and every channel ever handed out.
    ghost var log: seq<Event>
    ghost var channels: set<Channel>

    constructor ()
      ensures Valid() && log == [] && channels == {} && !closed
    {
      nextID, subscribers, closed, log, channels := 0, map[], false, [], {};
    }

    // Exactly the open channels are subscribed, each under its own id.
    ghost predicate Registered()
      reads this`nextID, this`subscribers, this`channels, channels
    {
      && (forall id <- subscribers ::
            id < nextID && subscribers[id] in channels && subscribers[id].id == id && !subscribers[id].closed)
      && (forall c <- channels | !c.closed :: Subscribed(c))
    }

    ghost predicate Valid()
      reads this, channels
    {
      Registered() && (closed ==> subscribers == map[]) && forall c <- channels :: c.GapFree(log)
    }

    // A closed hub hands out a channel that is already at its end.
    method Subscribe() returns (channel: Channel)
      requires Valid()
      modifies this`nextID, this`subscribers, this`channels
      ensures Valid() && fresh(channel) && channels == old(channels) + {channel}
      ensures channel.joined == |log| && channel.taken == [] && channel.buffer == [] && channel.closed == closed
      ensures subscribers == if closed then old(subscribers) else old(subscribers)[channel.id := channel]
      ensures !closed ==> channel.id == old(nextID) && channel.capacity == SUBSCRIBER_BUFFER
    {
      if closed {
        channel := new Channel(nextID, 0, |log|);
        channel.Shut(|log|);
      } else {
        channel := new Channel(nextID, SUBSCRIBER_BUFFER, |log|);
        nextID := nextID + 1;
        subscribers := subscribers[channel.id := channel];
      }
      channels := channels + {channel};
    }

    // Closes the channel unless that already happened; a repeated call changes nothing.
    method Unsubscribe(channel: Channel)
      requires Valid() && channel in channels
      modifies this`subscribers, channel`closed, channel`left
      ensures Valid() && channel.closed
      ensures channel.left == if old(channel.closed) then old(channel.left) else |log|
      ensures subscribers == if old(channel.closed) then old(subscribers) else old(subscribers) - {channel.id}
    {
      if channel.id in subscribers && subscribers[channel.id] == channel {
        Detach(channel);
      }
    }

    twostate predicate Untouched(c: Channel)
      reads c
    {
      c.closed == old(c.closed) && c.left == old(c.left) && c.buffer == old(c.buffer) && c.taken == old(c.taken)
    }

    twostate predicate Detached(c: Channel)
      reads this, c
    {
      c.closed && c.left == |log| && c.buffer == old(c.buffer) && c.taken == old(c.taken)
    }

    twostate predicate Offered(c: Channel, event: Event)
      reads this, c
    {
      if |old(c.buffer)| < c.capacity then !c.closed && c.buffer == old(c.buffer) + [event] && c.taken == old(c.taken)
      else Detached(c)
    }

    ghost predicate Subscribed(channel: Channel)
      reads this`subscribers
    {
      channel.id in subscribers && subscribers[channel.id] == channel
    }

    method Detach(channel: Channel)
      requires Registered() && Subscribed(channel)
      modifies this`subscribers, channel`closed, channel`left
      ensures Registered() && subscribers == old(subscribers) - {channel.id}
      ensures Detached(channel)
    {
      subscribers := subscribers - {channel.id};
      channel.Shut(|log|);
    }

    method Offer(channel: Channel, event: Event)
      requires Registered() && Subscribed(channel)
      modifies this`subscribers, channel
      ensures Registered() && Offered(channel, event)
      ensures old(subscribers).Keys - {channel.id} <= subscribers.Keys
    {
      var sent := channel.TrySend(event);
      if !sent {
        Detach(channel);
      }
    }

    method Deliver(event: Event)
      requires Registered()
      modifies this`subscribers, channels
      ensures Registered()
      ensures forall c <- channels :: if old(c.closed) then Untouched(c) else Offered(c, event)
    {
      ghost var all := channels;
      var todo := subscribers.Keys;
      while todo != {}
        invariant todo <= subscribers.Keys && Registered()
        invariant forall c <- all :: if old(c.closed) || c.id in todo then Untouched(c) else Offered(c, event)
        decreases |todo|
      {
        var id :| id in todo;
        todo := todo - {id};
        Offer(subscribers[id], event);
      }
    }

    // Every subscriber with room gets the event; one without is detached, and keeps what it has.
    method Broadcast(event: Event)
      requires Valid()
      modifies this`subscribers, this`log, channels
      ensures Valid()
      ensures log == if closed then old(log) else old(log) + [event]
      ensures forall c <- channels ::
        if old(c.closed) then c.closed && c.left == old(c.left) && c.buffer == old(c.buffer) && c.taken == old(c.taken)
        else if |old(c.buffer)| < c.capacity
          then !c.closed && c.buffer == old(c.buffer) + [event] && c.taken == old(c.taken)
        else c.closed && c.left == |old(log)| && c.buffer == old(c.buffer) && c.taken == old(c.taken)
    {
      if closed {
        return;
      }
      Deliver(event);
      log := log + [event];
      assert Registered();
      forall c | c in channels ensures c.GapFree(log) {
        assert old(c.GapFree(log));
        SlicesGrow(old(log), event, c.joined, if c.closed then c.left else |old(log)|);
        hide Registered;
      }
    }

    // A subscriber's receive leaves the hub as it was.
    method Receive(channel: Channel) returns (event: Option<Event>, ended: bool)
      requires Valid() && channel in channels
      modifies channel`buffer, channel`taken
      ensures Valid()
      ensures event == if old(channel.buffer) == [] then None else Some(old(channel.buffer)[0])
      ensures ended == (channel.closed && old(channel.buffer) == [])
      ensures event.Some? ==> channel.taken == old(channel.taken) + [event.value]
    {
      event, ended := channel.Receive();
    }

    method Close()
      requires Valid()
      modifies this`subscribers, this`closed, channels
      ensures Valid() && closed
      ensures forall c <- channels :: c.closed && c.buffer == old(c.buffer) && c.taken == old(c.taken)
      ensures forall c <- channels :: c.left == if old(c.closed) then old(c.left) else |log|
    {
      if closed {
        return;
      }
      closed := true;
      DetachAll();
      forall c | c in channels ensures c.closed && c.GapFree(log) {
        assert old(c.GapFree(log));
      }
    }

    method DetachAll()
      requires Registered()
      modifies this`subscribers, channels
      ensures Registered() && subscribers == map[]
      ensures forall c <- channels :: if old(c.closed) then Untouched(c) else Detached(c)
    {
      ghost var all := channels;
      while subscribers.Keys != {}
        invariant Registered()
        invariant forall c <- all :: if old(c.closed) || c.id in subscribers then Untouched(c) else Detached(c)
        decreases |subscribers.Keys|
      {
        var id :| id in subscribers.Keys;
        Detach(subscribers[id]);
      }
      assert subscribers == map[];
    }
  }

  lemma {:induction false} SlicesGrow(log: seq<Event>, event: Event, from: nat, end: nat)
    requires from <= end <= |log|
    ensures (log + [event])[from..end] == log[from..end]
    ensures (log + [event])[from..|log| + 1] == log[from..] + [event]
  {
  }

  // Any use of a hub by its subscribers, who name channels in the order they got them.
  datatype Step = Subscribe | Unsubscribe(which: nat) | Broadcast(event: Event) | Receive(which: nat) | Close

  // What a run broadcasts: nothing is sent once the hub is closed.
  function Broadcasts(steps: seq<Step>): seq<Event> {
    if steps == [] then []
    else
      var before := steps[..|steps| - 1];
      if Last(steps).Broadcast? && Close !in before then Broadcasts(before) + [Last(steps).event]
      else Broadcasts(before)
  }

  lemma {:induction false} BroadcastsStep(steps: seq<Step>, i: nat)
    requires i < |steps|
    ensures Close in steps[..i + 1] <==> Close in steps[..i] || steps[i] == Close
    ensures Broadcasts(steps[..i + 1]) == Broadcasts(steps[..i]) +
      if steps[i].Broadcast? && Close !in steps[..i] then [steps[i].event] else []
  {
    assert steps[..i + 1][..i] == steps[..i] && steps[..i + 1] == steps[..i] + [steps[i]];
  }

  method Take(hub: Hub, channels: seq<Channel>, step: Step) returns (after: seq<Channel>)
    requires hub.Valid() && hub.channels == set c <- channels
    modifies hub, hub.channels
    ensures hub.Valid() && hub.channels == (set c <- after) && fresh(hub.channels - old(hub.channels))
    ensures hub.log == old(hub.log) + if step.Broadcast? && !old(hub.closed) then [step.event] else []
    ensures hub.closed == (old(hub.closed) || step == Close)
  {
    hide Hub.Valid;
    after := channels;
    match step {
      case Subscribe =>
        var channel := hub.Subscribe();
        after := channels + [channel];
      case Unsubscribe(which) =>
        if which < |channels| {
          assert channels[which] in hub.channels;
          hub.Unsubscribe(channels[which]);
        }
      case Broadcast(event) => hub.Broadcast(event);
      case Receive(which) =>
        if which < |channels| {
          assert channels[which] in hub.channels;
          var event, ended := hub.Receive(channels[which]);
        }
      case Close => hub.Close();
    }
  }

  // In every reachable state each subscriber has a gap-free piece of the log.
  method Run(steps: seq<Step>) returns (hub: Hub, channels: seq<Channel>)
    ensures hub.Valid() && fresh(hub) && hub.channels == set c <- channels
    ensures forall c <- channels :: c.GapFree(hub.log)
    ensures hub.log == Broadcasts(steps) && hub.closed == (Close in steps)
    ensures Close in steps ==> forall c <- channels :: c.closed
  {
    hub := new Hub();
    channels := [];
    for i := 0 to |steps|
      invariant hub.Valid() && fresh(hub) && fresh(hub.channels) && hub.channels == set c <- channels
      invariant hub.log == Broadcasts(steps[..i]) && hub.closed == (Close in steps[..i])
    {
      hide *;
      BroadcastsStep(steps, i);
      channels := Take(hub, channels, steps[i]);
    }
    assert steps[..|steps|] == steps;
    hide Broadcasts;
  }
}

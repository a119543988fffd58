// The client as it runs: one-slot response channels, the pending table and the bounded event stream, updated in
// place one critical section at a time (internal/privilege/client/client.go).
module Client {
  import opened Wrappers
  import opened SessionSpec
  import opened ClientSpec

  // A response channel with room for one; nobody may put into a full one, so nobody ever waits to.
  class Channel {
    var slot: Option<Response>

    constructor ()
      ensures slot.None?
    {
      slot := None;
    }

    method Put(response: Response)
      requires slot.None?
      modifies this
      ensures slot == Some(response)
    {
      slot := Some(response);
    }
  }

  method AnswerAll(channels: map<RequestId, Channel>)
    requires forall id :: id in channels ==> channels[id].slot.None?
    requires forall a, b :: a in channels && b in channels && channels[a] == channels[b] ==> a == b
    modifies channels.Values
    ensures forall id :: id in channels ==> channels[id].slot == Some(Broken)
  {
    var waiting := channels;
    while waiting != map[]
      invariant forall id :: id in waiting ==> id in channels && waiting[id] == channels[id]
      invariant forall id :: id in channels ==>
        channels[id].slot == if id in waiting then None else Some(Broken)
      decreases |waiting|
    {
      var id :| id in waiting;
      waiting[id].Put(Broken);
      waiting := waiting - {id};
    }
  }

  class Connection {
    var pending: map<RequestId, Channel>
    var closed: bool
    var dead: bool
    var lastRollback: Evidence
    var transaction: Option<nat>
    var queue: seq<Event>
    var ended: bool
    ghost var channels: map<RequestId, Channel>
    ghost var taken: seq<Event>

    // Every request has a channel of its own; those still pending are empty.
    ghost predicate Valid()
      reads this, channels.Values
    {
      && pending.Keys <= channels.Keys
      && (forall id :: id in pending ==> pending[id] == channels[id] && pending[id].slot.None?)
      && (forall a, b :: a in channels && b in channels && channels[a] == channels[b] ==> a == b)
    }

    ghost function Inbox(): map<RequestId, Response>
      reads this, channels.Values
    {
      map id | id in channels && channels[id].slot.Some? :: channels[id].slot.value
    }

    ghost function View(): ClientSpec.Client
      reads this, channels.Values
    {
      ClientSpec.Client(pending.Keys, Inbox(), closed, dead, lastRollback, transaction, queue, taken, ended)
    }

    constructor ()
      ensures Valid() && View() == Connect() && channels == map[]
    {
      pending, closed, dead, lastRollback := map[], false, false, Unknown;
      transaction, queue, ended := None, [], false;
      channels, taken := map[], [];
    }

    // Puts one event into the stream, at the price of the oldest when it is full.
    method EnqueueEvent(event: Event)
      modifies this`queue
      ensures queue == Enqueue(old(queue), event)
    {
      if |queue| >= EVENT_CAPACITY {
        queue := queue[1..];
      }
      queue := queue + [event];
    }

    // Opens a channel for a new request, unless the connection is dead.
    method RegisterRequest(id: RequestId, begins: bool) returns (channel: Channel?)
      requires Valid() && id !in channels
      modifies this`pending, this`lastRollback, this`channels
      ensures Valid() && (View(), channel != null) == Register(old(View()), id, begins)
      ensures channel != null ==> fresh(channel) && channels == old(channels)[id := channel]
      ensures channel == null ==> channels == old(channels)
    {
      if dead {
        return null;
      }
      channel := OpenChannel(id);
      ghost var inbox := Inbox();
      if begins {
        lastRollback := Unknown;
      }
      assert Inbox() == inbox;
    }

    method OpenChannel(id: RequestId) returns (channel: Channel)
      requires Valid() && id !in channels
      modifies this`pending, this`channels
      ensures Valid() && View() == old(View()).(pending := old(View()).pending + {id})
      ensures fresh(channel) && channels == old(channels)[id := channel]
    {
      channel := new Channel();
      pending, channels := pending[id := channel], channels[id := channel];
      assert forall other :: other in old(channels) ==> channels[other].slot == old(channels[other].slot);
      assert Inbox() == old(Inbox());
      assert pending.Keys == old(pending).Keys + {id};
    }

    method RemovePending(id: RequestId)
      requires Valid()
      modifies this`pending
      ensures Valid() && View() == Forget(old(View()), id)
    {
      pending := pending - {id};
    }

    method NoteEvidence(reply: Reply)
      modifies this`lastRollback
      ensures lastRollback == EvidenceOf(reply, old(lastRollback))
    {
      match reply {
        case Capabilities(_) => lastRollback := Restored;
        case ReviewChanged(_) => lastRollback := Restored;
        case RollbackComplete => lastRollback := Restored;
        case RollbackIncomplete(_) => lastRollback := Unrestored;
        case _ =>
      }
    }

    // The reader's first section, and the hand-over to whoever waits.
    method Deliver(message: Message<Reply>) returns (solicited: bool)
      requires Valid()
      modifies this`pending, this`lastRollback, pending.Values
      ensures channels == old(channels)
      ensures Valid() && (View(), solicited) == Receive(old(View()), message)
    {
      NoteEvidence(message.body);
      solicited := message.id in pending;
      if solicited {
        var channel := pending[message.id];
        pending := pending - {message.id};
        channel.Put(Answer(message));
        assert Inbox() == old(Inbox())[message.id := Answer(message)];
        assert pending.Keys == old(pending).Keys - {message.id};
      } else {
        assert Inbox() == old(Inbox());
        assert pending.Keys == pending.Keys - {message.id};
      }
    }

    // The reader's second section, for a message nobody waits for.
    method AnnounceMessage(message: Message<Reply>)
      requires Valid()
      modifies this`transaction, this`queue
      ensures Valid() && View() == Announce(old(View()), message)
    {
      if message.body.RollbackComplete? {
        transaction := None;
      }
      if !dead {
        EnqueueEvent(Notice(message.body));
      }
    }

    method AnswerWaiting(waiting: map<RequestId, Channel>)
      requires Valid() && pending == map[]
      requires forall id :: id in waiting ==> id in channels && waiting[id] == channels[id] && waiting[id].slot.None?
      modifies waiting.Values
      ensures Valid()
      ensures Inbox() == map id | id in old(Inbox()).Keys + waiting.Keys ::
                if id in waiting then Broken else old(Inbox())[id]
    {
      AnswerAll(waiting);
      assert forall id :: id in channels && id !in waiting ==> channels[id].slot == old(channels[id].slot);
    }

    method EndStream()
      requires Valid() && !dead
      modifies this`dead, this`transaction, this`pending, this`queue, this`ended
      ensures Valid() && View() == Die(old(View())).(inbox := old(Inbox()))
    {
      dead, transaction, pending, ended := true, None, map[], true;
      EnqueueEvent(if lastRollback == Restored then SessionClosed else SessionTerminated);
      assert pending.Keys == {};
    }

    // Ends the connection once: the stream is closed, and whoever waits is answered, in no particular order.
    method FailPending()
      requires Valid()
      modifies this`dead, this`transaction, this`pending, this`queue, this`ended, pending.Values
      ensures channels == old(channels)
      ensures Valid() && View() == Die(old(View()))
    {
      if dead {
        return;
      }
      var waiting := pending;
      EndStream();
      assert pending.Keys == {};
      AnswerWaiting(waiting);
    }

    // A transaction acknowledged too late is not taken up.
    method NoteBegun(id: nat)
      requires Valid()
      modifies this`transaction
      ensures Valid() && View() == Begun(old(View()), id)
    {
      if !dead {
        transaction := Some(id);
      }
    }

    method ClearTransaction()
      requires Valid()
      modifies this`transaction
      ensures Valid() && View() == Reverted(old(View()))
    {
      transaction := None;
    }

    // The reader of the event stream.
    method TakeEvent() returns (event: Option<Event>)
      requires Valid()
      modifies this`queue, this`taken
      ensures Valid() && View() == Act(old(View()), Taking)
      ensures event == if old(queue) == [] then None else Some(old(queue)[0])
    {
      if queue == [] {
        return None;
      }
      event := Some(queue[0]);
      queue, taken := queue[1..], taken + [queue[0]];
    }
  }
}

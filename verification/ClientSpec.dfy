// The client end of a privileged session: request correlation, rollback evidence and the event stream
// (internal/privilege/client/client.go). Each function is one critical section.
module ClientSpec {
  import opened Wrappers
  import opened Model
  import opened Validate
  import opened Recovery
  import opened TransactionSpec
  import opened SessionSpec

  const EVENT_CAPACITY: nat := 32

  datatype Response = Answer(message: Message<Reply>) | Broken

  datatype Evidence = Unknown | Restored | Unrestored

  datatype Event = Notice(reply: Reply) | SessionClosed | SessionTerminated

  predicate Terminal(event: Event) { event.SessionClosed? || event.SessionTerminated? }

  // `inbox` holds what was put into the one-slot channel of each request; `queue` is the bounded event stream,
  // `taken` what its reader has had, and `ended` says that the stream is closed.
  datatype Client = Client(
    pending: set<RequestId>,
    inbox: map<RequestId, Response>,
    closed: bool,
    dead: bool,
    lastRollback: Evidence,
    transaction: Option<nat>,
    queue: seq<Event>,
    taken: seq<Event>,
    ended: bool)

  function Connect(): Client { Client({}, map[], false, false, Unknown, None, [], [], false) }

  // A full stream loses its oldest event.
  function Enqueue(queue: seq<Event>, event: Event): seq<Event> {
    if |queue| < EVENT_CAPACITY then queue + [event] else queue[1..] + [event]
  }

  // A dead client registers nothing; a new transaction forgets what is known of earlier rollbacks.
  function Register(c: Client, id: RequestId, begins: bool): (Client, bool) {
    if c.dead then (c, false)
    else (c.(pending := c.pending + {id}, lastRollback := if begins then Unknown else c.lastRollback), true)
  }

  function Forget(c: Client, id: RequestId): Client { c.(pending := c.pending - {id}) }

  function EvidenceOf(reply: Reply, before: Evidence): Evidence {
    match reply
    case Capabilities(_) => Restored
    case ReviewChanged(_) => Restored
    case RollbackComplete => Restored
    case RollbackIncomplete(_) => Unrestored
    case _ => before
  }

  // The reader's first section: note the evidence and hand the message to the request waiting for it, if any.
  function Receive(c: Client, message: Message<Reply>): (Client, bool) {
    var c1 := c.(lastRollback := EvidenceOf(message.body, c.lastRollback), pending := c.pending - {message.id});
    if message.id in c.pending then (c1.(inbox := c1.inbox[message.id := Answer(message)]), true) else (c1, false)
  }

  // The reader's second section, for a message nobody waits for.
  function Announce(c: Client, message: Message<Reply>): Client {
    var c1 := if message.body.RollbackComplete? then c.(transaction := None) else c;
    if c1.dead then c1 else c1.(queue := Enqueue(c1.queue, Notice(message.body)))
  }

  // The connection is lost: every waiting request is answered, and the stream ends with what is known.
  function Die(c: Client): Client {
    if c.dead then c
    else
      var event := if c.lastRollback == Restored then SessionClosed else SessionTerminated;
      c.(dead := true, transaction := None, pending := {},
         inbox := map id | id in c.inbox.Keys + c.pending :: if id in c.pending then Broken else c.inbox[id],
         queue := Enqueue(c.queue, event), ended := true)
  }

  function Begun(c: Client, transaction: nat): Client {
    if c.dead then c else c.(transaction := Some(transaction))
  }

  function Reverted(c: Client): Client { c.(transaction := None) }

  datatype RevertPlan = Refused | Nothing | Ask(transaction: Option<nat>)

  // What Revert does before it talks to the helper.
  function PlanRevert(c: Client): RevertPlan {
    if c.dead && c.lastRollback != Restored then Refused
    else if c.transaction.None? && c.lastRollback != Unrestored then Nothing
    else Ask(c.transaction)
  }

  // --- Runs ---

  datatype Action =
    | Registering(id: RequestId, begins: bool)
    | Forgetting(id: RequestId)
    | Receiving(message: Message<Reply>)
    | Announcing(message: Message<Reply>)
    | Dying
    | Beginning(transaction: nat)
    | Reverting
    | Taking

  function Act(c: Client, action: Action): Client {
    match action
    case Registering(id, begins) => if id in c.inbox || id in c.pending then c else Register(c, id, begins).0
    case Forgetting(id) => Forget(c, id)
    case Receiving(message) => Receive(c, message).0
    case Announcing(message) => Announce(c, message)
    case Dying => Die(c)
    case Beginning(transaction) => Begun(c, transaction)
    case Reverting => Reverted(c)
    case Taking => if c.queue == [] then c else c.(queue := c.queue[1..], taken := c.taken + [c.queue[0]])
  }

  function Perform(c: Client, actions: seq<Action>): Client
    decreases |actions|
  {
    if actions == [] then c else Perform(Act(c, actions[0]), actions[1..])
  }

  function Stream(c: Client): seq<Event> { c.taken + c.queue }

  predicate Correlated(c: Client) {
    && c.pending !! c.inbox.Keys
    && (c.dead <==> c.ended)
    && (c.dead ==> c.pending == {} && c.transaction.None?)
  }

  predicate Streaming(c: Client) {
    && |c.queue| <= EVENT_CAPACITY
    && (forall i :: 0 <= i < |Stream(c)| - 1 ==> !Terminal(Stream(c)[i]))
    && (c.ended <==> Stream(c) != [] && Terminal(Stream(c)[|Stream(c)| - 1]))
  }

  predicate Coherent(c: Client) { Correlated(c) && Streaming(c) }

  lemma StreamIsKept(c: Client, c1: Client)
    requires Streaming(c) && Stream(c1) == Stream(c) && c1.ended == c.ended && |c1.queue| <= |c.queue|
    ensures Streaming(c1)
  {
  }

  lemma ActKeepsCorrelated(c: Client, action: Action)
    requires Correlated(c)
    ensures Correlated(Act(c, action))
    ensures c.dead ==> Act(c, action).dead && Act(c, action).pending == {}
  {
    hide Enqueue, EvidenceOf;
  }

  lemma EventKeepsStreaming(c: Client, c1: Client, event: Event)
    requires Streaming(c) && !c.ended && c1.queue == Enqueue(c.queue, event) && c1.taken == c.taken
    requires c1.ended == Terminal(event)
    ensures Streaming(c1)
  {
    StreamGrows(c, event, c1);
    hide Stream, Enqueue;
  }

  lemma TakingKeepsStreaming(c: Client)
    requires Streaming(c)
    ensures Streaming(Act(c, Taking)) && Stream(Act(c, Taking)) == Stream(c)
  {
    var c1 := Act(c, Taking);
    assert c.queue != [] ==> c1.taken + c1.queue == c.taken + c.queue;
    StreamIsKept(c, c1);
    hide Streaming;
  }

  lemma ActKeepsStreaming(c: Client, action: Action)
    requires Streaming(c) && (c.dead <==> c.ended)
    ensures Streaming(Act(c, action)) && (c.dead ==> Stream(Act(c, action)) == Stream(c))
  {
    hide Streaming, Enqueue, EvidenceOf;
    var c1 := Act(c, action);
    if action.Taking? {
      TakingKeepsStreaming(c);
    } else if c1.queue == c.queue && c1.taken == c.taken && c1.ended == c.ended {
      StreamIsKept(c, c1);
    } else {
      EventKeepsStreaming(c, c1, if action.Announcing? then Notice(action.message.body)
                                 else if c.lastRollback == Restored then SessionClosed else SessionTerminated);
    }
  }

  // Nothing is pending and nothing is registered once dead; the terminal event is the last of the stream and
  // cannot be evicted.
  lemma ActKeepsCoherent(c: Client, action: Action)
    requires Coherent(c)
    ensures Coherent(Act(c, action))
    ensures c.dead ==> Act(c, action).dead && Act(c, action).pending == {} && Stream(Act(c, action)) == Stream(c)
  {
    ActKeepsCorrelated(c, action);
    ActKeepsStreaming(c, action);
  }

  // One answer a request at most, into an empty channel, and only while the request is pending; a request stops
  // being pending by being answered, unless its caller gave up.
  lemma AnswersArriveOnce(c: Client, action: Action)
    requires Coherent(c)
    ensures var c1 := Act(c, action);
            && (forall id :: id in c.inbox ==> id in c1.inbox && c1.inbox[id] == c.inbox[id])
            && (forall id :: id in c1.inbox && id !in c.inbox ==> id in c.pending)
            && (forall id :: id in c.pending && id !in c1.pending && !action.Forgetting? ==> id in c1.inbox)
  {
  }

  lemma StreamGrows(c: Client, event: Event, c1: Client)
    requires Streaming(c) && !c.ended && c1.queue == Enqueue(c.queue, event) && c1.taken == c.taken
    ensures |c1.queue| <= EVENT_CAPACITY && Stream(c1) != [] && Stream(c1)[|Stream(c1)| - 1] == event
    ensures forall i :: 0 <= i < |Stream(c1)| - 1 ==> !Terminal(Stream(c1)[i])
  {
    var n := |c.taken|;
    forall i | 0 <= i < |Stream(c1)| - 1
      ensures !Terminal(Stream(c1)[i])
    {
      if i < n {
        assert Stream(c1)[i] == Stream(c)[i];
      } else if |c.queue| < EVENT_CAPACITY {
        assert Stream(c1)[i] == Stream(c)[i];
      } else {
        assert Stream(c1)[i] == c.queue[i - n + 1] == Stream(c)[i + 1];
      }
    }
  }

  // The end of the connection, and what nobody waits for while it lasts, becomes the newest event; at most the oldest
  // one waiting is lost for it.
  lemma NewsIsStreamed(c: Client, action: Action)
    requires Coherent(c) && !c.dead && (action.Announcing? || action.Dying?)
    ensures var event := if action.Announcing? then Notice(action.message.body)
                         else if c.lastRollback == Restored then SessionClosed else SessionTerminated;
            Stream(Act(c, action))
            == c.taken + (if |c.queue| == EVENT_CAPACITY then c.queue[1..] else c.queue) + [event]
    ensures Act(c, action).ended <==> action.Dying?
  {
  }

  // A client begins alive, knowing nothing, with an open and empty stream.
  lemma ConnectedIsCoherent()
    ensures Coherent(Connect()) && !Connect().ended && Stream(Connect()) == [] && Connect().lastRollback == Unknown
  {
  }

  // A request is registered exactly by a client that lives, and then waits for its answer; only one that begins a
  // transaction makes the client forget what it knows of rollbacks.
  lemma RegistersIff(c: Client, id: RequestId, begins: bool)
    ensures var (c1, ok) := Register(c, id, begins);
            && (ok <==> !c.dead)
            && c1 == (if ok then c.(pending := c.pending + {id}, lastRollback := c1.lastRollback) else c)
            && (ok && begins ==> c1.lastRollback == Unknown) && (!begins ==> c1.lastRollback == c.lastRollback)
  {
  }

  // A message goes to the request waiting for it, and to nobody else; one nobody waits for is left to be announced.
  lemma ReceivedIsHandedOver(c: Client, message: Message<Reply>)
    ensures var (c1, solicited) := Receive(c, message);
            && (solicited <==> message.id in c.pending)
            && c1.pending == c.pending - {message.id}
            && c1.inbox == (if solicited then c.inbox[message.id := Answer(message)] else c.inbox)
            && c1 == c.(pending := c1.pending, inbox := c1.inbox, lastRollback := c1.lastRollback)
  {
  }

  // Revert is refused by a dead client without evidence of a rollback, and has nothing to do exactly if no transaction
  // is known and no rollback known to be incomplete; otherwise it asks, under the number known.
  lemma RevertAsksIff(c: Client)
    ensures PlanRevert(c) == Refused <==> c.dead && c.lastRollback != Restored
    ensures PlanRevert(c) == Nothing <==>
              (c.dead ==> c.lastRollback == Restored) && c.transaction.None? && c.lastRollback != Unrestored
    ensures PlanRevert(c).Ask? ==> PlanRevert(c).transaction == c.transaction
  {
  }

  lemma {:induction false} EveryRunIsCoherent(c: Client, actions: seq<Action>)
    requires Coherent(c)
    ensures var c1 := Perform(c, actions);
            && Coherent(c1)
            && (forall id :: id in c.inbox ==> id in c1.inbox && c1.inbox[id] == c.inbox[id])
            && (c.dead ==> c1.dead && c1.pending == {} && Stream(c1) == Stream(c))
    decreases |actions|
  {
    if actions != [] {
      ActKeepsCoherent(c, actions[0]);
      AnswersArriveOnce(c, actions[0]);
      EveryRunIsCoherent(Act(c, actions[0]), actions[1..]);
    }
  }
}

// Helper, pipes and client together, one atomic step at a time, with the requests of the client serialised as the
// desktop service serialises them (internal/ui/tune_service.go, internal/privilege/client/client.go,
// internal/privilege/session/server.go).
module SystemSpec {
  import opened Wrappers
  import opened Model
  import opened Validate
  import opened Recovery
  import opened TransactionSpec
  import opened TransactionSafety
  import opened TransactionTrails
  import opened SessionSpec
  import opened SessionLaws
  import opened SessionReplies
  import opened ClientSpec

  // The one request in progress: registered, written, or given up for good. Giving up leaves the message where
  // it is.
  datatype Op =
    | Resting
    | Asking(id: nat, request: Request)
    | Waiting(id: nat, request: Request)
    | Abandoned(id: nat, request: Request)

  // A turn in progress passes through `path`, world by world, and then sends `replies`.
  datatype Helper =
    | Idling
    | Working(input: Input, turned: Turned, path: seq<World>, replies: seq<Message<Reply>>)
    | Gone(clean: bool)

  // `admitted`: the handshake has succeeded. `vetted`: the helper has sent capabilities. `asked` remembers what was
  // asked under each number, `said` what the helper has answered. `astray`: evidence had been lost by the time it went.
  datatype System = System(
    env: Environment,
    session: Session,
    helper: Helper,
    world: World,
    toHelper: seq<Message<Request>>,
    inputOpen: bool,
    toClient: seq<Message<Reply>>,
    client: Client,
    op: Op,
    asked: seq<Request>,
    said: seq<Message<Reply>>,
    renewal: Option<nat>,
    holding: Option<Message<Reply>>,
    admitted: bool,
    vetted: bool,
    astray: bool)

  datatype Wake = BySignal | ByTimer | ByEnd | ByGarbage | ByMessage

  datatype Step =
    | Turning(at: nat, wake: Wake)
    | Advancing
    | Answering
    | Finishing
    | Crashing
    | Requesting(request: Request)
    | Transmitting(ok: bool, landed: bool)
    | Completing
    | Abandoning
    | ClosingQuietly(ok: bool, landed: bool)
    | ClosingLate(ok: bool, landed: bool)
    | RenewalReading
    | RenewalWriting(ok: bool, landed: bool)
    | ReaderTaking
    | ReaderAnnouncing
    | ReaderFailing

  function Launch(env: Environment, cfg: Config, machine: Machine): System {
    System(env, SessionSpec.Open(cfg, machine, 0), Idling, machine.world, [], true, [], Connect(), Resting, [], [],
           None, None, false, false, false)
  }

  function Begins(request: Request): bool { request.Begin? }

  // The helper takes up whatever its select offers.
  function Take(sys: System, wake: Wake): Option<Input> {
    if !sys.helper.Idling? then None
    else
      match wake
      case BySignal => Some(Cancelled)
      case ByGarbage => Some(BrokenInput)
      case ByTimer => if sys.session.lease.Some? then Some(LeaseFired) else None
      case ByEnd => if sys.toHelper == [] && !sys.inputOpen then Some(EndOfInput) else None
      case ByMessage => if sys.toHelper != [] then Some(Incoming(sys.toHelper[0])) else None
  }

  function DoTurning(sys: System, at: nat, input: Input): System {
    Took(sys, input, Turn(sys.session, at, input, sys.env))
  }

  function Took(sys: System, input: Input, turned: Turned): System {
    var before, after := sys.session, turned.session;
    var path := if before.machine.history <= after.machine.history then Path(before.machine, after.machine) else [];
    var replies := if |before.sent| <= |after.sent| then after.sent[|before.sent|..] else [];
    sys.(helper := Working(input, turned, path, replies),
         toHelper := if input.Incoming? && sys.toHelper != [] then sys.toHelper[1..] else sys.toHelper)
  }

  // A transaction's acknowledgement may go out before the turn is over; other replies are its last act.
  predicate MayAnswer(sys: System) {
    sys.helper.Working? && sys.helper.replies != []
    && (sys.helper.path == [] || sys.helper.replies[0].body.Running?)
  }

  function DoAnswering(sys: System): System
    requires MayAnswer(sys)
  {
    var reply := sys.helper.replies[0];
    sys.(helper := sys.helper.(replies := sys.helper.replies[1..]), toClient := sys.toClient + [reply],
         said := sys.said + [reply], vetted := sys.vetted || reply.body.Capabilities?)
  }

  function DoFinishing(sys: System): System
    requires sys.helper.Working?
  {
    sys.(session := sys.helper.turned.session, astray := HasStrayed(sys),
         helper := match sys.helper.turned.verdict case Continue => Idling case Return(error) => Gone(!error))
  }

  predicate HasStrayed(sys: System) {
    match sys.helper
    case Idling => sys.session.machine.strays != []
    case Working(_, turned, _, _) => turned.session.machine.strays != []
    case Gone(_) => sys.astray
  }

  function DoCrashing(sys: System): System { sys.(helper := Gone(false), astray := HasStrayed(sys)) }

  // The service lets one request through at a time, and none to a client that is dead or closing. Whether to revert,
  // and whether to wait for a rollback in closing, is decided a moment before the request is registered, so what the
  // decision rested on may no longer hold.
  predicate MayRequest(sys: System, request: Request) {
    && sys.op.Resting? && !sys.client.dead && !sys.client.closed
    && match request
       case Hello => !sys.admitted
       case Probe => !sys.admitted
       case Begin(_) => sys.admitted
       case Revert => sys.admitted
       case Close => true
       case _ => false
  }

  function DoRequesting(sys: System, request: Request): System {
    var id := |sys.asked|;
    var registered := Register(sys.client, Serial(id), Begins(request)).0;
    sys.(asked := sys.asked + [request], op := Asking(id, request),
         client := if request.Close? then registered.(closed := true) else registered)
  }

  // A failed write may still have landed; it ends the connection.
  function DoTransmitting(sys: System, ok: bool, landed: bool): System
    requires sys.op.Asking?
  {
    var message := Message(Serial(sys.op.id), sys.op.request);
    var sent := if sys.inputOpen && (ok || landed) then sys.toHelper + [message] else sys.toHelper;
    if sys.inputOpen && ok then sys.(toHelper := sent, op := Waiting(sys.op.id, sys.op.request))
    else
      sys.(toHelper := sent, op := Abandoned(sys.op.id, sys.op.request), inputOpen := false,
           client := Die(Forget(sys.client, Serial(sys.op.id))))
  }

  function GiveUp(sys: System, inputOpen: bool): System
    requires sys.op.Waiting?
  {
    sys.(op := Abandoned(sys.op.id, sys.op.request), inputOpen := inputOpen)
  }

  // What the caller of a request does with its answer.
  function AfterAnswer(client: Client, request: Request, body: Reply): Client {
    match request
    case Begin(_) => if body.Running? then Begun(client, body.transaction) else client
    case Revert => if body.RollbackComplete? then Reverted(client) else client
    case Close => client.(closed := false)
    case _ => client
  }

  function DoCompleting(sys: System): System
    requires sys.op.Waiting? && Serial(sys.op.id) in sys.client.inbox
  {
    match sys.client.inbox[Serial(sys.op.id)]
    case Broken => GiveUp(sys, sys.inputOpen && !sys.op.request.Close?)
    case Answer(message) =>
      var request, body := sys.op.request, message.body;
      if request.Close? && !body.RollbackIncomplete? then GiveUp(sys, false)
      else
        sys.(op := Resting, client := AfterAnswer(sys.client, request, body),
             admitted := sys.admitted || (request.Probe? && body.Capabilities?))
  }

  function DoAbandoning(sys: System): System
    requires sys.op.Waiting?
  {
    sys.(op := Abandoned(sys.op.id, sys.op.request), inputOpen := false,
         client := Die(Forget(sys.client, Serial(sys.op.id))))
  }

  function DoClosingQuietly(sys: System, ok: bool, landed: bool): System {
    var id := |sys.asked|;
    var message := Message(Serial(id), Close);
    sys.(asked := sys.asked + [Close], op := Abandoned(id, Close), client := sys.client.(closed := true),
         toHelper := if sys.inputOpen && (ok || landed) then sys.toHelper + [message] else sys.toHelper,
         inputOpen := false)
  }

  // A client whose connection is lost is closed by whoever notices, even while a request is still in progress.
  function DoClosingLate(sys: System, ok: bool, landed: bool): System {
    var message := Message(Serial(|sys.asked|), Close);
    sys.(asked := sys.asked + [Close], client := sys.client.(closed := true),
         toHelper := if sys.inputOpen && (ok || landed) then sys.toHelper + [message] else sys.toHelper,
         inputOpen := false)
  }

  function DoRenewalWriting(sys: System, ok: bool, landed: bool): System
    requires sys.renewal.Some?
  {
    var request := Renew(sys.renewal.value);
    var message := Message(Serial(|sys.asked|), request);
    var sent := if sys.inputOpen && (ok || landed) then sys.toHelper + [message] else sys.toHelper;
    var sys1 := sys.(asked := sys.asked + [request], toHelper := sent, renewal := None);
    if sys.inputOpen && ok then sys1 else sys1.(client := Die(sys.client), inputOpen := false)
  }

  function DoReaderTaking(sys: System): System
    requires sys.toClient != []
  {
    var (client, solicited) := Receive(sys.client, sys.toClient[0]);
    sys.(client := client, toClient := sys.toClient[1..], holding := if solicited then None else Some(sys.toClient[0]))
  }

  function DoAdvancing(sys: System): System
    requires sys.helper.Working? && sys.helper.path != []
  {
    sys.(world := sys.helper.path[0], helper := sys.helper.(path := sys.helper.path[1..]))
  }

  function DoReaderAnnouncing(sys: System): System
    requires sys.holding.Some?
  {
    sys.(client := Announce(sys.client, sys.holding.value), holding := None)
  }

  predicate MayStep(sys: System, step: Step) {
    match step
    case Turning(_, wake) => Take(sys, wake).Some?
    case Advancing => sys.helper.Working? && sys.helper.path != []
    case Answering => MayAnswer(sys)
    case Finishing => sys.helper.Working? && sys.helper.path == [] && sys.helper.replies == []
    case Crashing => !sys.helper.Gone?
    case Requesting(request) => MayRequest(sys, request)
    case Transmitting(_, _) => sys.op.Asking?
    case Completing => sys.op.Waiting? && Serial(sys.op.id) in sys.client.inbox
    case Abandoning => sys.op.Waiting?
    case ClosingQuietly(_, _) => sys.op.Resting? && !sys.client.closed
    case ClosingLate(_, _) => sys.client.dead && !sys.client.closed
    case RenewalReading => true
    case RenewalWriting(_, _) => sys.renewal.Some?
    case ReaderTaking => sys.holding.None? && sys.toClient != []
    case ReaderAnnouncing => sys.holding.Some?
    case ReaderFailing => sys.holding.None?
  }

  // A step that is not enabled changes nothing.
  function Do(sys: System, step: Step): System {
    if !MayStep(sys, step) then sys
    else
      match step
      case Turning(at, wake) => DoTurning(sys, at, Take(sys, wake).value)
      case Advancing => DoAdvancing(sys)
      case Answering => DoAnswering(sys)
      case Finishing => DoFinishing(sys)
      case Crashing => DoCrashing(sys)
      case Requesting(request) => DoRequesting(sys, request)
      case Transmitting(ok, landed) => DoTransmitting(sys, ok, landed)
      case Completing => DoCompleting(sys)
      case Abandoning => DoAbandoning(sys)
      case ClosingQuietly(ok, landed) => DoClosingQuietly(sys, ok, landed)
      case ClosingLate(ok, landed) => DoClosingLate(sys, ok, landed)
      case RenewalReading => sys.(renewal := sys.client.transaction)
      case RenewalWriting(ok, landed) => DoRenewalWriting(sys, ok, landed)
      case ReaderTaking => DoReaderTaking(sys)
      case ReaderAnnouncing => DoReaderAnnouncing(sys)
      case ReaderFailing => sys.(client := Die(sys.client))
  }

  function Evolve(sys: System, steps: seq<Step>): System
    decreases |steps|
  {
    if steps == [] then sys else Evolve(Do(sys, steps[0]), steps[1..])
  }
}

// After a successful handshake no reachable state of helper, pipes and client supports a false claim that stock
// settings are restored.
module SystemSafety {
  import opened Wrappers
  import opened Model
  import opened Validate
  import opened Recovery
  import opened TransactionSpec
  import opened TransactionSafety
  import opened TransactionTrails
  import opened SessionSpec
  import opened SessionLaws
  import opened SessionReplies
  import opened ClientSpec
  import opened SystemSpec

  predicate AtStock(stock: Hardware, sys: System) { sys.world.hardware == stock }

  // The helper will take up nothing more.
  predicate Doomed(helper: Helper) { helper.Gone? || (helper.Working? && helper.turned.verdict.Return?) }

  predicate Busy(helper: Helper) { helper.Working? && IsRequest(helper.input) && helper.replies != [] }

  predicate NoRequests(queue: seq<Message<Request>>) {
    forall i :: 0 <= i < |queue| ==> queue[i].body.Renew?
  }

  predicate OnlyLease(queue: seq<Message<Reply>>) {
    forall i :: 0 <= i < |queue| ==> queue[i].id == LEASE_ID
  }

  predicate Current(op: Op, id: RequestId) { (op.Waiting? || op.Abandoned?) && Serial(op.id) == id }

  predicate Answered(sys: System) {
    sys.op.Waiting? && Serial(sys.op.id) in sys.client.inbox && sys.client.inbox[Serial(sys.op.id)].Answer?
  }

  predicate Calm(stock: Hardware, sys: System) {
    && AtStock(stock, sys)
    && match sys.helper
       case Gone(_) => true
       case Idling => sys.session.active.None?
       case Working(_, turned, path, _) =>
         turned.session.active.None? && AllAtStock(stock, path) && turned.session.machine.world.hardware == stock
  }

  // The hardware is at stock, and no transaction can start before the client asks for one.
  predicate Assured(stock: Hardware, sys: System) {
    && Calm(stock, sys)
    && (Doomed(sys.helper) || (!(sys.op.Asking? && sys.op.request.Begin? && sys.inputOpen)
                               && forall i :: 0 <= i < |sys.toHelper| ==> !sys.toHelper[i].body.Begin?))
  }

  // The helper's turns are those of a guarded session, and the world is where the turn has got to.
  ghost predicate Faithful(stock: Hardware, sys: System) {
    match sys.helper
    case Gone(_) => true
    case Idling => Guarded(stock, sys.session) && sys.session.machine.world == sys.world
    case Working(input, turned, path, replies) =>
      && Told(stock, sys.session, input, turned)
      && (if path == [] then sys.world else path[|path| - 1]) == turned.session.machine.world
      && (sys.session.probed && sys.session.active.None? && !IsBegin(input) ==> AllAtStock(stock, path))
      && |replies| <= 1
      && (replies != [] ==> |turned.session.sent| == |sys.session.sent| + 1
                            && replies[0] == turned.session.sent[|sys.session.sent|])
      && (replies == [] && turned.session.probed && !sys.session.probed ==> sys.vetted)
  }

  predicate Vetting(stock: Hardware, sys: System) {
    match sys.helper
    case Gone(clean) => clean && sys.vetted ==> AtStock(stock, sys)
    case Idling => sys.vetted == sys.session.probed
    case Working(input, turned, path, replies) =>
      && (sys.session.probed ==> sys.vetted)
      && (sys.vetted && !sys.session.probed ==>
            && replies == [] && path == [] && AtStock(stock, sys) && turned.session.active.None?
            && (turned.session.probed || turned.verdict.Return?))
  }

  // The last event of the stream says that the session closed with stock settings restored.
  predicate SaysClosed(client: Client) {
    client.queue != [] && client.queue[|client.queue| - 1].SessionClosed?
  }

  predicate NothingTold(sys: System) {
    && (forall i :: 0 <= i < |sys.toClient| ==> !Tells(sys.toClient[i].body))
    && (sys.holding.Some? ==> !Tells(sys.holding.value.body))
    && (Answered(sys) ==> !Tells(sys.client.inbox[Serial(sys.op.id)].message.body))
    && sys.client.lastRollback != Restored
    && !SaysClosed(sys.client)
  }

  // Before the helper has sent capabilities nothing it says tells anything, short of its last words.
  predicate Silence(sys: System) {
    !sys.vetted && !sys.helper.Gone?
    && !(sys.helper.Working? && sys.helper.turned.verdict.Return? && sys.helper.replies == [])
    ==> NothingTold(sys)
  }

  predicate Claims(stock: Hardware, sys: System) {
    sys.vetted ==>
      && (sys.client.lastRollback == Restored || SaysClosed(sys.client) ==> Assured(stock, sys))
      && (forall i :: 0 <= i < |sys.toClient| && Tells(sys.toClient[i].body) ==> Assured(stock, sys))
      && (sys.holding.Some? && Tells(sys.holding.value.body) ==> Assured(stock, sys))
      && (Answered(sys) && Tells(sys.client.inbox[Serial(sys.op.id)].message.body) ==> Assured(stock, sys))
  }

  predicate Quiescent(sys: System) {
    NoRequests(sys.toHelper) && !Busy(sys.helper) && OnlyLease(sys.toClient)
  }

  // While the client lives, at most one request is under way, wherever it is, and it is the one in progress.
  predicate Following(sys: System) {
    && (forall i :: 0 <= i < |sys.toHelper| && !sys.toHelper[i].body.Renew? ==>
          Current(sys.op, sys.toHelper[i].id) && sys.op.request == sys.toHelper[i].body)
    && (forall i, j :: 0 <= i < j < |sys.toHelper| ==> sys.toHelper[i].body.Renew? || sys.toHelper[j].body.Renew?)
    && (Busy(sys.helper) ==> Current(sys.op, sys.helper.input.message.id)
                             && sys.op.request == sys.helper.input.message.body && NoRequests(sys.toHelper))
    && (forall i :: 0 <= i < |sys.toClient| && sys.toClient[i].id != LEASE_ID ==>
          Current(sys.op, sys.toClient[i].id) && NoRequests(sys.toHelper) && !Busy(sys.helper))
    && (forall i, j :: 0 <= i < j < |sys.toClient| ==>
          sys.toClient[i].id == LEASE_ID || sys.toClient[j].id == LEASE_ID)
    && (Answered(sys) || sys.op.Resting? || sys.op.Asking? ==> Quiescent(sys))
    && (sys.holding.Some? && sys.holding.value.id != LEASE_ID ==> sys.op.Abandoned?)
  }

  // Once it is dead, nothing but closing can follow a begin message, and no other request precede it.
  predicate Trailing(sys: System) {
    && (forall i :: 0 <= i < |sys.toHelper| && sys.toHelper[i].body.Begin? ==>
          !Busy(sys.helper)
          && (forall j :: 0 <= j < i ==> sys.toHelper[j].body.Renew?)
          && (forall j :: i < j < |sys.toHelper| ==> !sys.toHelper[j].body.Begin?))
    && (sys.op.Asking? && sys.op.request.Begin? && sys.inputOpen ==> NoRequests(sys.toHelper) && !Busy(sys.helper))
  }

  // The news of a lease that could not be rolled back tells nothing.
  predicate LeaseIsQuiet(sys: System) {
    && (forall i :: 0 <= i < |sys.toClient| && sys.toClient[i].id == LEASE_ID ==> !Tells(sys.toClient[i].body))
    && (sys.holding.Some? && sys.holding.value.id == LEASE_ID ==> !Tells(sys.holding.value.body))
  }

  predicate Flow(sys: System) {
    !Doomed(sys.helper) ==> LeaseIsQuiet(sys) && if sys.client.dead then Trailing(sys) else Following(sys)
  }

  predicate AskedAs(sys: System, id: RequestId, request: Request) {
    id.Serial? && id.number < |sys.asked| && sys.asked[id.number] == request
  }

  predicate SentAs(sys: System, message: Message<Request>) {
    AskedAs(sys, message.id, message.body) && (sys.op.Asking? ==> message.id != Serial(sys.op.id))
  }

  // A reply answers something asked and sent, and a greeting answers only a greeting.
  predicate AnswersAsked(sys: System, reply: Message<Reply>) {
    && (reply.id == LEASE_ID || (reply.id.Serial? && reply.id.number < |sys.asked|))
    && (sys.op.Asking? ==> reply.id != Serial(sys.op.id))
    && (reply.body.Ready? ==> reply.id.Serial? && sys.asked[reply.id.number].Hello?)
  }

  // Every message carries the number of what was asked.
  predicate Numbered(sys: System) {
    && (forall i :: 0 <= i < |sys.toHelper| ==> SentAs(sys, sys.toHelper[i]))
    && (!sys.op.Resting? ==> AskedAs(sys, Serial(sys.op.id), sys.op.request))
    && (sys.helper.Working? && sys.helper.input.Incoming? ==> SentAs(sys, sys.helper.input.message))
    && (sys.helper.Working? ==> forall i :: 0 <= i < |sys.helper.replies| ==> AnswersAsked(sys, sys.helper.replies[i]))
    && (forall i :: 0 <= i < |sys.toClient| ==> AnswersAsked(sys, sys.toClient[i]))
    && (forall id :: id in sys.client.inbox && sys.client.inbox[id].Answer? ==>
          sys.client.inbox[id].message.id == id && AnswersAsked(sys, sys.client.inbox[id].message))
    && (forall id :: id in sys.client.inbox.Keys + sys.client.pending ==> id.Serial? && id.number < |sys.asked|)
  }

  predicate AnswersWithCapabilities(response: Response) {
    response.Answer? && response.message.body.Capabilities?
  }

  predicate Orderly(sys: System) {
    && (sys.op.Abandoned? ==> sys.client.dead || (sys.client.closed && sys.op.request.Close?))
    && (sys.op.Waiting? || sys.op.Asking? ==>
          && (Serial(sys.op.id) in sys.client.pending || Serial(sys.op.id) in sys.client.inbox)
          && (sys.op.request.Close? ==> sys.client.closed))
    && (sys.op.Asking? && Serial(sys.op.id) in sys.client.inbox ==> sys.client.inbox[Serial(sys.op.id)].Broken?)
    && (forall id :: id in sys.client.inbox && sys.client.inbox[id].Broken? ==> sys.client.dead)
    && (sys.client.dead ==> sys.client.pending == {})
    && (SaysClosed(sys.client) ==> sys.client.dead)
    && (forall id :: id in sys.client.pending ==>
          id !in sys.client.inbox && !sys.op.Resting? && Serial(sys.op.id) == id)
    && (sys.admitted ==> sys.vetted)
    && (forall i :: 0 <= i < |sys.toClient| && sys.toClient[i].body.Capabilities? ==> sys.vetted)
    && (forall id :: id in sys.client.inbox && AnswersWithCapabilities(sys.client.inbox[id]) ==> sys.vetted)
  }

  // If the hardware may be off stock, the client holds something that says so.
  predicate Evidenced(stock: Hardware, sys: System) {
    && (sys.admitted && !Calm(stock, sys) ==>
          || sys.client.dead || sys.client.transaction.Some? || sys.client.lastRollback == Unrestored
          || ((sys.op.Asking? || sys.op.Waiting?) && sys.op.request.Begin?))
    && (sys.admitted && !sys.client.dead && Answered(sys)
        && sys.client.inbox[Serial(sys.op.id)].message.body.RollbackIncomplete? ==>
          Calm(stock, sys) || sys.client.lastRollback == Unrestored)
  }

  // What has been said, and what the client has concluded from it.
  predicate Talk(stock: Hardware, sys: System) { Silence(sys) && Claims(stock, sys) && Evidenced(stock, sys) }

  // What is under way, and where.
  predicate Traffic(sys: System) { Flow(sys) && Numbered(sys) && Orderly(sys) }

  ghost predicate Invariant(stock: Hardware, sys: System) {
    Faithful(stock, sys) && Vetting(stock, sys) && Talk(stock, sys) && Traffic(sys)
  }

  lemma LaunchIsSafe(stock: Hardware, env: Environment, cfg: Config, machine: Machine)
    requires Recoverable(cfg, stock, machine)
    ensures Invariant(stock, Launch(env, cfg, machine))
  {
  }

  // A step of the client leaves the helper and the world alone.
  ghost predicate SameHelper(a: System, b: System) {
    a.helper == b.helper && a.session == b.session && a.world == b.world && a.vetted == b.vetted
  }

  lemma ClientStepsKeepTheHelper(stock: Hardware, a: System, b: System)
    requires SameHelper(a, b) && Faithful(stock, a) && Vetting(stock, a)
    ensures Faithful(stock, b) && Vetting(stock, b) && Calm(stock, b) == Calm(stock, a)
  {
    hide Told, Guarded;
  }

  // The flow of requests concerns the client only through the answers it holds.
  lemma FlowIsKept(a: System, b: System)
    requires Flow(a) && SameHelper(a, b)
    requires a.toHelper == b.toHelper && a.toClient == b.toClient && a.op == b.op
    requires b.inputOpen ==> a.inputOpen
    requires b.holding == a.holding || b.holding.None?
    requires b.client.dead || (!a.client.dead && (Answered(b) ==> Answered(a)))
    ensures Flow(b)
  {
    hide Tells;
  }

  lemma RequestingKeepsFlow(sys: System, request: Request)
    requires Traffic(sys) && MayRequest(sys, request)
    ensures Flow(DoRequesting(sys, request))
  {
    hide Numbered;
  }

  lemma RequestingKeepsNumbered(sys: System, request: Request)
    requires Traffic(sys) && MayRequest(sys, request)
    ensures Numbered(DoRequesting(sys, request))
  {
    hide Flow;
  }

  lemma RequestingKeepsOrderly(sys: System, request: Request)
    requires Traffic(sys) && MayRequest(sys, request)
    ensures Orderly(DoRequesting(sys, request))
  {
    hide Flow;
  }

  lemma RequestingKeepsTraffic(stock: Hardware, sys: System, request: Request)
    requires Invariant(stock, sys) && MayRequest(sys, request)
    ensures Traffic(DoRequesting(sys, request))
  {
    hide Faithful, Vetting, Talk, Flow, Numbered, Orderly;
    RequestingKeepsFlow(sys, request);
    RequestingKeepsNumbered(sys, request);
    RequestingKeepsOrderly(sys, request);
  }

  lemma RequestingKeepsTalk(stock: Hardware, sys: System, request: Request)
    requires Invariant(stock, sys) && MayRequest(sys, request)
    ensures Talk(stock, DoRequesting(sys, request))
  {
    hide Told, Guarded, Faithful, Vetting, Calm;
    var next := DoRequesting(sys, request);
    ClientStepsKeepTheHelper(stock, sys, next);
    assert Silence(next) by { hide Claims, Numbered, Evidenced; }
    assert Claims(stock, next) by { hide Numbered, Evidenced; }
    assert Evidenced(stock, next);
  }

  lemma RequestingIsSafe(stock: Hardware, sys: System, request: Request)
    requires Invariant(stock, sys) && MayRequest(sys, request)
    ensures Invariant(stock, DoRequesting(sys, request))
  {
    RequestingKeepsTraffic(stock, sys, request);
    RequestingKeepsTalk(stock, sys, request);
    hide Talk, Traffic, Faithful, Vetting;
    ClientStepsKeepTheHelper(stock, sys, DoRequesting(sys, request));
  }

  lemma TransmittingKeepsFlow(stock: Hardware, sys: System, ok: bool, landed: bool)
    requires Flow(sys) && Orderly(sys) && sys.op.Asking?
    ensures Flow(DoTransmitting(sys, ok, landed))
  {
    hide Tells;
    if ok && sys.inputOpen {
      hide Die, Forget;
    } else {
      FollowingAsks(sys);
      hide Following, Orderly;
    }
  }

  lemma FollowingAsks(sys: System)
    requires sys.op.Asking? || sys.op.Resting?
    ensures Following(sys) ==> Quiescent(sys)
  {
  }

  lemma TransmittingKeepsTraffic(stock: Hardware, sys: System, ok: bool, landed: bool)
    requires Invariant(stock, sys) && sys.op.Asking?
    ensures Traffic(DoTransmitting(sys, ok, landed))
  {
    hide Told, Guarded, Faithful, Vetting, Calm, Claims, Silence, Evidenced;
    var next := DoTransmitting(sys, ok, landed);
    assert Flow(next) by { hide Flow; TransmittingKeepsFlow(stock, sys, ok, landed); }
    assert Numbered(next) by { hide Flow; }
    assert Orderly(next) by { hide Flow; }
  }

  lemma TransmittingKeepsSilence(stock: Hardware, sys: System, ok: bool, landed: bool)
    requires Invariant(stock, sys) && sys.op.Asking?
    ensures Silence(DoTransmitting(sys, ok, landed))
  {
    hide Told, Guarded, Faithful, Vetting, Calm, Numbered, Evidenced, Claims, Flow;
  }

  lemma TransmittingKeepsClaims(stock: Hardware, sys: System, ok: bool, landed: bool)
    requires Invariant(stock, sys) && sys.op.Asking?
    ensures Claims(stock, DoTransmitting(sys, ok, landed))
  {
    hide Told, Guarded, Faithful, Vetting, Calm, Numbered, Evidenced, Silence, Flow;
    ClientStepsKeepTheHelper(stock, sys, DoTransmitting(sys, ok, landed));
  }

  lemma TransmittingKeepsEvidence(stock: Hardware, sys: System, ok: bool, landed: bool)
    requires Invariant(stock, sys) && sys.op.Asking?
    ensures Evidenced(stock, DoTransmitting(sys, ok, landed))
  {
    hide Told, Guarded, Faithful, Vetting, Calm, Numbered;
    ClientStepsKeepTheHelper(stock, sys, DoTransmitting(sys, ok, landed));
  }

  lemma TransmittingKeepsTalk(stock: Hardware, sys: System, ok: bool, landed: bool)
    requires Invariant(stock, sys) && sys.op.Asking?
    ensures Talk(stock, DoTransmitting(sys, ok, landed))
  {
    TransmittingKeepsSilence(stock, sys, ok, landed);
    TransmittingKeepsClaims(stock, sys, ok, landed);
    TransmittingKeepsEvidence(stock, sys, ok, landed);
    hide Faithful, Vetting, Traffic, Silence, Claims, Evidenced;
  }

  lemma TransmittingIsSafe(stock: Hardware, sys: System, ok: bool, landed: bool)
    requires Invariant(stock, sys) && sys.op.Asking?
    ensures Invariant(stock, DoTransmitting(sys, ok, landed))
  {
    TransmittingKeepsTraffic(stock, sys, ok, landed);
    TransmittingKeepsTalk(stock, sys, ok, landed);
    hide Talk, Traffic, Faithful, Vetting;
    ClientStepsKeepTheHelper(stock, sys, DoTransmitting(sys, ok, landed));
  }

  lemma GivingUpIsSafe(stock: Hardware, sys: System, inputOpen: bool)
    requires Invariant(stock, sys) && sys.op.Waiting?
    requires sys.client.dead || (sys.client.closed && sys.op.request.Close?)
    ensures Invariant(stock, GiveUp(sys, inputOpen))
  {
    hide Told, Guarded, Faithful, Vetting, Calm;
    var next := GiveUp(sys, inputOpen);
    ClientStepsKeepTheHelper(stock, sys, next);
    assert Claims(stock, next) by { hide Numbered, Evidenced; }
    assert Flow(next) by { hide Claims, Silence, Evidenced; }
    assert Numbered(next) by { hide Claims, Silence, Flow, Evidenced; }
    assert Orderly(next) by { hide Claims, Silence, Flow, Evidenced; }
  }

  lemma BrokenMeansDead(stock: Hardware, sys: System)
    requires Invariant(stock, sys) && sys.op.Waiting? && Serial(sys.op.id) in sys.client.inbox
    ensures sys.client.inbox[Serial(sys.op.id)].Broken? ==> sys.client.dead
    ensures sys.op.request.Close? ==> sys.client.closed
  {
    hide Told, Guarded, Faithful, Vetting, Calm, Claims, Silence, Flow, Numbered, Evidenced;
  }

  // The answer in hand is the only thing under way, so the client may rest.
  lemma AnsweredIsSafe(stock: Hardware, sys: System, client: Client, admitted: bool)
    requires Invariant(stock, sys) && Answered(sys)
    requires client == sys.client.(transaction := client.transaction, closed := client.closed)
    requires client.transaction == sys.client.transaction || client.transaction.Some?
             || Tells(sys.client.inbox[Serial(sys.op.id)].message.body)
    requires sys.op.request.Begin? && !sys.client.dead ==>
      client.transaction.Some? || !sys.client.inbox[Serial(sys.op.id)].message.body.Running?
    requires admitted ==> sys.admitted || sys.client.inbox[Serial(sys.op.id)].message.body.Capabilities?
    requires sys.admitted ==> admitted
    ensures Invariant(stock, sys.(op := Resting, client := client, admitted := admitted))
  {
    hide Told, Guarded, Faithful, Vetting, Calm;
    var next := sys.(op := Resting, client := client, admitted := admitted);
    ClientStepsKeepTheHelper(stock, sys, next);
    assert Silence(next) by { hide Claims, Numbered, Evidenced, Orderly; }
    assert Claims(stock, next) by { hide Numbered, Evidenced, Orderly; }
    assert Flow(next) by { hide Claims, Silence, Evidenced, Numbered; }
    assert Numbered(next) by { hide Claims, Silence, Flow, Evidenced; }
    assert Orderly(next) by { hide Claims, Silence, Flow, Evidenced; }
    assert Evidenced(stock, next) by { hide Silence, Flow; }
  }

  lemma CompletingIsSafe(stock: Hardware, sys: System)
    requires Invariant(stock, sys) && sys.op.Waiting? && Serial(sys.op.id) in sys.client.inbox
    ensures Invariant(stock, DoCompleting(sys))
  {
    BrokenMeansDead(stock, sys);
    hide Invariant;
    match sys.client.inbox[Serial(sys.op.id)]
    case Broken => GivingUpIsSafe(stock, sys, sys.inputOpen && !sys.op.request.Close?);
    case Answer(message) =>
      if sys.op.request.Close? && !message.body.RollbackIncomplete? {
        GivingUpIsSafe(stock, sys, false);
      } else {
        AnsweredIsSafe(stock, sys, AfterAnswer(sys.client, sys.op.request, message.body),
                       sys.admitted || (sys.op.request.Probe? && message.body.Capabilities?));
      }
  }

  lemma AbandoningKeepsFlow(sys: System)
    requires Traffic(sys) && sys.op.Waiting?
    ensures Flow(DoAbandoning(sys))
  {
    hide Numbered;
  }

  lemma AbandoningKeepsNumbered(sys: System)
    requires Traffic(sys) && sys.op.Waiting?
    ensures Numbered(DoAbandoning(sys))
  {
    hide Flow;
  }

  lemma AbandoningKeepsOrderly(sys: System)
    requires Traffic(sys) && sys.op.Waiting?
    ensures Orderly(DoAbandoning(sys))
  {
    hide Flow;
  }

  lemma AbandoningKeepsTraffic(stock: Hardware, sys: System)
    requires Invariant(stock, sys) && sys.op.Waiting?
    ensures Traffic(DoAbandoning(sys))
  {
    hide Faithful, Vetting, Talk, Flow, Numbered, Orderly;
    AbandoningKeepsFlow(sys);
    AbandoningKeepsNumbered(sys);
    AbandoningKeepsOrderly(sys);
  }

  lemma AbandoningKeepsTalk(stock: Hardware, sys: System)
    requires Invariant(stock, sys) && sys.op.Waiting?
    ensures Talk(stock, DoAbandoning(sys))
  {
    hide Told, Guarded, Faithful, Vetting, Calm;
    var next := DoAbandoning(sys);
    ClientStepsKeepTheHelper(stock, sys, next);
    assert Silence(next) by { hide Claims, Numbered, Evidenced; }
    assert Claims(stock, next) by { hide Numbered, Evidenced; }
    assert Evidenced(stock, next);
  }

  lemma AbandoningIsSafe(stock: Hardware, sys: System)
    requires Invariant(stock, sys) && sys.op.Waiting?
    ensures Invariant(stock, DoAbandoning(sys))
  {
    AbandoningKeepsTraffic(stock, sys);
    AbandoningKeepsTalk(stock, sys);
    hide Talk, Traffic, Faithful, Vetting;
    ClientStepsKeepTheHelper(stock, sys, DoAbandoning(sys));
  }

  lemma ClosingQuietlyKeepsFlow(sys: System, ok: bool, landed: bool)
    requires Traffic(sys) && sys.op.Resting? && !sys.client.closed
    ensures Flow(DoClosingQuietly(sys, ok, landed))
  {
    hide Numbered;
  }

  lemma ClosingQuietlyKeepsNumbered(sys: System, ok: bool, landed: bool)
    requires Traffic(sys) && sys.op.Resting? && !sys.client.closed
    ensures Numbered(DoClosingQuietly(sys, ok, landed))
  {
    hide Flow;
  }

  lemma ClosingQuietlyKeepsOrderly(sys: System, ok: bool, landed: bool)
    requires Traffic(sys) && sys.op.Resting? && !sys.client.closed
    ensures Orderly(DoClosingQuietly(sys, ok, landed))
  {
    hide Flow;
  }

  lemma ClosingQuietlyKeepsTraffic(stock: Hardware, sys: System, ok: bool, landed: bool)
    requires Invariant(stock, sys) && sys.op.Resting? && !sys.client.closed
    ensures Traffic(DoClosingQuietly(sys, ok, landed))
  {
    hide Faithful, Vetting, Talk, Flow, Numbered, Orderly;
    ClosingQuietlyKeepsFlow(sys, ok, landed);
    ClosingQuietlyKeepsNumbered(sys, ok, landed);
    ClosingQuietlyKeepsOrderly(sys, ok, landed);
  }

  lemma ClosingQuietlyKeepsTalk(stock: Hardware, sys: System, ok: bool, landed: bool)
    requires Invariant(stock, sys) && sys.op.Resting? && !sys.client.closed
    ensures Talk(stock, DoClosingQuietly(sys, ok, landed))
  {
    hide Told, Guarded, Faithful, Vetting, Calm;
    var next := DoClosingQuietly(sys, ok, landed);
    ClientStepsKeepTheHelper(stock, sys, next);
    assert Silence(next) by { hide Claims, Numbered, Evidenced; }
    assert Claims(stock, next) by { hide Numbered, Evidenced; }
    assert Evidenced(stock, next);
  }

  lemma ClosingQuietlyIsSafe(stock: Hardware, sys: System, ok: bool, landed: bool)
    requires Invariant(stock, sys) && sys.op.Resting? && !sys.client.closed
    ensures Invariant(stock, DoClosingQuietly(sys, ok, landed))
  {
    ClosingQuietlyKeepsTraffic(stock, sys, ok, landed);
    ClosingQuietlyKeepsTalk(stock, sys, ok, landed);
    hide Talk, Traffic, Faithful, Vetting;
    ClientStepsKeepTheHelper(stock, sys, DoClosingQuietly(sys, ok, landed));
  }

  lemma ClosingLateKeepsFlow(sys: System, ok: bool, landed: bool)
    requires Traffic(sys) && sys.client.dead && !sys.client.closed
    ensures Flow(DoClosingLate(sys, ok, landed))
  {
    hide Numbered;
  }

  lemma ClosingLateKeepsNumbered(sys: System, ok: bool, landed: bool)
    requires Traffic(sys) && sys.client.dead && !sys.client.closed
    ensures Numbered(DoClosingLate(sys, ok, landed))
  {
    hide Flow;
  }

  lemma ClosingLateKeepsOrderly(sys: System, ok: bool, landed: bool)
    requires Traffic(sys) && sys.client.dead && !sys.client.closed
    ensures Orderly(DoClosingLate(sys, ok, landed))
  {
    hide Flow;
  }

  lemma ClosingLateKeepsTraffic(stock: Hardware, sys: System, ok: bool, landed: bool)
    requires Invariant(stock, sys) && sys.client.dead && !sys.client.closed
    ensures Traffic(DoClosingLate(sys, ok, landed))
  {
    hide Faithful, Vetting, Talk, Flow, Numbered, Orderly;
    ClosingLateKeepsFlow(sys, ok, landed);
    ClosingLateKeepsNumbered(sys, ok, landed);
    ClosingLateKeepsOrderly(sys, ok, landed);
  }

  lemma ClosingLateKeepsTalk(stock: Hardware, sys: System, ok: bool, landed: bool)
    requires Invariant(stock, sys) && sys.client.dead && !sys.client.closed
    ensures Talk(stock, DoClosingLate(sys, ok, landed))
  {
    hide Told, Guarded, Faithful, Vetting, Calm;
    var next := DoClosingLate(sys, ok, landed);
    ClientStepsKeepTheHelper(stock, sys, next);
    assert Silence(next) by { hide Claims, Numbered, Evidenced; }
    assert Claims(stock, next) by { hide Numbered, Evidenced; }
    assert Evidenced(stock, next);
  }

  lemma ClosingLateIsSafe(stock: Hardware, sys: System, ok: bool, landed: bool)
    requires Invariant(stock, sys) && sys.client.dead && !sys.client.closed
    ensures Invariant(stock, DoClosingLate(sys, ok, landed))
  {
    ClosingLateKeepsTraffic(stock, sys, ok, landed);
    ClosingLateKeepsTalk(stock, sys, ok, landed);
    hide Talk, Traffic, Faithful, Vetting;
    ClientStepsKeepTheHelper(stock, sys, DoClosingLate(sys, ok, landed));
  }

  lemma RenewalReadingKeepsTraffic(stock: Hardware, sys: System)
    requires Invariant(stock, sys)
    ensures Traffic(sys.(renewal := sys.client.transaction))
  {
    hide Told, Guarded, Faithful, Vetting, Calm, Claims, Silence, Evidenced;
    var next := sys.(renewal := sys.client.transaction);
    assert Flow(next);
    assert Numbered(next) by { hide Flow; }
    assert Orderly(next) by { hide Flow; }
  }

  lemma RenewalReadingKeepsTalk(stock: Hardware, sys: System)
    requires Invariant(stock, sys)
    ensures Talk(stock, sys.(renewal := sys.client.transaction))
  {
    hide Told, Guarded, Faithful, Vetting, Calm;
    var next := sys.(renewal := sys.client.transaction);
    ClientStepsKeepTheHelper(stock, sys, next);
    assert Silence(next) by { hide Claims, Numbered, Evidenced; }
    assert Claims(stock, next) by { hide Numbered, Evidenced; }
    assert Evidenced(stock, next);
  }

  lemma RenewalReadingIsSafe(stock: Hardware, sys: System)
    requires Invariant(stock, sys)
    ensures Invariant(stock, sys.(renewal := sys.client.transaction))
  {
    RenewalReadingKeepsTraffic(stock, sys);
    RenewalReadingKeepsTalk(stock, sys);
    hide Talk, Traffic, Faithful, Vetting;
    ClientStepsKeepTheHelper(stock, sys, sys.(renewal := sys.client.transaction));
  }

  lemma RenewalSentKeepsFlow(sys: System, request: Request, sent: seq<Message<Request>>)
    requires Traffic(sys) && request.Renew?
    requires sent == sys.toHelper || sent == sys.toHelper + [Message(Serial(|sys.asked|), request)]
    ensures Flow(sys.(asked := sys.asked + [request], toHelper := sent, renewal := None))
  {
    hide Numbered;
  }

  lemma RenewalSentKeepsNumbered(sys: System, request: Request, sent: seq<Message<Request>>)
    requires Traffic(sys) && request.Renew?
    requires sent == sys.toHelper || sent == sys.toHelper + [Message(Serial(|sys.asked|), request)]
    ensures Numbered(sys.(asked := sys.asked + [request], toHelper := sent, renewal := None))
  {
    hide Flow;
  }

  lemma RenewalSentKeepsOrderly(sys: System, request: Request, sent: seq<Message<Request>>)
    requires Traffic(sys) && request.Renew?
    requires sent == sys.toHelper || sent == sys.toHelper + [Message(Serial(|sys.asked|), request)]
    ensures Orderly(sys.(asked := sys.asked + [request], toHelper := sent, renewal := None))
  {
    hide Flow;
  }

  lemma RenewalSentKeepsTraffic(stock: Hardware, sys: System, request: Request, sent: seq<Message<Request>>)
    requires Invariant(stock, sys) && request.Renew?
    requires sent == sys.toHelper || sent == sys.toHelper + [Message(Serial(|sys.asked|), request)]
    ensures Traffic(sys.(asked := sys.asked + [request], toHelper := sent, renewal := None))
  {
    hide Faithful, Vetting, Talk, Flow, Numbered, Orderly;
    RenewalSentKeepsFlow(sys, request, sent);
    RenewalSentKeepsNumbered(sys, request, sent);
    RenewalSentKeepsOrderly(sys, request, sent);
  }

  lemma RenewalSentKeepsTalk(stock: Hardware, sys: System, request: Request, sent: seq<Message<Request>>)
    requires Invariant(stock, sys) && request.Renew?
    requires sent == sys.toHelper || sent == sys.toHelper + [Message(Serial(|sys.asked|), request)]
    ensures Talk(stock, sys.(asked := sys.asked + [request], toHelper := sent, renewal := None))
  {
    hide Told, Guarded, Faithful, Vetting, Calm;
    var next := sys.(asked := sys.asked + [request], toHelper := sent, renewal := None);
    ClientStepsKeepTheHelper(stock, sys, next);
    assert Silence(next) by { hide Claims, Numbered, Evidenced, Flow, Orderly; }
    assert Claims(stock, next) by { hide Numbered, Evidenced, Flow, Orderly; }
    assert Evidenced(stock, next) by { hide Claims, Silence, Flow, Numbered; }
  }

  lemma RenewalSentIsSafe(stock: Hardware, sys: System, request: Request, sent: seq<Message<Request>>)
    requires Invariant(stock, sys) && request.Renew?
    requires sent == sys.toHelper || sent == sys.toHelper + [Message(Serial(|sys.asked|), request)]
    ensures Invariant(stock, sys.(asked := sys.asked + [request], toHelper := sent, renewal := None))
  {
    RenewalSentKeepsTraffic(stock, sys, request, sent);
    RenewalSentKeepsTalk(stock, sys, request, sent);
    hide Talk, Traffic, Faithful, Vetting;
    ClientStepsKeepTheHelper(stock, sys, sys.(asked := sys.asked + [request], toHelper := sent, renewal := None));
  }

  lemma RenewalWritingIsSafe(stock: Hardware, sys: System, ok: bool, landed: bool)
    requires Invariant(stock, sys) && sys.renewal.Some?
    ensures Invariant(stock, DoRenewalWriting(sys, ok, landed))
  {
    hide Invariant;
    var request := Renew(sys.renewal.value);
    var message := Message(Serial(|sys.asked|), request);
    var sent := if sys.inputOpen && (ok || landed) then sys.toHelper + [message] else sys.toHelper;
    RenewalSentIsSafe(stock, sys, request, sent);
    if !(sys.inputOpen && ok) {
      DyingIsSafe(stock, sys.(asked := sys.asked + [request], toHelper := sent, renewal := None), false);
    }
  }

  lemma ReaderTakingKeepsFlow(sys: System)
    requires Traffic(sys) && sys.holding.None? && sys.toClient != []
    ensures Flow(DoReaderTaking(sys))
  {
    hide Numbered;
  }

  lemma ReaderTakingKeepsNumbered(sys: System)
    requires Traffic(sys) && sys.holding.None? && sys.toClient != []
    ensures Numbered(DoReaderTaking(sys))
  {
    hide Flow;
  }

  lemma ReaderTakingKeepsOrderly(sys: System)
    requires Traffic(sys) && sys.holding.None? && sys.toClient != []
    ensures Orderly(DoReaderTaking(sys))
  {
    hide Flow;
  }

  lemma ReaderTakingKeepsTraffic(stock: Hardware, sys: System)
    requires Invariant(stock, sys) && sys.holding.None? && sys.toClient != []
    ensures Traffic(DoReaderTaking(sys))
  {
    hide Faithful, Vetting, Talk, Flow, Numbered, Orderly;
    ReaderTakingKeepsFlow(sys);
    ReaderTakingKeepsNumbered(sys);
    ReaderTakingKeepsOrderly(sys);
  }

  lemma ReaderTakingKeepsClaims(stock: Hardware, sys: System)
    requires Invariant(stock, sys) && sys.holding.None? && sys.toClient != []
    ensures Silence(DoReaderTaking(sys)) && Claims(stock, DoReaderTaking(sys))
  {
    hide Told, Guarded, Faithful, Vetting, Calm, Numbered, Evidenced;
    var next := DoReaderTaking(sys);
    ClientStepsKeepTheHelper(stock, sys, next);
    assert Silence(next) by { hide Claims; }
    assert Claims(stock, next);
  }

  lemma ReaderTakingKeepsEvidence(stock: Hardware, sys: System)
    requires Invariant(stock, sys) && sys.holding.None? && sys.toClient != []
    ensures Evidenced(stock, DoReaderTaking(sys))
  {
    hide Told, Guarded, Faithful, Vetting, Calm, Numbered;
    ClientStepsKeepTheHelper(stock, sys, DoReaderTaking(sys));
  }

  lemma ReaderTakingKeepsTalk(stock: Hardware, sys: System)
    requires Invariant(stock, sys) && sys.holding.None? && sys.toClient != []
    ensures Talk(stock, DoReaderTaking(sys))
  {
    ReaderTakingKeepsClaims(stock, sys);
    ReaderTakingKeepsEvidence(stock, sys);
    hide Faithful, Vetting, Traffic, Silence, Claims, Evidenced;
  }

  lemma ReaderTakingIsSafe(stock: Hardware, sys: System)
    requires Invariant(stock, sys) && sys.holding.None? && sys.toClient != []
    ensures Invariant(stock, DoReaderTaking(sys))
  {
    ReaderTakingKeepsTraffic(stock, sys);
    ReaderTakingKeepsTalk(stock, sys);
    hide Talk, Traffic, Faithful, Vetting;
    ClientStepsKeepTheHelper(stock, sys, DoReaderTaking(sys));
  }

  lemma ReaderAnnouncingKeepsFlow(sys: System)
    requires Traffic(sys) && sys.holding.Some?
    ensures Flow(DoReaderAnnouncing(sys))
  {
    hide Numbered, Orderly, Flow;
    FlowIsKept(sys, DoReaderAnnouncing(sys));
  }

  lemma ReaderAnnouncingKeepsNumbered(sys: System)
    requires Traffic(sys) && sys.holding.Some?
    ensures Numbered(DoReaderAnnouncing(sys))
  {
    hide Flow;
  }

  lemma ReaderAnnouncingKeepsOrderly(sys: System)
    requires Traffic(sys) && sys.holding.Some?
    ensures Orderly(DoReaderAnnouncing(sys))
  {
    hide Flow;
  }

  lemma ReaderAnnouncingKeepsTraffic(stock: Hardware, sys: System)
    requires Invariant(stock, sys) && sys.holding.Some?
    ensures Traffic(DoReaderAnnouncing(sys))
  {
    hide Faithful, Vetting, Talk, Flow, Numbered, Orderly;
    ReaderAnnouncingKeepsFlow(sys);
    ReaderAnnouncingKeepsNumbered(sys);
    ReaderAnnouncingKeepsOrderly(sys);
  }

  lemma ReaderAnnouncingKeepsTalk(stock: Hardware, sys: System)
    requires Invariant(stock, sys) && sys.holding.Some?
    ensures Talk(stock, DoReaderAnnouncing(sys))
  {
    hide Told, Guarded, Faithful, Vetting, Calm;
    var next := DoReaderAnnouncing(sys);
    ClientStepsKeepTheHelper(stock, sys, next);
    assert Silence(next) by { hide Claims, Numbered, Evidenced; }
    assert Claims(stock, next) by { hide Numbered, Evidenced; }
    assert Evidenced(stock, next);
  }

  lemma ReaderAnnouncingIsSafe(stock: Hardware, sys: System)
    requires Invariant(stock, sys) && sys.holding.Some?
    ensures Invariant(stock, DoReaderAnnouncing(sys))
  {
    ReaderAnnouncingKeepsTraffic(stock, sys);
    ReaderAnnouncingKeepsTalk(stock, sys);
    hide Talk, Traffic, Faithful, Vetting;
    ClientStepsKeepTheHelper(stock, sys, DoReaderAnnouncing(sys));
  }

  lemma DyingKeepsFlow(sys: System, inputOpen: bool)
    requires Traffic(sys) && (inputOpen ==> sys.inputOpen)
    ensures Flow(sys.(client := Die(sys.client), inputOpen := inputOpen))
  {
    hide Numbered, Orderly, Flow;
    FlowIsKept(sys, sys.(client := Die(sys.client), inputOpen := inputOpen));
  }

  lemma DyingKeepsNumbered(sys: System, inputOpen: bool)
    requires Traffic(sys) && (inputOpen ==> sys.inputOpen)
    ensures Numbered(sys.(client := Die(sys.client), inputOpen := inputOpen))
  {
    hide Flow;
  }

  lemma DyingKeepsOrderly(sys: System, inputOpen: bool)
    requires Traffic(sys) && (inputOpen ==> sys.inputOpen)
    ensures Orderly(sys.(client := Die(sys.client), inputOpen := inputOpen))
  {
    hide Flow;
  }

  lemma DyingKeepsTraffic(stock: Hardware, sys: System, inputOpen: bool)
    requires Invariant(stock, sys) && (inputOpen ==> sys.inputOpen)
    ensures Traffic(sys.(client := Die(sys.client), inputOpen := inputOpen))
  {
    hide Faithful, Vetting, Talk, Flow, Numbered, Orderly;
    DyingKeepsFlow(sys, inputOpen);
    DyingKeepsNumbered(sys, inputOpen);
    DyingKeepsOrderly(sys, inputOpen);
  }

  lemma DyingKeepsClaims(stock: Hardware, sys: System, inputOpen: bool)
    requires Invariant(stock, sys) && (inputOpen ==> sys.inputOpen)
    ensures var next := sys.(client := Die(sys.client), inputOpen := inputOpen);
            Silence(next) && Claims(stock, next)
  {
    hide Told, Guarded, Faithful, Vetting, Calm, Numbered, Evidenced;
    var next := sys.(client := Die(sys.client), inputOpen := inputOpen);
    ClientStepsKeepTheHelper(stock, sys, next);
    assert Silence(next) by { hide Claims; }
    assert Claims(stock, next);
  }

  lemma DyingKeepsEvidence(stock: Hardware, sys: System, inputOpen: bool)
    requires Invariant(stock, sys) && (inputOpen ==> sys.inputOpen)
    ensures Evidenced(stock, sys.(client := Die(sys.client), inputOpen := inputOpen))
  {
    hide Told, Guarded, Faithful, Vetting, Calm, Numbered;
    ClientStepsKeepTheHelper(stock, sys, sys.(client := Die(sys.client), inputOpen := inputOpen));
  }

  lemma DyingKeepsTalk(stock: Hardware, sys: System, inputOpen: bool)
    requires Invariant(stock, sys) && (inputOpen ==> sys.inputOpen)
    ensures Talk(stock, sys.(client := Die(sys.client), inputOpen := inputOpen))
  {
    DyingKeepsClaims(stock, sys, inputOpen);
    DyingKeepsEvidence(stock, sys, inputOpen);
    hide Faithful, Vetting, Traffic, Silence, Claims, Evidenced;
  }

  lemma DyingIsSafe(stock: Hardware, sys: System, inputOpen: bool)
    requires Invariant(stock, sys) && (inputOpen ==> sys.inputOpen)
    ensures Invariant(stock, sys.(client := Die(sys.client), inputOpen := inputOpen))
  {
    DyingKeepsTraffic(stock, sys, inputOpen);
    DyingKeepsTalk(stock, sys, inputOpen);
    hide Talk, Traffic, Faithful, Vetting;
    ClientStepsKeepTheHelper(stock, sys, sys.(client := Die(sys.client), inputOpen := inputOpen));
  }

  lemma AdvancingKeepsFlow(stock: Hardware, sys: System)
    requires Invariant(stock, sys) && sys.helper.Working? && sys.helper.path != []
    ensures Flow(DoAdvancing(sys))
  {
    hide Guarded, Concluded, Stays, Talk, Numbered, Orderly;
  }

  lemma AdvancingKeepsTraffic(stock: Hardware, sys: System)
    requires Invariant(stock, sys) && sys.helper.Working? && sys.helper.path != []
    ensures Traffic(DoAdvancing(sys))
  {
    AdvancingKeepsFlow(stock, sys);
    hide Guarded, Concluded, Stays, Flow, Talk;
    var next := DoAdvancing(sys);
    assert Numbered(next) by { hide Orderly; }
    assert Orderly(next) by { hide Numbered; }
  }

  lemma AdvancingIsSafe(stock: Hardware, sys: System)
    requires Invariant(stock, sys) && sys.helper.Working? && sys.helper.path != []
    ensures Invariant(stock, DoAdvancing(sys))
  {
    AdvancingKeepsTraffic(stock, sys);
    AdvancingKeepsTalk(stock, sys);
    hide Guarded, Concluded, Trails, Talk, Traffic;
  }

  lemma AdvancingKeepsTalk(stock: Hardware, sys: System)
    requires Invariant(stock, sys) && sys.helper.Working? && sys.helper.path != []
    ensures Talk(stock, DoAdvancing(sys))
  {
    hide Guarded, Concluded, Stays, Traffic;
  }

  lemma AnsweringKeepsFlow(stock: Hardware, sys: System)
    requires Invariant(stock, sys) && MayAnswer(sys)
    ensures Flow(DoAnswering(sys))
  {
    hide Guarded, Concluded, Stays, Talk;
  }

  lemma AnsweringKeepsTraffic(stock: Hardware, sys: System)
    requires Invariant(stock, sys) && MayAnswer(sys)
    ensures Traffic(DoAnswering(sys))
  {
    AnsweringKeepsFlow(stock, sys);
    hide Guarded, Concluded, Stays, Flow, Talk;
    var next := DoAnswering(sys);
    assert Numbered(next) by { hide Orderly; }
    assert Orderly(next) by { hide Numbered; }
  }

  lemma AnsweringIsSafe(stock: Hardware, sys: System)
    requires Invariant(stock, sys) && MayAnswer(sys)
    ensures Invariant(stock, DoAnswering(sys))
  {
    AnsweringKeepsTraffic(stock, sys);
    AnsweringKeepsTalk(stock, sys);
    hide Guarded, Concluded, Trails, Talk, Traffic;
    var next := DoAnswering(sys);
    assert Faithful(stock, next);
    assert Vetting(stock, next);
  }

  lemma AnsweringKeepsTalk(stock: Hardware, sys: System)
    requires Invariant(stock, sys) && MayAnswer(sys)
    ensures Talk(stock, DoAnswering(sys))
  {
    hide Guarded, Concluded, Stays;
    var next := DoAnswering(sys);
    assert Silence(next);
    assert Claims(stock, next);
    assert Evidenced(stock, next);
  }

  lemma FinishingIsFaithful(stock: Hardware, sys: System)
    requires Faithful(stock, sys) && Vetting(stock, sys)
    requires sys.helper.Working? && sys.helper.path == [] && sys.helper.replies == []
    ensures var next := DoFinishing(sys);
            Faithful(stock, next) && Vetting(stock, next) && (Calm(stock, sys) ==> Calm(stock, next))
            && (Calm(stock, next) && next.helper.Idling? ==> Calm(stock, sys))
  {
    hide Guarded, Trails, ReplyTold;
  }

  lemma FinishingKeepsTraffic(stock: Hardware, sys: System)
    requires Invariant(stock, sys) && sys.helper.Working? && sys.helper.path == [] && sys.helper.replies == []
    ensures Traffic(DoFinishing(sys))
  {
    hide Told, Guarded, Vetting, Calm, Talk;
    var next := DoFinishing(sys);
    assert Flow(next) by { hide Numbered, Orderly, Faithful; }
    assert Numbered(next) by { hide Flow, Faithful; }
    assert Orderly(next) by { hide Flow, Numbered, Faithful; }
  }

  lemma FinishingKeepsTalk(stock: Hardware, sys: System)
    requires Invariant(stock, sys) && sys.helper.Working? && sys.helper.path == [] && sys.helper.replies == []
    ensures Talk(stock, DoFinishing(sys))
  {
    FinishingIsFaithful(stock, sys);
    hide Told, Guarded, Faithful, Vetting, Calm;
    var next := DoFinishing(sys);
    assert Silence(next) by { hide Claims, Numbered, Evidenced, Flow, Orderly; }
    assert Claims(stock, next) by { hide Numbered, Evidenced, Flow, Orderly; }
    assert Evidenced(stock, next) by { hide Claims, Silence, Flow, Numbered; }
  }

  lemma FinishingIsSafe(stock: Hardware, sys: System)
    requires Invariant(stock, sys) && sys.helper.Working? && sys.helper.path == [] && sys.helper.replies == []
    ensures Invariant(stock, DoFinishing(sys))
  {
    FinishingKeepsTraffic(stock, sys);
    FinishingKeepsTalk(stock, sys);
    hide Talk, Traffic, Faithful, Vetting;
    FinishingIsFaithful(stock, sys);
  }

  lemma CrashingIsSafe(stock: Hardware, sys: System)
    requires Invariant(stock, sys)
    ensures Invariant(stock, DoCrashing(sys))
  {
    hide Guarded, Concluded, Trails;
    var next := DoCrashing(sys);
    assert Faithful(stock, next);
    assert Vetting(stock, next);
    assert Silence(next);
    assert Claims(stock, next);
    assert Flow(next);
    assert Numbered(next);
    assert Orderly(next);
    assert Evidenced(stock, next);
  }

  lemma TurnIsTold(stock: Hardware, sys: System, at: nat, input: Input)
    requires Faithful(stock, sys) && sys.helper.Idling? && (input.LeaseFired? ==> sys.session.lease.Some?)
    ensures var t := Turn(sys.session, at, input, sys.env);
            && Told(stock, sys.session, input, t)
            && sys.session.machine.history <= t.session.machine.history
            && |sys.session.sent| <= |t.session.sent|
            && (var path := Path(sys.session.machine, t.session.machine);
                && (if path == [] then sys.world else path[|path| - 1]) == t.session.machine.world
                && (sys.session.probed && sys.session.active.None? && !IsBegin(input) ==> AllAtStock(stock, path)))
            && (var replies := t.session.sent[|sys.session.sent|..];
                && |replies| <= 1
                && (replies != [] ==> |t.session.sent| == |sys.session.sent| + 1
                                      && replies[0] == t.session.sent[|sys.session.sent|])
                && (replies == [] && t.session.probed ==> sys.session.probed))
  {
    hide Guarded, Concluded, Turn, ReplyTold;
    TurnTold(stock, sys.session, at, input, sys.env);
  }

  // A turn that takes up no begin message leaves a calm system calm.
  lemma TurningIsFaithful(stock: Hardware, sys: System, at: nat, input: Input)
    requires Faithful(stock, sys) && Vetting(stock, sys) && sys.helper.Idling?
    requires input.LeaseFired? ==> sys.session.lease.Some?
    ensures var next := DoTurning(sys, at, input);
            && Faithful(stock, next) && Vetting(stock, next)
            && (sys.vetted && Calm(stock, sys) && !IsBegin(input) ==> Calm(stock, next))
            && (next.helper.replies != [] ==>
                  |next.helper.replies| == 1
                  && ReplyTold(stock, sys.session, input, next.helper.turned, next.helper.replies[0]))
  {
    TurnIsTold(stock, sys, at, input);
    TurningKeepsFaithful(stock, sys, at, input);
    TurningKeepsVetting(stock, sys, at, input);
    CalmTurn(stock, sys, at, input);
    hide Guarded, Turn, ReplyTold, Concluded, Stays, Faithful, Vetting, Calm;
  }

  lemma TurningKeepsFaithful(stock: Hardware, sys: System, at: nat, input: Input)
    requires Faithful(stock, sys) && sys.helper.Idling? && (input.LeaseFired? ==> sys.session.lease.Some?)
    requires Vetting(stock, sys)
    ensures Faithful(stock, DoTurning(sys, at, input))
  {
    var t := Turn(sys.session, at, input, sys.env);
    TurnIsTold(stock, sys, at, input);
    hide Guarded, Turn, Told, AllAtStock, Path;
    assert Took(sys, input, t).helper == Working(input, t, Path(sys.session.machine, t.session.machine),
                                                 t.session.sent[|sys.session.sent|..]);
  }

  lemma TurningKeepsVetting(stock: Hardware, sys: System, at: nat, input: Input)
    requires Faithful(stock, sys) && Vetting(stock, sys) && sys.helper.Idling?
    requires input.LeaseFired? ==> sys.session.lease.Some?
    ensures Vetting(stock, DoTurning(sys, at, input))
  {
    hide Guarded, Turn;
  }

  lemma CalmTurn(stock: Hardware, sys: System, at: nat, input: Input)
    requires Faithful(stock, sys) && Vetting(stock, sys) && sys.helper.Idling?
    requires Told(stock, sys.session, input, Turn(sys.session, at, input, sys.env))
    ensures sys.vetted && Calm(stock, sys) && !IsBegin(input) ==> Calm(stock, DoTurning(sys, at, input))
  {
    hide Guarded, Turn, ReplyTold;
  }

  predicate Taken(sys: System, input: Input) {
    && sys.helper.Idling?
    && (input.LeaseFired? ==> sys.session.lease.Some?)
    && (input.Incoming? ==> sys.toHelper != [] && input.message == sys.toHelper[0])
  }

  lemma TurningKeepsTalk(stock: Hardware, sys: System, at: nat, input: Input)
    requires Invariant(stock, sys) && Taken(sys, input)
    ensures Talk(stock, DoTurning(sys, at, input))
  {
    TurningKeepsClaims(stock, sys, at, input);
    TurningKeepsEvidence(stock, sys, at, input);
    hide Told, Guarded, Faithful, Vetting, Calm, Turn, Claims, Evidenced, Traffic;
  }

  lemma TurningKeepsClaims(stock: Hardware, sys: System, at: nat, input: Input)
    requires Invariant(stock, sys) && Taken(sys, input)
    ensures Claims(stock, DoTurning(sys, at, input))
  {
    if sys.vetted && Assured(stock, sys) {
      AssuredTurn(stock, sys, at, input);
    }
    hide Told, Guarded, Faithful, Vetting, Calm, Turn, Traffic, Evidenced, Silence, Assured;
  }

  lemma AssuredTurn(stock: Hardware, sys: System, at: nat, input: Input)
    requires Faithful(stock, sys) && Vetting(stock, sys) && Taken(sys, input) && sys.vetted && Assured(stock, sys)
    ensures Assured(stock, DoTurning(sys, at, input))
  {
    TurningIsFaithful(stock, sys, at, input);
    hide Told, Guarded, Faithful, Vetting, Calm, Turn;
  }

  lemma TurningKeepsEvidence(stock: Hardware, sys: System, at: nat, input: Input)
    requires Invariant(stock, sys) && Taken(sys, input)
    ensures Evidenced(stock, DoTurning(sys, at, input))
  {
    TurningIsFaithful(stock, sys, at, input);
    if IsBegin(input) && !sys.client.dead {
      BeginsAreAwaited(sys, input);
    }
    hide Told, Guarded, Faithful, Vetting, Calm, Turn, Claims, Silence, Traffic;
  }

  lemma BeginsAreAwaited(sys: System, input: Input)
    requires Traffic(sys) && Taken(sys, input) && IsBegin(input) && !sys.client.dead
    ensures sys.op.Waiting? && sys.op.request.Begin?
  {
    hide Numbered;
  }

  lemma TurningKeepsTraffic(stock: Hardware, sys: System, at: nat, input: Input)
    requires Invariant(stock, sys) && Taken(sys, input)
    ensures Traffic(DoTurning(sys, at, input))
  {
    TurningIsFaithful(stock, sys, at, input);
    hide Told, Guarded, Faithful, Vetting, Calm, Turn, Talk, Flow, Numbered, Orderly;
    TurningKeepsFlow(stock, sys, at, input);
    TurningKeepsNumbered(stock, sys, at, input);
    TurningKeepsOrderly(sys, at, input);
  }

  lemma TurningKeepsOrderly(sys: System, at: nat, input: Input)
    requires Orderly(sys) && sys.helper.Idling?
    ensures Orderly(DoTurning(sys, at, input))
  {
    hide Turn;
  }

  lemma TurningIsSafe(stock: Hardware, sys: System, at: nat, wake: Wake)
    requires Invariant(stock, sys) && Take(sys, wake).Some?
    ensures Invariant(stock, DoTurning(sys, at, Take(sys, wake).value))
  {
    var input := Take(sys, wake).value;
    hide Talk, Traffic, Faithful, Vetting, Turn;
    TurningIsFaithful(stock, sys, at, input);
    TurningKeepsTalk(stock, sys, at, input);
    TurningKeepsTraffic(stock, sys, at, input);
  }

  lemma TurningKeepsFlow(stock: Hardware, sys: System, at: nat, input: Input)
    requires Flow(sys) && sys.helper.Idling? && Faithful(stock, sys)
    requires input.Incoming? ==> sys.toHelper != [] && input.message == sys.toHelper[0]
    ensures Flow(DoTurning(sys, at, input))
  {
    hide Told, Guarded, Faithful, Turn;
    var next := DoTurning(sys, at, input);
    assert forall i :: 0 <= i < |next.toHelper| ==>
      next.toHelper[i] == sys.toHelper[if input.Incoming? then i + 1 else i];
  }

  lemma TurningKeepsNumbered(stock: Hardware, sys: System, at: nat, input: Input)
    requires Numbered(sys) && sys.helper.Idling? && Faithful(stock, sys)
    requires input.Incoming? ==> sys.toHelper != [] && input.message == sys.toHelper[0]
    requires var next := DoTurning(sys, at, input);
             next.helper.replies != [] ==>
               |next.helper.replies| == 1
               && ReplyTold(stock, sys.session, input, next.helper.turned, next.helper.replies[0])
    ensures Numbered(DoTurning(sys, at, input))
  {
    hide Told, Guarded, Faithful, Turn;
    var next := DoTurning(sys, at, input);
    assert forall i :: 0 <= i < |next.toHelper| ==>
      next.toHelper[i] == sys.toHelper[if input.Incoming? then i + 1 else i];
  }

  lemma DoIsSafe(stock: Hardware, sys: System, step: Step)
    requires Invariant(stock, sys)
    ensures Invariant(stock, Do(sys, step))
  {
    hide Invariant;
    if MayStep(sys, step) {
      match step
      case Turning(at, wake) => TurningIsSafe(stock, sys, at, wake);
      case Advancing => AdvancingIsSafe(stock, sys);
      case Answering => AnsweringIsSafe(stock, sys);
      case Finishing => FinishingIsSafe(stock, sys);
      case Crashing => CrashingIsSafe(stock, sys);
      case Requesting(request) => RequestingIsSafe(stock, sys, request);
      case Transmitting(ok, landed) => TransmittingIsSafe(stock, sys, ok, landed);
      case Completing => CompletingIsSafe(stock, sys);
      case Abandoning => AbandoningIsSafe(stock, sys);
      case ClosingQuietly(ok, landed) => ClosingQuietlyIsSafe(stock, sys, ok, landed);
      case ClosingLate(ok, landed) => ClosingLateIsSafe(stock, sys, ok, landed);
      case RenewalReading => RenewalReadingIsSafe(stock, sys);
      case RenewalWriting(ok, landed) => RenewalWritingIsSafe(stock, sys, ok, landed);
      case ReaderTaking => ReaderTakingIsSafe(stock, sys);
      case ReaderAnnouncing => ReaderAnnouncingIsSafe(stock, sys);
      case ReaderFailing => DyingIsSafe(stock, sys, sys.inputOpen);
    }
  }

  lemma {:induction false} EveryRunIsSafe(stock: Hardware, sys: System, steps: seq<Step>)
    requires Invariant(stock, sys)
    ensures Invariant(stock, Evolve(sys, steps))
    decreases |steps|
  {
    hide Invariant, Do;
    if steps != [] {
      DoIsSafe(stock, sys, steps[0]);
      EveryRunIsSafe(stock, Do(sys, steps[0]), steps[1..]);
    }
  }

  // Started from whatever a crash may have left, and after any run.
  ghost predicate Reached(stock: Hardware, sys: System) {
    exists env, cfg, machine, steps ::
      Recoverable(cfg, stock, machine) && sys == Evolve(Launch(env, cfg, machine), steps)
  }

  lemma ReachedIsSafe(stock: Hardware, sys: System)
    requires Reached(stock, sys)
    ensures Invariant(stock, sys)
  {
    var env, cfg, machine, steps :|
      Recoverable(cfg, stock, machine) && sys == Evolve(Launch(env, cfg, machine), steps);
    LaunchIsSafe(stock, env, cfg, machine);
    hide Invariant, Recoverable, Launch;
    EveryRunIsSafe(stock, Launch(env, cfg, machine), steps);
  }

  // Once the handshake has succeeded, a client that believes stock settings restored is right, and so is the event
  // that says the session closed: from then on the hardware is at stock, however the helper died.
  lemma SessionClosedIsTrue(stock: Hardware, sys: System)
    requires Reached(stock, sys) && sys.admitted
    ensures sys.client.lastRollback == Restored || SaysClosed(sys.client) ==> sys.world.hardware == stock
  {
    ReachedIsSafe(stock, sys);
    hide Faithful, Vetting;
  }

  // A revert that succeeds, with or without asking the helper, leaves the hardware at stock.
  lemma RevertIsTrue(stock: Hardware, sys: System)
    requires Reached(stock, sys) && sys.admitted
    ensures sys.op.Resting? && PlanRevert(sys.client).Nothing? ==> sys.world.hardware == stock
    ensures Answered(sys) && sys.client.inbox[Serial(sys.op.id)].message.body.RollbackComplete? ==>
      sys.world.hardware == stock
  {
    ReachedIsSafe(stock, sys);
    hide Faithful, Vetting;
  }

  // Close returns without error only if the helper has exited cleanly, and then the hardware is at stock.
  lemma CloseIsTrue(stock: Hardware, sys: System)
    requires Reached(stock, sys) && sys.admitted && sys.helper == Gone(true)
    ensures sys.world.hardware == stock
  {
    ReachedIsSafe(stock, sys);
    hide Faithful, Talk;
  }

  lemma ReachedStep(stock: Hardware, sys: System, step: Step)
    requires Reached(stock, sys)
    ensures Reached(stock, Do(sys, step))
  {
    var env, cfg, machine, steps :|
      Recoverable(cfg, stock, machine) && sys == Evolve(Launch(env, cfg, machine), steps);
    EvolveOnce(Launch(env, cfg, machine), steps, step);
  }

  lemma {:induction false} EvolveOnce(sys: System, steps: seq<Step>, step: Step)
    ensures Evolve(sys, steps + [step]) == Do(Evolve(sys, steps), step)
    decreases |steps|
  {
    if steps != [] {
      assert (steps + [step])[1..] == steps[1..] + [step];
      EvolveOnce(Do(sys, steps[0]), steps[1..], step);
    } else {
      assert Evolve(Do(sys, step), []) == Do(sys, step);
      assert [step][1..] == [];
    }
  }

  // A request is registered, written and taken up; the turn sends one reply and leaves the world alone.
  lemma ExchangeRuns(stock: Hardware, sys: System, turned: Turned, reply: Message<Reply>) returns (sys1: System)
    requires Reached(stock, sys) && sys.helper.Idling? && sys.toHelper != []
    requires turned == Turn(sys.session, 0, Incoming(sys.toHelper[0]), sys.env)
    requires turned.session.machine.history == sys.session.machine.history
    requires turned.session.sent == sys.session.sent + [reply]
    ensures Reached(stock, sys1)
    ensures sys1 == sys.(toHelper := sys.toHelper[1..], toClient := sys.toClient + [reply], session := turned.session,
                         said := sys.said + [reply],
                         vetted := sys.vetted || reply.body.Capabilities?,
                         astray := turned.session.machine.strays != [],
                         helper := if turned.verdict.Return? then Gone(!turned.verdict.error) else Idling)
  {
    hide Turn, Reached;
    sys1 := Do(sys, Turning(0, ByMessage));
    ReachedStep(stock, sys, Turning(0, ByMessage));
    assert sys1.helper == Working(Incoming(sys.toHelper[0]), turned, [], [reply]);
    ReachedStep(stock, sys1, Answering);
    sys1 := Do(sys1, Answering);
    ReachedStep(stock, sys1, Finishing);
    sys1 := Do(sys1, Finishing);
  }

  // A request is registered and written.
  lemma AskingRuns(stock: Hardware, sys: System, request: Request) returns (sys1: System)
    requires Reached(stock, sys) && MayRequest(sys, request) && request.Hello? && sys.inputOpen
    ensures Reached(stock, sys1)
    ensures var id := |sys.asked|;
            sys1 == sys.(asked := sys.asked + [request], op := Waiting(id, request),
                         client := sys.client.(pending := sys.client.pending + {Serial(id)}),
                         toHelper := sys.toHelper + [Message(Serial(id), request)])
  {
    hide Reached;
    sys1 := Do(sys, Requesting(request));
    ReachedStep(stock, sys, Requesting(request));
    assert sys1 == DoRequesting(sys, request);
    ReachedStep(stock, sys1, Transmitting(true, true));
    sys1 := Do(sys1, Transmitting(true, true));
  }

  // The reader takes a message off the pipe.
  lemma TakingRuns(stock: Hardware, sys: System, message: Message<Reply>) returns (sys1: System)
    requires Reached(stock, sys) && sys.toClient == [message] && sys.holding.None?
    ensures Reached(stock, sys1)
    ensures var (client, solicited) := Receive(sys.client, message);
            sys1 == sys.(client := client, toClient := [], holding := if solicited then None else Some(message))
  {
    hide Reached;
    ReachedStep(stock, sys, ReaderTaking);
    sys1 := Do(sys, ReaderTaking);
    assert sys1 == DoReaderTaking(sys);
  }

  lemma GreetingTurn(s: Session, env: Environment)
    requires !s.greeted && s.seen == {} && env.oracle(s.machine.clock).ok
    ensures Turn(s, 0, Incoming(Message(Serial(0), Hello)), env)
            == Turned(s.(now := 0, seen := {Serial(0)}, greeted := true, machine := Call(s.machine),
                         sent := s.sent + [Message(Serial(0), Ready)]), Continue)
  {
    assert {} + {Serial(0)} == {Serial(0)};
  }

  // The answer to a greeting is taken up.
  lemma GreetingEnds(stock: Hardware, sys: System) returns (sys1: System)
    requires Reached(stock, sys) && sys.op == Waiting(0, Hello) && sys.toClient == [Message(Serial(0), Ready)]
    requires sys.holding.None? && sys.client == Connect().(pending := {Serial(0)})
    ensures Reached(stock, sys1)
    ensures sys1 == sys.(op := Resting, toClient := [], client := Receive(sys.client, sys.toClient[0]).0)
  {
    hide Reached;
    var sys0 := TakingRuns(stock, sys, Message(Serial(0), Ready));
    ReachedStep(stock, sys0, Completing);
    sys1 := Do(sys0, Completing);
    assert sys1 == DoCompleting(sys0);
  }

  // A client asks for a greeting, and takes the helper's word for it.
  lemma GreetingRuns(stock: Hardware, env: Environment, cfg: Config, machine: Machine) returns (sys: System)
    requires Recoverable(cfg, stock, machine) && env.oracle(machine.clock).ok
    ensures Reached(stock, sys) && sys.world == machine.world && sys.env == env && !sys.admitted
    ensures sys.helper.Idling? && sys.session.greeted && sys.session.active.None?
    ensures sys.session.seen == {Serial(0)} && sys.session.machine == Call(machine)
    ensures sys.toHelper == [] && sys.inputOpen && sys.toClient == [] && sys.op.Resting? && |sys.asked| == 1
    ensures sys.holding.None? && !sys.client.closed && !sys.client.dead && sys.client.pending == {}
    ensures sys.client.lastRollback == Unknown && sys.client.transaction.None? && sys.client.queue == []
  {
    sys := Launch(env, cfg, machine);
    assert Reached(stock, sys) by { assert Evolve(sys, []) == sys; }
    hide Reached, Recoverable, Do;
    sys := AskingRuns(stock, sys, Hello);
    GreetingTurn(sys.session, env);
    hide Turn;
    sys := ExchangeRuns(stock, sys, Turn(sys.session, 0, Incoming(sys.toHelper[0]), env), Message(Serial(0), Ready));
    sys := GreetingEnds(stock, sys);
  }

  lemma ClosingTurn(s: Session, env: Environment)
    requires s.greeted && s.active.None? && s.seen == {Serial(0)} && env.oracle(s.machine.clock).ok
    ensures var t := Turn(s, 0, Incoming(Message(Serial(1), Close)), env);
            t.verdict == Return(false) && t.session.sent == s.sent + [Message(Serial(1), RollbackComplete)]
            && t.session.machine == Call(s.machine)
  {
    hide Rollback;
  }

  // The unsolicited news is announced, and the end of the pipe ends the stream.
  lemma EndingRuns(stock: Hardware, sys: System, message: Message<Reply>) returns (sys1: System)
    requires Reached(stock, sys) && sys.toClient == [message] && sys.holding.None? && message.body.RollbackComplete?
    requires message.id !in sys.client.pending && !sys.client.dead && sys.client.queue == []
    ensures Reached(stock, sys1) && SaysClosed(sys1.client)
    ensures sys1.helper == sys.helper && sys1.world == sys.world && sys1.admitted == sys.admitted
  {
    hide Reached;
    sys1 := TakingRuns(stock, sys, message);
    ReachedStep(stock, sys1, ReaderAnnouncing);
    sys1 := Do(sys1, ReaderAnnouncing);
    ReachedStep(stock, sys1, ReaderFailing);
    sys1 := Do(sys1, ReaderFailing);
  }

  lemma ClosingRuns(stock: Hardware, sys: System) returns (sys1: System)
    requires Reached(stock, sys) && sys.op.Resting? && !sys.client.closed
    ensures Reached(stock, sys1) && sys1 == DoClosingQuietly(sys, true, true)
  {
    hide Reached;
    ReachedStep(stock, sys, ClosingQuietly(true, true));
    sys1 := Do(sys, ClosingQuietly(true, true));
  }

  // Without a successful handshake the claim can be false: a client that only greets a helper started over the
  // leftovers of a crash, and then closes, is told that stock settings are restored when they are not.
  lemma UnvettedClaimIsFalse(stock: Hardware, env: Environment, cfg: Config, machine: Machine) returns (sys: System)
    requires Recoverable(cfg, stock, machine) && machine.world.hardware != stock
    requires env.oracle(machine.clock).ok && env.oracle(machine.clock + 1).ok
    ensures Reached(stock, sys) && !sys.admitted
    ensures SaysClosed(sys.client) && sys.helper == Gone(true) && sys.world.hardware != stock
  {
    sys := GreetingRuns(stock, env, cfg, machine);
    hide Reached, Recoverable, Do;
    var middle := ClosingRuns(stock, sys);
    ClosingTurn(middle.session, env);
    hide Turn;
    var last := Message(Serial(1), RollbackComplete);
    sys := ExchangeRuns(stock, middle, Turn(middle.session, 0, Incoming(middle.toHelper[0]), env), last);
    sys := EndingRuns(stock, sys, last);
  }

  // Such leftovers exist.
  lemma LeftoversExist() returns (stock: Hardware, cfg: Config, machine: Machine)
    ensures Recoverable(cfg, stock, machine) && machine.world.hardware != stock
  {
    stock := map["turbo" := 0];
    var record := Record(RECOVERY_PROTOCOL, "m", "b", 0, Phase.Active, [Entry("d", "turbo", 0, true)]);
    machine := Machine(World(map["turbo" := 1], Some(record)), 0, [], [], [], []);
    cfg := Config("m", "b", {"d"}, c => 0, (c, v) => 0, c => true);
    assert machine.world.hardware["turbo"] != stock["turbo"];
    assert Flagged(record.entries, "turbo") by { assert record.entries[0].applied; }
  }
}

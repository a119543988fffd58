// The number under which a client renews: it is one the helper has acknowledged, and while its transaction is leased,
// the one that keeps it so.
module SystemRenewals {
  import opened Wrappers
  import opened Model
  import opened Validate
  import opened Recovery
  import opened TransactionSpec
  import opened TransactionSafety
  import opened SessionSpec
  import opened SessionLaws
  import opened SessionReplies
  import opened ClientSpec
  import opened SystemSpec
  import opened SystemSafety
  import opened SystemLives

  // --- One turn of the helper ---

  predicate Completes(input: Input, s: Session, s1: Session) {
    input.Incoming? && input.message.body.Revert?
    && s1.sent == s.sent + [Message(input.message.id, RollbackComplete)]
  }

  predicate Announces(before: seq<Message<Reply>>, sent: seq<Message<Reply>>, transaction: nat) {
    |sent| == |before| + 1 && sent[|before|].body.Running? && sent[|before|].body.transaction == transaction
  }

  // A turn that goes on keeps the transaction outstanding, unless it answers a revert; a new one answers a begin
  // message; what is announced as running is outstanding; and a renewal is not answered.
  ghost predicate Carried(s: Session, input: Input, t: Turned) {
    t.verdict.Continue? ==>
      && (s.active.Some? && t.session.active.Some? ==> t.session.active.value.id == s.active.value.id)
      && (s.active.Some? && t.session.active.None? ==> Completes(input, s, t.session))
      && (s.active.None? && t.session.active.Some? ==> IsBegin(input))
      && (forall n: nat :: Announces(s.sent, t.session.sent, n) ==>
            t.session.active.Some? && t.session.active.value.id == n && IsBegin(input))
      && (t.session.sent == s.sent
          || (|t.session.sent| == |s.sent| + 1
              && t.session.sent[|s.sent|].id == if IsRequest(input) then input.message.id else LEASE_ID))
  }

  lemma RollingBackCarries(s: Session, env: Environment)
    ensures var (s1, ok, failure) := RollbackActive(s, env);
            && s1.sent == s.sent && (ok <==> s1.active.None?)
            && (s1.active.Some? ==> s.active.Some? && s1.active.value.id == s.active.value.id)
  {
    if s.active.Some? {
      RollbackKeepsId(s.cfg, s.machine, s.active.value, env.oracle);
    }
  }

  lemma AppliedCarries(s: Session, input: Input, a: Applied, env: Environment)
    requires IsBegin(input) && s.active.None?
    ensures Carried(s, input, OnApplied(s, input.message.id, a, env))
  {
    hide RollbackActive;
  }

  lemma BeginCarries(s: Session, input: Input, env: Environment)
    requires IsBegin(input) && s.active.None?
    ensures Carried(s, input, OnBegin(s, input.message.id, input.message.body.changes, env))
  {
    var (s1, survey) := Discover(s, env);
    var changes := input.message.body.changes;
    if survey.ok && s1.capabilities.generation == changes.generation && s1.capabilities.machine == changes.machine {
      AppliedCarries(s1, input, Apply(s1.cfg, s1.capabilities, s1.machine, changes,
                                      env.freshId(s1.machine.clock), env.oracle), env);
    }
    hide Apply, OnApplied;
  }

  lemma ProbeCarries(s: Session, input: Input, env: Environment)
    requires IsRequest(input) && s.active.None?
    ensures Carried(s, input, OnProbe(s, input.message.id, env))
    ensures OnProbe(s, input.message.id, env).verdict.Continue? ==>
              OnProbe(s, input.message.id, env).session.active.None?
  {
    hide Recover;
  }

  lemma RestoreCarries(s: Session, input: Input, closing: bool, env: Environment)
    requires input.Incoming? && (if closing then input.message.body.Close? else input.message.body.Revert?)
    ensures Carried(s, input, OnRestore(s, input.message.id, closing, env))
  {
    RollingBackCarries(s, env);
    var (s1, ok, failure) := RollbackActive(s, env);
    var t := OnRestore(s, input.message.id, closing, env);
    assert t.verdict.Continue? ==> t.session.sent == s.sent + [Message(input.message.id, RollbackReply(ok, failure))];
    hide RollbackActive;
  }

  lemma TurnIsCarried(s: Session, at: nat, input: Input, env: Environment)
    requires input.LeaseFired? ==> s.lease.Some?
    ensures Carried(s, input, Turn(s, at, input, env))
  {
    var s1 := s.(now := at);
    RollingBackCarries(s1, env);
    hide OnProbe, OnBegin, OnRestore, RollbackActive;
    match input
    case Incoming(message) =>
      var s2 := s1.(seen := s1.seen + {message.id});
      match message.body {
        case Probe => if s.active.None? { ProbeCarries(s2, input, env); }
        case Begin(_) => if s.active.None? { BeginCarries(s2, input, env); }
        case Revert => RestoreCarries(s2, input, false, env);
        case Close => RestoreCarries(s2, input, true, env);
        case _ =>
      }
    case _ =>
  }

  // --- What has been heard ---

  ghost predicate Acknowledged(said: seq<Message<Reply>>, transaction: nat) {
    exists i :: 0 <= i < |said| && said[i].body.Running? && said[i].body.transaction == transaction
  }

  // All the client has been told, and the number it holds.
  ghost predicate Hears(c: Client, said: seq<Message<Reply>>) {
    && (forall id :: id in c.inbox && c.inbox[id].Answer? ==> c.inbox[id].message in said)
    && (c.transaction.Some? ==> Acknowledged(said, c.transaction.value))
  }

  // Whatever reaches the client has been said by the helper.
  ghost predicate Heard(sys: System) {
    (forall i :: 0 <= i < |sys.toClient| ==> sys.toClient[i] in sys.said) && Hears(sys.client, sys.said)
  }

  lemma MoreIsSaid(said: seq<Message<Reply>>, reply: Message<Reply>, transaction: nat)
    requires Acknowledged(said, transaction)
    ensures Acknowledged(said + [reply], transaction)
  {
    var i :| 0 <= i < |said| && said[i].body.Running? && said[i].body.transaction == transaction;
    assert (said + [reply])[i] == said[i];
  }

  lemma AnsweringIsHeard(sys: System)
    requires Heard(sys) && MayAnswer(sys)
    ensures Heard(DoAnswering(sys))
  {
    if sys.client.transaction.Some? {
      MoreIsSaid(sys.said, sys.helper.replies[0], sys.client.transaction.value);
    }
    hide Acknowledged;
  }

  lemma OwnStepsAreHeard(c: Client, id: RequestId, begins: bool, message: Message<Reply>, said: seq<Message<Reply>>)
    requires Hears(c, said)
    ensures Hears(Die(c), said) && Hears(Forget(c, id), said) && Hears(Register(c, id, begins).0, said)
    ensures Hears(c.(closed := true), said) && Hears(c.(closed := false), said)
    ensures Hears(Announce(c, message), said) && Hears(Reverted(c), said)
    ensures message in said ==> Hears(Receive(c, message).0, said)
  {
    hide Acknowledged, Enqueue, EvidenceOf;
  }

  lemma AnswersAreHeard(c: Client, request: Request, reply: Message<Reply>, said: seq<Message<Reply>>)
    requires Hears(c, said) && reply in said
    ensures Hears(AfterAnswer(c, request, reply.body), said)
  {
    var i :| 0 <= i < |said| && said[i] == reply;
    assert reply.body.Running? ==> Acknowledged(said, reply.body.transaction);
    hide Acknowledged;
  }

  lemma CompletingIsHeard(sys: System)
    requires Heard(sys) && sys.op.Waiting? && Serial(sys.op.id) in sys.client.inbox
    ensures Heard(DoCompleting(sys))
  {
    match sys.client.inbox[Serial(sys.op.id)]
    case Broken =>
    case Answer(message) =>
      AnswersAreHeard(sys.client, sys.op.request, message, sys.said);
      hide Hears, AfterAnswer;
  }

  lemma TransmittingIsHeard(sys: System, ok: bool, landed: bool)
    requires Heard(sys) && sys.op.Asking?
    ensures Heard(DoTransmitting(sys, ok, landed))
  {
    var none, id := Message(Serial(0), Ready), Serial(sys.op.id);
    OwnStepsAreHeard(sys.client, id, false, none, sys.said);
    OwnStepsAreHeard(Forget(sys.client, id), id, false, none, sys.said);
    hide Hears, Die, Forget;
  }

  lemma AbandoningIsHeard(sys: System)
    requires Heard(sys) && sys.op.Waiting?
    ensures Heard(DoAbandoning(sys))
  {
    var none, id := Message(Serial(0), Ready), Serial(sys.op.id);
    OwnStepsAreHeard(sys.client, id, false, none, sys.said);
    OwnStepsAreHeard(Forget(sys.client, id), id, false, none, sys.said);
    hide Hears, Die, Forget;
  }

  lemma RequestingIsHeard(sys: System, request: Request)
    requires Heard(sys)
    ensures Heard(DoRequesting(sys, request))
  {
    var none, id := Message(Serial(0), Ready), Serial(|sys.asked|);
    var client := Register(sys.client, id, Begins(request)).0;
    OwnStepsAreHeard(sys.client, id, Begins(request), none, sys.said);
    OwnStepsAreHeard(client, id, false, none, sys.said);
    hide Hears, Register;
  }

  lemma RequestsAreHeard(sys: System, step: Step)
    requires Heard(sys) && Requests(step) && MayStep(sys, step)
    ensures Heard(Do(sys, step))
  {
    hide Heard, DoRequesting, DoTransmitting, DoCompleting, DoAbandoning, MayRequest;
    match step
    case Requesting(request) => RequestingIsHeard(sys, request);
    case Transmitting(ok, landed) => TransmittingIsHeard(sys, ok, landed);
    case Completing => CompletingIsHeard(sys);
    case Abandoning => AbandoningIsHeard(sys);
  }

  lemma DoIsHeard(sys: System, step: Step)
    requires Heard(sys)
    ensures Heard(Do(sys, step))
  {
    hide Turn, DoAnswering, DoTurning, Take;
    if MayStep(sys, step) {
      if Requests(step) {
        RequestsAreHeard(sys, step);
      } else if step.Answering? {
        AnsweringIsHeard(sys);
      } else {
        var message := if step.ReaderTaking? then sys.toClient[0]
                       else if step.ReaderAnnouncing? then sys.holding.value else Message(Serial(0), Ready);
        OwnStepsAreHeard(sys.client, Serial(0), false, message, sys.said);
        DoTurningIsSilent(sys, step);
        hide Hears, Die, Forget, Register, Receive, Announce;
      }
    }
  }

  lemma DoTurningIsSilent(sys: System, step: Step)
    requires MayStep(sys, step)
    ensures step.Turning? ==> var next := Do(sys, step);
              next.toClient == sys.toClient && next.client == sys.client && next.said == sys.said
  {
    hide Turn;
  }

  // --- What the number is good for ---

  // The session as the turn in progress will leave it.
  function Ahead(sys: System): Session { if sys.helper.Working? then sys.helper.turned.session else sys.session }

  // An answer to the request in progress, wherever it has got to.
  predicate Underway(sys: System, reply: Message<Reply>) {
    && sys.op.Waiting? && reply.id == Serial(sys.op.id)
    && ((sys.helper.Working? && reply in sys.helper.replies) || reply in sys.toClient
        || (reply.id in sys.client.inbox && sys.client.inbox[reply.id] == Answer(reply)))
  }

  predicate IsCurrent(s: Session, transaction: nat) { s.active.Some? && s.active.value.id == transaction }

  ghost predicate Reverting(sys: System) {
    && sys.op.Waiting? && sys.op.request.Revert? && Ahead(sys).active.None?
    && Underway(sys, Message(Serial(sys.op.id), RollbackComplete))
  }

  // The number the client holds is that of the transaction outstanding, or is about to be given up; and one that is
  // about to be taken up is current.
  ghost predicate Matched(sys: System) {
    && (sys.helper.Working? ==> Carried(sys.session, sys.helper.input, sys.helper.turned))
    && (!Doomed(sys.helper) && !sys.client.dead ==>
          && (sys.client.transaction.Some? ==>
                IsCurrent(Ahead(sys), sys.client.transaction.value) || Reverting(sys))
          && (forall reply :: Underway(sys, reply) && reply.body.Running? ==>
                IsCurrent(Ahead(sys), reply.body.transaction)))
  }

  // While both ends live, an answer under way means that no further request is.
  lemma AnswersComeAlone(sys: System, reply: Message<Reply>)
    requires Traffic(sys) && sys.helper.Idling? && !sys.client.dead && Underway(sys, reply)
    ensures NoRequests(sys.toHelper)
  {
    hide Numbered, LeaseIsQuiet;
  }

  // A request taken up by the helper is the one in progress.
  lemma RequestsAreCurrent(sys: System, input: Input)
    requires Traffic(sys) && Taken(sys, input) && IsRequest(input) && !sys.client.dead
    ensures Current(sys.op, input.message.id) && sys.op.request == input.message.body
    ensures sys.op.Abandoned? ==> sys.op.request.Close?
  {
    hide Numbered, LeaseIsQuiet;
  }

  lemma TurningIsMatched(stock: Hardware, sys: System, at: nat, input: Input)
    requires Invariant(stock, sys) && Matched(sys) && Taken(sys, input)
    ensures Matched(DoTurning(sys, at, input))
  {
    var t := Turn(sys.session, at, input, sys.env);
    var next := DoTurning(sys, at, input);
    TurnIsCarried(sys.session, at, input, sys.env);
    TurnIsTold(stock, sys, at, input);
    if IsRequest(input) && !sys.client.dead {
      RequestsAreCurrent(sys, input);
    }
    assert next.helper.replies == t.session.sent[|sys.session.sent|..];
    hide Turn, Told, Faithful, Vetting, Talk, Traffic;
    if !Doomed(next.helper) && !sys.client.dead {
      if exists reply :: Underway(sys, reply) {
        var reply :| Underway(sys, reply);
        assert Traffic(sys);
        AnswersComeAlone(sys, reply);
      }
      TurnedIsMatched(sys, input, next);
    }
  }

  lemma TurnedIsMatched(sys: System, input: Input, next: System)
    requires Matched(sys) && Taken(sys, input) && !sys.client.dead && next.client == sys.client
    requires next.op == sys.op && next.toClient == sys.toClient
    requires next.helper.Working? && next.helper.turned.verdict.Continue?
    requires Carried(sys.session, input, next.helper.turned)
    requires |sys.session.sent| <= |next.helper.turned.session.sent|
    requires next.helper.replies == next.helper.turned.session.sent[|sys.session.sent|..]
    requires IsRequest(input) ==> Current(sys.op, input.message.id) && sys.op.request == input.message.body
                                  && (sys.op.Abandoned? ==> sys.op.request.Close?)
    requires IsRequest(input) ==> forall reply :: !Underway(sys, reply)
    ensures sys.client.transaction.Some? ==>
              IsCurrent(Ahead(next), sys.client.transaction.value) || Reverting(next)
    ensures forall reply :: Underway(next, reply) && reply.body.Running? ==>
              IsCurrent(Ahead(next), reply.body.transaction)
  {
    forall reply | Underway(next, reply) && reply.body.Running?
      ensures IsCurrent(Ahead(next), reply.body.transaction)
    {
      if !Underway(sys, reply) {
        assert Announces(sys.session.sent, next.helper.turned.session.sent, reply.body.transaction);
      }
    }
    if sys.client.transaction.Some? && !IsCurrent(Ahead(next), sys.client.transaction.value) {
      assert Underway(next, Message(Serial(next.op.id), RollbackComplete));
    }
  }

  // What is under way changes only as the helper answers and the reader takes.
  lemma HelperStepsAreMatched(sys: System, next: System)
    requires Matched(sys) && next.client == sys.client && next.op == sys.op
    requires Ahead(next) == Ahead(sys) && (next.helper.Working? ==> sys.helper.Working?)
    requires next.helper.Working? ==> next.session == sys.session && next.helper.input == sys.helper.input
                                      && next.helper.turned == sys.helper.turned
    requires !Doomed(next.helper) ==> !Doomed(sys.helper)
    requires forall reply :: Underway(next, reply) <==> Underway(sys, reply)
    ensures Matched(next)
  {
    hide Carried, Underway;
  }

  lemma AdvancingIsMatched(sys: System)
    requires Matched(sys) && sys.helper.Working? && sys.helper.path != []
    ensures Matched(DoAdvancing(sys))
  {
    HelperStepsAreMatched(sys, DoAdvancing(sys));
  }

  lemma AnsweringIsMatched(sys: System)
    requires Matched(sys) && MayAnswer(sys)
    ensures Matched(DoAnswering(sys))
  {
    var reply, replies := sys.helper.replies[0], sys.helper.replies;
    assert forall r :: r in replies <==> r == reply || r in replies[1..];
    HelperStepsAreMatched(sys, DoAnswering(sys));
  }

  lemma FinishingIsMatched(sys: System)
    requires Matched(sys) && sys.helper.Working? && sys.helper.path == [] && sys.helper.replies == []
    ensures Matched(DoFinishing(sys))
  {
    if sys.helper.turned.verdict.Continue? {
      HelperStepsAreMatched(sys, DoFinishing(sys));
    }
  }

  lemma ReaderTakingIsMatched(stock: Hardware, sys: System)
    requires Invariant(stock, sys) && Matched(sys) && sys.toClient != []
    ensures Matched(DoReaderTaking(sys))
  {
    var next, message := DoReaderTaking(sys), sys.toClient[0];
    assert forall r :: r in sys.toClient <==> r == message || r in sys.toClient[1..];
    hide Carried, Faithful, Vetting, Talk, Numbered, LeaseIsQuiet;
    if !Doomed(sys.helper) && !sys.client.dead {
      forall reply | Underway(next, reply)
        ensures Underway(sys, reply)
      {
      }
      if Reverting(sys) {
        assert Underway(next, Message(Serial(sys.op.id), RollbackComplete));
      }
    }
  }

  // Nothing is under way for a request not asked yet.
  lemma RequestingIsMatched(stock: Hardware, sys: System, request: Request)
    requires Invariant(stock, sys) && Matched(sys) && sys.op.Resting?
    ensures Matched(DoRequesting(sys, request))
  {
    hide Carried, Faithful, Vetting, Talk, Traffic;
  }

  lemma TransmittingIsMatched(stock: Hardware, sys: System, ok: bool, landed: bool)
    requires Invariant(stock, sys) && Matched(sys) && sys.op.Asking?
    ensures Matched(DoTransmitting(sys, ok, landed))
  {
    var next := DoTransmitting(sys, ok, landed);
    hide Carried, Faithful, Vetting, Talk, Flow, Orderly;
    if next.op.Waiting? {
      forall reply
        ensures !Underway(next, reply)
      {
      }
    }
  }

  // Once an answer has arrived, it is the only one under way.
  lemma AnsweredOnce(stock: Hardware, sys: System, message: Message<Reply>, reply: Message<Reply>)
    requires Invariant(stock, sys) && Matched(sys) && !Doomed(sys.helper) && !sys.client.dead && sys.op.Waiting?
    requires Serial(sys.op.id) in sys.client.inbox && sys.client.inbox[Serial(sys.op.id)] == Answer(message)
    requires Underway(sys, reply)
    ensures reply == message
  {
    assert Answered(sys);
    assert Quiescent(sys) by { hide Faithful, Vetting, Talk, Numbered, Orderly, LeaseIsQuiet, Quiescent; }
    if sys.helper.Working? && reply in sys.helper.replies {
      assert false;
    }
    hide Invariant, Matched;
  }

  lemma BrokenIsMatched(stock: Hardware, sys: System)
    requires Invariant(stock, sys) && Matched(sys) && sys.op.Waiting? && Serial(sys.op.id) in sys.client.inbox
    requires sys.client.inbox[Serial(sys.op.id)].Broken?
    ensures Matched(DoCompleting(sys))
  {
    hide Carried, Faithful, Vetting, Talk, Flow, Numbered;
  }

  // An answer taken up leaves nothing under way; the number held afterwards is the one announced, none, or as before.
  lemma AnswersAreTakenUp(sys: System, message: Message<Reply>)
    requires sys.op.Waiting? && message.id == Serial(sys.op.id)
    requires message.id in sys.client.inbox && sys.client.inbox[message.id] == Answer(message)
    ensures var next := DoCompleting(sys);
            && !next.op.Waiting? && next.client.dead == sys.client.dead
            && next.helper == sys.helper && next.session == sys.session
            && (next.client.transaction.Some? ==>
                  || (message.body.Running? && next.client.transaction == Some(message.body.transaction))
                  || (next.client.transaction == sys.client.transaction
                      && !(sys.op.request.Revert? && message.body.RollbackComplete?)))
  {
    AnswersAreNoted(sys.client, sys.op.request, message.body);
    hide AfterAnswer;
  }

  lemma AnswersAreNoted(c: Client, request: Request, body: Reply)
    ensures var c1 := AfterAnswer(c, request, body);
            && c1.dead == c.dead
            && (c1.transaction.Some? ==>
                  || (body.Running? && c1.transaction == Some(body.transaction))
                  || (c1.transaction == c.transaction && !(request.Revert? && body.RollbackComplete?)))
  {
  }

  lemma TakenUpIsMatched(sys: System, message: Message<Reply>)
    requires Matched(sys) && sys.op.Waiting? && message.id == Serial(sys.op.id)
    requires message.id in sys.client.inbox && sys.client.inbox[message.id] == Answer(message)
    requires !Doomed(sys.helper) && !sys.client.dead && Reverting(sys) ==> message.body.RollbackComplete?
    ensures Matched(DoCompleting(sys))
  {
    AnswersAreTakenUp(sys, message);
    assert Underway(sys, message);
    hide Carried, DoCompleting;
  }

  lemma CompletingIsMatched(stock: Hardware, sys: System)
    requires Invariant(stock, sys) && Matched(sys) && sys.op.Waiting? && Serial(sys.op.id) in sys.client.inbox
    ensures Matched(DoCompleting(sys))
  {
    match sys.client.inbox[Serial(sys.op.id)]
    case Broken => BrokenIsMatched(stock, sys);
    case Answer(message) =>
      AnswersAreNumbered(sys);
      if !Doomed(sys.helper) && !sys.client.dead && Reverting(sys) {
        AnsweredOnce(stock, sys, message, Message(Serial(sys.op.id), RollbackComplete));
      }
      hide Invariant, Matched;
      TakenUpIsMatched(sys, message);
  }

  lemma AnswersAreNumbered(sys: System)
    requires Traffic(sys)
    ensures forall id :: id in sys.client.inbox && sys.client.inbox[id].Answer? ==>
              sys.client.inbox[id].message.id == id
  {
    hide Flow, Orderly;
  }

  lemma LosingIsMatched(sys: System, next: System)
    requires Matched(sys) && next.client.dead && next.helper == sys.helper && next.session == sys.session
    ensures Matched(next)
  {
    hide Carried;
  }

  lemma ReaderAnnouncingIsMatched(sys: System)
    requires Matched(sys) && sys.holding.Some?
    ensures Matched(DoReaderAnnouncing(sys))
  {
    hide Carried, Enqueue;
    var next := DoReaderAnnouncing(sys);
    assert forall reply :: Underway(next, reply) <==> Underway(sys, reply);
  }

  // Asking to close without waiting, with nothing else in progress, leaves nothing under way.
  lemma ClosingQuietlyIsMatched(sys: System, ok: bool, landed: bool)
    requires Matched(sys) && sys.op.Resting?
    ensures Matched(DoClosingQuietly(sys, ok, landed))
  {
    hide Carried;
  }

  lemma RenewalWritingIsMatched(sys: System, ok: bool, landed: bool)
    requires Matched(sys) && sys.renewal.Some?
    ensures Matched(DoRenewalWriting(sys, ok, landed))
  {
    var next := DoRenewalWriting(sys, ok, landed);
    hide Carried, Die;
    if next.client == sys.client {
      HelperStepsAreMatched(sys, next);
    } else {
      DeadStaysDead(sys.client);
      LosingIsMatched(sys, next);
    }
  }

  lemma DeadStaysDead(c: Client)
    ensures Die(c).dead
  {
  }

  lemma RequestsAreMatched(stock: Hardware, sys: System, step: Step)
    requires Invariant(stock, sys) && Matched(sys) && MayStep(sys, step) && Requests(step)
    ensures Matched(Do(sys, step))
  {
    if sys.op.Waiting? {
      DeadStaysDead(Forget(sys.client, Serial(sys.op.id)));
    }
    hide Invariant, Matched, DoRequesting, DoTransmitting, DoCompleting, Die, Forget;
    match step
    case Requesting(request) => RequestingIsMatched(stock, sys, request);
    case Transmitting(ok, landed) => TransmittingIsMatched(stock, sys, ok, landed);
    case Completing => CompletingIsMatched(stock, sys);
    case Abandoning => LosingIsMatched(sys, DoAbandoning(sys));
  }

  lemma ClientStepsAreMatched(stock: Hardware, sys: System, step: Step)
    requires Invariant(stock, sys) && Matched(sys) && MayStep(sys, step)
    requires !TouchesTheWorld(step) && !step.Answering? && !Requests(step)
    ensures Matched(Do(sys, step))
  {
    DeadStaysDead(sys.client);
    hide Invariant, Matched, DoClosingQuietly, DoRenewalWriting, DoReaderTaking, DoReaderAnnouncing, Die;
    match step
    case ClosingQuietly(ok, landed) => ClosingQuietlyIsMatched(sys, ok, landed);
    case ClosingLate(ok, landed) => LosingIsMatched(sys, DoClosingLate(sys, ok, landed));
    case RenewalReading => ReadingIsMatched(sys);
    case RenewalWriting(ok, landed) => RenewalWritingIsMatched(sys, ok, landed);
    case ReaderTaking => ReaderTakingIsMatched(stock, sys);
    case ReaderAnnouncing => ReaderAnnouncingIsMatched(sys);
    case ReaderFailing => LosingIsMatched(sys, sys.(client := Die(sys.client)));
  }

  lemma ReadingIsMatched(sys: System)
    requires Matched(sys)
    ensures Matched(sys.(renewal := sys.client.transaction))
  {
    HelperStepsAreMatched(sys, sys.(renewal := sys.client.transaction));
  }

  lemma DoIsMatched(stock: Hardware, sys: System, step: Step)
    requires Invariant(stock, sys) && Matched(sys)
    ensures Matched(Do(sys, step))
  {
    hide Invariant, Matched, DoTurning, DoAdvancing, DoAnswering, DoFinishing;
    if MayStep(sys, step) {
      if TouchesTheWorld(step) || step.Answering? {
        match step
        case Turning(at, wake) =>
          assert Taken(sys, Take(sys, wake).value);
          TurningIsMatched(stock, sys, at, Take(sys, wake).value);
        case Advancing => AdvancingIsMatched(sys);
        case Answering => AnsweringIsMatched(sys);
        case Finishing => FinishingIsMatched(sys);
        case Crashing => CrashingIsMatched(sys);
      } else if Requests(step) {
        hide Do, MayStep;
        RequestsAreMatched(stock, sys, step);
      } else {
        hide Do, MayStep;
        ClientStepsAreMatched(stock, sys, step);
      }
    }
  }

  lemma CrashingIsMatched(sys: System)
    requires Matched(sys)
    ensures Matched(DoCrashing(sys))
  {
  }

  lemma LaunchIsMatched(env: Environment, cfg: Config, machine: Machine)
    ensures var sys := Launch(env, cfg, machine); Matched(sys) && Heard(sys)
  {
  }

  lemma {:induction false} EveryRunIsMatched(stock: Hardware, sys: System, steps: seq<Step>)
    requires Invariant(stock, sys) && Matched(sys) && Heard(sys)
    ensures var end := Evolve(sys, steps); Invariant(stock, end) && Matched(end) && Heard(end)
    decreases |steps|
  {
    if steps != [] {
      hide Invariant, Matched, Heard, Do;
      DoIsSafe(stock, sys, steps[0]);
      DoIsMatched(stock, sys, steps[0]);
      DoIsHeard(sys, steps[0]);
      EveryRunIsMatched(stock, Do(sys, steps[0]), steps[1..]);
    }
  }

  // --- What renewals can rely on ---

  lemma ReachedIsMatched(stock: Hardware, sys: System)
    requires Reached(stock, sys)
    ensures Invariant(stock, sys) && Matched(sys) && Heard(sys)
  {
    var env, cfg, machine, steps :|
      Recoverable(cfg, stock, machine) && sys == Evolve(Launch(env, cfg, machine), steps);
    LaunchIsSafe(stock, env, cfg, machine);
    LaunchIsMatched(env, cfg, machine);
    EveryRunIsMatched(stock, Launch(env, cfg, machine), steps);
  }

  lemma IdlingIsOrdered(stock: Hardware, sys: System)
    requires Invariant(stock, sys) && sys.helper.Idling?
    ensures Ordered(sys.session)
  {
    hide Vetting, Talk, Traffic, Settled, Recoverable;
  }

  // In every reachable state the number a client holds is one the helper has acknowledged; and while the helper's
  // transaction is leased, a renewal under it is taken and gives the lease a full period.
  lemma RenewalsAreTaken(stock: Hardware, sys: System, at: nat, id: RequestId)
    requires Reached(stock, sys) && sys.client.transaction.Some?
    ensures Acknowledged(sys.said, sys.client.transaction.value)
    ensures !sys.client.dead && sys.helper.Idling? && sys.session.lease.Some?
            && id !in sys.session.seen && |sys.session.seen| < REQUEST_LIMIT ==>
              var s := sys.session;
              var t := Turn(s, at, Incoming(Message(id, Renew(sys.client.transaction.value))), sys.env);
              && t.verdict.Continue? && t.session.active == s.active && t.session.machine == s.machine
              && t.session.lease == Some(at + sys.env.leasePeriod)
  {
    ReachedIsMatched(stock, sys);
    RenewalIsTakenIff(sys.session, at, id, sys.client.transaction.value, sys.env);
    if sys.helper.Idling? {
      IdlingIsOrdered(stock, sys);
    }
    hide Turn, Invariant, Reached, Carried, Underway, Acknowledged;
  }

  // A renewal that goes through asks for the transaction the client held when it began to write it.
  lemma RenewalsAreSent(sys: System, landed: bool)
    requires sys.client.transaction.Some? && sys.inputOpen
    ensures var next := Do(Do(sys, RenewalReading), RenewalWriting(true, landed));
            && next.toHelper == sys.toHelper + [Message(Serial(|sys.asked|), Renew(sys.client.transaction.value))]
            && next.client == sys.client
  {
  }

  // A renewal that crosses a revert arrives when nothing is outstanding, and ends the session with an error.
  lemma RenewalAfterRevertIsFatal(s: Session, at: nat, id: RequestId, transaction: nat, env: Environment)
    requires s.active.None?
    ensures var t := Turn(s, at, Incoming(Message(id, Renew(transaction))), env);
            t.verdict == Return(true) && t.session.machine.world == s.machine.world
  {
  }
}

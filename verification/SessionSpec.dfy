// One privileged tuning session as a function of what it reads and of what its backend and its output pipe answer
// (internal/privilege/session/server.go).
module SessionSpec {
  import opened Wrappers
  import opened Model
  import opened Validate
  import opened Recovery
  import opened TransactionSpec

  const REQUEST_LIMIT: nat := 4096

  // Identifiers are only compared; those a client numbers itself never equal one it spells out.
  datatype RequestId = Text(text: string) | Serial(number: nat)

  // The request identifier of the message that reports an expired lease.
  const LEASE_ID: RequestId := Text("lease")

  datatype Request =
    | Hello
    | Probe
    | Begin(changes: ChangeSet)
    | Renew(transaction: nat)
    | Revert
    | Close
    | Other

  datatype Reply =
    | Ready
    | Capabilities(found: CapabilitySet)
    | ReviewChanged(found: CapabilitySet)
    | Running(transaction: nat, effective: map<ControlId, Contents>)
    | Failed
    | RollbackComplete
    | RollbackIncomplete(failure: Option<RollbackFailure>)

  datatype Message<T> = Message(id: RequestId, body: T)

  // Discovery either completes, possibly with driver errors, or is cut short.
  datatype Survey = Survey(found: Option<CapabilitySet>, ok: bool)

  datatype Environment = Environment(
    oracle: Oracle,
    survey: nat -> Survey,
    freshId: nat -> nat,
    leasePeriod: nat)

  datatype Input = Cancelled | LeaseFired | EndOfInput | BrokenInput | Incoming(message: Message<Request>)

  // `attempted`: a rollback of the active transaction has been tried. The last four fields are bookkeeping about
  // the active transaction: when it began, when its lease was last armed, and how often it was renewed.
  datatype Session = Session(
    cfg: Config,
    machine: Machine,
    capabilities: CapabilitySet,
    active: Option<Tx>,
    lease: Option<nat>,
    greeted: bool,
    probed: bool,
    seen: set<RequestId>,
    sent: seq<Message<Reply>>,
    now: nat,
    attempted: bool,
    begunAt: nat,
    armedAt: nat,
    renewals: nat)

  datatype Verdict = Continue | Return(error: bool)

  datatype Turned = Turned(session: Session, verdict: Verdict)

  function Open(cfg: Config, machine: Machine, now: nat): Session {
    Session(cfg, machine, CapabilitySet("", cfg.machine, []), None, None, false, false, {}, [], now,
            false, now, now, 0)
  }

  // A reported write has been delivered; an unreported one may have been all the same.
  function Send(s: Session, id: RequestId, reply: Reply, env: Environment): (Session, bool) {
    var outcome := env.oracle(s.machine.clock);
    var sent := if outcome.ok || outcome.published then s.sent + [Message(id, reply)] else s.sent;
    (s.(machine := Call(s.machine), sent := sent), outcome.ok)
  }

  function Discover(s: Session, env: Environment): (Session, Survey) {
    var survey := env.survey(s.machine.clock);
    (s.(machine := Call(s.machine),
        capabilities := if survey.found.Some? then survey.found.value else s.capabilities),
     if survey.found.Some? then survey else survey.(ok := false))
  }

  // Stops the lease and rolls back whatever is active.
  function RollbackActive(s: Session, env: Environment): (Session, bool, Option<RollbackFailure>) {
    var s1 := s.(lease := None);
    if s.active.None? then (s1, true, None)
    else
      var r := Rollback(s.cfg, s.machine, s.active.value, env.oracle);
      (s1.(machine := r.machine, active := if r.failure.None? then None else Some(r.tx), attempted := true),
       r.failure.None?, r.failure)
  }

  function RollbackReply(ok: bool, failure: Option<RollbackFailure>): Reply {
    if ok then RollbackComplete else RollbackIncomplete(failure)
  }

  function Fatal(s: Session, id: RequestId, env: Environment): Turned {
    var (s1, ok, failure) := RollbackActive(s, env);
    var reply := if s.active.Some? then RollbackReply(ok, failure) else Failed;
    Turned(Send(s1, id, reply, env).0, Return(true))
  }

  function OnLease(s: Session, env: Environment): Turned {
    var (s1, ok, failure) := RollbackActive(s, env);
    var (s2, delivered) := Send(s1, LEASE_ID, RollbackReply(ok, failure), env);
    Turned(s2, if !delivered then Return(true) else if ok then Return(false) else Continue)
  }

  function OnProbe(s: Session, id: RequestId, env: Environment): Turned {
    var (s1, first) := Discover(s, env);
    if !first.ok then Turned(Send(s1, id, RollbackIncomplete(None), env).0, Return(true))
    else OnRecovered(s1, id, Recover(s1.cfg, s1.machine, env.oracle), env)
  }

  function OnRecovered(s: Session, id: RequestId, recovered: Recovered, env: Environment): Turned {
    var s1 := s.(machine := recovered.machine);
    if !recovered.ok || recovered.stale || |recovered.discrepancies| > 0 then
      Turned(Send(s1, id, RollbackIncomplete(None), env).0, Return(true))
    else
      var (s2, second) := Discover(s1, env);
      if !second.ok then Fatal(s2, id, env)
      else
        var (s3, delivered) := Send(s2, id, Capabilities(s2.capabilities), env);
        if !delivered then Turned(s3, Return(true)) else Turned(s3.(probed := true), Continue)
  }

  function OnBegin(s: Session, id: RequestId, changes: ChangeSet, env: Environment): Turned {
    var (s1, survey) := Discover(s, env);
    if !survey.ok then Fatal(s1, id, env)
    else if s1.capabilities.generation != changes.generation || s1.capabilities.machine != changes.machine then
      var (s2, delivered) := Send(s1, id, ReviewChanged(s1.capabilities), env);
      Turned(s2, if delivered then Continue else Return(true))
    else
      var a := Apply(s1.cfg, s1.capabilities, s1.machine, changes, env.freshId(s1.machine.clock), env.oracle);
      OnApplied(s1, id, a, env)
  }

  function FailureOf(error: ApplyError): Option<RollbackFailure> {
    match error
    case Undone(_, failure) => failure
    case _ => None
  }

  function OnApplied(s: Session, id: RequestId, a: Applied, env: Environment): Turned {
    var s1 := s.(machine := a.machine, active := a.active, attempted := a.error.Some?,
                 begunAt := s.now, armedAt := s.now, renewals := 0);
    if a.error.Some? then
      var reply := if a.active.Some? then RollbackIncomplete(FailureOf(a.error.value))
                   else if a.error.value == Invalid(StaleCapabilities) then ReviewChanged(s.capabilities)
                   else Failed;
      var (s2, delivered) := Send(s1, id, reply, env);
      Turned(s2, if delivered then Continue else Return(true))
    else if a.active.None? then Fatal(s1, id, env)
    else
      var s2 := s1.(lease := Some(s.now + env.leasePeriod));
      var (s3, delivered) := Send(s2, id, Running(a.active.value.id, a.active.value.effective), env);
      if delivered then Turned(s3, Continue) else Turned(RollbackActive(s3, env).0, Return(true))
  }

  function OnRestore(s: Session, id: RequestId, closing: bool, env: Environment): Turned {
    var (s1, ok, failure) := RollbackActive(s, env);
    var (s2, delivered) := Send(s1, id, RollbackReply(ok, failure), env);
    Turned(s2, if !delivered then Return(true) else if closing && ok then Return(false) else Continue)
  }

  function OnMessage(s: Session, message: Message<Request>, env: Environment): Turned {
    if message.id in s.seen || |s.seen| >= REQUEST_LIMIT then Fatal(s, message.id, env)
    else Dispatch(s.(seen := s.seen + {message.id}), message, env)
  }

  // An invalid transition is fatal: it rolls back whatever is active and ends the session.
  function Dispatch(s: Session, message: Message<Request>, env: Environment): Turned {
    match message.body
    case Hello => if s.greeted then Fatal(s, message.id, env) else OnHello(s, message.id, env)
    case Probe =>
      if !s.greeted || s.active.Some? then Fatal(s, message.id, env) else OnProbe(s, message.id, env)
    case Begin(changes) =>
      if !s.probed || s.active.Some? then Fatal(s, message.id, env) else OnBegin(s, message.id, changes, env)
    case Renew(transaction) =>
      if s.active.None? || s.lease.None? || transaction != s.active.value.id then Fatal(s, message.id, env)
      else
        Turned(s.(lease := Some(s.now + env.leasePeriod), armedAt := s.now, renewals := s.renewals + 1), Continue)
    case Revert =>
      if !s.greeted || s.active.None? then Fatal(s, message.id, env) else OnRestore(s, message.id, false, env)
    case Close =>
      if !s.greeted then Fatal(s, message.id, env) else OnRestore(s, message.id, true, env)
    case Other => Fatal(s, message.id, env)
  }

  function OnHello(s: Session, id: RequestId, env: Environment): Turned {
    var (s1, delivered) := Send(s.(greeted := true), id, Ready, env);
    Turned(s1, if delivered then Continue else Return(true))
  }

  // One pass of the session's select loop at time `at`.
  function Turn(s: Session, at: nat, input: Input, env: Environment): Turned {
    var s1 := s.(now := at);
    match input
    case Cancelled => Turned(RollbackActive(s1, env).0, Return(true))
    case LeaseFired => OnLease(s1, env)
    case EndOfInput => var (s2, ok, _) := RollbackActive(s1, env); Turned(s2, Return(!ok))
    case BrokenInput => Turned(RollbackActive(s1, env).0, Return(true))
    case Incoming(message) => OnMessage(s1, message, env)
  }

  // Time does not run backwards, nor past an armed deadline without a turn; only an armed lease fires.
  predicate Enabled(s: Session, at: nat, input: Input) {
    && s.now <= at
    && (s.lease.Some? ==> at <= s.lease.value)
    && (input.LeaseFired? ==> s.lease.Some? && at == s.lease.value)
  }

  // The session over a sequence of timed inputs; a branch of the select that is not ready is not taken.
  function Serve(s: Session, inputs: seq<(nat, Input)>, env: Environment): Turned
    decreases |inputs|
  {
    if inputs == [] then Turned(s, Continue)
    else if !Enabled(s, inputs[0].0, inputs[0].1) then Serve(s, inputs[1..], env)
    else
      var turned := Turn(s, inputs[0].0, inputs[0].1, env);
      if turned.verdict.Return? then turned else Serve(turned.session, inputs[1..], env)
  }
}

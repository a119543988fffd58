// What a reply of the session tells its reader about the hardware.
module SessionReplies {
  import opened Wrappers
  import opened Model
  import opened Validate
  import opened Recovery
  import opened TransactionSpec
  import opened TransactionSafety
  import opened TransactionTrails
  import opened SessionSpec
  import opened SessionLaws

  // Replies that, after a successful probe, mean that no transaction is outstanding.
  predicate Tells(reply: Reply) {
    reply.Capabilities? || reply.ReviewChanged? || reply.RollbackComplete? || reply.Failed?
  }

  predicate IsBegin(input: Input) { input.Incoming? && input.message.body.Begin? }

  predicate IsRequest(input: Input) { input.Incoming? && !input.message.body.Renew? }

  predicate AllAtStock(stock: Hardware, path: seq<World>) {
    forall i :: 0 <= i < |path| ==> path[i].hardware == stock
  }

  predicate ReplyTold(stock: Hardware, s: Session, input: Input, t: Turned, reply: Message<Reply>) {
    && (input.Incoming? || input.LeaseFired?)
    && reply.id == (if input.Incoming? then input.message.id else LEASE_ID)
    && (reply.body.Ready? ==> input.Incoming? && input.message.body.Hello?)
    && (Tells(reply.body) && (s.probed || reply.body.Capabilities?) ==>
          t.session.active.None? && t.session.machine.world.hardware == stock)
    && (Tells(reply.body) && !s.probed && !reply.body.Capabilities? ==> t.verdict.Return?)
    && (reply.body.Capabilities? ==> t.session.probed || t.verdict.Return?)
    && (input.LeaseFired? && Tells(reply.body) ==> t.verdict.Return?)
    && (input.Incoming? && input.message.body.Renew? ==> t.verdict.Return?)
  }

  // The turn leaves a trail, which stays at stock unless the turn begins or undoes a transaction.
  ghost predicate Stays(stock: Hardware, s: Session, input: Input, t: Turned) {
    && Trails(s.machine, t.session.machine) && t.session.cfg == s.cfg
    && (s.probed ==> t.session.probed)
    && (s.probed && s.active.None? && !IsBegin(input) ==>
          t.session.active.None? && AllAtStock(stock, Path(s.machine, t.session.machine)))
  }

  // The turn sends one reply, or none.
  predicate Speaks(stock: Hardware, s: Session, input: Input, t: Turned) {
    && (t.session.sent == s.sent
        || (|t.session.sent| == |s.sent| + 1 && t.session.sent[..|s.sent|] == s.sent
            && ReplyTold(stock, s, input, t, t.session.sent[|s.sent|])))
    && (t.session.sent == s.sent ==> t.session.probed == s.probed && (t.verdict.Continue? ==> !IsRequest(input)))
    && (t.session.sent != s.sent && t.session.probed && !s.probed ==> t.session.sent[|s.sent|].body.Capabilities?)
  }

  ghost predicate Told(stock: Hardware, s: Session, input: Input, t: Turned) {
    Concluded(stock, t) && Stays(stock, s, input, t) && Speaks(stock, s, input, t)
  }

  lemma RollbackOfNothing(s: Session, env: Environment)
    requires s.active.None?
    ensures RollbackActive(s, env) == (s.(lease := None), true, None)
  {
  }

  lemma RollbackActiveTrails(s: Session, env: Environment)
    ensures Trails(s.machine, RollbackActive(s, env).0.machine)
    ensures RollbackActive(s, env).0.sent == s.sent && RollbackActive(s, env).0.probed == s.probed
    ensures RollbackActive(s, env).0.cfg == s.cfg
  {
    if s.active.Some? {
      RollbackTrails(s.cfg, s.machine, s.active.value, env.oracle);
    }
  }

  lemma FatalTold(stock: Hardware, s: Session, input: Input, env: Environment)
    requires Guarded(stock, s) && input.Incoming?
    ensures Told(stock, s, input, Fatal(s, input.message.id, env))
  {
    FatalConcludes(stock, s, input.message.id, env);
    RollbackActiveKeeps(stock, s, env);
    RollbackActiveTrails(s, env);
    hide Concluded, RollbackActive;
    var t := Fatal(s, input.message.id, env);
    if s.active.None? {
      RollbackOfNothing(s, env);
    }
    assert Stays(stock, s, input, t) by { hide Speaks, Guarded; }
    assert Speaks(stock, s, input, t) by { hide Trails, Stays; }
  }

  lemma LeaseTold(stock: Hardware, s: Session, env: Environment)
    requires Guarded(stock, s) && s.lease.Some?
    ensures Told(stock, s, LeaseFired, OnLease(s, env))
  {
    LeaseConcludes(stock, s, env);
    RollbackActiveKeeps(stock, s, env);
    RollbackActiveTrails(s, env);
  }

  lemma RestoreTold(stock: Hardware, s: Session, input: Input, closing: bool, env: Environment)
    requires Guarded(stock, s) && IsRequest(input) && (!s.probed ==> closing)
    ensures Told(stock, s, input, OnRestore(s, input.message.id, closing, env))
  {
    RestoreConcludes(stock, s, input.message.id, closing, env);
    RollbackActiveKeeps(stock, s, env);
    RollbackActiveTrails(s, env);
  }

  lemma HelloTold(stock: Hardware, s: Session, input: Input, env: Environment)
    requires Guarded(stock, s) && input.Incoming? && input.message.body.Hello? && !s.greeted
    ensures Told(stock, s, input, OnHello(s, input.message.id, env))
  {
  }

  lemma ProbeTold(stock: Hardware, s: Session, input: Input, env: Environment)
    requires Guarded(stock, s) && IsRequest(input) && !IsBegin(input) && s.greeted && s.active.None?
    ensures Told(stock, s, input, OnProbe(s, input.message.id, env))
  {
    var id := input.message.id;
    ProbeConcludes(stock, s, id, env);
    var (s1, first) := Discover(s, env);
    if first.ok {
      RecoverTrails(s1.cfg, s1.machine, env.oracle);
      if s.probed {
        ProbedRecoveryStays(stock, s1, env);
      } else {
        RecoverRestores(s1.cfg, stock, s1.machine, env.oracle);
      }
      RecoveredTold(stock, s1, input, Recover(s1.cfg, s1.machine, env.oracle), env);
    }
  }

  lemma ProbedRecoveryStays(stock: Hardware, s: Session, env: Environment)
    requires AtRest(s.cfg, stock, s.machine)
    ensures var r := Recover(s.cfg, s.machine, env.oracle);
            && AtRest(s.cfg, stock, r.machine)
            && s.machine.history <= r.machine.history && AllAtStock(stock, Path(s.machine, r.machine))
  {
    RecoverAtRestStaysAtStock(s.cfg, stock, s.machine, env.oracle);
    RecoverAtRest(s.cfg, stock, s.machine, env.oracle);
  }

  lemma RecoveredStays(s: Session, id: RequestId, recovered: Recovered, env: Environment)
    requires s.active.None?
    ensures var s1 := OnRecovered(s, id, recovered, env).session;
            && s1.machine.history == recovered.machine.history && s1.machine.world == recovered.machine.world
            && s1.machine.strays == recovered.machine.strays && s1.cfg == s.cfg
            && s1.active.None? && (s.probed ==> s1.probed)
  {
    RollbackOfNothing(Discover(s.(machine := recovered.machine), env).0, env);
    hide RollbackActive;
  }

  lemma RecoveredTold(stock: Hardware, s: Session, input: Input, recovered: Recovered, env: Environment)
    requires IsRequest(input) && !IsBegin(input) && s.active.None? && Ordered(s)
    requires Concluded(stock, OnRecovered(s, input.message.id, recovered, env))
    requires Trails(s.machine, recovered.machine)
    requires s.probed ==> AllAtStock(stock, Path(s.machine, recovered.machine))
    requires recovered.ok && !recovered.stale ==> recovered.machine.world.hardware == stock
    ensures Told(stock, s, input, OnRecovered(s, input.message.id, recovered, env))
  {
    RecoveredStays(s, input.message.id, recovered, env);
    RecoveredSpeaks(stock, s, input, recovered, env);
    hide Concluded, Speaks, OnRecovered, AllAtStock;
  }

  lemma RecoveredSpeaks(stock: Hardware, s: Session, input: Input, recovered: Recovered, env: Environment)
    requires IsRequest(input) && !IsBegin(input) && s.active.None? && Ordered(s)
    requires recovered.ok && !recovered.stale ==> recovered.machine.world.hardware == stock
    ensures Speaks(stock, s, input, OnRecovered(s, input.message.id, recovered, env))
  {
    RollbackOfNothing(Discover(s.(machine := recovered.machine), env).0, env);
    hide RollbackActive;
  }

  lemma BeginTold(stock: Hardware, s: Session, input: Input, env: Environment)
    requires Guarded(stock, s) && IsBegin(input) && s.probed && s.active.None?
    ensures Told(stock, s, input, OnBegin(s, input.message.id, input.message.body.changes, env))
  {
    var id, changes := input.message.id, input.message.body.changes;
    BeginConcludes(stock, s, id, changes, env);
    var (s1, survey) := Discover(s, env);
    if !survey.ok {
      FatalTold(stock, s1, input, env);
    } else if s1.capabilities.generation == changes.generation && s1.capabilities.machine == changes.machine {
      var tx := env.freshId(s1.machine.clock);
      ApplySettles(s1.cfg, stock, s1.capabilities, s1.machine, changes, tx, env.oracle);
      ApplyTrails(s1.cfg, s1.capabilities, s1.machine, changes, tx, env.oracle);
      AppliedTold(stock, s1, input, Apply(s1.cfg, s1.capabilities, s1.machine, changes, tx, env.oracle), env);
    }
  }

  lemma RefusedTold(stock: Hardware, s: Session, input: Input, a: Applied, env: Environment)
    requires IsBegin(input) && s.probed && a.error.Some? && Trails(s.machine, a.machine)
    requires a.active.None? ==> a.machine.world.hardware == stock
    requires Concluded(stock, OnApplied(s, input.message.id, a, env))
    ensures Told(stock, s, input, OnApplied(s, input.message.id, a, env))
  {
    hide Concluded, Rollback;
  }

  function Started(s: Session, a: Applied, env: Environment): Session
    requires a.active.Some?
  {
    s.(machine := a.machine, active := a.active, attempted := false,
       begunAt := s.now, armedAt := s.now, renewals := 0, lease := Some(s.now + env.leasePeriod))
  }

  lemma RunningStays(stock: Hardware, s: Session, input: Input, a: Applied, env: Environment)
    requires IsBegin(input) && s.probed && a.error.None? && a.active.Some? && Trails(s.machine, a.machine)
    ensures Stays(stock, s, input, OnApplied(s, input.message.id, a, env))
  {
    var s1 := Started(s, a, env);
    var s2 := Send(s1, input.message.id, Running(a.active.value.id, a.active.value.effective), env).0;
    RollbackActiveTrails(s2, env);
    TrailsCompose(s.machine, a.machine, RollbackActive(s2, env).0.machine);
    hide RollbackActive;
  }

  lemma RunningSpeaks(stock: Hardware, s: Session, input: Input, a: Applied, env: Environment)
    requires IsBegin(input) && s.probed && a.error.None? && a.active.Some?
    ensures Speaks(stock, s, input, OnApplied(s, input.message.id, a, env))
  {
    var reply := Running(a.active.value.id, a.active.value.effective);
    var s2 := Send(Started(s, a, env), input.message.id, reply, env).0;
    assert s2.sent == s.sent || s2.sent == s.sent + [Message(input.message.id, reply)];
    RollbackActiveTrails(s2, env);
    hide RollbackActive, Send;
  }

  lemma RunningTold(stock: Hardware, s: Session, input: Input, a: Applied, env: Environment)
    requires IsBegin(input) && s.probed && a.error.None? && a.active.Some? && Trails(s.machine, a.machine)
    requires Concluded(stock, OnApplied(s, input.message.id, a, env))
    ensures Told(stock, s, input, OnApplied(s, input.message.id, a, env))
  {
    hide Concluded, OnApplied, Stays, Speaks;
    RunningStays(stock, s, input, a, env);
    RunningSpeaks(stock, s, input, a, env);
  }

  lemma AppliedTold(stock: Hardware, s: Session, input: Input, a: Applied, env: Environment)
    requires Guarded(stock, s) && IsBegin(input) && s.probed && s.active.None?
    requires Settled(s.cfg, stock, a.machine, a.active) && (a.error.None? ==> a.active.Some?)
    requires Trails(s.machine, a.machine)
    ensures Told(stock, s, input, OnApplied(s, input.message.id, a, env))
  {
    AppliedConcludes(stock, s, input.message.id, a, env);
    if a.error.None? {
      RunningTold(stock, s, input, a, env);
    } else {
      RefusedTold(stock, s, input, a, env);
    }
  }

  lemma DispatchTold(stock: Hardware, s: Session, input: Input, env: Environment)
    requires Guarded(stock, s) && input.Incoming?
    ensures Told(stock, s, input, Dispatch(s, input.message, env))
  {
    FatalTold(stock, s, input, env);
    match input.message.body
    case Hello => if !s.greeted { HelloTold(stock, s, input, env); }
    case Probe => if s.greeted && s.active.None? { ProbeTold(stock, s, input, env); }
    case Begin(_) => if s.probed && s.active.None? { BeginTold(stock, s, input, env); }
    case Renew(_) =>
    case Revert => if s.greeted && s.active.Some? { RestoreTold(stock, s, input, false, env); }
    case Close => if s.greeted { RestoreTold(stock, s, input, true, env); }
    case Other =>
  }

  lemma MessageTold(stock: Hardware, s: Session, input: Input, env: Environment)
    requires Guarded(stock, s) && input.Incoming?
    ensures Told(stock, s, input, OnMessage(s, input.message, env))
  {
    if input.message.id in s.seen || |s.seen| >= REQUEST_LIMIT {
      FatalTold(stock, s, input, env);
    } else {
      DispatchTold(stock, s.(seen := s.seen + {input.message.id}), input, env);
    }
  }

  // After a probe, "stock settings restored", "capabilities", "review changed" and "failed" are only ever sent
  // with the hardware at stock and no transaction outstanding.
  lemma TurnTold(stock: Hardware, s: Session, at: nat, input: Input, env: Environment)
    requires Guarded(stock, s) && (input.LeaseFired? ==> s.lease.Some?)
    ensures Told(stock, s, input, Turn(s, at, input, env))
  {
    var s1 := s.(now := at);
    match input
    case LeaseFired => LeaseTold(stock, s1, env);
    case Incoming(_) => MessageTold(stock, s1, input, env);
    case _ =>
      TurnConcludes(stock, s, at, input, env);
      RollbackActiveKeeps(stock, s1, env);
      RollbackActiveTrails(s1, env);
  }
}

// What the replies of a session say is so.
module SessionAnswers {
  import opened Wrappers
  import opened Model
  import opened Validate
  import opened Recovery
  import opened TransactionSpec
  import opened TransactionSafety
  import opened TransactionLaws
  import opened SessionSpec
  import opened SessionLaws

  // What an incomplete rollback reports are the controls still flagged: those it could read with what they hold now,
  // and the others.
  ghost predicate ReportsRemaining(machine: Machine, active: Option<Tx>, failure: Option<RollbackFailure>) {
    active.Some? && failure.Some? ==>
      Partition(machine, active.value.operations, |active.value.operations|, failure.value)
  }

  // These capabilities were found by a discovery between two states of the machine.
  ghost predicate JustFound(env: Environment, a: Machine, b: Machine, found: CapabilitySet) {
    exists at: nat :: a.clock <= at < b.clock && env.survey(at).found == Some(found)
  }

  // Which replies answer a request, or the lease, and what has to be so if they are given.
  ghost predicate Says(s: Session, input: Input, t: Turned, reply: Reply, env: Environment) {
    var after := t.session;
    match reply
    case Ready => input.Incoming? && input.message.body.Hello? && !s.greeted && after.greeted
    case Capabilities(found) =>
      && input.Incoming? && input.message.body.Probe?
      && found == after.capabilities && JustFound(env, s.machine, after.machine, found)
    case ReviewChanged(found) =>
      && input.Incoming? && input.message.body.Begin?
      && found == after.capabilities && JustFound(env, s.machine, after.machine, found)
      && (found.generation != input.message.body.changes.generation
          || found.machine != input.message.body.changes.machine)
    case Running(transaction, effective) =>
      && input.Incoming? && input.message.body.Begin?
      && (t.verdict.Continue? ==>
            && after.active.Some? && after.active.value.id == transaction
            && after.active.value.effective == effective)
    case Failed => s.active.None? && after.active.None? && input.Incoming?
    case RollbackComplete =>
      && after.active.None?
      && (s.active.Some? || (input.Incoming? && input.message.body.Close?) || input.LeaseFired?)
    case RollbackIncomplete(failure) =>
      && ReportsRemaining(after.machine, after.active, failure)
      && (after.active.Some? || (input.Incoming? && input.message.body.Probe? && failure.None?))
  }

  ghost predicate Answers(s: Session, input: Input, t: Turned, env: Environment) {
    t.session.sent != s.sent ==>
      |t.session.sent| == |s.sent| + 1 && Says(s, input, t, t.session.sent[|s.sent|].body, env)
  }

  // A session under which operations are told apart, as they are in every guarded one.
  predicate Told(s: Session) {
    s.active.Some? ==> !s.active.value.finished && DistinctControls(s.active.value.operations)
  }

  lemma RollingBackReports(s: Session, env: Environment)
    requires Told(s)
    ensures var (s1, ok, failure) := RollbackActive(s, env);
            && s1.sent == s.sent && s1.greeted == s.greeted && (ok <==> s1.active.None?)
            && (s1.active.Some? ==> s.active.Some? && failure.Some?)
            && ReportsRemaining(s1.machine, s1.active, failure)
  {
    if s.active.Some? && Rollback(s.cfg, s.machine, s.active.value, env.oracle).failure.Some? {
      FailureReportsEveryRemainingControl(s.cfg, s.machine, s.active.value, env.oracle);
    }
    hide Rollback, Partition;
  }

  lemma SendingReports(machine: Machine, active: Option<Tx>, failure: Option<RollbackFailure>)
    requires ReportsRemaining(machine, active, failure)
    ensures ReportsRemaining(Call(machine), active, failure)
  {
    if active.Some? && failure.Some? {
      PartitionOnlyReads(machine, Call(machine), active.value.operations, |active.value.operations|, failure.value);
    }
  }

  lemma FatalAnswers(s: Session, input: Input, env: Environment)
    requires Told(s) && input.Incoming?
    ensures Answers(s, input, Fatal(s, input.message.id, env), env)
  {
    RollingBackReports(s, env);
    var (s1, ok, failure) := RollbackActive(s, env);
    SendingReports(s1.machine, s1.active, failure);
    hide RollbackActive, ReportsRemaining;
  }

  lemma RestoreAnswers(s: Session, input: Input, closing: bool, env: Environment)
    requires Told(s) && input.Incoming? && (if closing then input.message.body.Close? else s.active.Some?)
    ensures Answers(s, input, OnRestore(s, input.message.id, closing, env), env)
  {
    RollingBackReports(s, env);
    var (s1, ok, failure) := RollbackActive(s, env);
    SendingReports(s1.machine, s1.active, failure);
    hide RollbackActive, ReportsRemaining;
  }

  lemma LeaseAnswers(s: Session, env: Environment)
    requires Told(s)
    ensures Answers(s, LeaseFired, OnLease(s, env), env)
  {
    RollingBackReports(s, env);
    var (s1, ok, failure) := RollbackActive(s, env);
    SendingReports(s1.machine, s1.active, failure);
    hide RollbackActive, ReportsRemaining;
  }

  lemma RecoveryOnlyCalls(cfg: Config, m: Machine, o: Oracle)
    ensures Recover(cfg, m, o).machine.clock > m.clock
  {
    if m.world.stored.Some? {
      ReplayTicks(cfg, Call(m), m.world.stored.value, |m.world.stored.value.entries|, true, o);
    }
  }

  lemma {:induction false} ReplayTicks(cfg: Config, m: Machine, record: Record, n: nat, clean: bool, o: Oracle)
    requires n <= |record.entries|
    ensures Replay(cfg, m, record, n, clean, o).machine.clock >= m.clock
    decreases n
  {
    if n > 0 {
      var entry := record.entries[n - 1];
      if !entry.applied || entry.driver !in cfg.drivers {
        ReplayTicks(cfg, m, record, n - 1, clean && !entry.applied, o);
      } else {
        var (m1, restored) := RestoreControl(cfg, m, entry.control, entry.snapshot, o);
        var record1 := record.(entries := record.entries[n - 1 := entry.(applied := false)]);
        var (m2, saved) := SaveRecord(m1, record1, o);
        if restored {
          ReplayTicks(cfg, m2, record1, n - 1, clean && saved, o);
        } else {
          ReplayTicks(cfg, m1, record, n - 1, false, o);
        }
      }
    }
  }

  lemma ProbeAnswers(s: Session, input: Input, env: Environment)
    requires input.Incoming? && input.message.body.Probe? && s.active.None?
    ensures Answers(s, input, OnProbe(s, input.message.id, env), env)
  {
    var (s1, first) := Discover(s, env);
    RecoveryOnlyCalls(s1.cfg, s1.machine, env.oracle);
    var recovered := Recover(s1.cfg, s1.machine, env.oracle);
    var s2 := s1.(machine := recovered.machine);
    var (s3, second) := Discover(s2, env);
    assert second.ok ==> env.survey(s2.machine.clock).found == Some(s3.capabilities);
    hide Recover;
  }

  // --- Beginning a transaction ---

  lemma CommitReportsRemaining(cfg: Config, m: Machine, ops: seq<Operation>, id: nat, o: Oracle)
    requires DistinctControls(ops)
    ensures var a := Commit(cfg, m, ops, id, o);
            if a.error.None? then a.active.Some?
            else !a.error.value.Invalid? && ReportsRemaining(a.machine, a.active, FailureOf(a.error.value))
  {
    var tx := Tx(id, ops, Phase.Applying, false, map[]);
    var (m1, saved) := SaveRecord(m, RecordOf(cfg, tx), o);
    if saved {
      ApplyGoesForwards(cfg, m1, tx, 0, o);
      var p := ApplyFrom(cfg, m1, tx, 0, o);
      SameControls(ops, p.tx.operations);
      if p.cause.Some? && Rollback(cfg, p.machine, p.tx, o).failure.Some? {
        FailureReportsEveryRemainingControl(cfg, p.machine, p.tx, o);
      }
      hide ApplyFrom, Rollback, Partition, Reach, StoppedAt;
    }
  }

  lemma SameControls(a: seq<Operation>, b: seq<Operation>)
    ensures |a| == |b| && (forall i :: 0 <= i < |a| ==> a[i].control == b[i].control) && DistinctControls(a) ==>
              DistinctControls(b)
  {
  }

  lemma NothingRemains()
    ensures forall machine, failure :: ReportsRemaining(machine, None, failure)
  {
  }

  lemma ApplyReportsRemaining(cfg: Config, capabilities: CapabilitySet, m: Machine, changes: ChangeSet, id: nat,
                              o: Oracle)
    ensures var a := Apply(cfg, capabilities, m, changes, id, o);
            && (a.error.Some? ==> ReportsRemaining(a.machine, a.active, FailureOf(a.error.value)))
            && (a.error.None? ==> a.active.Some?)
            && (capabilities.generation == changes.generation && capabilities.machine == changes.machine ==>
                  a.error != Some(Invalid(StaleCapabilities)))
  {
    NothingRemains();
    hide Commit, ReportsRemaining;
    FirstErrorIsReported(capabilities, changes, StaleCapabilities);
    var validated := Validated(capabilities, changes);
    if validated.Success? {
      var byId, accepted := ById(capabilities.capabilities), validated.value.changeSet.changes;
      AcceptedSetIsOrdered(capabilities, changes);
      PlanIsSound(cfg, byId, m, accepted, o);
      var p := Prepare(cfg, byId, m, accepted, [], o);
      if !p.error {
        CaptureIsSound(cfg, byId, p.machine, SortByOrder(p.operations), o);
        var captured := CaptureAll(p.machine, SortByOrder(p.operations), 0, o);
        if !captured.error {
          CommitReportsRemaining(cfg, captured.machine, captured.operations, id, o);
        }
      }
    }
  }

  lemma AppliedAnswers(s: Session, input: Input, a: Applied, env: Environment)
    requires input.Incoming? && input.message.body.Begin? && s.active.None?
    requires a.error.None? ==> a.active.Some?
    requires a.error.Some? ==> ReportsRemaining(a.machine, a.active, FailureOf(a.error.value))
    requires a.error != Some(Invalid(StaleCapabilities))
    ensures Answers(s, input, OnApplied(s, input.message.id, a, env), env)
  {
    if a.error.Some? {
      SendingReports(a.machine, a.active, FailureOf(a.error.value));
    }
    hide ReportsRemaining, Rollback;
  }

  lemma BeginAnswers(s: Session, input: Input, env: Environment)
    requires input.Incoming? && input.message.body.Begin? && s.active.None?
    ensures Answers(s, input, OnBegin(s, input.message.id, input.message.body.changes, env), env)
  {
    var (s1, survey) := Discover(s, env);
    var changes := input.message.body.changes;
    assert survey.ok ==> env.survey(s.machine.clock).found == Some(s1.capabilities);
    if !survey.ok {
      FatalAnswers(s1, input, env);
      OthersAnswer(s, s1, input, Fatal(s1, input.message.id, env), env);
      hide Answers, Fatal;
    } else if s1.capabilities.generation == changes.generation && s1.capabilities.machine == changes.machine {
      var id := env.freshId(s1.machine.clock);
      var a := Apply(s1.cfg, s1.capabilities, s1.machine, changes, id, env.oracle);
      ApplyReportsRemaining(s1.cfg, s1.capabilities, s1.machine, changes, id, env.oracle);
      hide Apply;
      AppliedAnswers(s1, input, a, env);
      OthersAnswer(s, s1, input, OnApplied(s1, input.message.id, a, env), env);
      hide Answers, OnApplied;
    }
    hide ReportsRemaining;
  }

  // What was true of a reply a moment later was true of it before.
  lemma OthersAnswer(s: Session, s1: Session, input: Input, t: Turned, env: Environment)
    requires Answers(s1, input, t, env) && s1.sent == s.sent && s1.greeted == s.greeted && s1.active == s.active
    requires s.machine.clock <= s1.machine.clock
    ensures Answers(s, input, t, env)
  {
    hide ReportsRemaining;
  }

  lemma DispatchAnswers(s: Session, input: Input, env: Environment)
    requires Told(s) && input.Incoming?
    ensures Answers(s, input, Dispatch(s, input.message, env), env)
  {
    FatalAnswers(s, input, env);
    match input.message.body
    case Probe => if s.active.None? { ProbeAnswers(s, input, env); } hide OnProbe, Fatal, Answers;
    case Begin(_) => if s.active.None? { BeginAnswers(s, input, env); } hide OnBegin, Fatal, Answers;
    case Revert => if s.active.Some? { RestoreAnswers(s, input, false, env); } hide OnRestore, Fatal, Answers;
    case Close => RestoreAnswers(s, input, true, env); hide OnRestore, Fatal, Answers;
    case _ => hide Fatal;
  }

  // Every reply a turn sends answers what came in, and is so.
  lemma TurnAnswers(s: Session, at: nat, input: Input, env: Environment)
    requires Told(s)
    ensures Answers(s, input, Turn(s, at, input, env), env)
  {
    var s1 := s.(now := at);
    match input
    case LeaseFired => LeaseAnswers(s1, env); OthersAnswer(s, s1, input, OnLease(s1, env), env); hide OnLease, Answers;
    case Incoming(message) =>
      var s2 := s1.(seen := s1.seen + {message.id});
      FatalAnswers(s1, input, env);
      OthersAnswer(s, s1, input, Fatal(s1, message.id, env), env);
      DispatchAnswers(s2, input, env);
      OthersAnswer(s, s2, input, Dispatch(s2, message, env), env);
      hide Fatal, Dispatch, Answers;
    case _ => hide Rollback;
  }

  lemma GuardedIsTold(stock: Hardware, s: Session)
    requires Guarded(stock, s)
    ensures Told(s)
  {
    if s.active.Some? {
      var entries := Entries(s.active.value.operations);
      assert forall i :: 0 <= i < |entries| ==> entries[i].control == s.active.value.operations[i].control;
      hide Kept, TruthfulFile, Mirrored;
    }
  }
}

// What every run of a privileged session keeps.
module SessionLaws {
  import opened Wrappers
  import opened Model
  import opened Validate
  import opened Recovery
  import opened TransactionSpec
  import opened TransactionSafety
  import opened TransactionLaws
  import opened SessionSpec

  // The phases of a session imply one another, and an armed lease belongs to a transaction that no rollback has
  // been tried on.
  predicate Ordered(s: Session) {
    && (s.active.Some? ==> s.probed)
    && (s.probed ==> s.greeted)
    && (s.lease.Some? ==> s.active.Some? && !s.attempted)
    && (s.active.Some? && !s.attempted ==> s.lease.Some?)
  }

  // Before a probe the world is as a crash may have left it; afterwards stock, or under a live transaction.
  predicate Guarded(stock: Hardware, s: Session) {
    && Ordered(s)
    && (if s.probed then Settled(s.cfg, stock, s.machine, s.active) else Recoverable(s.cfg, stock, s.machine))
  }

  lemma RollbackActiveKeeps(stock: Hardware, s: Session, env: Environment)
    requires Guarded(stock, s)
    ensures var (s1, ok, failure) := RollbackActive(s, env);
            && Guarded(stock, s1) && s1.lease.None?
            && (ok <==> s1.active.None?)
            && (s1.active.Some? ==> s1.attempted && s.active.Some?)
            && (ok && s.probed ==> s1.machine.world.hardware == stock)
            && s1 == s.(machine := s1.machine, active := s1.active, lease := None, attempted := s1.attempted)
  {
    if s.active.Some? {
      RollbackKeepsLive(s.cfg, stock, s.machine, s.active.value, env.oracle);
    }
  }

  // What a turn has established when it ends the session, or when it goes on.
  predicate Concluded(stock: Hardware, t: Turned) {
    match t.verdict
    case Continue => Guarded(stock, t.session)
    case Return(error) =>
      && (t.session.active.Some? ==> t.session.attempted)
      && Kept(t.session.cfg, stock, t.session.machine)
      && (!error ==> t.session.active.None?)
      && (t.session.active.None? && t.session.probed ==> t.session.machine.world.hardware == stock)
  }

  lemma FatalConcludes(stock: Hardware, s: Session, id: RequestId, env: Environment)
    requires Guarded(stock, s)
    ensures Concluded(stock, Fatal(s, id, env))
  {
    RollbackActiveKeeps(stock, s, env);
  }

  lemma LeaseConcludes(stock: Hardware, s: Session, env: Environment)
    requires Guarded(stock, s)
    ensures Concluded(stock, OnLease(s, env))
  {
    RollbackActiveKeeps(stock, s, env);
  }

  lemma RestoreConcludes(stock: Hardware, s: Session, id: RequestId, closing: bool, env: Environment)
    requires Guarded(stock, s)
    ensures Concluded(stock, OnRestore(s, id, closing, env))
  {
    RollbackActiveKeeps(stock, s, env);
  }

  lemma ProbeConcludes(stock: Hardware, s: Session, id: RequestId, env: Environment)
    requires Guarded(stock, s) && s.greeted && s.active.None?
    ensures Concluded(stock, OnProbe(s, id, env))
  {
    var (s1, first) := Discover(s, env);
    if first.ok {
      assert Recoverable(s1.cfg, stock, s1.machine);
      RecoverRestores(s1.cfg, stock, s1.machine, env.oracle);
      if s.probed {
        RecoverAtRest(s1.cfg, stock, s1.machine, env.oracle);
      }
      RecoveredConcludes(stock, s1, id, Recover(s1.cfg, s1.machine, env.oracle), env);
    }
  }

  lemma RecoveredConcludes(stock: Hardware, s: Session, id: RequestId, recovered: Recovered, env: Environment)
    requires Ordered(s) && s.greeted && s.active.None?
    requires Kept(s.cfg, stock, recovered.machine)
    requires s.probed || (recovered.ok && !recovered.stale) ==> AtRest(s.cfg, stock, recovered.machine)
    ensures Concluded(stock, OnRecovered(s, id, recovered, env))
  {
    hide Evident, AllEvident, TruthfulFile, NoneFlagged, Live, Rollback;
  }

  lemma BeginConcludes(stock: Hardware, s: Session, id: RequestId, changes: ChangeSet, env: Environment)
    requires Guarded(stock, s) && s.probed && s.active.None?
    ensures Concluded(stock, OnBegin(s, id, changes, env))
  {
    var (s1, survey) := Discover(s, env);
    if !survey.ok {
      FatalConcludes(stock, s1, id, env);
    } else if s1.capabilities.generation == changes.generation && s1.capabilities.machine == changes.machine {
      var tx := env.freshId(s1.machine.clock);
      ApplySettles(s1.cfg, stock, s1.capabilities, s1.machine, changes, tx, env.oracle);
      var a := Apply(s1.cfg, s1.capabilities, s1.machine, changes, tx, env.oracle);
      AppliedConcludes(stock, s1, id, a, env);
    }
  }

  lemma AppliedConcludes(stock: Hardware, s: Session, id: RequestId, a: Applied, env: Environment)
    requires Guarded(stock, s) && s.probed && s.active.None?
    requires Settled(s.cfg, stock, a.machine, a.active) && (a.error.None? ==> a.active.Some?)
    ensures Concluded(stock, OnApplied(s, id, a, env))
  {
    if a.error.None? {
      var s1 := s.(machine := a.machine, active := a.active, attempted := false,
                   begunAt := s.now, armedAt := s.now, renewals := 0, lease := Some(s.now + env.leasePeriod));
      var reply := Running(a.active.value.id, a.active.value.effective);
      RollbackActiveKeeps(stock, Send(s1, id, reply, env).0, env);
    }
  }

  lemma DispatchConcludes(stock: Hardware, s: Session, message: Message<Request>, env: Environment)
    requires Guarded(stock, s)
    ensures Concluded(stock, Dispatch(s, message, env))
  {
    FatalConcludes(stock, s, message.id, env);
    match message.body
    case Probe => if s.greeted && s.active.None? { ProbeConcludes(stock, s, message.id, env); }
    case Begin(changes) => if s.probed && s.active.None? { BeginConcludes(stock, s, message.id, changes, env); }
    case Revert => RestoreConcludes(stock, s, message.id, false, env);
    case Close => RestoreConcludes(stock, s, message.id, true, env);
    case _ =>
  }

  lemma MessageConcludes(stock: Hardware, s: Session, message: Message<Request>, env: Environment)
    requires Guarded(stock, s)
    ensures Concluded(stock, OnMessage(s, message, env))
  {
    if message.id in s.seen || |s.seen| >= REQUEST_LIMIT {
      FatalConcludes(stock, s, message.id, env);
    } else {
      DispatchConcludes(stock, s.(seen := s.seen + {message.id}), message, env);
    }
  }

  // Whatever arrives and whatever fails: a session that goes on is guarded, one that ends with a transaction
  // outstanding has tried to roll it back, and one that ends without error has none outstanding.
  lemma TurnConcludes(stock: Hardware, s: Session, at: nat, input: Input, env: Environment)
    requires Guarded(stock, s)
    ensures Concluded(stock, Turn(s, at, input, env))
  {
    var s1 := s.(now := at);
    match input
    case Cancelled => RollbackActiveKeeps(stock, s1, env);
    case LeaseFired => LeaseConcludes(stock, s1, env);
    case EndOfInput => RollbackActiveKeeps(stock, s1, env);
    case BrokenInput => RollbackActiveKeeps(stock, s1, env);
    case Incoming(message) => MessageConcludes(stock, s1, message, env);
  }

  lemma {:induction false} EverySessionConcludes(stock: Hardware, s: Session, inputs: seq<(nat, Input)>,
                                                 env: Environment)
    requires Guarded(stock, s)
    ensures Concluded(stock, Serve(s, inputs, env))
    decreases |inputs|
  {
    if inputs != [] {
      if !Enabled(s, inputs[0].0, inputs[0].1) {
        EverySessionConcludes(stock, s, inputs[1..], env);
      } else {
        TurnConcludes(stock, s, inputs[0].0, inputs[0].1, env);
        var turned := Turn(s, inputs[0].0, inputs[0].1, env);
        if turned.verdict.Continue? {
          EverySessionConcludes(stock, turned.session, inputs[1..], env);
        }
      }
    }
  }

  // --- Time and the lease ---

  // While no rollback has been tried, the lease deadline is one period after it was last armed, and each renewal
  // has cost a request.
  predicate Clocked(s: Session, env: Environment) {
    && Ordered(s)
    && |s.seen| <= REQUEST_LIMIT
    && (s.greeted ==> 1 <= |s.seen|)
    && (s.probed ==> 2 <= |s.seen|)
    && (s.active.Some? ==> 3 + s.renewals <= |s.seen|)
    && (s.lease.Some? ==>
          && s.lease.value == s.armedAt + env.leasePeriod
          && s.armedAt <= s.now <= s.lease.value
          && s.armedAt <= s.begunAt + s.renewals * env.leasePeriod)
  }

  lemma MoreRenewals(n: nat, m: nat, period: nat)
    requires n <= m
    ensures (n + 1) * period == n * period + period
    ensures n * period <= m * period
  {
  }

  // A handler uses no further request and arms the lease, if at all, for a transaction begun just now.
  predicate Handled(s: Session, s1: Session, env: Environment) {
    && s1.seen == s.seen && s1.now == s.now && s1.greeted == s.greeted
    && Ordered(s1)
    && (s1.active.Some? ==> s1.renewals == 0 || (s.active.Some? && s1.renewals == s.renewals))
    && (s1.lease.Some? ==>
          s1.lease.value == s.now + env.leasePeriod && s1.armedAt == s1.begunAt == s.now && s1.renewals == 0)
  }

  lemma ProbeIsHandled(s: Session, id: RequestId, env: Environment)
    requires Ordered(s) && s.greeted && s.active.None? && OnProbe(s, id, env).verdict.Continue?
    ensures Handled(s, OnProbe(s, id, env).session, env) && OnProbe(s, id, env).session.active.None?
  {
    var s1 := Discover(s, env).0;
    RecoveredIsHandled(s1, id, Recover(s1.cfg, s1.machine, env.oracle), env);
  }

  lemma RecoveredIsHandled(s: Session, id: RequestId, recovered: Recovered, env: Environment)
    requires Ordered(s) && s.greeted && s.active.None?
    ensures OnRecovered(s, id, recovered, env).verdict.Continue? ==>
              Handled(s, OnRecovered(s, id, recovered, env).session, env)
              && OnRecovered(s, id, recovered, env).session.active.None?
  {
  }

  lemma BeginIsHandled(s: Session, id: RequestId, changes: ChangeSet, env: Environment)
    requires Ordered(s) && s.probed && s.active.None? && OnBegin(s, id, changes, env).verdict.Continue?
    ensures Handled(s, OnBegin(s, id, changes, env).session, env)
    ensures OnBegin(s, id, changes, env).session.probed
  {
    var (s1, survey) := Discover(s, env);
    if s1.capabilities.generation == changes.generation && s1.capabilities.machine == changes.machine {
      AppliedIsHandled(s1, id, Apply(s1.cfg, s1.capabilities, s1.machine, changes,
                                     env.freshId(s1.machine.clock), env.oracle), env);
    }
  }

  lemma AppliedIsHandled(s: Session, id: RequestId, a: Applied, env: Environment)
    requires Ordered(s) && s.probed && s.active.None? && OnApplied(s, id, a, env).verdict.Continue?
    ensures Handled(s, OnApplied(s, id, a, env).session, env) && OnApplied(s, id, a, env).session.probed
  {
  }

  lemma RestoreIsHandled(s: Session, id: RequestId, closing: bool, env: Environment)
    requires Ordered(s) && OnRestore(s, id, closing, env).verdict.Continue?
    ensures OnRestore(s, id, closing, env).session.active.Some? ==> s.active.Some?
    ensures Handled(s, OnRestore(s, id, closing, env).session, env)
    ensures OnRestore(s, id, closing, env).session.probed == s.probed
  {
  }

  lemma HandledKeepsClock(s: Session, id: RequestId, s1: Session, env: Environment)
    requires Clocked(s, env) && id !in s.seen && |s.seen| < REQUEST_LIMIT
    requires Handled(s.(seen := s.seen + {id}), s1, env) && s.greeted
    requires s1.active.Some? ==> s.probed
    ensures Clocked(s1, env)
  {
    assert |s.seen + {id}| == |s.seen| + 1;
  }

  lemma DispatchKeepsClock(s: Session, message: Message<Request>, env: Environment)
    requires Clocked(s, env) && message.id !in s.seen && |s.seen| < REQUEST_LIMIT
    requires Dispatch(s.(seen := s.seen + {message.id}), message, env).verdict.Continue?
    ensures var s1 := Dispatch(s.(seen := s.seen + {message.id}), message, env).session;
            Clocked(s1, env) && s1.seen == s.seen + {message.id}
  {
    assert |s.seen + {message.id}| == |s.seen| + 1;
    var s1 := s.(seen := s.seen + {message.id});
    match message.body
    case Hello =>
    case Probe =>
      ProbeIsHandled(s1, message.id, env);
      HandledKeepsClock(s, message.id, OnProbe(s1, message.id, env).session, env);
    case Begin(changes) =>
      BeginIsHandled(s1, message.id, changes, env);
      HandledKeepsClock(s, message.id, OnBegin(s1, message.id, changes, env).session, env);
    case Renew(_) => MoreRenewals(s.renewals, s.renewals, env.leasePeriod);
    case Revert =>
      RestoreIsHandled(s1, message.id, false, env);
      HandledKeepsClock(s, message.id, OnRestore(s1, message.id, false, env).session, env);
    case Close =>
      RestoreIsHandled(s1, message.id, true, env);
      HandledKeepsClock(s, message.id, OnRestore(s1, message.id, true, env).session, env);
    case Other =>
  }

  lemma MessageKeepsClock(s: Session, message: Message<Request>, env: Environment)
    requires Clocked(s, env) && OnMessage(s, message, env).verdict.Continue?
    ensures Clocked(OnMessage(s, message, env).session, env)
    ensures OnMessage(s, message, env).session.seen == s.seen + {message.id} && message.id !in s.seen
  {
    DispatchKeepsClock(s, message, env);
  }

  lemma TurnKeepsClock(s: Session, at: nat, input: Input, env: Environment)
    requires Clocked(s, env) && Enabled(s, at, input) && Turn(s, at, input, env).verdict.Continue?
    ensures Clocked(Turn(s, at, input, env).session, env)
    ensures Budget(Turn(s, at, input, env).session) < Budget(s)
  {
    var s1 := s.(now := at);
    match input
    case Incoming(message) =>
      MessageKeepsClock(s1, message, env);
      assert |s1.seen + {message.id}| == |s1.seen| + 1;
    case _ =>
  }

  // No more turns than this can follow without the session ending.
  function Budget(s: Session): nat {
    if |s.seen| > REQUEST_LIMIT then 0 else 2 * (REQUEST_LIMIT - |s.seen|) + if s.lease.Some? then 1 else 0
  }

  function Turns(s: Session, inputs: seq<(nat, Input)>, env: Environment): nat
    decreases |inputs|
  {
    if inputs == [] then 0
    else if !Enabled(s, inputs[0].0, inputs[0].1) then Turns(s, inputs[1..], env)
    else
      var turned := Turn(s, inputs[0].0, inputs[0].1, env);
      1 + if turned.verdict.Return? then 0 else Turns(turned.session, inputs[1..], env)
  }

  lemma {:induction false} EverySessionKeepsClock(s: Session, inputs: seq<(nat, Input)>, env: Environment)
    requires Clocked(s, env)
    ensures Serve(s, inputs, env).verdict.Continue? ==> Clocked(Serve(s, inputs, env).session, env)
    ensures Turns(s, inputs, env) <= Budget(s) + 1
    decreases |inputs|
  {
    if inputs != [] {
      if !Enabled(s, inputs[0].0, inputs[0].1) {
        EverySessionKeepsClock(s, inputs[1..], env);
      } else {
        var turned := Turn(s, inputs[0].0, inputs[0].1, env);
        if turned.verdict.Continue? {
          TurnKeepsClock(s, inputs[0].0, inputs[0].1, env);
          EverySessionKeepsClock(turned.session, inputs[1..], env);
        }
      }
    }
  }

  // However long a client keeps renewing, a transaction that nobody has tried to roll back is never older than
  // one lease period after its last renewal, nor than 4094 lease periods after it began; so neither is the turn
  // that tries it first. A session handles at most 8193 turns.
  lemma FirstRollbackIsTimely(cfg: Config, m: Machine, start: nat, inputs: seq<(nat, Input)>, env: Environment,
                              at: nat, input: Input)
    ensures var served := Serve(Open(cfg, m, start), inputs, env);
            var s := served.session;
            served.verdict.Continue? && s.active.Some? && !s.attempted && Enabled(s, at, input) ==>
              && at <= s.armedAt + env.leasePeriod
              && at <= s.begunAt + 4094 * env.leasePeriod
    ensures Turns(Open(cfg, m, start), inputs, env) <= 8193
  {
    EverySessionKeepsClock(Open(cfg, m, start), inputs, env);
    var s := Serve(Open(cfg, m, start), inputs, env).session;
    if s.renewals <= 4093 {
      MoreRenewals(s.renewals, 4093, env.leasePeriod);
    }
  }

  // A lease, once a rollback has failed, is not armed again while the same transaction is outstanding.
  lemma FailedRollbackStaysUnleased(stock: Hardware, s: Session, inputs: seq<(nat, Input)>, env: Environment)
    requires Guarded(stock, s)
    ensures var served := Serve(s, inputs, env);
            served.verdict.Continue? && served.session.active.Some? ==>
              (served.session.lease.None? <==> served.session.attempted)
  {
    EverySessionConcludes(stock, s, inputs, env);
  }

  // Whenever a session can begin a transaction, the hardware is at stock and no record asks for a restoration.
  lemma EveryBeginStartsAtRest(stock: Hardware, s: Session, inputs: seq<(nat, Input)>, env: Environment)
    requires Guarded(stock, s)
    ensures var served := Serve(s, inputs, env);
            served.verdict.Continue? && served.session.probed && served.session.active.None? ==>
              AtRest(served.session.cfg, stock, served.session.machine)
  {
    EverySessionConcludes(stock, s, inputs, env);
  }

  // --- After a failed rollback ---

  lemma RollbackKeepsId(cfg: Config, m: Machine, tx: Tx, o: Oracle)
    ensures Rollback(cfg, m, tx, o).tx.id == tx.id
  {
    if !tx.finished {
      var tx1 := tx.(phase := RollingBack);
      var m0 := SaveRecord(m, RecordOf(cfg, tx1), o).0;
      UndoOnlyClears(cfg, m0, tx1, |tx1.operations|, true, o);
    }
  }

  // `s1` still has the transaction that `s` has, a rollback of it has been tried, and its lease stays off.
  predicate StillOutstanding(s: Session, s1: Session) {
    && s.active.Some? && s1.active.Some? && s1.active.value.id == s.active.value.id
    && s1.attempted && s1.lease.None?
  }

  lemma RollingBackKeepsAttempted(s: Session, env: Environment)
    requires s.active.Some?
    ensures var s1 := RollbackActive(s, env).0; s1.active.Some? ==> StillOutstanding(s, s1)
  {
    RollbackKeepsId(s.cfg, s.machine, s.active.value, env.oracle);
  }

  // No turn takes back that a rollback has been tried, or arms the lease again, while its transaction is outstanding.
  lemma TurnKeepsAttempted(s: Session, at: nat, input: Input, env: Environment)
    requires Ordered(s) && s.active.Some? && s.attempted
    ensures var t := Turn(s, at, input, env);
            t.verdict.Continue? && t.session.active.Some? ==> StillOutstanding(s, t.session)
  {
    var s1 := s.(now := at);
    RollingBackKeepsAttempted(s1, env);
    match input
    case Incoming(message) =>
      RollingBackKeepsAttempted(s1.(seen := s1.seen + {message.id}), env);
    case _ =>
    hide Rollback;
  }

  // The transaction is outstanding after every turn of these.
  predicate OutstandingThroughout(s: Session, inputs: seq<(nat, Input)>, env: Environment)
    decreases |inputs|
  {
    && s.active.Some?
    && (inputs != [] ==>
          if !Enabled(s, inputs[0].0, inputs[0].1) then OutstandingThroughout(s, inputs[1..], env)
          else
            var t := Turn(s, inputs[0].0, inputs[0].1, env);
            t.verdict.Continue? ==> OutstandingThroughout(t.session, inputs[1..], env))
  }

  // A lease is never armed again once a rollback has failed, for as long as the same transaction is outstanding.
  lemma {:induction false} AttemptedStays(stock: Hardware, s: Session, inputs: seq<(nat, Input)>, env: Environment)
    requires Guarded(stock, s) && s.attempted && OutstandingThroughout(s, inputs, env)
    ensures var served := Serve(s, inputs, env);
            served.verdict.Continue? ==> StillOutstanding(s, served.session)
    decreases |inputs|
  {
    hide Turn;
    if inputs != [] {
      var (at, input) := inputs[0];
      if !Enabled(s, at, input) {
        AttemptedStays(stock, s, inputs[1..], env);
      } else {
        TurnKeepsAttempted(s, at, input, env);
        TurnConcludes(stock, s, at, input, env);
        var t := Turn(s, at, input, env);
        if t.verdict.Continue? {
          AttemptedStays(stock, t.session, inputs[1..], env);
        }
      }
    }
  }

  // --- Renewal ---

  // What a renewal needs to be taken.
  predicate Renewable(s: Session, id: RequestId, transaction: nat) {
    && s.active.Some? && s.lease.Some? && s.active.value.id == transaction
    && id !in s.seen && |s.seen| < REQUEST_LIMIT
  }

  // A renewal that can be taken gives the lease a full period from now, and changes nothing about the transaction or
  // the world; any other ends the session.
  lemma RenewalIsTakenIff(s: Session, at: nat, id: RequestId, transaction: nat, env: Environment)
    ensures var t := Turn(s, at, Incoming(Message(id, Renew(transaction))), env);
            if Renewable(s, id, transaction)
            then t.verdict.Continue? && t.session == s.(now := at, seen := s.seen + {id}, armedAt := at,
                                                        renewals := s.renewals + 1, lease := Some(at + env.leasePeriod))
            else t.verdict == Return(true)
  {
  }

  // Renewals of this transaction under fresh identifiers, and a timer that is due whenever it likes: `last` is when
  // the lease was armed, and the next renewal always comes before a whole period is over.
  predicate Punctual(seen: set<RequestId>, last: nat, transaction: nat, inputs: seq<(nat, Input)>, period: nat)
    decreases |inputs|
  {
    inputs != [] ==>
      var (at, input) := inputs[0];
      && last <= at < last + period
      && match input
         case LeaseFired => Punctual(seen, last, transaction, inputs[1..], period)
         case Incoming(message) =>
           && message.body == Renew(transaction) && message.id !in seen && |seen| < REQUEST_LIMIT
           && Punctual(seen + {message.id}, at, transaction, inputs[1..], period)
         case _ => false
  }

  // When the lease was armed last.
  function LastRenewal(last: nat, inputs: seq<(nat, Input)>): nat
    decreases |inputs|
  {
    if inputs == [] then last
    else LastRenewal(if inputs[0].1.Incoming? then inputs[0].0 else last, inputs[1..])
  }

  predicate Leased(s: Session, last: nat, transaction: nat, env: Environment) {
    && s.active.Some? && s.active.value.id == transaction
    && s.lease == Some(last + env.leasePeriod) && last <= s.now <= last + env.leasePeriod
  }

  // A transaction renewed within every period is never rolled back for its lease: the timer does not fire, and
  // transaction and world are left alone. The deadline stays one period after the last renewal.
  lemma {:induction false} RenewedTransactionStays(s: Session, last: nat, transaction: nat, inputs: seq<(nat, Input)>,
                                                  env: Environment)
    requires Leased(s, last, transaction, env) && s.now == last
    requires Punctual(s.seen, last, transaction, inputs, env.leasePeriod)
    ensures var served := Serve(s, inputs, env);
            && served.verdict.Continue?
            && Leased(served.session, LastRenewal(last, inputs), transaction, env)
            && served.session.active == s.active && served.session.machine == s.machine
            && served.session.sent == s.sent
    decreases |inputs|
  {
    if inputs != [] {
      var (at, input) := inputs[0];
      match input
      case LeaseFired => RenewedTransactionStays(s, last, transaction, inputs[1..], env);
      case Incoming(message) =>
        RenewalIsTakenIff(s, at, message.id, transaction, env);
        hide Turn;
        RenewedTransactionStays(Turn(s, at, input, env).session, at, transaction, inputs[1..], env);
    }
  }

  // At the deadline of a lease that nobody has renewed, nothing but a turn can come next; the timer's turn tries to
  // restore every flagged control, last one first, says so, and leaves no lease.
  lemma UnrenewedLeaseFires(s: Session, env: Environment)
    requires Ordered(s) && s.lease.Some? && s.now <= s.lease.value && !s.active.value.finished
    ensures Enabled(s, s.lease.value, LeaseFired)
    ensures forall later: nat, input :: s.lease.value < later ==> !Enabled(s, later, input)
    ensures var t := Turn(s, s.lease.value, LeaseFired, env);
            var ops := s.active.value.operations;
            && t.session.machine.restores == s.machine.restores + FlaggedBackwards(ops, |ops|)
            && t.session.lease.None? && t.session.attempted
            && (t.verdict != Return(true) ==>
                  |t.session.sent| == |s.sent| + 1 && t.session.sent[|s.sent|].id == LEASE_ID
                  && (t.session.sent[|s.sent|].body == RollbackComplete <==> t.session.active.None?))
  {
    RollbackGoesBackwards(s.cfg, s.machine, s.active.value, env.oracle);
    hide Rollback, FlaggedBackwards;
  }
}

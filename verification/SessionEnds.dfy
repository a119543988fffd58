// When a session goes on, when it ends, and when it ends without an error.
module SessionEnds {
  import opened Wrappers
  import opened Model
  import opened Validate
  import opened Recovery
  import opened TransactionSpec
  import opened SessionSpec
  import opened SessionLaws

  predicate FreshId(s: Session, id: RequestId) { id !in s.seen && |s.seen| < REQUEST_LIMIT }

  // The last call of the turn, the writing of its reply, has been reported as done.
  predicate Delivered(t: Turned, env: Environment) {
    t.session.machine.clock > 0 && env.oracle(t.session.machine.clock - 1).ok
  }

  predicate Complete(survey: Survey) { survey.found.Some? && survey.ok }

  lemma RollingBackSettles(s: Session, env: Environment)
    ensures var (s1, ok, failure) := RollbackActive(s, env); ok <==> s1.active.None?
  {
  }

  lemma FatalEnds(s: Session, id: RequestId, env: Environment)
    ensures Fatal(s, id, env).verdict == Return(true)
  {
  }

  // A probe goes on exactly if both discoveries are complete, the recovery between them succeeds on a record of this
  // boot or on none, and the capabilities are delivered.
  lemma ProbeGoesOnIff(s: Session, id: RequestId, env: Environment)
    ensures var recovered := Recover(s.cfg, s.machine.(clock := s.machine.clock + 1), env.oracle);
            var t := OnProbe(s, id, env);
            if && Complete(env.survey(s.machine.clock)) && recovered.ok && !recovered.stale
               && Complete(env.survey(recovered.machine.clock)) && env.oracle(recovered.machine.clock + 1).ok
            then t.verdict.Continue? && t.session.probed
                 && Some(t.session.capabilities) == env.survey(recovered.machine.clock).found
            else t.verdict == Return(true)
  {
    var recovered := Recover(s.cfg, Call(s.machine), env.oracle);
    assert !recovered.stale ==> recovered.discrepancies == [] by { hide Replay; }
    hide Recover, RollbackActive;
  }

  // A begin message goes on exactly if the discovery before it is complete and the answer is delivered.
  lemma BeginGoesOnIff(s: Session, id: RequestId, changes: ChangeSet, env: Environment)
    requires s.active.None?
    ensures var t := OnBegin(s, id, changes, env);
            var found := env.survey(s.machine.clock).found;
            if !Complete(env.survey(s.machine.clock)) then t.verdict == Return(true)
            else if found.value.generation != changes.generation || found.value.machine != changes.machine then
              t.verdict == (if Delivered(t, env) then Continue else Return(true))
              && t.session.active.None? && t.session.machine.world == s.machine.world
            else
              var m := s.machine.(clock := s.machine.clock + 1);
              var a := Apply(s.cfg, found.value, m, changes, env.freshId(m.clock), env.oracle);
              t.verdict == if (a.error.Some? || a.active.Some?) && env.oracle(a.machine.clock).ok then Continue
                           else Return(true)
  {
    hide Apply, RollbackActive;
  }

  lemma HelloEnds(s: Session, id: RequestId, env: Environment)
    ensures var t := OnHello(s, id, env);
            t.verdict == if Delivered(t, env) then Continue else Return(true)
  {
  }

  lemma RestoreEnds(s: Session, id: RequestId, closing: bool, env: Environment)
    ensures var t := OnRestore(s, id, closing, env);
            t.verdict == if !Delivered(t, env) then Return(true)
                         else if closing && t.session.active.None? then Return(false) else Continue
  {
    RollingBackSettles(s, env);
    hide RollbackActive;
    var (s1, ok, failure) := RollbackActive(s, env);
    var (s2, delivered) := Send(s1, id, RollbackReply(ok, failure), env);
    assert s2.machine.clock == s1.machine.clock + 1 && s2.active == s1.active;
  }

  lemma LeaseEnds(s: Session, env: Environment)
    ensures var t := OnLease(s, env);
            t.verdict == if !Delivered(t, env) then Return(true)
                         else if t.session.active.None? then Return(false) else Continue
  {
    RollingBackSettles(s, env);
    hide RollbackActive;
    var (s1, ok, failure) := RollbackActive(s, env);
    var (s2, delivered) := Send(s1, LEASE_ID, RollbackReply(ok, failure), env);
    assert s2.machine.clock == s1.machine.clock + 1 && s2.active == s1.active;
  }

  lemma BeginNeverEndsCleanly(s: Session, id: RequestId, changes: ChangeSet, env: Environment)
    ensures OnBegin(s, id, changes, env).verdict != Return(false)
  {
    hide Apply, RollbackActive;
  }

  // A turn ends the session without an error exactly if nothing is outstanding afterwards and it was the end of the
  // input, or the lease or a valid close whose answer has been delivered.
  lemma EndsCleanlyIff(s: Session, at: nat, input: Input, env: Environment)
    ensures var t := Turn(s, at, input, env);
            t.verdict == Return(false) <==>
            && t.session.active.None?
            && match input
               case EndOfInput => true
               case LeaseFired => Delivered(t, env)
               case Incoming(message) =>
                 message.body.Close? && s.greeted && FreshId(s, message.id) && Delivered(t, env)
               case _ => false
  {
    hide Fatal, RollbackActive, OnHello, OnProbe, OnBegin, OnRestore, OnLease, Delivered, Recover, Apply;
    var s1 := s.(now := at);
    match input
    case LeaseFired => LeaseEnds(s1, env);
    case EndOfInput => RollingBackSettles(s1, env);
    case Incoming(message) =>
      var s2 := s1.(seen := s1.seen + {message.id});
      FatalEnds(s1, message.id, env);
      FatalEnds(s2, message.id, env);
      match message.body {
        case Hello => HelloEnds(s2, message.id, env);
        case Probe => ProbeGoesOnIff(s2, message.id, env);
        case Begin(changes) => BeginNeverEndsCleanly(s2, message.id, changes, env);
        case Revert => RestoreEnds(s2, message.id, false, env);
        case Close => RestoreEnds(s2, message.id, true, env);
        case _ =>
      }
    case _ =>
  }

  // A turn goes on exactly in these cases; probing and beginning are described above.
  lemma GoesOnIff(s: Session, at: nat, input: Input, env: Environment)
    ensures var t := Turn(s, at, input, env);
            t.verdict.Continue? <==>
            match input
            case LeaseFired => t.session.active.Some? && Delivered(t, env)
            case Incoming(message) =>
              FreshId(s, message.id)
              && var s1 := s.(now := at, seen := s.seen + {message.id});
                 (match message.body
                  case Hello => !s.greeted && Delivered(t, env)
                  case Probe => s.greeted && s.active.None? && OnProbe(s1, message.id, env).verdict.Continue?
                  case Begin(changes) =>
                    s.probed && s.active.None? && OnBegin(s1, message.id, changes, env).verdict.Continue?
                  case Renew(transaction) => Renewable(s, message.id, transaction)
                  case Revert => s.greeted && s.active.Some? && Delivered(t, env)
                  case Close => s.greeted && t.session.active.Some? && Delivered(t, env)
                  case Other => false)
            case _ => false
  {
    hide Fatal, RollbackActive, OnHello, OnProbe, OnBegin, OnRestore, OnLease, Delivered;
    var s1 := s.(now := at);
    match input
    case LeaseFired => LeaseEnds(s1, env);
    case Incoming(message) =>
      var s2 := s1.(seen := s1.seen + {message.id});
      FatalEnds(s1, message.id, env);
      FatalEnds(s2, message.id, env);
      match message.body {
        case Hello => HelloEnds(s2, message.id, env);
        case Revert => RestoreEnds(s2, message.id, false, env);
        case Close => RestoreEnds(s2, message.id, true, env);
        case _ =>
      }
    case _ =>
  }
}

// The session server as it runs: one loop over its local state, with the lease timer, the active transaction and
// the set of request identifiers updated in place (internal/privilege/session/server.go).
module Session {
  import opened Wrappers
  import opened Model
  import opened Validate
  import opened Recovery
  import opened TransactionSpec
  import opened Transaction
  import opened SessionSpec

  class Server {
    const cfg: Config
    const env: Environment
    const host: Host
    var capabilities: CapabilitySet
    var active: ActiveTransaction?
    var lease: Option<nat>
    var greeted: bool
    var probed: bool
    var seen: set<RequestId>
    var now: nat
    ghost var sent: seq<Message<Reply>>
    ghost var attempted: bool
    ghost var begunAt: nat
    ghost var armedAt: nat
    ghost var renewals: nat

    ghost predicate Valid()
      reads this, active
    {
      && host.oracle == env.oracle
      && (active != null ==> active.Valid() && active.cfg == cfg && active.host == host)
    }

    ghost function View(): SessionSpec.Session
      reads this, host, active
    {
      SessionSpec.Session(cfg, host.View(), capabilities, if active == null then None else Some(active.View()), lease,
                          greeted, probed, seen, sent, now, attempted, begunAt, armedAt, renewals)
    }

    constructor (cfg: Config, env: Environment, host: Host, start: nat)
      requires host.oracle == env.oracle
      ensures Valid() && this.host == host && this.env == env
      ensures active == null && View() == SessionSpec.Open(cfg, host.View(), start)
    {
      this.cfg, this.env, this.host := cfg, env, host;
      capabilities, active, lease := CapabilitySet("", cfg.machine, []), null, None;
      greeted, probed, seen, now := false, false, {}, start;
      sent, attempted, begunAt, armedAt, renewals := [], false, start, start, 0;
    }

    method Write(id: RequestId, reply: Reply) returns (ok: bool)
      requires Valid()
      modifies this`sent, host
      ensures Valid() && (View(), ok) == Send(old(View()), id, reply, env)
    {
      var outcome := host.oracle(host.clock);
      ok := host.Prepare();
      if ok || outcome.published {
        sent := sent + [Message(id, reply)];
      }
    }

    method Probe() returns (survey: Survey)
      requires Valid()
      modifies this`capabilities, host
      ensures Valid() && (View(), survey) == Discover(old(View()), env)
    {
      survey := env.survey(host.clock);
      var noted := host.Prepare();
      if survey.found.Some? {
        capabilities := survey.found.value;
      } else {
        survey := survey.(ok := false);
      }
    }

    // Stops the lease, then restores whatever is active.
    method Rollback() returns (ok: bool, failure: Option<RollbackFailure>)
      requires Valid()
      modifies this`lease, this`active, this`attempted, host, active
      ensures Valid() && (active == null || active == old(active))
      ensures (View(), ok, failure) == RollbackActive(old(View()), env)
    {
      lease := None;
      if active == null {
        return true, None;
      }
      failure := active.Rollback();
      attempted := true;
      ok := failure.None?;
      if ok {
        active := null;
      }
    }

    // Restores before it tries to report.
    method Fail(id: RequestId) returns (verdict: Verdict)
      requires Valid()
      modifies this, host, active
      ensures Valid() && (active == null || active == old(active))
      ensures Turned(View(), verdict) == Fatal(old(View()), id, env)
    {
      var hadActive := active != null;
      var ok, failure := Rollback();
      var noted := Write(id, if hadActive then RollbackReply(ok, failure) else Failed);
      verdict := Return(true);
    }

    method HandleProbe(id: RequestId) returns (verdict: Verdict)
      requires Valid() && active == null
      modifies this, host
      ensures Valid() && active == null
      ensures Turned(View(), verdict) == OnProbe(old(View()), id, env)
    {
      hide TransactionSpec.Recover, Fatal;
      var first := Probe();
      if !first.ok {
        var noted := Write(id, RollbackIncomplete(None));
        return Return(true);
      }
      var engine := new Engine(cfg, host, capabilities);
      var ok, stale, discrepancies := engine.Recover();
      if !ok || stale || |discrepancies| > 0 {
        var noted := Write(id, RollbackIncomplete(None));
        return Return(true);
      }
      verdict := PublishCapabilities(id);
    }

    // Surveys once more, now that whatever was left over has been restored.
    method PublishCapabilities(id: RequestId) returns (verdict: Verdict)
      requires Valid() && active == null
      modifies this, host
      ensures Valid() && active == null
      ensures var s := old(View());
              Turned(View(), verdict) == OnRecovered(s, id, Recovered(s.machine, true, false, []), env)
    {
      hide Fatal;
      var second := Probe();
      if !second.ok {
        verdict := Fail(id);
        return;
      }
      var delivered := Write(id, Capabilities(capabilities));
      if !delivered {
        return Return(true);
      }
      probed := true;
      verdict := Continue;
    }

    method HandleBegin(id: RequestId, changes: ChangeSet) returns (verdict: Verdict)
      requires Valid() && active == null
      modifies this, host
      ensures Valid() && (active == null || fresh(active))
      ensures Turned(View(), verdict) == OnBegin(old(View()), id, changes, env)
    {
      hide TransactionSpec.Apply, OnApplied, Fatal;
      var survey := Probe();
      if !survey.ok {
        verdict := Fail(id);
        return;
      }
      if capabilities.generation != changes.generation || capabilities.machine != changes.machine {
        var delivered := Write(id, ReviewChanged(capabilities));
        return if delivered then Continue else Return(true);
      }
      verdict := ApplyChanges(id, changes);
    }

    method StartTransaction(changes: ChangeSet) returns (error: Option<ApplyError>)
      requires Valid() && active == null
      modifies this, host
      ensures Valid() && (active == null || fresh(active))
      ensures var s := old(View());
              var a := TransactionSpec.Apply(cfg, s.capabilities, s.machine, changes, env.freshId(s.machine.clock),
                                             env.oracle);
              && error == a.error
              && View() == s.(machine := a.machine, active := a.active, attempted := error.Some?, begunAt := s.now,
                              armedAt := s.now, renewals := 0)
    {
      hide TransactionSpec.Apply, ActiveTransaction.View, ActiveTransaction.Valid;
      var engine := new Engine(cfg, host, capabilities);
      var transaction;
      transaction, error := engine.Apply(changes, env.freshId(host.clock));
      active, attempted := transaction, error.Some?;
      begunAt, armedAt, renewals := now, now, 0;
    }

    method ApplyChanges(id: RequestId, changes: ChangeSet) returns (verdict: Verdict)
      requires Valid() && active == null
      modifies this, host
      ensures Valid() && (active == null || fresh(active))
      ensures var s := old(View());
              var a := TransactionSpec.Apply(cfg, s.capabilities, s.machine, changes, env.freshId(s.machine.clock),
                                             env.oracle);
              Turned(View(), verdict) == OnApplied(s, id, a, env)
    {
      hide TransactionSpec.Apply, OnApplied;
      var error := StartTransaction(changes);
      ghost var applied := Applied(host.View(), View().active, error);
      verdict := ReportBegun(id, error, old(View()), applied);
    }

    // Answers a begin message, and arms the lease if the transaction is running.
    method ReportBegun(id: RequestId, error: Option<ApplyError>, ghost before: SessionSpec.Session, ghost a: Applied)
      returns (verdict: Verdict)
      requires Valid()
      requires a == Applied(host.View(), View().active, error)
      requires View() == before.(machine := a.machine, active := a.active, attempted := error.Some?,
                                 begunAt := before.now, armedAt := before.now, renewals := 0)
      modifies this, host, active
      ensures Valid() && (active == null || active == old(active))
      ensures Turned(View(), verdict) == OnApplied(before, id, a, env)
    {
      if error.Some? {
        var reply := if active != null then RollbackIncomplete(FailureOf(error.value))
                     else if error.value == Invalid(StaleCapabilities) then ReviewChanged(capabilities)
                     else Failed;
        var delivered := Write(id, reply);
        return if delivered then Continue else Return(true);
      }
      if active == null {
        verdict := Fail(id);
        return;
      }
      lease := Some(now + env.leasePeriod);
      var delivered := Write(id, Running(active.record.transaction, active.effective));
      if delivered {
        return Continue;
      }
      var ok, failure := Rollback();
      verdict := Return(true);
    }

    method HandleRestore(id: RequestId, closing: bool) returns (verdict: Verdict)
      requires Valid()
      modifies this, host, active
      ensures Valid() && (active == null || active == old(active))
      ensures Turned(View(), verdict) == OnRestore(old(View()), id, closing, env)
    {
      var ok, failure := Rollback();
      var delivered := Write(id, RollbackReply(ok, failure));
      verdict := if !delivered then Return(true) else if closing && ok then Return(false) else Continue;
    }

    method Greet(id: RequestId) returns (verdict: Verdict)
      requires Valid()
      modifies this`greeted, this`sent, host
      ensures Valid() && Turned(View(), verdict) == OnHello(old(View()), id, env)
    {
      greeted := true;
      var delivered := Write(id, Ready);
      verdict := if delivered then Continue else Return(true);
    }

    // A request whose identifier is new and within the limit; an invalid transition is fatal.
    method HandleRequest(message: Message<Request>) returns (verdict: Verdict)
      requires Valid()
      modifies this, host, active
      ensures Valid() && (active == null || active == old(active) || fresh(active))
      ensures Turned(View(), verdict) == Dispatch(old(View()), message, env)
    {
      hide OnHello, OnProbe, OnBegin, OnRestore, Fatal, Host.View;
      match message.body {
      case Hello =>
        if !greeted {
          verdict := Greet(message.id);
          return;
        }
      case Probe =>
        if greeted && active == null {
          verdict := HandleProbe(message.id);
          return;
        }
      case Begin(changes) =>
        if probed && active == null {
          verdict := HandleBegin(message.id, changes);
          return;
        }
      case Renew(transaction) =>
        if active != null && lease.Some? && transaction == active.record.transaction {
          lease, armedAt, renewals := Some(now + env.leasePeriod), now, renewals + 1;
          return Continue;
        }
      case Revert =>
        if greeted && active != null {
          verdict := HandleRestore(message.id, false);
          return;
        }
      case Close =>
        if greeted {
          verdict := HandleRestore(message.id, true);
          return;
        }
      case Other =>
      }
      verdict := Fail(message.id);
    }

    // One pass of the select.
    method Select(at: nat, input: Input) returns (verdict: Verdict)
      requires Valid()
      modifies this, host, active
      ensures Valid() && (active == null || active == old(active) || fresh(active))
      ensures Turned(View(), verdict) == Turn(old(View()), at, input, env)
    {
      hide Dispatch, Fatal;
      now := at;
      match input
      case Incoming(message) =>
        if message.id in seen || |seen| >= REQUEST_LIMIT {
          verdict := Fail(message.id);
        } else {
          seen := seen + {message.id};
          verdict := HandleRequest(message);
        }
      case LeaseFired =>
        var ok, failure := Rollback();
        var delivered := Write(LEASE_ID, RollbackReply(ok, failure));
        verdict := if !delivered then Return(true) else if ok then Return(false) else Continue;
      case EndOfInput =>
        var ok, failure := Rollback();
        verdict := Return(!ok);
      case _ =>
        var ok, failure := Rollback();
        verdict := Return(true);
    }

    // The loop over whatever the select delivers, until a turn returns or nothing more arrives.
    method Run(inputs: seq<(nat, Input)>) returns (verdict: Verdict)
      requires Valid()
      modifies this, host, active
      ensures Valid() && Turned(View(), verdict) == Serve(old(View()), inputs, env)
    {
      for i := 0 to |inputs|
        invariant Valid() && (active == null || active == old(active) || fresh(active))
        invariant Serve(View(), inputs[i..], env) == Serve(old(View()), inputs, env)
      {
        var (at, input) := inputs[i];
        assert inputs[i..][1..] == inputs[i + 1..];
        if now <= at && (lease.Some? ==> at <= lease.value)
           && (input.LeaseFired? ==> lease.Some? && at == lease.value) {
          verdict := Select(at, input);
          if verdict.Return? {
            return;
          }
        }
      }
      verdict := Continue;
    }
  }
}

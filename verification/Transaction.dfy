// The transaction engine as it runs: an in-memory transaction, the recovery file and the hardware are updated in
// place, step by step (internal/tuning/transaction.go).
module Transaction {
  import opened Wrappers
  import opened Model
  import opened Validate
  import opened Recovery
  import opened TransactionSpec

  // The hardware and the recovery file of one machine.
  class Host {
    const oracle: Oracle
    var hardware: Hardware
    var stored: Option<Record>
    var clock: nat
    ghost var history: seq<World>
    ghost var writes: seq<ControlId>
    ghost var restores: seq<ControlId>
    ghost var strays: seq<ControlId>

    constructor (oracle: Oracle, hardware: Hardware, stored: Option<Record>)
      ensures this.oracle == oracle
      ensures View() == Machine(World(hardware, stored), 0, [], [], [], [])
    {
      this.oracle, this.hardware, this.stored, clock := oracle, hardware, stored, 0;
      history, writes, restores, strays := [], [], [], [];
    }

    ghost function View(): Machine
      reads this
    {
      Machine(World(hardware, stored), clock, history, writes, restores, strays)
    }

    method Save(record: Record) returns (ok: bool)
      modifies this
      ensures (View(), ok) == SaveRecord(old(View()), record, oracle)
    {
      ok := oracle(clock).ok;
      if ok || oracle(clock).published {
        stored := Some(record);
      }
      clock, history := clock + 1, history + [World(hardware, stored)];
    }

    method Remove() returns (ok: bool)
      modifies this
      ensures (View(), ok) == RemoveRecord(old(View()), oracle)
    {
      ok := oracle(clock).ok;
      if ok {
        stored := None;
      }
      clock, history := clock + 1, history + [World(hardware, stored)];
    }

    method Read(c: ControlId) returns (contents: Option<Contents>)
      modifies this
      ensures (View(), contents) == ReadControl(old(View()), c, oracle)
    {
      contents := if oracle(clock).ok && c in hardware then Some(hardware[c]) else None;
      clock := clock + 1;
    }

    method Prepare() returns (ok: bool)
      modifies this
      ensures View() == Call(old(View())) && ok == oracle(old(clock)).ok
    {
      ok := oracle(clock).ok;
      clock := clock + 1;
    }

    // The contents may pass through anything before they settle.
    method Set(c: ControlId, target: Contents)
      modifies this
      ensures View() == Drive(old(View()), c, target, oracle)
    {
      var outcome := oracle(clock);
      ghost var w := World(hardware, stored);
      for i := 0 to |outcome.passing|
        invariant hardware[c := target] == w.hardware[c := target] && stored == w.stored
        invariant history == old(history) + Shown(w, c, outcome.passing[..i])
        invariant clock == old(clock) && writes == old(writes) && restores == old(restores) && strays == old(strays)
      {
        hardware := hardware[c := outcome.passing[i]];
        SameBut(hardware, w.hardware, c, outcome.passing[i], target);
        history := history + [World(hardware, stored)];
        assert Shown(w, c, outcome.passing[..i + 1])
            == Shown(w, c, outcome.passing[..i]) + [Holding(w, c, outcome.passing[i])];
      }
      assert outcome.passing[..|outcome.passing|] == outcome.passing;
      ghost var last := if outcome.ok then target else outcome.left;
      hardware := hardware[c := if outcome.ok then target else outcome.left];
      SameBut(hardware, w.hardware, c, last, target);
      clock, history := clock + 1, history + [World(hardware, stored)];
    }

    method Write(cfg: Config, op: Operation) returns (effective: Option<Contents>)
      modifies this
      ensures (View(), effective) == WriteControl(cfg, old(View()), op, oracle)
    {
      var ok := oracle(clock).ok;
      writes := writes + [op.control];
      if op.control !in hardware {
        clock := clock + 1;
        return None;
      }
      Set(op.control, cfg.image(op.control, op.requested));
      effective := if ok then Some(cfg.image(op.control, op.requested)) else None;
    }

    method Restore(cfg: Config, c: ControlId, snapshot: Contents) returns (ok: bool)
      modifies this
      ensures (View(), ok) == RestoreControl(cfg, old(View()), c, snapshot, oracle)
    {
      ok := oracle(clock).ok;
      restores := restores + [c];
      if c !in hardware {
        clock := clock + 1;
        return false;
      }
      if cfg.gentle(c) && hardware[c] == snapshot {
        clock := clock + 1;
      } else {
        strays := strays + if !Backed(stored, c) && Disturbs(oracle(clock), snapshot) then [c] else [];
        Set(c, snapshot);
      }
    }
  }

  lemma SameBut(a: Hardware, b: Hardware, c: ControlId, contents: Contents, other: Contents)
    requires c in a && a[c] == contents && a[c := other] == b[c := other]
    ensures a == b[c := contents]
  {
    assert a == a[c := other][c := contents];
    assert b[c := contents] == b[c := other][c := contents];
  }

  class ActiveTransaction {
    const cfg: Config
    const host: Host
    var record: Record
    var operations: seq<Operation>
    var finished: bool
    var effective: map<ControlId, Contents>

    // The record mirrors the operations entry by entry.
    ghost predicate Valid()
      reads this
    {
      record == RecordOf(cfg, View())
    }

    ghost function View(): Tx
      reads this
    {
      Tx(record.transaction, operations, record.phase, finished, effective)
    }

    constructor (cfg: Config, host: Host, id: nat, operations: seq<Operation>)
      ensures Valid() && this.cfg == cfg && this.host == host
      ensures View() == Tx(id, operations, Phase.Applying, false, map[])
    {
      this.cfg, this.host, this.operations := cfg, host, operations;
      record := Record(RECOVERY_PROTOCOL, cfg.machine, cfg.boot, id, Phase.Applying, Entries(operations));
      finished, effective := false, map[];
    }

    // Sets one flag, in the operation and in its record entry.
    method Flag(i: nat, applied: bool)
      requires Valid() && i < |operations|
      modifies this
      ensures Valid()
      ensures View() == old(View()).(operations := old(operations)[i := old(operations)[i].(applied := applied)])
    {
      operations := operations[i := operations[i].(applied := applied)];
      record := record.(entries := record.entries[i := record.entries[i].(applied := applied)]);
      assert record.entries == Entries(operations);
    }

    method Rollback() returns (failure: Option<RollbackFailure>)
      requires Valid()
      modifies this, host
      ensures Valid()
      ensures RolledBack(host.View(), View(), failure)
              == TransactionSpec.Rollback(cfg, old(host.View()), old(View()), host.oracle)
    {
      if finished {
        return None;
      }
      record := record.(phase := RollingBack);
      var noted := host.Save(record);
      var clean := true;
      var index := |operations|;
      ghost var m0, tx0 := host.View(), View();
      while index > 0
        invariant 0 <= index <= |operations| && Valid()
        invariant Undo(cfg, host.View(), View(), index, clean, host.oracle)
               == Undo(cfg, m0, tx0, |tx0.operations|, true, host.oracle)
      {
        index := index - 1;
        if operations[index].applied {
          var restored := host.Restore(cfg, operations[index].control, operations[index].snapshot);
          if !restored {
            clean := false;
          } else {
            Flag(index, false);
            var saved := host.Save(record);
            clean := clean && saved;
          }
        }
      }
      if !clean {
        record := record.(phase := Incomplete);
        noted := host.Save(record);
        var report := RollbackReport();
        return Some(report);
      }
      var removed := host.Remove();
      if !removed {
        var report := RollbackReport();
        return Some(report);
      }
      finished := true;
      return None;
    }

    method RollbackReport() returns (report: RollbackFailure)
      modifies host
      ensures (host.View(), report)
              == Report(old(host.View()), operations, 0, RollbackFailure(map[], []), host.oracle)
    {
      var remaining: map<ControlId, Contents> := map[];
      var unverified: seq<ControlId> := [];
      for index := 0 to |operations|
        invariant Report(host.View(), operations, index, RollbackFailure(remaining, unverified), host.oracle)
               == Report(old(host.View()), operations, 0, RollbackFailure(map[], []), host.oracle)
      {
        if operations[index].applied {
          var contents := host.Read(operations[index].control);
          if contents.Some? {
            remaining := remaining[operations[index].control := contents.value];
          } else {
            unverified := unverified + [operations[index].control];
          }
        }
      }
      return RollbackFailure(remaining, unverified);
    }

    // The write-ahead loop; `cause` says which step stopped it.
    method ApplyOperations() returns (cause: Option<Cause>)
      requires Valid()
      modifies this, host
      ensures Valid()
      ensures Progress(host.View(), View(), cause)
              == ApplyFrom(cfg, old(host.View()), old(View()), 0, host.oracle)
    {
      for index := 0 to |operations|
        invariant |operations| == |old(operations)| && Valid()
        invariant ApplyFrom(cfg, host.View(), View(), index, host.oracle)
               == ApplyFrom(cfg, old(host.View()), old(View()), 0, host.oracle)
      {
        Flag(index, true);
        var saved := host.Save(record);
        if !saved {
          return Some(NotMarked);
        }
        var written := host.Write(cfg, operations[index]);
        if written.None? {
          return Some(NotApplied(operations[index].control));
        }
        effective := effective[operations[index].control := written.value];
      }
      record := record.(phase := Active);
      var saved := host.Save(record);
      cause := if saved then None else Some(NotActivated);
    }
  }

  class Engine {
    const cfg: Config
    const host: Host
    var capabilities: CapabilitySet

    constructor (cfg: Config, host: Host, capabilities: CapabilitySet)
      ensures this.cfg == cfg && this.host == host && this.capabilities == capabilities
    {
      this.cfg, this.host, this.capabilities := cfg, host, capabilities;
    }

    // sort.SliceStable, by insertion from the last operation to the first.
    method SortOperations(operations: seq<Operation>) returns (sorted: seq<Operation>)
      ensures sorted == SortByOrder(operations)
    {
      sorted := [];
      var index := |operations|;
      assert operations[index..] == [];
      while index > 0
        invariant 0 <= index <= |operations|
        invariant sorted == SortByOrder(operations[index..])
      {
        index := index - 1;
        assert operations[index..][1..] == operations[index + 1..];
        sorted := Insert(operations[index], sorted);
      }
      assert operations[0..] == operations;
    }

    method PrepareOperations(changes: seq<Change>) returns (operations: seq<Operation>, error: bool)
      modifies host
      ensures Prepared(host.View(), operations, error)
              == Prepare(cfg, ById(capabilities.capabilities), old(host.View()), changes, [], host.oracle)
    {
      var byId := ById(capabilities.capabilities);
      operations := [];
      for index := 0 to |changes|
        invariant Prepare(cfg, byId, host.View(), changes[index..], operations, host.oracle)
               == Prepare(cfg, byId, old(host.View()), changes, [], host.oracle)
      {
        var change := changes[index];
        assert changes[index..][1..] == changes[index + 1..];
        if change.id !in byId || byId[change.id].driver !in cfg.drivers {
          return operations, true;
        }
        var ok := host.Prepare();
        if !ok {
          return operations, true;
        }
        operations := operations
          + [Operation(change.id, byId[change.id].driver, cfg.order(change.id), change.requested, 0, false)];
      }
      error := false;
    }

    method CaptureOperations(sorted: seq<Operation>) returns (operations: seq<Operation>, error: bool)
      modifies host
      ensures Prepared(host.View(), operations, error)
              == CaptureAll(old(host.View()), sorted, 0, host.oracle)
    {
      operations := sorted;
      for index := 0 to |sorted|
        invariant |operations| == |sorted|
        invariant CaptureAll(host.View(), operations, index, host.oracle)
               == CaptureAll(old(host.View()), sorted, 0, host.oracle)
      {
        var contents := host.Read(operations[index].control);
        if contents.None? {
          return operations, true;
        }
        operations := operations[index := operations[index].(snapshot := contents.value)];
      }
      error := false;
    }

    // `id` stands for the fresh random identifier of the transaction.
    method Apply(changes: ChangeSet, id: nat) returns (active: ActiveTransaction?, error: Option<ApplyError>)
      modifies host
      ensures var a := TransactionSpec.Apply(cfg, capabilities, old(host.View()), changes, id, host.oracle);
              && host.View() == a.machine && error == a.error
              && (active == null <==> a.active.None?)
              && (active != null ==> fresh(active) && active.Valid() && active.host == host && active.cfg == cfg
                                     && active.View() == a.active.value)
    {
      var validated := ValidateChangeSet(capabilities, changes);
      if validated.Failure? {
        return null, Some(Invalid(validated.error));
      }
      var prepared, notPrepared := PrepareOperations(validated.value.changeSet.changes);
      if notPrepared {
        return null, Some(NotPrepared);
      }
      var sorted := SortOperations(prepared);
      var captured, notCaptured := CaptureOperations(sorted);
      if notCaptured {
        return null, Some(NotCaptured);
      }
      active, error := Begin(captured, id);
    }

    method Begin(operations: seq<Operation>, id: nat)
      returns (active: ActiveTransaction?, error: Option<ApplyError>)
      modifies host
      ensures var a := Commit(cfg, old(host.View()), operations, id, host.oracle);
              && host.View() == a.machine && error == a.error
              && (active == null <==> a.active.None?)
              && (active != null ==> fresh(active) && active.Valid() && active.host == host && active.cfg == cfg
                                     && active.View() == a.active.value)
    {
      var transaction := new ActiveTransaction(cfg, host, id, operations);
      var saved := host.Save(transaction.record);
      if !saved {
        return null, Some(NotSaved);
      }
      var cause := transaction.ApplyOperations();
      if cause.None? {
        return transaction, None;
      }
      var failure := transaction.Rollback();
      error := Some(Undone(cause.value, failure));
      active := if transaction.finished then null else transaction;
    }

    method Recover() returns (ok: bool, stale: bool, discrepancies: seq<ControlId>)
      modifies host
      ensures Recovered(host.View(), ok, stale, discrepancies)
              == TransactionSpec.Recover(cfg, old(host.View()), host.oracle)
    {
      var found := host.Prepare();
      if !found {
        return false, false, [];
      }
      if host.stored.None? {
        return true, false, [];
      }
      var record := host.stored.value;
      if record.protocol != RECOVERY_PROTOCOL || record.machine != cfg.machine {
        return false, false, [];
      }
      if record.boot != cfg.boot {
        return true, true, AppliedControls(record.entries);
      }
      var clean := true;
      var index := |record.entries|;
      ghost var m0 := host.View();
      ghost var loaded := record;
      while index > 0
        invariant 0 <= index <= |record.entries|
        invariant Replay(cfg, host.View(), record, index, clean, host.oracle)
               == Replay(cfg, m0, loaded, |loaded.entries|, true, host.oracle)
      {
        index := index - 1;
        var entry := record.entries[index];
        if entry.applied {
          if entry.driver !in cfg.drivers {
            clean := false;
          } else {
            var restored := host.Restore(cfg, entry.control, entry.snapshot);
            if !restored {
              clean := false;
            } else {
              record := record.(entries := record.entries[index := entry.(applied := false)]);
              var saved := host.Save(record);
              clean := clean && saved;
            }
          }
        }
      }
      if !clean {
        return false, false, [];
      }
      ok := host.Remove();
      stale, discrepancies := false, [];
    }
  }
}

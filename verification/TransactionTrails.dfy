// The history of a machine is a trail: it only grows, and it ends in the world it describes; nor is anything forgotten
// that has gone astray.
module TransactionTrails {
  import opened Wrappers
  import opened Model
  import opened Validate
  import opened Recovery
  import opened TransactionSpec
  import opened TransactionSafety

  predicate Trails(a: Machine, b: Machine) {
    && a.history <= b.history && a.strays <= b.strays
    && if |b.history| == |a.history| then b.world == a.world else b.history[|b.history| - 1] == b.world
  }

  // The worlds passed through between two states of a machine.
  function Path(a: Machine, b: Machine): seq<World>
    requires a.history <= b.history
  {
    b.history[|a.history|..]
  }

  lemma TrailsCompose(a: Machine, b: Machine, c: Machine)
    requires Trails(a, b) && Trails(b, c)
    ensures Trails(a, c)
  {
  }

  lemma RestoreTrails(cfg: Config, m: Machine, c: ControlId, snapshot: Contents, o: Oracle)
    ensures Trails(m, RestoreControl(cfg, m, c, snapshot, o).0)
  {
  }

  lemma {:induction false} UndoTrails(cfg: Config, m: Machine, tx: Tx, n: nat, clean: bool, o: Oracle)
    requires n <= |tx.operations|
    ensures Trails(m, Undo(cfg, m, tx, n, clean, o).machine)
    decreases n
  {
    if n > 0 {
      var op := tx.operations[n - 1];
      if !op.applied {
        UndoTrails(cfg, m, tx, n - 1, clean, o);
      } else {
        RestoreTrails(cfg, m, op.control, op.snapshot, o);
        var (m1, restored) := RestoreControl(cfg, m, op.control, op.snapshot, o);
        var end := Undo(cfg, m, tx, n, clean, o).machine;
        if !restored {
          UndoTrails(cfg, m1, tx, n - 1, false, o);
          TrailsCompose(m, m1, end);
        } else {
          var tx1 := tx.(operations := tx.operations[n - 1 := op.(applied := false)]);
          var (m2, saved) := SaveRecord(m1, RecordOf(cfg, tx1), o);
          UndoTrails(cfg, m2, tx1, n - 1, clean && saved, o);
          TrailsCompose(m, m1, m2);
          TrailsCompose(m, m2, end);
        }
      }
    }
  }

  lemma RollbackTrails(cfg: Config, m: Machine, tx: Tx, o: Oracle)
    ensures Trails(m, Rollback(cfg, m, tx, o).machine)
  {
    if !tx.finished {
      var tx1 := tx.(phase := RollingBack);
      var m0 := SaveRecord(m, RecordOf(cfg, tx1), o).0;
      UndoTrails(cfg, m0, tx1, |tx1.operations|, true, o);
      var undone := Undo(cfg, m0, tx1, |tx1.operations|, true, o);
      TrailsCompose(m, m0, undone.machine);
      var tx2 := undone.tx.(phase := Incomplete);
      var none := RollbackFailure(map[], []);
      var at := if !undone.clean then SaveRecord(undone.machine, RecordOf(cfg, tx2), o).0
                else RemoveRecord(undone.machine, o).0;
      TrailsCompose(m, undone.machine, at);
      ReportOnlyReads(at, undone.tx.operations, 0, none, o);
    }
  }

  lemma {:induction false} ApplyFromTrails(cfg: Config, m: Machine, tx: Tx, n: nat, o: Oracle)
    requires n <= |tx.operations|
    ensures Trails(m, ApplyFrom(cfg, m, tx, n, o).machine)
    decreases |tx.operations| - n
  {
    if n < |tx.operations| {
      var op := tx.operations[n].(applied := true);
      var tx1 := tx.(operations := tx.operations[n := op]);
      var (m1, saved) := SaveRecord(m, RecordOf(cfg, tx1), o);
      if saved {
        var (m2, effective) := WriteControl(cfg, m1, op, o);
        assert Trails(m1, m2);
        TrailsCompose(m, m1, m2);
        if effective.Some? {
          var tx2 := tx1.(effective := tx1.effective[op.control := effective.value]);
          ApplyFromTrails(cfg, m2, tx2, n + 1, o);
          TrailsCompose(m, m2, ApplyFrom(cfg, m2, tx2, n + 1, o).machine);
        }
      }
    }
  }

  lemma CommitTrails(cfg: Config, m: Machine, ops: seq<Operation>, id: nat, o: Oracle)
    ensures Trails(m, Commit(cfg, m, ops, id, o).machine)
  {
    var tx := Tx(id, ops, Phase.Applying, false, map[]);
    var (m1, saved) := SaveRecord(m, RecordOf(cfg, tx), o);
    if saved {
      ApplyFromTrails(cfg, m1, tx, 0, o);
      var p := ApplyFrom(cfg, m1, tx, 0, o);
      TrailsCompose(m, m1, p.machine);
      if p.cause.Some? {
        RollbackTrails(cfg, p.machine, p.tx, o);
        TrailsCompose(m, p.machine, Rollback(cfg, p.machine, p.tx, o).machine);
      }
    }
  }

  lemma PlanOnlyCalls(cfg: Config, byId: Index, m: Machine, changes: seq<Change>, done: seq<Operation>, o: Oracle)
    ensures Trails(m, Prepare(cfg, byId, m, changes, done, o).machine)
  {
    PrepareMatchesChanges(cfg, byId, m, changes, done, o);
  }

  lemma {:induction false} CaptureTrails(m: Machine, ops: seq<Operation>, n: nat, o: Oracle)
    requires n <= |ops|
    ensures Trails(m, CaptureAll(m, ops, n, o).machine)
    decreases |ops| - n
  {
    if n < |ops| {
      var (m1, read) := ReadControl(m, ops[n].control, o);
      if read.Some? {
        CaptureTrails(m1, ops[n := ops[n].(snapshot := read.value)], n + 1, o);
      }
    }
  }

  lemma ApplyTrails(cfg: Config, capabilities: CapabilitySet, m: Machine, changes: ChangeSet, id: nat, o: Oracle)
    ensures Trails(m, Apply(cfg, capabilities, m, changes, id, o).machine)
  {
    var validated := Validated(capabilities, changes);
    if validated.Success? {
      var byId, accepted := ById(capabilities.capabilities), validated.value.changeSet.changes;
      PlanOnlyCalls(cfg, byId, m, accepted, [], o);
      var p := Prepare(cfg, byId, m, accepted, [], o);
      if !p.error {
        CaptureTrails(p.machine, SortByOrder(p.operations), 0, o);
        var captured := CaptureAll(p.machine, SortByOrder(p.operations), 0, o);
        TrailsCompose(m, p.machine, captured.machine);
        if !captured.error {
          CommitTrails(cfg, captured.machine, captured.operations, id, o);
          TrailsCompose(m, captured.machine, Commit(cfg, captured.machine, captured.operations, id, o).machine);
        }
      }
    }
  }

  lemma {:induction false} ReplayTrails(cfg: Config, m: Machine, record: Record, n: nat, clean: bool, o: Oracle)
    requires n <= |record.entries|
    ensures Trails(m, Replay(cfg, m, record, n, clean, o).machine)
    decreases n
  {
    if n > 0 {
      var entry := record.entries[n - 1];
      if !entry.applied {
        ReplayTrails(cfg, m, record, n - 1, clean, o);
      } else if entry.driver !in cfg.drivers {
        ReplayTrails(cfg, m, record, n - 1, false, o);
      } else {
        RestoreTrails(cfg, m, entry.control, entry.snapshot, o);
        var (m1, restored) := RestoreControl(cfg, m, entry.control, entry.snapshot, o);
        var end := Replay(cfg, m, record, n, clean, o).machine;
        if !restored {
          ReplayTrails(cfg, m1, record, n - 1, false, o);
          TrailsCompose(m, m1, end);
        } else {
          var record1 := record.(entries := record.entries[n - 1 := entry.(applied := false)]);
          var (m2, saved) := SaveRecord(m1, record1, o);
          ReplayTrails(cfg, m2, record1, n - 1, clean && saved, o);
          TrailsCompose(m, m1, m2);
          TrailsCompose(m, m2, end);
        }
      }
    }
  }

  lemma RecoverTrails(cfg: Config, m: Machine, o: Oracle)
    ensures Trails(m, Recover(cfg, m, o).machine)
  {
    if m.world.stored.Some? {
      var record := m.world.stored.value;
      ReplayTrails(cfg, Call(m), record, |record.entries|, true, o);
      var replayed := Replay(cfg, Call(m), record, |record.entries|, true, o);
      TrailsCompose(m, replayed.machine, RemoveRecord(replayed.machine, o).0);
    }
  }

  // A recovery from rest passes only through stock hardware.
  lemma RecoverAtRestStaysAtStock(cfg: Config, stock: Hardware, m: Machine, o: Oracle)
    requires AtRest(cfg, stock, m)
    ensures var r := Recover(cfg, m, o).machine;
            m.history <= r.history && forall i :: 0 <= i < |Path(m, r)| ==> Path(m, r)[i].hardware == stock
  {
    if m.world.stored.Some? {
      var record := m.world.stored.value;
      ReplayOfNothing(cfg, Call(m), record, |record.entries|, true, o);
    }
  }
}

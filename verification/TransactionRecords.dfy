// What a transaction writes into the recovery file, from its first record to the last of its rollback.
module TransactionRecords {
  import opened Wrappers
  import opened Model
  import opened Validate
  import opened Recovery
  import opened TransactionSpec
  import opened TransactionSafety
  import opened TransactionLaws

  // What a record says of its operations, but for which of them it flags.
  function Cleared(entries: seq<Entry>): seq<Entry> {
    seq(|entries|, i requires 0 <= i < |entries| => entries[i].(applied := false))
  }

  // The plan of a transaction: driver, control and snapshot of each operation, in application order.
  function PlanOf(ops: seq<Operation>): seq<Entry> { Cleared(Entries(ops)) }

  // A record of this machine, boot and transaction, about this plan, in one of these phases.
  predicate WrittenFor(cfg: Config, id: nat, plan: seq<Entry>, phases: set<Phase>, record: Record) {
    && record.protocol == RECOVERY_PROTOCOL && record.machine == cfg.machine && record.boot == cfg.boot
    && record.transaction == id && record.phase in phases
    && Cleared(record.entries) == plan
  }

  predicate Lawful(cfg: Config, id: nat, plan: seq<Entry>, phases: set<Phase>, before: Option<Record>,
                   stored: Option<Record>)
  {
    stored == before || stored.None? || WrittenFor(cfg, id, plan, phases, stored.value)
  }

  // Between two states of the machine the file holds what it held before, nothing, or such a record.
  predicate Writes(cfg: Config, id: nat, plan: seq<Entry>, phases: set<Phase>, a: Machine, b: Machine) {
    && a.history <= b.history
    && Lawful(cfg, id, plan, phases, a.world.stored, b.world.stored)
    && forall i :: |a.history| <= i < |b.history| ==>
         Lawful(cfg, id, plan, phases, a.world.stored, b.history[i].stored)
  }

  lemma WritesCompose(cfg: Config, id: nat, plan: seq<Entry>, some: set<Phase>, more: set<Phase>, a: Machine,
                      b: Machine, c: Machine)
    requires Writes(cfg, id, plan, some, a, b) && Writes(cfg, id, plan, more, b, c)
    ensures Writes(cfg, id, plan, some + more, a, c)
  {
    hide Cleared;
    forall i | |a.history| <= i < |c.history|
      ensures Lawful(cfg, id, plan, some + more, a.world.stored, c.history[i].stored)
    {
      if i < |b.history| {
        assert c.history[i] == b.history[i];
      }
    }
  }

  lemma FlagKeepsPlan(ops: seq<Operation>, k: nat, flag: bool)
    requires k < |ops|
    ensures PlanOf(ops[k := ops[k].(applied := flag)]) == PlanOf(ops)
  {
  }

  lemma SaveWrites(cfg: Config, m: Machine, tx: Tx, phases: set<Phase>, o: Oracle)
    requires tx.phase in phases
    ensures Writes(cfg, tx.id, PlanOf(tx.operations), phases, m, SaveRecord(m, RecordOf(cfg, tx), o).0)
  {
  }

  lemma OthersWriteNothing(cfg: Config, id: nat, plan: seq<Entry>, phases: set<Phase>, m: Machine, c: ControlId,
                           snapshot: Contents, op: Operation, o: Oracle)
    ensures Writes(cfg, id, plan, phases, m, RestoreControl(cfg, m, c, snapshot, o).0)
    ensures Writes(cfg, id, plan, phases, m, WriteControl(cfg, m, op, o).0)
    ensures Writes(cfg, id, plan, phases, m, RemoveRecord(m, o).0)
  {
    hide Cleared, WrittenFor;
  }

  lemma {:induction false} UndoWrites(cfg: Config, m: Machine, tx: Tx, n: nat, clean: bool, phases: set<Phase>,
                                      o: Oracle)
    requires n <= |tx.operations| && tx.phase in phases
    ensures Writes(cfg, tx.id, PlanOf(tx.operations), phases, m, Undo(cfg, m, tx, n, clean, o).machine)
    decreases n
  {
    var plan := PlanOf(tx.operations);
    assert Writes(cfg, tx.id, plan, phases, m, m);
    hide Writes, SaveRecord, RestoreControl, PlanOf;
    if n == 0 {
    } else if !tx.operations[n - 1].applied {
      UndoWrites(cfg, m, tx, n - 1, clean, phases, o);
    } else {
      var op := tx.operations[n - 1];
      var (m1, restored) := RestoreControl(cfg, m, op.control, op.snapshot, o);
      OthersWriteNothing(cfg, tx.id, plan, phases, m, op.control, op.snapshot, op, o);
      assert phases + phases == phases;
      if !restored {
        UndoWrites(cfg, m1, tx, n - 1, false, phases, o);
        WritesCompose(cfg, tx.id, plan, phases, phases, m, m1, Undo(cfg, m, tx, n, clean, o).machine);
      } else {
        var tx1 := tx.(operations := tx.operations[n - 1 := op.(applied := false)]);
        var (m2, saved) := SaveRecord(m1, RecordOf(cfg, tx1), o);
        FlagKeepsPlan(tx.operations, n - 1, false);
        SaveWrites(cfg, m1, tx1, phases, o);
        UndoWrites(cfg, m2, tx1, n - 1, clean && saved, phases, o);
        WritesCompose(cfg, tx.id, plan, phases, phases, m, m1, m2);
        WritesCompose(cfg, tx.id, plan, phases, phases, m, m2, Undo(cfg, m, tx, n, clean, o).machine);
      }
    }
  }

  const UNDOING: set<Phase> := {RollingBack, Incomplete}

  lemma RollbackWrites(cfg: Config, m: Machine, tx: Tx, o: Oracle)
    ensures Writes(cfg, tx.id, PlanOf(tx.operations), UNDOING, m, Rollback(cfg, m, tx, o).machine)
  {
    if !tx.finished {
      var id, plan, tx1 := tx.id, PlanOf(tx.operations), tx.(phase := RollingBack);
      var m0 := SaveRecord(m, RecordOf(cfg, tx1), o).0;
      SaveWrites(cfg, m, tx1, UNDOING, o);
      UndoWrites(cfg, m0, tx1, |tx1.operations|, true, UNDOING, o);
      UndoOnlyClears(cfg, m0, tx1, |tx1.operations|, true, o);
      var undone := Undo(cfg, m0, tx1, |tx1.operations|, true, o);
      ClearingKeepsPlan(tx1.operations, undone.tx.operations, |tx1.operations|);
      WritesCompose(cfg, id, plan, UNDOING, UNDOING, m, m0, undone.machine);
      var tx2 := undone.tx.(phase := Incomplete);
      var at := if !undone.clean then SaveRecord(undone.machine, RecordOf(cfg, tx2), o).0
                else RemoveRecord(undone.machine, o).0;
      SaveWrites(cfg, undone.machine, tx2, UNDOING, o);
      OthersWriteNothing(cfg, id, plan, UNDOING, undone.machine, "", 0, Operation("", "", 0, NoValue, 0, false), o);
      WritesCompose(cfg, id, plan, UNDOING, UNDOING, m, undone.machine, at);
      ReportOnlyReads(at, undone.tx.operations, 0, RollbackFailure(map[], []), o);
      assert UNDOING + UNDOING == UNDOING;
      hide Undo, SaveRecord, RemoveRecord, PlanOf;
    }
  }

  lemma ClearingKeepsPlan(before: seq<Operation>, after: seq<Operation>, n: nat)
    requires OnlyClears(before, after, n)
    ensures PlanOf(after) == PlanOf(before)
  {
    assert forall i :: 0 <= i < |before| ==>
      EntryOf(after[i]).(applied := false) == EntryOf(before[i]).(applied := false);
  }

  const DOING: set<Phase> := {Phase.Applying, Active}

  lemma {:induction false} ApplyFromWrites(cfg: Config, m: Machine, tx: Tx, n: nat, o: Oracle)
    requires n <= |tx.operations| && tx.phase.Applying?
    ensures var p := ApplyFrom(cfg, m, tx, n, o);
            && Writes(cfg, tx.id, PlanOf(tx.operations), DOING, m, p.machine)
            && PlanOf(p.tx.operations) == PlanOf(tx.operations) && p.tx.id == tx.id
            && (p.cause.None? ==> p.tx.phase.Active?)
    decreases |tx.operations| - n
  {
    hide Writes, SaveRecord, WriteControl, PlanOf;
    var plan := PlanOf(tx.operations);
    assert DOING + DOING == DOING;
    if n == |tx.operations| {
      SaveWrites(cfg, m, tx.(phase := Active), DOING, o);
    } else {
      var op := tx.operations[n].(applied := true);
      var tx1 := tx.(operations := tx.operations[n := op]);
      FlagKeepsPlan(tx.operations, n, true);
      SaveWrites(cfg, m, tx1, DOING, o);
      var (m1, saved) := SaveRecord(m, RecordOf(cfg, tx1), o);
      var (m2, effective) := WriteControl(cfg, m1, op, o);
      OthersWriteNothing(cfg, tx.id, plan, DOING, m1, "", 0, op, o);
      WritesCompose(cfg, tx.id, plan, DOING, DOING, m, m1, m2);
      if saved && effective.Some? {
        var tx2 := tx1.(effective := tx1.effective[op.control := effective.value]);
        ApplyFromWrites(cfg, m2, tx2, n + 1, o);
        WritesCompose(cfg, tx.id, plan, DOING, DOING, m, m2, ApplyFrom(cfg, m2, tx2, n + 1, o).machine);
      }
    }
  }

  lemma CommitWrites(cfg: Config, m: Machine, ops: seq<Operation>, id: nat, o: Oracle)
    ensures var a := Commit(cfg, m, ops, id, o);
            && Writes(cfg, id, PlanOf(ops), DOING + UNDOING, m, a.machine)
            && (a.active.Some? ==> a.active.value.id == id && PlanOf(a.active.value.operations) == PlanOf(ops))
            && (a.error.None? ==> a.active.Some? && a.active.value.phase.Active?)
  {
    var tx := Tx(id, ops, Phase.Applying, false, map[]);
    SaveWrites(cfg, m, tx, DOING, o);
    SaveWrites(cfg, m, tx, DOING + UNDOING, o);
    var (m1, saved) := SaveRecord(m, RecordOf(cfg, tx), o);
    hide SaveRecord, PlanOf;
    if saved {
      ApplyFromWrites(cfg, m1, tx, 0, o);
      var p := ApplyFrom(cfg, m1, tx, 0, o);
      WritesCompose(cfg, id, PlanOf(ops), DOING, DOING, m, m1, p.machine);
      MorePhases(cfg, id, PlanOf(ops), m, p.machine);
      RollbackWrites(cfg, p.machine, p.tx, o);
      RollbackKeepsPlan(cfg, p.machine, p.tx, o);
      WritesCompose(cfg, id, PlanOf(ops), DOING, UNDOING, m, p.machine, Rollback(cfg, p.machine, p.tx, o).machine);
      assert DOING + DOING == DOING;
      hide Writes, ApplyFrom, Rollback;
    }
  }

  lemma MorePhases(cfg: Config, id: nat, plan: seq<Entry>, a: Machine, b: Machine)
    requires Writes(cfg, id, plan, DOING + DOING, a, b)
    ensures Writes(cfg, id, plan, DOING + UNDOING, a, b)
  {
    hide Cleared;
  }

  lemma RollbackKeepsPlan(cfg: Config, m: Machine, tx: Tx, o: Oracle)
    ensures var tx1 := Rollback(cfg, m, tx, o).tx;
            tx1.id == tx.id && PlanOf(tx1.operations) == PlanOf(tx.operations)
  {
    if !tx.finished {
      var tx1 := tx.(phase := RollingBack);
      var m0 := SaveRecord(m, RecordOf(cfg, tx1), o).0;
      UndoOnlyClears(cfg, m0, tx1, |tx1.operations|, true, o);
      ClearingKeepsPlan(tx1.operations, Undo(cfg, m0, tx1, |tx1.operations|, true, o).tx.operations,
                        |tx1.operations|);
    }
  }

  // The plan of operations that were prepared for a request: each names the driver that offers its control, and
  // what the hardware held before the first write.
  predicate PlanFor(cfg: Config, byId: Index, hardware: Hardware, plan: seq<Entry>) {
    forall i :: 0 <= i < |plan| ==>
      && plan[i].control in byId && plan[i].driver == byId[plan[i].control].driver && plan[i].driver in cfg.drivers
      && plan[i].control in hardware && plan[i].snapshot == hardware[plan[i].control]
  }

  function RequestedControls(changes: seq<Change>): set<ControlId> { set i | 0 <= i < |changes| :: changes[i].id }

  function PlannedControls(plan: seq<Entry>): set<ControlId> { set i | 0 <= i < |plan| :: plan[i].control }

  // Whatever happens while a request is applied, and undone if it fails, each record stored meanwhile lists exactly
  // the controls of the request, each with the driver that offers it and what it held before the first write.
  lemma ApplyWrites(cfg: Config, capabilities: CapabilitySet, m: Machine, changes: ChangeSet, id: nat, o: Oracle)
    returns (plan: seq<Entry>)
    ensures var a := Apply(cfg, capabilities, m, changes, id, o);
            && Writes(cfg, id, plan, DOING + UNDOING, m, a.machine)
            && PlanFor(cfg, ById(capabilities.capabilities), m.world.hardware, plan)
            && (a.machine.history != m.history ==> PlannedControls(plan) == RequestedControls(changes.changes))
            && (a.active.Some? ==> a.active.value.id == id && PlanOf(a.active.value.operations) == plan)
            && (a.error.None? ==> a.active.Some? && a.active.value.phase.Active?)
  {
    plan := [];
    var validated := Validated(capabilities, changes);
    if validated.Success? {
      var byId, accepted := ById(capabilities.capabilities), validated.value.changeSet.changes;
      AcceptedSetIsOrdered(capabilities, changes);
      PlanIsSound(cfg, byId, m, accepted, o);
      var p := Prepare(cfg, byId, m, accepted, [], o);
      if !p.error {
        CaptureIsSound(cfg, byId, p.machine, SortByOrder(p.operations), o);
        var captured := CaptureAll(p.machine, SortByOrder(p.operations), 0, o);
        if !captured.error {
          plan := PlanOf(captured.operations);
          CommitWrites(cfg, captured.machine, captured.operations, id, o);
          PlanHasTheRequested(cfg, byId, m, accepted, o);
          assert RequestedControls(accepted) == RequestedControls(changes.changes);
          PlanIsForThese(cfg, byId, m.world.hardware, captured.operations);
        }
      }
    }
    hide Commit, Prepare, CaptureAll, SortByOrder, Validated, PlanOf, Planned, Captured;
  }

  lemma PlanIsForThese(cfg: Config, byId: Index, hardware: Hardware, ops: seq<Operation>)
    requires Planned(cfg, byId, ops) && Captured(cfg, hardware, ops)
    ensures PlanFor(cfg, byId, hardware, PlanOf(ops))
  {
    assert forall i :: 0 <= i < |ops| ==> Offered(cfg, byId, ops[i]);
  }

  lemma PlanHasTheRequested(cfg: Config, byId: Index, m: Machine, changes: seq<Change>, o: Oracle)
    requires var p := Prepare(cfg, byId, m, changes, [], o);
             !p.error && !CaptureAll(p.machine, SortByOrder(p.operations), 0, o).error
    ensures var p := Prepare(cfg, byId, m, changes, [], o);
            PlannedControls(PlanOf(CaptureAll(p.machine, SortByOrder(p.operations), 0, o).operations))
            == RequestedControls(changes)
  {
    var p := Prepare(cfg, byId, m, changes, [], o);
    var sorted := SortByOrder(p.operations);
    PrepareMatchesChanges(cfg, byId, m, changes, [], o);
    SortIsStable(p.operations, 0);
    CaptureReadsHardware(p.machine, sorted, 0, o);
    hide Prepare, SortByOrder, CaptureAll, OfOrder, Sorted;
    var captured := CaptureAll(p.machine, sorted, 0, o).operations;
    var plan := PlanOf(captured);
    assert |plan| == |captured| == |sorted| == |changes|;
    assert forall i :: 0 <= i < |sorted| ==> plan[i].control == captured[i].control == sorted[i].control;
    forall i | 0 <= i < |changes|
      ensures p.operations[i].control == changes[i].id
    {
      assert PreparedFor(cfg, byId, p.operations[0 + i], changes[i]);
    }
    SameControls(changes, p.operations, sorted, plan);
  }

  lemma SameControls(changes: seq<Change>, ops: seq<Operation>, sorted: seq<Operation>, plan: seq<Entry>)
    requires |ops| == |changes| && |plan| == |sorted| && forall x :: x in sorted <==> x in ops
    requires forall i :: 0 <= i < |changes| ==> ops[i].control == changes[i].id
    requires forall i :: 0 <= i < |sorted| ==> plan[i].control == sorted[i].control
    ensures PlannedControls(plan) == RequestedControls(changes)
  {
    forall c | c in RequestedControls(changes)
      ensures c in PlannedControls(plan)
    {
      var i :| 0 <= i < |changes| && changes[i].id == c;
      assert ops[i] in sorted;
      var j :| 0 <= j < |sorted| && sorted[j] == ops[i];
      assert plan[j].control == c;
    }
    forall c | c in PlannedControls(plan)
      ensures c in RequestedControls(changes)
    {
      var j :| 0 <= j < |plan| && plan[j].control == c;
      assert sorted[j] in ops;
      var i :| 0 <= i < |ops| && ops[i] == sorted[j];
      assert changes[i].id == c;
    }
  }
}

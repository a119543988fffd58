// The order of restorations, retries and reporting.
module TransactionLaws {
  import opened Wrappers
  import opened Model
  import opened Validate
  import opened Recovery
  import opened TransactionSpec
  import opened TransactionSafety

  function Controls(ops: seq<Operation>): seq<ControlId> {
    seq(|ops|, i requires 0 <= i < |ops| => ops[i].control)
  }

  // The flagged controls among the first n, last one first.
  function FlaggedBackwards(ops: seq<Operation>, n: nat): seq<ControlId>
    requires n <= |ops|
  {
    if n == 0 then []
    else (if ops[n - 1].applied then [ops[n - 1].control] else []) + FlaggedBackwards(ops, n - 1)
  }

  function Reverse(s: seq<ControlId>): seq<ControlId> {
    if s == [] then [] else Reverse(s[1..]) + [s[0]]
  }

  lemma {:induction false} FlaggedBackwardsFrame(a: seq<Operation>, b: seq<Operation>, n: nat)
    requires n <= |a| && n <= |b| && a[..n] == b[..n]
    ensures FlaggedBackwards(a, n) == FlaggedBackwards(b, n)
  {
    if n > 0 {
      assert a[n - 1] == a[..n][n - 1] && b[n - 1] == b[..n][n - 1];
      assert a[..n - 1] == a[..n][..n - 1] && b[..n - 1] == b[..n][..n - 1];
      FlaggedBackwardsFrame(a, b, n - 1);
    }
  }

  lemma CallsAreLogged(cfg: Config, m: Machine, record: Record, c: ControlId, snapshot: Contents, o: Oracle)
    ensures var m1 := RestoreControl(cfg, m, c, snapshot, o).0;
            m1.restores == m.restores + [c] && m1.writes == m.writes
    ensures var m1 := SaveRecord(m, record, o).0;
            m1.restores == m.restores && m1.writes == m.writes && m1.world.hardware == m.world.hardware
  {
  }

  // A control that is not there cannot be written or restored, and neither call touches another.
  lemma AbsentControlFails(cfg: Config, m: Machine, op: Operation, o: Oracle)
    requires op.control !in m.world.hardware
    ensures !RestoreControl(cfg, m, op.control, op.snapshot, o).1 && WriteControl(cfg, m, op, o).1.None?
    ensures RestoreControl(cfg, m, op.control, op.snapshot, o).0.world == m.world
    ensures WriteControl(cfg, m, op, o).0.world == m.world
  {
  }

  // Every flagged control is attempted exactly once, in backward order, whatever fails.
  lemma {:induction false} UndoGoesBackwards(cfg: Config, m: Machine, tx: Tx, n: nat, clean: bool, o: Oracle)
    requires n <= |tx.operations|
    ensures var u := Undo(cfg, m, tx, n, clean, o).machine;
            u.restores == m.restores + FlaggedBackwards(tx.operations, n) && u.writes == m.writes
    decreases n
  {
    hide SaveRecord, RestoreControl, RecordOf;
    if n > 0 {
      var op := tx.operations[n - 1];
      if !op.applied {
        UndoGoesBackwards(cfg, m, tx, n - 1, clean, o);
      } else {
        var (m1, restored) := RestoreControl(cfg, m, op.control, op.snapshot, o);
        CallsAreLogged(cfg, m, RecordOf(cfg, tx), op.control, op.snapshot, o);
        if !restored {
          UndoGoesBackwards(cfg, m1, tx, n - 1, false, o);
        } else {
          var tx1 := tx.(operations := tx.operations[n - 1 := op.(applied := false)]);
          var (m2, saved) := SaveRecord(m1, RecordOf(cfg, tx1), o);
          CallsAreLogged(cfg, m1, RecordOf(cfg, tx1), op.control, op.snapshot, o);
          UndoGoesBackwards(cfg, m2, tx1, n - 1, clean && saved, o);
          FlaggedBackwardsFrame(tx1.operations, tx.operations, n - 1);
        }
      }
    }
  }

  lemma RollbackGoesBackwards(cfg: Config, m: Machine, tx: Tx, o: Oracle)
    requires !tx.finished
    ensures var r := Rollback(cfg, m, tx, o).machine;
            r.restores == m.restores + FlaggedBackwards(tx.operations, |tx.operations|) && r.writes == m.writes
  {
    var tx1 := tx.(phase := RollingBack);
    var m0 := SaveRecord(m, RecordOf(cfg, tx1), o).0;
    UndoGoesBackwards(cfg, m0, tx1, |tx1.operations|, true, o);
    var undone := Undo(cfg, m0, tx1, |tx1.operations|, true, o);
    var tx2 := undone.tx.(phase := Incomplete);
    ReportOnlyReads(SaveRecord(undone.machine, RecordOf(cfg, tx2), o).0, tx2.operations, 0,
                    RollbackFailure(map[], []), o);
    ReportOnlyReads(RemoveRecord(undone.machine, o).0, undone.tx.operations, 0, RollbackFailure(map[], []), o);
  }

  // How many operations are flagged when the loop stops.
  function Reach(cfg: Config, m: Machine, tx: Tx, n: nat, o: Oracle): nat
    requires n <= |tx.operations|
    decreases |tx.operations| - n
  {
    if n == |tx.operations| then n
    else
      var op := tx.operations[n].(applied := true);
      var tx1 := tx.(operations := tx.operations[n := op]);
      var (m1, saved) := SaveRecord(m, RecordOf(cfg, tx1), o);
      if !saved then n + 1
      else
        var (m2, effective) := WriteControl(cfg, m1, op, o);
        if effective.None? then n + 1
        else Reach(cfg, m2, tx1.(effective := tx1.effective[op.control := effective.value]), n + 1, o)
  }

  // The operations flagged so far are those before the k-th; the k-th is the one that failed, if one did.
  predicate StoppedAt(ops: seq<Operation>, p: Progress, n: nat, k: nat) {
    && n <= k <= |ops| == |p.tx.operations|
    && (forall i :: 0 <= i < |ops| ==>
          p.tx.operations[i] == if n <= i < k then ops[i].(applied := true) else ops[i])
    && match p.cause
       case None => k == |ops|
       case Some(NotActivated) => k == |ops|
       case Some(NotMarked) => n < k
       case Some(NotApplied(c)) => n < k && c == ops[k - 1].control
  }

  lemma {:induction false} ApplyGoesForwards(cfg: Config, m: Machine, tx: Tx, n: nat, o: Oracle)
    requires n <= |tx.operations|
    ensures var p := ApplyFrom(cfg, m, tx, n, o);
            StoppedAt(tx.operations, p, n, Reach(cfg, m, tx, n, o)) && p.tx.finished == tx.finished
    decreases |tx.operations| - n
  {
    hide SaveRecord, WriteControl, RecordOf;
    if n < |tx.operations| {
      var op := tx.operations[n].(applied := true);
      var tx1 := tx.(operations := tx.operations[n := op]);
      var (m1, saved) := SaveRecord(m, RecordOf(cfg, tx1), o);
      var (m2, effective) := WriteControl(cfg, m1, op, o);
      if saved && effective.Some? {
        ApplyGoesForwards(cfg, m2, tx1.(effective := tx1.effective[op.control := effective.value]), n + 1, o);
      }
    }
  }

  lemma ControlsFrom(a: seq<Operation>, b: seq<Operation>, n: nat, e: nat)
    requires n < e <= |a| == |b| && forall i :: n < i < e ==> a[i] == b[i]
    ensures Controls(a[n..e]) == [a[n].control] + Controls(b[n + 1..e])
    ensures Controls(a[n..n]) == Controls(b[n + 1..n + 1]) == []
  {
  }

  lemma NoControls()
    ensures Controls([]) == []
  {
  }

  function Written(p: Progress, k: nat): nat {
    if p.cause == Some(NotMarked) && k > 0 then k - 1 else k
  }

  lemma WritesAreLogged(cfg: Config, m: Machine, op: Operation, o: Oracle)
    ensures var m1 := WriteControl(cfg, m, op, o).0;
            m1.writes == m.writes + [op.control] && m1.restores == m.restores
  {
  }

  lemma {:induction false} ApplyWritesInOrder(cfg: Config, m: Machine, tx: Tx, n: nat, o: Oracle)
    requires n <= |tx.operations|
    ensures var p := ApplyFrom(cfg, m, tx, n, o);
            var k := Reach(cfg, m, tx, n, o);
            && n <= Written(p, k) <= |tx.operations|
            && p.machine.restores == m.restores
            && p.machine.writes == m.writes + Controls(tx.operations[n..Written(p, k)])
    decreases |tx.operations| - n
  {
    hide SaveRecord, WriteControl, RecordOf, Controls;
    CallsAreLogged(cfg, m, RecordOf(cfg, tx.(phase := Active)), "", 0, o);
    if n < |tx.operations| {
      var op := tx.operations[n].(applied := true);
      var tx1 := tx.(operations := tx.operations[n := op]);
      var (m1, saved) := SaveRecord(m, RecordOf(cfg, tx1), o);
      var (m2, effective) := WriteControl(cfg, m1, op, o);
      CallsAreLogged(cfg, m, RecordOf(cfg, tx1), op.control, 0, o);
      WritesAreLogged(cfg, m1, op, o);
      ControlsFrom(tx.operations, tx.operations, n, n + 1);
      if saved {
        if effective.Some? {
          var tx2 := tx1.(effective := tx1.effective[op.control := effective.value]);
          ApplyWritesInOrder(cfg, m2, tx2, n + 1, o);
          var e := Written(ApplyFrom(cfg, m, tx, n, o), Reach(cfg, m, tx, n, o));
          ControlsFrom(tx.operations, tx2.operations, n, e);
        }
      }
    } else {
      assert tx.operations[n..n] == [] && |Controls([])| == 0 by { NoControls(); }
    }
  }

  lemma {:induction false} AllFlaggedReversed(ops: seq<Operation>, k: nat)
    requires k <= |ops| && forall i :: 0 <= i < k ==> ops[i].applied
    ensures FlaggedBackwards(ops, k) == Reverse(Controls(ops[..k]))
  {
    if k > 0 {
      AllFlaggedReversed(ops, k - 1);
      assert Controls(ops[..k]) == Controls(ops[..k - 1]) + [ops[k - 1].control];
      ReverseOfAppend(Controls(ops[..k - 1]), ops[k - 1].control);
    }
  }

  lemma {:induction false} ReverseOfAppend(s: seq<ControlId>, c: ControlId)
    ensures Reverse(s + [c]) == [c] + Reverse(s)
  {
    if s != [] {
      ReverseOfAppend(s[1..], c);
      assert (s + [c])[1..] == s[1..] + [c];
    }
  }

  lemma {:induction false} NoneFlaggedBeyond(ops: seq<Operation>, k: nat, n: nat)
    requires k <= n <= |ops| && forall i :: k <= i < n ==> !ops[i].applied
    ensures FlaggedBackwards(ops, n) == FlaggedBackwards(ops, k)
    decreases n
  {
    if n > k {
      NoneFlaggedBeyond(ops, k, n - 1);
    }
  }

  lemma StoppedRollsBackInReverse(cfg: Config, ops: seq<Operation>, p: Progress, k: nat, o: Oracle)
    requires StoppedAt(ops, p, 0, k) && !p.tx.finished && forall i :: 0 <= i < |ops| ==> !ops[i].applied
    ensures var r := Rollback(cfg, p.machine, p.tx, o).machine;
            r.restores == p.machine.restores + Reverse(Controls(ops[..k])) && r.writes == p.machine.writes
  {
    RollbackGoesBackwards(cfg, p.machine, p.tx, o);
    hide Rollback;
    NoneFlaggedBeyond(p.tx.operations, k, |ops|);
    AllFlaggedReversed(p.tx.operations, k);
    assert Controls(p.tx.operations[..k]) == Controls(ops[..k]);
  }

  // A transaction that fails at its k-th operation restores exactly that one and those before it, in the reverse
  // of the order in which they were applied, starting with the one that failed.
  lemma FailedApplyUndoesInReverse(cfg: Config, m: Machine, ops: seq<Operation>, id: nat, o: Oracle) returns (k: nat)
    requires forall i :: 0 <= i < |ops| ==> !ops[i].applied
    requires Commit(cfg, m, ops, id, o).error.Some? && Commit(cfg, m, ops, id, o).error.value.Undone?
    ensures var a := Commit(cfg, m, ops, id, o);
            && k <= |ops|
            && a.machine.restores == m.restores + Reverse(Controls(ops[..k]))
            && match a.error.value.cause
               case NotActivated => k == |ops| && a.machine.writes == m.writes + Controls(ops)
               case NotMarked => k > 0 && a.machine.writes == m.writes + Controls(ops[..k - 1])
               case NotApplied(c) => k > 0 && c == ops[k - 1].control
                                     && a.machine.writes == m.writes + Controls(ops[..k])
  {
    var tx := Tx(id, ops, Phase.Applying, false, map[]);
    var (m1, saved) := SaveRecord(m, RecordOf(cfg, tx), o);
    k := Reach(cfg, m1, tx, 0, o);
    ApplyGoesForwards(cfg, m1, tx, 0, o);
    ApplyWritesInOrder(cfg, m1, tx, 0, o);
    var p := ApplyFrom(cfg, m1, tx, 0, o);
    StoppedRollsBackInReverse(cfg, ops, p, k, o);
    hide ApplyFrom, Reach, Rollback, RecordOf, Controls;
    assert ops[..|ops|] == ops;
  }

  // No call made from tick t on fails.
  ghost predicate Quiet(o: Oracle, t: nat) {
    forall i :: i >= t ==> o(i).ok
  }

  lemma {:induction false} QuietUndoIsClean(cfg: Config, m: Machine, tx: Tx, n: nat, o: Oracle)
    requires n <= |tx.operations| && Quiet(o, m.clock)
    requires forall i :: 0 <= i < |tx.operations| ==> tx.operations[i].control in m.world.hardware
    ensures var u := Undo(cfg, m, tx, n, true, o);
            u.clean && u.machine.clock >= m.clock
    decreases n
  {
    if n > 0 {
      var op := tx.operations[n - 1];
      if !op.applied {
        QuietUndoIsClean(cfg, m, tx, n - 1, o);
      } else {
        var m1 := RestoreControl(cfg, m, op.control, op.snapshot, o).0;
        var tx1 := tx.(operations := tx.operations[n - 1 := op.(applied := false)]);
        assert o(m.clock).ok && o(m1.clock).ok;
        QuietUndoIsClean(cfg, SaveRecord(m1, RecordOf(cfg, tx1), o).0, tx1, n - 1, o);
      }
    }
  }

  // One retry without faults finishes the rollback: stock hardware, and no record left.
  lemma QuietRollbackFinishes(cfg: Config, stock: Hardware, m: Machine, tx: Tx, o: Oracle)
    requires Live(cfg, stock, m, Entries(tx.operations)) && !tx.finished && Quiet(o, m.clock)
    ensures var r := Rollback(cfg, m, tx, o);
            r.failure.None? && r.tx.finished && r.machine.world == World(stock, None)
  {
    var tx1 := tx.(phase := RollingBack);
    var entries := Entries(tx.operations);
    forall i | 0 <= i < |tx.operations|
      ensures tx.operations[i].control in m.world.hardware
    {
      assert entries[i].control in stock;
    }
    QuietUndoIsClean(cfg, SaveRecord(m, RecordOf(cfg, tx1), o).0, tx1, |tx1.operations|, o);
    RollbackKeepsLive(cfg, stock, m, tx, o);
  }

  lemma {:induction false} QuietReplayIsClean(cfg: Config, m: Machine, record: Record, n: nat, o: Oracle)
    requires n <= |record.entries| && Quiet(o, m.clock)
    requires forall i :: 0 <= i < |record.entries| ==>
      record.entries[i].control in m.world.hardware && record.entries[i].driver in cfg.drivers
    ensures var r := Replay(cfg, m, record, n, true, o);
            r.clean && r.machine.clock >= m.clock
    decreases n
  {
    if n > 0 {
      var entry := record.entries[n - 1];
      if !entry.applied {
        QuietReplayIsClean(cfg, m, record, n - 1, o);
      } else {
        var m1 := RestoreControl(cfg, m, entry.control, entry.snapshot, o).0;
        assert o(m.clock).ok && o(m1.clock).ok;
        var record1 := record.(entries := record.entries[n - 1 := entry.(applied := false)]);
        QuietReplayIsClean(cfg, SaveRecord(m1, record1, o).0, record1, n - 1, o);
      }
    }
  }

  // From any state a crash can leave, a recovery without faults restores stock and removes the record.
  lemma QuietRecoveryFinishes(cfg: Config, stock: Hardware, m: Machine, o: Oracle)
    requires Recoverable(cfg, stock, m) && Quiet(o, m.clock)
    requires m.world.stored.Some? ==> Replayable(cfg, m.world.stored.value)
    ensures var r := Recover(cfg, m, o);
            r.ok && !r.stale && r.machine.world == World(stock, None)
  {
    RecoverRestores(cfg, stock, m, o);
    assert o(m.clock).ok;
    if m.world.stored.Some? {
      var record := m.world.stored.value;
      QuietReplayIsClean(cfg, Call(m), record, |record.entries|, o);
    }
  }

  predicate Ascending(at: seq<nat>) { forall i, j :: 0 <= i < j < |at| ==> at[i] < at[j] }

  predicate PicksFlagged(entries: seq<Entry>, controls: seq<ControlId>, at: seq<nat>) {
    && Ascending(at) && |at| == |controls|
    && (forall i :: 0 <= i < |at| ==> at[i] < |entries| && entries[at[i]].applied
                                      && controls[i] == entries[at[i]].control)
    && (forall k :: 0 <= k < |entries| && entries[k].applied ==> k in at)
  }

  // These controls are those of the flagged entries, in the order of the record.
  ghost predicate ListsFlagged(entries: seq<Entry>, controls: seq<ControlId>) {
    exists at: seq<nat> :: PicksFlagged(entries, controls, at)
  }

  lemma PicksMore(entries: seq<Entry>, controls: seq<ControlId>, at: seq<nat>, last: Entry)
    requires PicksFlagged(entries, controls, at)
    ensures if last.applied then PicksFlagged(entries + [last], controls + [last.control], at + [|entries|])
            else PicksFlagged(entries + [last], controls, at)
  {
    var more := at + [|entries|];
    assert more[|at|] == |entries|;
    assert forall k :: k in at ==> k in more;
  }

  lemma {:induction false} AppliedControlsGrow(entries: seq<Entry>, last: Entry)
    ensures AppliedControls(entries + [last]) == AppliedControls(entries) + if last.applied then [last.control] else []
  {
    if entries != [] {
      AppliedControlsGrow(entries[1..], last);
      assert (entries + [last])[1..] == entries[1..] + [last];
    }
  }

  lemma {:induction false} AppliedControlsListFlagged(entries: seq<Entry>) returns (at: seq<nat>)
    ensures PicksFlagged(entries, AppliedControls(entries), at)
  {
    at := [];
    if entries != [] {
      hide PicksFlagged, AppliedControls;
      var before, last := entries[..|entries| - 1], entries[|entries| - 1];
      assert before + [last] == entries;
      at := AppliedControlsListFlagged(before);
      AppliedControlsGrow(before, last);
      PicksMore(before, AppliedControls(before), at, last);
      at := if last.applied then at + [|before|] else at;
    }
  }

  // A record of an earlier boot is reported by its flagged controls, and by nothing else; nothing is touched.
  lemma StaleRecordIsReported(cfg: Config, m: Machine, o: Oracle)
    ensures var r := Recover(cfg, m, o);
            r.stale <==> && o(m.clock).ok && m.world.stored.Some?
                         && m.world.stored.value.protocol == RECOVERY_PROTOCOL
                         && m.world.stored.value.machine == cfg.machine && m.world.stored.value.boot != cfg.boot
    ensures var r := Recover(cfg, m, o);
            if r.stale then r.ok && r.machine == Call(m) && ListsFlagged(m.world.stored.value.entries, r.discrepancies)
            else r.discrepancies == []
  {
    hide Replay, PicksFlagged;
    if m.world.stored.Some? {
      var at := AppliedControlsListFlagged(m.world.stored.value.entries);
    }
  }

  function FlaggedSet(ops: seq<Operation>, n: nat): set<ControlId>
    requires n <= |ops|
  {
    set i | 0 <= i < n && ops[i].applied :: ops[i].control
  }

  function Listed(s: seq<ControlId>): set<ControlId> { set c | c in s }

  predicate Partition(m: Machine, ops: seq<Operation>, n: nat, so: RollbackFailure)
    requires n <= |ops|
  {
    && so.remaining.Keys + Listed(so.unverified) == FlaggedSet(ops, n)
    && so.remaining.Keys !! Listed(so.unverified)
    && (forall c :: c in so.remaining ==> c in m.world.hardware && so.remaining[c] == m.world.hardware[c])
    && (forall i, j :: 0 <= i < j < |so.unverified| ==> so.unverified[i] != so.unverified[j])
  }

  lemma FlaggedSetGrows(ops: seq<Operation>, n: nat)
    requires n < |ops| && DistinctControls(ops)
    ensures FlaggedSet(ops, n + 1) == FlaggedSet(ops, n) + if ops[n].applied then {ops[n].control} else {}
    ensures ops[n].control !in FlaggedSet(ops, n)
  {
  }

  lemma ReportingSplits(m: Machine, ops: seq<Operation>, n: nat, so: RollbackFailure, read: Option<Contents>)
    requires n < |ops| && DistinctControls(ops) && Partition(m, ops, n, so) && ops[n].applied
    requires read.Some? ==> ops[n].control in m.world.hardware && read.value == m.world.hardware[ops[n].control]
    ensures Partition(m, ops, n + 1, Reported(so, ops[n].control, read))
  {
    FlaggedSetGrows(ops, n);
    hide FlaggedSet;
    var c, next := ops[n].control, Reported(so, ops[n].control, read);
    assert c !in so.remaining && c !in Listed(so.unverified);
    assert next.remaining.Keys == so.remaining.Keys + if read.Some? then {c} else {};
    assert Listed(next.unverified) == Listed(so.unverified) + if read.Some? then {} else {c};
  }

  lemma {:induction false} ReportPartitions(m: Machine, ops: seq<Operation>, n: nat, so: RollbackFailure, o: Oracle)
    requires n <= |ops| && DistinctControls(ops) && Partition(m, ops, n, so)
    ensures Partition(m, ops, |ops|, Report(m, ops, n, so, o).1)
    decreases |ops| - n
  {
    if n < |ops| {
      if !ops[n].applied {
        FlaggedSetGrows(ops, n);
        ReportPartitions(m, ops, n + 1, so, o);
      } else {
        hide Partition;
        var (m1, read) := ReadControl(m, ops[n].control, o);
        ReportingSplits(m, ops, n, so, read);
        PartitionOnlyReads(m, m1, ops, n + 1, Reported(so, ops[n].control, read));
        ReportPartitions(m1, ops, n + 1, Reported(so, ops[n].control, read), o);
        PartitionOnlyReads(m1, m, ops, |ops|, Report(m, ops, n, so, o).1);
      }
    }
  }

  lemma PartitionOnlyReads(a: Machine, b: Machine, ops: seq<Operation>, n: nat, so: RollbackFailure)
    requires n <= |ops| && a.world == b.world && Partition(a, ops, n, so)
    ensures Partition(b, ops, n, so)
  {
  }

  // The error of a failed rollback splits the controls still flagged into those it has read, with what the
  // hardware holds now, and those it could not.
  lemma FailureReportsEveryRemainingControl(cfg: Config, m: Machine, tx: Tx, o: Oracle)
    requires !tx.finished && DistinctControls(tx.operations)
    requires Rollback(cfg, m, tx, o).failure.Some?
    ensures var r := Rollback(cfg, m, tx, o);
            Partition(r.machine, r.tx.operations, |r.tx.operations|, r.failure.value)
  {
    var tx1 := tx.(phase := RollingBack);
    var m0 := SaveRecord(m, RecordOf(cfg, tx1), o).0;
    var undone := Undo(cfg, m0, tx1, |tx1.operations|, true, o);
    UndoOnlyClears(cfg, m0, tx1, |tx1.operations|, true, o);
    var none := RollbackFailure(map[], []);
    var at := if !undone.clean
              then SaveRecord(undone.machine, RecordOf(cfg, undone.tx.(phase := Incomplete)), o).0
              else RemoveRecord(undone.machine, o).0;
    assert Partition(at, undone.tx.operations, 0, none);
    ReportPartitions(at, undone.tx.operations, 0, none, o);
    ReportOnlyReads(at, undone.tx.operations, 0, none, o);
  }

  lemma WriteReaches(cfg: Config, m: Machine, record: Record, op: Operation, o: Oracle)
    requires WriteControl(cfg, SaveRecord(m, record, o).0, op, o).1.Some?
    ensures var (m1, effective) := WriteControl(cfg, SaveRecord(m, record, o).0, op, o);
            && op.control in m.world.hardware
            && m1.world.hardware == m.world.hardware[op.control := effective.value]
            && effective.value == cfg.image(op.control, op.requested)
  {
  }

  lemma ActivationIsSaved(m: Machine, record: Record, o: Oracle)
    requires SaveRecord(m, record, o).1
    ensures SaveRecord(m, record, o).0.world == World(m.world.hardware, Some(record))
  {
  }

  // A successful transaction leaves every requested control at its request, the rest at stock, and a durable
  // record that flags them all.
  lemma {:induction false} ApplyFromReachesRequests(cfg: Config, m: Machine, tx: Tx, n: nat, o: Oracle)
    requires n <= |tx.operations| && DistinctControls(tx.operations)
    requires ApplyFrom(cfg, m, tx, n, o).cause.None?
    ensures var p := ApplyFrom(cfg, m, tx, n, o);
            var hardware := p.machine.world.hardware;
            && hardware.Keys == m.world.hardware.Keys
            && (forall i :: n <= i < |tx.operations| ==>
                  var op := tx.operations[i];
                  op.control in hardware && hardware[op.control] == cfg.image(op.control, op.requested)
                  && op.control in p.tx.effective && p.tx.effective[op.control] == hardware[op.control])
            && (forall c :: c in hardware && (forall i :: n <= i < |tx.operations| ==> tx.operations[i].control != c)
                  ==> hardware[c] == m.world.hardware[c]
                      && (c in tx.effective ==> c in p.tx.effective && p.tx.effective[c] == tx.effective[c]))
            && p.machine.world.stored == Some(RecordOf(cfg, p.tx))
    decreases |tx.operations| - n
  {
    hide SaveRecord, WriteControl, RecordOf;
    if n == |tx.operations| {
      ActivationIsSaved(m, RecordOf(cfg, tx.(phase := Active)), o);
    } else {
      var op := tx.operations[n].(applied := true);
      var tx1 := tx.(operations := tx.operations[n := op]);
      var m1 := SaveRecord(m, RecordOf(cfg, tx1), o).0;
      var (m2, effective) := WriteControl(cfg, m1, op, o);
      WriteReaches(cfg, m, RecordOf(cfg, tx1), op, o);
      var tx2 := tx1.(effective := tx1.effective[op.control := effective.value]);
      ApplyFromReachesRequests(cfg, m2, tx2, n + 1, o);
      assert forall i :: n + 1 <= i < |tx.operations| ==> tx2.operations[i] == tx.operations[i];
    }
  }

  lemma CommitReachesRequests(cfg: Config, m: Machine, ops: seq<Operation>, id: nat, o: Oracle)
    requires DistinctControls(ops) && Commit(cfg, m, ops, id, o).error.None?
    ensures var a := Commit(cfg, m, ops, id, o);
            var hardware := a.machine.world.hardware;
            && a.active.Some? && |a.active.value.operations| == |ops|
            && hardware.Keys == m.world.hardware.Keys
            && (forall i :: 0 <= i < |ops| ==>
                  ops[i].control in hardware && hardware[ops[i].control] == cfg.image(ops[i].control, ops[i].requested)
                  && ops[i].control in a.active.value.effective
                  && a.active.value.effective[ops[i].control] == hardware[ops[i].control]
                  && a.active.value.operations[i] == ops[i].(applied := true))
            && (forall c :: c in hardware && c !in Controls(ops) ==> hardware[c] == m.world.hardware[c])
            && a.machine.world.stored == Some(RecordOf(cfg, a.active.value))
            && a.machine.writes == m.writes + Controls(ops) && a.machine.restores == m.restores
  {
    var tx := Tx(id, ops, Phase.Applying, false, map[]);
    var m1 := SaveRecord(m, RecordOf(cfg, tx), o).0;
    ApplyFromReachesRequests(cfg, m1, tx, 0, o);
    ApplyGoesForwards(cfg, m1, tx, 0, o);
    ApplyWritesInOrder(cfg, m1, tx, 0, o);
    assert ops[0..|ops|] == ops;
    forall c | c !in Controls(ops)
      ensures forall i :: 0 <= i < |ops| ==> ops[i].control != c
    {
      assert forall i :: 0 <= i < |ops| ==> Controls(ops)[i] == ops[i].control;
    }
  }

  function FileOf(stored: Option<Record>): Option<File> {
    match stored case None => None case Some(record) => Some(Whole(record))
  }

  // The outcomes of a save assumed here are exactly those the recovery file guarantees.
  lemma SavesAreThoseOfTheFile(m: Machine, record: Record, after: Option<Record>, ok: bool)
    ensures PublishOutcome(FileOf(m.world.stored), FileOf(after), record, ok) <==>
            exists o: Oracle :: var (m1, saved) := SaveRecord(m, record, o); m1.world.stored == after && saved == ok
  {
    if PublishOutcome(FileOf(m.world.stored), FileOf(after), record, ok) {
      var o: Oracle := (t: nat) => Outcome(ok, after == Some(record), [], 0);
      var (m1, saved) := SaveRecord(m, record, o);
      assert m1.world.stored == after && saved == ok;
    }
  }
}

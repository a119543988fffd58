// What every step of a transaction keeps: the evidence needed to restore stock settings after a crash.
module TransactionSafety {
  import opened Wrappers
  import opened Model
  import opened Validate
  import opened Recovery
  import opened TransactionSpec

  predicate DistinctEntries(entries: seq<Entry>) {
    forall i, j :: 0 <= i < j < |entries| ==> entries[i].control != entries[j].control
  }

  // One entry a control; every snapshot is the stock contents of its control, and every driver one that can be asked
  // to restore it.
  predicate Truthful(cfg: Config, stock: Hardware, entries: seq<Entry>) {
    && DistinctEntries(entries)
    && forall i :: 0 <= i < |entries| ==>
         entries[i].control in stock && entries[i].snapshot == stock[entries[i].control]
         && entries[i].driver in cfg.drivers
  }

  predicate Replayable(cfg: Config, record: Record) {
    record.protocol == RECOVERY_PROTOCOL && record.machine == cfg.machine && record.boot == cfg.boot
  }

  predicate Covered(stock: Hardware, hardware: Hardware, entries: seq<Entry>) {
    hardware.Keys == stock.Keys && forall c :: c in stock && hardware[c] != stock[c] ==> Flagged(entries, c)
  }

  predicate TruthfulFile(cfg: Config, stock: Hardware, w: World) {
    w.hardware.Keys == stock.Keys && (w.stored.Some? ==> Truthful(cfg, stock, w.stored.value.entries))
  }

  // Each control that is off stock has, in a record this machine would replay, a flagged entry with its
  // stock snapshot.
  predicate Evident(cfg: Config, stock: Hardware, w: World) {
    && TruthfulFile(cfg, stock, w)
    && (w.hardware != stock ==> w.stored.Some? && Replayable(cfg, w.stored.value)
                                && Covered(stock, w.hardware, w.stored.value.entries))
  }

  predicate AllEvident(cfg: Config, stock: Hardware, history: seq<World>) {
    forall i :: 0 <= i < |history| ==> Evident(cfg, stock, history[i])
  }

  // The live transaction alone suffices to restore stock.
  predicate Tracks(cfg: Config, stock: Hardware, hardware: Hardware, entries: seq<Entry>) {
    Truthful(cfg, stock, entries) && Covered(stock, hardware, entries)
  }

  // The evidence has been complete at every instant exactly if no restoration has gone astray, and then still is.
  predicate Kept(cfg: Config, stock: Hardware, m: Machine) {
    && (m.strays == [] <==> AllEvident(cfg, stock, m.history))
    && (m.strays == [] ==> Evident(cfg, stock, m.world))
  }

  predicate BackedUpTo(stored: Option<Record>, entries: seq<Entry>, n: nat) {
    forall i :: 0 <= i < n && i < |entries| && entries[i].applied ==> Backed(stored, entries[i].control)
  }

  // The file flags what the live transaction flags, all but the last of it perhaps.
  predicate Mirrored(stored: Option<Record>, entries: seq<Entry>) {
    forall i, j :: 0 <= i < j < |entries| && entries[i].applied && entries[j].applied ==>
      Backed(stored, entries[i].control)
  }

  // What holds before and after every step while a transaction is live.
  predicate Live(cfg: Config, stock: Hardware, m: Machine, entries: seq<Entry>) {
    && Tracks(cfg, stock, m.world.hardware, entries)
    && TruthfulFile(cfg, stock, m.world)
    && (m.world.stored.Some? ==> Replayable(cfg, m.world.stored.value))
    && Mirrored(m.world.stored, entries)
    && Kept(cfg, stock, m)
  }

  lemma RecordBacksItself(record: Record)
    ensures BackedUpTo(Some(record), record.entries, |record.entries|) && Mirrored(Some(record), record.entries)
  {
    forall i | 0 <= i < |record.entries| && record.entries[i].applied
      ensures Backed(Some(record), record.entries[i].control)
    {
    }
  }

  lemma KeptGrows(cfg: Config, stock: Hardware, a: Machine, b: Machine, shown: seq<World>)
    requires Kept(cfg, stock, a) && b.history == a.history + shown && shown != []
    requires b.world == shown[|shown| - 1] && a.strays <= b.strays
    requires a.strays == [] ==> (b.strays == [] <==> AllEvident(cfg, stock, shown))
    ensures Kept(cfg, stock, b)
  {
    hide Evident;
    if a.strays == [] {
      assert AllEvident(cfg, stock, b.history) <==> AllEvident(cfg, stock, shown) by {
        forall i | 0 <= i < |shown|
          ensures b.history[|a.history| + i] == shown[i]
        {
        }
      }
    } else {
      assert b.strays[0] == a.strays[0];
      var i :| 0 <= i < |a.history| && !Evident(cfg, stock, a.history[i]);
      assert b.history[i] == a.history[i];
    }
  }

  lemma SaveKeepsLive(cfg: Config, stock: Hardware, m: Machine, record: Record, o: Oracle)
    requires Live(cfg, stock, m, record.entries) && Replayable(cfg, record)
    ensures var (m1, ok) := SaveRecord(m, record, o);
            && Live(cfg, stock, m1, record.entries)
            && m1.strays == m.strays && m1.world.hardware == m.world.hardware
            && (ok ==> m1.world.stored == Some(record))
            && m1.world.stored == if ok || o(m.clock).published then Some(record) else m.world.stored
  {
    var m1 := SaveRecord(m, record, o).0;
    RecordBacksItself(record);
    KeptGrows(cfg, stock, m, m1, [m1.world]);
  }

  // Off stock, a control the file flags is evident whatever it holds.
  lemma HoldingIsEvident(cfg: Config, stock: Hardware, w: World, c: ControlId, contents: Contents)
    requires Evident(cfg, stock, w) && c in stock && (Backed(w.stored, c) || contents == stock[c])
    requires w.stored.Some? ==> Replayable(cfg, w.stored.value)
    ensures Evident(cfg, stock, Holding(w, c, contents))
  {
    assert w.hardware == stock && contents == stock[c] ==> Holding(w, c, contents).hardware == stock;
  }

  // One it does not flag is not.
  lemma HoldingIsNotEvident(cfg: Config, stock: Hardware, w: World, c: ControlId, contents: Contents)
    requires c in stock && !Backed(w.stored, c) && contents != stock[c]
    ensures !Evident(cfg, stock, Holding(w, c, contents))
  {
    assert Holding(w, c, contents).hardware[c] != stock[c];
  }

  lemma DriveShows(cfg: Config, stock: Hardware, m: Machine, c: ControlId, target: Contents, o: Oracle)
    requires c in stock && Evident(cfg, stock, m.world)
    requires m.world.stored.Some? ==> Replayable(cfg, m.world.stored.value)
    requires !Backed(m.world.stored, c) ==> target == stock[c]
    ensures var shown := Drive(m, c, target, o).history[|m.history|..];
            AllEvident(cfg, stock, shown) <==> Backed(m.world.stored, c) || !Disturbs(o(m.clock), stock[c])
  {
    hide Evident, Backed;
    var outcome, w := o(m.clock), m.world;
    var final := if outcome.ok then target else outcome.left;
    var shown := Drive(m, c, target, o).history[|m.history|..];
    assert shown == Shown(w, c, outcome.passing) + [Holding(w, c, final)];
    if Backed(w.stored, c) || !Disturbs(outcome, stock[c]) {
      forall i | 0 <= i < |shown|
        ensures Evident(cfg, stock, shown[i])
      {
        HoldingIsEvident(cfg, stock, w, c, if i < |outcome.passing| then outcome.passing[i] else final);
      }
    } else if !outcome.ok && outcome.left != stock[c] {
      HoldingIsNotEvident(cfg, stock, w, c, final);
      assert !Evident(cfg, stock, shown[|shown| - 1]);
    } else {
      var i :| 0 <= i < |outcome.passing| && outcome.passing[i] != stock[c];
      HoldingIsNotEvident(cfg, stock, w, c, outcome.passing[i]);
      assert !Evident(cfg, stock, shown[i]);
    }
  }

  // Driving a control that the transaction flags keeps the transaction live; the evidence is lost exactly if the
  // file does not flag the control and the drive disturbs it.
  lemma DriveKeepsLive(cfg: Config, stock: Hardware, m: Machine, entries: seq<Entry>, c: ControlId, target: Contents,
                       strays: seq<ControlId>, o: Oracle)
    requires Live(cfg, stock, m, entries) && c in stock && Flagged(entries, c)
    requires !Backed(m.world.stored, c) ==> target == stock[c]
    requires strays == m.strays + if !Backed(m.world.stored, c) && Disturbs(o(m.clock), stock[c]) then [c] else []
    ensures Live(cfg, stock, Drive(m.(strays := strays), c, target, o), entries)
  {
    var m1 := Drive(m.(strays := strays), c, target, o);
    var shown := m1.history[|m.history|..];
    assert m1.history == m.history + shown;
    if m.strays == [] {
      DriveShows(cfg, stock, m, c, target, o);
      assert shown == Drive(m, c, target, o).history[|m.history|..];
    }
    hide Disturbs, Mirrored, Backed, Evident;
    KeptGrows(cfg, stock, m, m1, shown);
  }

  lemma RestoreKeepsLive(cfg: Config, stock: Hardware, m: Machine, entries: seq<Entry>, k: nat, o: Oracle)
    requires Live(cfg, stock, m, entries) && k < |entries| && entries[k].applied
    ensures var (m1, ok) := RestoreControl(cfg, m, entries[k].control, entries[k].snapshot, o);
            && Live(cfg, stock, m1, entries)
            && (ok ==> m1.world.hardware[entries[k].control] == stock[entries[k].control])
            && m1.world.stored == m.world.stored
            && m1.strays == m.strays + if GoesAstray(cfg, m, entries[k].control, stock, o)
                                       then [entries[k].control] else []
  {
    var c := entries[k].control;
    assert Flagged(entries, c);
    var noted := m.(restores := m.restores + [c]);
    hide Disturbs, Mirrored, Backed, Evident, AllEvident;
    if !(cfg.gentle(c) && m.world.hardware[c] == entries[k].snapshot) {
      var strays := RestoreControl(cfg, m, c, entries[k].snapshot, o).0.strays;
      DriveKeepsLive(cfg, stock, noted, entries, c, entries[k].snapshot, strays, o);
    }
  }

  // The branch that loses evidence: nothing durable flags the control, its Restore rewrites it all the same, and the
  // rewriting disturbs it.
  predicate GoesAstray(cfg: Config, m: Machine, c: ControlId, stock: Hardware, o: Oracle) {
    && c in stock && c in m.world.hardware
    && !Backed(m.world.stored, c) && !(cfg.gentle(c) && m.world.hardware[c] == stock[c])
    && Disturbs(o(m.clock), stock[c])
  }

  lemma ClearKeepsTracks(cfg: Config, stock: Hardware, hardware: Hardware, entries: seq<Entry>, k: nat)
    requires Tracks(cfg, stock, hardware, entries) && k < |entries|
    requires hardware[entries[k].control] == stock[entries[k].control]
    ensures Tracks(cfg, stock, hardware, entries[k := entries[k].(applied := false)])
  {
    var cleared := entries[k := entries[k].(applied := false)];
    forall c | c in stock && hardware[c] != stock[c]
      ensures Flagged(cleared, c)
    {
      var i :| 0 <= i < |entries| && entries[i].control == c && entries[i].applied;
      assert cleared[i] == entries[i];
    }
  }

  lemma ClearKeepsLive(cfg: Config, stock: Hardware, m: Machine, entries: seq<Entry>, k: nat)
    requires Live(cfg, stock, m, entries) && k < |entries|
    requires m.world.hardware[entries[k].control] == stock[entries[k].control]
    ensures Live(cfg, stock, m, entries[k := entries[k].(applied := false)])
  {
    ClearKeepsTracks(cfg, stock, m.world.hardware, entries, k);
  }

  lemma EntriesUpdate(ops: seq<Operation>, k: nat, op: Operation)
    requires k < |ops|
    ensures Entries(ops[k := op]) == Entries(ops)[k := EntryOf(op)]
  {
  }

  lemma {:induction false} UndoKeepsLive(cfg: Config, stock: Hardware, m: Machine, tx: Tx, n: nat, clean: bool,
                                         o: Oracle)
    requires n <= |tx.operations| && Live(cfg, stock, m, Entries(tx.operations))
    ensures var u := Undo(cfg, m, tx, n, clean, o);
            Live(cfg, stock, u.machine, Entries(u.tx.operations))
    decreases n
  {
    hide RestoreControl, SaveRecord, Tracks, TruthfulFile, Kept, Mirrored;
    if n == 0 {
    } else if !tx.operations[n - 1].applied {
      UndoKeepsLive(cfg, stock, m, tx, n - 1, clean, o);
    } else {
      var entries := Entries(tx.operations);
      var op := tx.operations[n - 1];
      RestoreKeepsLive(cfg, stock, m, entries, n - 1, o);
      var (m1, restored) := RestoreControl(cfg, m, op.control, op.snapshot, o);
      if !restored {
        UndoKeepsLive(cfg, stock, m1, tx, n - 1, false, o);
      } else {
        var tx1 := tx.(operations := tx.operations[n - 1 := op.(applied := false)]);
        EntriesUpdate(tx.operations, n - 1, op.(applied := false));
        ClearKeepsLive(cfg, stock, m1, entries, n - 1);
        SaveKeepsLive(cfg, stock, m1, RecordOf(cfg, tx1), o);
        var (m2, saved) := SaveRecord(m1, RecordOf(cfg, tx1), o);
        UndoKeepsLive(cfg, stock, m2, tx1, n - 1, clean && saved, o);
      }
    }
  }

  // `after` is `before` with some flags among the first n cleared, and nothing else changed.
  predicate OnlyClears(before: seq<Operation>, after: seq<Operation>, n: nat) {
    && |after| == |before|
    && forall i :: 0 <= i < |before| ==>
         after[i] == before[i] || (i < n && before[i].applied && after[i] == before[i].(applied := false))
  }

  // A retry can only shrink the set of controls still to be restored.
  lemma {:induction false} UndoOnlyClears(cfg: Config, m: Machine, tx: Tx, n: nat, clean: bool, o: Oracle)
    requires n <= |tx.operations|
    ensures var u := Undo(cfg, m, tx, n, clean, o);
            && OnlyClears(tx.operations, u.tx.operations, n)
            && u.tx == tx.(operations := u.tx.operations)
            && (u.clean ==> clean && forall i :: 0 <= i < n ==> !u.tx.operations[i].applied)
    decreases n
  {
    hide RestoreControl, SaveRecord;
    if n > 0 {
      if !tx.operations[n - 1].applied {
        UndoOnlyClears(cfg, m, tx, n - 1, clean, o);
      } else {
        var op := tx.operations[n - 1];
        var (m1, restored) := RestoreControl(cfg, m, op.control, op.snapshot, o);
        if !restored {
          UndoOnlyClears(cfg, m1, tx, n - 1, false, o);
        } else {
          var tx1 := tx.(operations := tx.operations[n - 1 := op.(applied := false)]);
          var (m2, saved) := SaveRecord(m1, RecordOf(cfg, tx1), o);
          UndoOnlyClears(cfg, m2, tx1, n - 1, clean && saved, o);
        }
      }
    }
  }

  lemma RemoveKeepsLive(cfg: Config, stock: Hardware, m: Machine, entries: seq<Entry>, o: Oracle)
    requires Live(cfg, stock, m, entries) && NoneFlagged(entries)
    ensures var (m1, ok) := RemoveRecord(m, o);
            && Live(cfg, stock, m1, entries) && m1.strays == m.strays
            && m1.world == World(stock, if ok then None else m.world.stored)
  {
    var m1 := RemoveRecord(m, o).0;
    NothingFlaggedMeansStock(stock, m.world.hardware, entries);
    KeptGrows(cfg, stock, m, m1, [m1.world]);
  }

  lemma NothingFlaggedMeansStock(stock: Hardware, hardware: Hardware, entries: seq<Entry>)
    requires Covered(stock, hardware, entries)
    requires NoneFlagged(entries)
    ensures hardware == stock
  {
    assert forall c :: c in stock ==> hardware[c] == stock[c];
  }

  // A rollback keeps the evidence at every instant. If it reports success the hardware is at stock and the
  // record is gone; if it does not, the transaction it returns can be rolled back again.
  lemma RollbackKeepsLive(cfg: Config, stock: Hardware, m: Machine, tx: Tx, o: Oracle)
    requires Live(cfg, stock, m, Entries(tx.operations)) && !tx.finished
    ensures var r := Rollback(cfg, m, tx, o);
            && Live(cfg, stock, r.machine, Entries(r.tx.operations))
            && (r.failure.None? <==> r.tx.finished)
            && (r.failure.None? ==> r.machine.world == World(stock, None))
            && OnlyClears(tx.operations, r.tx.operations, |tx.operations|)
  {
    var tx1 := tx.(phase := RollingBack);
    assert Entries(tx1.operations) == Entries(tx.operations);
    SaveKeepsLive(cfg, stock, m, RecordOf(cfg, tx1), o);
    var m0 := SaveRecord(m, RecordOf(cfg, tx1), o).0;
    UndoKeepsLive(cfg, stock, m0, tx1, |tx1.operations|, true, o);
    UndoOnlyClears(cfg, m0, tx1, |tx1.operations|, true, o);
    var undone := Undo(cfg, m0, tx1, |tx1.operations|, true, o);
    if !undone.clean {
      var tx2 := undone.tx.(phase := Incomplete);
      SaveKeepsLive(cfg, stock, undone.machine, RecordOf(cfg, tx2), o);
      ReportOnlyReads(SaveRecord(undone.machine, RecordOf(cfg, tx2), o).0, tx2.operations, 0,
                      RollbackFailure(map[], []), o);
    } else {
      RemoveKeepsLive(cfg, stock, undone.machine, Entries(undone.tx.operations), o);
      ReportOnlyReads(RemoveRecord(undone.machine, o).0, undone.tx.operations, 0, RollbackFailure(map[], []), o);
    }
  }

  lemma {:induction false} ReportOnlyReads(m: Machine, ops: seq<Operation>, n: nat, so: RollbackFailure, o: Oracle)
    requires n <= |ops|
    ensures var m1 := Report(m, ops, n, so, o).0;
            m1 == m.(clock := m1.clock)
    decreases |ops| - n
  {
    if n < |ops| {
      if !ops[n].applied {
        ReportOnlyReads(m, ops, n + 1, so, o);
      } else {
        var (m1, read) := ReadControl(m, ops[n].control, o);
        ReportOnlyReads(m1, ops, n + 1,
                        if read.Some? then so.(remaining := so.remaining[ops[n].control := read.value])
                        else so.(unverified := so.unverified + [ops[n].control]), o);
      }
    }
  }

  predicate Unflagged(entries: seq<Entry>, n: nat) {
    forall i :: n <= i < |entries| ==> !entries[i].applied
  }

  // Flagging the next operation makes it the last one flagged.
  lemma FlagKeepsLive(cfg: Config, stock: Hardware, m: Machine, entries: seq<Entry>, n: nat)
    requires Live(cfg, stock, m, entries) && n < |entries| && Unflagged(entries, n)
    requires BackedUpTo(m.world.stored, entries, n)
    ensures var flagged := entries[n := entries[n].(applied := true)];
            Live(cfg, stock, m, flagged) && Unflagged(flagged, n + 1) && Flagged(flagged, entries[n].control)
  {
    var flagged := entries[n := entries[n].(applied := true)];
    FlagKeepsTracks(cfg, stock, m.world.hardware, entries, n);
    assert flagged[n].control == entries[n].control && flagged[n].applied;
    forall i, j | 0 <= i < j < |flagged| && flagged[i].applied && flagged[j].applied
      ensures Backed(m.world.stored, flagged[i].control)
    {
      assert j <= n && flagged[i] == entries[i];
    }
  }

  lemma WriteKeepsLive(cfg: Config, stock: Hardware, m: Machine, entries: seq<Entry>, op: Operation, o: Oracle)
    requires Live(cfg, stock, m, entries) && Flagged(entries, op.control) && Backed(m.world.stored, op.control)
    ensures var m1 := WriteControl(cfg, m, op, o).0;
            Live(cfg, stock, m1, entries) && m1.strays == m.strays && m1.world.stored == m.world.stored
  {
    var noted := m.(writes := m.writes + [op.control]);
    assert noted.strays == m.strays + [];
    DriveKeepsLive(cfg, stock, noted, entries, op.control, cfg.image(op.control, op.requested), noted.strays, o);
  }

  // While applying, nothing goes astray; and but for a flag that could not be made durable, the file flags whatever
  // the transaction does.
  lemma {:induction false} ApplyFromKeepsLive(cfg: Config, stock: Hardware, m: Machine, tx: Tx, n: nat, o: Oracle)
    requires n <= |tx.operations| && Live(cfg, stock, m, Entries(tx.operations)) && !tx.finished
    requires Unflagged(Entries(tx.operations), n) && BackedUpTo(m.world.stored, Entries(tx.operations), n)
    ensures var p := ApplyFrom(cfg, m, tx, n, o);
            && Live(cfg, stock, p.machine, Entries(p.tx.operations))
            && !p.tx.finished
            && |p.tx.operations| == |tx.operations|
            && p.machine.strays == m.strays
            && (p.cause.None? ==> p.machine.world.stored == Some(RecordOf(cfg, p.tx)))
            && (p.cause != Some(NotMarked) ==>
                  BackedUpTo(p.machine.world.stored, Entries(p.tx.operations), |tx.operations|))
    decreases |tx.operations| - n
  {
    hide Live, SaveRecord, WriteControl;
    if n == |tx.operations| {
      var tx1 := tx.(phase := Active);
      SaveKeepsLive(cfg, stock, m, RecordOf(cfg, tx1), o);
      RecordBacksItself(RecordOf(cfg, tx1));
    } else {
      var op := tx.operations[n].(applied := true);
      var tx1 := tx.(operations := tx.operations[n := op]);
      var entries := Entries(tx1.operations);
      EntriesUpdate(tx.operations, n, op);
      FlagKeepsLive(cfg, stock, m, Entries(tx.operations), n);
      SaveKeepsLive(cfg, stock, m, RecordOf(cfg, tx1), o);
      var (m1, saved) := SaveRecord(m, RecordOf(cfg, tx1), o);
      if saved {
        RecordBacksItself(RecordOf(cfg, tx1));
        assert entries[n].control == op.control && entries[n].applied;
        WriteKeepsLive(cfg, stock, m1, entries, op, o);
        var (m2, effective) := WriteControl(cfg, m1, op, o);
        if effective.Some? {
          ApplyFromKeepsLive(cfg, stock, m2, tx1.(effective := tx1.effective[op.control := effective.value]), n + 1, o);
        }
      }
    }
  }

  lemma FlagKeepsTracks(cfg: Config, stock: Hardware, hardware: Hardware, entries: seq<Entry>, k: nat)
    requires Tracks(cfg, stock, hardware, entries) && k < |entries|
    ensures Tracks(cfg, stock, hardware, entries[k := entries[k].(applied := true)])
  {
    var flagged := entries[k := entries[k].(applied := true)];
    forall c | c in stock && hardware[c] != stock[c]
      ensures Flagged(flagged, c)
    {
      var i :| 0 <= i < |entries| && entries[i].control == c && entries[i].applied;
      assert flagged[i].applied && flagged[i].control == c;
    }
  }

  predicate DistinctControls(ops: seq<Operation>) {
    forall i, j :: 0 <= i < j < |ops| ==> ops[i].control != ops[j].control
  }

  predicate Sorted(ops: seq<Operation>) {
    forall i, j :: 0 <= i < j < |ops| ==> ops[i].order <= ops[j].order
  }

  function OfOrder(ops: seq<Operation>, k: int): seq<Operation> {
    if ops == [] then []
    else (if ops[0].order == k then [ops[0]] else []) + OfOrder(ops[1..], k)
  }

  lemma {:induction false} InsertKeepsElements(op: Operation, sorted: seq<Operation>)
    requires Sorted(sorted)
    ensures var result := Insert(op, sorted);
            && Sorted(result) && |result| == |sorted| + 1
            && forall x :: x in result <==> x == op || x in sorted
  {
    if !(sorted == [] || op.order <= sorted[0].order) {
      InsertKeepsElements(op, sorted[1..]);
      var inserted := Insert(op, sorted[1..]);
      forall i | 0 <= i < |inserted|
        ensures inserted[i].order >= sorted[0].order
      {
        assert inserted[i] in inserted;
      }
    }
  }

  predicate Fresh(op: Operation, ops: seq<Operation>) {
    forall x :: x in ops ==> x.control != op.control
  }

  lemma {:induction false} InsertKeepsDistinct(op: Operation, sorted: seq<Operation>)
    requires Sorted(sorted) && DistinctControls(sorted) && Fresh(op, sorted)
    ensures DistinctControls(Insert(op, sorted))
  {
    if !(sorted == [] || op.order <= sorted[0].order) {
      InsertKeepsDistinct(op, sorted[1..]);
      InsertKeepsElements(op, sorted[1..]);
      var inserted := Insert(op, sorted[1..]);
      forall i | 0 <= i < |inserted|
        ensures inserted[i].control != sorted[0].control
      {
        assert inserted[i] in inserted;
        assert inserted[i] == op || inserted[i] in sorted[1..];
      }
    }
  }

  lemma OfOrderCons(op: Operation, ops: seq<Operation>, k: int)
    ensures OfOrder([op] + ops, k) == (if op.order == k then [op] else []) + OfOrder(ops, k)
  {
    assert ([op] + ops)[1..] == ops;
  }

  lemma {:induction false} InsertIsStable(op: Operation, sorted: seq<Operation>, k: int)
    ensures OfOrder(Insert(op, sorted), k) == (if op.order == k then [op] else []) + OfOrder(sorted, k)
  {
    hide OfOrder;
    if sorted == [] || op.order <= sorted[0].order {
      OfOrderCons(op, sorted, k);
    } else {
      var rest := sorted[1..];
      InsertIsStable(op, rest, k);
      OfOrderCons(sorted[0], Insert(op, rest), k);
      OfOrderCons(sorted[0], rest, k);
      assert sorted == [sorted[0]] + rest;
    }
  }

  // The application order is by Order, and operations of equal order keep the order they were requested in.
  lemma {:induction false} SortIsStable(ops: seq<Operation>, k: int)
    ensures var result := SortByOrder(ops);
            && Sorted(result) && |result| == |ops|
            && (forall x :: x in result <==> x in ops)
            && OfOrder(result, k) == OfOrder(ops, k)
            && (DistinctControls(ops) ==> DistinctControls(result))
  {
    if ops != [] {
      var rest := SortByOrder(ops[1..]);
      SortIsStable(ops[1..], k);
      InsertKeepsElements(ops[0], rest);
      InsertIsStable(ops[0], rest, k);
      assert forall x :: x in ops <==> x == ops[0] || x in ops[1..];
      if DistinctControls(ops) {
        InsertKeepsDistinct(ops[0], rest);
      }
    }
  }

  // The operations are prepared one for each change, in order, and preparing touches nothing.
  lemma {:induction false} PrepareMatchesChanges(cfg: Config, byId: Index, m: Machine, changes: seq<Change>,
                                                 done: seq<Operation>, o: Oracle)
    ensures var p := Prepare(cfg, byId, m, changes, done, o);
            && p.machine == m.(clock := p.machine.clock)
            && (!p.error ==>
                  && |p.operations| == |done| + |changes|
                  && (forall j :: 0 <= j < |done| ==> p.operations[j] == done[j])
                  && forall i :: 0 <= i < |changes| ==>
                       PreparedFor(cfg, byId, p.operations[|done| + i], changes[i]))
    decreases |changes|
  {
    if changes != [] && changes[0].id in byId && byId[changes[0].id].driver in cfg.drivers && o(m.clock).ok {
      var op := Operation(changes[0].id, byId[changes[0].id].driver, cfg.order(changes[0].id),
                          changes[0].requested, 0, false);
      PrepareMatchesChanges(cfg, byId, Call(m), changes[1..], done + [op], o);
      var p := Prepare(cfg, byId, m, changes, done, o);
      if !p.error {
        forall i | 0 <= i < |changes|
          ensures PreparedFor(cfg, byId, p.operations[|done| + i], changes[i])
        {
          if i > 0 {
            assert changes[i] == changes[1..][i - 1];
          } else {
            assert p.operations[|done|] == (done + [op])[|done|];
          }
        }
      }
    }
  }

  // It is the operation of the driver that offers the control.
  predicate PreparedFor(cfg: Config, byId: Index, op: Operation, change: Change) {
    && op.control == change.id && op.requested == change.requested && !op.applied
    && op.order == cfg.order(change.id)
    && Offered(cfg, byId, op)
  }

  predicate Offered(cfg: Config, byId: Index, op: Operation) {
    op.control in byId && op.driver == byId[op.control].driver && op.driver in cfg.drivers
  }

  predicate AllOffered(cfg: Config, byId: Index, ops: seq<Operation>) {
    forall i :: 0 <= i < |ops| ==> Offered(cfg, byId, ops[i])
  }

  lemma {:induction false} CaptureReadsHardware(m: Machine, ops: seq<Operation>, n: nat, o: Oracle)
    requires n <= |ops|
    requires forall i :: 0 <= i < n ==> ops[i].control in m.world.hardware
                                        && ops[i].snapshot == m.world.hardware[ops[i].control]
    ensures var p := CaptureAll(m, ops, n, o);
            && p.machine == m.(clock := p.machine.clock)
            && |p.operations| == |ops|
            && (forall i :: 0 <= i < |ops| ==> p.operations[i] == ops[i].(snapshot := p.operations[i].snapshot))
            && (!p.error ==> forall i :: 0 <= i < |ops| ==>
                  ops[i].control in m.world.hardware
                  && p.operations[i].snapshot == m.world.hardware[ops[i].control])
    decreases |ops| - n
  {
    if n < |ops| {
      var (m1, read) := ReadControl(m, ops[n].control, o);
      if read.Some? {
        CaptureReadsHardware(m1, ops[n := ops[n].(snapshot := read.value)], n + 1, o);
      }
    }
  }

  predicate NoneFlagged(entries: seq<Entry>) {
    forall i :: 0 <= i < |entries| ==> !entries[i].applied
  }

  // At rest: the hardware is at stock and no record asks for anything to be restored.
  predicate AtRest(cfg: Config, stock: Hardware, m: Machine) {
    && m.world.hardware == stock && TruthfulFile(cfg, stock, m.world)
    && (m.world.stored.Some? ==> NoneFlagged(m.world.stored.value.entries))
    && Kept(cfg, stock, m)
  }

  // A transaction either is still live, with all the evidence, or has left the hardware at stock.
  predicate Settled(cfg: Config, stock: Hardware, m: Machine, active: Option<Tx>) {
    if active.None? then AtRest(cfg, stock, m)
    else !active.value.finished && Live(cfg, stock, m, Entries(active.value.operations))
  }

  // Operations captured at rest, none of them applied.
  predicate Captured(cfg: Config, stock: Hardware, ops: seq<Operation>) {
    && DistinctControls(ops)
    && forall i :: 0 <= i < |ops| ==>
         ops[i].control in stock && ops[i].snapshot == stock[ops[i].control] && !ops[i].applied
         && ops[i].driver in cfg.drivers
  }

  lemma FirstSaveIsLive(cfg: Config, stock: Hardware, m: Machine, tx: Tx, o: Oracle)
    requires AtRest(cfg, stock, m) && Captured(cfg, stock, tx.operations)
    ensures var (m1, saved) := SaveRecord(m, RecordOf(cfg, tx), o);
            && AtRest(cfg, stock, m1) && m1.strays == m.strays
            && (saved ==> Live(cfg, stock, m1, Entries(tx.operations)))
  {
    var m1 := SaveRecord(m, RecordOf(cfg, tx), o).0;
    KeptGrows(cfg, stock, m, m1, [m1.world]);
  }

  // A transaction over captured operations ends live, with all that undoing it takes, or at stock.
  lemma CommitSettles(cfg: Config, stock: Hardware, m: Machine, ops: seq<Operation>, id: nat, o: Oracle)
    requires AtRest(cfg, stock, m) && Captured(cfg, stock, ops)
    ensures var a := Commit(cfg, m, ops, id, o);
            && Settled(cfg, stock, a.machine, a.active)
            && (a.error.None? ==> a.active.Some?)
            && (a.active.None? && a.error != Some(NotSaved) ==> a.machine.world == World(stock, None))
  {
    var tx := Tx(id, ops, Phase.Applying, false, map[]);
    FirstSaveIsLive(cfg, stock, m, tx, o);
    var (m1, saved) := SaveRecord(m, RecordOf(cfg, tx), o);
    hide Live, SaveRecord, Kept;
    if saved {
      ApplyFromKeepsLive(cfg, stock, m1, tx, 0, o);
      var p := ApplyFrom(cfg, m1, tx, 0, o);
      if p.cause.Some? {
        RollbackKeepsLive(cfg, stock, p.machine, p.tx, o);
        RestedOnceRolledBack(cfg, stock, Rollback(cfg, p.machine, p.tx, o));
      }
    }
  }

  lemma RestedOnceRolledBack(cfg: Config, stock: Hardware, r: RolledBack)
    requires Live(cfg, stock, r.machine, Entries(r.tx.operations))
    ensures r.machine.world == World(stock, None) ==> AtRest(cfg, stock, r.machine)
  {
  }

  lemma PreparedIsDistinct(cfg: Config, byId: Index, ops: seq<Operation>, changes: seq<Change>)
    requires Distinct(changes) && |ops| == |changes|
    requires forall i :: 0 <= i < |changes| ==> PreparedFor(cfg, byId, ops[i], changes[i])
    ensures Planned(cfg, byId, ops)
  {
  }

  // Operations of different controls, none of them applied, each of the driver that offers its control.
  predicate Planned(cfg: Config, byId: Index, ops: seq<Operation>) {
    DistinctControls(ops) && Unapplied(ops) && AllOffered(cfg, byId, ops)
  }

  lemma SameOperationsArePlanned(cfg: Config, byId: Index, a: seq<Operation>, b: seq<Operation>)
    requires Planned(cfg, byId, a) && DistinctControls(b) && forall x :: x in b ==> x in a
    ensures Planned(cfg, byId, b)
  {
    forall i | 0 <= i < |b|
      ensures !b[i].applied && Offered(cfg, byId, b[i])
    {
      assert b[i] in b;
    }
  }

  lemma PreparingIsSound(cfg: Config, byId: Index, m: Machine, changes: seq<Change>, o: Oracle)
    requires Distinct(changes)
    ensures var p := Prepare(cfg, byId, m, changes, [], o);
            p.machine == m.(clock := p.machine.clock) && (!p.error ==> Planned(cfg, byId, p.operations))
  {
    hide Prepare, Planned, PreparedFor, Distinct;
    PrepareMatchesChanges(cfg, byId, m, changes, [], o);
    var p := Prepare(cfg, byId, m, changes, [], o);
    if !p.error {
      forall i | 0 <= i < |changes|
        ensures PreparedFor(cfg, byId, p.operations[i], changes[i])
      {
        assert PreparedFor(cfg, byId, p.operations[0 + i], changes[i]);
      }
      PreparedIsDistinct(cfg, byId, p.operations, changes);
    }
  }

  lemma PlanIsSound(cfg: Config, byId: Index, m: Machine, changes: seq<Change>, o: Oracle)
    requires Distinct(changes)
    ensures var p := Prepare(cfg, byId, m, changes, [], o);
            p.machine == m.(clock := p.machine.clock)
            && (!p.error ==> Planned(cfg, byId, SortByOrder(p.operations)))
  {
    hide Prepare, SortByOrder, Sorted, OfOrder, AllOffered, Unapplied;
    PreparingIsSound(cfg, byId, m, changes, o);
    var operations := Prepare(cfg, byId, m, changes, [], o).operations;
    SortIsStable(operations, 0);
    if Planned(cfg, byId, operations) {
      SameOperationsArePlanned(cfg, byId, operations, SortByOrder(operations));
    }
  }

  lemma CaptureIsSound(cfg: Config, byId: Index, m: Machine, ops: seq<Operation>, o: Oracle)
    requires Planned(cfg, byId, ops)
    ensures var p := CaptureAll(m, ops, 0, o);
            && p.machine == m.(clock := p.machine.clock)
            && (!p.error ==> Planned(cfg, byId, p.operations) && Captured(cfg, m.world.hardware, p.operations))
  {
    CaptureReadsHardware(m, ops, 0, o);
    var p := CaptureAll(m, ops, 0, o);
    hide CaptureAll;
    forall i | 0 <= i < |ops| && !p.error
      ensures p.operations[i] == ops[i].(snapshot := p.operations[i].snapshot) && Offered(cfg, byId, p.operations[i])
    {
      assert Offered(cfg, byId, ops[i]);
    }
  }

  predicate Unapplied(ops: seq<Operation>) {
    forall i :: 0 <= i < |ops| ==> !ops[i].applied
  }

  // Whatever fails while applying, the result is a live transaction with its evidence, or stock hardware.
  lemma ApplySettles(cfg: Config, stock: Hardware, capabilities: CapabilitySet, m: Machine, changes: ChangeSet,
                     id: nat, o: Oracle)
    requires AtRest(cfg, stock, m)
    ensures var a := Apply(cfg, capabilities, m, changes, id, o);
            && Settled(cfg, stock, a.machine, a.active)
            && (a.error.None? ==> a.active.Some?)
  {
    hide Commit, Live, Evident, AllEvident, TruthfulFile;
    var validated := Validated(capabilities, changes);
    if validated.Success? {
      var byId, accepted := ById(capabilities.capabilities), validated.value.changeSet.changes;
      AcceptedSetIsOrdered(capabilities, changes);
      PlanIsSound(cfg, byId, m, accepted, o);
      var p := Prepare(cfg, byId, m, accepted, [], o);
      if !p.error {
        CaptureIsSound(cfg, byId, p.machine, SortByOrder(p.operations), o);
        var captured := CaptureAll(p.machine, SortByOrder(p.operations), 0, o);
        if !captured.error {
          CommitSettles(cfg, stock, captured.machine, captured.operations, id, o);
        }
      }
    }
  }

  lemma {:induction false} ReplayKeepsLive(cfg: Config, stock: Hardware, m: Machine, record: Record, n: nat,
                                           clean: bool, o: Oracle)
    requires n <= |record.entries| && Live(cfg, stock, m, record.entries) && Replayable(cfg, record)
    requires BackedUpTo(m.world.stored, record.entries, |record.entries|)
    ensures var r := Replay(cfg, m, record, n, clean, o);
            && Live(cfg, stock, r.machine, r.record.entries) && r.machine.strays == m.strays
            && BackedUpTo(r.machine.world.stored, r.record.entries, |r.record.entries|)
    decreases n
  {
    hide RestoreControl, SaveRecord, Tracks, TruthfulFile, Kept, Mirrored;
    if n > 0 {
      var entry := record.entries[n - 1];
      if !entry.applied {
        ReplayKeepsLive(cfg, stock, m, record, n - 1, clean, o);
      } else if entry.driver !in cfg.drivers {
        ReplayKeepsLive(cfg, stock, m, record, n - 1, false, o);
      } else {
        RestoreKeepsLive(cfg, stock, m, record.entries, n - 1, o);
        var (m1, restored) := RestoreControl(cfg, m, entry.control, entry.snapshot, o);
        if !restored {
          ReplayKeepsLive(cfg, stock, m1, record, n - 1, false, o);
        } else {
          ClearKeepsLive(cfg, stock, m1, record.entries, n - 1);
          var record1 := record.(entries := record.entries[n - 1 := entry.(applied := false)]);
          SaveKeepsLive(cfg, stock, m1, record1, o);
          RecordBacksItself(record1);
          var (m2, saved) := SaveRecord(m1, record1, o);
          ReplayKeepsLive(cfg, stock, m2, record1, n - 1, clean && saved, o);
        }
      }
    }
  }

  lemma {:induction false} CleanReplayClearsAll(cfg: Config, m: Machine, record: Record, n: nat, clean: bool, o: Oracle)
    requires n <= |record.entries|
    ensures var r := Replay(cfg, m, record, n, clean, o);
            && |r.record.entries| == |record.entries|
            && (forall i :: n <= i < |record.entries| ==> r.record.entries[i] == record.entries[i])
            && (r.clean ==> clean && forall i :: 0 <= i < n ==> !r.record.entries[i].applied)
    decreases n
  {
    if n > 0 {
      var entry := record.entries[n - 1];
      if !entry.applied {
        CleanReplayClearsAll(cfg, m, record, n - 1, clean, o);
      } else if entry.driver !in cfg.drivers {
        CleanReplayClearsAll(cfg, m, record, n - 1, false, o);
      } else {
        var (m1, restored) := RestoreControl(cfg, m, entry.control, entry.snapshot, o);
        if !restored {
          CleanReplayClearsAll(cfg, m1, record, n - 1, false, o);
        } else {
          var record1 := record.(entries := record.entries[n - 1 := entry.(applied := false)]);
          var (m2, saved) := SaveRecord(m1, record1, o);
          CleanReplayClearsAll(cfg, m2, record1, n - 1, clean && saved, o);
        }
      }
    }
  }

  // What a new process can rely on when it finds the world as a predecessor left it.
  predicate Recoverable(cfg: Config, stock: Hardware, m: Machine) {
    Evident(cfg, stock, m.world) && Kept(cfg, stock, m)
  }

  lemma BackedIsEvident(cfg: Config, stock: Hardware, m: Machine, entries: seq<Entry>)
    requires Live(cfg, stock, m, entries) && BackedUpTo(m.world.stored, entries, |entries|)
    ensures Evident(cfg, stock, m.world)
  {
    hide Kept;
    forall c | c in stock && m.world.hardware[c] != stock[c]
      ensures Backed(m.world.stored, c)
    {
      assert Flagged(entries, c);
    }
    if m.world.stored.None? {
      assert m.world.hardware == stock;
    }
  }

  lemma LoadedIsLive(cfg: Config, stock: Hardware, m: Machine)
    requires Recoverable(cfg, stock, m) && m.world.stored.Some? && Replayable(cfg, m.world.stored.value)
    ensures var entries := m.world.stored.value.entries;
            Live(cfg, stock, Call(m), entries) && BackedUpTo(m.world.stored, entries, |entries|)
  {
    var record := m.world.stored.value;
    RecordBacksItself(record);
    if m.world.hardware == stock {
      assert Covered(stock, m.world.hardware, record.entries);
    }
  }

  // Recovery loses no evidence, whatever the devices do; success on a current record means stock and no record.
  lemma RecoverRestores(cfg: Config, stock: Hardware, m: Machine, o: Oracle)
    requires Recoverable(cfg, stock, m)
    ensures var r := Recover(cfg, m, o);
            && Recoverable(cfg, stock, r.machine) && r.machine.strays == m.strays
            && (r.ok && !r.stale ==> AtRest(cfg, stock, r.machine) && r.machine.world == World(stock, None))
            && (r.stale ==> r.machine.world == m.world && r.machine.world.hardware == stock)
  {
    if o(m.clock).ok && m.world.stored.Some? && Replayable(cfg, m.world.stored.value) {
      var record := m.world.stored.value;
      LoadedIsLive(cfg, stock, m);
      ReplayKeepsLive(cfg, stock, Call(m), record, |record.entries|, true, o);
      CleanReplayClearsAll(cfg, Call(m), record, |record.entries|, true, o);
      var replayed := Replay(cfg, Call(m), record, |record.entries|, true, o);
      BackedIsEvident(cfg, stock, replayed.machine, replayed.record.entries);
      if replayed.clean {
        RemoveKeepsLive(cfg, stock, replayed.machine, replayed.record.entries, o);
      }
    }
  }

  lemma {:induction false} ReplayOfNothing(cfg: Config, m: Machine, record: Record, n: nat, clean: bool, o: Oracle)
    requires n <= |record.entries| && NoneFlagged(record.entries)
    ensures Replay(cfg, m, record, n, clean, o) == Replayed(m, record, clean)
    decreases n
  {
    if n > 0 {
      ReplayOfNothing(cfg, m, record, n - 1, clean, o);
    }
  }

  // Recovering a machine that is already at rest touches no hardware.
  lemma RecoverAtRest(cfg: Config, stock: Hardware, m: Machine, o: Oracle)
    requires AtRest(cfg, stock, m)
    ensures AtRest(cfg, stock, Recover(cfg, m, o).machine)
  {
    if m.world.stored.Some? {
      var record := m.world.stored.value;
      ReplayOfNothing(cfg, Call(m), record, |record.entries|, true, o);
      var removed := RemoveRecord(Call(m), o).0;
      KeptGrows(cfg, stock, Call(m), removed, [removed.world]);
    }
  }
}

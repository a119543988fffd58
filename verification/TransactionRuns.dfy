// Whole runs of the engine with failures, crashes between any two steps and reboots; and when, exactly, they lose the
// evidence needed to restore stock settings.
module TransactionRuns {
  import opened Wrappers
  import opened Model
  import opened Validate
  import opened Recovery
  import opened TransactionSpec
  import opened TransactionSafety
  import opened TransactionLaws
  import opened TransactionTrails

  // --- When a rollback goes astray ---

  // What is backed by the file stays so, and then nothing goes astray.
  lemma {:induction false} BackedUndoStays(cfg: Config, stock: Hardware, m: Machine, tx: Tx, n: nat, clean: bool,
                                           o: Oracle)
    requires n <= |tx.operations| && Live(cfg, stock, m, Entries(tx.operations))
    requires BackedUpTo(m.world.stored, Entries(tx.operations), n)
    ensures Undo(cfg, m, tx, n, clean, o).machine.strays == m.strays
    decreases n
  {
    hide Live, RestoreControl, SaveRecord;
    if n > 0 {
      var op, entries := tx.operations[n - 1], Entries(tx.operations);
      if !op.applied {
        BackedUndoStays(cfg, stock, m, tx, n - 1, clean, o);
      } else {
        assert Backed(m.world.stored, entries[n - 1].control);
        RestoreKeepsLive(cfg, stock, m, entries, n - 1, o);
        LiveKnows(cfg, stock, RestoreControl(cfg, m, op.control, op.snapshot, o).0, entries, n - 1);
        var (m1, restored) := RestoreControl(cfg, m, op.control, op.snapshot, o);
        if !restored {
          BackedUndoStays(cfg, stock, m1, tx, n - 1, false, o);
        } else {
          var tx1 := tx.(operations := tx.operations[n - 1 := op.(applied := false)]);
          var (m2, saved) := SaveRecord(m1, RecordOf(cfg, tx1), o);
          ClearedAndSaved(cfg, stock, m1, tx, n - 1, o);
          BackedUndoStays(cfg, stock, m2, tx1, n - 1, clean && saved, o);
        }
      }
    }
  }

  lemma ClearedAndSaved(cfg: Config, stock: Hardware, m: Machine, tx: Tx, k: nat, o: Oracle)
    requires k < |tx.operations| && Live(cfg, stock, m, Entries(tx.operations)) && tx.operations[k].applied
    requires tx.operations[k].control in m.world.hardware && tx.operations[k].control in stock
    requires m.world.hardware[tx.operations[k].control] == stock[tx.operations[k].control]
    ensures var tx1 := tx.(operations := tx.operations[k := tx.operations[k].(applied := false)]);
            var m1 := SaveRecord(m, RecordOf(cfg, tx1), o).0;
            && Live(cfg, stock, m1, Entries(tx1.operations)) && m1.strays == m.strays
            && (BackedUpTo(m.world.stored, Entries(tx.operations), k) ==>
                  BackedUpTo(m1.world.stored, Entries(tx1.operations), k))
  {
    var op := tx.operations[k].(applied := false);
    var tx1 := tx.(operations := tx.operations[k := op]);
    EntriesUpdate(tx.operations, k, op);
    ClearKeepsLive(cfg, stock, m, Entries(tx.operations), k);
    SaveKeepsLive(cfg, stock, m, RecordOf(cfg, tx1), o);
    RecordBacksItself(RecordOf(cfg, tx1));
    hide Live, SaveRecord;
  }

  predicate LastFlagged(ops: seq<Operation>, k: nat) {
    k < |ops| && ops[k].applied && forall i :: k < i < |ops| ==> !ops[i].applied
  }

  // The undoing goes astray at the operation flagged last, if anywhere.
  lemma {:induction false} UndoGoesAstrayAtTheLast(cfg: Config, stock: Hardware, m: Machine, tx: Tx, n: nat, k: nat,
                                                   clean: bool, o: Oracle)
    requires k < n <= |tx.operations| && Live(cfg, stock, m, Entries(tx.operations))
    requires LastFlagged(tx.operations, k)
    ensures var op := tx.operations[k];
            Undo(cfg, m, tx, n, clean, o).machine.strays
            == m.strays + if GoesAstray(cfg, m, op.control, stock, o) then [op.control] else []
    decreases n
  {
    hide Live, RestoreControl, SaveRecord;
    var entries := Entries(tx.operations);
    assert entries[k].control == tx.operations[k].control;
    if n > k + 1 {
      UndoGoesAstrayAtTheLast(cfg, stock, m, tx, n - 1, k, clean, o);
    } else {
      var op := tx.operations[k];
      OthersAreBacked(cfg, stock, m, tx.operations, k);
      RestoreKeepsLive(cfg, stock, m, entries, k, o);
      LiveKnows(cfg, stock, RestoreControl(cfg, m, op.control, op.snapshot, o).0, entries, k);
      var (m1, restored) := RestoreControl(cfg, m, op.control, op.snapshot, o);
      if !restored {
        BackedUndoStays(cfg, stock, m1, tx, k, false, o);
      } else {
        var tx1 := tx.(operations := tx.operations[k := op.(applied := false)]);
        var (m2, saved) := SaveRecord(m1, RecordOf(cfg, tx1), o);
        ClearedAndSaved(cfg, stock, m1, tx, k, o);
        BackedUndoStays(cfg, stock, m2, tx1, k, clean && saved, o);
      }
    }
  }

  lemma LiveKnows(cfg: Config, stock: Hardware, m: Machine, entries: seq<Entry>, k: nat)
    requires Live(cfg, stock, m, entries) && k < |entries|
    ensures entries[k].control in stock && entries[k].control in m.world.hardware
    ensures entries[k].snapshot == stock[entries[k].control]
  {
  }

  lemma OthersAreBacked(cfg: Config, stock: Hardware, m: Machine, ops: seq<Operation>, k: nat)
    requires Live(cfg, stock, m, Entries(ops)) && LastFlagged(ops, k)
    ensures BackedUpTo(m.world.stored, Entries(ops), k)
  {
    var entries := Entries(ops);
    forall i | 0 <= i < k && entries[i].applied
      ensures Backed(m.world.stored, entries[i].control)
    {
      assert entries[k].applied;
    }
  }

  lemma {:induction false} NothingFlaggedNothingUndone(cfg: Config, m: Machine, tx: Tx, n: nat, clean: bool, o: Oracle)
    requires n <= |tx.operations| && forall i :: 0 <= i < n ==> !tx.operations[i].applied
    ensures Undo(cfg, m, tx, n, clean, o).machine == m
    decreases n
  {
    if n > 0 {
      NothingFlaggedNothingUndone(cfg, m, tx, n - 1, clean, o);
    }
  }

  // The outcomes of a rollback that lose evidence: the operation flagged last is in no durable record, because its
  // flag could not be saved; the save before the undoing fails without publishing as well; and its Restore then
  // disturbs a control that it would not have to touch.
  predicate Mishandles(cfg: Config, stock: Hardware, m: Machine, tx: Tx, o: Oracle) {
    && !tx.finished
    && !o(m.clock).ok && !o(m.clock).published
    && exists k :: 0 <= k < |tx.operations| && LastFlagged(tx.operations, k)
                   && tx.operations[k].control in stock
                   && !cfg.gentle(tx.operations[k].control)
                   && !Backed(m.world.stored, tx.operations[k].control)
                   && Disturbs(o(m.clock + 1), stock[tx.operations[k].control])
  }

  lemma UnbackedIsAtStock(cfg: Config, stock: Hardware, m: Machine, c: ControlId)
    requires Evident(cfg, stock, m.world) && c in stock && !Backed(m.world.stored, c)
    ensures m.world.hardware[c] == stock[c]
  {
  }

  // From a live transaction with all its evidence, a rollback loses evidence exactly through such outcomes.
  lemma RollbackGoesAstrayIff(cfg: Config, stock: Hardware, m: Machine, tx: Tx, o: Oracle)
    requires Live(cfg, stock, m, Entries(tx.operations)) && !tx.finished && m.strays == []
    ensures Rollback(cfg, m, tx, o).machine.strays != [] <==> Mishandles(cfg, stock, m, tx, o)
  {
    var tx1 := tx.(phase := RollingBack);
    var ops, entries := tx.operations, Entries(tx.operations);
    var m0 := SaveRecord(m, RecordOf(cfg, tx1), o).0;
    SaveKeepsLive(cfg, stock, m, RecordOf(cfg, tx1), o);
    RecordBacksItself(RecordOf(cfg, tx1));
    RollbackStraysWhileUndoing(cfg, m, tx, o);
    assert m0.clock == m.clock + 1;
    assert Evident(cfg, stock, m0.world);
    if exists k :: 0 <= k < |ops| && LastFlagged(ops, k) {
      var k :| 0 <= k < |ops| && LastFlagged(ops, k);
      var c := ops[k].control;
      LiveKnows(cfg, stock, m, entries, k);
      assert entries[k].control == c && entries[k].applied;
      UndoGoesAstrayAtTheLast(cfg, stock, m0, tx1, |ops|, k, true, o);
      if !Backed(m0.world.stored, c) {
        UnbackedIsAtStock(cfg, stock, m0, c);
      }
      hide Live, Undo, Rollback, SaveRecord, Evident;
      assert forall i :: 0 <= i < |ops| && LastFlagged(ops, i) ==> i == k;
    } else {
      NoneIsLast(ops, |ops|);
      NothingFlaggedNothingUndone(cfg, m0, tx1, |ops|, true, o);
    }
  }

  lemma {:induction false} NoneIsLast(ops: seq<Operation>, n: nat)
    requires n <= |ops| && forall i :: n <= i < |ops| ==> !ops[i].applied
    requires !exists k :: 0 <= k < |ops| && LastFlagged(ops, k)
    ensures forall i :: 0 <= i < |ops| ==> !ops[i].applied
  {
    if n > 0 {
      assert !LastFlagged(ops, n - 1);
      NoneIsLast(ops, n - 1);
    }
  }

  lemma RollbackStraysWhileUndoing(cfg: Config, m: Machine, tx: Tx, o: Oracle)
    requires !tx.finished
    ensures var tx1 := tx.(phase := RollingBack);
            Rollback(cfg, m, tx, o).machine.strays
            == Undo(cfg, SaveRecord(m, RecordOf(cfg, tx1), o).0, tx1, |tx1.operations|, true, o).machine.strays
  {
    var tx1 := tx.(phase := RollingBack);
    var undone := Undo(cfg, SaveRecord(m, RecordOf(cfg, tx1), o).0, tx1, |tx1.operations|, true, o);
    var tx2 := undone.tx.(phase := Incomplete);
    ReportOnlyReads(SaveRecord(undone.machine, RecordOf(cfg, tx2), o).0, tx2.operations, 0,
                    RollbackFailure(map[], []), o);
    ReportOnlyReads(RemoveRecord(undone.machine, o).0, undone.tx.operations, 0, RollbackFailure(map[], []), o);
  }

  // --- When a transaction does ---

  predicate Unbacked(stored: Option<Record>, ops: seq<Operation>, n: nat) {
    forall i :: n <= i < |ops| ==> !ops[i].applied && !Backed(stored, ops[i].control)
  }

  lemma MarkingBacksOne(cfg: Config, tx: Tx, n: nat)
    requires n < |tx.operations| && DistinctControls(tx.operations)
    requires forall i :: n <= i < |tx.operations| ==> !tx.operations[i].applied
    ensures var tx1 := tx.(operations := tx.operations[n := tx.operations[n].(applied := true)]);
            var stored := Some(RecordOf(cfg, tx1));
            Backed(stored, tx.operations[n].control) && Unbacked(stored, tx1.operations, n + 1)
  {
    var tx1 := tx.(operations := tx.operations[n := tx.operations[n].(applied := true)]);
    var entries := Entries(tx1.operations);
    assert entries[n].control == tx.operations[n].control && entries[n].applied;
    forall i | n < i < |tx.operations|
      ensures !Flagged(entries, tx.operations[i].control)
    {
    }
  }

  // An operation whose flag could not be made durable is in the file exactly if that save published all the same.
  lemma {:induction false} UnmarkedIsUnbacked(cfg: Config, m: Machine, tx: Tx, n: nat, o: Oracle)
    requires n <= |tx.operations| && DistinctControls(tx.operations)
    requires Unbacked(m.world.stored, tx.operations, n)
    ensures var p := ApplyFrom(cfg, m, tx, n, o);
            var k := Reach(cfg, m, tx, n, o);
            p.cause == Some(NotMarked) ==>
              && n < k <= |tx.operations| && p.machine.clock > 0
              && !o(p.machine.clock - 1).ok
              && (Backed(p.machine.world.stored, tx.operations[k - 1].control) <==> o(p.machine.clock - 1).published)
    decreases |tx.operations| - n
  {
    hide WriteControl, Backed;
    if n < |tx.operations| {
      var op := tx.operations[n].(applied := true);
      var tx1 := tx.(operations := tx.operations[n := op]);
      MarkingBacksOne(cfg, tx, n);
      var (m1, saved) := SaveRecord(m, RecordOf(cfg, tx1), o);
      if saved {
        WritingKeepsFile(cfg, m1, op, o);
        var (m2, effective) := WriteControl(cfg, m1, op, o);
        if effective.Some? {
          UnmarkedIsUnbacked(cfg, m2, tx1.(effective := tx1.effective[op.control := effective.value]), n + 1, o);
        }
      }
    }
  }

  lemma WritingKeepsFile(cfg: Config, m: Machine, op: Operation, o: Oracle)
    ensures WriteControl(cfg, m, op, o).0.world.stored == m.world.stored
  {
  }

  predicate Unpublished(outcome: Outcome) { !outcome.ok && !outcome.published }

  // The outcomes of a transaction that lose evidence: marking an operation fails without publishing, so does the save
  // that begins the rollback, and the rollback disturbs what was never written.
  predicate StoppedBadly(cfg: Config, stock: Hardware, ops: seq<Operation>, p: Progress, k: nat, o: Oracle) {
    var t := p.machine.clock;
    && p.cause == Some(NotMarked) && 0 < k <= |ops| && t > 0
    && Unpublished(o(t - 1)) && Unpublished(o(t))
    && ops[k - 1].control in stock && !cfg.gentle(ops[k - 1].control)
    && Disturbs(o(t + 1), stock[ops[k - 1].control])
  }

  predicate MarkMishandled(cfg: Config, stock: Hardware, m: Machine, ops: seq<Operation>, id: nat, o: Oracle) {
    var tx := Tx(id, ops, Phase.Applying, false, map[]);
    var (m1, saved) := SaveRecord(m, RecordOf(cfg, tx), o);
    saved && StoppedBadly(cfg, stock, ops, ApplyFrom(cfg, m1, tx, 0, o), Reach(cfg, m1, tx, 0, o), o)
  }

  lemma FirstRecordFlagsNothing(cfg: Config, tx: Tx)
    requires Unapplied(tx.operations)
    ensures Unbacked(Some(RecordOf(cfg, tx)), tx.operations, 0) && Unflagged(Entries(tx.operations), 0)
  {
    assert forall i :: 0 <= i < |tx.operations| ==> !Entries(tx.operations)[i].applied;
  }

  lemma StoppedTransaction(cfg: Config, stock: Hardware, m: Machine, tx: Tx, o: Oracle)
    requires Captured(cfg, stock, tx.operations) && AtRest(cfg, stock, m) && !tx.finished
    requires SaveRecord(m, RecordOf(cfg, tx), o).1 && m.strays == []
    ensures var m1 := SaveRecord(m, RecordOf(cfg, tx), o).0;
            var p, k := ApplyFrom(cfg, m1, tx, 0, o), Reach(cfg, m1, tx, 0, o);
            && Live(cfg, stock, p.machine, Entries(p.tx.operations)) && !p.tx.finished && p.machine.strays == []
            && StoppedAt(tx.operations, p, 0, k)
            && (p.cause != Some(NotMarked) ==> !Mishandles(cfg, stock, p.machine, p.tx, o))
            && (p.cause == Some(NotMarked) ==>
                  && 0 < k <= |tx.operations| && p.machine.clock > 0 && !o(p.machine.clock - 1).ok
                  && (Backed(p.machine.world.stored, tx.operations[k - 1].control)
                      <==> o(p.machine.clock - 1).published))
  {
    var m1 := SaveRecord(m, RecordOf(cfg, tx), o).0;
    FirstSaveIsLive(cfg, stock, m, tx, o);
    FirstRecordFlagsNothing(cfg, tx);
    ActivationIsSaved(m, RecordOf(cfg, tx), o);
    assert DistinctControls(tx.operations) && m1.strays == [];
    hide AtRest, Captured, Live, SaveRecord, RecordOf, Entries;
    ApplyFromKeepsLive(cfg, stock, m1, tx, 0, o);
    ApplyGoesForwards(cfg, m1, tx, 0, o);
    UnmarkedIsUnbacked(cfg, m1, tx, 0, o);
    var p := ApplyFrom(cfg, m1, tx, 0, o);
    hide ApplyFrom, Reach, Mishandles, Backed, StoppedAt;
    if p.cause != Some(NotMarked) {
      BackedIsNotMishandled(cfg, stock, p.machine, p.tx, o);
    }
  }

  lemma BackedIsNotMishandled(cfg: Config, stock: Hardware, m: Machine, tx: Tx, o: Oracle)
    requires BackedUpTo(m.world.stored, Entries(tx.operations), |tx.operations|)
    ensures !Mishandles(cfg, stock, m, tx, o)
  {
    var entries := Entries(tx.operations);
    forall k | 0 <= k < |tx.operations| && tx.operations[k].applied
      ensures Backed(m.world.stored, tx.operations[k].control)
    {
      assert entries[k].applied && entries[k].control == tx.operations[k].control;
    }
  }

  lemma MishandlingTheLast(cfg: Config, stock: Hardware, m: Machine, tx: Tx, k: nat, o: Oracle)
    requires LastFlagged(tx.operations, k) && !tx.finished
    ensures Mishandles(cfg, stock, m, tx, o) <==>
              && Unpublished(o(m.clock))
              && tx.operations[k].control in stock && !cfg.gentle(tx.operations[k].control)
              && !Backed(m.world.stored, tx.operations[k].control)
              && Disturbs(o(m.clock + 1), stock[tx.operations[k].control])
  {
    hide Backed, Disturbs;
    assert forall i :: 0 <= i < |tx.operations| && LastFlagged(tx.operations, i) ==> i == k;
  }

  lemma StoppedAtTheLast(ops: seq<Operation>, p: Progress, k: nat)
    requires StoppedAt(ops, p, 0, k) && k > 0 && forall i :: 0 <= i < |ops| ==> !ops[i].applied
    ensures LastFlagged(p.tx.operations, k - 1) && p.tx.operations[k - 1].control == ops[k - 1].control
  {
  }

  lemma StoppedBadlyIff(cfg: Config, stock: Hardware, ops: seq<Operation>, p: Progress, k: nat, o: Oracle)
    requires StoppedAt(ops, p, 0, k) && !p.tx.finished && forall i :: 0 <= i < |ops| ==> !ops[i].applied
    requires p.cause != Some(NotMarked) ==> !Mishandles(cfg, stock, p.machine, p.tx, o)
    requires p.cause == Some(NotMarked) ==>
      && 0 < k <= |ops| && p.machine.clock > 0 && !o(p.machine.clock - 1).ok
      && (Backed(p.machine.world.stored, ops[k - 1].control) <==> o(p.machine.clock - 1).published)
    ensures Mishandles(cfg, stock, p.machine, p.tx, o) <==> StoppedBadly(cfg, stock, ops, p, k, o)
  {
    if p.cause == Some(NotMarked) {
      StoppedAtTheLast(ops, p, k);
      MishandlingTheLast(cfg, stock, p.machine, p.tx, k - 1, o);
      hide StoppedAt, Backed, Disturbs, Mishandles;
    }
  }

  // A transaction loses evidence exactly through such outcomes.
  lemma CommitGoesAstrayIff(cfg: Config, stock: Hardware, m: Machine, ops: seq<Operation>, id: nat, o: Oracle)
    requires AtRest(cfg, stock, m) && Captured(cfg, stock, ops) && m.strays == []
    ensures Commit(cfg, m, ops, id, o).machine.strays != [] <==> MarkMishandled(cfg, stock, m, ops, id, o)
  {
    var tx := Tx(id, ops, Phase.Applying, false, map[]);
    FirstSaveIsLive(cfg, stock, m, tx, o);
    var (m1, saved) := SaveRecord(m, RecordOf(cfg, tx), o);
    if saved {
      var p := ApplyFrom(cfg, m1, tx, 0, o);
      StoppedTransaction(cfg, stock, m, tx, o);
      StoppedBadlyIff(cfg, stock, ops, p, Reach(cfg, m1, tx, 0, o), o);
      RollbackGoesAstrayIff(cfg, stock, p.machine, p.tx, o);
      hide Live, ApplyFrom, Reach, Rollback, AtRest, SaveRecord, Mishandles, StoppedAt, Captured, Disturbs;
    }
  }

  // --- Whole runs ---

  // What one boot of the machine has shown.
  datatype Boot = Boot(cfg: Config, history: seq<World>, strays: seq<ControlId>)

  // `ready`: this process has recovered and may start transactions. `mark`: where the history of the last command
  // begins; a crash may strike at any point of it. `past` are earlier boots. `astray`: a crash has struck in a boot
  // in which evidence had been lost.
  datatype Process = Process(
    cfg: Config,
    machine: Machine,
    active: Option<Tx>,
    ready: bool,
    mark: nat,
    past: seq<Boot>,
    astray: bool)

  datatype Command =
    | Starting(capabilities: CapabilitySet, changes: ChangeSet, id: nat)
    | Undoing
    | Recovering
    | Crashing(point: nat)
    | Rebooting(boot: string)

  function Execute(stock: Hardware, p: Process, command: Command, o: Oracle): Process {
    match command
    case Starting(capabilities, changes, id) =>
      if !p.ready || p.active.Some? then p
      else
        var a := Apply(p.cfg, capabilities, p.machine, changes, id, o);
        p.(machine := a.machine, active := a.active, mark := |p.machine.history|)
    case Undoing =>
      if p.active.None? then p
      else
        var r := Rollback(p.cfg, p.machine, p.active.value, o);
        p.(machine := r.machine, active := if r.failure.None? then None else Some(r.tx), mark := |p.machine.history|)
    case Recovering =>
      if p.active.Some? then p
      else
        var r := Recover(p.cfg, p.machine, o);
        p.(machine := r.machine, ready := r.ok && !r.stale, mark := |p.machine.history|)
    case Crashing(point) =>
      var world := if p.mark <= point < |p.machine.history| then p.machine.history[point] else p.machine.world;
      p.(machine := p.machine.(world := world), active := None, ready := false, mark := |p.machine.history|,
         astray := p.astray || p.machine.strays != [])
    case Rebooting(boot) =>
      var world := World(stock, p.machine.world.stored);
      Process(p.cfg.(boot := boot), p.machine.(world := world, history := [world], strays := []), None, false, 1,
              p.past + [Boot(p.cfg, p.machine.history, p.machine.strays)], p.astray)
  }

  function Run(stock: Hardware, p: Process, commands: seq<Command>, o: Oracle): Process
    decreases |commands|
  {
    if commands == [] then p else Run(stock, Execute(stock, p, commands[0], o), commands[1..], o)
  }

  // At every instant of every boot, each control off stock has a flagged entry with its stock snapshot in a durable
  // record that this machine would replay.
  predicate AlwaysEvident(stock: Hardware, p: Process) {
    && AllEvident(p.cfg, stock, p.machine.history)
    && forall i :: 0 <= i < |p.past| ==> AllEvident(p.past[i].cfg, stock, p.past[i].history)
  }

  predicate Unstrayed(p: Process) {
    p.machine.strays == [] && forall i :: 0 <= i < |p.past| ==> p.past[i].strays == []
  }

  predicate Tidy(stock: Hardware, p: Process) {
    && (forall i :: 0 <= i < |p.past| ==>
          (p.past[i].strays == [] <==> AllEvident(p.past[i].cfg, stock, p.past[i].history)))
    && Kept(p.cfg, stock, p.machine)
    && (p.active.Some? ==> Settled(p.cfg, stock, p.machine, p.active) && p.ready)
    && (p.ready && p.active.None? ==> AtRest(p.cfg, stock, p.machine))
    && (!p.ready ==> Evident(p.cfg, stock, p.machine.world))
  }

  // Until a crash strikes over lost evidence everything is in order; from then on the loss stays on record.
  predicate Sound(stock: Hardware, p: Process) {
    if p.astray then !AlwaysEvident(stock, p) && !Unstrayed(p) else Tidy(stock, p)
  }

  lemma OrderedRunsAreEvidentIff(stock: Hardware, p: Process)
    requires Sound(stock, p)
    ensures AlwaysEvident(stock, p) <==> Unstrayed(p)
  {
    hide Evident, AllEvident, AtRest, Settled;
  }

  // What has been shown, and what has gone astray, is never forgotten.
  ghost predicate Remembers(p: Process, q: Process) {
    || (q.past == p.past && q.cfg == p.cfg && p.machine.history <= q.machine.history
        && p.machine.strays <= q.machine.strays)
    || (|q.past| == |p.past| + 1 && q.past[..|p.past|] == p.past
        && q.past[|p.past|] == Boot(p.cfg, p.machine.history, p.machine.strays))
  }

  lemma ExecuteRemembers(stock: Hardware, p: Process, command: Command, o: Oracle)
    ensures var q := Execute(stock, p, command, o); Remembers(p, q) && (p.astray ==> q.astray)
  {
    match command
    case Starting(capabilities, changes, id) => ApplyTrails(p.cfg, capabilities, p.machine, changes, id, o);
    case Undoing => if p.active.Some? { RollbackTrails(p.cfg, p.machine, p.active.value, o); }
    case Recovering => RecoverTrails(p.cfg, p.machine, o);
    case Crashing(point) =>
    case Rebooting(boot) =>
  }

  lemma LossIsRemembered(stock: Hardware, p: Process, q: Process)
    requires Remembers(p, q)
    ensures !AlwaysEvident(stock, p) ==> !AlwaysEvident(stock, q)
    ensures !Unstrayed(p) ==> !Unstrayed(q)
  {
    hide Evident;
    assert forall i :: 0 <= i < |p.past| ==> q.past[..|p.past|][i] == p.past[i];
    if p.machine.strays != [] && q.past == p.past {
      assert q.machine.strays[0] == p.machine.strays[0];
    }
    if q.past == p.past && q.cfg == p.cfg && !AllEvident(p.cfg, stock, p.machine.history) {
      var i :| 0 <= i < |p.machine.history| && !Evident(p.cfg, stock, p.machine.history[i]);
      assert q.machine.history[i] == p.machine.history[i];
    }
  }

  // A reboot resets the hardware; the record of an earlier boot stays.
  lemma RebootIsTidy(stock: Hardware, p: Process, boot: string, o: Oracle)
    requires Tidy(stock, p)
    ensures Tidy(stock, Execute(stock, p, Rebooting(boot), o))
  {
    var q := Execute(stock, p, Rebooting(boot), o);
    assert TruthfulFile(p.cfg, stock, p.machine.world);
    assert Evident(q.cfg, stock, q.machine.world);
    hide Settled, AtRest, Evident;
    forall i | 0 <= i < |q.past|
      ensures q.past[i].strays == [] <==> AllEvident(q.past[i].cfg, stock, q.past[i].history)
    {
      if i < |p.past| {
        assert q.past[i] == p.past[i];
      }
    }
  }

  lemma CrashIsTidy(stock: Hardware, p: Process, point: nat, o: Oracle)
    requires Tidy(stock, p) && p.machine.strays == []
    ensures Tidy(stock, Execute(stock, p, Crashing(point), o))
  {
    hide Evident, Settled, AtRest;
  }

  lemma ExecuteKeepsSound(stock: Hardware, p: Process, command: Command, o: Oracle)
    requires Sound(stock, p)
    ensures Sound(stock, Execute(stock, p, command, o))
  {
    var q := Execute(stock, p, command, o);
    ExecuteRemembers(stock, p, command, o);
    LossIsRemembered(stock, p, q);
    hide Evident, AllEvident, Live, Kept;
    if !p.astray {
      match command
      case Starting(capabilities, changes, id) =>
        if p.ready && p.active.None? {
          ApplySettles(p.cfg, stock, capabilities, p.machine, changes, id, o);
          SettledIsKept(p.cfg, stock, q.machine, q.active);
        }
      case Undoing =>
        if p.active.Some? {
          RollbackKeepsLive(p.cfg, stock, p.machine, p.active.value, o);
          RestedOnceRolledBack(p.cfg, stock, Rollback(p.cfg, p.machine, p.active.value, o));
          SettledIsKept(p.cfg, stock, q.machine, q.active);
        }
      case Recovering =>
        if p.active.None? {
          TidyIsRecoverable(stock, p);
          RecoverRestores(p.cfg, stock, p.machine, o);
        }
      case Crashing(point) =>
        if p.machine.strays == [] {
          CrashIsTidy(stock, p, point, o);
        } else {
          OrderedRunsAreEvidentIff(stock, p);
        }
      case Rebooting(boot) => RebootIsTidy(stock, p, boot, o);
    }
  }

  lemma SettledIsKept(cfg: Config, stock: Hardware, m: Machine, active: Option<Tx>)
    requires Settled(cfg, stock, m, active)
    ensures Kept(cfg, stock, m)
  {
  }

  lemma TidyIsRecoverable(stock: Hardware, p: Process)
    requires Tidy(stock, p) && p.active.None?
    ensures Recoverable(p.cfg, stock, p.machine)
  {
  }

  lemma {:induction false} EveryRunIsSound(stock: Hardware, p: Process, commands: seq<Command>, o: Oracle)
    requires Sound(stock, p)
    ensures Sound(stock, Run(stock, p, commands, o))
    ensures !Unstrayed(p) ==> !Unstrayed(Run(stock, p, commands, o))
    decreases |commands|
  {
    if commands != [] {
      ExecuteKeepsSound(stock, p, commands[0], o);
      ExecuteRemembers(stock, p, commands[0], o);
      LossIsRemembered(stock, p, Execute(stock, p, commands[0], o));
      EveryRunIsSound(stock, Execute(stock, p, commands[0], o), commands[1..], o);
    }
  }

  // --- Exactly when a run loses evidence ---

  // The calls of this command come out in one of the two ways that lose evidence.
  predicate Mishap(stock: Hardware, p: Process, command: Command, o: Oracle) {
    match command
    case Starting(capabilities, changes, id) =>
      var validated := Validated(capabilities, changes);
      && p.ready && p.active.None? && validated.Success?
      && var prepared := Prepare(p.cfg, ById(capabilities.capabilities), p.machine,
                                 validated.value.changeSet.changes, [], o);
         && !prepared.error
         && var captured := CaptureAll(prepared.machine, SortByOrder(prepared.operations), 0, o);
            !captured.error && MarkMishandled(p.cfg, stock, captured.machine, captured.operations, id, o)
    case Undoing => p.active.Some? && Mishandles(p.cfg, stock, p.machine, p.active.value, o)
    case _ => false
  }

  predicate NoMishap(stock: Hardware, p: Process, commands: seq<Command>, o: Oracle)
    decreases |commands|
  {
    commands == []
    || (!Mishap(stock, p, commands[0], o) && NoMishap(stock, Execute(stock, p, commands[0], o), commands[1..], o))
  }

  lemma ApplyGoesAstrayIff(stock: Hardware, p: Process, capabilities: CapabilitySet, changes: ChangeSet, id: nat,
                           o: Oracle)
    requires AtRest(p.cfg, stock, p.machine) && p.machine.strays == [] && p.ready && p.active.None?
    ensures Apply(p.cfg, capabilities, p.machine, changes, id, o).machine.strays != []
            <==> Mishap(stock, p, Starting(capabilities, changes, id), o)
  {
    hide Commit, Live, Evident, AllEvident, TruthfulFile, MarkMishandled;
    var validated := Validated(capabilities, changes);
    if validated.Success? {
      var byId, accepted := ById(capabilities.capabilities), validated.value.changeSet.changes;
      AcceptedSetIsOrdered(capabilities, changes);
      PlanIsSound(p.cfg, byId, p.machine, accepted, o);
      var prepared := Prepare(p.cfg, byId, p.machine, accepted, [], o);
      if !prepared.error {
        CaptureIsSound(p.cfg, byId, prepared.machine, SortByOrder(prepared.operations), o);
        var captured := CaptureAll(prepared.machine, SortByOrder(prepared.operations), 0, o);
        if !captured.error {
          CommitGoesAstrayIff(p.cfg, stock, captured.machine, captured.operations, id, o);
        }
      }
    }
  }

  lemma ExecuteGoesAstrayIff(stock: Hardware, p: Process, command: Command, o: Oracle)
    requires Sound(stock, p) && Unstrayed(p)
    ensures !Unstrayed(Execute(stock, p, command, o)) <==> Mishap(stock, p, command, o)
  {
    match command
    case Starting(capabilities, changes, id) =>
      if p.ready && p.active.None? {
        ApplyGoesAstrayIff(stock, p, capabilities, changes, id, o);
      }
    case Undoing =>
      if p.active.Some? {
        RollbackGoesAstrayIff(p.cfg, stock, p.machine, p.active.value, o);
      }
    case Recovering =>
      if p.active.None? {
        TidyIsRecoverable(stock, p);
        RecoverRestores(p.cfg, stock, p.machine, o);
      }
    case Crashing(point) =>
    case Rebooting(boot) =>
  }

  // Whatever the drivers are like, a run of transactions, rollbacks, recoveries, crashes and reboots keeps the
  // evidence at every instant exactly if no command of it comes out in one of the two ways that lose it.
  lemma {:induction false} EveryRunKeepsEvidenceIff(stock: Hardware, p: Process, commands: seq<Command>, o: Oracle)
    requires Sound(stock, p) && Unstrayed(p)
    ensures AlwaysEvident(stock, Run(stock, p, commands, o)) <==> NoMishap(stock, p, commands, o)
    decreases |commands|
  {
    if commands == [] {
      OrderedRunsAreEvidentIff(stock, p);
    } else {
      var q := Execute(stock, p, commands[0], o);
      ExecuteKeepsSound(stock, p, commands[0], o);
      ExecuteGoesAstrayIff(stock, p, commands[0], o);
      if Mishap(stock, p, commands[0], o) {
        EveryRunIsSound(stock, q, commands[1..], o);
        OrderedRunsAreEvidentIff(stock, Run(stock, q, commands[1..], o));
      } else {
        EveryRunKeepsEvidenceIff(stock, q, commands[1..], o);
      }
    }
  }

  // Controls whose Restore is gentle have no mishaps.
  lemma GentleRunsHaveNoMishap(stock: Hardware, p: Process, commands: seq<Command>, o: Oracle)
    requires forall c :: p.cfg.gentle(c)
    ensures NoMishap(stock, p, commands, o)
    decreases |commands|
  {
    if commands != [] {
      hide Prepare, CaptureAll, Apply, Rollback, Recover, ApplyFrom;
      assert Execute(stock, p, commands[0], o).cfg.gentle == p.cfg.gentle;
      GentleRunsHaveNoMishap(stock, Execute(stock, p, commands[0], o), commands[1..], o);
    }
  }

  // Until a crash strikes over lost evidence, a process is ready for a transaction only with the hardware at stock and
  // nothing flagged in the record.
  lemma TransactionsStartAtRest(stock: Hardware, p: Process, commands: seq<Command>, o: Oracle)
    requires Sound(stock, p)
    ensures var q := Run(stock, p, commands, o);
            !q.astray && q.ready && q.active.None? ==> AtRest(q.cfg, stock, q.machine)
  {
    EveryRunIsSound(stock, p, commands, o);
  }

  // Wherever a crash strikes a run that has lost nothing, the next recovery without faults restores stock and removes
  // the record, unless that is one of another machine, boot or protocol.
  lemma EveryCrashCanBeRepaired(stock: Hardware, p: Process, commands: seq<Command>, point: nat, o: Oracle,
                                later: Oracle)
    requires Sound(stock, p) && Unstrayed(p) && NoMishap(stock, p, commands, o)
    ensures var q := Execute(stock, Run(stock, p, commands, o), Crashing(point), o);
            Quiet(later, q.machine.clock)
            && (q.machine.world.stored.Some? ==> Replayable(q.cfg, q.machine.world.stored.value)) ==>
              var r := Recover(q.cfg, q.machine, later);
              r.ok && !r.stale && r.machine.world == World(stock, None)
  {
    var before := Run(stock, p, commands, o);
    EveryRunKeepsEvidenceIff(stock, p, commands, o);
    EveryRunIsSound(stock, p, commands, o);
    OrderedRunsAreEvidentIff(stock, before);
    ExecuteKeepsSound(stock, before, Crashing(point), o);
    var q := Execute(stock, before, Crashing(point), o);
    assert Recoverable(q.cfg, stock, q.machine);
    hide Run, NoMishap, Recoverable, Evident, AlwaysEvident, Sound;
    if Quiet(later, q.machine.clock)
       && (q.machine.world.stored.Some? ==> Replayable(q.cfg, q.machine.world.stored.value)) {
      QuietRecoveryFinishes(q.cfg, stock, q.machine, later);
    }
  }

  // --- The loss happens ---

  const STOCK: Hardware := map[PL1 := 45]

  // The record is published without the flag; marking it fails; the rollback then disturbs the control while
  // restoring what was never written.
  function Unlucky(t: nat): Outcome { Outcome(t == 0, false, [7], 7) }

  function Example(): (Machine, seq<Operation>) {
    (Machine(World(STOCK, None), 0, [], [], [], []), [Operation(PL1, "intel.powercap", 10, Numeric(40.0), 45, false)])
  }

  // Whatever the engine does, a control whose Restore is rough can lose its evidence.
  lemma RoughRestoreLosesEvidence(cfg: Config)
    requires !cfg.gentle(PL1) && "intel.powercap" in cfg.drivers
    ensures var (m, ops) := Example();
            && AtRest(cfg, STOCK, m) && Captured(cfg, STOCK, ops)
            && !AllEvident(cfg, STOCK, Commit(cfg, m, ops, 1, Unlucky).machine.history)
  {
    var (m, ops) := Example();
    var o := Unlucky;
    var tx := Tx(1, ops, Phase.Applying, false, map[]);
    var m1 := SaveRecord(m, RecordOf(cfg, tx), o).0;
    var tx1 := tx.(operations := [ops[0].(applied := true)]);
    assert tx.operations[0 := ops[0].(applied := true)] == tx1.operations;
    var p := ApplyFrom(cfg, m1, tx, 0, o);
    assert p.cause == Some(NotMarked) && p.tx == tx1 && p.machine.clock == 2;
    assert Reach(cfg, m1, tx, 0, o) == 1;
    assert Disturbs(o(3), 45);
    assert MarkMishandled(cfg, STOCK, m, ops, 1, o);
    CommitGoesAstrayIff(cfg, STOCK, m, ops, 1, o);
    CommitSettles(cfg, STOCK, m, ops, 1, o);
    var a := Commit(cfg, m, ops, 1, o);
    SettledIsKept(cfg, STOCK, a.machine, a.active);
  }
}

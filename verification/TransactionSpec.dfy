// The temporary-tuning transaction as a function of the world and of what the hardware and the file system
// answer (internal/tuning/transaction.go). Every fallible call draws its outcome from an oracle, and every state
// of hardware and recovery file that a crash could leave behind is appended to a history.
module TransactionSpec {
  import opened Wrappers
  import opened Model
  import opened Validate
  import opened Recovery

  // `published`: a failed save has nevertheless published the new record. `passing` are the contents a write goes
  // through, one after another, and `left` those it leaves when it fails or cannot be verified.
  datatype Outcome = Outcome(ok: bool, published: bool, passing: seq<Contents>, left: Contents)

  type Oracle = nat -> Outcome

  type Hardware = map<ControlId, Contents>

  datatype World = World(hardware: Hardware, stored: Option<Record>)

  // `writes` and `restores` list the controls in the order in which their operations were attempted; `strays` those
  // that a restoration disturbed while no durable record flagged them.
  datatype Machine = Machine(
    world: World,
    clock: nat,
    history: seq<World>,
    writes: seq<ControlId>,
    restores: seq<ControlId>,
    strays: seq<ControlId>)

  // `gentle`: whether Restore leaves alone a control that already holds the snapshot.
  datatype Config = Config(
    machine: string,
    boot: string,
    drivers: set<string>,
    order: ControlId -> int,
    image: (ControlId, Value) -> Contents,
    gentle: ControlId -> bool)

  datatype Operation = Operation(
    control: ControlId,
    driver: string,
    order: int,
    requested: Value,
    snapshot: Contents,
    applied: bool)

  datatype Tx = Tx(
    id: nat,
    operations: seq<Operation>,
    phase: Phase,
    finished: bool,
    effective: map<ControlId, Contents>)

  datatype RollbackFailure = RollbackFailure(remaining: map<ControlId, Contents>, unverified: seq<ControlId>)

  datatype Cause = NotMarked | NotApplied(control: ControlId) | NotActivated

  datatype ApplyError =
    | Invalid(error: Error)
    | NotPrepared
    | NotCaptured
    | NotSaved
    | Undone(cause: Cause, failure: Option<RollbackFailure>)

  datatype Applied = Applied(machine: Machine, active: Option<Tx>, error: Option<ApplyError>)

  datatype Recovered = Recovered(machine: Machine, ok: bool, stale: bool, discrepancies: seq<ControlId>)

  function Step(m: Machine, world: World): Machine {
    m.(world := world, clock := m.clock + 1, history := m.history + [world])
  }

  function Call(m: Machine): Machine { m.(clock := m.clock + 1) }

  function SaveRecord(m: Machine, record: Record, o: Oracle): (Machine, bool) {
    var stored := if o(m.clock).ok || o(m.clock).published then Some(record) else m.world.stored;
    (Step(m, m.world.(stored := stored)), o(m.clock).ok)
  }

  function RemoveRecord(m: Machine, o: Oracle): (Machine, bool) {
    var stored := if o(m.clock).ok then None else m.world.stored;
    (Step(m, m.world.(stored := stored)), o(m.clock).ok)
  }

  function ReadControl(m: Machine, c: ControlId, o: Oracle): (Machine, Option<Contents>) {
    (Call(m), if o(m.clock).ok && c in m.world.hardware then Some(m.world.hardware[c]) else None)
  }

  function Holding(w: World, c: ControlId, contents: Contents): World { w.(hardware := w.hardware[c := contents]) }

  // The worlds shown while a control goes through these contents.
  function Shown(w: World, c: ControlId, passing: seq<Contents>): seq<World> {
    seq(|passing|, i requires 0 <= i < |passing| => Holding(w, c, passing[i]))
  }

  // Leaves the control at `target` when `ok`, and at whatever the failed call left otherwise.
  function Drive(m: Machine, c: ControlId, target: Contents, o: Oracle): Machine {
    var outcome := o(m.clock);
    Step(m.(history := m.history + Shown(m.world, c, outcome.passing)),
         Holding(m.world, c, if outcome.ok then target else outcome.left))
  }

  function WriteControl(cfg: Config, m: Machine, op: Operation, o: Oracle): (Machine, Option<Contents>) {
    var target := cfg.image(op.control, op.requested);
    var noted := m.(writes := m.writes + [op.control]);
    if op.control !in m.world.hardware then (Call(noted), None)
    else (Drive(noted, op.control, target, o), if o(m.clock).ok then Some(target) else None)
  }

  predicate Flagged(entries: seq<Entry>, c: ControlId) {
    exists i :: 0 <= i < |entries| && entries[i].control == c && entries[i].applied
  }

  // A durable record says that the control may have been modified.
  predicate Backed(stored: Option<Record>, c: ControlId) { stored.Some? && Flagged(stored.value.entries, c) }

  // Such a call shows, or leaves, anything but these contents.
  predicate Disturbs(outcome: Outcome, contents: Contents) {
    (exists i :: 0 <= i < |outcome.passing| && outcome.passing[i] != contents)
    || (!outcome.ok && outcome.left != contents)
  }

  function RestoreControl(cfg: Config, m: Machine, c: ControlId, snapshot: Contents, o: Oracle): (Machine, bool) {
    var noted := m.(restores := m.restores + [c]);
    if c !in m.world.hardware then (Call(noted), false)
    else if cfg.gentle(c) && m.world.hardware[c] == snapshot then (Call(noted), o(m.clock).ok)
    else
      var stray := !Backed(m.world.stored, c) && Disturbs(o(m.clock), snapshot);
      (Drive(noted.(strays := m.strays + if stray then [c] else []), c, snapshot, o), o(m.clock).ok)
  }

  function EntryOf(op: Operation): Entry { Entry(op.driver, op.control, op.snapshot, op.applied) }

  function Entries(ops: seq<Operation>): seq<Entry> {
    seq(|ops|, i requires 0 <= i < |ops| => EntryOf(ops[i]))
  }

  function RecordOf(cfg: Config, tx: Tx): Record {
    Record(RECOVERY_PROTOCOL, cfg.machine, cfg.boot, tx.id, tx.phase, Entries(tx.operations))
  }

  // sort.SliceStable by order: an operation goes before the first later one of a greater order.
  function Insert(op: Operation, sorted: seq<Operation>): seq<Operation> {
    if sorted == [] || op.order <= sorted[0].order then [op] + sorted
    else [sorted[0]] + Insert(op, sorted[1..])
  }

  function SortByOrder(ops: seq<Operation>): seq<Operation> {
    if ops == [] then [] else Insert(ops[0], SortByOrder(ops[1..]))
  }

  datatype Prepared = Prepared(machine: Machine, operations: seq<Operation>, error: bool)

  function Prepare(cfg: Config, byId: Index, m: Machine, changes: seq<Change>, done: seq<Operation>, o: Oracle)
    : Prepared
    decreases |changes|
  {
    if changes == [] then Prepared(m, done, false)
    else if changes[0].id !in byId || byId[changes[0].id].driver !in cfg.drivers then Prepared(m, done, true)
    else if !o(m.clock).ok then Prepared(Call(m), done, true)
    else
      var op := Operation(changes[0].id, byId[changes[0].id].driver, cfg.order(changes[0].id),
                          changes[0].requested, 0, false);
      Prepare(cfg, byId, Call(m), changes[1..], done + [op], o)
  }

  // Reads every snapshot, in application order, before the first write.
  function CaptureAll(m: Machine, ops: seq<Operation>, n: nat, o: Oracle): Prepared
    requires n <= |ops|
    decreases |ops| - n
  {
    if n == |ops| then Prepared(m, ops, false)
    else
      var (m1, read) := ReadControl(m, ops[n].control, o);
      if read.None? then Prepared(m1, ops, true)
      else CaptureAll(m1, ops[n := ops[n].(snapshot := read.value)], n + 1, o)
  }

  datatype Undoing = Undoing(machine: Machine, tx: Tx, clean: bool)

  // Restores operations n-1 .. 0, clearing each flag once its restoration is verified.
  function Undo(cfg: Config, m: Machine, tx: Tx, n: nat, clean: bool, o: Oracle): Undoing
    requires n <= |tx.operations|
    decreases n
  {
    if n == 0 then Undoing(m, tx, clean)
    else if !tx.operations[n - 1].applied then Undo(cfg, m, tx, n - 1, clean, o)
    else
      var op := tx.operations[n - 1];
      var (m1, restored) := RestoreControl(cfg, m, op.control, op.snapshot, o);
      if !restored then Undo(cfg, m1, tx, n - 1, false, o)
      else
        var tx1 := tx.(operations := tx.operations[n - 1 := op.(applied := false)]);
        var (m2, saved) := SaveRecord(m1, RecordOf(cfg, tx1), o);
        Undo(cfg, m2, tx1, n - 1, clean && saved, o)
  }

  function Reported(so: RollbackFailure, c: ControlId, read: Option<Contents>): RollbackFailure {
    if read.Some? then so.(remaining := so.remaining[c := read.value])
    else so.(unverified := so.unverified + [c])
  }

  // Sorts the controls still flagged into those that can be read now and those that cannot.
  function Report(m: Machine, ops: seq<Operation>, n: nat, so: RollbackFailure, o: Oracle): (Machine, RollbackFailure)
    requires n <= |ops|
    decreases |ops| - n
  {
    if n == |ops| then (m, so)
    else if !ops[n].applied then Report(m, ops, n + 1, so, o)
    else
      var (m1, read) := ReadControl(m, ops[n].control, o);
      Report(m1, ops, n + 1, Reported(so, ops[n].control, read), o)
  }

  datatype RolledBack = RolledBack(machine: Machine, tx: Tx, failure: Option<RollbackFailure>)

  function Fail(m: Machine, tx: Tx, o: Oracle): RolledBack {
    var (m1, failure) := Report(m, tx.operations, 0, RollbackFailure(map[], []), o);
    RolledBack(m1, tx, Some(failure))
  }

  function Rollback(cfg: Config, m: Machine, tx: Tx, o: Oracle): RolledBack {
    if tx.finished then RolledBack(m, tx, None)
    else
      var tx1 := tx.(phase := RollingBack);
      var undone := Undo(cfg, SaveRecord(m, RecordOf(cfg, tx1), o).0, tx1, |tx1.operations|, true, o);
      if !undone.clean then
        var tx2 := undone.tx.(phase := Incomplete);
        Fail(SaveRecord(undone.machine, RecordOf(cfg, tx2), o).0, tx2, o)
      else
        var (m1, removed) := RemoveRecord(undone.machine, o);
        if !removed then Fail(m1, undone.tx, o)
        else RolledBack(m1, undone.tx.(finished := true), None)
  }

  datatype Progress = Progress(machine: Machine, tx: Tx, cause: Option<Cause>)

  // For each operation in turn: flag it, make the flag durable, and only then write.
  function ApplyFrom(cfg: Config, m: Machine, tx: Tx, n: nat, o: Oracle): Progress
    requires n <= |tx.operations|
    decreases |tx.operations| - n
  {
    if n == |tx.operations| then
      var tx1 := tx.(phase := Active);
      var (m1, saved) := SaveRecord(m, RecordOf(cfg, tx1), o);
      Progress(m1, tx1, if saved then None else Some(NotActivated))
    else
      var op := tx.operations[n].(applied := true);
      var tx1 := tx.(operations := tx.operations[n := op]);
      var (m1, saved) := SaveRecord(m, RecordOf(cfg, tx1), o);
      if !saved then Progress(m1, tx1, Some(NotMarked))
      else
        var (m2, effective) := WriteControl(cfg, m1, op, o);
        if effective.None? then Progress(m2, tx1, Some(NotApplied(op.control)))
        else ApplyFrom(cfg, m2, tx1.(effective := tx1.effective[op.control := effective.value]), n + 1, o)
  }

  // A transaction over operations already captured.
  function Commit(cfg: Config, m: Machine, ops: seq<Operation>, id: nat, o: Oracle): Applied {
    var tx := Tx(id, ops, Phase.Applying, false, map[]);
    var (m1, saved) := SaveRecord(m, RecordOf(cfg, tx), o);
    if !saved then Applied(m1, None, Some(NotSaved))
    else
      var progress := ApplyFrom(cfg, m1, tx, 0, o);
      if progress.cause.None? then Applied(progress.machine, Some(progress.tx), None)
      else
        var back := Rollback(cfg, progress.machine, progress.tx, o);
        Applied(back.machine, if back.tx.finished then None else Some(back.tx),
                Some(Undone(progress.cause.value, back.failure)))
  }

  function Apply(cfg: Config, capabilities: CapabilitySet, m: Machine, changes: ChangeSet, id: nat, o: Oracle)
    : Applied
  {
    var validated := Validated(capabilities, changes);
    if validated.Failure? then Applied(m, None, Some(Invalid(validated.error)))
    else
      var prepared := Prepare(cfg, ById(capabilities.capabilities), m, validated.value.changeSet.changes, [], o);
      if prepared.error then Applied(prepared.machine, None, Some(NotPrepared))
      else
        var captured := CaptureAll(prepared.machine, SortByOrder(prepared.operations), 0, o);
        if captured.error then Applied(captured.machine, None, Some(NotCaptured))
        else Commit(cfg, captured.machine, captured.operations, id, o)
  }

  datatype Replayed = Replayed(machine: Machine, record: Record, clean: bool)

  // Restores entries n-1 .. 0 of a loaded record through their drivers.
  function Replay(cfg: Config, m: Machine, record: Record, n: nat, clean: bool, o: Oracle): Replayed
    requires n <= |record.entries|
    decreases n
  {
    if n == 0 then Replayed(m, record, clean)
    else
      var entry := record.entries[n - 1];
      if !entry.applied then Replay(cfg, m, record, n - 1, clean, o)
      else if entry.driver !in cfg.drivers then Replay(cfg, m, record, n - 1, false, o)
      else
        var (m1, restored) := RestoreControl(cfg, m, entry.control, entry.snapshot, o);
        if !restored then Replay(cfg, m1, record, n - 1, false, o)
        else
          var record1 := record.(entries := record.entries[n - 1 := entry.(applied := false)]);
          var (m2, saved) := SaveRecord(m1, record1, o);
          Replay(cfg, m2, record1, n - 1, clean && saved, o)
  }

  function AppliedControls(entries: seq<Entry>): seq<ControlId> {
    if entries == [] then []
    else (if entries[0].applied then [entries[0].control] else []) + AppliedControls(entries[1..])
  }

  function Recover(cfg: Config, m: Machine, o: Oracle): Recovered {
    if !o(m.clock).ok then Recovered(Call(m), false, false, [])
    else if m.world.stored.None? then Recovered(Call(m), true, false, [])
    else
      var record := m.world.stored.value;
      if record.protocol != RECOVERY_PROTOCOL || record.machine != cfg.machine then
        Recovered(Call(m), false, false, [])
      else if record.boot != cfg.boot then
        Recovered(Call(m), true, true, AppliedControls(record.entries))
      else
        var replayed := Replay(cfg, Call(m), record, |record.entries|, true, o);
        if !replayed.clean then Recovered(replayed.machine, false, false, [])
        else
          var (m1, removed) := RemoveRecord(replayed.machine, o);
          Recovered(m1, removed, false, [])
  }
}

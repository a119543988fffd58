// What the transaction engine assumes of a driver's operation (internal/tuning/driver.go), and that the drivers keep
// to it: each of their operations is one the engine's model allows for.
module DriverContract {
  import opened Wrappers
  import opened Model
  import opened Recovery
  import opened TransactionSpec
  import opened TransactionSafety
  import SourceSpec
  import PowercapSpec
  import PolicySpec
  import VoltageSpec
  import RatioSpec
  import ThermalSpec

  // An operation on one control, seen from outside: it reports `ok`, takes the control through `through` one after
  // another, and leaves it at `left`. Success means that the control holds the target.
  datatype Effect = Effect(ok: bool, through: seq<Contents>, left: Contents)

  predicate KeepsContract(effect: Effect, target: Contents) { effect.ok ==> effect.left == target }

  // Every call goes like this.
  function Outcomes(effect: Effect): Oracle {
    (t: nat) => Outcome(effect.ok, false, effect.through, effect.left)
  }

  // Whatever such an operation does, and whatever it takes the control through, the engine's model does the same for
  // some outcome; so what holds for every outcome holds for every such operation.
  lemma EngineCoversOperation(m: Machine, c: ControlId, target: Contents, effect: Effect)
    requires c in m.world.hardware && KeepsContract(effect, target)
    ensures var m1 := Drive(m, c, target, Outcomes(effect));
            && m1.world == Holding(m.world, c, effect.left)
            && m1.history == m.history + Shown(m.world, c, effect.through) + [m1.world]
  {
  }

  // The control never holds anything but this.
  predicate Undisturbed(effect: Effect, contents: Contents) {
    effect.left == contents && forall i :: 0 <= i < |effect.through| ==> effect.through[i] == contents
  }

  // An operation that disturbs nothing loses no evidence, gentle or not.
  lemma UndisturbedIsNotAstray(cfg: Config, m: Machine, c: ControlId, stock: Hardware, effect: Effect)
    requires c in stock && Undisturbed(effect, stock[c])
    ensures !GoesAstray(cfg, m, c, stock, Outcomes(effect))
  {
  }

  // --- Voltage: the contents are mailbox units ---

  function Since(before: VoltageSpec.Mailbox, after: VoltageSpec.Mailbox): seq<Contents> {
    if before.trace <= after.trace then after.trace[|before.trace|..] else []
  }

  function VoltageApplied(box: VoltageSpec.Mailbox, requested: real, f: VoltageSpec.Faults): Effect {
    var (box1, ok) := VoltageSpec.Apply(box, requested, Some(VoltageSpec.Millivolts(box.units)), f);
    Effect(ok, Since(box, box1), box1.units)
  }

  function VoltageRestored(box: VoltageSpec.Mailbox, units: int, f: VoltageSpec.Faults): Effect {
    var (box1, ok) := VoltageSpec.Restore(box, VoltageSpec.Millivolts(units), f);
    Effect(ok, Since(box, box1), box1.units)
  }

  // Stepping keeps to the contract, and disturbs nothing that is already in place.
  lemma VoltageKeepsContract(box: VoltageSpec.Mailbox, requested: real, units: int, f: VoltageSpec.Faults)
    requires -256 <= box.units <= 0
    ensures KeepsContract(VoltageApplied(box, requested, f), VoltageSpec.Units(requested))
    ensures KeepsContract(VoltageRestored(box, units, f), units)
    ensures box.units == units ==> Undisturbed(VoltageRestored(box, units, f), units)
  {
    VoltageSpec.ApplyStaysBetween(box, requested, f);
    VoltageSpec.RestorePutsBack(box, units, f);
    hide VoltageSpec.Apply, VoltageSpec.Restore;
  }

  // --- Controls of several files: the contents are a number for the values of all of them ---

  function Values<V>(files: SourceSpec.Files<V>, paths: seq<SourceSpec.Path>): seq<Option<V>> {
    seq(|paths|, i requires 0 <= i < |paths| => if paths[i] in files then Some(files[paths[i]]) else None)
  }

  type Coding<!V> = seq<Option<V>> -> Contents

  function Wrapped<V>(values: seq<V>): seq<Option<V>> {
    seq(|values|, i requires 0 <= i < |values| => Some(values[i]))
  }

  function SavedValues<V>(records: seq<SourceSpec.Saved<V>>): seq<V> {
    seq(|records|, i requires 0 <= i < |records| => records[i].value)
  }

  // What an operation on the store shows of the control, write by write.
  function StoreEffect<V(==)>(before: SourceSpec.Store<V>, after: SourceSpec.Store<V>, ok: bool,
                              paths: seq<SourceSpec.Path>, code: Coding<V>): Effect
  {
    var shown := if before.trace <= after.trace then after.trace[|before.trace|..] else [];
    Effect(ok, seq(|shown|, i requires 0 <= i < |shown| => code(Values(shown[i], paths))),
           code(Values(after.files, paths)))
  }

  lemma UnchangingIsUndisturbed<V(!new)>(before: SourceSpec.Store<V>, after: SourceSpec.Store<V>, ok: bool,
                                         paths: seq<SourceSpec.Path>, code: Coding<V>)
    requires SourceSpec.Unchanging(before, after)
    ensures Undisturbed(StoreEffect(before, after, ok, paths, code), code(Values(before.files, paths)))
  {
  }

  lemma SnapshotValues<V>(files: SourceSpec.Files<V>, paths: seq<SourceSpec.Path>, records: seq<SourceSpec.Saved<V>>)
    requires SourceSpec.TakenOf(records, paths, files)
    ensures Values(files, paths) == Wrapped(SavedValues(records))
  {
  }

  lemma TargetValues<V>(original: SourceSpec.Files<V>, files: SourceSpec.Files<V>, paths: seq<SourceSpec.Path>,
                        targets: seq<V>)
    requires |paths| == |targets| && SourceSpec.Halfway(original, files, paths, targets, |paths|)
    requires forall i :: 0 <= i < |paths| ==> paths[i] in files
    ensures Values(files, paths) == Wrapped(targets)
  {
  }

  function PowercapApplied(st: SourceSpec.Store<int>, sources: PowercapSpec.Sources, requested: real,
                           snapshot: seq<SourceSpec.Saved<int>>, f: SourceSpec.Faults<int>, code: Coding<int>): Effect
  {
    var (st1, reading) := PowercapSpec.Apply(st, sources, requested, snapshot, f);
    StoreEffect(st, st1, reading != PowercapSpec.Unread, PowercapSpec.PathsOf(sources), code)
  }

  function PowercapRestored(st: SourceSpec.Store<int>, sources: PowercapSpec.Sources,
                            records: seq<SourceSpec.Saved<int>>, f: SourceSpec.Faults<int>, code: Coding<int>): Effect
  {
    var (st1, reading) := PowercapSpec.Restore(st, sources, records, f);
    StoreEffect(st, st1, reading != PowercapSpec.Unread, PowercapSpec.PathsOf(sources), code)
  }

  // Powercap limits keep to the contract; restoring those already in place disturbs nothing if the writes of the store
  // do not go astray.
  lemma PowercapKeepsContract(st: SourceSpec.Store<int>, sources: PowercapSpec.Sources, requested: real,
                              original: SourceSpec.Files<int>, snapshot: seq<SourceSpec.Saved<int>>,
                              f: SourceSpec.Faults<int>, code: Coding<int>)
    requires SourceSpec.Distinct(PowercapSpec.PathsOf(sources))
    requires SourceSpec.TakenOf(snapshot, PowercapSpec.PathsOf(sources), original)
    requires SourceSpec.Touches(original, st.files, SourceSpec.PathSet(PowercapSpec.PathsOf(sources)))
    ensures st.files == original ==>
              KeepsContract(PowercapApplied(st, sources, requested, snapshot, f, code),
                            code(Wrapped(PowercapSpec.Targets(sources, requested))))
    ensures KeepsContract(PowercapRestored(st, sources, snapshot, f, code), code(Wrapped(SavedValues(snapshot))))
    ensures st.files == original && SourceSpec.Faithful(f) ==>
              Undisturbed(PowercapRestored(st, sources, snapshot, f, code), code(Wrapped(SavedValues(snapshot))))
  {
    var paths := PowercapSpec.PathsOf(sources);
    SnapshotValues(original, paths, snapshot);
    if st.files == original {
      PowercapSpec.ApplyKeepsItsPromise(st, sources, requested, snapshot, f);
      var (st1, reading) := PowercapSpec.Apply(st, sources, requested, snapshot, f);
      if reading != PowercapSpec.Unread {
        TargetValues(original, st1.files, paths, PowercapSpec.Targets(sources, requested));
      }
      if SourceSpec.Faithful(f) {
        PowercapSpec.RestoreNeverDisturbs(st, sources, snapshot, f);
        var (st2, reading) := PowercapSpec.Restore(st, sources, snapshot, f);
        UnchangingIsUndisturbed(st, st2, reading != PowercapSpec.Unread, paths, code);
      }
    }
    PowercapSpec.RestorePutsBack(st, original, sources, snapshot, f);
  }

  function PolicyApplied(st: SourceSpec.Store<string>, paths: seq<SourceSpec.Path>, requested: string,
                         snapshot: seq<SourceSpec.Saved<string>>, f: SourceSpec.Faults<string>, code: Coding<string>)
    : Effect
  {
    var (st1, choice) := PolicySpec.Apply(st, paths, requested, snapshot, f);
    StoreEffect(st, st1, choice.Some?, paths, code)
  }

  function PolicyRestored(st: SourceSpec.Store<string>, paths: seq<SourceSpec.Path>,
                          records: seq<SourceSpec.Saved<string>>, f: SourceSpec.Faults<string>, code: Coding<string>)
    : Effect
  {
    var (st1, choice) := PolicySpec.Restore(st, paths, records, f);
    StoreEffect(st, st1, choice.Some?, paths, code)
  }

  // Energy preferences keep to the contract, and restoring those already in place disturbs nothing, whatever fails.
  lemma PolicyKeepsContract(st: SourceSpec.Store<string>, paths: seq<SourceSpec.Path>, requested: string,
                            original: SourceSpec.Files<string>, snapshot: seq<SourceSpec.Saved<string>>,
                            f: SourceSpec.Faults<string>, code: Coding<string>)
    requires SourceSpec.Distinct(paths) && SourceSpec.TakenOf(snapshot, paths, original)
    requires SourceSpec.Touches(original, st.files, SourceSpec.PathSet(paths))
    ensures st.files == original ==>
              KeepsContract(PolicyApplied(st, paths, requested, snapshot, f, code),
                            code(Wrapped(PolicySpec.Everywhere(paths, requested))))
    ensures KeepsContract(PolicyRestored(st, paths, snapshot, f, code), code(Wrapped(SavedValues(snapshot))))
    ensures st.files == original ==>
              Undisturbed(PolicyRestored(st, paths, snapshot, f, code), code(Wrapped(SavedValues(snapshot))))
  {
    SnapshotValues(original, paths, snapshot);
    if st.files == original {
      PolicySpec.ApplyKeepsItsPromise(st, paths, requested, snapshot, f);
      var (st1, choice) := PolicySpec.Apply(st, paths, requested, snapshot, f);
      if choice.Some? {
        TargetValues(original, st1.files, paths, PolicySpec.Everywhere(paths, requested));
      }
      PolicySpec.RestoreNeverDisturbs(st, paths, snapshot, f);
      var (st2, restored) := PolicySpec.Restore(st, paths, snapshot, f);
      UnchangingIsUndisturbed(st, st2, restored.Some?, paths, code);
    }
    PolicySpec.RestorePutsBack(st, original, paths, snapshot, f);
  }

  // --- Ratios: the contents are the register ---

  function RatioEffect(after: RatioSpec.Register, ok: bool): Effect { Effect(ok, [after.value], after.value) }

  // A write of a register, reported or not, leaves the old contents or those written.
  predicate RatioWritesLand(f: RatioSpec.Faults, t: nat, before: nat) {
    f(t).left.None? || f(t).left.value == before
  }

  // Ratios keep to the contract; restoring a register already in place disturbs nothing if the write lands.
  lemma RatioKeepsContract(reg: RatioSpec.Register, count: nat, requested: seq<real>, captured: nat,
                           f: RatioSpec.Faults)
    requires reg.value < 0x1_0000_0000_0000_0000
    ensures var target := RatioSpec.Encode(reg.value, RatioSpec.DecodeTurboRatios(reg.value, count), requested);
            var (after, ratios) := RatioSpec.Apply(reg, count, requested, f);
            (target.None? ==> ratios.None? && after.value == reg.value)
            && (target.Some? ==> KeepsContract(RatioEffect(after, ratios.Some?), target.value))
    ensures var (after, ratios) := RatioSpec.Restore(reg, count, captured, f);
            && KeepsContract(RatioEffect(after, ratios.Some?), captured)
            && (reg.value == captured && RatioWritesLand(f, reg.clock + 1, captured) ==>
                  Undisturbed(RatioEffect(after, ratios.Some?), captured))
  {
    RatioSpec.ApplySetsRatios(reg, count, requested, f);
    RatioSpec.RestorePutsBack(reg, count, captured, f);
    hide RatioSpec.Encode, RatioSpec.DecodeTurboRatios, RatioSpec.Descending;
  }

  // --- The thermal offset: the contents are a number for what the two interfaces show ---

  function ThermalEffect(after: ThermalSpec.Sensor, ok: bool, code: ThermalSpec.Offsets -> Contents): Effect {
    Effect(ok, [code(after.offsets)], code(after.offsets))
  }

  predicate ThermalWritesLand(f: ThermalSpec.Faults, t: nat, before: ThermalSpec.Offsets) {
    f(t).left.None? || f(t).left.value == before
  }

  // The thermal offset keeps to the contract if the interfaces agreed when it was captured; restoring one already in
  // place disturbs nothing if the write lands.
  lemma ThermalKeepsContract(s: ThermalSpec.Sensor, limits: ThermalSpec.Limits, ceiling: real,
                             captured: ThermalSpec.Offsets, f: ThermalSpec.Faults,
                             code: ThermalSpec.Offsets -> Contents)
    ensures var offset := ThermalSpec.OffsetFor(limits, ceiling);
            var (after, limit) := ThermalSpec.Apply(s, limits, ceiling, f);
            KeepsContract(ThermalEffect(after, limit.Some?, code), code(ThermalSpec.Offsets(offset, offset)))
    ensures captured.pci == captured.cooling ==>
              var (after, limit) := ThermalSpec.Restore(s, limits, captured.pci, f);
              && KeepsContract(ThermalEffect(after, limit.Some?, code), code(captured))
              && (s.offsets == captured && ThermalWritesLand(f, s.clock + 1, captured) ==>
                    Undisturbed(ThermalEffect(after, limit.Some?, code), code(captured)))
  {
  }
}

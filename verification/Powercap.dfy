// Power limits written through every powercap source of a control (internal/tuning/intel/powercap/operation.go).
module PowercapSpec {
  import opened Wrappers
  import Model
  import opened SourceSpec

  // A file in units of 1/scale watts.
  datatype Source = Source(path: Path, scale: real)

  type Sources = s: seq<Source> | forall i :: 0 <= i < |s| ==> s[i].scale > 0.0

  // What reading the sources yields: no answer, or the lowest limit, infinite when there are no sources.
  datatype Reading = Unread | Infinite | Lowest(value: real)

  function PathsOf(sources: Sources): seq<Path> {
    seq(|sources|, i requires 0 <= i < |sources| => sources[i].path)
  }

  function Target(source: Source, requested: real): int { Model.Round(requested * source.scale) }

  function Targets(sources: Sources, requested: real): seq<int> {
    seq(|sources|, i requires 0 <= i < |sources| => Target(sources[i], requested))
  }

  function Limit(source: Source, value: int): real
    requires source.scale > 0.0
  {
    value as real / source.scale
  }

  function Lower(best: Reading, limit: real): Reading {
    match best
    case Lowest(value) => Lowest(Model.Min(value, limit))
    case _ => Lowest(limit)
  }

  function EffectiveFrom(st: Store<int>, sources: Sources, n: nat, best: Reading, f: Faults<int>)
    : (Store<int>, Reading)
    requires n <= |sources|
    decreases |sources| - n
  {
    if n == |sources| then (st, best)
    else if f(st.clock).cancelled then (Tick(st), Unread)
    else
      var (st1, value) := ReadFile(Tick(st), sources[n].path, f);
      if value.None? then (st1, Unread)
      else EffectiveFrom(st1, sources, n + 1, Lower(best, Limit(sources[n], value.value)), f)
  }

  function Write(st: Store<int>, sources: Sources, requested: real, snapshot: seq<Saved<int>>, f: Faults<int>)
    : Writing<int>
    requires |snapshot| == |sources|
  {
    WriteFrom(Always, st, PathsOf(sources), Targets(sources, requested), snapshot, 0, f)
  }

  function Apply(st: Store<int>, sources: Sources, requested: real, snapshot: seq<Saved<int>>, f: Faults<int>)
    : (Store<int>, Reading)
  {
    if |snapshot| != |sources| then (st, Unread)
    else
      var w := Write(st, sources, requested, snapshot, f);
      if !w.ok then (w.store, Unread) else EffectiveFrom(w.store, sources, 0, Infinite, f)
  }

  function Restore(st: Store<int>, sources: Sources, records: seq<Saved<int>>, f: Faults<int>): (Store<int>, Reading) {
    var allowed := PathSet(PathsOf(sources));
    if |records| != |allowed| then (st, Unread)
    else
      var (st1, ok) := RestoreFrom(Always, st, records, allowed, |records|, true, f);
      if !ok then (st1, Unread) else EffectiveFrom(st1, sources, 0, Infinite, f)
  }

  // --- Properties ---

  // `reading` is the least of `best` and of the limits in force at sources n and later.
  ghost predicate LowestOf(files: Files<int>, sources: Sources, n: nat, best: Reading, reading: Reading) {
    && (forall i :: n <= i < |sources| ==> sources[i].path in files)
    && (forall i :: n <= i < |sources| ==>
          reading.Lowest? && reading.value <= Limit(sources[i], files[sources[i].path]))
    && (best.Lowest? ==> reading.Lowest? && reading.value <= best.value)
    && (reading == best
        || (reading.Lowest? && exists i :: n <= i < |sources|
                                           && reading.value == Limit(sources[i], files[sources[i].path])))
  }

  lemma {:induction false} EffectiveIsLowest(st: Store<int>, sources: Sources, n: nat, best: Reading, f: Faults<int>)
    requires n <= |sources|
    ensures var (st1, reading) := EffectiveFrom(st, sources, n, best, f);
            && st1 == st.(clock := st1.clock)
            && (best != Unread && reading != Unread ==> LowestOf(st.files, sources, n, best, reading))
    decreases |sources| - n
  {
    if n < |sources| && !f(st.clock).cancelled {
      var (st1, value) := ReadFile(Tick(st), sources[n].path, f);
      if value.Some? {
        var limit := Limit(sources[n], value.value);
        EffectiveIsLowest(st1, sources, n + 1, Lower(best, limit), f);
      }
    }
  }

  // A successful Apply leaves every source at the request and answers with the lowest limit in force. One that fails
  // while writing has undone what it could. But one that fails only in reading the result has undone nothing: every
  // source stays at the request.
  lemma ApplyKeepsItsPromise(st: Store<int>, sources: Sources, requested: real, snapshot: seq<Saved<int>>,
                             f: Faults<int>)
    requires Distinct(PathsOf(sources)) && TakenOf(snapshot, PathsOf(sources), st.files)
    ensures var (st1, reading) := Apply(st, sources, requested, snapshot, f);
            var w := Write(st, sources, requested, snapshot, f);
            var paths, targets := PathsOf(sources), Targets(sources, requested);
            && (reading != Unread ==> w.ok && LowestOf(st1.files, sources, 0, Infinite, reading))
            && (w.ok ==> Halfway(st.files, st1.files, paths, targets, |paths|))
            && (!w.ok ==> reading == Unread && Undone(st.files, st1.files, paths, w.reached, w.failed))
  {
    WriteIsAllOrUndone(Always, st.files, st, PathsOf(sources), Targets(sources, requested), snapshot, 0, f);
    var w := Write(st, sources, requested, snapshot, f);
    if w.ok {
      EffectiveIsLowest(w.store, sources, 0, Infinite, f);
    }
  }

  // The exception happens: one source, everything in order but the very last read.
  lemma LastReadCanFail(st: Store<int>, source: Source, requested: real, f: Faults<int>)
    requires source.scale > 0.0 && source.path in st.files
    requires forall t :: st.clock <= t < st.clock + 4 ==> f(t) == Fault(false, true, AsWritten)
    requires !f(st.clock + 4).ok && !f(st.clock + 4).cancelled
    ensures var snapshot := [Saved(source.path, st.files[source.path])];
            var (st1, reading) := Apply(st, [source], requested, snapshot, f);
            reading == Unread && source.path in st1.files && st1.files[source.path] == Target(source, requested)
  {
    assert f(st.clock).ok && f(st.clock + 1).ok && f(st.clock + 2).ok && f(st.clock + 3).ok;
    assert !f(st.clock).cancelled && !f(st.clock + 3).cancelled && f(st.clock + 1).lands.AsWritten?;
    var paths := PathsOf([source]);
    var snapshot := [Saved(source.path, st.files[source.path])];
    var targets := Targets([source], requested);
    assert paths[0] == source.path && targets[0] == Target(source, requested);
    var st1 := Put(Always, Tick(st), source.path, targets[0], f).0;
    assert WriteFrom(Always, st, paths, targets, snapshot, 0, f)
        == WriteFrom(Always, st1, paths, targets, snapshot, 1, f);
  }

  // The value written is the nearest whole number of source units to the request.
  lemma TargetIsNearest(source: Source, requested: real)
    requires source.scale > 0.0
    ensures -0.5 <= Target(source, requested) as real - requested * source.scale <= 0.5
  {
  }

  // Whatever Apply did, a restoration of the captured snapshot that succeeds puts every file back.
  lemma RestoreUndoesApply(st: Store<int>, sources: Sources, requested: real, f: Faults<int>)
    requires Distinct(PathsOf(sources))
    ensures var captured := CaptureFrom(st, PathsOf(sources), 0, [], f);
            captured.snapshot.Some? ==>
              var applied := Apply(captured.store, sources, requested, captured.snapshot.value, f);
              var (restored, reading) := Restore(applied.0, sources, captured.snapshot.value, f);
              && applied.0.files.Keys == restored.files.Keys == st.files.Keys
              && (reading != Unread ==> restored.files == st.files)
  {
    var paths := PathsOf(sources);
    CaptureIsTrue(st, paths, 0, [], f);
    var captured := CaptureFrom(st, paths, 0, [], f);
    if captured.snapshot.Some? {
      var snapshot := captured.snapshot.value;
      ApplyKeepsItsPromise(captured.store, sources, requested, snapshot, f);
      var applied := Apply(captured.store, sources, requested, snapshot, f).0;
      assert Touches(st.files, applied.files, PathSet(paths));
      RestorePutsBack(applied, st.files, sources, snapshot, f);
    }
  }

  // Restoring sources that hold their snapshot disturbs nothing on a store whose writes do not go astray.
  lemma RestoreNeverDisturbs(st: Store<int>, sources: Sources, records: seq<Saved<int>>, f: Faults<int>)
    requires TakenOf(records, PathsOf(sources), st.files) && Faithful(f)
    ensures Unchanging(st, Restore(st, sources, records, f).0)
  {
    var allowed := PathSet(PathsOf(sources));
    RestoreIsGentleIfFaithful(Always, st, records, allowed, |records|, true, f);
    var st1 := RestoreFrom(Always, st, records, allowed, |records|, true, f).0;
    EffectiveIsLowest(st1, sources, 0, Infinite, f);
  }

  lemma RestorePutsBack(st: Store<int>, original: Files<int>, sources: Sources, records: seq<Saved<int>>,
                        f: Faults<int>)
    requires Distinct(PathsOf(sources)) && TakenOf(records, PathsOf(sources), original)
    requires Touches(original, st.files, PathSet(PathsOf(sources)))
    ensures var (st1, reading) := Restore(st, sources, records, f);
            && Touches(original, st1.files, PathSet(PathsOf(sources)))
            && (reading != Unread ==> st1.files == original)
  {
    var paths := PathsOf(sources);
    var allowed := PathSet(paths);
    assert Paths(records) == paths;
    var (st1, ok) := RestoreFrom(Always, st, records, allowed, |records|, true, f);
    RestoreIsTrue(Always, st, records, allowed, |records|, true, f);
    EffectiveIsLowest(st1, sources, 0, Infinite, f);
    if ok {
      forall p | p in original
        ensures st1.files[p] == original[p]
      {
        if p in allowed {
          var i :| 0 <= i < |paths| && paths[i] == p;
          assert records[i].path == p;
        }
      }
      assert st1.files == original;
    }
  }

  lemma {:induction false} DistinctCount(paths: seq<Path>)
    requires Distinct(paths)
    ensures |PathSet(paths)| == |paths|
  {
    if paths != [] {
      DistinctCount(paths[1..]);
      assert PathSet(paths) == PathSet(paths[1..]) + {paths[0]};
      assert paths[0] !in PathSet(paths[1..]);
    }
  }

  lemma {:induction false} QuietEffectiveIsRead(st: Store<int>, sources: Sources, n: nat, best: Reading, f: Faults<int>)
    requires n <= |sources| && Quiet(f, st.clock) && best != Unread
    requires forall i :: 0 <= i < |sources| ==> sources[i].path in st.files
    ensures EffectiveFrom(st, sources, n, best, f).1 != Unread
    decreases |sources| - n
  {
    if n < |sources| {
      assert !f(st.clock).cancelled && f(st.clock + 1).ok;
      var (st1, value) := ReadFile(Tick(st), sources[n].path, f);
      QuietEffectiveIsRead(st1, sources, n + 1, Lower(best, Limit(sources[n], value.value)), f);
    }
  }

  // Without faults, a restoration of a snapshot of these sources succeeds.
  lemma QuietRestorePutsBack(st: Store<int>, original: Files<int>, sources: Sources, records: seq<Saved<int>>,
                             f: Faults<int>)
    requires Distinct(PathsOf(sources)) && TakenOf(records, PathsOf(sources), original) && Quiet(f, st.clock)
    requires Touches(original, st.files, PathSet(PathsOf(sources)))
    ensures Restore(st, sources, records, f).1 != Unread && Restore(st, sources, records, f).0.files == original
  {
    var paths := PathsOf(sources);
    DistinctCount(paths);
    forall i | 0 <= i < |records|
      ensures records[i].path in PathSet(paths) && records[i].path in st.files
    {
      assert records[i].path == paths[i];
    }
    QuietRestoreSucceeds(Always, st, records, PathSet(paths), |records|, f);
    RestorePutsBack(st, original, sources, records, f);
    var st1 := RestoreFrom(Always, st, records, PathSet(paths), |records|, true, f).0;
    assert Paths(records) == paths;
    RestoreIsTrue(Always, st, records, PathSet(paths), |records|, true, f);
    forall i | 0 <= i < |sources|
      ensures sources[i].path in st1.files
    {
      assert paths[i] in original;
    }
    QuietEffectiveIsRead(st1, sources, 0, Infinite, f);
  }

  // Without faults, Apply brings every source of the snapshot to the request and answers with the lowest limit.
  lemma QuietApplySucceeds(st: Store<int>, sources: Sources, requested: real, snapshot: seq<Saved<int>>,
                           f: Faults<int>)
    requires Distinct(PathsOf(sources)) && TakenOf(snapshot, PathsOf(sources), st.files) && Quiet(f, st.clock)
    ensures var (st1, reading) := Apply(st, sources, requested, snapshot, f);
            && LowestOf(st1.files, sources, 0, Infinite, reading) && reading != Unread
            && forall i :: 0 <= i < |sources| ==> st1.files[sources[i].path] == Target(sources[i], requested)
  {
    var paths, targets := PathsOf(sources), Targets(sources, requested);
    QuietWriteSucceeds(Always, st, paths, targets, snapshot, 0, f);
    ApplyKeepsItsPromise(st, sources, requested, snapshot, f);
    var w := Write(st, sources, requested, snapshot, f);
    forall i | 0 <= i < |sources|
      ensures sources[i].path in w.store.files
    {
      assert paths[i] in st.files;
    }
    QuietEffectiveIsRead(w.store, sources, 0, Infinite, f);
    EffectiveIsLowest(w.store, sources, 0, Infinite, f);
    assert forall i :: 0 <= i < |sources| ==>
      paths[i] == sources[i].path && targets[i] == Target(sources[i], requested);
    hide Apply, WriteFrom, EffectiveFrom, LowestOf;
  }
}

// The operation as it runs: loops over the sources that write the store and keep a snapshot.
module Powercap {
  import opened Wrappers
  import opened SourceSpec
  import opened Sysfs
  import opened PowercapSpec

  class PowercapOperation {
    const store: FileStore<int>
    const sources: Sources
    const requested: real
    var snapshot: seq<Saved<int>>

    constructor (store: FileStore<int>, sources: Sources, requested: real)
      ensures this.store == store && this.sources == sources && this.requested == requested && snapshot == []
    {
      this.store, this.sources, this.requested, snapshot := store, sources, requested, [];
    }

    method Capture() returns (ok: bool)
      modifies this, store
      ensures var c := CaptureFrom(old(store.View()), PathsOf(sources), 0, [], store.faults);
              && store.View() == c.store && ok == c.snapshot.Some?
              && snapshot == if ok then c.snapshot.value else old(snapshot)
    {
      var records: seq<Saved<int>> := [];
      for n := 0 to |sources|
        invariant CaptureFrom(store.View(), PathsOf(sources), n, records, store.faults)
               == CaptureFrom(old(store.View()), PathsOf(sources), 0, [], store.faults)
        invariant snapshot == old(snapshot)
      {
        var cancelled := store.Cancelled();
        if cancelled {
          return false;
        }
        var value := store.Read(sources[n].path);
        if value.None? {
          return false;
        }
        records := records + [Saved(sources[n].path, value.value)];
      }
      snapshot, ok := records, true;
    }

    method WriteAndVerify(path: Path, value: int) returns (ok: bool)
      modifies store
      ensures (store.View(), ok) == Put(Always, old(store.View()), path, value, store.faults)
    {
      var written := store.Write(path, value);
      if !written {
        return false;
      }
      var back := store.Read(path);
      ok := back == Some(value);
    }

    method RollbackWritten(records: seq<Saved<int>>, count: nat) returns (failed: set<Path>)
      requires count <= |records|
      modifies store
      ensures (store.View(), failed) == UndoWritten(Always, old(store.View()), records, count, {}, store.faults)
    {
      failed := {};
      var n := count;
      while n > 0
        invariant 0 <= n <= count
        invariant UndoWritten(Always, store.View(), records, n, failed, store.faults)
               == UndoWritten(Always, old(store.View()), records, count, {}, store.faults)
      {
        n := n - 1;
        var ok := WriteAndVerify(records[n].path, records[n].value);
        if !ok {
          failed := failed + {records[n].path};
        }
      }
    }

    method EffectiveValue() returns (reading: Reading)
      modifies store
      ensures (store.View(), reading) == EffectiveFrom(old(store.View()), sources, 0, Infinite, store.faults)
    {
      reading := Infinite;
      for n := 0 to |sources|
        invariant reading != Unread
        invariant EffectiveFrom(store.View(), sources, n, reading, store.faults)
               == EffectiveFrom(old(store.View()), sources, 0, Infinite, store.faults)
      {
        var cancelled := store.Cancelled();
        if cancelled {
          return Unread;
        }
        var value := store.Read(sources[n].path);
        if value.None? {
          return Unread;
        }
        reading := Lower(reading, Limit(sources[n], value.value));
      }
    }

    method Apply() returns (reading: Reading)
      modifies store
      ensures (store.View(), reading)
              == PowercapSpec.Apply(old(store.View()), sources, requested, snapshot, store.faults)
    {
      if |snapshot| != |sources| {
        return Unread;
      }
      ghost var paths, targets := PathsOf(sources), Targets(sources, requested);
      for n := 0 to |sources|
        invariant WriteFrom(Always, store.View(), paths, targets, snapshot, n, store.faults)
               == Write(old(store.View()), sources, requested, snapshot, store.faults)
      {
        var cancelled := store.Cancelled();
        if cancelled {
          var failed := RollbackWritten(snapshot, n);
          return Unread;
        }
        var ok := WriteAndVerify(sources[n].path, Target(sources[n], requested));
        if !ok {
          var failed := RollbackWritten(snapshot, n);
          return Unread;
        }
      }
      reading := EffectiveValue();
    }

    method Restore(records: seq<Saved<int>>) returns (reading: Reading)
      modifies store
      ensures (store.View(), reading) == PowercapSpec.Restore(old(store.View()), sources, records, store.faults)
    {
      var allowed := PathSet(PathsOf(sources));
      if |records| != |allowed| {
        return Unread;
      }
      var clean := true;
      var n := |records|;
      while n > 0
        invariant 0 <= n <= |records|
        invariant RestoreFrom(Always, store.View(), records, allowed, n, clean, store.faults)
               == RestoreFrom(Always, old(store.View()), records, allowed, |records|, true, store.faults)
      {
        n := n - 1;
        var cancelled := store.Cancelled();
        if cancelled || records[n].path !in allowed {
          return Unread;
        }
        var ok := WriteAndVerify(records[n].path, records[n].value);
        clean := clean && ok;
      }
      if !clean {
        return Unread;
      }
      reading := EffectiveValue();
    }
  }
}

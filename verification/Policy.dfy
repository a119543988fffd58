// The energy preference of every cpufreq policy (internal/tuning/intel/policy/epp.go). Contents are preferences with
// the surrounding white space already trimmed.
module PolicySpec {
  import opened Wrappers
  import opened SourceSpec

  type Choice = string

  const MIXED: Choice := "mixed"

  function Everywhere(paths: seq<Path>, choice: Choice): seq<Choice> {
    seq(|paths|, i requires 0 <= i < |paths| => choice)
  }

  function Write(st: Store<Choice>, paths: seq<Path>, requested: Choice, snapshot: seq<Saved<Choice>>,
                 f: Faults<Choice>): Writing<Choice>
    requires |snapshot| == |paths|
  {
    WriteFrom(WhenDifferent, st, paths, Everywhere(paths, requested), snapshot, 0, f)
  }

  function Apply(st: Store<Choice>, paths: seq<Path>, requested: Choice, snapshot: seq<Saved<Choice>>,
                 f: Faults<Choice>): (Store<Choice>, Option<Choice>)
  {
    if |snapshot| != |paths| then (st, None)
    else
      var w := Write(st, paths, requested, snapshot, f);
      (w.store, if w.ok then Some(requested) else None)
  }

  // The preference the policies agree on; an empty one counts as not yet known.
  function EffectiveFrom(st: Store<Choice>, paths: seq<Path>, n: nat, current: Choice, f: Faults<Choice>)
    : (Store<Choice>, Option<Choice>)
    requires n <= |paths|
    decreases |paths| - n
  {
    if n == |paths| then (st, Some(current))
    else
      var (st1, choice) := ReadFile(st, paths[n], f);
      if choice.None? then (st1, None)
      else if current == "" then EffectiveFrom(st1, paths, n + 1, choice.value, f)
      else if current != choice.value then (st1, Some(MIXED))
      else EffectiveFrom(st1, paths, n + 1, current, f)
  }

  // Any number of records will do, as long as they name known policies.
  function Restore(st: Store<Choice>, paths: seq<Path>, records: seq<Saved<Choice>>, f: Faults<Choice>)
    : (Store<Choice>, Option<Choice>)
  {
    var (st1, ok) := RestoreFrom(WhenDifferent, st, records, PathSet(paths), |records|, true, f);
    if !ok then (st1, None) else EffectiveFrom(st1, paths, 0, "", f)
  }

  function Intersect(left: seq<Choice>, right: seq<Choice>): seq<Choice> {
    if left == [] then []
    else
      var last := left[|left| - 1];
      Intersect(left[..|left| - 1], right) + if last in right then [last] else []
  }

  // --- Properties ---

  lemma {:induction false} EffectiveOnlyReads(st: Store<Choice>, paths: seq<Path>, n: nat, current: Choice,
                                              f: Faults<Choice>)
    requires n <= |paths|
    ensures var st1 := EffectiveFrom(st, paths, n, current, f).0; st1 == st.(clock := st1.clock)
    decreases |paths| - n
  {
    if n < |paths| {
      var (st1, choice) := ReadFile(st, paths[n], f);
      if choice.Some? {
        EffectiveOnlyReads(st1, paths, n + 1, if current == "" then choice.value else current, f);
      }
    }
  }

  // A preference other than "mixed" is what every policy holds, empty ones apart.
  lemma {:induction false} EffectiveIsShared(st: Store<Choice>, paths: seq<Path>, n: nat, current: Choice,
                                             f: Faults<Choice>)
    requires n <= |paths| && EffectiveFrom(st, paths, n, current, f).1.Some?
    requires EffectiveFrom(st, paths, n, current, f).1 != Some(MIXED)
    ensures var choice := EffectiveFrom(st, paths, n, current, f).1.value;
            && (current != "" ==> choice == current)
            && forall i :: n <= i < |paths| ==>
                 paths[i] in st.files && (st.files[paths[i]] == choice || st.files[paths[i]] == "")
    decreases |paths| - n
  {
    if n < |paths| {
      var (st1, choice) := ReadFile(st, paths[n], f);
      EffectiveIsShared(st1, paths, n + 1, if current == "" then choice.value else current, f);
    }
  }

  // "mixed" is answered only if two policies hold different preferences, or one of them holds this very word.
  lemma {:induction false} MixedIsMixed(st: Store<Choice>, paths: seq<Path>, n: nat, current: Choice, f: Faults<Choice>)
    requires n <= |paths| && EffectiveFrom(st, paths, n, current, f).1 == Some(MIXED)
    ensures || current == MIXED
            || (exists i :: n <= i < |paths| && paths[i] in st.files && st.files[paths[i]] == MIXED)
            || (current != "" && exists i :: n <= i < |paths| && paths[i] in st.files && st.files[paths[i]] != current)
            || (exists i, j :: n <= i < j < |paths| && paths[i] in st.files && paths[j] in st.files
                               && st.files[paths[i]] != st.files[paths[j]])
    decreases |paths| - n
  {
    if n < |paths| {
      var (st1, choice) := ReadFile(st, paths[n], f);
      assert paths[n] in st.files && choice.value == st.files[paths[n]];
      if current == "" || current == choice.value {
        MixedIsMixed(st1, paths, n + 1, choice.value, f);
      }
    }
  }

  // Apply succeeds exactly when every policy has been brought to the request; otherwise it has undone what it could.
  lemma ApplyKeepsItsPromise(st: Store<Choice>, paths: seq<Path>, requested: Choice, snapshot: seq<Saved<Choice>>,
                             f: Faults<Choice>)
    requires Distinct(paths) && TakenOf(snapshot, paths, st.files)
    ensures var (st1, choice) := Apply(st, paths, requested, snapshot, f);
            var w := Write(st, paths, requested, snapshot, f);
            if choice.Some? then choice.value == requested
                                 && Halfway(st.files, st1.files, paths, Everywhere(paths, requested), |paths|)
            else Undone(st.files, st1.files, paths, w.reached, w.failed)
  {
    WriteIsAllOrUndone(WhenDifferent, st.files, st, paths, Everywhere(paths, requested), snapshot, 0, f);
  }

  // Whatever Apply did, a restoration of the captured snapshot that succeeds puts every file back.
  lemma RestoreUndoesApply(st: Store<Choice>, paths: seq<Path>, requested: Choice, f: Faults<Choice>)
    requires Distinct(paths)
    ensures var captured := CaptureFrom(st, paths, 0, [], f);
            captured.snapshot.Some? ==>
              var applied := Apply(captured.store, paths, requested, captured.snapshot.value, f);
              var (restored, choice) := Restore(applied.0, paths, captured.snapshot.value, f);
              && applied.0.files.Keys == restored.files.Keys == st.files.Keys
              && (choice.Some? ==> restored.files == st.files)
  {
    CaptureIsTrue(st, paths, 0, [], f);
    var captured := CaptureFrom(st, paths, 0, [], f);
    if captured.snapshot.Some? {
      var snapshot := captured.snapshot.value;
      ApplyKeepsItsPromise(captured.store, paths, requested, snapshot, f);
      var applied := Apply(captured.store, paths, requested, snapshot, f).0;
      assert Touches(st.files, applied.files, PathSet(paths));
      RestorePutsBack(applied, st.files, paths, snapshot, f);
    }
  }

  lemma RestorePutsBack(st: Store<Choice>, original: Files<Choice>, paths: seq<Path>, records: seq<Saved<Choice>>,
                        f: Faults<Choice>)
    requires Distinct(paths) && TakenOf(records, paths, original) && Touches(original, st.files, PathSet(paths))
    ensures var (st1, choice) := Restore(st, paths, records, f);
            Touches(original, st1.files, PathSet(paths)) && (choice.Some? ==> st1.files == original)
  {
    assert Paths(records) == paths;
    var (st1, ok) := RestoreFrom(WhenDifferent, st, records, PathSet(paths), |records|, true, f);
    RestoreIsTrue(WhenDifferent, st, records, PathSet(paths), |records|, true, f);
    EffectiveOnlyReads(st1, paths, 0, "", f);
    if ok {
      forall p | p in original
        ensures st1.files[p] == original[p]
      {
        if p in PathSet(paths) {
          var i :| 0 <= i < |paths| && paths[i] == p;
          assert records[i].path == p;
        }
      }
      assert st1.files == original;
    }
  }

  // Restoring policies that already hold their snapshot disturbs nothing, whatever fails.
  lemma RestoreNeverDisturbs(st: Store<Choice>, paths: seq<Path>, records: seq<Saved<Choice>>, f: Faults<Choice>)
    requires TakenOf(records, paths, st.files)
    ensures var st1 := Restore(st, paths, records, f).0; st1 == st.(clock := st1.clock)
  {
    RestoreIsGentle(st, records, PathSet(paths), |records|, true, f);
    var st1 := RestoreFrom(WhenDifferent, st, records, PathSet(paths), |records|, true, f).0;
    EffectiveOnlyReads(st1, paths, 0, "", f);
  }

  // Without faults, Apply succeeds and brings every policy of the snapshot to the request.
  lemma QuietApplySucceeds(st: Store<Choice>, paths: seq<Path>, requested: Choice, snapshot: seq<Saved<Choice>>,
                           f: Faults<Choice>)
    requires Distinct(paths) && TakenOf(snapshot, paths, st.files) && Quiet(f, st.clock)
    ensures var (st1, choice) := Apply(st, paths, requested, snapshot, f);
            && choice == Some(requested)
            && forall i :: 0 <= i < |paths| ==> paths[i] in st1.files && st1.files[paths[i]] == requested
  {
    QuietWriteSucceeds(WhenDifferent, st, paths, Everywhere(paths, requested), snapshot, 0, f);
    ApplyKeepsItsPromise(st, paths, requested, snapshot, f);
    assert forall i :: 0 <= i < |paths| ==> Everywhere(paths, requested)[i] == requested;
    hide WriteFrom;
  }

  lemma {:induction false} QuietEffectiveIsRead(st: Store<Choice>, paths: seq<Path>, n: nat, current: Choice,
                                                f: Faults<Choice>)
    requires n <= |paths| && Quiet(f, st.clock) && forall i :: 0 <= i < |paths| ==> paths[i] in st.files
    ensures EffectiveFrom(st, paths, n, current, f).1.Some?
    decreases |paths| - n
  {
    if n < |paths| {
      assert f(st.clock).ok;
      var (st1, choice) := ReadFile(st, paths[n], f);
      QuietEffectiveIsRead(st1, paths, n + 1, if current == "" then choice.value else current, f);
    }
  }

  // Without faults, a restoration of a snapshot of these policies succeeds and puts all of them back.
  lemma QuietRestorePutsBack(st: Store<Choice>, original: Files<Choice>, paths: seq<Path>,
                             records: seq<Saved<Choice>>, f: Faults<Choice>)
    requires Distinct(paths) && TakenOf(records, paths, original) && Quiet(f, st.clock)
    requires Touches(original, st.files, PathSet(paths))
    ensures Restore(st, paths, records, f).1.Some? && Restore(st, paths, records, f).0.files == original
  {
    forall i | 0 <= i < |records|
      ensures records[i].path in PathSet(paths) && records[i].path in st.files
    {
      assert records[i].path == paths[i];
    }
    QuietRestoreSucceeds(WhenDifferent, st, records, PathSet(paths), |records|, f);
    RestorePutsBack(st, original, paths, records, f);
    var st1 := RestoreFrom(WhenDifferent, st, records, PathSet(paths), |records|, true, f).0;
    assert Paths(records) == paths;
    RestoreIsTrue(WhenDifferent, st, records, PathSet(paths), |records|, true, f);
    assert forall i :: 0 <= i < |paths| ==> paths[i] in original;
    QuietEffectiveIsRead(st1, paths, 0, "", f);
    hide RestoreFrom, EffectiveFrom;
  }

  // The snapshot need not cover every policy: one restored from an incomplete snapshot leaves the rest alone.
  lemma IncompleteSnapshotLeavesTheRest(st: Store<Choice>, paths: seq<Path>, records: seq<Saved<Choice>>,
                                        path: Path, f: Faults<Choice>)
    requires Distinct(Paths(records)) && path in st.files && path !in PathSet(Paths(records))
    ensures var st1 := Restore(st, paths, records, f).0;
            path in st1.files && st1.files[path] == st.files[path]
  {
    var st1 := RestoreFrom(WhenDifferent, st, records, PathSet(paths), |records|, true, f).0;
    RestoreIsTrue(WhenDifferent, st, records, PathSet(paths), |records|, true, f);
    assert records[..|records|] == records;
    EffectiveOnlyReads(st1, paths, 0, "", f);
  }

  // The common choices are those of the first list that the second has, in the order of the first.
  lemma {:induction false} IntersectIsCommon(left: seq<Choice>, right: seq<Choice>, choice: Choice)
    ensures choice in Intersect(left, right) <==> choice in left && choice in right
  {
    if left != [] {
      IntersectIsCommon(left[..|left| - 1], right, choice);
      assert left == left[..|left| - 1] + [left[|left| - 1]];
    }
  }
}

// The operation as it runs.
module Policy {
  import opened Wrappers
  import opened SourceSpec
  import opened Sysfs
  import opened PolicySpec

  method IntersectChoices(left: seq<Choice>, right: seq<Choice>) returns (result: seq<Choice>)
    ensures result == Intersect(left, right)
  {
    result := [];
    for n := 0 to |left|
      invariant result == Intersect(left[..n], right)
    {
      assert left[..n + 1][..n] == left[..n];
      if left[n] in right {
        result := result + [left[n]];
      }
    }
    assert left[..|left|] == left;
  }

  class PolicyOperation {
    const store: FileStore<Choice>
    const paths: seq<Path>
    const requested: Choice
    var snapshot: seq<Saved<Choice>>

    constructor (store: FileStore<Choice>, paths: seq<Path>, requested: Choice)
      ensures this.store == store && this.paths == paths && this.requested == requested && snapshot == []
    {
      this.store, this.paths, this.requested, snapshot := store, paths, requested, [];
    }

    method Capture() returns (ok: bool)
      modifies this, store
      ensures var c := CaptureFrom(old(store.View()), paths, 0, [], store.faults);
              && store.View() == c.store && ok == c.snapshot.Some?
              && snapshot == if ok then c.snapshot.value else old(snapshot)
    {
      var records: seq<Saved<Choice>> := [];
      for n := 0 to |paths|
        invariant CaptureFrom(store.View(), paths, n, records, store.faults)
               == CaptureFrom(old(store.View()), paths, 0, [], store.faults)
        invariant snapshot == old(snapshot)
      {
        var cancelled := store.Cancelled();
        if cancelled {
          return false;
        }
        var value := store.Read(paths[n]);
        if value.None? {
          return false;
        }
        records := records + [Saved(paths[n], value.value)];
      }
      snapshot, ok := records, true;
    }

    method WriteChoice(path: Path, choice: Choice) returns (ok: bool)
      modifies store
      ensures (store.View(), ok) == Put(WhenDifferent, old(store.View()), path, choice, store.faults)
    {
      var current := store.Read(path);
      if current.None? {
        return false;
      }
      if current.value == choice {
        return true;
      }
      var written := store.Write(path, choice);
      if !written {
        return false;
      }
      var back := store.Read(path);
      ok := back == Some(choice);
    }

    method Rollback(count: nat) returns (failed: set<Path>)
      requires count <= |snapshot|
      modifies store
      ensures (store.View(), failed)
              == UndoWritten(WhenDifferent, old(store.View()), snapshot, count, {}, store.faults)
    {
      failed := {};
      var n := count;
      while n > 0
        invariant 0 <= n <= count
        invariant UndoWritten(WhenDifferent, store.View(), snapshot, n, failed, store.faults)
               == UndoWritten(WhenDifferent, old(store.View()), snapshot, count, {}, store.faults)
      {
        n := n - 1;
        var ok := WriteChoice(snapshot[n].path, snapshot[n].value);
        if !ok {
          failed := failed + {snapshot[n].path};
        }
      }
    }

    method Apply() returns (choice: Option<Choice>)
      modifies store
      ensures (store.View(), choice) == PolicySpec.Apply(old(store.View()), paths, requested, snapshot, store.faults)
    {
      if |snapshot| != |paths| {
        return None;
      }
      ghost var targets := Everywhere(paths, requested);
      for n := 0 to |paths|
        invariant WriteFrom(WhenDifferent, store.View(), paths, targets, snapshot, n, store.faults)
               == Write(old(store.View()), paths, requested, snapshot, store.faults)
      {
        var cancelled := store.Cancelled();
        if cancelled {
          var failed := Rollback(n);
          return None;
        }
        var ok := WriteChoice(paths[n], requested);
        if !ok {
          var failed := Rollback(n);
          return None;
        }
      }
      choice := Some(requested);
    }

    method EffectivePreference() returns (choice: Option<Choice>)
      modifies store
      ensures (store.View(), choice) == EffectiveFrom(old(store.View()), paths, 0, "", store.faults)
    {
      var current := "";
      for n := 0 to |paths|
        invariant EffectiveFrom(store.View(), paths, n, current, store.faults)
               == EffectiveFrom(old(store.View()), paths, 0, "", store.faults)
      {
        var read := store.Read(paths[n]);
        if read.None? {
          return None;
        }
        if current == "" {
          current := read.value;
        } else if current != read.value {
          return Some(MIXED);
        }
      }
      choice := Some(current);
    }

    method Restore(records: seq<Saved<Choice>>) returns (choice: Option<Choice>)
      modifies store
      ensures (store.View(), choice) == PolicySpec.Restore(old(store.View()), paths, records, store.faults)
    {
      var allowed := PathSet(paths);
      var clean := true;
      var n := |records|;
      while n > 0
        invariant 0 <= n <= |records|
        invariant RestoreFrom(WhenDifferent, store.View(), records, allowed, n, clean, store.faults)
               == RestoreFrom(WhenDifferent, old(store.View()), records, allowed, |records|, true, store.faults)
      {
        n := n - 1;
        var cancelled := store.Cancelled();
        if cancelled || records[n].path !in allowed {
          return None;
        }
        var ok := WriteChoice(records[n].path, records[n].value);
        clean := clean && ok;
      }
      if !clean {
        return None;
      }
      choice := EffectivePreference();
    }
  }
}

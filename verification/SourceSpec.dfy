// A control spread over several files of a store: captured, written and restored one source at a time, with partial
// undo. Powercap and energy preference share this shape (internal/tuning/intel/powercap/operation.go,
// internal/tuning/intel/policy/epp.go).
module SourceSpec {
  import opened Wrappers

  type Path = string

  type Files<V> = map<Path, V>

  datatype Landing<V> = AsWritten | NotAtAll | Elsewhere(value: V)

  // One call's luck: whether its context is cancelled, whether it reports success, and, reported or not, what a
  // write does to the contents.
  datatype Fault<V> = Fault(cancelled: bool, ok: bool, lands: Landing<V>)

  type Faults<!V> = nat -> Fault<V>

  // `trace` lists what the files held after every write.
  datatype Store<V> = Store(files: Files<V>, clock: nat, trace: seq<Files<V>>)

  datatype Saved<V> = Saved(path: Path, value: V)

  // Powercap always writes; energy preference leaves alone what already holds the choice.
  datatype Style = Always | WhenDifferent

  function Tick<V>(st: Store<V>): Store<V> { st.(clock := st.clock + 1) }

  function ReadFile<V>(st: Store<V>, path: Path, f: Faults<V>): (Store<V>, Option<V>) {
    (Tick(st), if f(st.clock).ok && path in st.files then Some(st.files[path]) else None)
  }

  function WriteFile<V>(st: Store<V>, path: Path, value: V, f: Faults<V>): (Store<V>, bool) {
    if path !in st.files then (Tick(st), false)
    else
      var files := st.files[path := Landed(f(st.clock).lands, st.files[path], value)];
      (Store(files, st.clock + 1, st.trace + [files]), f(st.clock).ok)
  }

  function Landed<V>(lands: Landing<V>, before: V, written: V): V {
    match lands
    case AsWritten => written
    case NotAtAll => before
    case Elsewhere(value) => value
  }

  function WriteAndVerify<V(==)>(st: Store<V>, path: Path, value: V, f: Faults<V>): (Store<V>, bool) {
    var (st1, written) := WriteFile(st, path, value, f);
    if !written then (st1, false)
    else
      var (st2, back) := ReadFile(st1, path, f);
      (st2, back == Some(value))
  }

  function Put<V(==)>(style: Style, st: Store<V>, path: Path, value: V, f: Faults<V>): (Store<V>, bool) {
    match style
    case Always => WriteAndVerify(st, path, value, f)
    case WhenDifferent =>
      var (st1, now) := ReadFile(st, path, f);
      if now.None? then (st1, false)
      else if now.value == value then (st1, true)
      else WriteAndVerify(st1, path, value, f)
  }

  datatype Captured<V> = Captured(store: Store<V>, snapshot: Option<seq<Saved<V>>>)

  function CaptureFrom<V>(st: Store<V>, paths: seq<Path>, n: nat, done: seq<Saved<V>>, f: Faults<V>): Captured<V>
    requires n <= |paths|
    decreases |paths| - n
  {
    if n == |paths| then Captured(st, Some(done))
    else if f(st.clock).cancelled then Captured(Tick(st), None)
    else
      var (st1, value) := ReadFile(Tick(st), paths[n], f);
      if value.None? then Captured(st1, None)
      else CaptureFrom(st1, paths, n + 1, done + [Saved(paths[n], value.value)], f)
  }

  // Puts back the first n sources, last one first; `failed` collects those that would not go back.
  function UndoWritten<V(==)>(style: Style, st: Store<V>, snapshot: seq<Saved<V>>, n: nat, failed: set<Path>,
                              f: Faults<V>): (Store<V>, set<Path>)
    requires n <= |snapshot|
    decreases n
  {
    if n == 0 then (st, failed)
    else
      var (st1, ok) := Put(style, st, snapshot[n - 1].path, snapshot[n - 1].value, f);
      UndoWritten(style, st1, snapshot, n - 1, if ok then failed else failed + {snapshot[n - 1].path}, f)
  }

  // `reached`: how many sources had been written when the loop stopped.
  datatype Writing<V> = Writing(store: Store<V>, ok: bool, reached: nat, failed: set<Path>)

  function WriteFrom<V(==)>(style: Style, st: Store<V>, paths: seq<Path>, targets: seq<V>, snapshot: seq<Saved<V>>,
                            n: nat, f: Faults<V>): Writing<V>
    requires n <= |paths| == |targets| == |snapshot|
    decreases |paths| - n
  {
    if n == |paths| then Writing(st, true, n, {})
    else if f(st.clock).cancelled then
      var (st1, failed) := UndoWritten(style, Tick(st), snapshot, n, {}, f);
      Writing(st1, false, n, failed)
    else
      var (st1, ok) := Put(style, Tick(st), paths[n], targets[n], f);
      if ok then WriteFrom(style, st1, paths, targets, snapshot, n + 1, f)
      else
        var (st2, failed) := UndoWritten(style, st1, snapshot, n, {}, f);
        Writing(st2, false, n, failed)
  }

  // Restores records n-1 .. 0, going on past failures but not past a cancellation or an unexpected path.
  function RestoreFrom<V(==)>(style: Style, st: Store<V>, records: seq<Saved<V>>, allowed: set<Path>, n: nat,
                              clean: bool, f: Faults<V>): (Store<V>, bool)
    requires n <= |records|
    decreases n
  {
    if n == 0 then (st, clean)
    else if f(st.clock).cancelled then (Tick(st), false)
    else if records[n - 1].path !in allowed then (Tick(st), false)
    else
      var (st1, ok) := Put(style, Tick(st), records[n - 1].path, records[n - 1].value, f);
      RestoreFrom(style, st1, records, allowed, n - 1, clean && ok, f)
  }

  function PathSet(paths: seq<Path>): set<Path> { set p | p in paths }

  function Paths<V>(records: seq<Saved<V>>): seq<Path> {
    seq(|records|, i requires 0 <= i < |records| => records[i].path)
  }

  // --- What the loops guarantee ---

  // Nothing but these paths has changed.
  ghost predicate Touches<V>(a: Files<V>, b: Files<V>, paths: set<Path>) {
    a.Keys == b.Keys && forall p :: p in a && p !in paths ==> a[p] == b[p]
  }

  predicate Distinct(paths: seq<Path>) {
    forall i, j :: 0 <= i < j < |paths| ==> paths[i] != paths[j]
  }

  // The snapshot was taken of these paths, in these files.
  ghost predicate TakenOf<V>(snapshot: seq<Saved<V>>, paths: seq<Path>, files: Files<V>) {
    && |snapshot| == |paths|
    && forall i :: 0 <= i < |paths| ==>
         snapshot[i].path == paths[i] && paths[i] in files && snapshot[i].value == files[paths[i]]
  }

  lemma PutIsSound<V>(style: Style, st: Store<V>, path: Path, value: V, f: Faults<V>)
    ensures var (st1, ok) := Put(style, st, path, value, f);
            && Touches(st.files, st1.files, {path})
            && (ok ==> path in st1.files && st1.files[path] == value)
            && (style.WhenDifferent? && path in st.files && st.files[path] == value ==>
                  st1 == st.(clock := st1.clock))
  {
  }

  lemma {:induction false} CaptureIsTrue<V>(st: Store<V>, paths: seq<Path>, n: nat, done: seq<Saved<V>>, f: Faults<V>)
    requires n <= |paths| && TakenOf(done, paths[..n], st.files)
    ensures var c := CaptureFrom(st, paths, n, done, f);
            c.store.files == st.files && (c.snapshot.Some? ==> TakenOf(c.snapshot.value, paths, st.files))
    decreases |paths| - n
  {
    if n == |paths| {
      assert paths[..n] == paths;
    } else if !f(st.clock).cancelled {
      var (st1, value) := ReadFile(Tick(st), paths[n], f);
      if value.Some? {
        var next := done + [Saved(paths[n], value.value)];
        assert TakenOf(next, paths[..n + 1], st1.files);
        CaptureIsTrue(st1, paths, n + 1, next, f);
      }
    }
  }

  // Each of the first n sources is back at its snapshot, or named among the failures; nothing else is touched.
  lemma {:induction false} UndoPutsBack<V>(style: Style, st: Store<V>, snapshot: seq<Saved<V>>, n: nat,
                                           failed: set<Path>, f: Faults<V>)
    requires n <= |snapshot| && Distinct(Paths(snapshot))
    ensures var (st1, all) := UndoWritten(style, st, snapshot, n, failed, f);
            && Touches(st.files, st1.files, PathSet(Paths(snapshot[..n])))
            && failed <= all
            && forall i :: 0 <= i < n && snapshot[i].path !in all ==>
                 snapshot[i].path in st1.files && st1.files[snapshot[i].path] == snapshot[i].value
    decreases n
  {
    hide Put;
    if n > 0 {
      var last := snapshot[n - 1];
      var (st1, ok) := Put(style, st, last.path, last.value, f);
      PutIsSound(style, st, last.path, last.value, f);
      var failed1 := if ok then failed else failed + {last.path};
      UndoPutsBack(style, st1, snapshot, n - 1, failed1, f);
      PrefixPaths(snapshot, n);
      assert last.path !in PathSet(Paths(snapshot[..n - 1])) by { DistinctPrefix(snapshot, n - 1); }
    }
  }

  lemma PrefixPaths<V>(snapshot: seq<Saved<V>>, n: nat)
    requires 0 < n <= |snapshot|
    ensures PathSet(Paths(snapshot[..n])) == PathSet(Paths(snapshot[..n - 1])) + {snapshot[n - 1].path}
  {
    var a, b := Paths(snapshot[..n]), Paths(snapshot[..n - 1]);
    assert a == b + [snapshot[n - 1].path];
  }

  lemma DistinctPrefix<V>(snapshot: seq<Saved<V>>, n: nat)
    requires n < |snapshot| && Distinct(Paths(snapshot))
    ensures snapshot[n].path !in PathSet(Paths(snapshot[..n]))
  {
    forall i | 0 <= i < n
      ensures Paths(snapshot[..n])[i] != snapshot[n].path
    {
      assert Paths(snapshot)[i] != Paths(snapshot)[n];
    }
  }

  // Sources before n hold their targets, the others what they held at the capture.
  ghost predicate Halfway<V>(original: Files<V>, files: Files<V>, paths: seq<Path>, targets: seq<V>, n: nat)
    requires |paths| == |targets|
  {
    && Touches(original, files, PathSet(paths))
    && forall i :: 0 <= i < |paths| && paths[i] in files ==>
         files[paths[i]] == if i < n then targets[i] else original[paths[i]]
  }

  lemma PutAdvances<V>(original: Files<V>, before: Files<V>, after: Files<V>, paths: seq<Path>, targets: seq<V>,
                       n: nat)
    requires n < |paths| == |targets| && Distinct(paths) && Halfway(original, before, paths, targets, n)
    requires Touches(before, after, {paths[n]}) && paths[n] in after && after[paths[n]] == targets[n]
    ensures Halfway(original, after, paths, targets, n + 1)
  {
    assert paths[n] in PathSet(paths);
    forall i | 0 <= i < |paths| && paths[i] in after
      ensures after[paths[i]] == if i < n + 1 then targets[i] else original[paths[i]]
    {
      if i != n {
        assert paths[i] != paths[n];
      }
    }
  }

  // The sources before `reached` are back at their snapshots, or named among the failures; those after it have not
  // been touched.
  ghost predicate Undone<V>(original: Files<V>, files: Files<V>, paths: seq<Path>, reached: nat, failed: set<Path>) {
    && reached < |paths|
    && Touches(original, files, PathSet(paths))
    && forall i :: 0 <= i < |paths| && i != reached && paths[i] in files && !(i < reached && paths[i] in failed) ==>
         files[paths[i]] == original[paths[i]]
  }

  lemma StoppingUndoes<V>(style: Style, original: Files<V>, before: Files<V>, st: Store<V>, paths: seq<Path>,
                          targets: seq<V>, snapshot: seq<Saved<V>>, n: nat, f: Faults<V>)
    requires n < |paths| == |targets| && Distinct(paths) && TakenOf(snapshot, paths, original)
    requires Halfway(original, before, paths, targets, n) && Touches(before, st.files, {paths[n]})
    ensures var (st1, failed) := UndoWritten(style, st, snapshot, n, {}, f);
            Undone(original, st1.files, paths, n, failed)
  {
    assert Paths(snapshot) == paths;
    UndoPutsBack(style, st, snapshot, n, {}, f);
    var (st1, failed) := UndoWritten(style, st, snapshot, n, {}, f);
    var undone := PathSet(Paths(snapshot[..n]));
    assert Paths(snapshot[..n]) == paths[..n];
    forall p | p in undone
      ensures p in PathSet(paths)
    {
      var i :| 0 <= i < n && paths[..n][i] == p;
      assert paths[i] == p;
    }
    assert paths[n] in PathSet(paths);
    forall i | 0 <= i < |paths| && i != n && paths[i] in st1.files && !(i < n && paths[i] in failed)
      ensures st1.files[paths[i]] == original[paths[i]]
    {
      assert paths[i] != paths[n];
      if i < n {
        assert snapshot[i].path == paths[i];
      } else {
        forall j | 0 <= j < n
          ensures paths[..n][j] != paths[i]
        {
        }
      }
    }
  }

  // A write that succeeds leaves every source at its target. One that fails leaves off its captured value only
  // the source it failed at and those whose undo failed, and names the latter. No other path is written.
  lemma {:induction false} WriteIsAllOrUndone<V>(style: Style, original: Files<V>, st: Store<V>, paths: seq<Path>,
                                                 targets: seq<V>, snapshot: seq<Saved<V>>, n: nat, f: Faults<V>)
    requires n <= |paths| == |targets| && Distinct(paths) && TakenOf(snapshot, paths, original)
    requires Halfway(original, st.files, paths, targets, n)
    ensures var w := WriteFrom(style, st, paths, targets, snapshot, n, f);
            if w.ok then w.reached == |paths| && Halfway(original, w.store.files, paths, targets, |paths|)
            else Undone(original, w.store.files, paths, w.reached, w.failed)
    decreases |paths| - n
  {
    hide Halfway, Undone, Put, Distinct, TakenOf;
    if n < |paths| {
      if f(st.clock).cancelled {
        StoppingUndoes(style, original, st.files, Tick(st), paths, targets, snapshot, n, f);
      } else {
        var (st1, ok) := Put(style, Tick(st), paths[n], targets[n], f);
        PutIsSound(style, Tick(st), paths[n], targets[n], f);
        if ok {
          PutAdvances(original, st.files, st1.files, paths, targets, n);
          WriteIsAllOrUndone(style, original, st1, paths, targets, snapshot, n + 1, f);
        } else {
          StoppingUndoes(style, original, st.files, st1, paths, targets, snapshot, n, f);
        }
      }
    }
  }

  // A restoration that succeeds leaves every recorded path at its recorded value; it writes recorded paths only.
  lemma {:induction false} RestoreIsTrue<V>(style: Style, st: Store<V>, records: seq<Saved<V>>, allowed: set<Path>,
                                            n: nat, clean: bool, f: Faults<V>)
    requires n <= |records| && Distinct(Paths(records))
    ensures var (st1, ok) := RestoreFrom(style, st, records, allowed, n, clean, f);
            && Touches(st.files, st1.files, PathSet(Paths(records[..n])) * allowed)
            && (ok ==> clean && forall i :: 0 <= i < n ==>
                  records[i].path in allowed && records[i].path in st1.files
                  && st1.files[records[i].path] == records[i].value)
    decreases n
  {
    hide Put;
    if n > 0 {
      PrefixPaths(records, n);
      DistinctPrefix(records, n - 1);
      var last := records[n - 1];
      if !f(st.clock).cancelled && last.path in allowed {
        var (st1, ok) := Put(style, Tick(st), last.path, last.value, f);
        PutIsSound(style, Tick(st), last.path, last.value, f);
        RestoreIsTrue(style, st1, records, allowed, n - 1, clean && ok, f);
      }
    }
  }

  // Restoring what is already there disturbs nothing, whatever fails, if equal values are not rewritten.
  lemma {:induction false} RestoreIsGentle<V>(st: Store<V>, records: seq<Saved<V>>, allowed: set<Path>, n: nat,
                                              clean: bool, f: Faults<V>)
    requires n <= |records|
    requires forall i :: 0 <= i < n && records[i].path in st.files ==> st.files[records[i].path] == records[i].value
    ensures var st1 := RestoreFrom(WhenDifferent, st, records, allowed, n, clean, f).0;
            st1 == st.(clock := st1.clock)
    decreases n
  {
    if n > 0 && !f(st.clock).cancelled && records[n - 1].path in allowed {
      var last := records[n - 1];
      var (st1, ok) := Put(WhenDifferent, Tick(st), last.path, last.value, f);
      RestoreIsGentle(st1, records, allowed, n - 1, clean && ok, f);
    }
  }

  // A store whose writes, reported or not, leave either the old contents or the value written.
  ghost predicate Faithful<V(!new)>(f: Faults<V>) { forall t :: !f(t).lands.Elsewhere? }

  // Nothing has changed, at any instant.
  ghost predicate Unchanging<V(!new)>(a: Store<V>, b: Store<V>) {
    b.files == a.files && a.trace <= b.trace && forall i :: |a.trace| <= i < |b.trace| ==> b.trace[i] == a.files
  }

  lemma FaithfulPut<V(!new)>(style: Style, st: Store<V>, path: Path, value: V, f: Faults<V>)
    requires Faithful(f) && (path in st.files ==> st.files[path] == value)
    ensures Unchanging(st, Put(style, st, path, value, f).0)
  {
    assert path in st.files ==> st.files[path := value] == st.files;
    assert !f(st.clock).lands.Elsewhere? && !f(st.clock + 1).lands.Elsewhere?;
  }

  // Rewriting equal values disturbs nothing either, on a store whose writes land where they are aimed.
  lemma {:induction false} RestoreIsGentleIfFaithful<V(!new)>(style: Style, st: Store<V>, records: seq<Saved<V>>,
                                                        allowed: set<Path>, n: nat, clean: bool, f: Faults<V>)
    requires n <= |records| && Faithful(f)
    requires forall i :: 0 <= i < n && records[i].path in st.files ==> st.files[records[i].path] == records[i].value
    ensures Unchanging(st, RestoreFrom(style, st, records, allowed, n, clean, f).0)
    decreases n
  {
    hide Put;
    if n > 0 && !f(st.clock).cancelled && records[n - 1].path in allowed {
      var last := records[n - 1];
      var (st1, ok) := Put(style, Tick(st), last.path, last.value, f);
      FaithfulPut(style, Tick(st), last.path, last.value, f);
      RestoreIsGentleIfFaithful(style, st1, records, allowed, n - 1, clean && ok, f);
    }
  }

  // On one whose writes may go astray, it can disturb what was in order.
  lemma RoughRestoreDisturbs<V>(st: Store<V>, record: Saved<V>, stray: V, f: Faults<V>)
    requires record.path in st.files && st.files[record.path] == record.value && stray != record.value
    requires !f(st.clock).cancelled && f(st.clock + 1).lands == Elsewhere(stray)
    ensures var (st1, ok) := RestoreFrom(Always, st, [record], {record.path}, 1, true, f);
            st1.files[record.path] == stray && !ok
  {
  }

  ghost predicate Quiet<V(!new)>(f: Faults<V>, t: nat) {
    forall i :: i >= t ==> f(i).ok && !f(i).cancelled && f(i).lands.AsWritten?
  }

  lemma QuietPut<V(!new)>(style: Style, st: Store<V>, path: Path, value: V, f: Faults<V>)
    requires Quiet(f, st.clock) && path in st.files
    ensures var (st1, ok) := Put(style, st, path, value, f);
            ok && st1.clock >= st.clock && st1.files.Keys == st.files.Keys
  {
    assert f(st.clock).ok && f(st.clock + 1).ok && f(st.clock + 2).ok;
    assert f(st.clock).lands.AsWritten? && f(st.clock + 1).lands.AsWritten?;
  }

  // Without faults a restoration of known paths succeeds.
  lemma {:induction false} QuietRestoreSucceeds<V(!new)>(style: Style, st: Store<V>, records: seq<Saved<V>>,
                                                   allowed: set<Path>, n: nat, f: Faults<V>)
    requires n <= |records| && Quiet(f, st.clock)
    requires forall i :: 0 <= i < n ==> records[i].path in allowed && records[i].path in st.files
    ensures var (st1, ok) := RestoreFrom(style, st, records, allowed, n, true, f); ok && st1.clock >= st.clock
    decreases n
  {
    if n > 0 {
      assert !f(st.clock).cancelled;
      var last := records[n - 1];
      QuietPut(style, Tick(st), last.path, last.value, f);
      QuietRestoreSucceeds(style, Put(style, Tick(st), last.path, last.value, f).0, records, allowed, n - 1, f);
    }
  }

  // So does a capture of known paths, and the writing of them.
  lemma {:induction false} QuietCaptureSucceeds<V(!new)>(st: Store<V>, paths: seq<Path>, n: nat, done: seq<Saved<V>>,
                                                        f: Faults<V>)
    requires n <= |paths| && Quiet(f, st.clock) && forall i :: 0 <= i < |paths| ==> paths[i] in st.files
    ensures var c := CaptureFrom(st, paths, n, done, f); c.snapshot.Some? && c.store.clock >= st.clock
    decreases |paths| - n
  {
    if n < |paths| {
      assert !f(st.clock).cancelled && f(st.clock + 1).ok;
      var (st1, value) := ReadFile(Tick(st), paths[n], f);
      QuietCaptureSucceeds(st1, paths, n + 1, done + [Saved(paths[n], value.value)], f);
    }
  }

  lemma {:induction false} QuietWriteSucceeds<V(!new)>(style: Style, st: Store<V>, paths: seq<Path>, targets: seq<V>,
                                                      snapshot: seq<Saved<V>>, n: nat, f: Faults<V>)
    requires n <= |paths| == |targets| == |snapshot| && Quiet(f, st.clock)
    requires forall i :: 0 <= i < |paths| ==> paths[i] in st.files
    ensures var w := WriteFrom(style, st, paths, targets, snapshot, n, f);
            w.ok && w.store.clock >= st.clock && w.store.files.Keys == st.files.Keys
    decreases |paths| - n
  {
    if n < |paths| {
      assert !f(st.clock).cancelled;
      QuietPut(style, Tick(st), paths[n], targets[n], f);
      hide Put;
      QuietWriteSucceeds(style, Put(style, Tick(st), paths[n], targets[n], f).0, paths, targets, snapshot, n + 1, f);
    }
  }
}

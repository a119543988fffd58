// A store of small files whose calls may fail (internal/tuning/sysfs).
module Sysfs {
  import opened Wrappers
  import opened SourceSpec

  class FileStore<V(==)> {
    const faults: nat -> Fault<V>
    var files: Files<V>
    var clock: nat
    ghost var trace: seq<Files<V>>

    constructor (faults: nat -> Fault<V>, files: Files<V>)
      ensures this.faults == faults && View() == Store(files, 0, [])
    {
      this.faults, this.files, clock, trace := faults, files, 0, [];
    }

    ghost function View(): Store<V>
      reads this
    {
      Store(files, clock, trace)
    }

    // Whether the caller's context has been cancelled.
    method Cancelled() returns (cancelled: bool)
      modifies this`clock
      ensures View() == Tick(old(View())) && cancelled == faults(old(clock)).cancelled
    {
      cancelled := faults(clock).cancelled;
      clock := clock + 1;
    }

    method Read(path: Path) returns (value: Option<V>)
      modifies this`clock
      ensures (View(), value) == ReadFile(old(View()), path, faults)
    {
      value := if faults(clock).ok && path in files then Some(files[path]) else None;
      clock := clock + 1;
    }

    method Write(path: Path, value: V) returns (ok: bool)
      modifies this
      ensures (View(), ok) == WriteFile(old(View()), path, value, faults)
    {
      if path !in files {
        clock := clock + 1;
        return false;
      }
      ok := faults(clock).ok;
      files := files[path := Landed(faults(clock).lands, files[path], value)];
      clock, trace := clock + 1, trace + [files];
    }
  }
}

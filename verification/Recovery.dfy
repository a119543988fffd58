// The crash-recovery record and the file that publishes it (internal/tuning/recovery.go).
module Recovery {
  import opened Wrappers
  import opened Model

  // What a control's registers or files hold; a snapshot is such contents read before the first write.
  type Contents = int

  const RECOVERY_PROTOCOL := 1

  datatype Phase = Applying | Active | RollingBack | Incomplete

  datatype Entry = Entry(driver: string, control: ControlId, snapshot: Contents, applied: bool)

  datatype Record = Record(
    protocol: int,
    machine: string,
    boot: string,
    transaction: nat,
    phase: Phase,
    entries: seq<Entry>)

  // A file is either the complete encoding of one record or something no reader can decode.
  datatype File = Torn | Whole(record: Record)

  datatype Loaded = Missing | Undecodable | Found(record: Record)

  // What a reader sees at the path may only be the file from before or the complete new record.
  predicate PublishOutcome(before: Option<File>, after: Option<File>, record: Record, ok: bool) {
    && (after == before || after == Some(Whole(record)))
    && (ok ==> after == Some(Whole(record)))
  }

  // A directory that holds the record's path and at most one temporary file. Every call may fail; a failed
  // call has either had its effect or not. `survivors` are the files a power loss may leave at the path.
  class RecoveryFile {
    var published: Option<File>
    var temporary: Option<File>
    var synced: bool
    ghost var survivors: set<Option<File>>
    ghost var exposed: set<Option<File>>

    constructor ()
      ensures published == None && temporary == None
      ensures survivors == {None} && exposed == {None}
    {
      published, temporary, synced := None, None, false;
      survivors, exposed := {None}, {None};
    }

    method Load() returns (loaded: Loaded)
      ensures published.None? ==> loaded == Missing
      ensures loaded.Found? ==> published == Some(Whole(loaded.record))
      ensures published == Some(Torn) ==> loaded == Undecodable
    {
      match published
      case None => loaded := Missing;
      case Some(Torn) => loaded := Undecodable;
      case Some(Whole(record)) =>
        var readable: bool := *;
        loaded := if readable then Found(record) else Undecodable;
    }

    method MakePrivateDirectory() returns (ok: bool) {
      ok := *;
    }

    method CreateTemporary() returns (ok: bool)
      modifies this`temporary, this`synced
      ensures ok ==> temporary == Some(Torn)
      ensures !ok ==> temporary == old(temporary)
      ensures !synced
    {
      ok := *;
      synced := false;
      if ok {
        temporary := Some(Torn);
      }
    }

    method EncodeTemporary(record: Record) returns (ok: bool)
      requires temporary.Some?
      modifies this`temporary
      ensures temporary.Some? && (ok ==> temporary == Some(Whole(record)))
    {
      ok := *;
      temporary := if ok then Some(Whole(record)) else Some(Torn);
    }

    method SyncTemporary() returns (ok: bool)
      modifies this`synced
      ensures ok ==> synced
    {
      ok := *;
      synced := ok;
    }

    // Unsynced contents reach the path at once but may not survive a power loss.
    method RenameTemporary() returns (ok: bool)
      requires temporary.Some?
      modifies this`published, this`temporary, this`survivors, this`exposed
      ensures ok ==> published == old(temporary) && temporary.None?
      ensures !ok ==> published == old(published) && temporary == old(temporary)
      ensures survivors == old(survivors) + if ok then {if synced then published else Some(Torn)} else {}
      ensures exposed == old(exposed) + {published}
    {
      ok := *;
      if ok {
        published, temporary := temporary, None;
        survivors := survivors + {if synced then published else Some(Torn)};
      }
      exposed := exposed + {published};
    }

    method SyncDirectory() returns (ok: bool)
      requires published in survivors
      modifies this`survivors
      ensures survivors == if ok then {published} else old(survivors)
    {
      ok := *;
      if ok {
        survivors := {published};
      }
    }

    method DropTemporary()
      modifies this`temporary
    {
      var ok: bool := *;
      if ok {
        temporary := None;
      }
    }

    // Publishes the record atomically: at every instant, and after a crash or power loss at any instant, a
    // reader finds a file that could be there before or the complete record. A reported success is durable.
    method Save(record: Record) returns (ok: bool)
      requires published in survivors
      modifies this
      ensures PublishOutcome(old(published), published, record, ok)
      ensures survivors <= old(survivors) + {Some(Whole(record))}
      ensures exposed <= old(exposed) + {old(published), Some(Whole(record))}
      ensures ok ==> survivors == {Some(Whole(record))} && temporary.None?
      ensures published in survivors
    {
      var made := MakePrivateDirectory();
      if !made {
        return false;
      }
      var created := CreateTemporary();
      if !created {
        return false;
      }
      var encoded := EncodeTemporary(record);
      if !encoded {
        DropTemporary();
        return false;
      }
      var durable := SyncTemporary();
      if !durable {
        DropTemporary();
        return false;
      }
      var closed: bool := *;
      if !closed {
        DropTemporary();
        return false;
      }
      var renamed := RenameTemporary();
      if !renamed {
        DropTemporary();
        return false;
      }
      ok := SyncDirectory();
    }

    // A missing file counts as removed; a failed removal leaves the file.
    method Remove() returns (ok: bool)
      requires published in survivors
      modifies this`published, this`survivors, this`exposed
      ensures ok ==> published.None?
      ensures !ok ==> published == old(published) && survivors == old(survivors)
      ensures survivors == old(survivors) + {published}
      ensures exposed == old(exposed) + {published}
    {
      ok := true;
      if published.Some? {
        ok := *;
        if ok {
          published := None;
        }
      }
      survivors, exposed := survivors + {published}, exposed + {published};
    }
  }
}

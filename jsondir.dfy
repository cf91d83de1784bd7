/** The JSON-directory metadata store of the metadata daemon
    (src/bakapy/meta/jsondir.go): one file per task id holding the encoded
    record, and a table of per-id locks that is created on demand and never
    shrinks. A blocking `lockId` is a precondition that the lock is free;
    `unLockId` on an id without a lock, or whose lock is free, is a panic. */
module JsonDir {
  import opened Common
  import opened Codec
  import opened Disk
  import opened Metadata
  import opened MetaStore

  /** The panic of `unLockId` for an id that never had a lock. */
  function NotLocked(id: TaskId): Error {
    Panic("id " + id + " not locked")
  }

  /** The fatal error of `sync.Mutex.Unlock` on a free mutex. */
  const UnlockOfUnlocked: Error := Panic("sync: unlock of unlocked mutex")

  function AlreadyExists(id: TaskId): Error {
    Other("metadata for task " + id + " already exist")
  }

  /** The panic of `Keys` when the directory cannot be listed. */
  function ListFailure(root: string): Error {
    Panic("cannot list metadata directory: open " + root + ": no such file or directory")
  }

  /** `View`'s two results for a store: the record and no error, or the
      zero record and the error. */
  function ViewResult(s: Store, id: TaskId): (r: (Metadata, Option<Error>))
    ensures r.1.None? <==> id in s.records && s.records[id].Encoded?
    ensures r.1.None? ==> s.records[id] == Encode(r.0)
    ensures r.1.Some? ==> r.0 == ZeroMetadata
    ensures id !in s.records ==> r.1 == Some(NoSuchFile("open", RecordPath(s, id)))
  {
    match View(s, id)
    case Ok(md) => (md, None)
    case Err(e) => (ZeroMetadata, Some(e))
  }

  class JSONDir {
    /** The directory (`RootDir` is `store.root`) and its records. */
    var store: Store
    /** Whether the directory exists; it is created by the first save. */
    var rootExists: bool
    /** The lock table: an entry per id ever locked, true while held. */
    var taken: map<TaskId, bool>

    /** A missing directory holds nothing. */
    predicate Valid()
      reads this
    {
      !rootExists ==> store.records == map[]
    }

    predicate Held(id: TaskId)
      reads this
    {
      id in taken && taken[id]
    }

    /** `NewJSONDir(root)` over a directory in the given state, with an
        empty lock table. */
    constructor (store: Store, rootExists: bool)
      requires !rootExists ==> store.records == map[]
      ensures this.store == store && this.rootExists == rootExists && taken == map[]
      ensures Valid()
    {
      this.store := store;
      this.rootExists := rootExists;
      taken := map[];
    }

    /** `lockId`: create the id's lock if it has none, then take it. */
    method lockId(id: TaskId)
      requires !Held(id)
      modifies this`taken
      ensures taken == old(taken)[id := true]
    {
      if id !in taken {
        taken := taken[id := false];
      }
      taken := taken[id := true];
    }

    /** `unLockId`: release the id's lock; panics when there is none or
        it is free, and then changes nothing. */
    method unLockId(id: TaskId) returns (panic: Option<Error>)
      modifies this`taken
      ensures id !in old(taken) ==> panic == Some(NotLocked(id)) && taken == old(taken)
      ensures id in old(taken) && !old(taken[id]) ==> panic == Some(UnlockOfUnlocked) && taken == old(taken)
      ensures old(Held(id)) ==> panic.None? && taken == old(taken)[id := false]
    {
      if id !in taken {
        return Some(NotLocked(id));
      }
      if !taken[id] {
        return Some(UnlockOfUnlocked);
      }
      taken := taken[id := false];
      panic := None;
    }

    /** `get`: open, read and decode the id's file. */
    method get(id: TaskId) returns (r: Result<Metadata>)
      ensures r == MetaStore.View(store, id)
    {
      if id !in store.records {
        return Err(NoSuchFile("open", JoinPath([store.root, id])));
      }
      r := Decode(store.records[id]);
    }

    /** `GetForUpdate`: take the lock and read the record; a failed read
        releases the lock again. The lock entry stays either way. */
    method GetForUpdate(id: TaskId) returns (r: Result<Metadata>)
      requires !Held(id)
      modifies this`taken
      ensures r == MetaStore.View(store, id)
      ensures r.Ok? ==> taken == old(taken)[id := true]
      ensures r.Err? ==> taken == old(taken)[id := false]
    {
      lockId(id);
      r := get(id);
      if r.Err? {
        var _ := unLockId(id);
      }
    }

    /** `Save`: write the encoding to `<id>.inpr` and rename it onto
        `<id>`, then (deferred) release the id's lock. A panic of the
        release replaces the returned error; the directory is changed as
        the save left it. */
    method Save(id: TaskId, md: Metadata, f: StoreFaults) returns (err: Option<Error>)
      requires Valid()
      modifies this`store, this`rootExists, this`taken
      ensures Valid()
      ensures var saved := MetaStore.Save(old(store), id, md, f);
              store == saved.1 && rootExists == (old(rootExists) || f.mkdir.None?) &&
              (old(Held(id)) ==> err == saved.0 && taken == old(taken)[id := false])
      ensures id !in old(taken) ==> err == Some(NotLocked(id)) && taken == old(taken)
      ensures id in old(taken) && !old(taken[id]) ==> err == Some(UnlockOfUnlocked) && taken == old(taken)
    {
      var saveToTmp := TmpName(id);
      if f.mkdir.Some? {
        err := f.mkdir;
      } else {
        rootExists := true;
        if f.create.Some? {
          err := f.create;
        } else {
          store := store.(records := store.records[saveToTmp := Raw([])]);
          if f.write.Some? {
            err := f.write;
          } else {
            store := store.(records := store.records[saveToTmp := Encode(md)]);
            if f.rename.Some? {
              err := f.rename;
            } else {
              store := store.(records := (store.records - {saveToTmp})[id := Encode(md)]);
              err := None;
            }
          }
        }
      }
      var panic := unLockId(id);
      if panic.Some? {
        err := panic;
      }
    }

    /** `Keys`: every entry of the directory, `.inpr` files included, in
        the order of the listing `dir`; a missing directory is a panic. */
    method Keys(dir: seq<string>) returns (keys: seq<TaskId>, panic: Option<Error>)
      requires rootExists ==> IsListing(store, dir)
      ensures !rootExists ==> panic == Some(ListFailure(store.root)) && keys == []
      ensures rootExists ==> panic.None? && keys == dir
      ensures rootExists ==> (forall k :: k in keys <==> k in store.records) &&
                             (forall i, j :: 0 <= i < j < |keys| ==> keys[i] != keys[j])
    {
      if !rootExists {
        return [], Some(ListFailure(store.root));
      }
      keys := [];
      for i := 0 to |dir|
        invariant keys == dir[..i]
      {
        keys := keys + [dir[i]];
      }
      assert dir[..|dir|] == dir;
      panic := None;
    }

    /** `View`: the record, or the zero record and the error. */
    method View(id: TaskId) returns (md: Metadata, err: Option<Error>)
      ensures (md, err) == ViewResult(store, id)
    {
      var r := get(id);
      if r.Err? {
        return ZeroMetadata, Some(r.error);
      }
      return r.value, None;
    }

    /** `Add`: take the lock, stamp the record with `id`, and refuse it when
        a readable record exists (the lock is then never released);
        otherwise save it, which releases the lock. An unreadable record is
        overwritten. */
    method Add(id: TaskId, md: Metadata, f: StoreFaults) returns (err: Option<Error>)
      requires Valid() && !Held(id)
      modifies this`store, this`rootExists, this`taken
      ensures Valid()
      ensures MetaStore.View(old(store), id).Ok? ==>
                err == Some(AlreadyExists(id)) && store == old(store) && rootExists == old(rootExists) &&
                taken == old(taken)[id := true]
      ensures MetaStore.View(old(store), id).Err? ==>
                var saved := MetaStore.Save(old(store), id, md.(TaskId := id), f);
                err == saved.0 && store == saved.1 && taken == old(taken)[id := false]
    {
      lockId(id);
      var stamped := md.(TaskId := id);
      var _, viewErr := View(id);
      if viewErr.None? {
        return Some(AlreadyExists(id));
      }
      err := Save(id, stamped, f);
    }

    /** `Remove`: delete `<id>` while holding the id's lock. */
    method Remove(id: TaskId) returns (err: Option<Error>)
      requires Valid() && !Held(id)
      modifies this`store, this`taken
      ensures Valid()
      ensures (err, store) == MetaStore.Remove(old(store), id)
      ensures taken == old(taken)[id := false]
    {
      lockId(id);
      var removed := MetaStore.Remove(store, id);
      err, store := removed.0, removed.1;
      var _ := unLockId(id);
    }

    /** `CancelUpdate`: release the id's lock. */
    method CancelUpdate(id: TaskId) returns (panic: Option<Error>)
      modifies this`taken
      ensures id !in old(taken) ==> panic == Some(NotLocked(id)) && taken == old(taken)
      ensures id in old(taken) && !old(taken[id]) ==> panic == Some(UnlockOfUnlocked) && taken == old(taken)
      ensures old(Held(id)) ==> panic.None? && taken == old(taken)[id := false]
    {
      panic := unLockId(id);
    }
  }

  /** An unreadable record does not block `Add`: the save replaces it with
      a readable one. */
  lemma CorruptRecordOverwritten(s: Store, id: TaskId, md: Metadata)
    requires id in s.records && s.records[id].Raw?
    ensures View(s, id).Err?
    ensures View(MetaStore.Save(s, id, md.(TaskId := id), NoFaults).1, id) == Ok(md.(TaskId := id))
  {
    SaveThenView(s, id, md.(TaskId := id));
  }
}

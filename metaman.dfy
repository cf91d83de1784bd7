/** The metadata store of the scheduler (src/bakapy/metaman.go): one file
    per task id in `RootDir`, and a lock table whose entries exist only
    while held. A blocking lock is a precondition that the id is not in
    the table. */
module MetaMan {
  import opened Common
  import opened Codec
  import opened Disk
  import opened Metadata
  import opened MetaStore
  import JsonDir

  class MetaMan {
    /** The directory (`RootDir` is `store.root`) and its records. */
    var store: Store
    /** Whether the directory exists; it is created by the first save. */
    var rootExists: bool
    /** The ids whose lock is held. */
    var taken: set<TaskId>

    /** A missing directory holds nothing. */
    predicate Valid()
      reads this
    {
      !rootExists ==> store.records == map[]
    }

    /** `NewMetaMan(cfg)` over a directory in the given state. */
    constructor (store: Store, rootExists: bool)
      requires !rootExists ==> store.records == map[]
      ensures this.store == store && this.rootExists == rootExists && taken == {}
      ensures Valid()
    {
      this.store := store;
      this.rootExists := rootExists;
      taken := {};
    }

    /** `get`: read and decode the id's file. */
    method get(id: TaskId) returns (r: Result<Metadata>)
      ensures r == MetaStore.View(store, id)
    {
      if id !in store.records {
        return Err(NoSuchFile("open", JoinPath([store.root, id])));
      }
      r := Decode(store.records[id]);
    }

    /** `getForUpdate`: take the id's lock and read the record; a failed
        read releases the lock and drops its entry. */
    method getForUpdate(id: TaskId) returns (r: Result<Metadata>)
      requires id !in taken
      modifies this`taken
      ensures r == MetaStore.View(store, id)
      ensures r.Ok? ==> taken == old(taken) + {id}
      ensures r.Err? ==> taken == old(taken)
    {
      taken := taken + {id};
      r := get(id);
      if r.Err? {
        taken := taken - {id};
      }
    }

    /** `save`: write the encoding to `<id>.inpr` and rename it onto
        `<id>`; only a successful rename releases the id's lock, so a
        failed save leaves it held. */
    method save(id: TaskId, md: Metadata, f: StoreFaults) returns (err: Option<Error>)
      requires Valid()
      modifies this`store, this`rootExists, this`taken
      ensures Valid()
      ensures (err, store) == MetaStore.Save(old(store), id, md, f)
      ensures rootExists == (old(rootExists) || f.mkdir.None?)
      ensures taken == if err.None? then old(taken) - {id} else old(taken)
    {
      var saveToTmp := TmpName(id);
      if f.mkdir.Some? {
        return f.mkdir;
      }
      rootExists := true;
      if f.create.Some? {
        return f.create;
      }
      store := store.(records := store.records[saveToTmp := Raw([])]);
      if f.write.Some? {
        return f.write;
      }
      store := store.(records := store.records[saveToTmp := Encode(md)]);
      assert store.records == old(store.records)[saveToTmp := Encode(md)];
      if f.rename.Some? {
        return f.rename;
      }
      store := store.(records := (store.records - {saveToTmp})[id := Encode(md)]);
      assert store.records == (old(store.records) - {saveToTmp})[id := Encode(md)];
      if id in taken {
        taken := taken - {id};
      }
      err := None;
    }

    /** `Keys`: every entry of the directory, in the order of the listing
        `dir`; a missing directory is a panic. */
    method Keys(dir: seq<string>) returns (keys: seq<TaskId>, panic: Option<Error>)
      requires rootExists ==> IsListing(store, dir)
      ensures !rootExists ==> panic == Some(JsonDir.ListFailure(store.root)) && keys == []
      ensures rootExists ==> panic.None? && keys == dir
      ensures rootExists ==> (forall k :: k in keys <==> k in store.records) &&
                             (forall i, j :: 0 <= i < j < |keys| ==> keys[i] != keys[j])
    {
      if !rootExists {
        return [], Some(JsonDir.ListFailure(store.root));
      }
      keys := [];
      for i := 0 to |dir|
        invariant keys == dir[..i]
      {
        keys := keys + [dir[i]];
      }
      assert dir[..|dir|] == dir;
      panic := None;
    }

    /** `View`: the record, or the zero record and the error. */
    method View(id: TaskId) returns (md: Metadata, err: Option<Error>)
      ensures (md, err) == JsonDir.ViewResult(store, id)
    {
      var r := get(id);
      if r.Err? {
        return ZeroMetadata, Some(r.error);
      }
      return r.value, None;
    }

    /** `Add`: stamp the record with `id`, refuse it when a readable record
        exists, otherwise save it. No lock is taken. */
    method Add(id: TaskId, md: Metadata, f: StoreFaults) returns (err: Option<Error>)
      requires Valid()
      modifies this`store, this`rootExists, this`taken
      ensures Valid()
      ensures MetaStore.View(old(store), id).Ok? ==>
                err == Some(JsonDir.AlreadyExists(id)) && store == old(store) &&
                rootExists == old(rootExists) && taken == old(taken)
      ensures MetaStore.View(old(store), id).Err? ==>
                (err, store) == MetaStore.Save(old(store), id, md.(TaskId := id), f) &&
                taken == if err.None? then old(taken) - {id} else old(taken)
    {
      var stamped := md.(TaskId := id);
      var _, viewErr := View(id);
      if viewErr.None? {
        return Some(JsonDir.AlreadyExists(id));
      }
      err := save(id, stamped, f);
    }

    /** `Update`: read the record under the id's lock, apply `up` to it
        once and save the result. A failed read returns before `up` runs;
        a failed save leaves the id locked. */
    method Update(id: TaskId, up: Metadata -> Metadata, f: StoreFaults) returns (err: Option<Error>)
      requires Valid() && id !in taken
      modifies this`store, this`rootExists, this`taken
      ensures Valid()
      ensures MetaStore.View(old(store), id).Err? ==>
                err == Some(MetaStore.View(old(store), id).error) &&
                store == old(store) && rootExists == old(rootExists) && taken == old(taken)
      ensures MetaStore.View(old(store), id).Ok? ==>
                (err, store) == MetaStore.Save(old(store), id, up(MetaStore.View(old(store), id).value), f) &&
                taken == if err.None? then old(taken) else old(taken) + {id}
    {
      var r := getForUpdate(id);
      if r.Err? {
        return Some(r.error);
      }
      err := save(id, up(r.value), f);
    }

    /** `Remove`: delete `<id>` without taking its lock. */
    method Remove(id: TaskId) returns (err: Option<Error>)
      modifies this`store
      ensures (err, store) == MetaStore.Remove(old(store), id)
    {
      var removed := MetaStore.Remove(store, id);
      err, store := removed.0, removed.1;
    }

    /** The release the RPC server's `CleanupConn` asks for. metaman.go
        defines no `CancelUpdate`; this one releases the lock the way a
        failed `getForUpdate` does. */
    method CancelUpdate(id: TaskId)
      modifies this`taken
      ensures taken == old(taken) - {id}
    {
      taken := taken - {id};
    }
  }

  /** A successful `Update` leaves the record as `up` made it, and every
      other record as it was. */
  lemma UpdateThenView(s: Store, id: TaskId, up: Metadata -> Metadata)
    requires View(s, id).Ok?
    ensures var after := Save(s, id, up(View(s, id).value), NoFaults).1;
            View(after, id) == Ok(up(View(s, id).value)) &&
            forall k :: k != id && k != TmpName(id) ==> View(after, k) == View(s, k)
  {
    SaveThenView(s, id, up(View(s, id).value));
  }
}

/** The expiry sweep of the storage daemon backed by the metadata store
    (src/bakapy-storage/cleaner.go): a data file that is already gone
    counts as removed. The metadata store and the storage's `Remove` are
    the `Store` and the disk under the storage's root directory. */
module StorageCleaner {
  import opened Common
  import opened Disk
  import opened Metadata
  import opened MetaStore
  import opened Expiry

  /** The inner loop: remove each data file of an expired record, in
      order, noting a failure other than "not exist". */
  method RemoveTaskFiles(disk: DiskState, root: string, md: Metadata) returns (d: DiskState, removeErrs: bool)
    ensures (d, removeErrs) == RemoveFiles(disk, root, md.Namespace, md.Files, true)
  {
    d := disk;
    removeErrs := false;
    var i := 0;
    while i < |md.Files|
      invariant 0 <= i <= |md.Files|
      invariant (d, removeErrs) == RemovePaths(disk, Paths(root, md.Namespace, md.Files[..i]), true)
    {
      var fileMeta := md.Files[i];
      PathsSnoc(root, md.Namespace, md.Files, i);
      RemovePathsSnoc(disk, Paths(root, md.Namespace, md.Files[..i]), FilePath(root, md.Namespace, fileMeta), true);
      var removed := Disk.Remove(d, FilePath(root, md.Namespace, fileMeta));
      var err := removed.0;
      d := removed.1;
      if err.Some? {
        if IsNotExist(err.value) {
          i := i + 1;
          continue;
        }
        removeErrs := true;
      }
      i := i + 1;
    }
    assert md.Files[..i] == md.Files;
  }

  /** `CleanupExpiredJobs`: for each key the store yields, skip a record
      that cannot be read or expires after `now`; otherwise remove its data
      files and, when none failed, the record (a failure to remove it is
      only logged). The sweep always returns nil. */
  method CleanupExpiredJobs(store: Store, disk: DiskState, root: string, keys: seq<TaskId>, now: Time)
    returns (s: Store, d: DiskState, err: Option<Error>)
    ensures (s, d) == Sweep(store, disk, root, keys, now, true)
    ensures err.None?
  {
    s, d := store, disk;
    var k := 0;
    while k < |keys|
      invariant 0 <= k <= |keys|
      invariant (s, d) == Sweep(store, disk, root, keys[..k], now, true)
    {
      SweepSnoc(store, disk, root, keys, k, now, true);
      var taskId := keys[k];
      k := k + 1;
      var md := View(s, taskId);
      if md.Err? {
        continue;
      }
      if md.value.ExpireTime > now {
        continue;
      }
      var removeErrs;
      d, removeErrs := RemoveTaskFiles(d, root, md.value);
      if !removeErrs {
        var removed := MetaStore.Remove(s, md.value.TaskId);
        if removed.0.Some? {
          continue;
        }
        s := removed.1;
      }
    }
    assert keys[..k] == keys;
    err := None;
  }
}

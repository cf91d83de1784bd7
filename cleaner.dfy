/** The expiry sweep of the main daemon (src/bakapy/cleaner.go): every
    failed file removal, a missing file included, keeps the record. The
    metadata manager and the storage's `Remove` are the `Store` and the
    disk under the storage's root directory. */
module Cleaner {
  import opened Common
  import opened Disk
  import opened Metadata
  import opened MetaStore
  import opened Expiry

  /** The inner loop: remove each data file of an expired record, in
      order, noting any failure. */
  method RemoveTaskFiles(disk: DiskState, root: string, md: Metadata) returns (d: DiskState, removeErrs: bool)
    ensures (d, removeErrs) == RemoveFiles(disk, root, md.Namespace, md.Files, false)
  {
    d := disk;
    removeErrs := false;
    for i := 0 to |md.Files|
      invariant (d, removeErrs) == RemovePaths(disk, Paths(root, md.Namespace, md.Files[..i]), false)
    {
      var fileMeta := md.Files[i];
      PathsSnoc(root, md.Namespace, md.Files, i);
      RemovePathsSnoc(disk, Paths(root, md.Namespace, md.Files[..i]), FilePath(root, md.Namespace, fileMeta), false);
      var removed := Disk.Remove(d, FilePath(root, md.Namespace, fileMeta));
      d := removed.1;
      if removed.0.Some? {
        removeErrs := true;
      }
    }
    assert md.Files[..|md.Files|] == md.Files;
  }

  /** `CleanupExpiredJobs`: for each key the manager yields, skip a record
      that cannot be read or expires after `now`; otherwise remove its data
      files and, when none failed, the record (a failure to remove it is
      only logged). The sweep always returns nil. */
  method CleanupExpiredJobs(store: Store, disk: DiskState, root: string, keys: seq<TaskId>, now: Time)
    returns (s: Store, d: DiskState, err: Option<Error>)
    ensures (s, d) == Sweep(store, disk, root, keys, now, false)
    ensures err.None?
  {
    s, d := store, disk;
    for k := 0 to |keys|
      invariant (s, d) == Sweep(store, disk, root, keys[..k], now, false)
    {
      SweepSnoc(store, disk, root, keys, k, now, false);
      var md := View(s, keys[k]);
      if md.Ok? && !(md.value.ExpireTime > now) {
        var removeErrs;
        d, removeErrs := RemoveTaskFiles(d, root, md.value);
        if !removeErrs {
          var removed := MetaStore.Remove(s, md.value.TaskId);
          if removed.0.None? {
            s := removed.1;
          }
        }
      }
    }
    assert keys[..|keys|] == keys;
    err := None;
  }
}

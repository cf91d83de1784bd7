/** How the ingest handler of the metadata-store daemon
    (src/bakapy-storage/storage.go) and its expiry sweep
    (src/bakapy-storage/cleaner.go) meet for a gzip task: the handler
    stores `name.gz` but records `name`, so the sweep's removal of `name`
    finds nothing, counts that as done, and deletes the record while the
    compressed data stays on disk with nothing pointing at it. */
module GzipExpiry {
  import opened Common
  import opened Disk
  import opened Metadata
  import opened MetaStore
  import opened Ingest
  import opened LocalStorage
  import opened Expiry

  /** The disk after a handled connection's file is written. */
  function AfterWrite(d: DiskState, h: LocalHandled): DiskState {
    if h.written.Some? then d.(files := d.files[h.written.value.0 := h.written.value.1]) else d
  }

  /** A successful upload into a fresh, unfinished gzip task whose record
      is removable. */
  predicate FreshGzipUpload(s: Store, jobFinish: string, conn: Protocol, env: Env) {
    conn.taskId.Ok? && View(s, conn.taskId.value).Ok? &&
    var md := View(s, conn.taskId.value).value;
    md.EndTime == ZeroTime && md.Gzip && md.Files == [] &&
    md.TaskId == conn.taskId.value && conn.taskId.value !in s.pinned &&
    conn.filename.Ok? && conn.filename.value != jobFinish && conn.filename.value != "" &&
    env.mkdirErr.None? && env.createErr.None? && conn.contentErr.None?
  }

  /** As written: once the task expires, the tolerant sweep deletes the
      record but leaves the stored ".gz" file, provided no file at the
      uncompressed name was there. */
  lemma GzipOrphaned(s: Store, d: DiskState, root: string, jobFinish: string, conn: Protocol, env: Env, now: Time)
    requires FreshGzipUpload(s, jobFinish, conn, env)
    requires View(s, conn.taskId.value).value.ExpireTime <= now
    requires JoinPath([root, View(s, conn.taskId.value).value.Namespace, conn.filename.value]) !in d.files
    ensures var id := conn.taskId.value;
            var md := View(s, id).value;
            var h := Handle(s, root, jobFinish, conn, env, None);
            var swept := Sweep(h.store, AfterWrite(d, h), root, [id], now, true);
            id in h.store.records && id !in swept.0.records &&
            DataPath(root, md.Namespace, true, conn.filename.value) in swept.1.files
  {
    var id := conn.taskId.value;
    var md := View(s, id).value;
    var name := conn.filename.value;
    var h := Handle(s, root, jobFinish, conn, env, None);
    UploadRecorded(s, root, jobFinish, conn, env);
    var plain := JoinPath([root, md.Namespace, name]);
    var gz := DataPath(root, md.Namespace, true, name);
    assert |gz| == |plain| + 3;
    var d1 := AfterWrite(d, h);
    assert d1.files == d.files[gz := OnDisk(true, conn.content, env.closeFault)];
    assert plain !in d1.files;
    var md2 := View(h.store, id).value;
    assert md2.Namespace == md.Namespace && md2.TaskId == id && md2.ExpireTime == md.ExpireTime;
    assert md2.Files == [Entry(name, |conn.content|, conn.remoteAddr, env)];
    assert Paths(root, md2.Namespace, md2.Files) == [plain];
    assert RemovePaths(d1, [plain], true) == (d1, false);
    assert Sweep(h.store, d1, root, [id], now, true) == SweepTask(h.store, d1, root, id, now, true);
  }

  /** Corrected: with the stored name recorded, the tolerant sweep of the
      expired task deletes both the ".gz" file and the record. */
  lemma GzipSweptWhenNamed(s: Store, d: DiskState, root: string, jobFinish: string, conn: Protocol, env: Env, now: Time)
    requires FreshGzipUpload(s, jobFinish, conn, env)
    requires View(s, conn.taskId.value).value.ExpireTime <= now
    requires DataPath(root, View(s, conn.taskId.value).value.Namespace, true, conn.filename.value) !in d.locked
    ensures var id := conn.taskId.value;
            var md := View(s, id).value;
            var h := HandleCorrected(s, root, jobFinish, conn, env, None);
            var swept := Sweep(h.store, AfterWrite(d, h), root, [id], now, true);
            id in h.store.records && id !in swept.0.records &&
            DataPath(root, md.Namespace, true, conn.filename.value) !in swept.1.files
  {
    var id := conn.taskId.value;
    var md := View(s, id).value;
    var name := conn.filename.value;
    var h := HandleCorrected(s, root, jobFinish, conn, env, None);
    var entry := Entry(name + ".gz", |conn.content|, conn.remoteAddr, env);
    AddFileThenView(s, id, entry);
    var gz := DataPath(root, md.Namespace, true, name);
    JoinPathExtendLast([root, md.Namespace], name, ".gz");
    assert [root, md.Namespace] + [name + ".gz"] == [root, md.Namespace, name + ".gz"];
    assert [root, md.Namespace] + [name] == [root, md.Namespace, name];
    var d1 := AfterWrite(d, h);
    assert d1.files == d.files[gz := OnDisk(true, conn.content, env.closeFault)];
    var md2 := View(h.store, id).value;
    assert md2.Namespace == md.Namespace && md2.TaskId == id && md2.ExpireTime == md.ExpireTime;
    assert md2.Files == [entry];
    assert Paths(root, md2.Namespace, md2.Files) == [gz];
    assert RemovePaths(d1, [gz], true) == (d1.(files := d1.files - {gz}), false);
    assert Sweep(h.store, d1, root, [id], now, true) == SweepTask(h.store, d1, root, id, now, true);
  }
}

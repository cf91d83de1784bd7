/** The ingest handler of the storage daemon backed by the metadata store
    (src/bakapy-storage/storage.go): the task must have a record that is
    not finished; the file is written under the record's namespace and its
    entry appended to the record. */
module LocalStorage {
  import opened Common
  import opened Codec
  import opened Disk
  import opened Metadata
  import opened MetaStore
  import opened Ingest

  /** The outcome of one connection: the error returned, the reads made,
      the file written, and the store afterwards. */
  datatype LocalHandled = LocalHandled(
    err: Option<Error>, calls: seq<Call>,
    written: Option<(string, seq<byte>)>, store: Store)

  function UnknownTaskError(id: TaskId, e: Error): Error {
    Other("cannot find task id " + id + ": " + e.msg)
  }

  function FinishedError(id: TaskId): Error {
    Other("task with id '" + id + "' already finished, closing connection")
  }

  /** The entry recorded for a received file: the name as the client sent
      it, without the ".gz" the stored file carries. */
  function Entry(filename: string, size: nat, remoteAddr: string, env: Env): FileEntry {
    FileEntry(filename, size, remoteAddr, env.start, env.end)
  }

  /** The name recorded for a received file: the name the client sent,
      or, with `storedName`, the name of the file actually written (with
      ".gz" for a gzip task). */
  function RecordedName(filename: string, gzip: bool, storedName: bool): string {
    if storedName && gzip then filename + ".gz" else filename
  }

  /** The handling of a connection, with the recorded name chosen by
      `storedName`. */
  function Accept(s: Store, root: string, jobFinish: string, conn: Protocol, env: Env,
                  saveErr: Option<Error>, storedName: bool): LocalHandled
  {
    var first := [ReadTaskIdCall];
    if conn.taskId.Err? then
      LocalHandled(Some(Wrap("cannot read task id: ", conn.taskId.error, ". closing connection")), first, None, s)
    else
      var id := conn.taskId.value;
      match View(s, id)
      case Err(e) => LocalHandled(Some(UnknownTaskError(id, e)), first, None, s)
      case Ok(md) =>
        if md.EndTime != ZeroTime then LocalHandled(Some(FinishedError(id)), first, None, s)
        else
          var asked := first + [ReadFilenameCall];
          if conn.filename.Err? then
            LocalHandled(Some(Wrap("cannot read filename: ", conn.filename.error, ". closing connection")), asked, None, s)
          else if conn.filename.value == jobFinish then LocalHandled(None, asked, None, s)
          else
            var path := DataPath(root, md.Namespace, md.Gzip, conn.filename.value);
            if env.mkdirErr.Some? then
              LocalHandled(Some(Wrap("cannot create file folder: ", env.mkdirErr.value, "")), asked, None, s)
            else if env.createErr.Some? then
              LocalHandled(Some(Wrap("cannot open file: ", env.createErr.value, "")), asked, None, s)
            else if conn.contentErr.Some? then
              LocalHandled(Some(Wrap("cannot save file: ", conn.contentErr.value, ". closing connection")),
                           asked + [ReadContentCall], Some((path, conn.flushed)), s)
            else
              var added := AddFile(s, id, Entry(RecordedName(conn.filename.value, md.Gzip, storedName), |conn.content|, conn.remoteAddr, env), saveErr);
              LocalHandled(added.0, asked + [ReadContentCall], Some((path, OnDisk(md.Gzip, conn.content, env.closeFault))), added.1)
  }

  /** What `LocalFileStorage.HandleConnection` does with a connection;
      `saveErr` is the failure of the store's save inside `AddFile`. */
  function Handle(s: Store, root: string, jobFinish: string, conn: Protocol, env: Env,
                  saveErr: Option<Error>): (h: LocalHandled)
    ensures conn.taskId.Err? ==>
              h == LocalHandled(Some(Wrap("cannot read task id: ", conn.taskId.error, ". closing connection")),
                                [ReadTaskIdCall], None, s)
    ensures conn.taskId.Ok? && View(s, conn.taskId.value).Err? ==>
              h == LocalHandled(Some(UnknownTaskError(conn.taskId.value, View(s, conn.taskId.value).error)),
                                [ReadTaskIdCall], None, s)
    ensures conn.taskId.Ok? && View(s, conn.taskId.value).Ok? && View(s, conn.taskId.value).value.EndTime != ZeroTime ==>
              h == LocalHandled(Some(FinishedError(conn.taskId.value)), [ReadTaskIdCall], None, s)
    ensures ReadFilenameCall in h.calls <==>
              conn.taskId.Ok? && View(s, conn.taskId.value).Ok? && View(s, conn.taskId.value).value.EndTime == ZeroTime
    ensures ReadFilenameCall in h.calls && conn.filename.Err? ==>
              h == LocalHandled(Some(Wrap("cannot read filename: ", conn.filename.error, ". closing connection")),
                                [ReadTaskIdCall, ReadFilenameCall], None, s)
    ensures ReadFilenameCall in h.calls && conn.filename == Ok(jobFinish) ==>
              h == LocalHandled(None, [ReadTaskIdCall, ReadFilenameCall], None, s)
    ensures ReadFilenameCall in h.calls && conn.filename.Ok? && conn.filename.value != jobFinish &&
            env.mkdirErr.Some? ==>
              h == LocalHandled(Some(Wrap("cannot create file folder: ", env.mkdirErr.value, "")),
                                [ReadTaskIdCall, ReadFilenameCall], None, s)
    ensures ReadFilenameCall in h.calls && conn.filename.Ok? && conn.filename.value != jobFinish &&
            env.mkdirErr.None? && env.createErr.Some? ==>
              h == LocalHandled(Some(Wrap("cannot open file: ", env.createErr.value, "")),
                                [ReadTaskIdCall, ReadFilenameCall], None, s)
    ensures ReadFilenameCall in h.calls && conn.filename.Ok? && conn.filename.value != jobFinish &&
            env.mkdirErr.None? && env.createErr.None? && conn.contentErr.None? ==>
              var md := View(s, conn.taskId.value).value;
              var added := AddFile(s, conn.taskId.value,
                                   Entry(conn.filename.value, |conn.content|, conn.remoteAddr, env), saveErr);
              h == LocalHandled(added.0, [ReadTaskIdCall, ReadFilenameCall, ReadContentCall],
                                Some((DataPath(root, md.Namespace, md.Gzip, conn.filename.value),
                                      OnDisk(md.Gzip, conn.content, env.closeFault))), added.1)
    ensures h.written.Some? ==>
              conn.taskId.Ok? && View(s, conn.taskId.value).Ok? && conn.filename.Ok? &&
              var md := View(s, conn.taskId.value).value;
              h.written.value.0 == DataPath(root, md.Namespace, md.Gzip, conn.filename.value) &&
              (conn.contentErr.None? ==> h.written.value.1 == OnDisk(md.Gzip, conn.content, env.closeFault))
    ensures h.store != s ==>
              h.err.None? && conn.contentErr.None? && h.written.Some? && conn.filename.Ok? &&
              h.store == AddFile(s, conn.taskId.value,
                                 Entry(conn.filename.value, |conn.content|, conn.remoteAddr, env), None).1
    ensures ReadContentCall in h.calls && conn.contentErr.Some? ==>
              h.err == Some(Wrap("cannot save file: ", conn.contentErr.value, ". closing connection")) &&
              h.store == s && h.written.Some? && h.written.value.1 == conn.flushed
  {
    AcceptAfterLookup(s, root, jobFinish, conn, env, saveErr, false);
    if conn.taskId.Ok? && View(s, conn.taskId.value).Ok? && View(s, conn.taskId.value).value.EndTime == ZeroTime &&
       conn.filename.Ok? && conn.filename.value != jobFinish && env.mkdirErr.None? && env.createErr.None? then
      AcceptContent(s, root, jobFinish, conn, env, saveErr);
      Accept(s, root, jobFinish, conn, env, saveErr, false)
    else
      Accept(s, root, jobFinish, conn, env, saveErr, false)
  }

  /** The outcomes of `Accept` once the file is created: the content
      error, or the stored content and the store's `AddFile`. */
  lemma AcceptContent(s: Store, root: string, jobFinish: string, conn: Protocol, env: Env, saveErr: Option<Error>)
    requires conn.taskId.Ok? && View(s, conn.taskId.value).Ok? && View(s, conn.taskId.value).value.EndTime == ZeroTime
    requires conn.filename.Ok? && conn.filename.value != jobFinish && env.mkdirErr.None? && env.createErr.None?
    ensures var h := Accept(s, root, jobFinish, conn, env, saveErr, false);
            var md := View(s, conn.taskId.value).value;
            var path := DataPath(root, md.Namespace, md.Gzip, conn.filename.value);
            (conn.contentErr.Some? ==>
               h == LocalHandled(Some(Wrap("cannot save file: ", conn.contentErr.value, ". closing connection")),
                                 [ReadTaskIdCall, ReadFilenameCall, ReadContentCall], Some((path, conn.flushed)), s)) &&
            (conn.contentErr.None? ==>
               var added := AddFile(s, conn.taskId.value,
                                    Entry(conn.filename.value, |conn.content|, conn.remoteAddr, env), saveErr);
               h == LocalHandled(added.0, [ReadTaskIdCall, ReadFilenameCall, ReadContentCall],
                                 Some((path, OnDisk(md.Gzip, conn.content, env.closeFault))), added.1))
  {
  }

  /** The outcomes of `Accept` once the task is known and unfinished, one
      per step after the lookup. */
  lemma AcceptAfterLookup(s: Store, root: string, jobFinish: string, conn: Protocol, env: Env,
                          saveErr: Option<Error>, storedName: bool)
    ensures var h := Accept(s, root, jobFinish, conn, env, saveErr, storedName);
            var unfinished := conn.taskId.Ok? && View(s, conn.taskId.value).Ok? &&
                              View(s, conn.taskId.value).value.EndTime == ZeroTime;
            var named := unfinished && conn.filename.Ok? && conn.filename.value != jobFinish;
            (unfinished && conn.filename.Err? ==>
               h == LocalHandled(Some(Wrap("cannot read filename: ", conn.filename.error, ". closing connection")),
                                 [ReadTaskIdCall, ReadFilenameCall], None, s)) &&
            (unfinished && conn.filename == Ok(jobFinish) ==>
               h == LocalHandled(None, [ReadTaskIdCall, ReadFilenameCall], None, s)) &&
            (named && env.mkdirErr.Some? ==>
               h == LocalHandled(Some(Wrap("cannot create file folder: ", env.mkdirErr.value, "")),
                                 [ReadTaskIdCall, ReadFilenameCall], None, s)) &&
            (named && env.mkdirErr.None? && env.createErr.Some? ==>
               h == LocalHandled(Some(Wrap("cannot open file: ", env.createErr.value, "")),
                                 [ReadTaskIdCall, ReadFilenameCall], None, s))
  {
  }

  /** The handling with the recorded entry named after the file actually
      stored, so that the entry locates its data file. */
  function HandleCorrected(s: Store, root: string, jobFinish: string, conn: Protocol, env: Env,
                           saveErr: Option<Error>): (h: LocalHandled)
    ensures h.written.Some? ==>
              conn.taskId.Ok? && View(s, conn.taskId.value).Ok? && conn.filename.Ok? &&
              var md := View(s, conn.taskId.value).value;
              h.written.value.0 == DataPath(root, md.Namespace, md.Gzip, conn.filename.value) &&
              (conn.contentErr.None? ==> h.written.value.1 == OnDisk(md.Gzip, conn.content, env.closeFault))
    ensures h.store != s ==>
              h.err.None? && conn.contentErr.None? && h.written.Some? && conn.filename.Ok? &&
              var md := View(s, conn.taskId.value).value;
              h.store == AddFile(s, conn.taskId.value,
                                 Entry(RecordedName(conn.filename.value, md.Gzip, true), |conn.content|,
                                       conn.remoteAddr, env), None).1
    ensures (h.err, h.calls, h.written.Some?) ==
              var w := Handle(s, root, jobFinish, conn, env, saveErr); (w.err, w.calls, w.written.Some?)
  {
    Accept(s, root, jobFinish, conn, env, saveErr, true)
  }

  /** A well-formed upload for an unfinished task stores the content under
      the name with ".gz" for a gzip task, and appends to the record one
      entry whose name lacks it. */
  lemma UploadRecorded(s: Store, root: string, jobFinish: string, conn: Protocol, env: Env)
    requires conn.taskId.Ok? && View(s, conn.taskId.value).Ok?
    requires View(s, conn.taskId.value).value.EndTime == ZeroTime
    requires conn.filename.Ok? && conn.filename.value != jobFinish
    requires env.mkdirErr.None? && env.createErr.None? && conn.contentErr.None?
    ensures var h := Handle(s, root, jobFinish, conn, env, None);
            var md := View(s, conn.taskId.value).value;
            h.err.None? &&
            h.written == Some((DataPath(root, md.Namespace, md.Gzip, conn.filename.value), OnDisk(md.Gzip, conn.content, env.closeFault))) &&
            View(h.store, conn.taskId.value).Ok? &&
            View(h.store, conn.taskId.value).value.Files ==
              md.Files + [FileEntry(conn.filename.value, |conn.content|, conn.remoteAddr, env.start, env.end)] &&
            View(h.store, conn.taskId.value).value.(Files := []) == md.(Files := [])
  {
    AddFileThenView(s, conn.taskId.value, Entry(conn.filename.value, |conn.content|, conn.remoteAddr, env));
  }

  /** The storage daemon: its data directory, the metadata store it asks,
      the files on disk and the number of connections being handled.
      `JOB_FINISH` is not part of this model; the storage holds it as
      `jobFinish`. */
  class LocalFileStorage {
    const RootDir: string
    const jobFinish: string
    var store: Store
    var disk: DiskState
    var cons: int

    constructor (root: string, jobFinish: string, store: Store, disk: DiskState)
      ensures RootDir == root && this.jobFinish == jobFinish && this.store == store && this.disk == disk
      ensures cons == 0
    {
      RootDir := root;
      this.jobFinish := jobFinish;
      this.store := store;
      this.disk := disk;
      cons := 0;
    }

    /** `Remove(ns, filename)`: delete the data file at
        `path.Join(RootDir, ns, filename)`. */
    method Remove(ns: string, filename: string) returns (err: Option<Error>)
      modifies this
      ensures (err, disk) == Disk.Remove(old(disk), JoinPath([RootDir, ns, filename]))
      ensures store == old(store) && cons == old(cons)
    {
      var fullPath := JoinPath([RootDir, ns, filename]);
      var r := Disk.Remove(disk, fullPath);
      err := r.0;
      disk := r.1;
    }

    /** The steps after the task's record is found unfinished. */
    method ReceiveFile(id: TaskId, md: Metadata, conn: Protocol, env: Env, saveErr: Option<Error>)
      returns (err: Option<Error>, calls: seq<Call>)
      requires conn.taskId == Ok(id) && View(store, id) == Ok(md) && md.EndTime == ZeroTime
      modifies this
      ensures var h := Handle(old(store), RootDir, jobFinish, conn, env, saveErr);
              err == h.err && calls == h.calls && store == h.store &&
              disk.files == (if h.written.Some? then old(disk.files)[h.written.value.0 := h.written.value.1]
                             else old(disk.files)) &&
              disk.locked == old(disk.locked)
      ensures cons == old(cons)
    {
      AcceptAfterLookup(store, RootDir, jobFinish, conn, env, saveErr, false);
      assert Handle(store, RootDir, jobFinish, conn, env, saveErr) == Accept(store, RootDir, jobFinish, conn, env, saveErr, false);
      calls := [ReadTaskIdCall, ReadFilenameCall];
      if conn.filename.Err? {
        return Some(Wrap("cannot read filename: ", conn.filename.error, ". closing connection")), calls;
      }
      var filename := conn.filename.value;
      if filename == jobFinish {
        return None, calls;
      }
      var fileSavePath := JoinPath([RootDir, md.Namespace, filename]);
      if md.Gzip {
        fileSavePath := fileSavePath + ".gz";
      }
      assert fileSavePath == DataPath(RootDir, md.Namespace, md.Gzip, filename);
      var fileMeta := FileEntry(filename, 0, conn.remoteAddr, env.start, ZeroTime);
      if env.mkdirErr.Some? {
        return Some(Wrap("cannot create file folder: ", env.mkdirErr.value, "")), calls;
      }
      if env.createErr.Some? {
        return Some(Wrap("cannot open file: ", env.createErr.value, "")), calls;
      }
      disk := disk.(files := disk.files[fileSavePath := []]);
      calls := calls + [ReadContentCall];
      AcceptContent(store, RootDir, jobFinish, conn, env, saveErr);
      err := SaveContent(id, md.Gzip, fileSavePath, fileMeta, conn, env, saveErr);
    }

    /** The steps once the file is created: copy the content into it, then
        record the entry with its size and end time in the store. */
    method SaveContent(id: TaskId, gzip: bool, fileSavePath: string, fileMeta: FileEntry,
                       conn: Protocol, env: Env, saveErr: Option<Error>)
      returns (err: Option<Error>)
      modifies this
      ensures conn.contentErr.Some? ==>
                err == Some(Wrap("cannot save file: ", conn.contentErr.value, ". closing connection")) &&
                store == old(store) && disk.files == old(disk.files)[fileSavePath := conn.flushed]
      ensures conn.contentErr.None? ==>
                (err, store) == AddFile(old(store), id, fileMeta.(Size := |conn.content|, EndTime := env.end), saveErr) &&
                disk.files == old(disk.files)[fileSavePath := OnDisk(gzip, conn.content, env.closeFault)]
      ensures disk.locked == old(disk.locked) && cons == old(cons)
    {
      if conn.contentErr.Some? {
        disk := disk.(files := disk.files[fileSavePath := conn.flushed]);
        return Some(Wrap("cannot save file: ", conn.contentErr.value, ". closing connection"));
      }
      disk := disk.(files := disk.files[fileSavePath := OnDisk(gzip, conn.content, env.closeFault)]);
      var meta := fileMeta.(Size := |conn.content|, EndTime := env.end);
      var added := AddFile(store, id, meta, saveErr);
      err := added.0;
      store := added.1;
    }

    /** `LocalFileStorage.HandleConnection`: count the connection while it
        is handled, read the task id, check the task's record, then
        receive the file. */
    method HandleConnection(conn: Protocol, env: Env, saveErr: Option<Error>)
      returns (err: Option<Error>, calls: seq<Call>)
      modifies this
      ensures var h := Handle(old(store), RootDir, jobFinish, conn, env, saveErr);
              err == h.err && calls == h.calls && store == h.store &&
              disk.files == (if h.written.Some? then old(disk.files)[h.written.value.0 := h.written.value.1]
                             else old(disk.files)) &&
              disk.locked == old(disk.locked)
      ensures cons == old(cons)
    {
      cons := cons + 1;
      calls := [ReadTaskIdCall];
      if conn.taskId.Err? {
        err := Some(Wrap("cannot read task id: ", conn.taskId.error, ". closing connection"));
      } else {
        var taskId := conn.taskId.value;
        var md := View(store, taskId);
        if md.Err? {
          err := Some(UnknownTaskError(taskId, md.error));
        } else if md.value.EndTime != ZeroTime {
          err := Some(FinishedError(taskId));
        } else {
          err, calls := ReceiveFile(taskId, md.value, conn, env, saveErr);
        }
      }
      cons := cons - 1;
    }
  }
}

/** The ingest handler of the legacy storage daemon (src/bakapy/storage.go):
    one connection delivers a task id, a filename and the content of one
    file, which is written under the job's namespace and reported to the
    job registered in the storage's job manager. */
module LegacyStorage {
  import opened Common
  import opened Codec
  import opened Disk
  import opened JobManager
  import opened JobMeta
  import opened StorageConnection
  import opened Ingest

  /** The outcome of one connection: the error returned, the reads made in
      order, the file written (path and final bytes), and the entry sent on
      the job's `FileAddChan`. */
  datatype Handled = Handled(
    err: Option<Error>, calls: seq<Call>,
    written: Option<(string, seq<byte>)>, entry: Option<JobMetadataFile>)

  /** What the handler does once the job is found: read the filename,
      then create the file, copy the content into it and report it. */
  function Receive(root: string, jobFinish: string, job: StorageCurrentJob, conn: Protocol, env: Env): Handled
  {
    var asked := [ReadTaskIdCall, ReadFilenameCall];
    if conn.filename.Err? then
      Handled(Some(Wrap("cannot read filename: ", conn.filename.error, ". closing connection")), asked, None, None)
    else if conn.filename.value == jobFinish then
      Handled(None, asked, None, None)
    else
      var path := DataPath(root, job.Namespace, job.Gzip, conn.filename.value);
      if env.mkdirErr.Some? then
        Handled(Some(Wrap("cannot create file folder: ", env.mkdirErr.value, "")), asked, None, None)
      else if env.createErr.Some? then
        Handled(Some(Wrap("cannot open file: ", env.createErr.value, "")), asked, None, None)
      else if conn.contentErr.Some? then
        Handled(Some(Wrap("cannot save file: ", conn.contentErr.value, ". closing connection")),
                asked + [ReadContentCall], Some((path, conn.flushed)), None)
      else
        Handled(None, asked + [ReadContentCall], Some((path, OnDisk(job.Gzip, conn.content, env.closeFault))),
                Some(JobMetadataFile(conn.filename.value, |conn.content|, conn.remoteAddr, env.start, env.end)))
  }

  /** What `Storage.HandleConnection` does with a connection, given the
      registered jobs. */
  function Handle(jobs: map<TaskId, StorageCurrentJob>, root: string, jobFinish: string,
                  conn: Protocol, env: Env): (h: Handled)
    ensures conn.taskId.Err? ==>
              h == Handled(Some(Wrap("cannot read task id: ", conn.taskId.error, ". closing connection")),
                           [ReadTaskIdCall], None, None)
    ensures conn.taskId.Ok? && conn.taskId.value !in jobs ==>
              h == Handled(Some(NotCurrentError(conn.taskId.value)), [ReadTaskIdCall], None, None)
    ensures conn.taskId.Ok? && conn.taskId.value in jobs && conn.filename.Err? ==>
              h == Handled(Some(Wrap("cannot read filename: ", conn.filename.error, ". closing connection")),
                           [ReadTaskIdCall, ReadFilenameCall], None, None)
    ensures conn.taskId.Ok? && conn.taskId.value in jobs && conn.filename == Ok(jobFinish) ==>
              h == Handled(None, [ReadTaskIdCall, ReadFilenameCall], None, None)
    ensures conn.taskId.Ok? && conn.taskId.value in jobs && conn.filename.Ok? && conn.filename.value != jobFinish &&
            env.mkdirErr.Some? ==>
              h == Handled(Some(Wrap("cannot create file folder: ", env.mkdirErr.value, "")),
                           [ReadTaskIdCall, ReadFilenameCall], None, None)
    ensures conn.taskId.Ok? && conn.taskId.value in jobs && conn.filename.Ok? && conn.filename.value != jobFinish &&
            env.mkdirErr.None? && env.createErr.Some? ==>
              h == Handled(Some(Wrap("cannot open file: ", env.createErr.value, "")),
                           [ReadTaskIdCall, ReadFilenameCall], None, None)
    ensures ReadContentCall in h.calls <==> h.calls == [ReadTaskIdCall, ReadFilenameCall, ReadContentCall]
    ensures h.written.Some? ==>
              conn.taskId.Ok? && conn.taskId.value in jobs && conn.filename.Ok? &&
              h.written.value.0 == DataPath(root, jobs[conn.taskId.value].Namespace,
                                            jobs[conn.taskId.value].Gzip, conn.filename.value)
    ensures h.entry.Some? <==> h.err.None? && ReadContentCall in h.calls
    ensures h.entry.Some? ==>
              h.entry.value == JobMetadataFile(conn.filename.value, |conn.content|, conn.remoteAddr, env.start, env.end) &&
              h.written.Some? && h.written.value.1 == OnDisk(jobs[conn.taskId.value].Gzip, conn.content, env.closeFault)
    ensures ReadContentCall in h.calls && h.err.Some? ==>
              conn.contentErr.Some? &&
              h.err == Some(Wrap("cannot save file: ", conn.contentErr.value, ". closing connection")) &&
              h.written.Some? && h.written.value.1 == conn.flushed
  {
    if conn.taskId.Err? then
      Handled(Some(Wrap("cannot read task id: ", conn.taskId.error, ". closing connection")), [ReadTaskIdCall], None, None)
    else if conn.taskId.value !in jobs then
      Handled(Some(NotCurrentError(conn.taskId.value)), [ReadTaskIdCall], None, None)
    else
      Receive(root, jobFinish, jobs[conn.taskId.value], conn, env)
  }

  /** A whole well-formed upload for a registered job stores the content
      (compressed for a gzip job) under a name that carries ".gz" exactly
      for a gzip job, and reports one entry whose name does not. */
  lemma UploadStored(jobs: map<TaskId, StorageCurrentJob>, root: string, jobFinish: string, conn: Protocol, env: Env)
    requires conn.taskId.Ok? && conn.taskId.value in jobs
    requires conn.filename.Ok? && conn.filename.value != jobFinish
    requires env.mkdirErr.None? && env.createErr.None? && conn.contentErr.None?
    ensures var h := Handle(jobs, root, jobFinish, conn, env);
            var job := jobs[conn.taskId.value];
            h.err.None? && h.entry.Some? && h.entry.value.Name == conn.filename.value &&
            h.entry.value.Size == |conn.content| &&
            h.written == Some((DataPath(root, job.Namespace, job.Gzip, conn.filename.value), OnDisk(job.Gzip, conn.content, env.closeFault))) &&
            (job.Gzip && env.closeFault.None? ==> Decompress(h.written.value.1) == Some(conn.content))
  {
    StoredRoundTrip(jobs[conn.taskId.value].Gzip, conn.content);
  }

  /** The legacy storage: the job registry it embeds, its data and
      metadata directories, the data files on disk, the metadata files,
      and the entries sent to jobs (each with the task id whose
      `FileAddChan` received it). `JOB_FINISH` is not part of this model;
      the storage holds it as `jobFinish`. */
  class Storage {
    const manager: StorageJobManager
    const RootDir: string
    const MetadataDir: string
    const jobFinish: string
    var disk: DiskState
    var meta: MetaDir
    var sent: seq<(TaskId, JobMetadataFile)>

    constructor (manager: StorageJobManager, rootDir: string, metadataDir: string, jobFinish: string,
                 disk: DiskState, meta: MetaDir)
      ensures this.manager == manager && RootDir == rootDir && MetadataDir == metadataDir
      ensures this.jobFinish == jobFinish && this.disk == disk && this.meta == meta && sent == []
    {
      this.manager := manager;
      RootDir := rootDir;
      MetadataDir := metadataDir;
      this.jobFinish := jobFinish;
      this.disk := disk;
      this.meta := meta;
      sent := [];
    }

    /** The steps after the connection is counted: read the filename, then
        create the file, copy the content into it and report it. */
    method ReceiveFile(taskId: TaskId, job: StorageCurrentJob, conn: Protocol, env: Env)
      returns (err: Option<Error>, calls: seq<Call>)
      modifies this
      ensures var h := Receive(RootDir, jobFinish, job, conn, env);
              err == h.err && calls == h.calls &&
              disk.files == (if h.written.Some? then old(disk.files)[h.written.value.0 := h.written.value.1]
                             else old(disk.files)) &&
              disk.locked == old(disk.locked) &&
              sent == old(sent) + (if h.entry.Some? then [(taskId, h.entry.value)] else [])
      ensures meta == old(meta)
    {
      calls := [ReadTaskIdCall, ReadFilenameCall];
      if conn.filename.Err? {
        return Some(Wrap("cannot read filename: ", conn.filename.error, ". closing connection")), calls;
      }
      var filename := conn.filename.value;
      if filename == jobFinish {
        return None, calls;
      }
      var fileSavePath := JoinPath([RootDir, job.Namespace, filename]);
      if job.Gzip {
        fileSavePath := fileSavePath + ".gz";
      }
      assert fileSavePath == DataPath(RootDir, job.Namespace, job.Gzip, filename);
      var fileMeta := JobMetadataFile(filename, 0, conn.remoteAddr, env.start, ZeroTime);
      if env.mkdirErr.Some? {
        return Some(Wrap("cannot create file folder: ", env.mkdirErr.value, "")), calls;
      }
      if env.createErr.Some? {
        return Some(Wrap("cannot open file: ", env.createErr.value, "")), calls;
      }
      disk := disk.(files := disk.files[fileSavePath := []]);
      calls := calls + [ReadContentCall];
      if conn.contentErr.Some? {
        disk := disk.(files := disk.files[fileSavePath := conn.flushed]);
        return Some(Wrap("cannot save file: ", conn.contentErr.value, ". closing connection")), calls;
      }
      disk := disk.(files := disk.files[fileSavePath := OnDisk(job.Gzip, conn.content, env.closeFault)]);
      fileMeta := fileMeta.(Size := |conn.content|, EndTime := env.end);
      sent := sent + [(taskId, fileMeta)];
      err := None;
    }

    /** `Storage.HandleConnection`: read the task id, look the job up,
        count the connection for the duration of the call, then receive the
        file. Every connection count is as it was when the call returns. */
    method HandleConnection(conn: Protocol, env: Env) returns (err: Option<Error>, calls: seq<Call>)
      modifies this, manager
      ensures var h := Handle(old(manager.currentJobs), RootDir, jobFinish, conn, env);
              err == h.err && calls == h.calls &&
              disk.files == (if h.written.Some? then old(disk.files)[h.written.value.0 := h.written.value.1]
                             else old(disk.files)) &&
              disk.locked == old(disk.locked) &&
              sent == old(sent) + (if h.entry.Some? then [(conn.taskId.value, h.entry.value)] else [])
      ensures meta == old(meta)
      ensures manager.currentJobs == old(manager.currentJobs)
      ensures forall id :: manager.JobConnectionCount(id) == old(manager.JobConnectionCount(id))
    {
      calls := [ReadTaskIdCall];
      if conn.taskId.Err? {
        return Some(Wrap("cannot read task id: ", conn.taskId.error, ". closing connection")), calls;
      }
      var taskId := conn.taskId.value;
      var currentJob := manager.GetJob(taskId);
      if currentJob.None? {
        return Some(NotCurrentError(taskId)), calls;
      }
      manager.AddConnection(taskId);
      err, calls := ReceiveFile(taskId, currentJob.value, conn, env);
      manager.RemoveConnection(taskId);
    }
  }
}

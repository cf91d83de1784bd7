/** One ingest connection of the legacy storage daemon
    (src/bakapy/storage_conn.go, constants from src/bakapy/const.go): a
    forward-only state machine that reads a 36-byte task id, a filename
    framed by a 4-digit decimal length, and the file content up to EOF. */
module StorageConnection {
  import opened Common
  import opened Text
  import opened Stream
  import opened Codec
  import opened Disk
  import opened JobManager
  import opened JobMeta
  import opened Ingest

  const STORAGE_TASK_ID_LEN: nat := 36
  const STORAGE_FILENAME_LEN_LEN: nat := 4

  const STATE_WAIT_TASK_ID: nat := 0
  const STATE_WAIT_FILENAME: nat := 1
  const STATE_WAIT_DATA: nat := 2
  const STATE_RECEIVING: nat := 3
  const STATE_END: nat := 4

  /** The bytes of a string whose characters are all below 256. */
  function StringBytes(s: string): (b: seq<byte>)
    requires forall i :: 0 <= i < |s| ==> s[i] as int < 256
    ensures BytesToString(b) == s
  {
    if s == [] then [] else [s[0] as int as byte] + StringBytes(s[1..])
  }

  /** Reading the filename frame: what is left of the connection, and the
      filename or the error. */
  datatype FrameResult = Frame(name: string, rest: Source) | FrameError(err: Error, rest: Source)

  function MakeSliceError(): Error {
    Panic("runtime error: makeslice: len out of range")
  }

  /** The body of `StorageConn.ReadFilename` after the state check, as
      written: `io.ReadFull` of the 4-byte header, `strconv.ParseInt` of
      it, a buffer of that length (which panics for a negative length),
      `io.ReadFull` of the name. Each error is returned as it is. */
  function ReadFilenameFrame(src: Source): (r: FrameResult)
    ensures r.Frame? ==> |src.data| >= STORAGE_FILENAME_LEN_LEN
  {
    match ReadFull(src, STORAGE_FILENAME_LEN_LEN)
    case Failed(why, rest) => FrameError(FailureError(why), rest)
    case Read(header, rest) =>
      match ParseInt(BytesToString(header))
      case Err(e) => FrameError(e, rest)
      case Ok(n) =>
        if n < 0 then FrameError(MakeSliceError(), rest)
        else
          match ReadFull(rest, n)
          case Failed(why, rest2) => FrameError(FailureError(why), rest2)
          case Read(name, rest2) => Frame(BytesToString(name), rest2)
  }

  /** The frame a client sends for a filename of fewer than 10000 bytes:
      the zero-padded decimal length, then the name. */
  function FilenameFrame(name: seq<byte>): (b: seq<byte>)
    requires |name| < 10000
    ensures |b| == STORAGE_FILENAME_LEN_LEN + |name|
  {
    StringBytes(Pad4(|name|)) + name
  }

  lemma StringBytesOfDigits(s: string)
    requires AllDigits(s)
    ensures forall i :: 0 <= i < |s| ==> s[i] as int < 256
  {
  }

  lemma ConcatAssoc(a: seq<byte>, b: seq<byte>, c: seq<byte>)
    ensures (a + b) + c == a + (b + c)
  {
  }

  /** Reading a framed filename gives the name back and leaves exactly the
      bytes that follow it. */
  lemma FilenameRoundTrip(name: seq<byte>, rest: Source)
    requires |name| < 10000
    ensures ReadFilenameFrame(Source(FilenameFrame(name) + rest.data, rest.end)) ==
              Frame(BytesToString(name), rest)
  {
    var header := StringBytes(Pad4(|name|));
    var frame := FilenameFrame(name);
    assert frame == header + name;
    var src := Source(frame + rest.data, rest.end);
    ConcatAssoc(header, name, rest.data);
    var afterHeader := Source(name + rest.data, rest.end);
    assert ReadFull(src, STORAGE_FILENAME_LEN_LEN) == Read(header, afterHeader) by {
      assert src.data[..4] == header;
      assert src.data[4..] == name + rest.data;
    }
    assert ParseInt(BytesToString(header)) == Ok(|name|) by {
      ParsePad4(|name|);
    }
    assert ReadFull(afterHeader, |name|) == Read(name, rest) by {
      assert (name + rest.data)[..|name|] == name;
      assert (name + rest.data)[|name|..] == rest.data;
    }
  }

  /** A header of "-001" is accepted by `strconv.ParseInt` and then makes
      the buffer allocation panic, which ends the daemon. */
  lemma NegativeLengthPanics(rest: Source)
    ensures ReadFilenameFrame(Source([45, 48, 48, 49] + rest.data, rest.end)).FrameError?
    ensures ReadFilenameFrame(Source([45, 48, 48, 49] + rest.data, rest.end)).err.Panic?
  {
    var header: seq<byte> := [45, 48, 48, 49];
    var src := Source(header + rest.data, rest.end);
    assert ReadFull(src, STORAGE_FILENAME_LEN_LEN) == Read(header, rest) by {
      assert src.data[..4] == header;
      assert src.data[4..] == rest.data;
    }
    MinusOneHeader();
  }

  /** The header "-001" reads as the length -1. */
  lemma MinusOneHeader()
    ensures ParseInt(BytesToString([45, 48, 48, 49])) == Ok(-1)
  {
    var text := BytesToString([45, 48, 48, 49]);
    assert text == "-001";
    var body := "001";
    assert text[1..] == body;
    assert AllDigits(body);
    assert body[..2] == "00" && "00"[..1] == "0" && "0"[..0] == "";
    assert DigitsValue(body) == 1;
  }

  /** The filename frame with a negative length rejected as a malformed
      header instead of reaching the allocation. */
  function ReadFilenameFrameChecked(src: Source): (r: FrameResult)
    ensures r.FrameError? ==> !r.err.Panic?
    ensures (ReadFilenameFrame(src).FrameError? && ReadFilenameFrame(src).err.Panic?) ||
            r == ReadFilenameFrame(src)
  {
    match ReadFull(src, STORAGE_FILENAME_LEN_LEN)
    case Failed(why, rest) => FrameError(FailureError(why), rest)
    case Read(header, rest) =>
      match ParseInt(BytesToString(header))
      case Err(e) => FrameError(e, rest)
      case Ok(n) =>
        if n < 0 then FrameError(Other("invalid filename length " + IntToString(n)), rest)
        else
          match ReadFull(rest, n)
          case Failed(why, rest2) => FrameError(FailureError(why), rest2)
          case Read(name, rest2) => Frame(BytesToString(name), rest2)
  }

  /** The checked frame never panics, whatever the connection delivers, and
      still reads every well-formed frame. */
  lemma CheckedFrameNeverPanics(src: Source, name: seq<byte>, rest: Source)
    requires |name| < 10000
    ensures ReadFilenameFrameChecked(src).FrameError? ==> !ReadFilenameFrameChecked(src).err.Panic?
    ensures ReadFilenameFrameChecked(Source(FilenameFrame(name) + rest.data, rest.end)) ==
              Frame(BytesToString(name), rest)
  {
    FilenameRoundTrip(name, rest);
  }

  function TaskIdEofError(): Error {
    Other("received EOF on authentication")
  }

  function NotCurrentError(taskId: string): Error {
    Other("Cannot find task id '" + taskId + "' in current job list, closing connection")
  }

  /** One connection. `stor.RootDir` and the lookup of active jobs of the
      storage it belongs to are `rootDir` and `activeJobs`; the connection
      itself is `src` (what is left to read) and `remoteAddr`; the job's
      `FileAddChan` receives into `sent`. */
  class StorageConn {
    var src: Source
    const remoteAddr: string
    var CurrentFilename: string
    var TaskId: TaskId
    var currentJob: StorageCurrentJob
    var state: nat
    const rootDir: string
    const activeJobs: map<TaskId, StorageCurrentJob>
    var disk: DiskState
    var sent: seq<JobMetadataFile>

    /** `NewStorageConn`: a connection waiting for its task id. */
    constructor (rootDir: string, activeJobs: map<TaskId, StorageCurrentJob>, disk: DiskState,
                 src: Source, remoteAddr: string)
      ensures this.rootDir == rootDir && this.activeJobs == activeJobs && this.disk == disk
      ensures this.src == src && this.remoteAddr == remoteAddr
      ensures state == STATE_WAIT_TASK_ID
      ensures TaskId == "" && CurrentFilename == "" && sent == []
    {
      this.rootDir := rootDir;
      this.activeJobs := activeJobs;
      this.disk := disk;
      this.src := src;
      this.remoteAddr := remoteAddr;
      state := STATE_WAIT_TASK_ID;
      TaskId := "";
      CurrentFilename := "";
      currentJob := StorageCurrentJob("", "", false);
      sent := [];
    }

    /** `ReadTaskId`: only in WAIT_TASK_ID; read exactly 36 bytes; the id is
        stored even when no active job has it, but only a known id moves
        the connection to WAIT_FILENAME. */
    method ReadTaskId() returns (err: Option<Error>)
      modifies this
      ensures old(state) != STATE_WAIT_TASK_ID ==>
                err == Some(Other("protocol error - cannot read task id in state " + IntToString(old(state)))) &&
                src == old(src) && TaskId == old(TaskId) && state == old(state) && currentJob == old(currentJob)
      ensures old(state) == STATE_WAIT_TASK_ID ==>
                src == ReadFull(old(src), STORAGE_TASK_ID_LEN).rest
      ensures old(state) == STATE_WAIT_TASK_ID && |old(src).data| < STORAGE_TASK_ID_LEN ==>
                err.Some? && state == STATE_WAIT_TASK_ID && TaskId == old(TaskId)
      ensures old(state) == STATE_WAIT_TASK_ID && old(src).data == [] && old(src).end == Eof ==>
                err == Some(TaskIdEofError())
      ensures old(state) == STATE_WAIT_TASK_ID && |old(src).data| >= STORAGE_TASK_ID_LEN ==>
                TaskId == BytesToString(old(src).data[..STORAGE_TASK_ID_LEN]) &&
                (err.None? <==> TaskId in activeJobs) &&
                (err.None? ==> state == STATE_WAIT_FILENAME && currentJob == activeJobs[TaskId]) &&
                (err.Some? ==> err.value == NotCurrentError(TaskId) && state == STATE_WAIT_TASK_ID)
      ensures CurrentFilename == old(CurrentFilename) && disk == old(disk) && sent == old(sent)
    {
      if state != STATE_WAIT_TASK_ID {
        return Some(Other("protocol error - cannot read task id in state " + IntToString(state)));
      }
      var r := ReadFull(src, STORAGE_TASK_ID_LEN);
      src := r.rest;
      if r.Failed? {
        if r.why == AtEof {
          return Some(TaskIdEofError());
        } else {
          return Some(Other("read error during authentication: " + FailureError(r.why).msg));
        }
      }
      TaskId := BytesToString(r.bytes);
      if TaskId !in activeJobs {
        return Some(NotCurrentError(TaskId));
      }
      currentJob := activeJobs[TaskId];
      state := STATE_WAIT_FILENAME;
      err := None;
    }

    /** `ReadFilename`: only in WAIT_FILENAME; read the framed name and move
        to WAIT_DATA; every read or parse error is returned as it is and
        leaves the state where it was. */
    method ReadFilename() returns (err: Option<Error>)
      modifies this
      ensures old(state) != STATE_WAIT_FILENAME ==>
                err == Some(Other("protocol error - cannot read filename in state " + IntToString(old(state)))) &&
                src == old(src) && state == old(state) && CurrentFilename == old(CurrentFilename)
      ensures old(state) == STATE_WAIT_FILENAME ==>
                src == ReadFilenameFrame(old(src)).rest &&
                (err.None? <==> ReadFilenameFrame(old(src)).Frame?) &&
                (err.None? ==> CurrentFilename == ReadFilenameFrame(old(src)).name && state == STATE_WAIT_DATA) &&
                (err.Some? ==> err.value == ReadFilenameFrame(old(src)).err &&
                               CurrentFilename == old(CurrentFilename) && state == old(state))
      ensures TaskId == old(TaskId) && currentJob == old(currentJob) && disk == old(disk) && sent == old(sent)
    {
      if state != STATE_WAIT_FILENAME {
        return Some(Other("protocol error - cannot read filename in state " + IntToString(state)));
      }
      var header := ReadFull(src, STORAGE_FILENAME_LEN_LEN);
      src := header.rest;
      if header.Failed? {
        return Some(FailureError(header.why));
      }
      var filenameLen := ParseInt(BytesToString(header.bytes));
      if filenameLen.Err? {
        return Some(filenameLen.error);
      }
      if filenameLen.value < 0 {
        return Some(MakeSliceError());
      }
      var filename := ReadFull(src, filenameLen.value);
      src := filename.rest;
      if filename.Failed? {
        return Some(FailureError(filename.why));
      }
      CurrentFilename := BytesToString(filename.bytes);
      state := STATE_WAIT_DATA;
      err := None;
    }

    /** The path the current file is saved at. */
    function SavePath(): string
      reads this
    {
      JoinPath([rootDir, currentJob.Namespace, CurrentFilename])
    }

    /** `SaveFile`: only in WAIT_DATA; add ".gz" to the name of a gzip
        job's file, create the file (directory and file creation failures
        are `mkdirErr` and `createErr`), enter RECEIVING, copy the rest of
        the connection into it, then send the entry to the job and enter
        END. A copy error, a failed read of the connection or a failed
        write (`writeErr`) of the file, leaves the state at RECEIVING and the
        file holding `flushed`, whatever the buffered writer had passed on to
        it by then (left unconstrained). The failures of the final flush and
        closes are ignored; `closeFault` is then what the file holds. */
    method SaveFile(mkdirErr: Option<Error>, createErr: Option<Error>, writeErr: Option<Error>,
                    flushed: seq<byte>, closeFault: Option<seq<byte>>, start: Time, end: Time)
      returns (err: Option<Error>)
      modifies this
      ensures old(state) != STATE_WAIT_DATA ==>
                err == Some(Other("protocol error - cannot read data in state " + IntToString(old(state)))) &&
                state == old(state) && CurrentFilename == old(CurrentFilename) && disk == old(disk) && sent == old(sent)
      ensures old(state) == STATE_WAIT_DATA ==>
                CurrentFilename == old(CurrentFilename) + (if currentJob.Gzip then ".gz" else "")
      ensures old(state) == STATE_WAIT_DATA && (mkdirErr.Some? || createErr.Some?) ==>
                err == (if mkdirErr.Some? then mkdirErr else createErr) &&
                state == STATE_WAIT_DATA && disk == old(disk) && sent == old(sent)
      ensures old(state) == STATE_WAIT_DATA && mkdirErr.None? && createErr.None? && writeErr.Some? ==>
                err == writeErr && state == STATE_RECEIVING &&
                disk == old(disk).(files := old(disk).files[SavePath() := flushed]) && sent == old(sent)
      ensures old(state) == STATE_WAIT_DATA && mkdirErr.None? && createErr.None? && writeErr.None? &&
              old(src).end.Fail? ==>
                err == Some(Other(old(src).end.msg)) && state == STATE_RECEIVING &&
                disk == old(disk).(files := old(disk).files[SavePath() := flushed]) && sent == old(sent)
      ensures old(state) == STATE_WAIT_DATA && mkdirErr.None? && createErr.None? && writeErr.None? &&
              old(src).end == Eof ==>
                err.None? && state == STATE_END &&
                disk == old(disk).(files := old(disk).files[SavePath() :=
                          OnDisk(currentJob.Gzip, old(src).data, closeFault)]) &&
                sent == old(sent) + [JobMetadataFile(CurrentFilename, |old(src).data|, remoteAddr, start, end)]
      ensures TaskId == old(TaskId) && currentJob == old(currentJob)
    {
      if state != STATE_WAIT_DATA {
        return Some(Other("protocol error - cannot read data in state " + IntToString(state)));
      }
      if currentJob.Gzip {
        CurrentFilename := CurrentFilename + ".gz";
      }
      var savePath := JoinPath([rootDir, currentJob.Namespace, CurrentFilename]);
      assert savePath == SavePath();
      if mkdirErr.Some? {
        return mkdirErr;
      }
      if createErr.Some? {
        return createErr;
      }
      disk := disk.(files := disk.files[savePath := []]);
      var fileMeta := JobMetadataFile(CurrentFilename, 0, remoteAddr, start, 0);
      state := STATE_RECEIVING;
      err := CopyContent(savePath, fileMeta, writeErr, flushed, closeFault, end);
    }

    /** The copy step of `SaveFile`, once the file at `savePath` is created
        and the state is RECEIVING: copy the rest of the connection into
        the file, then send the entry with the content's size and the end
        time, and enter END. */
    method CopyContent(savePath: string, fileMeta: JobMetadataFile, writeErr: Option<Error>,
                       flushed: seq<byte>, closeFault: Option<seq<byte>>, end: Time)
      returns (err: Option<Error>)
      modifies this
      ensures writeErr.Some? ==>
                err == writeErr && state == old(state) &&
                disk == old(disk).(files := old(disk).files[savePath := flushed]) && sent == old(sent)
      ensures writeErr.None? && old(src).end.Fail? ==>
                err == Some(Other(old(src).end.msg)) && state == old(state) &&
                disk == old(disk).(files := old(disk).files[savePath := flushed]) && sent == old(sent)
      ensures writeErr.None? && old(src).end == Eof ==>
                err.None? && state == STATE_END &&
                disk == old(disk).(files := old(disk).files[savePath := OnDisk(currentJob.Gzip, old(src).data, closeFault)]) &&
                sent == old(sent) + [fileMeta.(Size := |old(src).data|, EndTime := end)]
      ensures CurrentFilename == old(CurrentFilename) && TaskId == old(TaskId) && currentJob == old(currentJob)
    {
      var copied := Copy(src);
      src := Source([], src.end);
      if writeErr.Some? {
        disk := disk.(files := disk.files[savePath := flushed]);
        return writeErr;
      }
      if copied.1.Some? {
        disk := disk.(files := disk.files[savePath := flushed]);
        return copied.1;
      }
      var content := if currentJob.Gzip then Compress(copied.0) else copied.0;
      if closeFault.Some? {
        content := closeFault.value;
      }
      disk := disk.(files := disk.files[savePath := content]);
      sent := sent + [fileMeta.(Size := |copied.0|, EndTime := end)];
      state := STATE_END;
      err := None;
    }
  }

  /** A whole upload over a fresh connection: a registered task id, a
      framed filename, then the content up to EOF, is stored under the
      job's namespace (gzip-compressed for a gzip job) and reported to the
      job once, with the size of the content. */
  method Upload(rootDir: string, activeJobs: map<TaskId, StorageCurrentJob>, disk: DiskState,
                taskId: seq<byte>, name: seq<byte>, content: seq<byte>, remoteAddr: string, start: Time, end: Time)
    returns (conn: StorageConn)
    requires |taskId| == STORAGE_TASK_ID_LEN && BytesToString(taskId) in activeJobs
    requires |name| < 10000
    ensures conn.state == STATE_END
    ensures var job := activeJobs[BytesToString(taskId)];
            var stored := BytesToString(name) + (if job.Gzip then ".gz" else "");
            conn.CurrentFilename == stored &&
            conn.sent == [JobMetadataFile(stored, |content|, remoteAddr, start, end)] &&
            conn.disk.files == disk.files[JoinPath([rootDir, job.Namespace, stored]) :=
                                 if job.Gzip then Compress(content) else content]
  {
    var wire := Source(taskId + FilenameFrame(name) + content, Eof);
    conn := new StorageConn(rootDir, activeJobs, disk, wire, remoteAddr);
    assert wire.data[..STORAGE_TASK_ID_LEN] == taskId;
    assert wire.data[STORAGE_TASK_ID_LEN..] == FilenameFrame(name) + content;
    var err := conn.ReadTaskId();
    FilenameRoundTrip(name, Source(content, Eof));
    err := conn.ReadFilename();
    err := conn.SaveFile(None, None, None, [], None, start, end);
  }
}

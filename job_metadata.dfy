/** The legacy task record (src/bakapy/job_metadata.go): its unguarded
    duration and speed, and saving it to and loading it from a metadata
    file. */
module JobMeta {
  import opened Common
  import opened Config
  import opened Codec

  datatype JobMetadataFile = JobMetadataFile(
    Name: string, Size: int, SourceAddr: string,
    StartTime: Time, EndTime: Time)

  datatype JobMetadata = JobMetadata(
    JobName: string, Gzip: bool, Namespace: string, TaskId: TaskId,
    Command: string, Success: bool, Message: string, TotalSize: int,
    StartTime: Time, EndTime: Time, ExpireTime: Time,
    Files: seq<JobMetadataFile>, Pid: int, RetCode: nat,
    Script: seq<byte>, Output: seq<byte>, Errput: seq<byte>,
    Config: JobConfig)

  /** `JobMetadata.Duration`: `EndTime.Sub(StartTime)` with no guard. */
  function Duration(m: JobMetadata): (d: int)
    ensures (d < 0) <==> m.EndTime < m.StartTime
    ensures MinInt64 <= m.EndTime - m.StartTime <= MaxInt64 ==> d == m.EndTime - m.StartTime
  {
    Sub(m.EndTime, m.StartTime)
  }

  /** `JobMetadata.AvgSpeed`: bytes per whole second, truncated. */
  function AvgSpeed(m: JobMetadata): (v: int)
  {
    var secs := WholeSeconds(Duration(m));
    if secs == 0 then 0 else Quo(m.TotalSize, secs)
  }

  /** With the start after the end, the duration is negative, not the 0
      that the tests of this record expect; a run of at least a second
      reversed gives a speed of at most 0. */
  lemma ReversedDuration(m: JobMetadata)
    requires m.EndTime < m.StartTime
    ensures Duration(m) < 0
    ensures m.TotalSize >= 0 && Duration(m) <= -Second ==> AvgSpeed(m) <= 0
  {
  }

  /** A record with no start time has a duration from year 1 to its end,
      not 0. */
  lemma UnsetStartDuration(m: JobMetadata)
    requires m.StartTime == ZeroTime && 0 < m.EndTime <= MaxInt64
    ensures Duration(m) == m.EndTime > 0
  {
  }

  /** 102 MiB received in 50 minutes is 35651 bytes per second. */
  lemma AvgSpeedExample(m: JobMetadata)
    requires m.TotalSize == 102 * 1024 * 1024
    requires m.EndTime == m.StartTime + 50 * Minute
    ensures AvgSpeed(m) == 35651
  {
  }

  /** A run shorter than a second in either direction has speed 0. */
  lemma AvgSpeedSubSecond(m: JobMetadata)
    requires -Second < m.EndTime - m.StartTime < Second
    ensures AvgSpeed(m) == 0
  {
  }

  /** What can go wrong in each step of `Save`: creating the directory,
      creating the file, writing the encoding into it. */
  datatype SaveFaults = SaveFaults(mkdir: Option<Error>, create: Option<Error>, write: Option<Error>)

  /** The error `Save` returns: the first step that fails. */
  function SaveError(f: SaveFaults): Option<Error> {
    if f.mkdir.Some? then f.mkdir
    else if f.create.Some? then f.create
    else f.write
  }

  /** The files after `Save(md, saveTo)`: unchanged when the directory or
      the file cannot be created; otherwise the file holds the encoding, or
      (after a failed write) bytes that do not decode. */
  function AfterSave(files: map<string, Blob<JobMetadata>>, md: JobMetadata, saveTo: string, f: SaveFaults)
    : map<string, Blob<JobMetadata>>
  {
    if f.mkdir.Some? || f.create.Some? then files
    else files[saveTo := if f.write.Some? then Raw([]) else Encode(md)]
  }

  function NotExistError(path: string): Error {
    NotExist("open " + path + ": no such file or directory")
  }

  /** `LoadJobMetadata(path)`: read the whole file, then decode it. */
  function LoadJobMetadata(files: map<string, Blob<JobMetadata>>, path: string): (r: Result<JobMetadata>)
    ensures path !in files ==> r == Err(NotExistError(path))
    ensures r.Ok? <==> path in files && files[path].Encoded?
    ensures r.Ok? ==> Encode(r.value) == files[path]
  {
    if path !in files then Err(NotExistError(path)) else Decode(files[path])
  }

  /** Loading what a successful `Save` wrote yields an equal record, and no
      other file changes. */
  lemma LoadAfterSave(files: map<string, Blob<JobMetadata>>, md: JobMetadata, saveTo: string, f: SaveFaults)
    requires SaveError(f).None?
    ensures LoadJobMetadata(AfterSave(files, md, saveTo, f), saveTo) == Ok(md)
    ensures forall p :: p != saveTo ==> LoadJobMetadata(AfterSave(files, md, saveTo, f), p) == LoadJobMetadata(files, p)
  {
  }

  /** After a `Save` whose write failed, loading the file fails. */
  lemma LoadAfterFailedWrite(files: map<string, Blob<JobMetadata>>, md: JobMetadata, saveTo: string, f: SaveFaults)
    requires f.mkdir.None? && f.create.None? && f.write.Some?
    ensures LoadJobMetadata(AfterSave(files, md, saveTo, f), saveTo).Err?
  {
  }

  /** A metadata directory: the files by path, and the paths that may be
      neither removed nor moved (a permission error). */
  datatype MetaDir = MetaDir(files: map<string, Blob<JobMetadata>>, locked: set<string>)

  /** The metadata files on disk, which `Save` writes. */
  class MetadataFiles {
    var files: map<string, Blob<JobMetadata>>

    constructor (initial: map<string, Blob<JobMetadata>>)
      ensures files == initial
    {
      files := initial;
    }

    /** `JobMetadata.Save(saveTo)`: make the directory, create (truncate)
        the file, write the encoding. */
    method Save(md: JobMetadata, saveTo: string, f: SaveFaults) returns (err: Option<Error>)
      modifies this
      ensures err == SaveError(f)
      ensures files == AfterSave(old(files), md, saveTo, f)
    {
      if f.mkdir.Some? {
        return f.mkdir;
      }
      if f.create.Some? {
        return f.create;
      }
      files := files[saveTo := Raw([])];
      var data := Encode(md);
      if f.write.Some? {
        return f.write;
      }
      files := files[saveTo := data];
      err := None;
    }
  }
}

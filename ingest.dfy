/** What both ingest handlers share: the connection as the
    `StorageProtocolHandler` interface presents it
    (src/bakapy/storage_conn.go), the operating-system outcomes they
    depend on, and where and how a received file is stored. */
module Ingest {
  import opened Common
  import opened Codec
  import opened Disk

  /** A read the handler makes on the connection. */
  datatype Call = ReadTaskIdCall | ReadFilenameCall | ReadContentCall

  /** A connection as the handler sees it through `StorageProtocolHandler`:
      what `ReadTaskId` and `ReadFilename` answer, the bytes `ReadContent`
      delivers and the error it ends with, the bytes that reached the file
      before that error (`flushed`: what the buffered writer had already
      passed on, left unconstrained), and the remote address. */
  datatype Protocol = Protocol(
    taskId: Result<TaskId>, filename: Result<string>,
    content: seq<byte>, contentErr: Option<Error>, flushed: seq<byte>, remoteAddr: string)

  /** What the handler learns from the operating system: whether the
      directory and the file can be created, whether the final flush or
      one of the closes fails (`closeFault`, as the bytes the file is left
      holding; the handlers ignore these failures), and the two clock
      readings. */
  datatype Env = Env(mkdirErr: Option<Error>, createErr: Option<Error>, closeFault: Option<seq<byte>>,
                     start: Time, end: Time)

  /** An error message wrapped the way `fmt.Sprintf("...%s...", err)` does. */
  function Wrap(prefix: string, e: Error, suffix: string): Error {
    Other(prefix + e.msg + suffix)
  }

  /** Where a job's file is stored: `path.Join(root, namespace, filename)`,
      with ".gz" added for a gzip job. */
  function DataPath(root: string, namespace: string, gzip: bool, filename: string): string {
    JoinPath([root, namespace, filename]) + (if gzip then ".gz" else "")
  }

  /** The bytes a job's file holds once the content is written: the
      content itself, or its gzip stream. */
  function Stored(gzip: bool, content: seq<byte>): seq<byte> {
    if gzip then Compress(content) else content
  }

  /** The bytes a job's file holds once the handler is done with it: the
      stored content, or what an ignored flush or close failure left. */
  function OnDisk(gzip: bool, content: seq<byte>, closeFault: Option<seq<byte>>): seq<byte> {
    if closeFault.Some? then closeFault.value else Stored(gzip, content)
  }

  /** The stored bytes give back the content that was received. */
  lemma StoredRoundTrip(gzip: bool, content: seq<byte>)
    ensures gzip ==> Decompress(Stored(gzip, content)) == Some(content)
    ensures !gzip ==> Stored(gzip, content) == content
  {
    if gzip {
      DecompressCompress(content);
    }
  }
}

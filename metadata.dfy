/** The metadata record of one backup task and its derived figures
    (src/bakapy/metadata.go). */
module Metadata {
  import opened Common
  import opened Config

  /** One file received for a task. */
  datatype FileEntry = FileEntry(
    Name: string, Size: int, SourceAddr: string,
    StartTime: Time, EndTime: Time)

  /** The record of one task run. */
  datatype Metadata = Metadata(
    JobName: string, Gzip: bool, Namespace: string, TaskId: TaskId,
    Command: string, Success: bool, Message: string, TotalSize: int,
    StartTime: Time, EndTime: Time, ExpireTime: Time,
    Files: seq<FileEntry>, Pid: int, RetCode: nat,
    Script: seq<byte>, Output: seq<byte>, Errput: seq<byte>,
    Config: JobConfig)

  const ZeroConfig: JobConfig :=
    JobConfig(false, false, false, 0, 0, "", "", "", 0, "", map[], RunAtSpec("", "", "", "", "", ""))

  /** `Metadata{}`: the record `View` returns with an error. */
  const ZeroMetadata: Metadata :=
    Metadata("", false, "", "", "", false, "", 0, ZeroTime, ZeroTime, ZeroTime,
             [], 0, 0, [], [], [], ZeroConfig)

  /** `Metadata.Duration`: how long the task ran, 0 when either end is
      unset or the ends are reversed. */
  function Duration(m: Metadata): (d: int)
    ensures 0 <= d <= MaxInt64
    ensures m.StartTime == ZeroTime || m.EndTime == ZeroTime ==> d == 0
    ensures m.StartTime > m.EndTime ==> d == 0
    ensures m.StartTime != ZeroTime && m.EndTime != ZeroTime && m.StartTime <= m.EndTime ==>
              d == Sub(m.EndTime, m.StartTime)
  {
    if m.EndTime == ZeroTime || m.StartTime == ZeroTime then 0
    else if m.StartTime > m.EndTime then 0
    else Sub(m.EndTime, m.StartTime)
  }

  /** `Metadata.AvgSpeed`: bytes per whole second of the duration. */
  function AvgSpeed(m: Metadata): (v: int)
  {
    var secs := WholeSeconds(Duration(m));
    if secs == 0 then 0 else Quo(m.TotalSize, secs)
  }

  /** The speed is 0 for a run shorter than a second, and otherwise the
      whole number of bytes per second: the largest v with v * secs not
      above the total size. */
  lemma AvgSpeedBounds(m: Metadata)
    requires m.TotalSize >= 0
    ensures Duration(m) < Second ==> AvgSpeed(m) == 0
    ensures Duration(m) >= Second ==>
              var secs := Duration(m) / Second;
              AvgSpeed(m) * secs <= m.TotalSize < (AvgSpeed(m) + 1) * secs
  {
    if Duration(m) >= Second {
      var secs := Duration(m) / Second;
      assert AvgSpeed(m) == m.TotalSize / secs;
    }
  }

  /** 102 MiB received in 50 minutes is 35651 bytes per second. */
  lemma AvgSpeedExample(m: Metadata)
    requires m.TotalSize == 102 * 1024 * 1024
    requires m.StartTime > 0 && m.EndTime == m.StartTime + 50 * Minute
    ensures AvgSpeed(m) == 35651
  {
  }
}

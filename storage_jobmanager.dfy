/** The registry of running jobs kept by the legacy storage daemon, with a
    count of open ingest connections per task
    (src/bakapy/storage_jobmanager.go). */
module JobManager {
  import opened Common

  /** A job the storage accepts files for. Its `FileAddChan` is identified
      with the task id: a file entry sent for the job is recorded with it. */
  datatype StorageCurrentJob = StorageCurrentJob(TaskId: TaskId, Namespace: string, Gzip: bool)

  /** The connection count of a task: 0 when it has no entry. */
  function Count(counts: map<TaskId, int>, id: TaskId): int {
    if id in counts then counts[id] else 0
  }

  /** The counts after `AddConnection(id)`. */
  function Added(counts: map<TaskId, int>, id: TaskId): (r: map<TaskId, int>)
  {
    counts[id := Count(counts, id) + 1]
  }

  /** The counts after `RemoveConnection(id)`: no entry, no change;
      otherwise one less, and the entry dropped once it is not positive
      and the job is no longer registered. */
  function Removed(counts: map<TaskId, int>, jobs: map<TaskId, StorageCurrentJob>, id: TaskId): (r: map<TaskId, int>)
  {
    if id !in counts then counts
    else if id !in jobs && counts[id] - 1 <= 0 then counts - {id}
    else counts[id := counts[id] - 1]
  }

  /** Two connections to a new task give a count of 2. */
  lemma AddTwice(counts: map<TaskId, int>, id: TaskId)
    requires id !in counts
    ensures Count(Added(Added(counts, id), id), id) == 2
  {
  }

  /** `AddConnection` adds one and touches no other task. */
  lemma AddedCounts(counts: map<TaskId, int>, id: TaskId)
    ensures Count(Added(counts, id), id) == Count(counts, id) + 1
    ensures forall other :: other != id ==> Count(Added(counts, id), other) == Count(counts, other)
    ensures Added(counts, id).Keys == counts.Keys + {id}
  {
  }

  /** `RemoveConnection` of a counted task subtracts one; the entry goes
      away exactly when the job is unregistered and the count is no longer
      positive; no other task is touched. */
  lemma RemovedCounts(counts: map<TaskId, int>, jobs: map<TaskId, StorageCurrentJob>, id: TaskId)
    ensures id !in counts ==> Removed(counts, jobs, id) == counts
    ensures id in counts ==> Count(Removed(counts, jobs, id), id) == counts[id] - 1 ||
                             (id !in Removed(counts, jobs, id) && counts[id] - 1 <= 0)
    ensures id in counts ==> (id !in Removed(counts, jobs, id) <==> id !in jobs && counts[id] <= 1)
    ensures forall other :: other != id ==> Count(Removed(counts, jobs, id), other) == Count(counts, other)
  {
  }

  /** A connection opened and closed again leaves the task's count as it
      was (the entry itself may appear at 0 or go away). */
  lemma AddThenRemove(counts: map<TaskId, int>, jobs: map<TaskId, StorageCurrentJob>, id: TaskId)
    requires Count(counts, id) >= 0
    ensures Count(Removed(Added(counts, id), jobs, id), id) == Count(counts, id)
    ensures forall other :: other != id ==>
              Count(Removed(Added(counts, id), jobs, id), other) == Count(counts, other)
  {
  }

  class StorageJobManager {
    var currentJobs: map<TaskId, StorageCurrentJob>
    var jobConnectionCount: map<TaskId, int>

    /** `NewStorageJobManager`: no jobs, no connections. */
    constructor ()
      ensures currentJobs == map[] && jobConnectionCount == map[]
    {
      currentJobs := map[];
      jobConnectionCount := map[];
    }

    /** `JobConnectionCount`: the open connections of a task, 0 for a task
        never counted. */
    function JobConnectionCount(id: TaskId): (n: int)
      reads this
      ensures id !in jobConnectionCount ==> n == 0
      ensures id in jobConnectionCount ==> n == jobConnectionCount[id]
    {
      Count(jobConnectionCount, id)
    }

    /** `GetJob`: the registered job of a task, if any. */
    function GetJob(id: TaskId): (r: Option<StorageCurrentJob>)
      reads this
      ensures r.Some? <==> id in currentJobs
      ensures r.Some? ==> r.value == currentJobs[id]
    {
      if id in currentJobs then Some(currentJobs[id]) else None
    }

    /** `AddJob`: register (or replace) the job under its task id. */
    method AddJob(job: StorageCurrentJob)
      modifies this
      ensures currentJobs == old(currentJobs)[job.TaskId := job]
      ensures jobConnectionCount == old(jobConnectionCount)
      ensures GetJob(job.TaskId) == Some(job)
    {
      currentJobs := currentJobs[job.TaskId := job];
    }

    /** `RemoveJob`: unregister the task; other jobs stay. */
    method RemoveJob(id: TaskId)
      modifies this
      ensures currentJobs == old(currentJobs) - {id}
      ensures jobConnectionCount == old(jobConnectionCount)
      ensures GetJob(id).None?
      ensures forall other :: other != id ==> GetJob(other) == old(GetJob(other))
    {
      currentJobs := currentJobs - {id};
    }

    /** `AddConnection`: create the entry at 0 if missing, then add one. */
    method AddConnection(id: TaskId)
      modifies this
      ensures jobConnectionCount == Added(old(jobConnectionCount), id)
      ensures JobConnectionCount(id) == old(JobConnectionCount(id)) + 1
      ensures currentJobs == old(currentJobs)
    {
      if id !in jobConnectionCount {
        jobConnectionCount := jobConnectionCount[id := 0];
      }
      jobConnectionCount := jobConnectionCount[id := jobConnectionCount[id] + 1];
    }

    /** `RemoveConnection`: nothing for a task without an entry; otherwise
        subtract one, and drop the entry when the job is gone and the count
        is not positive. */
    method RemoveConnection(id: TaskId)
      modifies this
      ensures jobConnectionCount == Removed(old(jobConnectionCount), old(currentJobs), id)
      ensures currentJobs == old(currentJobs)
    {
      if id !in jobConnectionCount {
        return;
      }
      jobConnectionCount := jobConnectionCount[id := jobConnectionCount[id] - 1];
      var job := GetJob(id);
      if job.None? && jobConnectionCount[id] <= 0 {
        jobConnectionCount := jobConnectionCount - {id};
      }
    }
  }
}

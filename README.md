# bakapy core in Dafny

bakapy is a backup system. A scheduler runs each job's script over ssh or
the local bash. The script streams files to a storage daemon, and every
run leaves a metadata record. This project models the stateful and pure
core of that system and proves properties about it:

- the ingest protocol. `StorageConn` is a forward-only state machine:
  a 36-byte task id, then a 4-digit length, then the filename, then the
  content up to EOF. There are two connection handlers:
  - the legacy one checks the task against the in-memory job registry
    (`StorageJobManager`) and sends the entry to the job;
  - the newer one checks the task against the metadata store and records
    the entry there.
- the metadata store, in two variants: `JSONDir` in the metadata daemon
  and `MetaMan` in the scheduler. The repository keeps two copies of this
  code, and so does the model: `MetaMan.MetaMan.get` repeats
  `JsonDir.JSONDir.get`, and `MetaRPCServer.Keys`/`View` repeat
  `JSONDirServer.Keys`/`View`, member for member.
  - Each keeps one record per task id in a directory.
  - Each saves through `<id>.inpr` and a rename.
  - Each has a per-id lock table.
  - Their two RPC servers add a per-connection "pending update" table and,
    in the metadata daemon, a handshake.
- the three expiry sweeps:
  - the tolerant sweep of the storage daemon;
  - the strict sweep of the scheduler;
  - the grouped sweep of the legacy storage, which quarantines corrupt
    records and skips jobs whose latest run failed.
- the pure helpers: task durations and average speeds, the schedule
  string, retention sanitizing and the include merge of the configuration,
  the command line of the bash executor, and the notification script's
  environment.

How the model is built:

- Classes whose fields the Go code updates are Dafny classes; their methods
  are proved against specification functions.
- Each Go map that is iterated is paired with an `order` parameter: a
  sequence naming each key once.
- A directory listing is a `dir` parameter, and the directory walk is a
  `walk` parameter.
- These are all parameters: `now`, the result of `exec.LookPath`, the
  script path, the digest of the secret, and these failures of the file
  system:
  - mkdir and create, in the ingest handlers;
  - the write of the file during the copy (`writeErr` of `SaveFile`; the
    handlers' `ReadContent` reports it as `contentErr`);
  - the final flush and closes that the ingest handlers ignore
    (`closeFault`, given as the bytes the file is then left holding);
  - the writes and renames of the metadata saves.
- A blocking lock is a precondition that the lock is free.
- A Go panic or fatal error is an `Error.Panic` value.
- JSON is an opaque codec with `Decode(Encode(m)) == Ok(m)`. Bytes that do
  not decode are `Raw`.
- gzip is an opaque `Compress` with `Decompress(Compress(b)) == Some(b)`.

Where the code's callers or tests and its definitions disagree, the
model follows the definitions:

- `MetaRPCServer` calls `GetForUpdate`, `Save` and `CancelUpdate` on the
  scheduler's `MetaMan`. `metaman.go` defines `getForUpdate` and `save`
  and no `CancelUpdate`. The server is modelled over the defined pair and
  over `MetaMan.MetaMan.CancelUpdate`, which releases the lock the way a
  failed `getForUpdate` does.
- `GetActiveJob`, used by `storage_conn.go`, is defined nowhere. It is the
  `activeJobs` map of the connection.
- `storage.Remove(ns, name)`, called by `cleaner.go`, is not defined on
  `bakapy.Storage` anywhere in the repository. It is modelled as the
  removal of root/ns/name from the disk.
- `JobMetadata.Duration` is not clamped, although its tests expect 0 for
  reversed or unset times (see Findings).

## Model

| member | source | states |
|---|---|---|
| StorageConnection.StorageConn.constructor | src/bakapy/storage_conn.go:36-44 | a new connection waits for its task id (state 0) with no id, no filename and nothing sent |
| StorageConnection.StorageConn.ReadTaskId | src/bakapy/storage_conn.go:50-86 | out of state 0: the protocol error naming the state, and nothing is read or changed. With fewer than 36 bytes: an error, and the state stays 0 (EOF on an empty stream gives "received EOF on authentication"). Otherwise exactly 36 bytes are consumed and become `TaskId`; the call succeeds iff the id is an active job, and then the job is taken and the state becomes 1; an unknown id gives "Cannot find task id '…' in current job list, closing connection" and the state stays 0 |
| StorageConnection.StorageConn.ReadFilename | src/bakapy/storage_conn.go:88-116 | out of state 1: the protocol error and nothing changes. In state 1 the connection advances by the frame. Success iff the frame reads; then `CurrentFilename` is the name and the state is 2. Any read or parse error (and the negative-length panic) is returned as it is, and the state and name are kept |
| StorageConnection.StorageConn.SaveFile | src/bakapy/storage_conn.go:118-180 | out of state 2: the protocol error and nothing changes. In state 2 ".gz" is appended to the name iff the job is gzip. A mkdir/create failure is returned with the state still 2. A copy error, a failed write of the file or a failed read of the connection, is returned and leaves the state at 3 and the file holding the `flushed` bytes, the part the buffered writer had already passed on. At EOF the call succeeds: exactly one entry with the ".gz" name and the content's size is sent and the state is 4. The file holds the content (compressed for gzip), or, after an ignored flush or close failure, the `closeFault` bytes, while the entry still reports the whole size |
| StorageConnection.StorageConn.CopyContent | src/bakapy/storage_conn.go:160-179 | a failed write of the file or a failed read of the connection is returned, with the file holding the `flushed` bytes, nothing sent and the state kept; otherwise the file holds the (compressed) content or the `closeFault` bytes, exactly one entry with the content's size and the end time is sent, and the state is 4 |
| StorageConnection.Upload | src/bakapy/storage_conn.go:50-180 | a whole well-formed upload of a registered task ends in state 4, stores the content at root/namespace/name(.gz) and sends exactly one entry whose name carries ".gz" iff gzip and whose size is the content length |
| StorageConnection.FilenameRoundTrip | src/bakapy/storage_conn.go:93-113 | reading the frame of any name under 10000 bytes gives that name back and leaves exactly the rest of the stream |
| StorageConnection.NegativeLengthPanics | src/bakapy/storage_conn.go:101-106 | the header "-001" passes `strconv.ParseInt` and the buffer allocation panics |
| StorageConnection.ReadFilenameFrameChecked | src/bakapy/storage_conn.go:101-106 | the frame reader with negative lengths refused never panics, and agrees with the code wherever the code does not panic |
| StorageConnection.CheckedFrameNeverPanics | src/bakapy/storage_conn.go:101-110 | the checked reader never panics on any stream and still reads every well-formed frame |
| JobManager.AddedCounts | src/bakapy/storage_jobmanager.go:52-62 | adding a connection raises that id's count by exactly 1 (from 0 for a new id) and no other count |
| JobManager.AddTwice | src/bakapy/storage_jobmanager.go:52-62 | two connections on a new id give count 2 |
| JobManager.RemovedCounts | src/bakapy/storage_jobmanager.go:64-81 | no entry: nothing changes. Otherwise the count drops by exactly 1 and the entry is deleted iff the job is unregistered and the count was at most 1. Other ids are untouched |
| JobManager.AddThenRemove | src/bakapy/storage_jobmanager.go:52-81 | adding then removing a connection restores every count |
| JobManager.StorageJobManager.constructor | src/bakapy/storage_jobmanager.go:21-28 | both tables start empty |
| JobManager.StorageJobManager.JobConnectionCount | src/bakapy/storage_jobmanager.go:30-38 | the stored count, and 0 for an id never added |
| JobManager.StorageJobManager.GetJob | src/bakapy/storage_jobmanager.go:83-88 | a job is returned iff it is registered, and it is the registered one |
| JobManager.StorageJobManager.AddJob | src/bakapy/storage_jobmanager.go:40-44 | the job is registered under its id, `GetJob` returns it, and the counts are untouched |
| JobManager.StorageJobManager.RemoveJob | src/bakapy/storage_jobmanager.go:46-50 | the id is no longer registered, other jobs and all counts are unchanged |
| JobManager.StorageJobManager.AddConnection | src/bakapy/storage_jobmanager.go:52-62 | the count table is `Added` (count + 1) and the jobs are untouched |
| JobManager.StorageJobManager.RemoveConnection | src/bakapy/storage_jobmanager.go:64-81 | the count table is `Removed` and the jobs are untouched |
| Ingest.StoredRoundTrip | src/bakapy-storage/storage.go:181-199 | the stored bytes decompress to the content for gzip and are the content otherwise |
| LegacyStorage.Handle | src/bakapy/storage.go:88-172 | each failure gives its message: "cannot read task id: …", "Cannot find task id '…' in current job list…", "cannot read filename: …", "cannot create file folder: …", "cannot open file: …", "cannot save file: …"; after a content error the file holds the `flushed` bytes and nothing is sent. `JOB_FINISH` succeeds with nothing written or sent. The content is read only after the task id and filename. The file goes to root/namespace/name(.gz iff gzip). One entry (name without ".gz", size of the content) is sent iff the handling succeeded after reading the content. The file then holds the (compressed) content, or the `closeFault` bytes after an ignored flush or close failure, which still succeeds with the same entry |
| LegacyStorage.UploadStored | src/bakapy/storage.go:117-171 | a well-formed upload to a registered job reports one entry named without ".gz" with the content's size; the file holds the stored content (which decompresses to the content for gzip) unless an ignored flush or close failure left the `closeFault` bytes |
| LegacyStorage.Storage.constructor | src/bakapy/storage.go:39-49 | the storage over the registry, with nothing sent |
| LegacyStorage.Storage.ReceiveFile | src/bakapy/storage.go:106-171 | after the job is found: the result, the written file and the one entry sent to the job's task are those of `Receive`; the metadata files are untouched |
| LegacyStorage.Storage.HandleConnection | src/bakapy/storage.go:88-172 | the result, the disk and the sent entries are those of `Handle`; the registered jobs and every connection count are unchanged |
| LocalStorage.Handle | src/bakapy-storage/storage.go:126-208 | each failure gives its message and stops at its step: a task-id error, a task unknown to the store ("cannot find task id …"), a finished task ("already finished"), "cannot read filename: …", "cannot create file folder: …", "cannot open file: …", "cannot save file: …". The filename is read iff the task is known and unfinished. `JOB_FINISH` writes and records nothing. After a content error the file holds the `flushed` bytes and nothing is recorded. Otherwise the file at root/namespace/name(.gz iff gzip) holds the (compressed) content, or the `closeFault` bytes after an ignored flush or close failure. Either way the error and the store are those of `AddFile` of an entry named without ".gz" and with the whole size, the failure of its save included |
| LocalStorage.HandleCorrected | src/bakapy-storage/storage.go:155-166 | the same errors, calls and written file as `Handle`, but the entry records the name of the file actually stored |
| LocalStorage.UploadRecorded | src/bakapy-storage/storage.go:155-203 | a well-formed upload for an unfinished task stores the data at the ".gz" path for gzip and appends one entry named without ".gz" |
| LocalStorage.LocalFileStorage.constructor | src/bakapy-storage/storage.go:31-40 | the daemon over its root and store, with no live connection |
| LocalStorage.LocalFileStorage.Remove | src/bakapy-storage/storage.go:121-124 | removes root/namespace/filename from the disk, with the disk's error |
| LocalStorage.LocalFileStorage.ReceiveFile | src/bakapy-storage/storage.go:145-208 | after the task checks: store, disk and result as `Handle` says |
| LocalStorage.LocalFileStorage.SaveContent | src/bakapy-storage/storage.go:189-208 | once the file is created: a content error is returned as "cannot save file: …" with the store unchanged and the file holding the `flushed` bytes; otherwise the file holds the (compressed) content, or the `closeFault` bytes after an ignored flush or close failure, and in both cases the error and store are those of `AddFile` of the entry with the content's size and the end time, the failure of the store's save included |
| LocalStorage.LocalFileStorage.HandleConnection | src/bakapy-storage/storage.go:126-208 | result, store and disk as `Handle` says; the live-connection counter is back where it was |
| MetaStore.View | src/bakapy/metaman.go:129-135 | a record is returned iff the file exists and decodes, and it is the decoding; a missing file gives the "open … no such file" error |
| MetaStore.Remove | src/bakapy/metaman.go:155-157 | succeeds iff the record exists and may be removed, and then only that record is gone; otherwise nothing changes |
| MetaStore.AddFile | src/bakapy-metaman/jsondir_server.go:111-126 | succeeds iff the record reads and the save succeeds; then the record is re-encoded with the entry appended; otherwise nothing changes |
| MetaStore.AddFileThenView | src/bakapy-metaman/jsondir_server.go:117-125 | after `AddFile` the record reads back with the entry last and every other field unchanged |
| MetaStore.Save | src/bakapy/metaman.go:78-112 | succeeds iff no step fails; a failure after the temporary file was created leaves `<id>.inpr` behind |
| MetaStore.SaveThenView | src/bakapy/meta/jsondir.go:85-119 | after a successful save the record decodes to what was saved, no `.inpr` remains, and no other record changes |
| MetaStore.SaveFailureKeepsRecord | src/bakapy/meta/jsondir.go:86-115 | a failed save leaves the previous record readable as before; only the temporary file may differ |
| JsonDir.ViewResult | src/bakapy/meta/jsondir.go:136-142 | no error iff the file exists and decodes, and the record is its decoding; on error the zero record |
| JsonDir.JSONDir.constructor | src/bakapy/meta/jsondir.go:23-29 | an empty lock table over the directory |
| JsonDir.JSONDir.lockId | src/bakapy/meta/jsondir.go:31-40 | the id's entry is created if absent and is now held |
| JsonDir.JSONDir.unLockId | src/bakapy/meta/jsondir.go:42-50 | no entry: panic "id … not locked"; a free entry: the fatal unlock of an unlocked mutex; a held entry: released, and the entry stays |
| JsonDir.JSONDir.get | src/bakapy/meta/jsondir.go:52-70 | the record as the store reads it |
| JsonDir.JSONDir.GetForUpdate | src/bakapy/meta/jsondir.go:72-83 | returns the record; on success the lock stays held; on failure it is released, and the entry stays |
| JsonDir.JSONDir.Save | src/bakapy/meta/jsondir.go:85-119 | the store is the `Save` of the old store; the lock is released on every path when held; an absent or free lock gives the matching panic |
| JsonDir.JSONDir.Keys | src/bakapy/meta/jsondir.go:121-134 | a missing directory panics with "cannot list metadata directory: …"; otherwise every entry, `.inpr` files included, once each, in listing order |
| JsonDir.JSONDir.View | src/bakapy/meta/jsondir.go:136-142 | the pair `ViewResult` gives |
| JsonDir.JSONDir.Add | src/bakapy/meta/jsondir.go:144-152 | a readable record refuses with "metadata for task … already exist", leaves the store unchanged and leaves the lock held; otherwise the record stamped with `id` is saved and the lock released |
| JsonDir.JSONDir.Remove | src/bakapy/meta/jsondir.go:154-159 | deletes `<id>` under its lock (error if absent) and releases the lock |
| JsonDir.JSONDir.CancelUpdate | src/bakapy/meta/jsondir.go:161-163 | only releases the lock, with `unLockId`'s panics |
| JsonDir.CorruptRecordOverwritten | src/bakapy/meta/jsondir.go:136-152 | an undecodable record reads as an error, so `Add` saves over it and it then reads as the new record |
| MetaMan.MetaMan.constructor | src/bakapy/metaman.go:30-36 | an empty lock table over the directory |
| MetaMan.MetaMan.get | src/bakapy/metaman.go:38-50 | the record as the store reads it |
| MetaMan.MetaMan.getForUpdate | src/bakapy/metaman.go:52-71 | returns the record; success holds the lock; failure releases it and deletes its entry |
| MetaMan.MetaMan.save | src/bakapy/metaman.go:78-112 | the store is the `Save` of the old store; the directory exists after a passed mkdir; the lock is released and its entry deleted only after a successful rename |
| MetaMan.MetaMan.Keys | src/bakapy/metaman.go:114-127 | a missing directory panics; otherwise every entry once each, in listing order |
| MetaMan.MetaMan.View | src/bakapy/metaman.go:129-135 | the record, or the zero record and the error |
| MetaMan.MetaMan.Add | src/bakapy/metaman.go:137-144 | a readable record refuses with "already exist" and changes nothing; otherwise the record stamped with `id` is saved, with no lock taken |
| MetaMan.MetaMan.Update | src/bakapy/metaman.go:146-153 | a read failure returns its error and changes nothing; otherwise `up` is applied once to the read record and that is saved; a failed save leaves the id locked |
| MetaMan.MetaMan.Remove | src/bakapy/metaman.go:155-157 | deletes `<id>` without a lock, with an error if absent |
| MetaMan.MetaMan.CancelUpdate | src/bakapy/metaman_rpc_server.go:107-114 | the lock the RPC server cancels is released (the method is not defined in metaman.go) |
| MetaMan.UpdateThenView | src/bakapy/metaman.go:146-153 | after a successful `Update` the record reads as `up` made it and every other record as before |
| MetaRpcServer.UpdateRefusal | src/bakapy/metaman_rpc_server.go:57-78 | the request passes iff both ids are given and non-blank and the connection has no pending update; each refusal has its own message, checked in the source's order |
| MetaRpcServer.MetaRPCServer.constructor | src/bakapy/metaman_rpc_server.go:20-27 | no pending updates |
| MetaRpcServer.MetaRPCServer.Keys | src/bakapy/metaman_rpc_server.go:29-36 | replies with every key the store yields, in yield order; a missing directory panics |
| MetaRpcServer.MetaRPCServer.View | src/bakapy/metaman_rpc_server.go:38-47 | the store's error with no reply, or the record |
| MetaRpcServer.MetaRPCServer.Add | src/bakapy/metaman_rpc_server.go:49-51 | stores under `md.TaskId`, refusing a readable existing record. A refusal changes nothing, the lock table included; after a successful save the id has no lock entry at all, even one another connection's pending update held, and after a failed save the lock table is as before |
| MetaRpcServer.MetaRPCServer.GetForUpdate | src/bakapy/metaman_rpc_server.go:53-88 | a refused request changes nothing; otherwise a readable record is returned, locked and remembered as the connection's pending update; a store error changes nothing |
| MetaRpcServer.MetaRPCServer.Save | src/bakapy/metaman_rpc_server.go:90-99 | no pending entry: " not locked by this connection" (a nil connection id panics) and nothing changes; otherwise the entry is deleted and the record saved under its own `TaskId`, not the pending one |
| MetaRpcServer.MetaRPCServer.Remove | src/bakapy/metaman_rpc_server.go:101-105 | the store's `Remove` |
| MetaRpcServer.MetaRPCServer.CleanupConn | src/bakapy/metaman_rpc_server.go:107-114 | releases the pending task's lock if there is one, and leaves the map entry in place |
| JsonDirServer.Authenticate | src/bakapy-metaman/jsondir_server.go:154-183 | served iff at least 64 bytes were read, they equal the digest and the id was sent; refused with the nil UUID iff 64 bytes were read and they differ; a served connection gets a 36-character id that is not the nil UUID |
| JsonDirServer.ServedOnlyWithDigest | src/bakapy-metaman/jsondir_server.go:154-183 | a served client sent exactly the 64-character digest, and anything after those 64 bytes does not change the decision |
| JsonDirServer.JSONDirServer.constructor | src/bakapy-metaman/jsondir_server.go:28-37 | no pending updates |
| JsonDirServer.JSONDirServer.Keys | src/bakapy-metaman/jsondir_server.go:39-46 | every key of the store, in yield order; a missing directory panics |
| JsonDirServer.JSONDirServer.View | src/bakapy-metaman/jsondir_server.go:48-57 | the store's error with no reply, or the record |
| JsonDirServer.JSONDirServer.Add | src/bakapy-metaman/jsondir_server.go:59-61 | stores under `md.TaskId`, refusing a readable existing record. A refusal leaves the store and its root as they were but the id's lock held for good; otherwise the record is saved and the id's lock released |
| JsonDirServer.JSONDirServer.GetForUpdate | src/bakapy-metaman/jsondir_server.go:63-98 | a refused request changes nothing; otherwise a readable record is returned, held and remembered as the connection's pending update; on a store error nothing is remembered and the id's lock is released, its entry staying |
| JsonDirServer.JSONDirServer.Save | src/bakapy-metaman/jsondir_server.go:100-109 | no pending entry: refused and nothing changes; otherwise the entry is deleted and the record saved under its own `TaskId` |
| JsonDirServer.JSONDirServer.AddFile | src/bakapy-metaman/jsondir_server.go:111-126 | "args.FileMeta required" / "args.TaskId required" with nothing changed; otherwise the record is read under its lock, exactly one entry is appended at the end of `Files`, it is saved and the lock is released; pending updates are never touched |
| JsonDirServer.JSONDirServer.Remove | src/bakapy-metaman/jsondir_server.go:128-132 | the store's `Remove` under the id's lock, which is released afterwards with its entry staying |
| JsonDirServer.JSONDirServer.CleanupConn | src/bakapy-metaman/jsondir_server.go:134-141 | releases the pending task's lock if there is one (panicking as `unLockId` does), and leaves the map entry |
| JsonDirServer.AddFileAgrees | src/bakapy-metaman/jsondir_server.go:111-126 | a fault-free `AddFile` leaves the record as the store's `AddFile` describes |
| Expiry.Paths | src/bakapy-storage/cleaner.go:29-31 | one data path per file entry, in order |
| Expiry.RemovePathsDisk | src/bakapy/cleaner.go:26-33 | every removal is attempted: each listed file that exists and may be removed is gone, and no other file changes |
| Expiry.RemovePathsTolerant | src/bakapy-storage/cleaner.go:28-40 | with "not exist" tolerated, the record is kept iff some listed file exists and may not be removed |
| Expiry.RemovePathsStrict | src/bakapy/cleaner.go:25-33 | strictly, the record is kept iff some listed file is missing, may not be removed, or is listed a second time (the second removal finds it gone) |
| Expiry.SkippedTasks | src/bakapy/cleaner.go:13-20 | an unreadable record and a record that expires after now change nothing; a record expiring exactly now is swept |
| Expiry.ExpiredRecordRemoved | src/bakapy/cleaner.go:34-41 | an expired record is removed iff no file removal failed in a way that keeps it, and no other record changes |
| Expiry.StrictRemovesAll | src/bakapy/cleaner.go:26-41 | strictly, an expired record whose files all exist and may be removed loses every file and the record |
| Expiry.StrictMissingKeepsRecord | src/bakapy/cleaner.go:29-34 | strictly, an already-missing data file keeps the record |
| Expiry.TolerantIgnoresMissing | src/bakapy-storage/cleaner.go:28-48 | tolerantly, an expired record is removed whenever no data file is protected, even if files are missing |
| Cleaner.RemoveTaskFiles | src/bakapy/cleaner.go:25-33 | the loop's disk and `removeErrs` are those of the strict `RemoveFiles` |
| Cleaner.CleanupExpiredJobs | src/bakapy/cleaner.go:10-44 | the store and disk are the strict sweep over the yielded keys, and the result is always nil |
| StorageCleaner.RemoveTaskFiles | src/bakapy-storage/cleaner.go:28-40 | the loop's disk and `removeErrs` are those of the tolerant `RemoveFiles` |
| StorageCleaner.CleanupExpiredJobs | src/bakapy-storage/cleaner.go:12-51 | the store and disk are the tolerant sweep over the yielded keys, and the result is always nil |
| GzipExpiry.GzipOrphaned | src/bakapy-storage/cleaner.go:28-48 | as written: a gzip upload is recorded under the name without ".gz", and the expiry sweep deletes the record and leaves the ".gz" file |
| GzipExpiry.GzipSweptWhenNamed | src/bakapy-storage/storage.go:155-166 | with the stored name recorded, the sweep deletes both the ".gz" file and the record |
| StorageCleanup.Base | src/bakapy/storage_cleanup.go:41 | the final path element: no '/', a suffix of the path, preceded by '/' when shorter |
| StorageCleanup.WalkPartition | src/bakapy/storage_cleanup.go:19-34 | a visited file is quarantined iff it fails to load and loaded iff it loads, never both, and every loaded record is what its file decodes to |
| StorageCleanup.GroupsHold | src/bakapy/storage_cleanup.go:12-32 | a job has a list iff it has loaded records, and the list is exactly its records in walk order |
| StorageCleanup.JobRecords | src/bakapy/storage_cleanup.go:32 | exactly the loaded records of that job |
| StorageCleanup.Insert | src/bakapy/storage_cleanup.go:50 | inserting adds exactly that record |
| StorageCleanup.InsertSorted | src/bakapy/storage_cleanup.go:50 | inserting into records ordered by start time keeps them ordered |
| StorageCleanup.SortByStart | src/bakapy/storage_cleanup.go:50 | the records ordered by start time, as a permutation of the input |
| StorageCleanup.LastIsLatest | src/bakapy/storage_cleanup.go:50-52 | the last record after sorting is one of the job's records and none starts later |
| StorageCleanup.DataPaths | src/bakapy/storage_cleanup.go:61-62 | one data path root/namespace/name per file entry, in order |
| StorageCleanup.CleanRecordsDisk | src/bakapy/storage_cleanup.go:57-67 | cleaning a job's records removes exactly the data files of its expired records, except protected ones |
| StorageCleanup.CleanRecordsMeta | src/bakapy/storage_cleanup.go:57-71 | cleaning a job's records removes exactly the metadata files of its expired records, except protected ones |
| StorageCleanup.SortedTargets | src/bakapy/storage_cleanup.go:50-71 | sorting does not change which files are cleaned |
| StorageCleanup.CleanJobsEffect | src/bakapy/storage_cleanup.go:49-72 | cleaning the jobs removes exactly the data and metadata files of the cleaned jobs' expired records, except protected ones |
| StorageCleanup.Cleanup | src/bakapy/storage_cleanup.go:11-74 | an error is returned iff the quarantine mkdir or the walk fails, and then nothing changes; the mkdir error comes first |
| StorageCleanup.CleanupEffect | src/bakapy/storage_cleanup.go:36-74 | after a successful walk the result is nil and exactly the cleaned records' files go, beyond the quarantine |
| StorageCleanup.RecordFate | src/bakapy/storage_cleanup.go:49-71 | a loaded record's metadata file goes iff it has expired and the last of its job's records after the sort by start time succeeded; then its data files are removed whatever happened to the others (except protected ones) |
| StorageCleanup.RecordFateOrderFree | src/bakapy/storage_cleanup.go:49-71 | when the job's records that share the latest start time agree on success: the record's metadata file goes iff it has expired and those latest records succeeded, whatever order the sort gives equal start times; the data files as in `RecordFate` |
| StorageCleanup.LatestSucceededOrderFree | src/bakapy/storage_cleanup.go:50-53 | when the latest records agree, the job counts as succeeded iff it has records and every latest one succeeded |
| StorageCleanup.LatestSucceededPermutation | src/bakapy/storage_cleanup.go:50-53 | two orders of the same records give the same verdict when the latest records agree |
| StorageCleanup.TieBrokenByWalkOrder | src/bakapy/storage_cleanup.go:50-53 | with two records at the same start time, one succeeded and one failed, the verdict is the one of the record visited last |
| StorageCleanup.RenameAllMoves | src/bakapy/storage_cleanup.go:40-47 | every corrupted file moves to the quarantine under its base name with its content, and no other file changes |
| StorageCleanup.Collect | src/bakapy/storage_cleanup.go:19-38 | the walk's `corrupted` list and per-job lists are `Corrupted` and `Groups` of the visits |
| StorageCleanup.QuarantineCorrupted | src/bakapy/storage_cleanup.go:40-47 | the metadata directory after the loop is the quarantine of the corrupted files |
| StorageCleanup.RemoveDataFiles | src/bakapy/storage_cleanup.go:61-67 | every data file removal is attempted, failures ignored |
| StorageCleanup.CleanJob | src/bakapy/storage_cleanup.go:57-71 | the disk and metadata after the loop are `CleanRecords` of the ordered records |
| StorageCleanup.CleanupExpired | src/bakapy/storage_cleanup.go:11-74 | the result, the disk and the metadata directory are `Cleanup`'s |
| Metadata.Duration | src/bakapy/metadata.go:42-50 | 0 when either end is unset or the start is after the end, otherwise end minus start; never negative |
| Metadata.AvgSpeedBounds | src/bakapy/metadata.go:52-57 | 0 for a duration under one second; otherwise the largest v with v × whole seconds not above the total size |
| Metadata.AvgSpeedExample | src/bakapy/metadata.go:52-57 | 102 MiB in 50 minutes is 35651 bytes per second |
| JobMeta.Duration | src/bakapy/job_metadata.go:48-50 | negative iff the end is before the start, and end minus start within the int64 range |
| JobMeta.ReversedDuration | src/bakapy/job_metadata.go:48-57 | reversed times give a negative duration and, past one second, a speed at most 0 |
| JobMeta.UnsetStartDuration | src/bakapy/job_metadata.go:48-50 | an unset start gives a positive duration, not 0 |
| JobMeta.AvgSpeedExample | src/bakapy/job_metadata.go:52-57 | 102 MiB in 50 minutes is 35651 bytes per second |
| JobMeta.AvgSpeedSubSecond | src/bakapy/job_metadata.go:52-55 | under one second in either direction the speed is 0 |
| JobMeta.LoadJobMetadata | src/bakapy/job_metadata.go:80-91 | a missing file is a "not exist" error; success iff the file decodes, and the record is its decoding |
| JobMeta.LoadAfterSave | src/bakapy/job_metadata.go:59-91 | loading what a successful `Save` wrote gives the record back, and other files are unchanged |
| JobMeta.LoadAfterFailedWrite | src/bakapy/job_metadata.go:73-76 | after a failed write the file no longer loads |
| JobMeta.MetadataFiles.Save | src/bakapy/job_metadata.go:59-78 | the error of the first failing step, and the files as `AfterSave` says |
| Config.SchedulerString | src/bakapy/config.go:42-55 | an empty `Second` becomes "0" in the receiver and nothing else changes; the string is the six fields of the updated receiver joined by single spaces, and when no field contains a space it splits back into them |
| Config.DaysToDuration | src/bakapy/config.go:80 | days × 24h within the range where int64 does not wrap |
| Config.Sanitize | src/bakapy/config.go:73-83 | fails iff both settings are non-zero, with the "both max_age and max_age_days defined" message; otherwise only `MaxAge` can change: unchanged when `MaxAgeDays` is 0, else days × 24h |
| Config.SanitizedRetention | src/bakapy/config.go:79-81 | a sanitized retention in range is days × 24h and non-zero, so sanitizing twice fails |
| Config.RetentionWraps | src/bakapy/config.go:80 | 106752 days wraps to a negative retention |
| Config.BothDefinedExample | src/bakapy/config.go:74-78 | a job with 20m and 15 days is refused, and the message shows "20m0s" and "15" |
| Config.DefinedAt | src/bakapy/config.go:106-133 | the recorded names are exactly those of the include files |
| Config.DefinedAtOrigin | src/bakapy/config.go:124-131 | without duplicates, each name is recorded against the file that defines it |
| Config.DuplicateWitness | src/bakapy/config.go:124-130 | a name seen in an earlier file makes the list one with duplicates |
| Config.MergeStep | src/bakapy/config.go:114-134 | once all of file k's names are recorded, the merge has taken file k |
| Config.AddIncludeFile | src/bakapy/config.go:124-133 | succeeds iff none of the file's names was defined before; then all its names are recorded against its path and its jobs override; otherwise the error names the file, the job and the earlier path |
| Config.MergeIncludes | src/bakapy/config.go:106-135 | succeeds iff no name is in two include files; then the main jobs are overridden by the includes; otherwise the duplicate error with the first path |
| Config.SanitizeJobs | src/bakapy/config.go:137-142 | succeeds iff every job sanitizes, with the same names and each sanitized job; otherwise "job <name>: …" for a failing job |
| Config.ParseJobs | src/bakapy/config.go:106-144 | succeeds iff the includes have no duplicates and every merged job sanitizes; the result is the sanitized merge |
| BashExecutor.CmdArgs | src/bakapy/bash_executor.go:49-63 | ssh, host, "-oBatchMode=yes", "-p", port, command for a host; bash, "-c", command otherwise |
| BashExecutor.BashExecutor.constructor | src/bakapy/bash_executor.go:21-29 | the executor's fields |
| BashExecutor.BashExecutor.GetCmd | src/bakapy/bash_executor.go:31-76 | port 0 becomes 22 in the executor, other ports stay; the lookup's error is returned with no command; otherwise the command is the looked-up path with `args[0]` replaced by it, built from the environment of `len(Args)` blanks and the assignments |
| BashExecutor.EnvOrderFree | src/bakapy/bash_executor.go:34-37 | any two orders of the arguments give the same blanks and the same multiset of NAME='value' items |
| BashExecutor.JoinBlanks | src/bakapy/bash_executor.go:46 | joining leading blanks puts one space per blank in front |
| BashExecutor.RemoteCmdShape | src/bakapy/bash_executor.go:43-47 | the command is an optional "sudo ", one space per argument, the assignments, then " /bin/bash" |
| BashExecutor.AssignmentExample | src/bakapy/bash_executor.go:36 | `test` = "oneone" becomes TEST='oneone' |
| BashExecutor.RemoteCmdNoArgs | src/bakapy/bash_executor.go:43-47 | with no arguments the command is " /bin/bash" |
| BashExecutor.EnvOneArg | src/bakapy/bash_executor.go:33-37 | one argument gives ["", "TEST='oneone'"] |
| BashExecutor.JoinedOneArg | src/bakapy/bash_executor.go:46 | which joins to " TEST='oneone'" |
| BashExecutor.RemoteCmdOneArg | src/bakapy/bash_executor.go:43-47 | " TEST='oneone' /bin/bash", and "sudo  TEST='oneone' /bin/bash" with sudo |
| Rendering.RenderedAppend | src/bakapy/notificator.go:56-58 | rendering two runs of keys one after the other concatenates their renderings |
| Rendering.RenderedPermute | src/bakapy/notificator.go:56-58 | two orders with the same multiset of keys render the same multiset |
| Rendering.RenderedOrderFree | src/bakapy/bash_executor.go:34-37 | any two visiting orders of a map's keys render the same multiset |
| Rendering.RenderedHasAll | src/bakapy/notificator.go:56-58 | item i is the rendering of the i-th visited key |
| Rendering.KeyCount | src/bakapy/notificator.go:56 | a visiting order has one position per key |
| Notificator.Name | src/bakapy/notificator.go:63-65 | the configured name |
| Notificator.JobFinished | src/bakapy/notificator.go:34-61 | a failed script lookup gives "cannot get script NAME: E" and runs nothing; otherwise the script runs with the inherited environment, the six task variables, then one variable per parameter |
| Notificator.RunEnvironment | src/bakapy/notificator.go:45-58 | the inherited variables come first. SUCCESS is "1" iff the run succeeded and "0" iff it failed. JOBNAME, TASKID and MESSAGE follow verbatim in that order. Every parameter appears as BAKAPY_PARAM_<KEY>=value after the six |
| Notificator.ParamOrderFree | src/bakapy/notificator.go:56-58 | the environment is the same multiset whatever order the parameters are visited in |

## Left out

- Sockets, accept loops, `Serve`/`Listen`/`Start`, `rpc.ServeConn` and the graceful `Shutdown` race: network and concurrency. Only the handshake decision of the metadata daemon is modelled.
- Goroutines, channels and real mutex waiting. `Keys` channels are sequences; `FileAddChan` is the `sent` sequence; a blocking lock is a precondition that it is free.
- Logging, and the logger renaming in `ReadTaskId`.
- The RPC clients, job execution over ssh, `BashExecutor.Execute`, the script pool, and the mail and temp-dir helpers: process and network I/O outside the core.
- JSON, gzip, SHA-256 and UUID generation are opaque. JSON round-trips; gzip decompresses what it compressed. The digest of the secret and the fresh connection id are parameters. `json.Marshal` is taken never to fail.
- `path.Join` cleaning is not modelled: paths are joined with "/" after dropping empty parts, and ids or names holding "/" or ".." are not normalised.
- Directory listing, `filepath.Walk` and map iteration: their order is the `dir`, `walk` and `order` parameters, so results hold for every order. The order Go would use is not modelled.
- `sort.Sort` is not stable, so records with equal start times may be ordered either way. The model's sort is an insertion sort that keeps equal records in walk order. Only that the list is sorted and a permutation of the job's records is proved for every order.
- RecordFate (`StorageCleanup.RecordFate`, and with it `CleanJobs`, `Cleanup`, `CleanupEffect`): when several of a job's records share the latest start time and disagree on success, the tie is broken by walk order (`TieBrokenByWalkOrder`). That matches Go only where its sort keeps equal records in input order. `RecordFateOrderFree` states the fate that holds for every order, under the hypothesis that the latest records agree.
- `exec.LookPath`, the notification script's path lookup, the script's exit, and `os.Remove` of the temporary script are parameters or are not modelled. `runErr` is how the script ends.
- `JOB_FINISH` is not defined anywhere in the repository's Go code; it is the `jobFinish` parameter.
- `MetadataSortByStartTime` is not defined anywhere in the repository's Go code; it is taken to sort ascending by start time.
- A failed write leaves an empty file, not part of the encoding. Both fail to decode, which is all the code depends on.
- `uint` ports are naturals. `strconv.FormatInt(int64(e.Port), 10)` in bash_executor.go would print a port of 2^63 or more as a negative number; the model prints the natural.
- `MetaMan.MetaMan.CancelUpdate`: metaman.go defines no such method, although the RPC server calls one. It is modelled as the release of the lock.
- The two `LocalFileStorage` and `StorageConn` classes follow the code as written: the negative-length panic and the gzip name stay. The corrected definitions are the `Checked`/`Corrected` functions, and the properties are proved about them.
- The front-end scripts, the YAML-only configuration files and the entry points, as outside the core. The YAML unmarshal of `ParseConfig` is replaced by the parsed main jobs and include files.
- Floating point: `Duration.Seconds()` is truncated to whole seconds in integers, as the `int64` conversion does.
- StorageConnection.NegativeLengthPanics: stated for the header "-001" only, not for every negative header.
- ToUpper (`Text.ToUpper`): upper-cases the ASCII letters `a`-`z` only, whereas `strings.ToUpper` maps every Unicode letter that has an upper case; for an argument or parameter named "é" Go writes "É" and the model "é".
- EnvAssignment (`BashExecutor.EnvAssignment`): the NAME part is upper-cased by `ToUpper`, so it has the same ASCII-only gap.
- GetCmd (`BashExecutor.BashExecutor.GetCmd`): the assignment names it builds inherit the ASCII-only upper-casing of `ToUpper`.
- ParamVar (`Notificator.ParamVar`): the `<KEY>` of `BAKAPY_PARAM_<KEY>` is upper-cased by `ToUpper`, ASCII letters only.
- RunEnvironment (`Notificator.RunEnvironment`): the `BAKAPY_PARAM_<KEY>` variables it states inherit the ASCII-only upper-casing of `ToUpper`.
- The bytes on disk after a failed content copy are the `flushed` input, and the bytes after an ignored flush or close failure are the `closeFault` input (`StorageConn.SaveFile`, `LegacyStorage.Handle`, `LocalStorage.Handle`, `LocalFileStorage.SaveContent`). Neither is derived: how much the buffered writer and the gzip writer had passed on depends on buffer sizes and on `ReadFrom`, which are not modelled. So the model does not promise that these bytes are a prefix of what was received.
- The three sweeps (src/bakapy/cleaner.go, src/bakapy-storage/cleaner.go, src/bakapy/storage_cleanup.go) read `time.Now()` anew for each record; `Expiry.Sweep`, `Cleaner.CleanupExpiredJobs`, `StorageCleaner.CleanupExpiredJobs` and `StorageCleanup.CleanupExpired` use one `now` for the whole pass, so a record that expires while the pass runs is not modelled.

## Findings

| source | as written | input that shows it | evidently intended | confidence | as-written member | corrected member |
|---|---|---|---|---|---|---|
| src/bakapy/storage_conn.go:101-106 | the 4-byte length header goes through `strconv.ParseInt`, which accepts a sign, and then `make([]byte, n)` panics on a negative n, ending the daemon | a filename header "-001" | a negative length refused as a malformed header with an error | not executed | StorageConnection.NegativeLengthPanics | StorageConnection.CheckedFrameNeverPanics |
| src/bakapy-storage/storage.go:155-166 | the data of a gzip task is stored as `name.gz`, but the entry records `name`; the expiry sweep (src/bakapy-storage/cleaner.go:28-48) gets "not exist" for `name`, counts it as removed and deletes the record, orphaning `name.gz` | an upload of "f" to a gzip task, then a sweep after it expires | the entry records the stored name, so the sweep removes the data file and the record | not executed | GzipExpiry.GzipOrphaned | GzipExpiry.GzipSweptWhenNamed |
| src/bakapy/job_metadata.go:48-50 | `JobMetadata.Duration` is `EndTime.Sub(StartTime)` with no guard, so reversed times give a negative duration, while its tests expect 0 | a start one hour after the end | 0 for reversed or unset times, as `Metadata.Duration` does | not executed | JobMeta.ReversedDuration | Metadata.Duration |

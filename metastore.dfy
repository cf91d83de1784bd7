/** The metadata store as its users see it through the `MetaManager`
    interface (src/bakapy/metaman.go:15-21) and the `AddFile` call the
    storage daemon makes on it: one record per task id, stored encoded, so
    that a record can be unreadable; removal can be refused. */
module MetaStore {
  import opened Common
  import opened Codec
  import opened Disk
  import opened Metadata

  /** The records by task id, the directory they live in (for error
      messages), and the ids whose record may not be removed. */
  datatype Store = Store(root: string, records: map<TaskId, Blob<Metadata>>, pinned: set<TaskId>)

  function RecordPath(s: Store, id: TaskId): string {
    JoinPath([s.root, id])
  }

  /** `View(id)`: the decoded record, or why there is none. */
  function View(s: Store, id: TaskId): (r: Result<Metadata>)
    ensures id !in s.records ==> r == Err(NoSuchFile("open", RecordPath(s, id)))
    ensures r.Ok? <==> id in s.records && s.records[id].Encoded?
    ensures r.Ok? ==> s.records[id] == Encode(r.value)
  {
    if id !in s.records then Err(NoSuchFile("open", RecordPath(s, id))) else Decode(s.records[id])
  }

  /** `Remove(id)`: delete the record; a missing one is a "not exist"
      error, a pinned one a permission error. */
  function Remove(s: Store, id: TaskId): (r: (Option<Error>, Store))
    ensures r.0.None? <==> id in s.records && id !in s.pinned
    ensures r.0.None? ==> r.1 == s.(records := s.records - {id})
    ensures r.0.Some? ==> r.1 == s
  {
    if id !in s.records then (Some(NoSuchFile("remove", RecordPath(s, id))), s)
    else if id in s.pinned then (Some(Other("remove " + RecordPath(s, id) + ": permission denied")), s)
    else (None, s.(records := s.records - {id}))
  }

  /** `AddFile(id, entry)`: read the record, append the entry to its files
      and save it; `saveErr` is the failure of the save, if any. */
  function AddFile(s: Store, id: TaskId, entry: FileEntry, saveErr: Option<Error>): (r: (Option<Error>, Store))
    ensures r.0.None? <==> View(s, id).Ok? && saveErr.None?
    ensures r.0.None? ==> r.1 == s.(records := s.records[id := Encode(View(s, id).value.(Files := View(s, id).value.Files + [entry]))])
    ensures r.0.Some? ==> r.1 == s
  {
    match View(s, id)
    case Err(e) => (Some(e), s)
    case Ok(md) =>
      if saveErr.Some? then (saveErr, s)
      else (None, s.(records := s.records[id := Encode(md.(Files := md.Files + [entry]))]))
  }

  /** After `AddFile` succeeds the record reads back with the entry last
      and every other field as it was. */
  lemma AddFileThenView(s: Store, id: TaskId, entry: FileEntry)
    requires View(s, id).Ok?
    ensures var after := AddFile(s, id, entry, None).1;
            View(after, id).Ok? &&
            View(after, id).value.Files == View(s, id).value.Files + [entry] &&
            View(after, id).value.(Files := []) == View(s, id).value.(Files := [])
  {
    var md := View(s, id).value;
    DecodeEncode(md.(Files := md.Files + [entry]));
  }

  /** What can go wrong in each step of saving a record: creating the
      directory, creating the temporary file, writing the encoding into
      it, renaming it onto the record. */
  datatype StoreFaults = StoreFaults(mkdir: Option<Error>, create: Option<Error>, write: Option<Error>, rename: Option<Error>)

  const NoFaults := StoreFaults(None, None, None, None)

  /** The temporary file a record is written to before the rename. */
  function TmpName(id: TaskId): string {
    id + ".inpr"
  }

  /** Saving `md` as the record of `id`: create `<id>.inpr`, write the
      encoding into it, rename it onto `<id>`. The error is that of the
      first step that fails. */
  function Save(s: Store, id: TaskId, md: Metadata, f: StoreFaults): (r: (Option<Error>, Store))
    ensures r.0.None? <==> f == NoFaults
    ensures r.1.root == s.root && r.1.pinned == s.pinned
    // a failure after the temporary file was created leaves it behind
    ensures f.mkdir.None? && f.create.None? && r.0.Some? ==> TmpName(id) in r.1.records
  {
    if f.mkdir.Some? then (f.mkdir, s)
    else if f.create.Some? then (f.create, s)
    else
      var tmp := TmpName(id);
      if f.write.Some? then (f.write, s.(records := s.records[tmp := Raw([])]))
      else if f.rename.Some? then (f.rename, s.(records := s.records[tmp := Encode(md)]))
      else (None, s.(records := (s.records - {tmp})[id := Encode(md)]))
  }

  /** After a successful save the record reads back as saved, no
      temporary file is left, and no other record changes. */
  lemma SaveThenView(s: Store, id: TaskId, md: Metadata)
    ensures var r := Save(s, id, md, NoFaults);
            View(r.1, id) == Ok(md) && TmpName(id) !in r.1.records &&
            forall k :: k != id && k != TmpName(id) ==> View(r.1, k) == View(s, k)
  {
    DecodeEncode(md);
    assert |TmpName(id)| == |id| + 5;
  }

  /** A failed save leaves the record as it was; only the temporary file
      may have changed. */
  lemma SaveFailureKeepsRecord(s: Store, id: TaskId, md: Metadata, f: StoreFaults)
    requires f != NoFaults
    ensures var r := Save(s, id, md, f);
            r.0.Some? && View(r.1, id) == View(s, id) &&
            forall k :: k != TmpName(id) ==>
              ((k in r.1.records <==> k in s.records) && (k in s.records ==> r.1.records[k] == s.records[k]))
  {
    assert |TmpName(id)| == |id| + 5;
  }

  /** `dir` names every entry of the directory exactly once, as a
      directory listing does. */
  ghost predicate IsListing(s: Store, dir: seq<string>) {
    (forall k :: k in dir <==> k in s.records) &&
    (forall i, j :: 0 <= i < j < |dir| ==> dir[i] != dir[j])
  }
}

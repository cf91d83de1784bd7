/** The part of the file system the storage daemons write data files to:
    a map from path to content, and the paths the process may not remove
    (a permission error). Directory creation and file creation failures
    are parameters of the operations that do them. */
module Disk {
  import opened Common
  import opened Text

  function NonEmpty(parts: seq<string>): (r: seq<string>)
    ensures forall i :: 0 <= i < |r| ==> r[i] != ""
  {
    if parts == [] then []
    else if parts[0] == "" then NonEmpty(parts[1..])
    else [parts[0]] + NonEmpty(parts[1..])
  }

  /** `path.Join`: the non-empty elements joined by "/" (the cleaning of
      ".", ".." and repeated slashes is not modelled). */
  function JoinPath(parts: seq<string>): string {
    Join(NonEmpty(parts), "/")
  }

  /** Dropping the empty elements keeps a non-empty last one. */
  lemma {:induction false} NonEmptySnoc(parts: seq<string>, last: string)
    requires last != ""
    ensures NonEmpty(parts + [last]) == NonEmpty(parts) + [last]
  {
    if parts != [] {
      assert (parts + [last])[1..] == parts[1..] + [last];
      NonEmptySnoc(parts[1..], last);
    }
  }

  /** Text added to a non-empty last element ends up at the end of the
      joined path. */
  lemma JoinPathExtendLast(dirs: seq<string>, name: string, x: string)
    requires name != ""
    ensures JoinPath(dirs + [name + x]) == JoinPath(dirs + [name]) + x
  {
    NonEmptySnoc(dirs, name);
    NonEmptySnoc(dirs, name + x);
    JoinExtendLast(NonEmpty(dirs), name, x, "/");
  }

  datatype DiskState = DiskState(files: map<string, seq<byte>>, locked: set<string>)

  function NoSuchFile(op: string, path: string): Error {
    NotExist(op + " " + path + ": no such file or directory")
  }

  /** `os.Remove(path)` on a file: a missing file is a "not exist" error, a
      locked one a permission error, any other is deleted. */
  function Remove(d: DiskState, path: string): (r: (Option<Error>, DiskState))
    ensures r.0.None? <==> path in d.files && path !in d.locked
    ensures r.0.Some? ==> r.1 == d
    ensures r.0.Some? && r.0.value.NotExist? <==> path !in d.files
    ensures r.0.None? ==> r.1 == d.(files := d.files - {path})
  {
    if path !in d.files then (Some(NoSuchFile("remove", path)), d)
    else if path in d.locked then (Some(Other("remove " + path + ": permission denied")), d)
    else (None, d.(files := d.files - {path}))
  }

  /** `os.IsNotExist(err)`. */
  predicate IsNotExist(e: Error) {
    e.NotExist?
  }
}

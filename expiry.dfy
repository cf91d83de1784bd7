/** What the two expiry sweeps over the metadata store do
    (src/bakapy-storage/cleaner.go and src/bakapy/cleaner.go): for each
    key, read the record; for an expired one remove its data files, then
    remove the record unless a file removal failed. They differ only in
    whether a file that is already gone counts as a failure (`tolerant`
    says it does not). */
module Expiry {
  import opened Common
  import opened Disk
  import opened Metadata
  import opened MetaStore

  /** Where a file entry's data lives: `path.Join(root, namespace, name)`. */
  function FilePath(root: string, ns: string, f: FileEntry): string {
    JoinPath([root, ns, f.Name])
  }

  /** The data paths of a record's entries, in order. */
  function Paths(root: string, ns: string, files: seq<FileEntry>): (p: seq<string>)
    ensures |p| == |files|
    ensures forall i :: 0 <= i < |files| ==> p[i] == FilePath(root, ns, files[i])
    decreases |files|
  {
    if files == [] then [] else Paths(root, ns, files[..|files|-1]) + [FilePath(root, ns, files[|files|-1])]
  }

  /** Whether a failed file removal keeps the record. */
  predicate Blocks(e: Error, tolerant: bool) {
    !(tolerant && IsNotExist(e))
  }

  /** `storage.Remove` of each path in order, carrying on past failures:
      the disk afterwards, and whether a failure that keeps the record
      happened (`removeErrs`). */
  function RemovePaths(d: DiskState, ps: seq<string>, tolerant: bool): (r: (DiskState, bool))
    decreases |ps|
  {
    if ps == [] then (d, false)
    else
      var prev := RemovePaths(d, ps[..|ps|-1], tolerant);
      var rm := Disk.Remove(prev.0, ps[|ps|-1]);
      (rm.1, prev.1 || (rm.0.Some? && Blocks(rm.0.value, tolerant)))
  }

  /** The removal of every data file of a record. */
  function RemoveFiles(d: DiskState, root: string, ns: string, files: seq<FileEntry>, tolerant: bool)
    : (DiskState, bool)
  {
    RemovePaths(d, Paths(root, ns, files), tolerant)
  }

  /** The paths of one more entry are the earlier paths and its own. */
  lemma PathsSnoc(root: string, ns: string, files: seq<FileEntry>, i: nat)
    requires i < |files|
    ensures Paths(root, ns, files[..i + 1]) == Paths(root, ns, files[..i]) + [FilePath(root, ns, files[i])]
  {
    assert files[..i + 1][..i] == files[..i];
  }

  /** Removing one more path continues from where the earlier removals
      left the disk and the failure flag. */
  lemma RemovePathsSnoc(d: DiskState, ps: seq<string>, p: string, tolerant: bool)
    ensures var prev := RemovePaths(d, ps, tolerant);
            var rm := Disk.Remove(prev.0, p);
            RemovePaths(d, ps + [p], tolerant) == (rm.1, prev.1 || (rm.0.Some? && Blocks(rm.0.value, tolerant)))
  {
    assert (ps + [p])[..|ps|] == ps;
  }

  /** A sweep over one more key continues from the earlier sweep. */
  lemma SweepSnoc(s: Store, d: DiskState, root: string, keys: seq<TaskId>, k: nat, now: Time, tolerant: bool)
    requires k < |keys|
    ensures var prev := Sweep(s, d, root, keys[..k], now, tolerant);
            Sweep(s, d, root, keys[..k + 1], now, tolerant) == SweepTask(prev.0, prev.1, root, keys[k], now, tolerant)
  {
    assert keys[..k + 1][..k] == keys[..k];
  }

  /** Every data file that exists and may be removed is removed, and
      nothing else on the disk changes. */
  lemma {:induction false} RemovePathsDisk(d: DiskState, ps: seq<string>, tolerant: bool)
    ensures var r := RemovePaths(d, ps, tolerant);
            r.0.locked == d.locked &&
            (forall q :: q in r.0.files <==> q in d.files && !(q in ps && q !in d.locked)) &&
            (forall q :: q in r.0.files ==> r.0.files[q] == d.files[q])
    decreases |ps|
  {
    if ps != [] {
      var n := |ps| - 1;
      RemovePathsDisk(d, ps[..n], tolerant);
      assert ps == ps[..n] + [ps[n]];
    }
  }

  /** Tolerant removal: a failure that keeps the record happened exactly
      when some data file exists but may not be removed. */
  lemma {:induction false} RemovePathsTolerant(d: DiskState, ps: seq<string>)
    ensures RemovePaths(d, ps, true).1 <==> exists i :: 0 <= i < |ps| && ps[i] in d.files && ps[i] in d.locked
    decreases |ps|
  {
    if ps != [] {
      var n := |ps| - 1;
      var earlier := ps[..n];
      RemovePathsTolerant(d, earlier);
      RemovePathsDisk(d, earlier, true);
      var prev := RemovePaths(d, earlier, true);
      var rm := Disk.Remove(prev.0, ps[n]);
      assert (rm.0.Some? && Blocks(rm.0.value, true)) <==> ps[n] in d.files && ps[n] in d.locked;
      if exists i :: 0 <= i < |ps| && ps[i] in d.files && ps[i] in d.locked {
        var i :| 0 <= i < |ps| && ps[i] in d.files && ps[i] in d.locked;
        if i < n {
          assert earlier[i] == ps[i];
        }
      }
    }
  }

  /** Strict removal: a failure that keeps the record happened exactly
      when some data file is missing, may not be removed, or is listed
      again after an earlier entry. */
  lemma {:induction false} RemovePathsStrict(d: DiskState, ps: seq<string>)
    ensures RemovePaths(d, ps, false).1 <==>
              exists i :: 0 <= i < |ps| && (ps[i] !in d.files || ps[i] in d.locked || ps[i] in ps[..i])
    decreases |ps|
  {
    if ps != [] {
      var n := |ps| - 1;
      var earlier := ps[..n];
      RemovePathsStrict(d, earlier);
      RemovePathsDisk(d, earlier, false);
      var prev := RemovePaths(d, earlier, false);
      var rm := Disk.Remove(prev.0, ps[n]);
      assert (rm.0.Some? && Blocks(rm.0.value, false)) <==>
             ps[n] !in d.files || ps[n] in d.locked || ps[n] in ps[..n];
      if exists i :: 0 <= i < |ps| && (ps[i] !in d.files || ps[i] in d.locked || ps[i] in ps[..i]) {
        var i :| 0 <= i < |ps| && (ps[i] !in d.files || ps[i] in d.locked || ps[i] in ps[..i]);
        if i < n {
          assert earlier[i] == ps[i] && earlier[..i] == ps[..i];
        }
      }
      if prev.1 {
        var i :| 0 <= i < |earlier| && (earlier[i] !in d.files || earlier[i] in d.locked || earlier[i] in earlier[..i]);
        assert ps[i] == earlier[i] && ps[..i] == earlier[..i];
      }
    }
  }

  /** The sweep's treatment of one key. */
  function SweepTask(s: Store, d: DiskState, root: string, id: TaskId, now: Time, tolerant: bool)
    : (r: (Store, DiskState))
  {
    match View(s, id)
    case Err(_) => (s, d)
    case Ok(md) =>
      if md.ExpireTime > now then (s, d)
      else
        var rf := RemoveFiles(d, root, md.Namespace, md.Files, tolerant);
        if rf.1 then (s, rf.0) else (MetaStore.Remove(s, md.TaskId).1, rf.0)
  }

  /** The sweep over the keys the store yields, in order. */
  function Sweep(s: Store, d: DiskState, root: string, keys: seq<TaskId>, now: Time, tolerant: bool)
    : (r: (Store, DiskState))
    decreases |keys|
  {
    if keys == [] then (s, d)
    else
      var prev := Sweep(s, d, root, keys[..|keys|-1], now, tolerant);
      SweepTask(prev.0, prev.1, root, keys[|keys|-1], now, tolerant)
  }

  /** A key whose record cannot be read, or whose record expires after
      `now`, changes nothing; a record that expires exactly at `now` is
      expired. */
  lemma SkippedTasks(s: Store, d: DiskState, root: string, id: TaskId, now: Time, tolerant: bool)
    ensures View(s, id).Err? ==> SweepTask(s, d, root, id, now, tolerant) == (s, d)
    ensures View(s, id).Ok? && View(s, id).value.ExpireTime > now ==> SweepTask(s, d, root, id, now, tolerant) == (s, d)
    ensures View(s, id).Ok? && View(s, id).value.ExpireTime == now ==>
              SweepTask(s, d, root, id, now, tolerant).1 ==
                RemoveFiles(d, root, View(s, id).value.Namespace, View(s, id).value.Files, tolerant).0
  {
  }

  /** For an expired record (stored under its own task id, removable),
      the record goes away exactly when no file removal failed in a way
      that keeps it. */
  lemma ExpiredRecordRemoved(s: Store, d: DiskState, root: string, id: TaskId, now: Time, tolerant: bool)
    requires View(s, id).Ok? && View(s, id).value.ExpireTime <= now
    requires View(s, id).value.TaskId == id && id !in s.pinned
    ensures var md := View(s, id).value;
            var r := SweepTask(s, d, root, id, now, tolerant);
            (id in r.0.records <==> RemoveFiles(d, root, md.Namespace, md.Files, tolerant).1) &&
            (forall k :: k != id ==> (k in r.0.records <==> k in s.records))
  {
  }

  /** Every path is on the disk, may be removed, and is listed once. */
  predicate Removable(d: DiskState, ps: seq<string>) {
    forall i :: 0 <= i < |ps| ==> ps[i] in d.files && ps[i] !in d.locked && ps[i] !in ps[..i]
  }

  /** Strict sweep: an expired record whose data files all exist, are
      removable and are distinct loses every file and the record. */
  lemma StrictRemovesAll(s: Store, d: DiskState, root: string, id: TaskId, now: Time)
    requires View(s, id).Ok? && View(s, id).value.ExpireTime <= now
    requires View(s, id).value.TaskId == id && id !in s.pinned
    requires Removable(d, Paths(root, View(s, id).value.Namespace, View(s, id).value.Files))
    ensures var md := View(s, id).value;
            var r := SweepTask(s, d, root, id, now, false);
            id !in r.0.records &&
            (forall i :: 0 <= i < |md.Files| ==> FilePath(root, md.Namespace, md.Files[i]) !in r.1.files)
  {
    var md := View(s, id).value;
    var ps := Paths(root, md.Namespace, md.Files);
    RemovePathsDisk(d, ps, false);
    RemovePathsStrict(d, ps);
    assert SweepTask(s, d, root, id, now, false) == (MetaStore.Remove(s, id).1, RemovePaths(d, ps, false).0);
    forall i | 0 <= i < |md.Files|
      ensures FilePath(root, md.Namespace, md.Files[i]) !in SweepTask(s, d, root, id, now, false).1.files
    {
      assert ps[i] in ps;
    }
  }

  /** Strict sweep: a data file already missing keeps the record. */
  lemma StrictMissingKeepsRecord(s: Store, d: DiskState, root: string, id: TaskId, now: Time, i: nat)
    requires View(s, id).Ok? && View(s, id).value.ExpireTime <= now
    requires i < |View(s, id).value.Files|
    requires FilePath(root, View(s, id).value.Namespace, View(s, id).value.Files[i]) !in d.files
    ensures SweepTask(s, d, root, id, now, false).0 == s
  {
    var md := View(s, id).value;
    RemovePathsStrict(d, Paths(root, md.Namespace, md.Files));
    assert Paths(root, md.Namespace, md.Files)[i] !in d.files;
  }

  /** Tolerant sweep: missing data files do not keep the record; only a
      file that exists and may not be removed does. */
  lemma TolerantIgnoresMissing(s: Store, d: DiskState, root: string, id: TaskId, now: Time)
    requires View(s, id).Ok? && View(s, id).value.ExpireTime <= now
    requires View(s, id).value.TaskId == id && id !in s.pinned
    requires var md := View(s, id).value;
             forall i :: 0 <= i < |md.Files| ==> FilePath(root, md.Namespace, md.Files[i]) !in d.locked
    ensures id !in SweepTask(s, d, root, id, now, true).0.records
  {
    var md := View(s, id).value;
    RemovePathsTolerant(d, Paths(root, md.Namespace, md.Files));
  }
}

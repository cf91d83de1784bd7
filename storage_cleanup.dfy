/** The expiry sweep of the legacy storage over its metadata directory
    (src/bakapy/storage_cleanup.go): metadata files that do not load are
    moved aside to a quarantine directory; the others are grouped by job,
    each group ordered by start time, and a job whose latest task failed
    is left alone; every expired record of the other jobs loses its data
    files and its metadata file, whatever the removals report. */
module StorageCleanup {
  import opened Common
  import opened Codec
  import opened Disk
  import opened JobMeta
  import opened Expiry
  import LegacyStorage

  /** What the directory walk visits: a path, and whether it is a
      directory. */
  datatype Visit = Visit(path: string, isDir: bool)

  /** A loaded record together with the metadata file it came from (the
      `Filepath` the walk sets on it). */
  datatype Loaded = Loaded(Filepath: string, md: JobMetadata)

  /** The final element of a path, as `path.Split` gives it. */
  function Base(p: string): (b: string)
    ensures '/' !in b
    ensures |b| <= |p| && b == p[|p| - |b|..]
    ensures |b| < |p| ==> p[|p| - |b| - 1] == '/'
  {
    if p == [] || p[|p| - 1] == '/' then [] else Base(p[..|p| - 1]) + [p[|p| - 1]]
  }

  /** Where a corrupted metadata file is moved:
      `path.Join(MetadataDir + "_corrupted", base)`. */
  function QuarantinePath(metadataDir: string, p: string): string {
    JoinPath([metadataDir + "_corrupted", Base(p)])
  }

  /** `os.Remove` on a metadata file, its error ignored. */
  function RemoveMeta(m: MetaDir, p: string): MetaDir {
    if p in m.files && p !in m.locked then m.(files := m.files - {p}) else m
  }

  /** `os.Rename(src, dst)` on a metadata file, its error ignored. */
  function RenameMeta(m: MetaDir, src: string, dst: string): MetaDir {
    if src in m.files && src !in m.locked then m.(files := (m.files - {src})[dst := m.files[src]]) else m
  }

  // The walk

  /** The files the walk visits whose metadata does not load, in order. */
  function Corrupted(files: map<string, Blob<JobMetadata>>, visits: seq<Visit>): seq<string>
    decreases |visits|
  {
    if visits == [] then []
    else
      var v := visits[|visits| - 1];
      Corrupted(files, visits[..|visits| - 1]) +
        (if !v.isDir && LoadJobMetadata(files, v.path).Err? then [v.path] else [])
  }

  /** The records the walk loads, in order. */
  function Loads(files: map<string, Blob<JobMetadata>>, visits: seq<Visit>): seq<Loaded>
    decreases |visits|
  {
    if visits == [] then []
    else
      var v := visits[|visits| - 1];
      var md := LoadJobMetadata(files, v.path);
      Loads(files, visits[..|visits| - 1]) +
        (if !v.isDir && md.Ok? then [Loaded(v.path, md.value)] else [])
  }

  /** `jobMetadataList`: the records appended, in order, to the list of
      their job's name. */
  function Groups(recs: seq<Loaded>): map<string, seq<Loaded>>
    decreases |recs|
  {
    if recs == [] then map[]
    else
      var g := Groups(recs[..|recs| - 1]);
      var r := recs[|recs| - 1];
      var name := r.md.JobName;
      g[name := (if name in g then g[name] else []) + [r]]
  }

  /** Every visited file is either loaded, under its own path, or
      quarantined, and never both. */
  lemma {:induction false} WalkPartition(files: map<string, Blob<JobMetadata>>, visits: seq<Visit>, p: string)
    ensures p in Corrupted(files, visits) <==>
              (exists i :: 0 <= i < |visits| && visits[i].path == p && !visits[i].isDir) &&
              LoadJobMetadata(files, p).Err?
    ensures (exists l :: l in Loads(files, visits) && l.Filepath == p) <==>
              (exists i :: 0 <= i < |visits| && visits[i].path == p && !visits[i].isDir) &&
              LoadJobMetadata(files, p).Ok?
    ensures forall l :: l in Loads(files, visits) ==> LoadJobMetadata(files, l.Filepath) == Ok(l.md)
    decreases |visits|
  {
    if visits != [] {
      var n := |visits| - 1;
      WalkPartition(files, visits[..n], p);
      if exists i :: 0 <= i < |visits| && visits[i].path == p && !visits[i].isDir {
        var i :| 0 <= i < |visits| && visits[i].path == p && !visits[i].isDir;
        if i < n {
          assert visits[..n][i] == visits[i];
        }
      }
      if exists i :: 0 <= i < n && visits[..n][i].path == p && !visits[..n][i].isDir {
        var i :| 0 <= i < n && visits[..n][i].path == p && !visits[..n][i].isDir;
        assert visits[i] == visits[..n][i];
      }
      if LoadJobMetadata(files, p).Ok? && (exists i :: 0 <= i < |visits| && visits[i].path == p && !visits[i].isDir) {
        if visits[n].path == p && !visits[n].isDir {
          assert Loaded(p, LoadJobMetadata(files, p).value) in Loads(files, visits);
        } else {
          var l :| l in Loads(files, visits[..n]) && l.Filepath == p;
          assert l in Loads(files, visits);
        }
      }
    }
  }

  /** Each job's list is that job's records in walk order, and a list
      exists exactly for the jobs that have a record. */
  lemma {:induction false} GroupsHold(recs: seq<Loaded>, name: string)
    ensures name in Groups(recs) <==> JobRecords(recs, name) != []
    ensures name in Groups(recs) ==> Groups(recs)[name] == JobRecords(recs, name)
    decreases |recs|
  {
    if recs != [] {
      GroupsHold(recs[..|recs| - 1], name);
    }
  }

  /** The records of one job, in order. */
  function JobRecords(recs: seq<Loaded>, name: string): (rs: seq<Loaded>)
    ensures forall r :: r in rs <==> r in recs && r.md.JobName == name
    decreases |recs|
  {
    if recs == [] then []
    else
      var r := recs[|recs| - 1];
      JobRecords(recs[..|recs| - 1], name) + (if r.md.JobName == name then [r] else [])
  }

  // Ordering a job's records

  /** Records in ascending order of start time. */
  predicate SortedByStart(rs: seq<Loaded>) {
    forall i, j :: 0 <= i < j < |rs| ==> rs[i].md.StartTime <= rs[j].md.StartTime
  }

  /** Put a record after every record that starts no later than it. */
  function Insert(rs: seq<Loaded>, r: Loaded): (out: seq<Loaded>)
    ensures multiset(out) == multiset(rs) + multiset{r}
    decreases |rs|
  {
    if rs == [] || rs[|rs| - 1].md.StartTime <= r.md.StartTime then rs + [r]
    else
      assert rs == rs[..|rs| - 1] + [rs[|rs| - 1]];
      Insert(rs[..|rs| - 1], r) + [rs[|rs| - 1]]
  }

  /** Inserting into ordered records keeps them ordered. */
  lemma {:induction false} InsertSorted(rs: seq<Loaded>, r: Loaded)
    requires SortedByStart(rs)
    ensures SortedByStart(Insert(rs, r))
    decreases |rs|
  {
    if rs == [] || rs[|rs| - 1].md.StartTime <= r.md.StartTime {
    } else {
      var init := rs[..|rs| - 1];
      var last := rs[|rs| - 1];
      InsertSorted(init, r);
      var front := Insert(init, r);
      forall i | 0 <= i < |front|
        ensures front[i].md.StartTime <= last.md.StartTime
      {
        assert front[i] in multiset(front);
        if front[i] != r {
          assert front[i] in multiset(init);
          var k :| 0 <= k < |init| && init[k] == front[i];
          assert rs[k] == init[k];
        }
      }
    }
  }

  /** `sort.Sort(MetadataSortByStartTime(list))`: the records ordered by
      start time, ties kept in their earlier order. */
  function SortByStart(rs: seq<Loaded>): (out: seq<Loaded>)
    ensures SortedByStart(out)
    ensures multiset(out) == multiset(rs)
    decreases |rs|
  {
    if rs == [] then []
    else
      var init := rs[..|rs| - 1];
      assert rs == init + [rs[|rs| - 1]];
      InsertSorted(SortByStart(init), rs[|rs| - 1]);
      Insert(SortByStart(init), rs[|rs| - 1])
  }

  /** The last record after ordering is one of the job's records and
      none of them starts later. */
  lemma LastIsLatest(rs: seq<Loaded>)
    requires rs != []
    ensures var sorted := SortByStart(rs);
            |sorted| == |rs| && sorted[|sorted| - 1] in rs &&
            forall r :: r in rs ==> r.md.StartTime <= sorted[|sorted| - 1].md.StartTime
  {
    var sorted := SortByStart(rs);
    assert |sorted| == |multiset(sorted)| == |multiset(rs)| == |rs|;
    assert sorted[|sorted| - 1] in multiset(sorted);
    forall r | r in rs
      ensures r.md.StartTime <= sorted[|sorted| - 1].md.StartTime
    {
      assert r in multiset(sorted);
      var i :| 0 <= i < |sorted| && sorted[i] == r;
    }
  }

  // Cleaning

  /** A record has expired once `now` is not before its expiry time. */
  predicate Expired(l: Loaded, now: Time) {
    !(now < l.md.ExpireTime)
  }

  /** The data files of a record: `path.Join(RootDir, Namespace, Name)`
      for each entry, in order. */
  function DataPaths(root: string, ns: string, files: seq<JobMetadataFile>): (ps: seq<string>)
    ensures |ps| == |files|
    ensures forall i :: 0 <= i < |files| ==> ps[i] == JoinPath([root, ns, files[i].Name])
    decreases |files|
  {
    if files == [] then []
    else DataPaths(root, ns, files[..|files| - 1]) + [JoinPath([root, ns, files[|files| - 1].Name])]
  }

  /** The cleaning of a job's records, in their order: an expired record
      loses each data file and then its metadata file, every failure
      ignored. */
  function CleanRecords(d: DiskState, m: MetaDir, root: string, recs: seq<Loaded>, now: Time): (DiskState, MetaDir)
    decreases |recs|
  {
    if recs == [] then (d, m)
    else
      var prev := CleanRecords(d, m, root, recs[..|recs| - 1], now);
      var l := recs[|recs| - 1];
      if !Expired(l, now) then prev
      else (RemovePaths(prev.0, DataPaths(root, l.md.Namespace, l.md.Files), true).0, RemoveMeta(prev.1, l.Filepath))
  }

  /** A job is cleaned when the last of its records in start-time order
      succeeded. */
  predicate LatestSucceeded(g: seq<Loaded>) {
    var sorted := SortByStart(g);
    sorted != [] && sorted[|sorted| - 1].md.Success
  }

  /** A record of the job after which none of its records starts. */
  predicate IsLatest(g: seq<Loaded>, x: Loaded) {
    x in g && forall y :: y in g ==> y.md.StartTime <= x.md.StartTime
  }

  /** The job's latest records, if several share the latest start time,
      agree on success. */
  predicate LatestAgree(g: seq<Loaded>) {
    forall x, y :: x in g && y in g && IsLatest(g, x) && IsLatest(g, y) ==> x.md.Success == y.md.Success
  }

  /** When the latest records agree, the job's fate does not depend on
      how the sort orders equal start times: it is cleaned iff its latest
      records succeeded. */
  lemma LatestSucceededOrderFree(g: seq<Loaded>)
    requires LatestAgree(g)
    ensures LatestSucceeded(g) <==> g != [] && forall x :: IsLatest(g, x) ==> x.md.Success
  {
    if g != [] {
      LastIsLatest(g);
      var sorted := SortByStart(g);
      assert IsLatest(g, sorted[|sorted| - 1]);
    }
  }

  /** Two walk orders of the same records give the same fate when the
      latest records agree. */
  lemma LatestSucceededPermutation(g: seq<Loaded>, h: seq<Loaded>)
    requires multiset(g) == multiset(h)
    requires LatestAgree(g)
    ensures LatestSucceeded(g) == LatestSucceeded(h)
  {
    forall x | true
      ensures x in g <==> x in h
    {
      assert x in g <==> x in multiset(g);
      assert x in h <==> x in multiset(h);
    }
    assert forall x :: IsLatest(g, x) <==> IsLatest(h, x);
    LatestSucceededOrderFree(g);
    LatestSucceededOrderFree(h);
    assert g == [] <==> h == [] by {
      assert |g| == |multiset(g)| == |multiset(h)| == |h|;
    }
  }

  /** On a tie at the latest start time the walk order decides: the
      record visited last wins. */
  lemma TieBrokenByWalkOrder(a: Loaded, b: Loaded)
    requires a.md.StartTime == b.md.StartTime && a.md.Success && !b.md.Success
    ensures LatestSucceeded([b, a]) && !LatestSucceeded([a, b])
  {
    assert [b, a][..1] == [b];
    assert [a, b][..1] == [a];
    assert SortByStart([b]) == [b] by { assert [b][..0] == []; }
    assert SortByStart([a]) == [a] by { assert [a][..0] == []; }
  }

  /** The cleaning of the jobs in the order the map yields their names. */
  function CleanJobs(d: DiskState, m: MetaDir, root: string, groups: map<string, seq<Loaded>>,
                     order: seq<string>, now: Time): (DiskState, MetaDir)
    decreases |order|
  {
    if order == [] then (d, m)
    else
      var prev := CleanJobs(d, m, root, groups, order[..|order| - 1], now);
      var name := order[|order| - 1];
      if name in groups && LatestSucceeded(groups[name]) then
        CleanRecords(prev.0, prev.1, root, SortByStart(groups[name]), now)
      else prev
  }

  /** Each file moved, one after the other, to its destination. */
  function RenameAll(m: MetaDir, dest: string -> string, ps: seq<string>): MetaDir
    decreases |ps|
  {
    if ps == [] then m
    else
      var p := ps[|ps| - 1];
      RenameMeta(RenameAll(m, dest, ps[..|ps| - 1]), p, dest(p))
  }

  /** The destination of each corrupted metadata file. */
  function QuarantineDest(metadataDir: string): string -> string {
    p => QuarantinePath(metadataDir, p)
  }

  /** The corrupted metadata files moved into the quarantine directory. */
  function Quarantine(m: MetaDir, metadataDir: string, ps: seq<string>): MetaDir {
    RenameAll(m, QuarantineDest(metadataDir), ps)
  }

  /** `Storage.CleanupExpired`: the error returned, the data files and
      the metadata directory afterwards. `mkdirErr` is the failure to
      create the quarantine directory and `walk` the walk of the metadata
      directory (what it visits, or its error). */
  function Cleanup(d: DiskState, m: MetaDir, root: string, metadataDir: string, mkdirErr: Option<Error>,
                   walk: Result<seq<Visit>>, order: seq<string>, now: Time): (r: (Option<Error>, DiskState, MetaDir))
    ensures r.0.Some? <==> mkdirErr.Some? || walk.Err?
    ensures r.0.Some? ==> r.1 == d && r.2 == m
    ensures mkdirErr.Some? ==> r.0 == mkdirErr
  {
    if mkdirErr.Some? then (mkdirErr, d, m)
    else if walk.Err? then (Some(walk.error), d, m)
    else
      var quarantined := Quarantine(m, metadataDir, Corrupted(m.files, walk.value));
      var cleaned := CleanJobs(d, quarantined, root, Groups(Loads(m.files, walk.value)), order, now);
      (None, cleaned.0, cleaned.1)
  }

  // What cleaning removes

  /** `after` is `before` without the targets that are not locked. */
  ghost predicate Cleared<V>(before: map<string, V>, after: map<string, V>, targets: set<string>, locked: set<string>) {
    (forall q :: q in after <==> q in before && !(q in targets && q !in locked)) &&
    (forall q :: q in after ==> after[q] == before[q])
  }

  lemma ClearedTrans<V>(a: map<string, V>, b: map<string, V>, c: map<string, V>, t1: set<string>, t2: set<string>, locked: set<string>)
    requires Cleared(a, b, t1, locked) && Cleared(b, c, t2, locked)
    ensures Cleared(a, c, t1 + t2, locked)
  {
  }

  /** The metadata files of a job's expired records. */
  function MetaTargets(recs: seq<Loaded>, now: Time): set<string> {
    set l | l in recs && Expired(l, now) :: l.Filepath
  }

  /** The data files of one record. */
  function OwnData(root: string, l: Loaded): set<string> {
    set f | f in l.md.Files :: JoinPath([root, l.md.Namespace, f.Name])
  }

  /** The data files of a job's expired records. */
  function DataTargets(root: string, recs: seq<Loaded>, now: Time): set<string> {
    set l, f | l in recs && Expired(l, now) && f in l.md.Files :: JoinPath([root, l.md.Namespace, f.Name])
  }

  lemma MetaTargetsSnoc(init: seq<Loaded>, l: Loaded, now: Time)
    ensures MetaTargets(init + [l], now) == MetaTargets(init, now) + (if Expired(l, now) then {l.Filepath} else {})
  {
    assert forall x :: x in init + [l] <==> x in init || x == l;
  }

  lemma DataTargetsSnoc(root: string, init: seq<Loaded>, l: Loaded, now: Time)
    ensures DataTargets(root, init + [l], now) == DataTargets(root, init, now) + (if Expired(l, now) then OwnData(root, l) else {})
  {
    assert forall x :: x in init + [l] <==> x in init || x == l;
  }

  lemma DataPathsOwn(root: string, l: Loaded)
    ensures forall q :: q in DataPaths(root, l.md.Namespace, l.md.Files) <==> q in OwnData(root, l)
  {
    var ps := DataPaths(root, l.md.Namespace, l.md.Files);
    forall q | q in OwnData(root, l)
      ensures q in ps
    {
      var f :| f in l.md.Files && q == JoinPath([root, l.md.Namespace, f.Name]);
      var i :| 0 <= i < |l.md.Files| && l.md.Files[i] == f;
      assert ps[i] == q;
    }
  }

  /** Cleaning a job's records removes exactly the data files of the
      expired ones, except those that may not be removed. */
  lemma {:induction false} CleanRecordsDisk(d: DiskState, m: MetaDir, root: string, recs: seq<Loaded>, now: Time)
    ensures var r := CleanRecords(d, m, root, recs, now);
            r.0.locked == d.locked && Cleared(d.files, r.0.files, DataTargets(root, recs, now), d.locked)
    decreases |recs|
  {
    if recs != [] {
      var init := recs[..|recs| - 1];
      var l := recs[|recs| - 1];
      assert recs == init + [l];
      CleanRecordsDisk(d, m, root, init, now);
      DataTargetsSnoc(root, init, l, now);
      var prev := CleanRecords(d, m, root, init, now);
      if Expired(l, now) {
        var ps := DataPaths(root, l.md.Namespace, l.md.Files);
        RemovePathsDisk(prev.0, ps, true);
        DataPathsOwn(root, l);
        ClearedTrans(d.files, prev.0.files, RemovePaths(prev.0, ps, true).0.files,
                     DataTargets(root, init, now), OwnData(root, l), d.locked);
      }
    }
  }

  /** Cleaning a job's records removes exactly the metadata files of the
      expired ones, except those that may not be removed. */
  lemma {:induction false} CleanRecordsMeta(d: DiskState, m: MetaDir, root: string, recs: seq<Loaded>, now: Time)
    ensures var r := CleanRecords(d, m, root, recs, now);
            r.1.locked == m.locked && Cleared(m.files, r.1.files, MetaTargets(recs, now), m.locked)
    decreases |recs|
  {
    if recs != [] {
      var init := recs[..|recs| - 1];
      var l := recs[|recs| - 1];
      assert recs == init + [l];
      CleanRecordsMeta(d, m, root, init, now);
      MetaTargetsSnoc(init, l, now);
    }
  }

  /** The metadata files cleaned over all jobs: those of the expired
      records of the listed jobs whose latest task succeeded. */
  function JobsMetaTargets(groups: map<string, seq<Loaded>>, order: seq<string>, now: Time): set<string> {
    set name, p | name in order && name in groups && LatestSucceeded(groups[name]) && p in MetaTargets(groups[name], now) :: p
  }

  /** The data files cleaned over all jobs. */
  function JobsDataTargets(root: string, groups: map<string, seq<Loaded>>, order: seq<string>, now: Time): set<string> {
    set name, p | name in order && name in groups && LatestSucceeded(groups[name]) && p in DataTargets(root, groups[name], now) :: p
  }

  /** Ordering a job's records does not change which files are cleaned. */
  lemma SortedTargets(root: string, g: seq<Loaded>, now: Time)
    ensures MetaTargets(SortByStart(g), now) == MetaTargets(g, now)
    ensures DataTargets(root, SortByStart(g), now) == DataTargets(root, g, now)
  {
    var sorted := SortByStart(g);
    assert forall l :: l in sorted <==> l in multiset(sorted);
    assert forall l :: l in g <==> l in multiset(g);
  }

  lemma JobsMetaTargetsSnoc(groups: map<string, seq<Loaded>>, init: seq<string>, name: string, now: Time)
    ensures JobsMetaTargets(groups, init + [name], now) ==
              JobsMetaTargets(groups, init, now) +
              (if name in groups && LatestSucceeded(groups[name]) then MetaTargets(groups[name], now) else {})
  {
    assert forall x :: x in init + [name] <==> x in init || x == name;
  }

  lemma JobsDataTargetsSnoc(root: string, groups: map<string, seq<Loaded>>, init: seq<string>, name: string, now: Time)
    ensures JobsDataTargets(root, groups, init + [name], now) ==
              JobsDataTargets(root, groups, init, now) +
              (if name in groups && LatestSucceeded(groups[name]) then DataTargets(root, groups[name], now) else {})
  {
    assert forall x :: x in init + [name] <==> x in init || x == name;
  }

  /** Cleaning the jobs removes exactly the data and metadata files of the
      cleaned records, except those that may not be removed. */
  lemma {:induction false} CleanJobsEffect(d: DiskState, m: MetaDir, root: string, groups: map<string, seq<Loaded>>,
                                           order: seq<string>, now: Time)
    ensures var r := CleanJobs(d, m, root, groups, order, now);
            r.0.locked == d.locked && r.1.locked == m.locked &&
            Cleared(d.files, r.0.files, JobsDataTargets(root, groups, order, now), d.locked) &&
            Cleared(m.files, r.1.files, JobsMetaTargets(groups, order, now), m.locked)
    decreases |order|
  {
    if order != [] {
      var init := order[..|order| - 1];
      var name := order[|order| - 1];
      assert order == init + [name];
      CleanJobsEffect(d, m, root, groups, init, now);
      JobsMetaTargetsSnoc(groups, init, name, now);
      JobsDataTargetsSnoc(root, groups, init, name, now);
      if name in groups && LatestSucceeded(groups[name]) {
        var prev := CleanJobs(d, m, root, groups, init, now);
        var g := SortByStart(groups[name]);
        CleanRecordsDisk(prev.0, prev.1, root, g, now);
        CleanRecordsMeta(prev.0, prev.1, root, g, now);
        SortedTargets(root, groups[name], now);
        var r := CleanRecords(prev.0, prev.1, root, g, now);
        ClearedTrans(d.files, prev.0.files, r.0.files, JobsDataTargets(root, groups, init, now), DataTargets(root, g, now), d.locked);
        ClearedTrans(m.files, prev.1.files, r.1.files, JobsMetaTargets(groups, init, now), MetaTargets(g, now), m.locked);
      }
    }
  }

  /** After a successful walk, the data files and the metadata files of
      the cleaned records are removed, except those that may not be, and
      nothing else changes beyond the quarantine. */
  lemma CleanupEffect(d: DiskState, m: MetaDir, root: string, metadataDir: string, walk: seq<Visit>,
                      order: seq<string>, now: Time)
    ensures var q := Quarantine(m, metadataDir, Corrupted(m.files, walk));
            var groups := Groups(Loads(m.files, walk));
            var r := Cleanup(d, m, root, metadataDir, None, Ok(walk), order, now);
            r.0.None? && r.1.locked == d.locked && r.2.locked == q.locked &&
            Cleared(d.files, r.1.files, JobsDataTargets(root, groups, order, now), d.locked) &&
            Cleared(q.files, r.2.files, JobsMetaTargets(groups, order, now), q.locked)
  {
    var q := Quarantine(m, metadataDir, Corrupted(m.files, walk));
    CleanJobsEffect(d, q, root, Groups(Loads(m.files, walk)), order, now);
  }

  /** Loaded records are told apart by their metadata file. */
  lemma LoadedByPath(files: map<string, Blob<JobMetadata>>, walk: seq<Visit>, l: Loaded, l': Loaded)
    requires l in Loads(files, walk) && l' in Loads(files, walk) && l.Filepath == l'.Filepath
    ensures l == l'
  {
    WalkPartition(files, walk, l.Filepath);
  }

  /** The metadata file of a loaded record is cleaned exactly when the
      record has expired and its job's latest task succeeded; the data
      files of a cleaned record are all removed, except those that may not
      be, whatever happened to the others. */
  lemma RecordFate(d: DiskState, m: MetaDir, root: string, metadataDir: string, walk: seq<Visit>,
                   order: seq<string>, now: Time, l: Loaded)
    requires l in Loads(m.files, walk)
    requires IsKeyOrder(order, Groups(Loads(m.files, walk)))
    ensures var q := Quarantine(m, metadataDir, Corrupted(m.files, walk));
            var r := Cleanup(d, m, root, metadataDir, None, Ok(walk), order, now);
            var cleaned := Expired(l, now) && LatestSucceeded(JobRecords(Loads(m.files, walk), l.md.JobName));
            (l.Filepath in r.2.files <==> l.Filepath in q.files && !(cleaned && l.Filepath !in q.locked)) &&
            (cleaned ==> forall f :: f in l.md.Files ==>
                           JoinPath([root, l.md.Namespace, f.Name]) !in r.1.files || JoinPath([root, l.md.Namespace, f.Name]) in d.locked)
  {
    var recs := Loads(m.files, walk);
    var groups := Groups(recs);
    var name := l.md.JobName;
    CleanupEffect(d, m, root, metadataDir, walk, order, now);
    GroupsHold(recs, name);
    assert l in JobRecords(recs, name);
    assert name in groups && groups[name] == JobRecords(recs, name);
    var cleaned := Expired(l, now) && LatestSucceeded(groups[name]);
    if cleaned {
      assert l.Filepath in MetaTargets(groups[name], now);
      assert l.Filepath in JobsMetaTargets(groups, order, now);
      forall f | f in l.md.Files
        ensures JoinPath([root, l.md.Namespace, f.Name]) in JobsDataTargets(root, groups, order, now)
      {
        assert JoinPath([root, l.md.Namespace, f.Name]) in DataTargets(root, groups[name], now);
      }
    } else if l.Filepath in JobsMetaTargets(groups, order, now) {
      var n, p :| n in order && n in groups && LatestSucceeded(groups[n]) && p in MetaTargets(groups[n], now) && p == l.Filepath;
      var l' :| l' in groups[n] && Expired(l', now) && l'.Filepath == p;
      GroupsHold(recs, n);
      LoadedByPath(m.files, walk, l, l');
      assert false;
    }
  }

  /** `RecordFate` when the job's latest records agree on success: the
      fate is then stated without the sort, so it holds however the sort
      orders equal start times. */
  lemma RecordFateOrderFree(d: DiskState, m: MetaDir, root: string, metadataDir: string, walk: seq<Visit>,
                            order: seq<string>, now: Time, l: Loaded)
    requires l in Loads(m.files, walk)
    requires IsKeyOrder(order, Groups(Loads(m.files, walk)))
    requires LatestAgree(JobRecords(Loads(m.files, walk), l.md.JobName))
    ensures var q := Quarantine(m, metadataDir, Corrupted(m.files, walk));
            var r := Cleanup(d, m, root, metadataDir, None, Ok(walk), order, now);
            var g := JobRecords(Loads(m.files, walk), l.md.JobName);
            var cleaned := Expired(l, now) && forall x :: IsLatest(g, x) ==> x.md.Success;
            (l.Filepath in r.2.files <==> l.Filepath in q.files && !(cleaned && l.Filepath !in q.locked)) &&
            (cleaned ==> forall f :: f in l.md.Files ==>
                           JoinPath([root, l.md.Namespace, f.Name]) !in r.1.files || JoinPath([root, l.md.Namespace, f.Name]) in d.locked)
  {
    var g := JobRecords(Loads(m.files, walk), l.md.JobName);
    RecordFate(d, m, root, metadataDir, walk, order, now, l);
    LatestSucceededOrderFree(g);
    assert g != [] by { assert l in g; }
  }

  /** The files can all be moved: each exists and may be moved, none is
      listed twice, no two share a destination, and none is another's
      destination. */
  predicate Movable(m: MetaDir, dest: string -> string, ps: seq<string>) {
    (forall i :: 0 <= i < |ps| ==> ps[i] in m.files && ps[i] !in m.locked) &&
    (forall i, j :: 0 <= i < j < |ps| ==> ps[i] != ps[j] && dest(ps[i]) != dest(ps[j])) &&
    (forall i, j :: 0 <= i < |ps| && 0 <= j < |ps| ==> dest(ps[i]) != ps[j])
  }

  /** Every file is moved to its destination with its content, and no
      other file changes; for the quarantine, each corrupted metadata file
      ends up under its base name in the quarantine directory. */
  lemma {:induction false} RenameAllMoves(m: MetaDir, dest: string -> string, ps: seq<string>)
    requires Movable(m, dest, ps)
    ensures var r := RenameAll(m, dest, ps);
            r.locked == m.locked &&
            (forall i :: 0 <= i < |ps| ==>
               ps[i] !in r.files && dest(ps[i]) in r.files && r.files[dest(ps[i])] == m.files[ps[i]]) &&
            (forall p :: p in m.files && p !in ps && (forall i :: 0 <= i < |ps| ==> dest(ps[i]) != p) ==>
               p in r.files && r.files[p] == m.files[p])
    decreases |ps|
  {
    if ps != [] {
      var n := |ps| - 1;
      var init := ps[..n];
      MovablePrefix(m, dest, ps, n);
      RenameAllMoves(m, dest, init);
      var prev := RenameAll(m, dest, init);
      assert Moved(m, dest, init, prev) && Kept(m, dest, init, prev);
      MovedStep(m, dest, ps, prev);
      KeptStep(m, dest, ps, prev);
      assert RenameAll(m, dest, ps) == RenameMeta(prev, ps[n], dest(ps[n]));
    }
  }

  /** The files moved so far: gone from their place, present at their
      destination with their content, and no lock changed. */
  ghost predicate Moved(m: MetaDir, dest: string -> string, ps: seq<string>, r: MetaDir) {
    r.locked == m.locked &&
    forall i :: 0 <= i < |ps| ==>
      ps[i] in m.files && ps[i] !in r.files && dest(ps[i]) in r.files && r.files[dest(ps[i])] == m.files[ps[i]]
  }

  /** The files neither moved nor overwritten so far are as they were. */
  ghost predicate Kept(m: MetaDir, dest: string -> string, ps: seq<string>, r: MetaDir) {
    forall p :: p in m.files && p !in ps && (forall i :: 0 <= i < |ps| ==> dest(ps[i]) != p) ==>
      p in r.files && r.files[p] == m.files[p]
  }

  lemma MovablePrefix(m: MetaDir, dest: string -> string, ps: seq<string>, k: nat)
    requires Movable(m, dest, ps) && k <= |ps|
    ensures Movable(m, dest, ps[..k])
  {
    assert forall i :: 0 <= i < k ==> ps[..k][i] == ps[i];
  }

  /** Moving the last file keeps the earlier files where they were moved. */
  lemma MovedStep(m: MetaDir, dest: string -> string, ps: seq<string>, prev: MetaDir)
    requires Movable(m, dest, ps) && ps != []
    requires Moved(m, dest, ps[..|ps| - 1], prev) && Kept(m, dest, ps[..|ps| - 1], prev)
    ensures Moved(m, dest, ps, RenameMeta(prev, ps[|ps| - 1], dest(ps[|ps| - 1])))
  {
    var n := |ps| - 1;
    var init := ps[..n];
    var p := ps[n];
    assert forall i :: 0 <= i < n ==> init[i] == ps[i];
    assert p !in init;
    assert p in prev.files && prev.files[p] == m.files[p];
    var r := RenameMeta(prev, p, dest(p));
    assert r.files == (prev.files - {p})[dest(p) := m.files[p]];
    forall i | 0 <= i < n
      ensures ps[i] !in r.files && dest(ps[i]) in r.files && r.files[dest(ps[i])] == m.files[ps[i]]
    {
      assert init[i] == ps[i];
    }
  }

  /** Moving the last file leaves the untouched files alone. */
  lemma KeptStep(m: MetaDir, dest: string -> string, ps: seq<string>, prev: MetaDir)
    requires ps != []
    requires Kept(m, dest, ps[..|ps| - 1], prev)
    ensures Kept(m, dest, ps, RenameMeta(prev, ps[|ps| - 1], dest(ps[|ps| - 1])))
  {
    var n := |ps| - 1;
    var init := ps[..n];
    var p := ps[n];
    forall q | q in m.files && q !in ps && (forall i :: 0 <= i < |ps| ==> dest(ps[i]) != q)
      ensures q in RenameMeta(prev, p, dest(p)).files && RenameMeta(prev, p, dest(p)).files[q] == m.files[q]
    {
      assert forall i :: 0 <= i < n ==> init[i] == ps[i];
      assert q !in init;
      assert q != p && q != dest(p);
    }
  }

  // One more step of each fold

  lemma WalkSnoc(files: map<string, Blob<JobMetadata>>, visits: seq<Visit>, i: nat)
    requires i < |visits|
    ensures var v := visits[i];
            var md := LoadJobMetadata(files, v.path);
            Corrupted(files, visits[..i + 1]) ==
              Corrupted(files, visits[..i]) + (if !v.isDir && md.Err? then [v.path] else []) &&
            Loads(files, visits[..i + 1]) ==
              Loads(files, visits[..i]) + (if !v.isDir && md.Ok? then [Loaded(v.path, md.value)] else [])
  {
    assert visits[..i + 1][..i] == visits[..i];
  }

  lemma GroupsSnoc(recs: seq<Loaded>, l: Loaded)
    ensures var g := Groups(recs);
            Groups(recs + [l]) == g[l.md.JobName := (if l.md.JobName in g then g[l.md.JobName] else []) + [l]]
  {
    assert (recs + [l])[..|recs|] == recs;
  }

  lemma RenameAllSnoc(m: MetaDir, dest: string -> string, ps: seq<string>, k: nat)
    requires k < |ps|
    ensures RenameAll(m, dest, ps[..k + 1]) == RenameMeta(RenameAll(m, dest, ps[..k]), ps[k], dest(ps[k]))
  {
    assert ps[..k + 1][..k] == ps[..k];
  }

  lemma DataPathsSnoc(root: string, ns: string, files: seq<JobMetadataFile>, j: nat)
    requires j < |files|
    ensures DataPaths(root, ns, files[..j + 1]) == DataPaths(root, ns, files[..j]) + [JoinPath([root, ns, files[j].Name])]
  {
    assert files[..j + 1][..j] == files[..j];
  }

  lemma CleanRecordsSnoc(d: DiskState, m: MetaDir, root: string, recs: seq<Loaded>, k: nat, now: Time)
    requires k < |recs|
    ensures var prev := CleanRecords(d, m, root, recs[..k], now);
            var l := recs[k];
            CleanRecords(d, m, root, recs[..k + 1], now) ==
              if !Expired(l, now) then prev
              else (RemovePaths(prev.0, DataPaths(root, l.md.Namespace, l.md.Files), true).0, RemoveMeta(prev.1, l.Filepath))
  {
    assert recs[..k + 1][..k] == recs[..k];
  }

  lemma CleanJobsSnoc(d: DiskState, m: MetaDir, root: string, groups: map<string, seq<Loaded>>,
                      order: seq<string>, k: nat, now: Time)
    requires k < |order|
    ensures var prev := CleanJobs(d, m, root, groups, order[..k], now);
            var name := order[k];
            CleanJobs(d, m, root, groups, order[..k + 1], now) ==
              if name in groups && LatestSucceeded(groups[name]) then
                CleanRecords(prev.0, prev.1, root, SortByStart(groups[name]), now)
              else prev
  {
    assert order[..k + 1][..k] == order[..k];
  }

  // The sweep, step by step

  /** The walk's visit function over every visited path: a directory is
      skipped, a file that does not load is noted as corrupted, and a
      loaded record, with its `Filepath` set, is appended to its job's
      list. */
  method Collect(files: map<string, Blob<JobMetadata>>, visits: seq<Visit>)
    returns (corrupted: seq<string>, jobMetadataList: map<string, seq<Loaded>>)
    ensures corrupted == Corrupted(files, visits)
    ensures jobMetadataList == Groups(Loads(files, visits))
  {
    corrupted := [];
    jobMetadataList := map[];
    for i := 0 to |visits|
      invariant corrupted == Corrupted(files, visits[..i])
      invariant jobMetadataList == Groups(Loads(files, visits[..i]))
    {
      WalkSnoc(files, visits, i);
      var v := visits[i];
      if v.isDir {
        assert Loads(files, visits[..i]) + [] == Loads(files, visits[..i]);
        continue;
      }
      var metadata := LoadJobMetadata(files, v.path);
      if metadata.Err? {
        corrupted := corrupted + [v.path];
        assert Loads(files, visits[..i]) + [] == Loads(files, visits[..i]);
        continue;
      }
      var l := Loaded(v.path, metadata.value);
      assert Loads(files, visits[..i + 1]) == Loads(files, visits[..i]) + [l];
      GroupsSnoc(Loads(files, visits[..i]), l);
      var name := l.md.JobName;
      jobMetadataList := jobMetadataList[name := (if name in jobMetadataList then jobMetadataList[name] else []) + [l]];
    }
    assert visits[..|visits|] == visits;
  }

  /** Move each corrupted metadata file into the quarantine directory,
      ignoring failures. */
  method QuarantineCorrupted(stor: LegacyStorage.Storage, corrupted: seq<string>)
    modifies stor`meta
    ensures stor.meta == Quarantine(old(stor.meta), stor.MetadataDir, corrupted)
  {
    var corruptedDir := stor.MetadataDir + "_corrupted";
    for k := 0 to |corrupted|
      invariant stor.meta == RenameAll(old(stor.meta), QuarantineDest(stor.MetadataDir), corrupted[..k])
    {
      RenameAllSnoc(old(stor.meta), QuarantineDest(stor.MetadataDir), corrupted, k);
      var metadataPath := corrupted[k];
      var newFullPath := JoinPath([corruptedDir, Base(metadataPath)]);
      stor.meta := RenameMeta(stor.meta, metadataPath, newFullPath);
    }
    assert corrupted[..|corrupted|] == corrupted;
  }

  /** Remove each data file of a record, ignoring failures. */
  method RemoveDataFiles(stor: LegacyStorage.Storage, md: JobMetadata)
    modifies stor`disk
    ensures stor.disk == RemovePaths(old(stor.disk), DataPaths(stor.RootDir, md.Namespace, md.Files), true).0
  {
    for j := 0 to |md.Files|
      invariant stor.disk == RemovePaths(old(stor.disk), DataPaths(stor.RootDir, md.Namespace, md.Files[..j]), true).0
    {
      DataPathsSnoc(stor.RootDir, md.Namespace, md.Files, j);
      var fileMeta := md.Files[j];
      var dataFilePath := JoinPath([stor.RootDir, md.Namespace, fileMeta.Name]);
      RemovePathsSnoc(old(stor.disk), DataPaths(stor.RootDir, md.Namespace, md.Files[..j]), dataFilePath, true);
      var removed := Disk.Remove(stor.disk, dataFilePath);
      stor.disk := removed.1;
    }
    assert md.Files[..|md.Files|] == md.Files;
  }

  /** Clean one job's ordered records: skip those not yet expired, and
      for the others remove the data files, then the metadata file. */
  method CleanJob(stor: LegacyStorage.Storage, jobMetadatas: seq<Loaded>, now: Time)
    modifies stor`disk, stor`meta
    ensures (stor.disk, stor.meta) == CleanRecords(old(stor.disk), old(stor.meta), stor.RootDir, jobMetadatas, now)
  {
    for k := 0 to |jobMetadatas|
      invariant (stor.disk, stor.meta) == CleanRecords(old(stor.disk), old(stor.meta), stor.RootDir, jobMetadatas[..k], now)
    {
      CleanRecordsSnoc(old(stor.disk), old(stor.meta), stor.RootDir, jobMetadatas, k, now);
      var metadata := jobMetadatas[k];
      if now < metadata.md.ExpireTime {
        continue;
      }
      RemoveDataFiles(stor, metadata.md);
      stor.meta := RemoveMeta(stor.meta, metadata.Filepath);
    }
    assert jobMetadatas[..|jobMetadatas|] == jobMetadatas;
  }

  /** `Storage.CleanupExpired`: create the quarantine directory, walk the
      metadata directory, move the corrupted files aside, then clean each
      job in the order the map yields it unless its latest task failed.
      `order` is that order. */
  method CleanupExpired(stor: LegacyStorage.Storage, mkdirErr: Option<Error>, walk: Result<seq<Visit>>,
                        order: seq<string>, now: Time) returns (err: Option<Error>)
    requires walk.Ok? ==> IsKeyOrder(order, Groups(Loads(stor.meta.files, walk.value)))
    modifies stor`disk, stor`meta
    ensures (err, stor.disk, stor.meta) ==
              Cleanup(old(stor.disk), old(stor.meta), stor.RootDir, stor.MetadataDir, mkdirErr, walk, order, now)
  {
    if mkdirErr.Some? {
      return mkdirErr;
    }
    if walk.Err? {
      return Some(walk.error);
    }
    var corrupted, jobMetadataList := Collect(stor.meta.files, walk.value);
    ghost var recs := Loads(stor.meta.files, walk.value);
    QuarantineCorrupted(stor, corrupted);
    ghost var quarantined := stor.meta;
    for k := 0 to |order|
      invariant (stor.disk, stor.meta) ==
                  CleanJobs(old(stor.disk), quarantined, stor.RootDir, jobMetadataList, order[..k], now)
    {
      CleanJobsSnoc(old(stor.disk), quarantined, stor.RootDir, jobMetadataList, order, k, now);
      var jobName := order[k];
      GroupsHold(recs, jobName);
      var jobMetadatas := SortByStart(jobMetadataList[jobName]);
      assert |jobMetadatas| == |multiset(jobMetadatas)| == |multiset(jobMetadataList[jobName])| > 0;
      if !jobMetadatas[|jobMetadatas| - 1].md.Success {
        continue;
      }
      CleanJob(stor, jobMetadatas, now);
    }
    assert order[..|order|] == order;
    err := None;
  }
}

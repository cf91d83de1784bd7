/** The job configuration: the cron-style run schedule, the retention
    normalisation of a job (`Sanitize`) and the part of `ParseConfig` that
    merges the job files named by `include_jobs` and then sanitizes every
    job (src/bakapy/config.go). */
module Config {
  import opened Common
  import opened Text

  /** When a job runs, as six cron fields. */
  datatype RunAtSpec = RunAtSpec(
    Second: string, Minute: string, Hour: string,
    Day: string, Month: string, Weekday: string)

  /** One job of the configuration (the executor it is run with is not part
      of this model). `MaxAge` is a `time.Duration` in nanoseconds. */
  datatype JobConfig = JobConfig(
    Sudo: bool, Disabled: bool, Gzip: bool,
    MaxAgeDays: int, MaxAge: int,
    Storage: string, Namespace: string, Host: string, Port: nat,
    Command: string, Args: map<string, string>, RunAt: RunAtSpec)

  function ScheduleFields(r: RunAtSpec): seq<string> {
    [r.Second, r.Minute, r.Hour, r.Day, r.Month, r.Weekday]
  }

  /** `RunAtSpec.SchedulerString`. The receiver is a pointer that the Go
      method updates (an empty `Second` becomes "0"); `updated` is the
      receiver after the call. */
  method SchedulerString(r: RunAtSpec) returns (updated: RunAtSpec, s: string)
    ensures updated.Second == (if r.Second == "" then "0" else r.Second)
    ensures updated.(Second := r.Second) == r
    ensures s == Join(ScheduleFields(updated), " ")
    ensures (forall i :: 0 <= i < 6 ==> ' ' !in ScheduleFields(r)[i]) ==>
              Split(s, ' ') == ScheduleFields(updated)
  {
    updated := r;
    if updated.Second == "" {
      updated := updated.(Second := "0");
    }
    s := updated.Second + " " + updated.Minute + " " + updated.Hour + " " +
         updated.Day + " " + updated.Month + " " + updated.Weekday;
    JoinSix(ScheduleFields(updated));
    if forall i :: 0 <= i < 6 ==> ' ' !in ScheduleFields(r)[i] {
      assert ScheduleFields(updated) == ScheduleFields(r)[0 := updated.Second];
      assert ' ' !in updated.Second by {
        assert ' ' !in ScheduleFields(r)[0];
      }
      SplitJoin(ScheduleFields(updated), ' ');
    }
  }

  /** Six fields joined by spaces, written out. */
  lemma JoinSix(f: seq<string>)
    requires |f| == 6
    ensures Join(f, " ") == f[0] + " " + f[1] + " " + f[2] + " " + f[3] + " " + f[4] + " " + f[5]
  {
    assert f[1..][1..][1..][1..][1..] == [f[5]];
    assert Join(f[4..], " ") == f[4] + " " + f[5] by {
      assert f[4..][1..] == [f[5]];
    }
    assert Join(f[3..], " ") == f[3] + " " + Join(f[4..], " ") by {
      assert f[3..][1..] == f[4..];
    }
    assert Join(f[2..], " ") == f[2] + " " + Join(f[3..], " ") by {
      assert f[2..][1..] == f[3..];
    }
    assert Join(f[1..], " ") == f[1] + " " + Join(f[2..], " ") by {
      assert f[1..][1..] == f[2..];
    }
  }

  /** The message `Sanitize` returns when both retention settings are set. */
  function BothDefinedMessage(jc: JobConfig): string {
    "both max_age and max_age_days defined. max_age='" + DurationString(jc.MaxAge) +
    "' max_age_days='" + IntToString(jc.MaxAgeDays) + "'"
  }

  /** `time.Duration(days) * time.Hour * 24`, with int64 wrap-around. */
  function DaysToDuration(days: int): (d: int)
    ensures -106751 <= days <= 106751 ==> d == days * 24 * Hour
  {
    Wrap64(days * 24 * Hour)
  }

  /** `JobConfig.Sanitize`: the receiver after the call, or the error (in
      which case the receiver is left as it was). */
  function Sanitize(jc: JobConfig): (r: Result<JobConfig>)
    ensures r.Err? <==> jc.MaxAgeDays != 0 && jc.MaxAge != 0
    ensures r.Err? ==> r.error == Other(BothDefinedMessage(jc))
    ensures r.Ok? ==> r.value.(MaxAge := jc.MaxAge) == jc
    ensures r.Ok? && jc.MaxAgeDays == 0 ==> r.value == jc
    ensures r.Ok? && jc.MaxAgeDays != 0 ==> r.value.MaxAge == DaysToDuration(jc.MaxAgeDays)
  {
    if jc.MaxAgeDays != 0 && jc.MaxAge != 0 then Err(Other(BothDefinedMessage(jc)))
    else if jc.MaxAgeDays != 0 then Ok(jc.(MaxAge := DaysToDuration(jc.MaxAgeDays)))
    else Ok(jc)
  }

  /** After a successful `Sanitize` of a job that sets a plausible
      `max_age_days`, the retention is exactly that many days and the job
      would be refused if sanitized a second time. */
  lemma SanitizedRetention(jc: JobConfig)
    requires Sanitize(jc).Ok? && jc.MaxAgeDays != 0
    requires -106751 <= jc.MaxAgeDays <= 106751
    ensures Sanitize(jc).value.MaxAge == jc.MaxAgeDays * 24 * Hour != 0
    ensures Sanitize(Sanitize(jc).value).Err?
  {
  }

  /** Beyond 106751 days the multiplication wraps around and the retention
      becomes negative. */
  lemma RetentionWraps()
    ensures DaysToDuration(106752) < 0
  {
  }

  /** The rejection of a job with both settings, as the configuration tests
      expect it for `max_age: 20m`, `max_age_days: 15`: the message quotes
      the settings as "20m0s" and "15". */
  lemma BothDefinedExample(jc: JobConfig)
    requires jc.MaxAge == 20 * Minute && jc.MaxAgeDays == 15
    ensures Sanitize(jc).Err?
    ensures DurationString(jc.MaxAge) == "20m0s" && IntToString(jc.MaxAgeDays) == "15"
  {
    assert DurationString(1200_000_000_000) == "20m0s" by {
      assert WithFrac(0, 0, 9) == "0" by {
        assert NatToString(0) == "0";
      }
      assert NatToString(20) == "20" by {
        assert NatToString(2) == "2";
      }
    }
    assert IntToString(15) == "15" by {
      assert NatToString(1) == "1";
    }
  }

  /** One file matched by an `include_jobs` pattern, with the jobs it defines. */
  datatype IncludeFile = IncludeFile(path: string, jobs: map<string, JobConfig>)

  /** Every job name defined by the given files. */
  function Names(files: seq<IncludeFile>): set<string> {
    if files == [] then {} else Names(files[..|files| - 1]) + files[|files| - 1].jobs.Keys
  }

  /** No job name is defined by two of the files (a file matched twice
      defines each of its names twice). */
  predicate NoDuplicates(files: seq<IncludeFile>) {
    forall i, j :: 0 <= i < j < |files| ==> files[i].jobs.Keys !! files[j].jobs.Keys
  }

  /** For each defined name, the path of the file that defined it. */
  function DefinedAt(files: seq<IncludeFile>): (d: map<string, string>)
    ensures d.Keys == Names(files)
  {
    if files == [] then map[]
    else
      var last := files[|files| - 1];
      DefinedAt(files[..|files| - 1]) + map n | n in last.jobs.Keys :: last.path
  }

  /** The jobs of the main file, each overridden by the include file that
      defines the same name, later files last. */
  function Merged(jobs: map<string, JobConfig>, files: seq<IncludeFile>): map<string, JobConfig> {
    if files == [] then jobs else Merged(jobs, files[..|files| - 1]) + files[|files| - 1].jobs
  }

  function DuplicateError(path: string, name: string, previous: string): Error {
    Other(path + ": duplicated job name " + name + ", previously defined at " + previous)
  }

  lemma {:induction false} NameOrigin(files: seq<IncludeFile>, n: string) returns (i: nat)
    requires n in Names(files)
    ensures i < |files| && n in files[i].jobs
  {
    var last := |files| - 1;
    if n in files[last].jobs {
      i := last;
    } else {
      i := NameOrigin(files[..last], n);
    }
  }

  /** A name defined by file i of a duplicate-free list was defined there. */
  lemma {:induction false} DefinedAtOrigin(files: seq<IncludeFile>, i: nat, n: string)
    requires NoDuplicates(files) && i < |files| && n in files[i].jobs
    ensures n in DefinedAt(files) && DefinedAt(files)[n] == files[i].path
  {
    var last := |files| - 1;
    NamesInclude(files, i, n);
    if i < last {
      assert files[..last][i] == files[i];
      DefinedAtOrigin(files[..last], i, n);
      assert n !in files[last].jobs.Keys;
    }
  }

  lemma {:induction false} NamesInclude(files: seq<IncludeFile>, i: nat, n: string)
    requires i < |files| && n in files[i].jobs
    ensures n in Names(files)
  {
    var last := |files| - 1;
    if i < last {
      assert files[..last][i] == files[i];
      NamesInclude(files[..last], i, n);
    }
  }

  /** A file whose names are all new keeps the list duplicate-free. */
  lemma NoDuplicatesSnoc(files: seq<IncludeFile>, f: IncludeFile)
    requires NoDuplicates(files) && f.jobs.Keys !! Names(files)
    ensures NoDuplicates(files + [f])
  {
    var all := files + [f];
    forall i, j | 0 <= i < j < |all|
      ensures all[i].jobs.Keys !! all[j].jobs.Keys
    {
      assert all[i] == files[i];
      if j == |files| {
        if x :| x in files[i].jobs.Keys && x in f.jobs.Keys {
          NamesInclude(files, i, x);
        }
      } else {
        assert all[j] == files[j];
      }
    }
  }

  /** A name of file k already defined before it makes the list a list
      with duplicates. */
  lemma DuplicateWitness(files: seq<IncludeFile>, k: nat, n: string)
    requires k < |files| && n in files[k].jobs && n in Names(files[..k])
    ensures !NoDuplicates(files)
  {
    var i := NameOrigin(files[..k], n);
    assert files[..k][i] == files[i];
    assert n in files[i].jobs.Keys && n in files[k].jobs.Keys;
  }

  /** The names of `done` with the file that defines them. */
  function DefinedBy(file: IncludeFile, done: set<string>): map<string, string> {
    map n | n in done :: file.path
  }

  /** The jobs of `file` named in `done`. */
  function JobsOf(file: IncludeFile, done: set<string>): map<string, JobConfig>
    requires done <= file.jobs.Keys
  {
    map n | n in done :: file.jobs[n]
  }

  lemma DefinedByAdd(file: IncludeFile, done: set<string>, name: string)
    requires done <= file.jobs.Keys && name in file.jobs
    ensures DefinedBy(file, done + {name}) == DefinedBy(file, done)[name := file.path]
    ensures JobsOf(file, done + {name}) == JobsOf(file, done)[name := file.jobs[name]]
  {
  }

  lemma UpdateUnion<K, V>(a: map<K, V>, b: map<K, V>, k: K, v: V)
    ensures (a + b)[k := v] == a + b[k := v]
  {
  }

  /** Once every name of file k is recorded, the merge has taken file k. */
  lemma MergeStep(jobs: map<string, JobConfig>, files: seq<IncludeFile>, k: nat, done: set<string>)
    requires k < |files| && done == files[k].jobs.Keys
    requires NoDuplicates(files[..k]) && done !! Names(files[..k])
    ensures Merged(jobs, files[..k + 1]) == Merged(jobs, files[..k]) + files[k].jobs
    ensures DefinedAt(files[..k + 1]) == DefinedAt(files[..k]) + DefinedBy(files[k], done)
    ensures NoDuplicates(files[..k + 1])
  {
    assert files[..k + 1] == files[..k] + [files[k]];
    assert files[..k + 1][..k] == files[..k];
    NoDuplicatesSnoc(files[..k], files[k]);
  }

  /** The inner loop of the include merge: the jobs of one file, in map
      order (any order), are recorded as defined by that file and added to
      the configuration; the first name already recorded is an error. */
  method AddIncludeFile(jobDefines: map<string, string>, cfgJobs: map<string, JobConfig>, file: IncludeFile)
    returns (r: Result<(map<string, string>, map<string, JobConfig>)>)
    ensures r.Ok? <==> file.jobs.Keys !! jobDefines.Keys
    ensures r.Ok? ==> r.value.0 == jobDefines + DefinedBy(file, file.jobs.Keys)
    ensures r.Ok? ==> r.value.1 == cfgJobs + file.jobs
    ensures r.Err? ==> (exists n :: n in file.jobs && n in jobDefines &&
                          r.error == DuplicateError(file.path, n, jobDefines[n]))
  {
    var defines, jobs := jobDefines, cfgJobs;
    var pending := file.jobs.Keys;
    ghost var done: set<string> := {};
    while pending != {}
      invariant pending + done == file.jobs.Keys && pending !! done
      invariant done !! jobDefines.Keys
      invariant defines == jobDefines + DefinedBy(file, done)
      invariant jobs == cfgJobs + JobsOf(file, done)
    {
      var name :| name in pending;
      if name in defines {
        return Err(DuplicateError(file.path, name, defines[name]));
      }
      DefinedByAdd(file, done, name);
      UpdateUnion(jobDefines, DefinedBy(file, done), name, file.path);
      UpdateUnion(cfgJobs, JobsOf(file, done), name, file.jobs[name]);
      defines := defines[name := file.path];
      jobs := jobs[name := file.jobs[name]];
      pending := pending - {name};
      done := done + {name};
    }
    assert JobsOf(file, done) == file.jobs;
    r := Ok((defines, jobs));
  }

  /** The include-merge loop of `ParseConfig`: the files are taken in
      order; a name already defined by an earlier include file is an error
      naming both files. Names of the main file are not tracked, so
      includes override them. */
  method MergeIncludes(jobs: map<string, JobConfig>, files: seq<IncludeFile>)
    returns (r: Result<map<string, JobConfig>>)
    ensures r.Ok? <==> NoDuplicates(files)
    ensures r.Ok? ==> r.value == Merged(jobs, files)
    ensures r.Err? ==> (exists j, n :: 0 <= j < |files| && n in files[j].jobs &&
                          n in Names(files[..j]) && NoDuplicates(files[..j]) &&
                          r.error == DuplicateError(files[j].path, n, DefinedAt(files[..j])[n]))
  {
    var cfgJobs := jobs;
    var jobDefines: map<string, string> := map[];
    var k := 0;
    while k < |files|
      invariant 0 <= k <= |files|
      invariant NoDuplicates(files[..k])
      invariant jobDefines == DefinedAt(files[..k])
      invariant cfgJobs == Merged(jobs, files[..k])
    {
      var step := AddIncludeFile(jobDefines, cfgJobs, files[k]);
      if step.Err? {
        ghost var n :| n in files[k].jobs && n in jobDefines &&
          step.error == DuplicateError(files[k].path, n, jobDefines[n]);
        DuplicateWitness(files, k, n);
        return Err(step.error);
      }
      MergeStep(jobs, files, k, files[k].jobs.Keys);
      jobDefines, cfgJobs := step.value.0, step.value.1;
      k := k + 1;
    }
    assert files[..k] == files;
    r := Ok(cfgJobs);
  }

  /** The sanitize loop of `ParseConfig`: every job is sanitized, in map
      order (any order); the first failure aborts with the job's name. */
  method SanitizeJobs(jobs: map<string, JobConfig>) returns (r: Result<map<string, JobConfig>>)
    ensures r.Ok? <==> forall n :: n in jobs ==> Sanitize(jobs[n]).Ok?
    ensures r.Ok? ==> r.value.Keys == jobs.Keys
    ensures r.Ok? ==> forall n :: n in jobs ==> Sanitize(jobs[n]) == Ok(r.value[n])
    ensures r.Err? ==> (exists n :: n in jobs && Sanitize(jobs[n]).Err? &&
                          r.error == Other("job " + n + ": " + Sanitize(jobs[n]).error.msg))
  {
    var result := jobs;
    var pending := jobs.Keys;
    while pending != {}
      invariant pending <= jobs.Keys && result.Keys == jobs.Keys
      invariant forall n :: n in jobs && n !in pending ==> Sanitize(jobs[n]) == Ok(result[n])
    {
      var name :| name in pending;
      var s := Sanitize(jobs[name]);
      if s.Err? {
        return Err(Other("job " + name + ": " + s.error.msg));
      }
      result := result[name := s.value];
      pending := pending - {name};
    }
    r := Ok(result);
  }

  /** The jobs part of `ParseConfig`: merge the include files into the main
      file's jobs, then sanitize them all. */
  method ParseJobs(jobs: map<string, JobConfig>, files: seq<IncludeFile>)
    returns (r: Result<map<string, JobConfig>>)
    ensures r.Ok? <==> (NoDuplicates(files) &&
                        forall n :: n in Merged(jobs, files) ==> Sanitize(Merged(jobs, files)[n]).Ok?)
    ensures r.Ok? ==> r.value.Keys == Merged(jobs, files).Keys
    ensures r.Ok? ==> forall n :: n in r.value ==> Sanitize(Merged(jobs, files)[n]) == Ok(r.value[n])
  {
    r := MergeIncludes(jobs, files);
    if r.Ok? {
      r := SanitizeJobs(r.value);
    }
  }
}

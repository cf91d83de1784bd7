/** The scripted notificator (src/bakapy/notificator.go): when a job
    finishes, its notification script is run with the inherited
    environment extended by the task's metadata and the notificator's
    parameters. */
module Notificator {
  import opened Common
  import opened Text
  import opened Metadata
  import opened Rendering

  /** A notificator: the script it runs and its parameters. */
  datatype ScriptedNotificator = ScriptedNotificator(name: string, params: map<string, string>)

  /** `Name()`: the configured name. */
  function Name(s: ScriptedNotificator): (r: string)
    ensures r == s.name
  {
    s.name
  }

  /** The variables describing the task, in the order they are added. */
  function MetadataVars(md: Metadata): (r: seq<string>)
    ensures |r| == 6
  {
    [if md.Success then "BAKAPY_METADATA_SUCCESS=1" else "BAKAPY_METADATA_SUCCESS=0",
     "BAKAPY_METADATA_JOBNAME=" + md.JobName,
     "BAKAPY_METADATA_TASKID=" + md.TaskId,
     "BAKAPY_METADATA_MESSAGE=" + md.Message,
     "BAKAPY_METADATA_OUTPUT=" + BytesToString(md.Output),
     "BAKAPY_METADATA_ERRPUT=" + BytesToString(md.Errput)]
  }

  /** One parameter as a variable: `BAKAPY_PARAM_<KEY>=value`. */
  function ParamVar(key: string, value: string): string {
    "BAKAPY_PARAM_" + ToUpper(key) + "=" + value
  }

  /** The error returned when the script cannot be found. */
  function ScriptError(name: string, e: Error): Error {
    Other("cannot get script " + name + ": " + e.msg)
  }

  /** How `JobFinished` ends: the script could not be found, or it was run
      with `env` and ended with `runErr`. */
  datatype Outcome = NoScript(err: Error) | Ran(env: seq<string>, runErr: Option<Error>)

  /** `JobFinished`. `scriptPath` is what the script pool returns for the
      name, `environ` the inherited environment, `order` the order in which
      the loop visits the parameters, and `runErr` how the script ends. */
  method JobFinished(s: ScriptedNotificator, md: Metadata, scriptPath: Result<string>,
                     environ: seq<string>, order: seq<string>, runErr: Option<Error>)
    returns (out: Outcome)
    requires IsKeyOrder(order, s.params)
    ensures scriptPath.Err? ==> out == NoScript(ScriptError(s.name, scriptPath.error))
    ensures scriptPath.Ok? ==>
              out == Ran(environ + MetadataVars(md) + Rendered(ParamVar, s.params, order), runErr)
  {
    if scriptPath.Err? {
      return NoScript(ScriptError(s.name, scriptPath.error));
    }
    var env := environ;
    if md.Success {
      env := env + ["BAKAPY_METADATA_SUCCESS=1"];
    } else {
      env := env + ["BAKAPY_METADATA_SUCCESS=0"];
    }
    env := env + ["BAKAPY_METADATA_JOBNAME=" + md.JobName];
    env := env + ["BAKAPY_METADATA_TASKID=" + md.TaskId];
    env := env + ["BAKAPY_METADATA_MESSAGE=" + md.Message];
    env := env + ["BAKAPY_METADATA_OUTPUT=" + BytesToString(md.Output)];
    env := env + ["BAKAPY_METADATA_ERRPUT=" + BytesToString(md.Errput)];
    assert env == environ + MetadataVars(md);
    for i := 0 to |order|
      invariant env == environ + MetadataVars(md) + Rendered(ParamVar, s.params, order[..i])
    {
      assert order[..i + 1][..i] == order[..i];
      env := env + [ParamVar(order[i], s.params[order[i]])];
    }
    assert order[..|order|] == order;
    out := Ran(env, runErr);
  }

  /** The environment a script runs with: the inherited variables first,
      then the task's six variables in their order (success as "1" or
      "0"), then one variable per parameter, in some order. */
  lemma RunEnvironment(s: ScriptedNotificator, md: Metadata, environ: seq<string>, order: seq<string>)
    requires IsKeyOrder(order, s.params)
    ensures var env := environ + MetadataVars(md) + Rendered(ParamVar, s.params, order);
            var n := |environ|;
            |env| == n + 6 + |s.params| &&
            env[..n] == environ &&
            (env[n] == "BAKAPY_METADATA_SUCCESS=1" <==> md.Success) &&
            (env[n] == "BAKAPY_METADATA_SUCCESS=0" <==> !md.Success) &&
            env[n + 1] == "BAKAPY_METADATA_JOBNAME=" + md.JobName &&
            env[n + 2] == "BAKAPY_METADATA_TASKID=" + md.TaskId &&
            env[n + 3] == "BAKAPY_METADATA_MESSAGE=" + md.Message &&
            (forall k :: k in s.params ==> ParamVar(k, s.params[k]) in env[n + 6..])
  {
    var env := environ + MetadataVars(md) + Rendered(ParamVar, s.params, order);
    var n := |environ|;
    KeyCount(order, s.params);
    RenderedHasAll(ParamVar, s.params, order);
    assert env[n + 6..] == Rendered(ParamVar, s.params, order);
    forall k | k in s.params
      ensures ParamVar(k, s.params[k]) in env[n + 6..]
    {
      var i :| 0 <= i < |order| && order[i] == k;
      assert env[n + 6..][i] == ParamVar(k, s.params[k]);
    }
  }

  /** Two runs with the parameters visited in different orders get the same
      variables. */
  lemma ParamOrderFree(s: ScriptedNotificator, md: Metadata, environ: seq<string>, o1: seq<string>, o2: seq<string>)
    requires IsKeyOrder(o1, s.params) && IsKeyOrder(o2, s.params)
    ensures multiset(environ + MetadataVars(md) + Rendered(ParamVar, s.params, o1)) ==
            multiset(environ + MetadataVars(md) + Rendered(ParamVar, s.params, o2))
  {
    RenderedOrderFree(ParamVar, s.params, o1, o2);
  }
}

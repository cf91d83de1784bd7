/** The command line `BashExecutor.GetCmd` builds to run a job's script
    (src/bakapy/bash_executor.go): the job's arguments become shell
    assignments in front of `/bin/bash`, run through `ssh` when the job
    names a host and through the local `bash` otherwise. */
module BashExecutor {
  import opened Common
  import opened Text
  import opened Rendering

  /** One argument as a shell assignment: `NAME='value'`, upper-cased. */
  function EnvAssignment(name: string, value: string): string {
    ToUpper(name) + "='" + value + "'"
  }

  /** `n` empty strings: what `make([]string, n)` holds. */
  function Blanks(n: nat): (r: seq<string>)
    ensures |r| == n && forall i :: 0 <= i < n ==> r[i] == ""
  {
    seq(n, _ => "")
  }

  function Spaces(n: nat): (r: string)
    ensures |r| == n && forall i :: 0 <= i < n ==> r[i] == ' '
  {
    seq(n, _ => ' ')
  }

  /** The `env` slice of `GetCmd`: as many empty strings as there are
      arguments, then the assignments. */
  function Env(args: map<string, string>, order: seq<string>): seq<string>
    requires IsKeyOrder(order, args)
  {
    Blanks(|args|) + Rendered(EnvAssignment, args, order)
  }

  /** The command the remote or local shell runs. */
  function RemoteCmd(sudo: bool, env: seq<string>): string {
    (if sudo then "sudo " else "") + Join(env, " ") + " /bin/bash"
  }

  /** The argument list before the program is looked up. */
  function CmdArgs(host: string, port: nat, remoteCmd: string): (r: seq<string>)
    ensures host != "" ==> r == ["ssh", host, "-oBatchMode=yes", "-p", NatToString(port), remoteCmd]
    ensures host == "" ==> r == ["bash", "-c", remoteCmd]
  {
    if host != "" then ["ssh", host, "-oBatchMode=yes", "-p", NatToString(port), remoteCmd]
    else ["bash", "-c", remoteCmd]
  }

  /** The `exec.Cmd` fields `GetCmd` sets. */
  datatype Cmd = Cmd(Path: string, Args: seq<string>)

  class BashExecutor {
    const Args: map<string, string>
    const Host: string
    var Port: nat
    const Sudo: bool

    constructor (args: map<string, string>, host: string, port: nat, sudo: bool)
      ensures Args == args && Host == host && Port == port && Sudo == sudo
    {
      Args := args;
      Host := host;
      Port := port;
      Sudo := sudo;
    }

    /** `GetCmd`. `order` is the order in which the loop visits `Args`, and
        `lookPath` is `exec.LookPath`. Port 0 becomes 22, in the executor
        too. */
    method GetCmd(order: seq<string>, lookPath: string -> Result<string>) returns (cmd: Result<Cmd>)
      requires IsKeyOrder(order, Args)
      modifies this`Port
      ensures Port == if old(Port) == 0 then 22 else old(Port)
      ensures var args := CmdArgs(Host, Port, RemoteCmd(Sudo, Env(Args, order)));
              (lookPath(args[0]).Err? ==> cmd == Err(lookPath(args[0]).error)) &&
              (lookPath(args[0]).Ok? ==> cmd == Ok(Cmd(lookPath(args[0]).value, args[0 := lookPath(args[0]).value])))
    {
      var env := Blanks(|Args|);
      for i := 0 to |order|
        invariant env == Blanks(|Args|) + Rendered(EnvAssignment, Args, order[..i])
        invariant Port == old(Port)
      {
        RenderedSnoc(EnvAssignment, Args, order, i);
        env := env + [EnvAssignment(order[i], Args[order[i]])];
      }
      assert order[..|order|] == order;
      assert env == Env(Args, order);
      if Port == 0 {
        Port := 22;
      }
      var remoteCmd;
      if Sudo {
        remoteCmd := "sudo " + Join(env, " ") + " /bin/bash";
      } else {
        remoteCmd := Join(env, " ") + " /bin/bash";
        assert remoteCmd == RemoteCmd(Sudo, env);
      }
      var args;
      if Host != "" {
        args := ["ssh", Host, "-oBatchMode=yes", "-p", NatToString(Port), remoteCmd];
      } else {
        args := ["bash", "-c", remoteCmd];
      }
      assert args == CmdArgs(Host, Port, RemoteCmd(Sudo, env));
      var cmdPath := lookPath(args[0]);
      if cmdPath.Err? {
        return Err(cmdPath.error);
      }
      args := args[0 := cmdPath.value];
      cmd := Ok(Cmd(cmdPath.value, args));
    }
  }

  /** Two orders of the same keys: the environment has the same empty
      entries in front and the same assignments after, as a multiset. */
  lemma EnvOrderFree(args: map<string, string>, o1: seq<string>, o2: seq<string>)
    requires IsKeyOrder(o1, args) && IsKeyOrder(o2, args)
    ensures Env(args, o1)[..|args|] == Env(args, o2)[..|args|] == Blanks(|args|)
    ensures multiset(Env(args, o1)[|args|..]) == multiset(Env(args, o2)[|args|..])
  {
    RenderedOrderFree(EnvAssignment, args, o1, o2);
    assert Env(args, o1)[|args|..] == Rendered(EnvAssignment, args, o1);
    assert Env(args, o2)[|args|..] == Rendered(EnvAssignment, args, o2);
  }

  /** `strings.Join` over leading empty strings puts one space per empty
      string in front of the rest. */
  lemma {:induction false} JoinBlanks(n: nat, rest: seq<string>)
    requires rest != []
    ensures Join(Blanks(n) + rest, " ") == Spaces(n) + Join(rest, " ")
  {
    if n > 0 {
      var parts := Blanks(n) + rest;
      assert parts[0] == "" && |parts| >= 2;
      assert parts[1..] == Blanks(n - 1) + rest;
      JoinBlanks(n - 1, rest);
      assert Spaces(n) == " " + Spaces(n - 1);
    } else {
      assert Blanks(n) + rest == rest;
    }
  }

  /** The remote command starts with one space per argument (after
      "sudo " when sudo is on), then the assignments separated by spaces. */
  lemma RemoteCmdShape(sudo: bool, args: map<string, string>, order: seq<string>)
    requires IsKeyOrder(order, args)
    ensures RemoteCmd(sudo, Env(args, order)) ==
            (if sudo then "sudo " else "") + Spaces(|args|) + Join(Rendered(EnvAssignment, args, order), " ") + " /bin/bash"
  {
    if order == [] {
      assert forall k :: k !in args;
      assert args.Keys == {};
      assert Env(args, order) == [];
    } else {
      JoinBlanks(|args|, Rendered(EnvAssignment, args, order));
    }
  }

  /** The assignment of the test suite's one argument. */
  lemma AssignmentExample()
    ensures EnvAssignment("test", "oneone") == "TEST='oneone'"
  {
    assert ToUpper("test") == "TEST" by {
      assert ToUpper("t") == "T";
      assert ToUpper("st") == "ST";
      assert ToUpper("est") == "EST";
    }
  }

  /** With no arguments the command is " /bin/bash". */
  lemma RemoteCmdNoArgs()
    ensures RemoteCmd(false, Env(map[], [])) == " /bin/bash"
  {
    assert Env(map[], []) == [];
  }

  /** The environment for the test suite's one argument. */
  lemma EnvOneArg()
    ensures Env(map["test" := "oneone"], ["test"]) == ["", "TEST='oneone'"]
  {
    var args := map["test" := "oneone"];
    assert |args| == 1;
    AssignmentExample();
    assert ["test"][..0] == [];
    assert Rendered(EnvAssignment, args, ["test"]) == [EnvAssignment("test", "oneone")];
  }

  /** The joined environment for the test suite's one argument. */
  lemma JoinedOneArg()
    ensures Join(Env(map["test" := "oneone"], ["test"]), " ") == " TEST='oneone'"
  {
    EnvOneArg();
    var parts: seq<string> := ["", "TEST='oneone'"];
    assert parts[1..] == ["TEST='oneone'"];
  }

  /** With one argument `test` = "oneone" the command is
      " TEST='oneone' /bin/bash", and "sudo  TEST='oneone' /bin/bash"
      under sudo. */
  lemma RemoteCmdOneArg()
    ensures RemoteCmd(false, Env(map["test" := "oneone"], ["test"])) == " TEST='oneone' /bin/bash"
    ensures RemoteCmd(true, Env(map["test" := "oneone"], ["test"])) == "sudo  TEST='oneone' /bin/bash"
  {
    JoinedOneArg();
  }
}

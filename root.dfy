/** main.go: `root`, the sub-command dispatch of the proxy-checker binary. The
    runners are the cli, serve and bot commands, whose names come from their
    flag sets; what their Init and Run return is an input. root is called with
    os.Args[1:] and itself reads the sub-command and its arguments from
    os.Args, so the model takes os.Args, program name included. */
module Root {
  import opened Errors

  /** A sub-command: its name and what its Init and Run return. */
  datatype Runner = Runner(name: string, initErr: Outcome, runErr: Outcome)

  /** A call root makes on a runner, by its index in the list. */
  datatype Call = Init(runner: nat, args: seq<string>) | Run(runner: nat)

  /** The runner list of root, in its order. */
  function Commands(cliInit: Outcome, cliRun: Outcome, serveInit: Outcome, serveRun: Outcome,
                    botInit: Outcome, botRun: Outcome): (cmds: seq<Runner>)
    ensures |cmds| == 3 && cmds[0].name == "cli" && cmds[1].name == "serve" && cmds[2].name == "bot"
  {
    [Runner("cli", cliInit, cliRun), Runner("serve", serveInit, serveRun), Runner("bot", botInit, botRun)]
  }

  /** The index of the first runner with the given name, or |cmds| when there
      is none. */
  function FirstNamed(cmds: seq<Runner>, name: string): (i: nat)
    ensures i <= |cmds|
    ensures i < |cmds| ==> cmds[i].name == name
    ensures forall j :: 0 <= j < i ==> cmds[j].name != name
    decreases |cmds|
  {
    if cmds == [] then 0 else if cmds[0].name == name then 0 else 1 + FirstNamed(cmds[1..], name)
  }

  /** The names as root lists them in its error: each after a space and in
      single quotes. */
  function Quoted(cmds: seq<Runner>): string {
    if cmds == [] then "" else Quoted(cmds[..|cmds| - 1]) + " '" + cmds[|cmds| - 1].name + "'"
  }

  lemma {:induction false} QuotedConcat(a: seq<Runner>, b: seq<Runner>)
    ensures Quoted(a + b) == Quoted(a) + Quoted(b)
    decreases |b|
  {
    if b == [] {
      assert a + b == a;
    } else {
      assert (a + b)[..|a + b| - 1] == a + b[..|b| - 1];
      QuotedConcat(a, b[..|b| - 1]);
    }
  }

  /** The error when no runner has the name. */
  function NoMatch(cmds: seq<Runner>): GoError {
    Plain("expected" + Quoted(cmds) + " subcommands")
  }

  /** With the three runners of the binary, the error lists them in order. */
  lemma NoMatchMessage(cliInit: Outcome, cliRun: Outcome, serveInit: Outcome, serveRun: Outcome, botInit: Outcome, botRun: Outcome)
    ensures NoMatch(Commands(cliInit, cliRun, serveInit, serveRun, botInit, botRun)).Message()
      == "expected 'cli' 'serve' 'bot' subcommands"
  {
    var cmds := Commands(cliInit, cliRun, serveInit, serveRun, botInit, botRun);
    QuotedThree(cmds);
  }

  lemma QuotedThree(cmds: seq<Runner>)
    requires |cmds| == 3
    ensures Quoted(cmds) == " '" + cmds[0].name + "'" + " '" + cmds[1].name + "'" + " '" + cmds[2].name + "'"
  {
    var one, two := cmds[..1], cmds[..2];
    assert one[..0] == [] && two[..1] == one && cmds[..2] == two;
    assert two[1] == cmds[1] && one[0] == cmds[0];
    assert Quoted(one) == " '" + cmds[0].name + "'";
    assert Quoted(two) == Quoted(one) + " '" + cmds[1].name + "'";
    assert Quoted(cmds) == Quoted(two) + " '" + cmds[2].name + "'";
  }

  /** root: no sub-command is an error; otherwise the first runner with the
      sub-command's name is initialised with the remaining arguments and, if
      that succeeds, run; its error is root's. When no runner has the name,
      the error lists all the names. */
  method Dispatch(osArgs: seq<string>, cmds: seq<Runner>) returns (err: Outcome, calls: seq<Call>)
    requires |osArgs| >= 1
    ensures |osArgs| < 2 ==> err == Fail(Plain("you must pass a sub-command")) && calls == []
    ensures |osArgs| >= 2 && FirstNamed(cmds, osArgs[1]) == |cmds| ==> err == Fail(NoMatch(cmds)) && calls == []
    ensures |osArgs| >= 2 && FirstNamed(cmds, osArgs[1]) < |cmds| ==>
      var i := FirstNamed(cmds, osArgs[1]);
      if cmds[i].initErr.Fail? then calls == [Init(i, osArgs[2..])] && err == cmds[i].initErr
      else calls == [Init(i, osArgs[2..]), Run(i)] && err == cmds[i].runErr
  {
    var args := osArgs[1..];
    if |args| < 1 {
      return Fail(Plain("you must pass a sub-command")), [];
    }
    var subcommand := osArgs[1];
    calls := [];
    var k := 0;
    while k < |cmds|
      invariant 0 <= k <= |cmds|
      invariant forall j :: 0 <= j < k ==> cmds[j].name != subcommand
    {
      if cmds[k].name != subcommand {
        k := k + 1;
        continue;
      }
      FirstNamedIs(cmds, subcommand, k);
      calls := [Init(k, osArgs[2..])];
      if cmds[k].initErr.Fail? {
        return cmds[k].initErr, calls;
      }
      calls := calls + [Run(k)];
      return cmds[k].runErr, calls;
    }
    FirstNamedIs(cmds, subcommand, |cmds|);
    var join := "";
    k := 0;
    while k < |cmds|
      invariant 0 <= k <= |cmds| && join == Quoted(cmds[..k])
    {
      assert cmds[..k + 1][..k] == cmds[..k];
      join := join + " '" + cmds[k].name + "'";
      k := k + 1;
    }
    assert cmds[..k] == cmds;
    err := Fail(Plain("expected" + join + " subcommands"));
  }

  /** FirstNamed is the only index with the name and no earlier one. */
  lemma {:induction false} FirstNamedIs(cmds: seq<Runner>, name: string, i: nat)
    requires i <= |cmds| && (i < |cmds| ==> cmds[i].name == name)
    requires forall j :: 0 <= j < i ==> cmds[j].name != name
    ensures FirstNamed(cmds, name) == i
    decreases |cmds|
  {
    if cmds != [] && i > 0 {
      FirstNamedIs(cmds[1..], name, i - 1);
    }
  }
}

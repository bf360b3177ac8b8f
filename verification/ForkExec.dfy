// Running a command in a container: the argument list built by Exec (lxd/container_lxc.go), the
// command line split (shared/cmd/parser.go) and the section parser of "lxd forkexec"
// (lxd/main_forkexec.go).
module ForkExec {
  import opened GoStrings
  import opened Sequences

  // ----- The builder ---------------------------------------------------------------------------

  /** keys lists the variables of env, each once. */
  ghost predicate Lists(keys: seq<string>, env: map<string, string>) {
    && Distinct(keys)
    && (forall i :: 0 <= i < |keys| ==> keys[i] in env)
    && (forall k :: k in env ==> k in keys)
  }

  function Assignments(keys: seq<string>, env: map<string, string>): (r: seq<string>)
    requires forall i :: 0 <= i < |keys| ==> keys[i] in env
    ensures |r| == |keys|
  {
    seq(|keys|, i requires 0 <= i < |keys| => keys[i] + ['='] + env[keys[i]])
  }

  function Extra(envList: seq<string>, command: seq<string>): seq<string> {
    ["env"] + envList + ["--", "cmd"] + command
  }

  function CommandLine(exe: string, params: seq<string>, envList: seq<string>, command: seq<string>): seq<string> {
    [exe, "forkexec"] + params + ["--"] + Extra(envList, command)
  }

  /** Exec: the environment in whatever order the map is ranged over, then the command. */
  method BuildArgs(exe: string, params: seq<string>, env: map<string, string>, command: seq<string>)
    returns (args: seq<string>, ghost keys: seq<string>)
    ensures Lists(keys, env)
    ensures args == CommandLine(exe, params, Assignments(keys, env), command)
  {
    var envSlice: seq<string> := [];
    keys := [];
    var todo := env.Keys;
    while todo != {}
      invariant todo <= env.Keys
      invariant Distinct(keys)
      invariant forall i :: 0 <= i < |keys| ==> keys[i] in env && keys[i] !in todo
      invariant forall k :: k in env && k !in todo ==> k in keys
      invariant envSlice == Assignments(keys, env)
    {
      var k :| k in todo;
      envSlice := envSlice + [k + ['='] + env[k]];
      keys := keys + [k];
      todo := todo - {k};
    }
    args := [exe, "forkexec"] + params;
    args := args + ["--"];
    args := args + ["env"];
    args := args + envSlice;
    args := args + ["--"];
    args := args + ["cmd"];
    args := args + command;
  }

  // ----- Splitting the command line --------------------------------------------------------------

  datatype Split = Split(subcommand: string, params: seq<string>, extra: seq<string>)

  predicate Flagged(token: string) { token != [] && token[0] == '-' }

  /** n is the first place behind the program's name where something starts with a dash, or the
      end of the line. */
  ghost predicate FirstDash(line: seq<string>, n: nat)
    requires n <= |line|
  {
    && (forall i :: 1 <= i < n ==> line[i] == "" || line[i][0] != '-')
    && (n < |line| ==> line[n] != "" && line[n][0] == '-')
  }

  lemma OneFirstDash(line: seq<string>, n: nat)
    requires 1 <= n <= |line| && FirstDash(line, n)
    ensures forall m :: 1 <= m <= |line| && FirstDash(line, m) ==> m == n
  {
  }

  /** parseRest: what follows the first "--" is extra; any other flag ends the parameters. */
  method SplitLine(line: seq<string>) returns (r: Split)
    requires line != []
    ensures forall n :: 1 <= n <= |line| && FirstDash(line, n) ==>
              && r.subcommand == (if 1 < n then line[1] else "")
              && r.params == (if 1 < n then line[2..n] else [])
              && r.extra == if n < |line| && line[n] == "--" then line[n + 1..] else []
  {
    var rest := line[1..];
    var subcommand, params: seq<string> := "", [];
    for i := 0 to |rest|
      invariant forall j :: 0 <= j < i ==> !Flagged(rest[j])
      invariant i == 0 ==> subcommand == "" && params == []
      invariant 0 < i ==> subcommand == rest[0] && params == rest[1..i]
    {
      assert 0 < i ==> rest[1..i] == line[2..i + 1];
      assert forall n :: 1 <= n <= i + 1 ==> line[n] == rest[n - 1];
      if rest[i] == "--" {
        assert Flagged(line[i + 1]);
        assert rest[i + 1..] == line[i + 2..];
        OneFirstDash(line, i + 1);
        return Split(subcommand, params, rest[i + 1..]);
      }
      if Flagged(rest[i]) {
        assert line[i + 1] == rest[i];
        OneFirstDash(line, i + 1);
        return Split(subcommand, params, []);
      }
      if i == 0 {
        subcommand := rest[i];
      } else {
        params := params + [rest[i]];
      }
    }
    assert forall n :: 1 <= n < |line| ==> line[n] == rest[n - 1];
    assert rest != [] ==> rest[1..|rest|] == line[2..|line|];
    OneFirstDash(line, |line|);
    return Split(subcommand, params, []);
  }

  // ----- The section parser ------------------------------------------------------------------------

  datatype Parsed = Parsed(section: string, env: seq<string>, cmd: seq<string>, cwd: Option<string>)

  const START := Parsed("", [], [], None)

  /** The directory a HOME assignment asks for. */
  function HomeOf(arg: string): Option<string> {
    match Cut(arg, '=')
    case Some((name, value)) => if name == "HOME" then Some(value) else None
    case None => None
  }

  /** One argument; None is the error for an unknown section. */
  function Consume(p: Parsed, arg: string): Option<Parsed> {
    if arg == "--" && p.section != "cmd" then Some(p.(section := ""))
    else if p.section == "" then Some(p.(section := arg))
    else if p.section == "env" then
      Some(p.(env := p.env + [arg], cwd := if HomeOf(arg).Some? then HomeOf(arg) else p.cwd))
    else if p.section == "cmd" then Some(p.(cmd := p.cmd + [arg]))
    else None
  }

  function ConsumeAll(extra: seq<string>): Option<Parsed> {
    if extra == [] then Some(START)
    else
      match ConsumeAll(extra[..|extra|-1])
      case Some(p) => Consume(p, extra[|extra|-1])
      case None => None
  }

  lemma {:induction false} ErrorStays(extra: seq<string>, n: nat)
    requires n <= |extra| && ConsumeAll(extra[..n]).None?
    ensures ConsumeAll(extra).None?
    decreases |extra|
  {
    if n < |extra| {
      assert extra[..|extra|-1][..n] == extra[..n];
      ErrorStays(extra[..|extra|-1], n);
    } else {
      assert extra[..n] == extra;
    }
  }

  method ParseSections(extra: seq<string>) returns (r: Option<Parsed>)
    ensures r == ConsumeAll(extra)
  {
    var section, env, cmd, cwd := "", [], [], None;
    for n := 0 to |extra|
      invariant ConsumeAll(extra[..n]) == Some(Parsed(section, env, cmd, cwd))
    {
      var arg := extra[n];
      assert extra[..n + 1][..n] == extra[..n];
      if arg == "--" && section != "cmd" {
        section := "";
        continue;
      }
      if section == "" {
        section := arg;
        continue;
      }
      if section == "env" {
        var fields := Cut(arg, '=');
        if fields.Some? && fields.value.0 == "HOME" {
          cwd := Some(fields.value.1);
        }
        env := env + [arg];
      } else if section == "cmd" {
        cmd := cmd + [arg];
      } else {
        ErrorStays(extra, n + 1);
        return None;
      }
    }
    assert extra[..|extra|] == extra;
    return Some(Parsed(section, env, cmd, cwd));
  }

  // ----- The parser undoes the builder ----------------------------------------------------------------

  /** The last HOME assignment decides. */
  function LastHome(envList: seq<string>): Option<string> {
    if envList == [] then None
    else
      var home := HomeOf(envList[|envList|-1]);
      if home.Some? then home else LastHome(envList[..|envList|-1])
  }

  lemma ConsumeSnoc(extra: seq<string>, arg: string)
    ensures ConsumeAll(extra + [arg]) ==
            match ConsumeAll(extra) { case Some(p) => Consume(p, arg) case None => None }
  {
    assert (extra + [arg])[..|extra|] == extra;
  }

  lemma {:induction false} EnvSection(envList: seq<string>)
    requires "--" !in envList
    ensures ConsumeAll(["env"] + envList) == Some(Parsed("env", envList, [], LastHome(envList)))
  {
    if envList == [] {
      ConsumeSnoc([], "env");
      assert ["env"] + envList == [] + ["env"];
    } else {
      var n := |envList| - 1;
      assert envList == envList[..n] + [envList[n]];
      EnvSection(envList[..n]);
      ConsumeSnoc(["env"] + envList[..n], envList[n]);
      assert ["env"] + envList == ["env"] + envList[..n] + [envList[n]];
    }
  }

  lemma {:induction false} CmdSection(front: seq<string>, p: Parsed, command: seq<string>)
    requires ConsumeAll(front) == Some(p) && p.section == "cmd"
    ensures ConsumeAll(front + command) == Some(p.(cmd := p.cmd + command))
    decreases |command|
  {
    if command == [] {
      assert front + command == front;
      assert p.cmd + command == p.cmd;
    } else {
      var n := |command| - 1;
      CmdSection(front, p, command[..n]);
      ConsumeSnoc(front + command[..n], command[n]);
      assert front + command == front + command[..n] + [command[n]];
      assert p.cmd + command == p.cmd + command[..n] + [command[n]];
    }
  }

  lemma EnvEnds(envList: seq<string>)
    requires "--" !in envList
    ensures ConsumeAll(["env"] + envList + ["--"] + ["cmd"]) == Some(Parsed("cmd", envList, [], LastHome(envList)))
  {
    EnvSection(envList);
    ConsumeSnoc(["env"] + envList, "--");
    ConsumeSnoc(["env"] + envList + ["--"], "cmd");
  }

  lemma ParsesBack(envList: seq<string>, command: seq<string>)
    requires "--" !in envList
    ensures ConsumeAll(Extra(envList, command)) == Some(Parsed("cmd", envList, command, LastHome(envList)))
  {
    var front := ["env"] + envList + ["--"] + ["cmd"];
    EnvEnds(envList);
    CmdSection(front, Parsed("cmd", envList, [], LastHome(envList)), command);
    assert Extra(envList, command) == front + command;
    assert [] + command == command;
  }

  lemma {:induction false} NoDashesInEnv(extra: seq<string>)
    ensures ConsumeAll(extra).Some? ==> "--" !in ConsumeAll(extra).value.env
  {
    if extra != [] {
      NoDashesInEnv(extra[..|extra|-1]);
    }
  }

  /** The section parser returns the environment list and the command it was given: exactly when
      no environment string is "--".  The command is arbitrary. */
  lemma SectionsRoundTrip(envList: seq<string>, command: seq<string>)
    ensures (exists cwd :: ConsumeAll(Extra(envList, command)) == Some(Parsed("cmd", envList, command, cwd)))
            <==> "--" !in envList
  {
    if "--" !in envList {
      ParsesBack(envList, command);
    } else {
      NoDashesInEnv(Extra(envList, command));
    }
  }

  // ----- From the map to the map -----------------------------------------------------------------------

  /** The variables a list of assignments defines, each split at its first "=". */
  function Decode(envList: seq<string>): map<string, string> {
    if envList == [] then map[]
    else
      var n := |envList| - 1;
      match Cut(envList[n], '=')
      case Some((k, v)) => Decode(envList[..n])[k := v]
      case None => Decode(envList[..n])
  }

  lemma {:induction false} DecodeAssignments(keys: seq<string>, env: map<string, string>)
    requires forall i :: 0 <= i < |keys| ==> keys[i] in env && '=' !in keys[i]
    ensures Decode(Assignments(keys, env)) == map k | k in keys :: env[k]
  {
    if keys != [] {
      var n := |keys| - 1;
      var front, k := keys[..n], keys[n];
      assert keys == front + [k];
      DecodeAssignments(front, env);
      assert Assignments(keys, env)[..n] == Assignments(front, env);
      CutAtFirst(k, '=', env[k]);
      assert (map x | x in front :: env[x])[k := env[k]] == map x | x in keys :: env[x];
    }
  }

  /** Which assignment sets HOME. */
  lemma HomeOfAssignment(k: string, v: string)
    requires '=' !in k
    ensures HomeOf(k + ['='] + v) == if k == "HOME" then Some(v) else None
  {
    CutAtFirst(k, '=', v);
  }

  lemma {:induction false} HomeAssigned(keys: seq<string>, env: map<string, string>, list: seq<string>)
    requires Distinct(keys) && |list| == |keys|
    requires forall i :: 0 <= i < |keys| ==>
               keys[i] in env && '=' !in keys[i] && list[i] == keys[i] + ['='] + env[keys[i]]
    ensures LastHome(list) == if "HOME" in keys then Some(env["HOME"]) else None
  {
    if keys != [] {
      var n := |keys| - 1;
      HomeAssigned(keys[..n], env, list[..n]);
      HomeOfAssignment(keys[n], env[keys[n]]);
      assert keys == keys[..n] + [keys[n]];
    }
  }

  lemma {:induction false} DecodedNames(envList: seq<string>)
    ensures forall k :: k in Decode(envList) ==> '=' !in k
  {
    if envList != [] {
      DecodedNames(envList[..|envList|-1]);
    }
  }

  lemma {:induction false} FrontSkipped(front: seq<string>, extra: seq<string>)
    requires ConsumeAll(front) == Some(START)
    ensures ConsumeAll(front + extra) == ConsumeAll(extra)
    decreases |extra|
  {
    if extra == [] {
      assert front + extra == front;
    } else {
      var n := |extra| - 1;
      FrontSkipped(front, extra[..n]);
      ConsumeSnoc(front + extra[..n], extra[n]);
      assert front + extra == front + extra[..n] + [extra[n]];
    }
  }

  /** A separator in front, or a section without arguments that is not cmd, makes no difference. */
  lemma EmptySections(section: string, extra: seq<string>)
    requires section != "cmd"
    ensures ConsumeAll(["--"] + extra) == ConsumeAll(extra)
    ensures ConsumeAll([section, "--"] + extra) == ConsumeAll(extra)
  {
    ConsumeSnoc([], "--");
    assert [] + ["--"] == ["--"];
    FrontSkipped(["--"], extra);
    ConsumeSnoc([], section);
    ConsumeSnoc([] + [section], "--");
    assert [section, "--"] == [] + [section] + ["--"];
    FrontSkipped([section, "--"], extra);
  }

  /** A section that is neither env nor cmd is an error, as soon as it has an argument. */
  lemma UnknownSection(section: string, arg: string)
    requires section != "" && section != "--" && section != "env" && section != "cmd" && arg != "--"
    ensures ConsumeAll([section, arg]).None?
  {
    ConsumeSnoc([], section);
    ConsumeSnoc([] + [section], arg);
    assert [section, arg] == [] + [section] + [arg];
  }

  lemma AssignmentsHaveNoDashes(keys: seq<string>, env: map<string, string>)
    requires forall i :: 0 <= i < |keys| ==> keys[i] in env
    ensures "--" !in Assignments(keys, env)
  {
    var list := Assignments(keys, env);
    forall i | 0 <= i < |list| ensures list[i] != "--" {
      assert list[i][|keys[i]|] == '=';
    }
  }

  ghost predicate PlainNames(env: map<string, string>) { forall k :: k in env ==> '=' !in k }

  /** Whatever the environment, the command and the order of the map: the parser gets back the
      command and the list of assignments.  Reading the variables from that list gives the
      original environment exactly when no variable name contains "=", and then the working
      directory is the value of HOME. */
  lemma ExecRoundTrip(keys: seq<string>, env: map<string, string>, command: seq<string>)
    requires Lists(keys, env)
    ensures var parsed := ConsumeAll(Extra(Assignments(keys, env), command));
            && parsed.Some?
            && parsed.value.env == Assignments(keys, env)
            && parsed.value.cmd == command
            && (Decode(parsed.value.env) == env <==> PlainNames(env))
            && (PlainNames(env) ==> parsed.value.cwd == if "HOME" in env then Some(env["HOME"]) else None)
  {
    AssignmentsHaveNoDashes(keys, env);
    ParsesBack(Assignments(keys, env), command);
    DecodedNames(Assignments(keys, env));
    if PlainNames(env) {
      DecodeAssignments(keys, env);
      HomeAssigned(keys, env, Assignments(keys, env));
      assert (map k | k in keys :: env[k]) == env;
    }
  }

  /** The whole way: build the command line, split it, parse the sections. */
  method Exec(exe: string, params: seq<string>, env: map<string, string>, command: seq<string>)
    returns (split: Split, r: Option<Parsed>, ghost keys: seq<string>)
    requires forall i :: 0 <= i < |params| ==> params[i] == "" || params[i][0] != '-'
    ensures split.subcommand == "forkexec" && split.params == params
    ensures r.Some? && r.value.cmd == command
    ensures Lists(keys, env) && |r.value.env| == |keys|
    ensures forall i :: 0 <= i < |keys| ==> r.value.env[i] == keys[i] + "=" + env[keys[i]]
    ensures PlainNames(env) ==> r.value.cwd == if "HOME" in env then Some(env["HOME"]) else None
  {
    var line;
    line, keys := BuildArgs(exe, params, env, command);
    split := SplitLine(line);
    ghost var n := 2 + |params|;
    assert line[n] == "--" && line[n + 1..] == Extra(Assignments(keys, env), command);
    assert line[1] == "forkexec" && line[2..n] == params && FirstDash(line, n);
    r := ParseSections(split.extra);
    ExecRoundTrip(keys, env, command);
  }
}

/** The Run function of `execroot` (cmd/execroot.go:56-127): find the
    container, collect what the debug container needs, and pick the argument
    list that replaces the process. The docker lookups arrive as functions
    of the container identifier; printing is not modelled. */
module ExecRoot {
  import opened Wrappers
  import opened CmdCommon
  import opened DockerUtil

  /** The one shell the mounted mode starts when no command is given. */
  const DefaultShell: string := "/bin/bash"

  /** The command line of the no-chroot mode without a command: mount the
      target, then a login shell. */
  const NoChrootShellLine: string := MountSlashContainer + "/bin/bash -l"

  /** How Run ends: os.Exit with a code, or syscall.Exec of the docker binary
      with an argument list. */
  datatype Outcome = Exit(code: int) | Exec(path: string, argv: seq<string>)

  /** The compose service's container when the lookup worked, the argument as given otherwise
      (cmd/execroot.go:57-64). */
  function ContainerIdentifier(arg0: string, composeLookup: Option<string>): (r: string)
    ensures composeLookup.None? ==> r == arg0
    ensures composeLookup.Some? ==> r == composeLookup.value
  {
    match composeLookup
    case Some(name) => name
    case None => arg0
  }

  /** What follows the nsenter words, by mode (cmd/execroot.go:97-124). */
  function ModeTail(noMount: bool, args: seq<string>): (r: seq<string>)
    requires |args| >= 1
    ensures |r| >= 1
    ensures !noMount ==> r[0] == "--mount"
  {
    if noMount then
      if |args| > 1 then args[1..] else [DefaultShell, "-c", NoChrootShellLine]
    else
      ["--mount"] + (if |args| > 1 then args[1..] else [DefaultShell])
  }

  /** The argument list Run passes to syscall.Exec (cmd/execroot.go:89-126). */
  function ExecRootArgv(fullContainerName: string, debugImage: string, pid: string, envVars: seq<string>,
                        noMount: bool, args: seq<string>): (r: seq<string>)
    requires |args| >= 1
    ensures |r| == 7 + |envVars| + 1 + 5 + |ModeTail(noMount, args)|
    ensures r[0] == "docker"
    ensures r[..7 + |envVars| + 1 + 5] == DockerRunNsenterCommand(fullContainerName, debugImage, pid, envVars)
    ensures r[7 + |envVars| + 1 + 5..] == ModeTail(noMount, args)
  {
    DockerRunNsenterCommand(fullContainerName, debugImage, pid, envVars) + ModeTail(noMount, args)
  }

  /** Run of execroot. `args` has at least one element (cobra.MinimumNArgs(1));
      the lookups stand for TryGetDockerContainerNameFromDockerCompose,
      GetRootPidForDockerContainer, GetFullContainerName and the env inspect. */
  function ExecRootRun(args: seq<string>, noMount: bool, debugImage: string,
                       composeLookup: Option<string>,
                       rootPid: string -> Option<string>,
                       fullName: string -> Option<string>,
                       envInspect: string -> EnvInspect,
                       dockerPath: string): (r: Outcome)
    requires |args| >= 1
    ensures r.Exit? ==> r.code == 1
    ensures r.Exit? <==>
      var id := ContainerIdentifier(args[0], composeLookup);
      rootPid(id).None? || fullName(id).None? || EnvCliCalls(envInspect(fullName(id).value)).Failure?
    ensures r.Exec? ==> r.path == dockerPath
  {
    var id := ContainerIdentifier(args[0], composeLookup);
    match rootPid(id)
    case None => Exit(1)
    case Some(pid) =>
      match fullName(id)
      case None => Exit(1)
      case Some(name) =>
        match EnvCliCalls(envInspect(name))
        case Failure(_) => Exit(1)
        case Success(envVars) => Exec(dockerPath, ExecRootArgv(name, debugImage, pid, envVars, noMount, args))
  }

  /** The default (mounted) mode: after the nsenter words comes "--mount",
      then the user's command, or a bash when there is none. */
  lemma DefaultModeArgv(fullContainerName: string, debugImage: string, pid: string, envVars: seq<string>, args: seq<string>)
    requires |args| >= 1
    ensures var r := ExecRootArgv(fullContainerName, debugImage, pid, envVars, false, args);
      var k := 7 + |envVars| + 1 + 5;
      && r[k] == "--mount"
      && (|args| > 1 ==> r[k + 1..] == args[1..])
      && (|args| == 1 ==> r[k + 1..] == [DefaultShell])
  {
    var r := ExecRootArgv(fullContainerName, debugImage, pid, envVars, false, args);
    var k := 7 + |envVars| + 1 + 5;
    assert r[k..] == ModeTail(false, args);
    assert r[k + 1..] == r[k..][1..];
  }

  /** --no-chroot with a command: the command follows the nsenter words
      verbatim, with no "--mount" inserted. */
  lemma NoChrootCommandArgv(fullContainerName: string, debugImage: string, pid: string, envVars: seq<string>, args: seq<string>)
    requires |args| > 1
    ensures ExecRootArgv(fullContainerName, debugImage, pid, envVars, true, args)
         == DockerRunNsenterCommand(fullContainerName, debugImage, pid, envVars) + args[1..]
  {
  }

  /** --no-chroot without a command: the argument list ends with a bash that
      mounts the target and then starts a login shell. */
  lemma NoChrootShellArgv(fullContainerName: string, debugImage: string, pid: string, envVars: seq<string>, args: seq<string>)
    requires |args| == 1
    ensures var r := ExecRootArgv(fullContainerName, debugImage, pid, envVars, true, args);
      r[|r| - 3..] == [DefaultShell, "-c", MountSlashContainer + "/bin/bash -l"]
  {
    var r := ExecRootArgv(fullContainerName, debugImage, pid, envVars, true, args);
    var k := 7 + |envVars| + 1 + 5;
    assert r[k..] == ModeTail(true, args);
    assert |r| - 3 == k;
  }

  /** The container's env arguments sit between the fixed docker-run words
      and the debug image, and the nsenter target is the root pid. */
  lemma ArgvLayout(fullContainerName: string, debugImage: string, pid: string, envVars: seq<string>, noMount: bool, args: seq<string>)
    requires |args| >= 1
    ensures var r := ExecRootArgv(fullContainerName, debugImage, pid, envVars, noMount, args);
      && r[..7] == DockerRunPrefix(fullContainerName)
      && r[7..7 + |envVars|] == envVars
      && r[7 + |envVars|] == debugImage
      && r[7 + |envVars| + 1..7 + |envVars| + 1 + 5] == NsenterCommand(pid)
  {
    var r := ExecRootArgv(fullContainerName, debugImage, pid, envVars, noMount, args);
    var d := DockerRunNsenterCommand(fullContainerName, debugImage, pid, envVars);
    var c := DockerRunCommand(fullContainerName, debugImage, envVars);
    assert r[..|d|] == d;
    assert d[..|c|] == c;
    assert r[..7] == c[..7];
    assert r[7..7 + |envVars|] == c[7..7 + |envVars|];
    assert r[7 + |envVars|] == c[|c| - 1];
    assert r[|c|..|d|] == d[|d| - 5..];
  }

  /** Run reaches syscall.Exec exactly when every lookup succeeded, and then
      executes docker with the argument list built from what they returned. */
  lemma RunExecs(args: seq<string>, noMount: bool, debugImage: string, composeLookup: Option<string>,
                 rootPid: string -> Option<string>, fullName: string -> Option<string>,
                 envInspect: string -> EnvInspect, dockerPath: string,
                 pid: string, name: string, env: seq<string>)
    requires |args| >= 1
    requires var id := ContainerIdentifier(args[0], composeLookup);
      rootPid(id) == Some(pid) && fullName(id) == Some(name) && envInspect(name) == EnvJson(env)
    ensures ExecRootRun(args, noMount, debugImage, composeLookup, rootPid, fullName, envInspect, dockerPath)
         == Exec(dockerPath, ExecRootArgv(name, debugImage, pid, EnvArgs(env), noMount, args))
  {
  }
}

/** cmd/common.go: the argument lists that start a privileged debug container
    and enter the target container's namespaces with nsenter. */
module CmdCommon {
  import opened Wrappers
  import opened GoStrings

  /** The shell prefix that mounts the target's /proc and links its root file
      system to /container. */
  const MountSlashContainer: string := MountProc + ";" + LinkContainerRoot + ";"

  const MountProc: string := "mount -t proc proc /proc"
  const LinkContainerRoot: string := " ln -s /proc/1/root /container"

  /** The suffix given to the debug container's name. */
  const DebugSuffix: string := "_DEBUG"

  /** The seven fixed words that open every `docker run` of the debug container. */
  function DockerRunPrefix(fullContainerName: string): (r: seq<string>)
    ensures |r| == 7
  {
    ["docker", "run", "--rm", "--name", fullContainerName + DebugSuffix, "--privileged", "--pid=host"]
  }

  /** dockerRunCommand (cmd/common.go:13-29). */
  function DockerRunCommand(fullContainerName: string, debugImage: string, extraDockerRunArgs: seq<string>): (r: seq<string>)
    ensures |r| == 7 + |extraDockerRunArgs| + 1
    ensures r[..7] == DockerRunPrefix(fullContainerName)
    ensures r[7..7 + |extraDockerRunArgs|] == extraDockerRunArgs
    ensures r[|r| - 1] == debugImage
  {
    DockerRunPrefix(fullContainerName) + extraDockerRunArgs + [debugImage]
  }

  /** nsenterCommand (cmd/common.go:31-43). */
  function NsenterCommand(pid: string): (r: seq<string>)
    ensures |r| == 5 && r[0] == "nsenter"
    ensures r[1] == "--target" && r[2] == pid
    ensures r[3] == "--ipc" && r[4] == "--pid"
  {
    ["nsenter", "--target", pid, "--ipc", "--pid"]
  }

  /** dockerRunNsenterCommand (cmd/common.go:5-11). */
  function DockerRunNsenterCommand(fullContainerName: string, debugImage: string, pid: string, extraDockerRunArgs: seq<string>): (r: seq<string>)
    ensures |r| == 7 + |extraDockerRunArgs| + 1 + 5
    ensures r[..|r| - 5] == DockerRunCommand(fullContainerName, debugImage, extraDockerRunArgs)
    ensures r[|r| - 5..] == NsenterCommand(pid)
  {
    DockerRunCommand(fullContainerName, debugImage, extraDockerRunArgs) + NsenterCommand(pid)
  }

  /** The pieces of a docker-run argument list, read back. */
  datatype DockerRun = DockerRun(fullContainerName: string, debugImage: string, extraDockerRunArgs: seq<string>)

  /** Reads a `docker run` argument list of the shape DockerRunCommand builds. */
  function ParseDockerRun(argv: seq<string>): (r: Option<DockerRun>)
    ensures r.Some? ==> |argv| >= 8 && argv[|argv| - 1] == r.value.debugImage
  {
    if |argv| < 8 then None
    else
      var name := argv[4];
      if argv[..4] != ["docker", "run", "--rm", "--name"] || argv[5..7] != ["--privileged", "--pid=host"] then None
      else if |name| < |DebugSuffix| || name[|name| - |DebugSuffix|..] != DebugSuffix then None
      else Some(DockerRun(name[..|name| - |DebugSuffix|], argv[|argv| - 1], argv[7..|argv| - 1]))
  }

  /** Every argument list DockerRunCommand builds reads back as its inputs. */
  lemma ParseDockerRunCommand(fullContainerName: string, debugImage: string, extraDockerRunArgs: seq<string>)
    ensures ParseDockerRun(DockerRunCommand(fullContainerName, debugImage, extraDockerRunArgs))
         == Some(DockerRun(fullContainerName, debugImage, extraDockerRunArgs))
  {
    var argv := DockerRunCommand(fullContainerName, debugImage, extraDockerRunArgs);
    var name := fullContainerName + DebugSuffix;
    assert argv[4] == name;
    assert argv[..4] == ["docker", "run", "--rm", "--name"];
    assert argv[5..7] == ["--privileged", "--pid=host"];
    assert name[|name| - |DebugSuffix|..] == DebugSuffix;
    assert name[..|name| - |DebugSuffix|] == fullContainerName;
    assert argv[7..|argv| - 1] == extraDockerRunArgs;
  }

  /** Different inputs never give the same docker-run argument list. */
  lemma DockerRunCommandInjective(n1: string, i1: string, e1: seq<string>, n2: string, i2: string, e2: seq<string>)
    requires DockerRunCommand(n1, i1, e1) == DockerRunCommand(n2, i2, e2)
    ensures n1 == n2 && i1 == i2 && e1 == e2
  {
    ParseDockerRunCommand(n1, i1, e1);
    ParseDockerRunCommand(n2, i2, e2);
  }

  /** Whatever command is appended, the mount prefix stays three separate
      shell commands: splitting the line at ';' gives the two mount steps
      and then exactly the appended command. */
  lemma MountSlashContainerSeparates(command: string)
    requires ';' !in command
    ensures Split(MountSlashContainer + command, ';')
         == [MountProc, LinkContainerRoot, command]
  {
    assert ';' !in MountProc && ';' !in LinkContainerRoot;
    SplitThree(MountProc, LinkContainerRoot, command, ';');
  }
}

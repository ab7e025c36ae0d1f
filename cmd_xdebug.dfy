/** cmd/xdebug.go: the names under which extra folders are exported over
    WebDAV, the script that starts the WebDAV server, the argument list that
    installs Xdebug, and the mount commands issued on the host. */
module Xdebug {
  import opened GoStrings
  import opened CmdCommon

  /** The host port the WebDAV server publishes. */
  const WebdavPortMapping: string := "19889:80"
  const WebdavBaseUrl: string := "http://127.0.0.1:19889"

  /** convertToTopLevelExport (cmd/xdebug.go:20-22): a path flattened to one
      top-level name by deleting every '/'. */
  function ConvertToTopLevelExport(exportedPath: string): (r: string)
    ensures '/' !in r
    ensures |r| <= |exportedPath|
  {
    RemoveChar(exportedPath, '/')
  }

  /** Flattening a flattened name changes nothing. */
  lemma ConvertToTopLevelExportIdempotent(exportedPath: string)
    ensures ConvertToTopLevelExport(ConvertToTopLevelExport(exportedPath)) == ConvertToTopLevelExport(exportedPath)
  {
    RemoveCharAbsent(ConvertToTopLevelExport(exportedPath), '/');
  }

  /** A name without '/' is its own export name. */
  lemma ConvertToTopLevelExportKeeps(exportedPath: string)
    requires '/' !in exportedPath
    ensures ConvertToTopLevelExport(exportedPath) == exportedPath
  {
    RemoveCharAbsent(exportedPath, '/');
  }

  /** Flattening a path is flattening its pieces and putting them side by side. */
  lemma ConvertToTopLevelExportConcat(a: string, b: string)
    ensures ConvertToTopLevelExport(a + "/" + b) == ConvertToTopLevelExport(a) + ConvertToTopLevelExport(b)
  {
    var slash := ['/'];
    assert a + "/" + b == a + slash + b;
    calc {
      RemoveChar(a + slash + b, '/');
      { RemoveCharAppend(a + slash, b, '/'); }
      RemoveChar(a + slash, '/') + RemoveChar(b, '/');
      { RemoveCharAppend(a, slash, '/'); RemoveCharAbsent([], '/'); }
      RemoveChar(a, '/') + [] + RemoveChar(b, '/');
      { assert RemoveChar(a, '/') + [] == RemoveChar(a, '/'); }
      RemoveChar(a, '/') + RemoveChar(b, '/');
    }
  }

  // ---------------------------------------------------------------------
  // The WebDAV export list of phpXdebugMountScript
  // ---------------------------------------------------------------------

  /** One GoWebDAV export: URL prefix, served directory, user, password, read-only flag
      (cmd/xdebug.go:58). */
  function DavExport(folder: string): (r: string)
    ensures |r| > 0 && r[0] == '/'
  {
    "/" + ConvertToTopLevelExport(folder) + "," + ContainerDir + folder + "," + DavFlags
  }

  /** User, password and read-only flag of every export: no credentials, writable. */
  const DavFlags: string := "null,null,false"

  /** Where the target container's file system appears in the debug container. */
  const ContainerDir: string := "/container/"

  /** A character that is neither ',' nor in the fixed words of an export is
      in the export only when it is in the folder. */
  lemma DavExportAvoids(folder: string, x: char)
    requires x !in folder && x != ',' && x != '/' && x !in ContainerDir && x !in DavFlags
    ensures x !in DavExport(folder)
  {
    if x in ConvertToTopLevelExport(folder) {
      RemoveCharSubset(folder, '/', x);
    }
  }

  /** The folders of a --mount value: every comma-separated entry, with its
      leading and trailing '/' trimmed; empty entries are kept. */
  function MountFolders(extraMountFolders: string): (r: seq<string>)
    ensures |r| == |Split(extraMountFolders, ',')|
    ensures forall i :: 0 <= i < |r| ==> r[i] == Trim(Split(extraMountFolders, ',')[i], '/')
  {
    TrimEach(Split(extraMountFolders, ','))
  }

  function TrimEach(entries: seq<string>): (r: seq<string>)
    ensures |r| == |entries|
    ensures forall i :: 0 <= i < |r| ==> r[i] == Trim(entries[i], '/')
  {
    if entries == [] then [] else TrimEach(entries[..|entries| - 1]) + [Trim(entries[|entries| - 1], '/')]
  }

  /** The export for each folder, in order. */
  function DavExportList(folders: seq<string>): (r: seq<string>)
    ensures |r| == |folders|
    ensures forall i :: 0 <= i < |r| ==> r[i] == DavExport(folders[i])
  {
    if folders == [] then [] else DavExportList(folders[..|folders| - 1]) + [DavExport(folders[|folders| - 1])]
  }

  /** The loop of phpXdebugMountScript (cmd/xdebug.go:55-59). */
  method DavExports(extraMountFolders: string) returns (davExports: seq<string>)
    ensures davExports == DavExportList(MountFolders(extraMountFolders))
  {
    var entries := Split(extraMountFolders, ',');
    davExports := [];
    var k := 0;
    while k < |entries|
      invariant 0 <= k <= |entries|
      invariant |davExports| == k
      invariant forall i :: 0 <= i < k ==> davExports[i] == DavExport(Trim(entries[i], '/'))
    {
      var extraMountFolder := Trim(entries[k], '/');
      davExports := davExports + [DavExport(extraMountFolder)];
      k := k + 1;
    }
    DavExportsPointwise(entries, davExports);
  }

  lemma DavExportsPointwise(entries: seq<string>, davs: seq<string>)
    requires |davs| == |entries|
    requires forall i :: 0 <= i < |davs| ==> davs[i] == DavExport(Trim(entries[i], '/'))
    ensures davs == DavExportList(TrimEach(entries))
  {
    var folders := TrimEach(entries);
    var spec := DavExportList(folders);
    forall i | 0 <= i < |spec| ensures spec[i] == davs[i] {
      assert folders[i] == Trim(entries[i], '/');
      assert spec[i] == DavExport(folders[i]);
    }
  }

  const GoWebdavRelease: string := "https://github.com/117503445/GoWebDAV/releases/download/1.9.0/gowebdav_linux_"

  /** The text of the mount script for a non-empty --mount value (cmd/xdebug.go:61-73). */
  function MountScriptText(goarch: string, extraMountFolders: string, davList: string): (r: string)
    ensures r != ""
  {
    MountSlashContainer
      + "\n\nexport HTTP_PROXY=\"\"\nexport HTTPS_PROXY=\"\"\n\necho " + GoWebdavRelease + goarch
      + "\n\ncurl -L -o /bin/gowebdav " + GoWebdavRelease + goarch
      + "\nchmod +x /bin/gowebdav\n\necho \"Starting webdav server for extra mounts on  " + extraMountFolders
      + "\"\n/bin/gowebdav --dav \"" + davList + "\"\n"
  }

  /** phpXdebugMountScript (cmd/xdebug.go:53-76); `goarch` is runtime.GOARCH. */
  method PhpXdebugMountScript(extraMountFolders: string, goarch: string) returns (script: string)
    ensures extraMountFolders == "" <==> script == ""
    ensures extraMountFolders != "" ==>
      script == MountScriptText(goarch, extraMountFolders, Join(DavExportList(MountFolders(extraMountFolders)), ";"))
  {
    if |extraMountFolders| > 0 {
      var davExports := DavExports(extraMountFolders);
      return MountScriptText(goarch, extraMountFolders, Join(davExports, ";"));
    }
    return "";
  }

  /** The characters of a trimmed string come from the string. */
  lemma TrimSubset(s: string, c: char, x: char)
    requires x in Trim(s, c)
    ensures x in s
  {
    var i, j := TrimInfix(s, c);
    var k :| 0 <= k < j - i && s[i..j][k] == x;
    assert s[i + k] == x;
  }

  /** A character absent from the --mount value is absent from every folder. */
  lemma MountFoldersAvoid(extraMountFolders: string, x: char, i: int)
    requires x !in extraMountFolders && 0 <= i < |MountFolders(extraMountFolders)|
    ensures x !in MountFolders(extraMountFolders)[i]
  {
    var entries := Split(extraMountFolders, ',');
    if x in Trim(entries[i], '/') {
      TrimSubset(entries[i], '/', x);
      JoinSplit(extraMountFolders, ',');
      JoinContains(entries, [','], i, x);
    }
  }

  /** A character of one piece is a character of the joined string. */
  lemma {:induction false} JoinContains(parts: seq<string>, sep: string, i: int, x: char)
    requires 0 <= i < |parts| && x in parts[i]
    ensures x in Join(parts, sep)
  {
    if |parts| > 1 {
      if i > 0 {
        JoinContains(parts[1..], sep, i - 1, x);
      }
      assert Join(parts, sep) == parts[0] + sep + Join(parts[1..], sep);
    }
  }

  /** No folder contains ',' (the entries were split at it). */
  lemma MountFoldersNoComma(extraMountFolders: string, i: int)
    requires 0 <= i < |MountFolders(extraMountFolders)|
    ensures ',' !in MountFolders(extraMountFolders)[i]
  {
    var entries := Split(extraMountFolders, ',');
    SplitPiecesAvoid(extraMountFolders, ',', i);
    if ',' in Trim(entries[i], '/') {
      TrimSubset(entries[i], '/', ',');
    }
  }

  /** Reading an export back: for a folder without ',', splitting the export
      at ',' gives the five GoWebDAV fields, the first being "/" and the flattened
      name and the second the folder under /container. */
  lemma DavExportFields(folder: string)
    requires ',' !in folder
    ensures Split(DavExport(folder), ',')
         == ["/" + ConvertToTopLevelExport(folder), ContainerDir + folder, "null", "null", "false"]
  {
    var name := ConvertToTopLevelExport(folder);
    if ',' in name {
      RemoveCharSubset(folder, '/', ',');
    }
    var first, second := "/" + name, ContainerDir + folder;
    assert ',' !in ContainerDir;
    assert DavExport(folder) == first + [','] + (second + [','] + DavFlags);
    SplitConsTwo(first, second, DavFlags, ',');
    DavFlagsFields();
    AppendFive(first, second, "null", "null", "false");
  }

  lemma AppendFive<T>(a: T, b: T, c: T, d: T, e: T)
    ensures [a, b] + [c, d, e] == [a, b, c, d, e]
  {
  }

  lemma DavFlagsFields()
    ensures Split(DavFlags, ',') == ["null", "null", "false"]
  {
    assert DavFlags == "null" + [','] + "null" + [','] + "false";
    SplitThree("null", "null", "false", ',');
  }

  lemma DavExportsAvoidSemicolon(folders: seq<string>)
    requires forall i :: 0 <= i < |folders| ==> ';' !in folders[i]
    ensures forall i :: 0 <= i < |DavExportList(folders)| ==> ';' !in DavExportList(folders)[i]
  {
    forall i | 0 <= i < |folders| ensures ';' !in DavExportList(folders)[i] {
      DavExportAvoids(folders[i], ';');
    }
  }

  lemma MountFoldersAvoidAll(extraMountFolders: string, x: char)
    requires x !in extraMountFolders
    ensures forall i :: 0 <= i < |MountFolders(extraMountFolders)| ==> x !in MountFolders(extraMountFolders)[i]
  {
    forall i | 0 <= i < |MountFolders(extraMountFolders)| ensures x !in MountFolders(extraMountFolders)[i] {
      MountFoldersAvoid(extraMountFolders, x, i);
    }
  }

  /** With no ';' in the --mount value the dav argument of the script reads
      back, at ';', as the exports, one per comma-separated entry. */
  lemma DavArgumentReadsBack(extraMountFolders: string)
    requires ';' !in extraMountFolders
    ensures var davs := DavExportList(MountFolders(extraMountFolders));
      Split(Join(davs, ";"), ';') == davs && |davs| == |Split(extraMountFolders, ',')|
  {
    var folders := MountFolders(extraMountFolders);
    MountFoldersAvoidAll(extraMountFolders, ';');
    DavExportsAvoidSemicolon(folders);
    var davs := DavExportList(folders);
    SplitJoin(davs, ';');
  }

  // ---------------------------------------------------------------------
  // The install argument list (cmd/xdebug.go:177-190)
  // ---------------------------------------------------------------------

  /** The extra `docker run` arguments: the env arguments, then the WebDAV
      port mapping only when folders are to be mounted (cmd/xdebug.go:177-180). */
  function ExtraDockerRunArgs(envArgs: seq<string>, extraMountFolders: string): (r: seq<string>)
    ensures |r| >= |envArgs| && r[..|envArgs|] == envArgs
    ensures extraMountFolders == "" ==> r == envArgs
    ensures extraMountFolders != "" ==> r[|envArgs|..] == ["-p", WebdavPortMapping]
  {
    if |extraMountFolders| > 0 then envArgs + ["-p", WebdavPortMapping] else envArgs
  }

  /** The full install argument list (cmd/xdebug.go:184-188). */
  function InstallArgv(fullContainerName: string, debugImage: string, pid: string,
                       extraDockerRunArgs: seq<string>, installScript: string): (r: seq<string>)
    ensures |r| == 7 + |extraDockerRunArgs| + 1 + 5 + 4
    ensures r[..|r| - 4] == DockerRunNsenterCommand(fullContainerName, debugImage, pid, extraDockerRunArgs)
    ensures r[|r| - 4..] == ["--net", "/bin/bash", "-c", installScript]
  {
    DockerRunNsenterCommand(fullContainerName, debugImage, pid, extraDockerRunArgs)
      + ["--net", "/bin/bash", "-c", installScript]
  }

  /** What is handed to exec.Command after the docker binary: the install
      argument list without its first word (cmd/xdebug.go:190). */
  function InstallExecArgs(fullContainerName: string, debugImage: string, pid: string,
                           extraDockerRunArgs: seq<string>, installScript: string): (r: seq<string>)
    ensures ["docker"] + r == InstallArgv(fullContainerName, debugImage, pid, extraDockerRunArgs, installScript)
    ensures r[0] == "run"
  {
    InstallArgv(fullContainerName, debugImage, pid, extraDockerRunArgs, installScript)[1..]
  }

  /** The WebDAV port is published exactly when folders are to be mounted:
      the two words after the env arguments are "-p" and the mapping, or the
      debug image follows the env arguments directly. */
  lemma InstallPublishesWebdavPort(fullContainerName: string, debugImage: string, pid: string,
                                   envArgs: seq<string>, extraMountFolders: string, installScript: string)
    ensures var r := InstallArgv(fullContainerName, debugImage, pid, ExtraDockerRunArgs(envArgs, extraMountFolders), installScript);
      var k := 7 + |envArgs|;
      && (extraMountFolders != "" ==> r[k..k + 3] == ["-p", WebdavPortMapping, debugImage])
      && (extraMountFolders == "" ==> r[k] == debugImage)
  {
    var extra := ExtraDockerRunArgs(envArgs, extraMountFolders);
    var r := InstallArgv(fullContainerName, debugImage, pid, extra, installScript);
    var c := DockerRunCommand(fullContainerName, debugImage, extra);
    var k := 7 + |envArgs|;
    assert r[..|c|] == c;
    assert c[7..7 + |extra|] == extra;
    if extraMountFolders != "" {
      assert extra[|envArgs|..] == ["-p", WebdavPortMapping];
      assert r[k] == extra[|envArgs|] && r[k + 1] == extra[|envArgs| + 1];
      assert r[k + 2] == c[|c| - 1];
    } else {
      assert r[k] == c[|c| - 1];
    }
  }

  // ---------------------------------------------------------------------
  // The host mounts (cmd/xdebug.go:227-251)
  // ---------------------------------------------------------------------

  /** The `mount` invocation for one folder (cmd/xdebug.go:235-241). */
  function MountCommand(folder: string): (r: seq<string>)
    ensures |r| == 5 && r[..3] == ["mount", "-t", "webdav"] && r[4] == folder
  {
    ["mount", "-t", "webdav", WebdavBaseUrl + "/" + ConvertToTopLevelExport(folder), folder]
  }

  /** The URL the host mounts is the server's address followed by the
      first field of the folder's WebDAV export: mount and export agree. */
  lemma MountUrlMatchesExport(folder: string)
    requires ',' !in folder
    ensures MountCommand(folder)[3] == WebdavBaseUrl + Split(DavExport(folder), ',')[0]
  {
    DavExportFields(folder);
  }

  /** The mounts issued, in order, stopping after the first one that fails;
      `failed` says the loop ended with os.Exit(1). */
  datatype Mounts = Mounts(issued: seq<seq<string>>, failed: bool)

  function MountRun(folders: seq<string>, mountOk: seq<string> -> bool): (r: Mounts)
    ensures |r.issued| <= |folders|
  {
    if folders == [] then Mounts([], false)
    else
      var cmd := MountCommand(folders[0]);
      if !mountOk(cmd) then Mounts([cmd], true)
      else
        var rest := MountRun(folders[1..], mountOk);
        Mounts([cmd] + rest.issued, rest.failed)
  }

  /** The loop issues the folders' mount commands in order; every command but
      the last succeeded; it fails exactly when the last one issued failed, and
      otherwise every folder was mounted. */
  lemma {:induction false} MountRunStops(folders: seq<string>, mountOk: seq<string> -> bool)
    ensures var r := MountRun(folders, mountOk);
      && (forall i :: 0 <= i < |r.issued| ==> r.issued[i] == MountCommand(folders[i]))
      && (forall i :: 0 <= i < |r.issued| - 1 ==> mountOk(r.issued[i]))
      && (r.failed <==> (r.issued != [] && !mountOk(r.issued[|r.issued| - 1])))
      && (!r.failed ==> |r.issued| == |folders|)
  {
    if folders != [] {
      var cmd := MountCommand(folders[0]);
      if mountOk(cmd) {
        MountRunStops(folders[1..], mountOk);
        var rest := MountRun(folders[1..], mountOk);
        var r := MountRun(folders, mountOk);
        assert r.issued == [cmd] + rest.issued;
        forall i | 0 < i < |r.issued| ensures r.issued[i] == MountCommand(folders[i]) {
          assert r.issued[i] == rest.issued[i - 1];
        }
        forall i | 0 < i < |r.issued| - 1 ensures mountOk(r.issued[i]) {
          assert r.issued[i] == rest.issued[i - 1];
        }
      }
    }
  }

  /** One step of MountRun, from position k of the folder list. */
  lemma MountRunStep(folders: seq<string>, k: int, mountOk: seq<string> -> bool)
    requires 0 <= k < |folders|
    ensures var cmd := MountCommand(folders[k]);
      var rest := MountRun(folders[k + 1..], mountOk);
      MountRun(folders[k..], mountOk)
        == if mountOk(cmd) then Mounts([cmd] + rest.issued, rest.failed) else Mounts([cmd], true)
  {
    assert folders[k..][0] == folders[k] && folders[k..][1..] == folders[k + 1..];
  }

  /** With `issued` before a run that starts with `cmd`, issuing `cmd` and
      going on, or stopping at it, still adds up to the whole run. */
  lemma MountsAdvance(total: Mounts, issued: seq<seq<string>>, cmd: seq<string>, ok: bool, here: Mounts, rest: Mounts)
    requires total == Mounts(issued + here.issued, here.failed)
    requires here == if ok then Mounts([cmd] + rest.issued, rest.failed) else Mounts([cmd], true)
    ensures ok ==> total == Mounts(issued + [cmd] + rest.issued, rest.failed)
    ensures !ok ==> total == Mounts(issued + [cmd], true)
  {
    if ok {
      assert issued + ([cmd] + rest.issued) == issued + [cmd] + rest.issued;
    }
  }

  /** The mount loop; `mountOk` stands for mountC.Run() returning no error.
      Creating missing folders with os.MkdirAll does not change the commands. */
  method MountFolderCommands(extraMountFolders: string, mountOk: seq<string> -> bool) returns (issued: seq<seq<string>>, failed: bool)
    ensures Mounts(issued, failed) == MountRun(MountFolders(extraMountFolders), mountOk)
  {
    var entries := Split(extraMountFolders, ',');
    issued, failed := MountEach(entries, mountOk);
  }

  method MountEach(entries: seq<string>, mountOk: seq<string> -> bool) returns (issued: seq<seq<string>>, failed: bool)
    ensures Mounts(issued, failed) == MountRun(TrimEach(entries), mountOk)
  {
    ghost var folders := TrimEach(entries);
    issued := [];
    failed := false;
    var k := 0;
    assert folders[0..] == folders;
    while k < |entries|
      invariant 0 <= k <= |entries| == |folders|
      invariant var rest := MountRun(folders[k..], mountOk);
        MountRun(folders, mountOk) == Mounts(issued + rest.issued, rest.failed)
    {
      var extraMountFolder := Trim(entries[k], '/');
      assert extraMountFolder == folders[k];
      var mountC := MountCommand(extraMountFolder);
      MountRunStep(folders, k, mountOk);
      MountsAdvance(MountRun(folders, mountOk), issued, mountC, mountOk(mountC),
                    MountRun(folders[k..], mountOk), MountRun(folders[k + 1..], mountOk));
      issued := issued + [mountC];
      if !mountOk(mountC) {
        failed := true;
        return;
      }
      k := k + 1;
    }
    assert folders[k..] == [] && issued + [] == issued;
  }
}

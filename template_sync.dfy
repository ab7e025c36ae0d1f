/** cmd/templateProject/sync.go: where the Anthropic API key comes from, how
    the file arguments are expanded into files, and what `sync` does for each
    file. The file system, the environment, the Kubernetes cluster and the
    Anthropic API arrive as values and functions; the model records the files
    the command copies and writes. */
module TemplateSync {
  import opened Wrappers
  import opened GoStrings

  // ---------------------------------------------------------------------
  // loadAnthropicApiKeyWithFallbackToK8S (sync.go:160-206)
  // ---------------------------------------------------------------------

  /** The default of --api-key-path-k8s. */
  const DefaultApiKeyPathK8s: string := "drydock/anthropic-creds/ANTHROPIC_API_KEY"

  /** What the cluster answers: whether the kube config loads, whether a
      clientset can be built from it, and the data of each secret, by
      namespace and secret name. A pair absent from `secrets` is a secret the
      Get call cannot read. */
  datatype Kube = Kube(configOk: bool, clientsetOk: bool, secrets: map<(string, string), map<string, string>>)

  datatype KeyError =
    | BadApiKeyPath(apiKeyPathK8s: string)
    | KubeConfigFailed
    | ClientsetFailed
    | SecretReadFailed(apiKeyPathK8s: string)
    | SecretKeyMissing(namespace: string, secretName: string, key: string)

  /** The key: a non-empty --api-key, else ANTHROPIC_API_KEY when it is set
      (`env` is os.LookupEnv), else the secret value named by the k8s path. */
  function LoadAnthropicApiKey(apiKey: string, env: Option<string>, apiKeyPathK8s: string, kube: Kube): (r: Result<string, KeyError>)
    ensures |apiKey| > 0 ==> r == Success(apiKey)
    ensures |apiKey| == 0 && env.Some? ==> r == Success(env.value)
    ensures r.Failure? ==> |apiKey| == 0 && env.None?
  {
    if |apiKey| > 0 then Success(apiKey)
    else if env.Some? then Success(env.value)
    else
      var parts := SplitN(apiKeyPathK8s, '/', 3);
      if |parts| != 3 then Failure(BadApiKeyPath(apiKeyPathK8s))
      else if !kube.configOk then Failure(KubeConfigFailed)
      else if !kube.clientsetOk then Failure(ClientsetFailed)
      else if (parts[0], parts[1]) !in kube.secrets then Failure(SecretReadFailed(apiKeyPathK8s))
      else
        var data := kube.secrets[(parts[0], parts[1])];
        if parts[2] !in data then Failure(SecretKeyMissing(parts[0], parts[1], parts[2]))
        else Success(data[parts[2]])
  }

  /** A path namespace/name/key, with no '/' in namespace or name, reads the
      key from that secret; the key part keeps any further '/'. */
  lemma KeyFromSecret(env: Option<string>, kube: Kube, namespace: string, secretName: string, key: string)
    requires env.None? && kube.configOk && kube.clientsetOk
    requires '/' !in namespace && '/' !in secretName
    ensures var path := namespace + "/" + secretName + "/" + key;
      LoadAnthropicApiKey("", env, path, kube)
        == if (namespace, secretName) !in kube.secrets then Failure(SecretReadFailed(path))
           else if key !in kube.secrets[(namespace, secretName)] then Failure(SecretKeyMissing(namespace, secretName, key))
           else Success(kube.secrets[(namespace, secretName)][key])
  {
    var path := namespace + "/" + secretName + "/" + key;
    assert path == namespace + ['/'] + secretName + ['/'] + key;
    SplitNThree(path, '/', namespace, secretName, key);
  }

  /** An accepted k8s path has the shape namespace/name/key, and its parts
      are those three (KeyFromSecret gives the converse). */
  lemma KeyPathParts(apiKeyPathK8s: string)
    ensures var parts := SplitN(apiKeyPathK8s, '/', 3);
      |parts| == 3 ==> '/' !in parts[0] && '/' !in parts[1]
                       && apiKeyPathK8s == parts[0] + "/" + parts[1] + "/" + parts[2]
  {
    var parts := SplitN(apiKeyPathK8s, '/', 3);
    if |parts| == 3 {
      SplitNThree(apiKeyPathK8s, '/', parts[0], parts[1], parts[2]);
      assert [parts[0], parts[1], parts[2]] == parts;
    }
  }

  /** A path with fewer than two '/' is rejected before the cluster is asked. */
  lemma ShortKeyPathRejected(env: Option<string>, apiKeyPathK8s: string, kube: Kube)
    requires env.None?
    requires '/' !in apiKeyPathK8s || '/' !in apiKeyPathK8s[IndexOf(apiKeyPathK8s, '/') + 1..]
    ensures LoadAnthropicApiKey("", env, apiKeyPathK8s, kube) == Failure(BadApiKeyPath(apiKeyPathK8s))
  {
    var i := IndexOf(apiKeyPathK8s, '/');
    if i >= 0 {
      var rest := apiKeyPathK8s[i + 1..];
      assert IndexOf(rest, '/') < 0;
      assert SplitN(rest, '/', 2) == [rest];
    }
  }

  // ---------------------------------------------------------------------
  // listFilesRecursively (sync.go:263-296)
  // ---------------------------------------------------------------------

  /** What a path is, as the file system reports it: a file, a directory with
      its entries in the order filepath.Walk visits them (by name), or a path
      whose stat or directory read fails. */
  datatype Node = File | Dir(entries: seq<Entry>) | Broken
  datatype Entry = Entry(name: string, node: Node)

  datatype ListError = AccessFailed(path: string) | WalkFailed(path: string)

  /** filepath.Join for a directory and one entry name. */
  function PathJoin(dir: string, name: string): (r: string)
    ensures |r| >= |dir| && r[..|dir|] == dir
  {
    if dir == "" then name
    else if dir[|dir| - 1] == '/' then dir + name
    else dir + "/" + name
  }

  /** The files filepath.Walk hands to the callback under `path`, in visiting
      order, or the first failure (the callback returns it and the walk stops). */
  function WalkFiles(path: string, node: Node): (r: Option<seq<string>>)
    decreases node, 1
  {
    match node
    case File => Some([path])
    case Broken => None
    case Dir(entries) => WalkEntries(path, entries)
  }

  function WalkEntries(dir: string, entries: seq<Entry>): (r: Option<seq<string>>)
    decreases entries, 0
  {
    if entries == [] then Some([])
    else
      var first := WalkFiles(PathJoin(dir, entries[0].name), entries[0].node);
      var rest := WalkEntries(dir, entries[1..]);
      if first.None? || rest.None? then None else Some(first.value + rest.value)
  }

  /** A tree the walk can read completely. */
  predicate Readable(node: Node)
    decreases node, 1
  {
    match node
    case File => true
    case Broken => false
    case Dir(entries) => ReadableEntries(entries)
  }

  predicate ReadableEntries(entries: seq<Entry>)
    decreases entries, 0
  {
    entries == [] || (Readable(entries[0].node) && ReadableEntries(entries[1..]))
  }

  /** The number of non-directory leaves of a tree. */
  function FileCount(node: Node): nat
    decreases node, 1
  {
    match node
    case File => 1
    case Broken => 0
    case Dir(entries) => EntriesFileCount(entries)
  }

  function EntriesFileCount(entries: seq<Entry>): nat
    decreases entries, 0
  {
    if entries == [] then 0 else FileCount(entries[0].node) + EntriesFileCount(entries[1..])
  }

  /** The walk succeeds exactly on readable trees, and then lists one path
      per file and none per directory. */
  lemma {:induction false} WalkFilesComplete(path: string, node: Node)
    ensures WalkFiles(path, node).Some? <==> Readable(node)
    ensures WalkFiles(path, node).Some? ==> |WalkFiles(path, node).value| == FileCount(node)
    decreases node, 1
  {
    if node.Dir? {
      WalkEntriesComplete(path, node.entries);
    }
  }

  lemma {:induction false} WalkEntriesComplete(dir: string, entries: seq<Entry>)
    ensures WalkEntries(dir, entries).Some? <==> ReadableEntries(entries)
    ensures WalkEntries(dir, entries).Some? ==> |WalkEntries(dir, entries).value| == EntriesFileCount(entries)
    decreases entries, 0
  {
    if entries != [] {
      WalkFilesComplete(PathJoin(dir, entries[0].name), entries[0].node);
      WalkEntriesComplete(dir, entries[1..]);
    }
  }

  /** Every path the walk lists lies under the walked path. */
  lemma {:induction false} WalkFilesUnder(path: string, node: Node)
    ensures WalkFiles(path, node).Some? ==>
      forall f :: f in WalkFiles(path, node).value ==> |f| >= |path| && f[..|path|] == path
    decreases node, 1
  {
    if node.Dir? {
      WalkEntriesUnder(path, node.entries);
    }
  }

  lemma {:induction false} WalkEntriesUnder(dir: string, entries: seq<Entry>)
    ensures WalkEntries(dir, entries).Some? ==>
      forall f :: f in WalkEntries(dir, entries).value ==> |f| >= |dir| && f[..|dir|] == dir
    decreases entries, 0
  {
    if entries != [] && WalkEntries(dir, entries).Some? {
      var child := PathJoin(dir, entries[0].name);
      WalkFilesUnder(child, entries[0].node);
      WalkEntriesUnder(dir, entries[1..]);
      var first := WalkFiles(child, entries[0].node).value;
      var rest := WalkEntries(dir, entries[1..]).value;
      forall f | f in first + rest ensures |f| >= |dir| && f[..|dir|] == dir {
        if f in first {
          assert f[..|child|][..|dir|] == f[..|dir|];
        }
      }
    }
  }

  /** What one argument contributes: the path itself for a file, the walk of
      a directory (`stat` is os.Stat, None when it fails). A path that stats
      but cannot be read is walked too, and the walk fails on it. */
  function ArgumentFiles(path: string, stat: string -> Option<Node>): (r: Result<seq<string>, ListError>)
  {
    match stat(path)
    case None => Failure(AccessFailed(path))
    case Some(Dir(entries)) =>
      var walked := WalkEntries(path, entries);
      if walked.None? then Failure(WalkFailed(path)) else Success(walked.value)
    case Some(Broken) => Failure(WalkFailed(path))
    case Some(File) => Success([path])
  }

  /** One argument succeeds exactly when it stats and its whole tree is
      readable, and then contributes one path per file; a failure names the
      argument, as access or walk failure according to whether stat failed. */
  lemma ArgumentFilesComplete(path: string, stat: string -> Option<Node>)
    ensures ArgumentFiles(path, stat).Success? <==> stat(path).Some? && Readable(stat(path).value)
    ensures ArgumentFiles(path, stat).Success? ==> |ArgumentFiles(path, stat).value| == FileCount(stat(path).value)
    ensures ArgumentFiles(path, stat) == Failure(AccessFailed(path)) <==> stat(path).None?
    ensures ArgumentFiles(path, stat).Failure? && stat(path).Some? ==> ArgumentFiles(path, stat) == Failure(WalkFailed(path))
  {
    if stat(path).Some? {
      WalkFilesComplete(path, stat(path).value);
    }
  }

  /** The files of two runs of arguments in order, or the first failure. */
  function Then(x: Result<seq<string>, ListError>, y: Result<seq<string>, ListError>): Result<seq<string>, ListError> {
    if x.Failure? then x else if y.Failure? then y else Success(x.value + y.value)
  }

  /** listFilesRecursively: the arguments' files in argument order, or the
      first argument that fails. */
  function ListFiles(paths: seq<string>, stat: string -> Option<Node>): (r: Result<seq<string>, ListError>)
  {
    if paths == [] then Success([])
    else Then(ListFiles(paths[..|paths| - 1], stat), ArgumentFiles(paths[|paths| - 1], stat))
  }

  /** The loop of listFilesRecursively. */
  method ListFilesRecursively(paths: seq<string>, stat: string -> Option<Node>) returns (r: Result<seq<string>, ListError>)
    ensures r == ListFiles(paths, stat)
  {
    var allFiles: seq<string> := [];
    var k := 0;
    while k < |paths|
      invariant 0 <= k <= |paths|
      invariant ListFiles(paths[..k], stat) == Success(allFiles)
    {
      var path := paths[k];
      ListFilesSnoc(paths, k, stat);
      var info := stat(path);
      if info.None? {
        ListFilesFailStays(paths, k + 1, stat, AccessFailed(path));
        return Failure(AccessFailed(path));
      }
      if info.value.Dir? {
        var walked := WalkEntries(path, info.value.entries);
        if walked.None? {
          ListFilesFailStays(paths, k + 1, stat, WalkFailed(path));
          return Failure(WalkFailed(path));
        }
        allFiles := allFiles + walked.value;
      } else if info.value.Broken? {
        ListFilesFailStays(paths, k + 1, stat, WalkFailed(path));
        return Failure(WalkFailed(path));
      } else {
        allFiles := allFiles + [path];
      }
      k := k + 1;
    }
    assert paths[..k] == paths;
    return Success(allFiles);
  }

  /** ListFiles of one more argument. */
  lemma ListFilesSnoc(paths: seq<string>, k: int, stat: string -> Option<Node>)
    requires 0 <= k < |paths|
    ensures ListFiles(paths[..k + 1], stat) == Then(ListFiles(paths[..k], stat), ArgumentFiles(paths[k], stat))
  {
    assert paths[..k + 1][..k] == paths[..k] && paths[..k + 1][k] == paths[k];
  }

  lemma ThenAssociative(x: Result<seq<string>, ListError>, y: Result<seq<string>, ListError>, z: Result<seq<string>, ListError>)
    ensures Then(Then(x, y), z) == Then(x, Then(y, z))
  {
    if x.Success? && y.Success? && z.Success? {
      assert x.value + y.value + z.value == x.value + (y.value + z.value);
    }
  }

  /** Once a prefix of the arguments fails, the whole list fails the same way. */
  lemma {:induction false} ListFilesFailStays(paths: seq<string>, k: int, stat: string -> Option<Node>, e: ListError)
    requires 0 <= k <= |paths|
    requires ListFiles(paths[..k], stat) == Failure(e)
    ensures ListFiles(paths, stat) == Failure(e)
    decreases |paths| - k
  {
    if k < |paths| {
      assert paths[..k + 1][..k] == paths[..k];
      ListFilesFailStays(paths, k + 1, stat, e);
    } else {
      assert paths[..k] == paths;
    }
  }

  /** Listing keeps argument order: the files of a + b are those of a, then
      those of b, and the listing fails when either part fails. */
  lemma {:induction false} ListFilesAppend(a: seq<string>, b: seq<string>, stat: string -> Option<Node>)
    ensures ListFiles(a + b, stat) == Then(ListFiles(a, stat), ListFiles(b, stat))
    decreases |b|
  {
    var la := ListFiles(a, stat);
    if b == [] {
      assert a + b == a;
      if la.Success? {
        assert la.value + [] == la.value;
      }
    } else {
      var ab := a + b;
      var init := b[..|b| - 1];
      var last := ArgumentFiles(b[|b| - 1], stat);
      assert ab[..|ab| - 1] == a + init;
      assert ab[|ab| - 1] == b[|b| - 1];
      ListFilesAppend(a, init, stat);
      calc {
        ListFiles(ab, stat);
        Then(ListFiles(a + init, stat), last);
        Then(Then(la, ListFiles(init, stat)), last);
        { ThenAssociative(la, ListFiles(init, stat), last); }
        Then(la, Then(ListFiles(init, stat), last));
        Then(la, ListFiles(b, stat));
      }
    }
  }

  /** Plain-file arguments are listed as given. */
  lemma {:induction false} ListFilesOfFiles(paths: seq<string>, stat: string -> Option<Node>)
    requires forall i :: 0 <= i < |paths| ==> stat(paths[i]) == Some(File)
    ensures ListFiles(paths, stat) == Success(paths)
  {
    if paths != [] {
      var init := paths[..|paths| - 1];
      ListFilesOfFiles(init, stat);
      assert init + [paths[|paths| - 1]] == paths;
    }
  }

  /** The listing fails exactly when some argument fails on its own: it
      cannot be stat-ed, or it is a directory the walk cannot read. */
  lemma {:induction false} ListFilesFails(paths: seq<string>, stat: string -> Option<Node>)
    ensures ListFiles(paths, stat).Failure? <==> exists i :: 0 <= i < |paths| && ArgumentFiles(paths[i], stat).Failure?
  {
    if paths != [] {
      var init := paths[..|paths| - 1];
      ListFilesFails(init, stat);
      if ListFiles(init, stat).Failure? {
        var i :| 0 <= i < |init| && ArgumentFiles(init[i], stat).Failure?;
        assert paths[i] == init[i];
      }
      if exists i :: 0 <= i < |paths| && ArgumentFiles(paths[i], stat).Failure? {
        var i :| 0 <= i < |paths| && ArgumentFiles(paths[i], stat).Failure?;
        if i < |init| {
          assert init[i] == paths[i];
        }
      }
    }
  }

  /** The listing succeeds exactly when every argument stats and its whole
      tree can be read. */
  lemma ListFilesReadable(paths: seq<string>, stat: string -> Option<Node>)
    ensures ListFiles(paths, stat).Success? <==>
      forall i :: 0 <= i < |paths| ==> stat(paths[i]).Some? && Readable(stat(paths[i]).value)
  {
    ListFilesFails(paths, stat);
    forall i | 0 <= i < |paths|
      ensures ArgumentFiles(paths[i], stat).Success? <==> stat(paths[i]).Some? && Readable(stat(paths[i]).value)
    {
      ArgumentFilesComplete(paths[i], stat);
    }
  }

  // ---------------------------------------------------------------------
  // RunE (sync.go:74-133)
  // ---------------------------------------------------------------------

  /** What reading the template counterpart of a file gives. */
  datatype TemplateRead = Contents(text: string) | NotExist | ReadFailed

  /** A file the command changes: the --compare copy or the --replace write. */
  datatype Effect = CopyFile(source: string, destination: string) | WriteFile(path: string, contents: string)

  datatype SyncError =
    | TemplateDirRequired
    | ExpandFailed(listError: ListError)
    | ReadProjectFailed(filename: string)
    | ReadTemplateFailed(path: string)
    | KeyFailed(keyError: KeyError)
    | ApiFailed(filename: string)
    | WriteFailed(filename: string)

  /** The flags and the world the command runs in. `projectFile` and
      `templateFile` are os.ReadFile, `api` is anthropicApi applied to the key,
      the file name and the two contents, `writeOk` says whether os.WriteFile
      of a file succeeds. */
  datatype Env = Env(templateDir: string, replace: bool, compare: bool,
                     apiKey: string, envKey: Option<string>, apiKeyPathK8s: string, kube: Kube,
                     stat: string -> Option<Node>,
                     projectFile: string -> Option<string>,
                     templateFile: string -> TemplateRead,
                     api: (string, string, string, string) -> Option<string>,
                     writeOk: string -> bool)

  /** What RunE did: the files it copied or wrote, in order, and the error it
      returned, if any. */
  datatype Sync = Sync(effects: seq<Effect>, err: Option<SyncError>)

  /** The name under which --compare places the template file. */
  function CompareName(filename: string): (r: string)
    ensures |r| == |filename| + 4 && r[..|filename|] == filename
  {
    filename + ".tpl"
  }

  /** One pass of the loop body for `filename`. */
  function SyncFile(e: Env, filename: string): (r: Sync)
  {
    match e.projectFile(filename)
    case None => Sync([], Some(ReadProjectFailed(filename)))
    case Some(project) =>
      var templatePath := PathJoin(e.templateDir, filename);
      match e.templateFile(templatePath)
      case NotExist => Sync([], None)
      case ReadFailed => Sync([], Some(ReadTemplateFailed(templatePath)))
      case Contents(template) => SyncTemplate(e, filename, project, templatePath, template)
  }

  /** The rest of the loop body once both files have been read. */
  function SyncTemplate(e: Env, filename: string, project: string, templatePath: string, template: string): (r: Sync)
  {
    match LoadAnthropicApiKey(e.apiKey, e.envKey, e.apiKeyPathK8s, e.kube)
    case Failure(keyError) => Sync([], Some(KeyFailed(keyError)))
    case Success(key) =>
      var copies := if e.compare then [CopyFile(templatePath, CompareName(filename))] else [];
      match e.api(key, filename, project, template)
      case None => Sync(copies, Some(ApiFailed(filename)))
      case Some(response) =>
        if !e.replace then Sync(copies, None)
        else if !e.writeOk(filename) then Sync(copies + [WriteFile(filename, response)], Some(WriteFailed(filename)))
        else Sync(copies + [WriteFile(filename, response)], None)
  }

  /** The loop over the listed files, stopping at the first error. */
  function SyncAll(e: Env, files: seq<string>): (r: Sync)
  {
    if files == [] then Sync([], None)
    else
      var first := SyncFile(e, files[0]);
      if first.err.Some? then first
      else
        var rest := SyncAll(e, files[1..]);
        Sync(first.effects + rest.effects, rest.err)
  }

  /** RunE of `template-project sync`. */
  function RunSync(e: Env, args: seq<string>): (r: Sync)
    ensures e.templateDir == "" ==> r == Sync([], Some(TemplateDirRequired))
  {
    if e.templateDir == "" then Sync([], Some(TemplateDirRequired))
    else
      match ListFiles(args, e.stat)
      case Failure(listError) => Sync([], Some(ExpandFailed(listError)))
      case Success(files) => SyncAll(e, files)
  }

  /** The body of the loop of RunE for one file. */
  method SyncOne(e: Env, filename: string) returns (effects: seq<Effect>, err: Option<SyncError>)
    ensures Sync(effects, err) == SyncFile(e, filename)
  {
    effects := [];
    var project := e.projectFile(filename);
    if project.None? {
      return [], Some(ReadProjectFailed(filename));
    }
    var templatePath := PathJoin(e.templateDir, filename);
    var template := e.templateFile(templatePath);
    if template.NotExist? {
      return [], None;
    }
    if template.ReadFailed? {
      return [], Some(ReadTemplateFailed(templatePath));
    }
    effects, err := ApplyTemplate(e, filename, project.value, templatePath, template.text);
  }

  /** The loop body from loading the key on, for a file and its template. */
  method ApplyTemplate(e: Env, filename: string, project: string, templatePath: string, template: string)
    returns (effects: seq<Effect>, err: Option<SyncError>)
    ensures Sync(effects, err) == SyncTemplate(e, filename, project, templatePath, template)
  {
    effects := [];
    var key := LoadAnthropicApiKey(e.apiKey, e.envKey, e.apiKeyPathK8s, e.kube);
    if key.Failure? {
      return [], Some(KeyFailed(key.error));
    }
    if e.compare {
      effects := effects + [CopyFile(templatePath, CompareName(filename))];
    }
    var response := e.api(key.value, filename, project, template);
    if response.None? {
      return effects, Some(ApiFailed(filename));
    }
    if e.replace {
      effects := effects + [WriteFile(filename, response.value)];
      if !e.writeOk(filename) {
        return effects, Some(WriteFailed(filename));
      }
    }
    return effects, None;
  }

  /** The body of RunE. */
  method RunE(e: Env, args: seq<string>) returns (effects: seq<Effect>, err: Option<SyncError>)
    ensures Sync(effects, err) == RunSync(e, args)
  {
    effects := [];
    if e.templateDir == "" {
      return [], Some(TemplateDirRequired);
    }
    var listed := ListFilesRecursively(args, e.stat);
    if listed.Failure? {
      return [], Some(ExpandFailed(listed.error));
    }
    var files := listed.value;
    var k := 0;
    assert files[0..] == files;
    while k < |files|
      invariant 0 <= k <= |files|
      invariant var rest := SyncAll(e, files[k..]);
        SyncAll(e, files) == Sync(effects + rest.effects, rest.err)
    {
      SyncAllStep(e, files, k);
      var fileEffects, fileErr := SyncOne(e, files[k]);
      SyncAdvance(SyncAll(e, files), effects, Sync(fileEffects, fileErr),
                  SyncAll(e, files[k..]), SyncAll(e, files[k + 1..]));
      effects := effects + fileEffects;
      if fileErr.Some? {
        return effects, fileErr;
      }
      k := k + 1;
    }
    assert files[k..] == [] && effects + [] == effects;
    return effects, None;
  }

  /** With `effects` before a run whose first file gives `first`, adding the
      file's effects and going on, or stopping at its error, still gives the
      whole run. */
  lemma SyncAdvance(total: Sync, effects: seq<Effect>, first: Sync, here: Sync, rest: Sync)
    requires total == Sync(effects + here.effects, here.err)
    requires here == if first.err.Some? then first else Sync(first.effects + rest.effects, rest.err)
    ensures first.err.Some? ==> total == Sync(effects + first.effects, first.err)
    ensures first.err.None? ==> total == Sync(effects + first.effects + rest.effects, rest.err)
  {
    if first.err.None? {
      assert effects + (first.effects + rest.effects) == effects + first.effects + rest.effects;
    }
  }

  /** SyncAll from position k: the file at k, then the files after it. */
  lemma SyncAllStep(e: Env, files: seq<string>, k: int)
    requires 0 <= k < |files|
    ensures var first := SyncFile(e, files[k]);
      var rest := SyncAll(e, files[k + 1..]);
      SyncAll(e, files[k..]) == if first.err.Some? then first else Sync(first.effects + rest.effects, rest.err)
  {
    assert files[k..][0] == files[k] && files[k..][1..] == files[k + 1..];
  }

  /** The copy and write effects of the run, file by file. */
  predicate EffectOf(e: Env, f: string, x: Effect)
  {
    match x
    case CopyFile(source, destination) =>
      e.compare && source == PathJoin(e.templateDir, f) && destination == CompareName(f)
    case WriteFile(path, _) => e.replace && path == f
  }

  /** Every copy goes from the file's template counterpart to the file's name
      with ".tpl" appended, and only under --compare; every write is to a
      listed file, and only under --replace. */
  lemma {:induction false} SyncEffectsOfFiles(e: Env, files: seq<string>)
    ensures forall x :: x in SyncAll(e, files).effects ==> exists f :: f in files && EffectOf(e, f, x)
  {
    if files != [] {
      var first := SyncFile(e, files[0]);
      assert forall x :: x in first.effects ==> EffectOf(e, files[0], x);
      if first.err.None? {
        SyncEffectsOfFiles(e, files[1..]);
        var rest := SyncAll(e, files[1..]);
        forall x | x in first.effects + rest.effects ensures exists f :: f in files && EffectOf(e, f, x) {
          if x in first.effects {
            assert EffectOf(e, files[0], x);
          } else {
            var f :| f in files[1..] && EffectOf(e, f, x);
            assert f in files;
          }
        }
      }
    }
  }

  /** A file whose template counterpart does not exist is skipped: it adds
      no effect and no error. */
  lemma SkipMissingTemplate(e: Env, filename: string)
    requires e.projectFile(filename).Some?
    requires e.templateFile(PathJoin(e.templateDir, filename)) == NotExist
    ensures SyncFile(e, filename) == Sync([], None)
  {
  }

  /** The run succeeds exactly when every listed file goes through. */
  lemma {:induction false} SyncAllSucceeds(e: Env, files: seq<string>)
    ensures SyncAll(e, files).err.None? <==> forall i :: 0 <= i < |files| ==> SyncFile(e, files[i]).err.None?
  {
    if files != [] {
      SyncAllSucceeds(e, files[1..]);
      if SyncFile(e, files[0]).err.None? {
        forall i | 0 <= i < |files| - 1 ensures files[1..][i] == files[i + 1] {
        }
      }
    }
  }

  /** The key is only looked up for a file whose template exists, so a run
      on files without templates succeeds whatever the key sources say. */
  lemma {:induction false} NoTemplatesNoKey(e: Env, files: seq<string>)
    requires forall i :: 0 <= i < |files| ==> e.projectFile(files[i]).Some?
    requires forall i :: 0 <= i < |files| ==> e.templateFile(PathJoin(e.templateDir, files[i])) == NotExist
    ensures SyncAll(e, files) == Sync([], None)
  {
    if files != [] {
      assert e.projectFile(files[0]).Some?;
      NoTemplatesNoKey(e, files[1..]);
    }
  }
}

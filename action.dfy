/**
 * The action's entry point. `run` checks its inputs, parses the `files`
 * input (`path|ENV` entries separated by `;`, a trailing `!` on a path
 * marking it required), looks up the provider, asks it for the repository
 * information, derives the build names and exports each fetched file into
 * the variable named for its path. `post` runs every provider's cleanup
 * and turns an error into a warning.
 *
 * What the host is asked to do is the list of `Effect`s, in order. The
 * provider's answer, the current date, the run number and the word chooser
 * are parameters.
 */
module Action {
  import opened Wrappers
  import opened Strings
  import opened Types
  import BuildNames

  /** A request to the host. */
  datatype Effect =
    | SaveState(name: string, value: string)
    | Failed(message: string)
    | Output(name: string, value: string)
    | Warning(message: string)
    | Export(name: string, value: string)

  const IsPost := SaveState("isPost", "true")
  const NoRepository := "No repository supplied to the action"
  const NoRef := "No ref supplied to the action"
  const NoProvider := "No provider supplied to the action"

  // ---------------------------------------------------------------------------
  // The `files` input

  /** One parsed entry: the request and the variable its file goes to. */
  datatype Entry = Entry(request: FileRequest, env: string)

  /** One `;`-separated element: kept only when it splits on `|` into
      exactly two parts; both are trimmed, and one trailing `!` on the path
      marks it required and is removed. */
  function EntryOf(desc: string): Option<Entry> {
    var parts := Split(desc, '|');
    if |parts| != 2 then None
    else
      var path := Trim(parts[0]);
      var required := EndsWith(path, "!");
      var path := if required then path[..|path| - 1] else path;
      Some(Entry(FileRequest(path, required), Trim(parts[1])))
  }

  /** An element is kept iff it has exactly two `|`-parts. The request is
      required iff the trimmed path ends with `!`, and then exactly that one
      `!` is gone from its path; the variable is the trimmed second part. */
  lemma EntryOfParts(desc: string)
    ensures EntryOf(desc).Some? <==> |Split(desc, '|')| == 2
    ensures EntryOf(desc).Some? ==>
      var parts := Split(desc, '|');
      var e := EntryOf(desc).value;
      && e.request.required == EndsWith(Trim(parts[0]), "!")
      && Trim(parts[0]) == e.request.path + (if e.request.required then "!" else "")
      && e.env == Trim(parts[1])
  {
    var parts := Split(desc, '|');
    if |parts| == 2 {
      var path := Trim(parts[0]);
      if EndsWith(path, "!") {
        assert path == path[..|path| - 1] + "!";
      }
    }
  }

  /** Each `;`-separated element, parsed on its own. */
  function Entries(descs: seq<string>): (entries: seq<Option<Entry>>)
    ensures |entries| == |descs|
    ensures forall i :: 0 <= i < |descs| ==> entries[i] == EntryOf(descs[i])
  {
    seq(|descs|, i requires 0 <= i < |descs| => EntryOf(descs[i]))
  }

  /** The request list: one request per well-formed element, in order. */
  function Requests(entries: seq<Option<Entry>>): seq<FileRequest>
    decreases |entries|
  {
    if entries == [] then []
    else
      var rest := Requests(entries[..|entries| - 1]);
      match entries[|entries| - 1]
      case None => rest
      case Some(e) => rest + [e.request]
  }

  /** The path-to-variable dictionary: a later entry for a path overwrites an earlier one. */
  function EnvMap(entries: seq<Option<Entry>>): map<string, string>
    decreases |entries|
  {
    if entries == [] then map[]
    else
      var rest := EnvMap(entries[..|entries| - 1]);
      match entries[|entries| - 1]
      case None => rest
      case Some(e) => rest[e.request.path := e.env]
  }

  /** The parsing loop of `run`. */
  method ParseFiles(input: string) returns (files: seq<FileRequest>, filePathToEnv: map<string, string>)
    ensures files == Requests(Entries(Split(input, ';')))
    ensures filePathToEnv == EnvMap(Entries(Split(input, ';')))
  {
    var fileParts := Split(input, ';');
    ghost var entries := Entries(fileParts);
    files := [];
    filePathToEnv := map[];
    var i := 0;
    while i < |fileParts|
      invariant 0 <= i <= |fileParts|
      invariant files == Requests(entries[..i])
      invariant filePathToEnv == EnvMap(entries[..i])
    {
      assert entries[..i + 1][..i] == entries[..i];
      assert entries[i] == EntryOf(fileParts[i]);
      var parts := Split(fileParts[i], '|');
      if |parts| == 2 {
        var path := Trim(parts[0]);
        var required := EndsWith(path, "!");
        if required {
          path := path[..|path| - 1];
        }
        var env := Trim(parts[1]);
        assert entries[i] == Some(Entry(FileRequest(path, required), env));
        filePathToEnv := filePathToEnv[path := env];
        files := files + [FileRequest(path, required)];
      } else {
        assert entries[i] == None;
      }
      i := i + 1;
    }
    assert entries[..i] == entries;
  }

  /** The requests are exactly the well-formed entries, in input order and
      with duplicates kept: `idx` gives, for each request, the element it
      came from. */
  lemma {:induction false} RequestsInOrder(entries: seq<Option<Entry>>) returns (idx: seq<nat>)
    ensures |idx| == |Requests(entries)|
    ensures forall k :: 0 <= k < |idx| ==>
      idx[k] < |entries| && entries[idx[k]].Some? && entries[idx[k]].value.request == Requests(entries)[k]
    ensures forall k, l :: 0 <= k < l < |idx| ==> idx[k] < idx[l]
    ensures forall i :: 0 <= i < |entries| && entries[i].Some? ==> i in idx
    decreases |entries|
  {
    if entries == [] {
      idx := [];
    } else {
      var n := |entries| - 1;
      var init := entries[..n];
      var prev := RequestsInOrder(init);
      assert forall i :: 0 <= i < n ==> init[i] == entries[i];
      var rs := Requests(entries);
      if entries[n].Some? {
        idx := prev + [n];
        assert rs == Requests(init) + [entries[n].value.request];
        forall k | 0 <= k < |idx|
          ensures idx[k] < |entries| && entries[idx[k]].Some? && entries[idx[k]].value.request == rs[k]
        {
          if k < |prev| {
            assert idx[k] == prev[k] && rs[k] == Requests(init)[k];
          }
        }
      } else {
        idx := prev;
        assert rs == Requests(init);
      }
      forall i | 0 <= i < |entries| && entries[i].Some?
        ensures i in idx
      {
        if i < n {
          assert init[i].Some?;
        }
      }
    }
  }

  /** An empty `files` input yields no requests. */
  lemma EmptyInputNoRequests()
    ensures Requests(Entries(Split("", ';'))) == [] && EnvMap(Entries(Split("", ';'))) == map[]
  {
    assert Split("", ';') == [""];
    assert Split("", '|') == [""];
    var entries := Entries([""]);
    assert entries == [None];
    assert entries[..0] == [];
  }

  /** A path is in the dictionary iff some well-formed entry names it. */
  lemma {:induction false} EnvMapKeys(entries: seq<Option<Entry>>, path: string)
    ensures path in EnvMap(entries) <==>
      exists i :: 0 <= i < |entries| && entries[i].Some? && entries[i].value.request.path == path
    decreases |entries|
  {
    if entries != [] {
      var n := |entries| - 1;
      var init := entries[..n];
      EnvMapKeys(init, path);
      assert forall i :: 0 <= i < n ==> init[i] == entries[i];
    }
  }

  /** For a path named more than once, the dictionary keeps the variable of
      the last entry that names it. */
  lemma {:induction false} EnvMapLastWins(entries: seq<Option<Entry>>, i: nat)
    requires i < |entries| && entries[i].Some?
    requires forall j :: i < j < |entries| && entries[j].Some? ==>
      entries[j].value.request.path != entries[i].value.request.path
    ensures var e := entries[i].value;
      e.request.path in EnvMap(entries) && EnvMap(entries)[e.request.path] == e.env
    decreases |entries|
  {
    var n := |entries| - 1;
    if i < n {
      var init := entries[..n];
      assert forall j :: 0 <= j < n ==> init[j] == entries[j];
      EnvMapLastWins(init, i);
    }
  }

  // ---------------------------------------------------------------------------
  // Providers

  /** The registered providers. */
  datatype ProviderKind = GitHubProvider

  const AllProviders: map<string, ProviderKind> := map["github" := GitHubProvider]

  function UnknownProvider(provider: string): string {
    "Unknown provider '" + provider + "'"
  }

  /** The provider is looked up by its lower-cased name. */
  function LookupProvider(provider: string): (r: Result<ProviderKind>)
    ensures r.Ok? <==> ToLower(provider) == "github"
    ensures r.Err? ==> r.message == UnknownProvider(provider)
  {
    var key := ToLower(provider);
    if key in AllProviders then Ok(AllProviders[key]) else Err(UnknownProvider(provider))
  }

  /** The name is matched ignoring the case of its letters. */
  lemma LookupIgnoresCase()
    ensures LookupProvider("GitHub").Ok? && LookupProvider("GITHUB").Ok? && LookupProvider("github").Ok?
    ensures LookupProvider("gitlab") == Err("Unknown provider 'gitlab'")
  {
    assert ToLower("GitHub") == "github";
    assert ToLower("GITHUB") == "github";
    assert ToLower("github") == "github";
    assert ToLower("gitlab")[3] == 'l';
  }

  // ---------------------------------------------------------------------------
  // Exporting files

  function Unrequested(path: string): string {
    "Provider exported unerequested file '" + path + "'"
  }

  /** The variable for a path: "" when the dictionary has none. */
  function EnvFor(filePathToEnv: map<string, string>, path: string): string {
    if path in filePathToEnv then filePathToEnv[path] else ""
  }

  /** What exporting the files asks of the host, one effect per file. */
  function ExportEffects(files: seq<RepositoryFile>, filePathToEnv: map<string, string>): seq<Effect>
    decreases |files|
  {
    if files == [] then []
    else
      var file := files[|files| - 1];
      var env := EnvFor(filePathToEnv, file.path);
      ExportEffects(files[..|files| - 1], filePathToEnv)
      + [if env == "" then Warning(Unrequested(file.path)) else Export(env, file.content)]
  }

  /** The export loop of `run`. */
  method ExportFiles(files: seq<RepositoryFile>, filePathToEnv: map<string, string>) returns (effects: seq<Effect>)
    ensures effects == ExportEffects(files, filePathToEnv)
  {
    effects := [];
    var i := 0;
    while i < |files|
      invariant 0 <= i <= |files|
      invariant effects == ExportEffects(files[..i], filePathToEnv)
    {
      assert files[..i + 1][..i] == files[..i];
      var file := files[i];
      var envForFile := EnvFor(filePathToEnv, file.path);
      if envForFile == "" {
        effects := effects + [Warning(Unrequested(file.path))];
      } else {
        effects := effects + [Export(envForFile, file.content)];
      }
      i := i + 1;
    }
    assert files[..i] == files;
  }

  /** Each file, in the provider's order, is exported under its variable iff
      its path maps to a non-empty name, and is warned about otherwise. */
  lemma {:induction false} ExportsMappedFiles(files: seq<RepositoryFile>, filePathToEnv: map<string, string>)
    ensures |ExportEffects(files, filePathToEnv)| == |files|
    ensures forall k :: 0 <= k < |files| ==>
      ExportEffects(files, filePathToEnv)[k] ==
        if files[k].path in filePathToEnv && filePathToEnv[files[k].path] != ""
        then Export(filePathToEnv[files[k].path], files[k].content)
        else Warning(Unrequested(files[k].path))
    decreases |files|
  {
    if files != [] {
      var init := files[..|files| - 1];
      ExportsMappedFiles(init, filePathToEnv);
      assert forall k :: 0 <= k < |init| ==> init[k] == files[k];
    }
  }

  // ---------------------------------------------------------------------------
  // `run`

  /** A missing ref is reported, but the run goes on. */
  function RefCheck(ref: string): seq<Effect> {
    if ref == "" then [Failed(NoRef)] else []
  }

  /** The outputs of a resolved run, then the exports. */
  function Published(info: RepositoryInfo, name: BuildName, filePathToEnv: map<string, string>): seq<Effect> {
    [Output("token", info.token), Output("commit", info.commit),
     Output("build-template", name.template), Output("build-short", name.short)]
    + ExportEffects(info.files, filePathToEnv)
  }

  /** `run`. `getInfo` is the provider's answer for the repository, the ref
      and the requests; `now` is the current UTC date. */
  method Run(repository: string, ref: string, provider: string, filesInput: string,
             getInfo: (string, string, seq<FileRequest>) -> Result<RepositoryInfo>,
             now: UtcDate, runNumber: Option<string>, word: string -> string)
    returns (effects: seq<Effect>)
    ensures effects == RunEffects(repository, ref, provider, filesInput, getInfo, now, runNumber, word)
  {
    effects := [IsPost];
    if repository == "" {
      effects := effects + [Failed(NoRepository)];
      return;
    }
    if ref == "" {
      effects := effects + [Failed(NoRef)];
    }
    ghost var head := [IsPost] + RefCheck(ref);
    assert effects == head;
    if provider == "" {
      effects := effects + [Failed(NoProvider)];
      return;
    }
    var files, filePathToEnv := ParseFiles(filesInput);
    var factory := LookupProvider(provider);
    if factory.Err? {
      effects := effects + [Failed(factory.message)];
      return;
    }
    var repoInfo := getInfo(repository, ref, files);
    if repoInfo.Err? {
      effects := effects + [Failed(repoInfo.message)];
      return;
    }
    var published := Publish(repoInfo.value, ref, now, runNumber, word, filePathToEnv);
    effects := effects + published;
  }

  /** The outputs, build names and exports of a resolved run. */
  method Publish(info: RepositoryInfo, ref: string, now: UtcDate, runNumber: Option<string>,
                 word: string -> string, filePathToEnv: map<string, string>)
    returns (effects: seq<Effect>)
    ensures effects == Published(info, BuildNames.Generate(BuildDescription(ref, info.commit, now), runNumber, word), filePathToEnv)
  {
    effects := [Output("token", info.token), Output("commit", info.commit)];
    var buildName := BuildNames.Generate(BuildDescription(ref, info.commit, now), runNumber, word);
    effects := effects + [Output("build-template", buildName.template), Output("build-short", buildName.short)];
    var exported := ExportFiles(info.files, filePathToEnv);
    effects := effects + exported;
  }

  /** A run that is given no repository or no provider never reaches a
      provider: its effects are the same whatever the provider would answer. */
  lemma GuardsComeFirst(repository: string, ref: string, provider: string, filesInput: string,
                        g1: (string, string, seq<FileRequest>) -> Result<RepositoryInfo>,
                        g2: (string, string, seq<FileRequest>) -> Result<RepositoryInfo>,
                        now: UtcDate, runNumber: Option<string>, word: string -> string)
    requires repository == "" || provider == ""
    ensures RunEffects(repository, ref, provider, filesInput, g1, now, runNumber, word)
         == RunEffects(repository, ref, provider, filesInput, g2, now, runNumber, word)
    ensures Failed(if repository == "" then NoRepository else NoProvider)
         in RunEffects(repository, ref, provider, filesInput, g1, now, runNumber, word)
  {
  }

  /** A missing ref is reported, yet the provider is still asked and the
      run still publishes its outputs. */
  lemma MissingRefStillResolves(repository: string, provider: string, filesInput: string,
                                getInfo: (string, string, seq<FileRequest>) -> Result<RepositoryInfo>,
                                now: UtcDate, runNumber: Option<string>, word: string -> string)
    requires repository != "" && ToLower(provider) == "github"
    requires getInfo(repository, "", Requests(Entries(Split(filesInput, ';')))).Ok?
    ensures var effects := RunEffects(repository, "", provider, filesInput, getInfo, now, runNumber, word);
      var info := getInfo(repository, "", Requests(Entries(Split(filesInput, ';')))).value;
      && |effects| >= 6
      && effects[1] == Failed(NoRef)
      && effects[2] == Output("token", info.token)
      && effects[3] == Output("commit", info.commit)
  {
    var info := getInfo(repository, "", Requests(Entries(Split(filesInput, ';')))).value;
    var name := BuildNames.Generate(BuildDescription("", info.commit, now), runNumber, word);
    var env := EnvMap(Entries(Split(filesInput, ';')));
    assert RunEffects(repository, "", provider, filesInput, getInfo, now, runNumber, word)
        == [IsPost, Failed(NoRef)] + Published(info, name, env);
  }

  /** In a resolved run, the effects after the four outputs are one per
      fetched file, in the provider's order: an export under the variable
      its path was given in `files` when that is not empty, and a warning
      otherwise. */
  lemma ResolvedRunExports(repository: string, ref: string, provider: string, filesInput: string,
                           getInfo: (string, string, seq<FileRequest>) -> Result<RepositoryInfo>,
                           now: UtcDate, runNumber: Option<string>, word: string -> string)
    requires repository != "" && ToLower(provider) == "github"
    requires getInfo(repository, ref, Requests(Entries(Split(filesInput, ';')))).Ok?
    ensures var effects := RunEffects(repository, ref, provider, filesInput, getInfo, now, runNumber, word);
      var info := getInfo(repository, ref, Requests(Entries(Split(filesInput, ';')))).value;
      var env := EnvMap(Entries(Split(filesInput, ';')));
      var start := |RefCheck(ref)| + 5;
      && |effects| == start + |info.files|
      && forall k :: 0 <= k < |info.files| ==>
           effects[start + k] ==
             if info.files[k].path in env && env[info.files[k].path] != ""
             then Export(env[info.files[k].path], info.files[k].content)
             else Warning(Unrequested(info.files[k].path))
  {
    var info := getInfo(repository, ref, Requests(Entries(Split(filesInput, ';')))).value;
    var name := BuildNames.Generate(BuildDescription(ref, info.commit, now), runNumber, word);
    var env := EnvMap(Entries(Split(filesInput, ';')));
    var effects := RunEffects(repository, ref, provider, filesInput, getInfo, now, runNumber, word);
    assert effects == [IsPost] + RefCheck(ref) + Published(info, name, env);
    PublishedExports([IsPost] + RefCheck(ref), info, name, env);
  }

  lemma PublishedExports(head: seq<Effect>, info: RepositoryInfo, name: BuildName, env: map<string, string>)
    ensures var effects := head + Published(info, name, env);
      var start := |head| + 4;
      && |effects| == start + |info.files|
      && forall k :: 0 <= k < |info.files| ==>
           effects[start + k] ==
             if info.files[k].path in env && env[info.files[k].path] != ""
             then Export(env[info.files[k].path], info.files[k].content)
             else Warning(Unrequested(info.files[k].path))
  {
    ExportsMappedFiles(info.files, env);
    var effects := head + Published(info, name, env);
    forall k | 0 <= k < |info.files|
      ensures effects[|head| + 4 + k] == ExportEffects(info.files, env)[k]
    {
    }
  }

  /** The effects `Run` ensures, as one function. */
  function RunEffects(repository: string, ref: string, provider: string, filesInput: string,
                      getInfo: (string, string, seq<FileRequest>) -> Result<RepositoryInfo>,
                      now: UtcDate, runNumber: Option<string>, word: string -> string): seq<Effect>
  {
    if repository == "" then [IsPost, Failed(NoRepository)]
    else if provider == "" then [IsPost] + RefCheck(ref) + [Failed(NoProvider)]
    else if ToLower(provider) != "github" then [IsPost] + RefCheck(ref) + [Failed(UnknownProvider(provider))]
    else
      var entries := Entries(Split(filesInput, ';'));
      match getInfo(repository, ref, Requests(entries))
      case Err(m) => [IsPost] + RefCheck(ref) + [Failed(m)]
      case Ok(info) =>
        [IsPost] + RefCheck(ref)
        + Published(info, BuildNames.Generate(BuildDescription(ref, info.commit, now), runNumber, word), EnvMap(entries))
  }

  // ---------------------------------------------------------------------------
  // `post`

  /** How a provider's cleanup ended: normally, by throwing an `Error`, or by
      throwing some other value. */
  datatype CleanupOutcome = Completed | ThrewError(message: string) | ThrewOther

  /** The names of the registered providers, in registration order. */
  const ProviderNames := ["github"]

  /** The warnings of the cleanups of `names`: one per `Error`, in order. */
  function Warnings(names: seq<string>, cleanup: string -> CleanupOutcome): seq<string>
    decreases |names|
  {
    if names == [] then []
    else
      var rest := Warnings(names[..|names| - 1], cleanup);
      match cleanup(names[|names| - 1])
      case ThrewError(m) => rest + [m]
      case _ => rest
  }

  /** `post`: every registered provider's cleanup is attempted, and an error
      is reported as a warning without stopping the loop. */
  method Post(cleanup: string -> CleanupOutcome) returns (effects: seq<Effect>)
    ensures |effects| == |Warnings(ProviderNames, cleanup)|
    ensures forall k :: 0 <= k < |effects| ==> effects[k] == Warning(Warnings(ProviderNames, cleanup)[k])
  {
    effects := [];
    var warnings: seq<string> := [];
    var i := 0;
    while i < |ProviderNames|
      invariant 0 <= i <= |ProviderNames|
      invariant warnings == Warnings(ProviderNames[..i], cleanup)
      invariant |effects| == |warnings|
      invariant forall k :: 0 <= k < |effects| ==> effects[k] == Warning(warnings[k])
    {
      assert ProviderNames[..i + 1][..i] == ProviderNames[..i];
      match cleanup(ProviderNames[i]) {
        case ThrewError(m) =>
          effects := effects + [Warning(m)];
          warnings := warnings + [m];
        case _ =>
      }
      i := i + 1;
    }
    assert ProviderNames[..i] == ProviderNames;
  }

  /** Every cleanup error becomes a warning, every warning is a cleanup
      error, and a cleanup that fails does not keep the later ones from
      being reported. */
  lemma {:induction false} WarningsAreErrors(names: seq<string>, cleanup: string -> CleanupOutcome)
    ensures |Warnings(names, cleanup)| <= |names|
    ensures forall w :: w in Warnings(names, cleanup) ==> exists p :: p in names && cleanup(p) == ThrewError(w)
    ensures forall p :: p in names && cleanup(p).ThrewError? ==> cleanup(p).message in Warnings(names, cleanup)
    decreases |names|
  {
    if names != [] {
      var init := names[..|names| - 1];
      WarningsAreErrors(init, cleanup);
      forall p | p in names && cleanup(p).ThrewError?
        ensures cleanup(p).message in Warnings(names, cleanup)
      {
        if p !in init {
          assert p == names[|names| - 1];
        }
      }
      forall w | w in Warnings(names, cleanup)
        ensures exists p :: p in names && cleanup(p) == ThrewError(w)
      {
        if w in Warnings(init, cleanup) {
          var p :| p in init && cleanup(p) == ThrewError(w);
          assert p in names;
        } else {
          assert cleanup(names[|names| - 1]) == ThrewError(w);
        }
      }
    }
  }
}

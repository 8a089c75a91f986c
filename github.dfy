/**
 * The GitHub provider: it takes `owner/name` repository identifiers, finds
 * the GitHub App installation of the first repository's owner, has a token
 * issued for every named repository of that owner, resolves the ref (a
 * pull-request merge ref becomes the pull request's head ref) and fetches
 * the requested files, skipping those the server reports missing.
 *
 * The GitHub API is the record `GitHubApi`: the installations it lists, the
 * token it issues, the commit it resolves and what fetching a file gives.
 */
module GitHub {
  import opened Wrappers
  import opened Strings
  import opened Types
  import opened FileFetch

  const DefaultAppId := "239145"
  const MissingKey := "GitHub repositories must supply `env.PEW_GITHUB_KEY`"
  /** `repositories[0].split` on an empty list. */
  const NoFirstRepository := "Cannot read properties of undefined (reading 'split')"

  /** The environment variables the provider reads; "" is unset. */
  datatype GitHubEnv = GitHubEnv(appId: string, key: string, eventName: string)

  datatype Installation = Installation(login: string, id: int)

  datatype Commit = Commit(sha: string, date: int)

  /** The API's answers: `issueToken` gets the installation id and the
      repository names, `getCommit` the owner, name and ref, `getContent`
      the owner, name, commit and path. */
  datatype GitHubApi = GitHubApi(
    installations: seq<Installation>,
    issueToken: (int, seq<string>) -> string,
    getCommit: (string, string, string) -> Commit,
    getContent: (string, string, string, string) -> Attempt)

  /** An unset app id falls back to the default, so it is never missing and
      the check for a missing one never fails. */
  function AppIdOf(env: GitHubEnv): (id: string)
    ensures id != ""
    ensures env.appId != "" ==> id == env.appId
    ensures env.appId == "" ==> id == "239145"
  {
    if env.appId == "" then DefaultAppId else env.appId
  }

  // ---------------------------------------------------------------------------
  // Repository identifiers

  datatype Identifier = Identifier(owner: string, name: string)

  function InvalidFormat(repository: string): string {
    "Invalid repository format for '" + repository + "'"
  }

  /** `owner/name`: exactly one `/`. */
  function ParseIdentifier(repository: string): (r: Result<Identifier>)
    ensures r.Err? ==> r.message == InvalidFormat(repository)
  {
    var parts := Split(repository, '/');
    if |parts| != 2 then Err(InvalidFormat(repository)) else Ok(Identifier(parts[0], parts[1]))
  }

  /** An identifier parses back into the owner and name it was written from,
      and is accepted only when it is written that way. */
  lemma IdentifierRoundTrip(owner: string, name: string)
    requires '/' !in owner && '/' !in name
    ensures ParseIdentifier(owner + "/" + name) == Ok(Identifier(owner, name))
  {
    SplitJoin([owner, name], '/');
    assert Join([owner, name], '/') == owner + "/" + name;
  }

  lemma IdentifierAccepted(repository: string)
    requires ParseIdentifier(repository).Ok?
    ensures var id := ParseIdentifier(repository).value;
      repository == id.owner + "/" + id.name && '/' !in id.owner && '/' !in id.name
  {
    var parts := Split(repository, '/');
    JoinSplit(repository, '/');
    SplitPartsOmitSeparator(repository, '/');
    assert Join(parts, '/') == parts[0] + "/" + Join(parts[1..], '/');
  }

  // ---------------------------------------------------------------------------
  // The installation

  predicate OwnedBy(installation: Installation, owner: string) {
    ToLower(installation.login) == ToLower(owner)
  }

  /** The id of the first installation whose account is the owner, ignoring case. */
  function FirstInstallation(installations: seq<Installation>, owner: string): Option<int>
    decreases |installations|
  {
    if installations == [] then None
    else if OwnedBy(installations[0], owner) then Some(installations[0].id)
    else FirstInstallation(installations[1..], owner)
  }

  /** The installation loop, which stops at the first match. */
  method FindInstallation(installations: seq<Installation>, owner: string) returns (id: Option<int>)
    ensures id == FirstInstallation(installations, owner)
  {
    id := None;
    var i := 0;
    while i < |installations|
      invariant 0 <= i <= |installations|
      invariant FirstInstallation(installations[i..], owner) == FirstInstallation(installations, owner)
    {
      assert installations[i..][1..] == installations[i + 1..];
      if ToLower(installations[i].login) == ToLower(owner) {
        id := Some(installations[i].id);
        break;
      }
      i := i + 1;
    }
  }

  /** The installation found is the first that matches; none is found iff
      none matches. */
  lemma {:induction false} FirstInstallationIsFirst(installations: seq<Installation>, owner: string)
    ensures FirstInstallation(installations, owner).None? <==>
      forall i :: 0 <= i < |installations| ==> !OwnedBy(installations[i], owner)
    ensures FirstInstallation(installations, owner).Some? ==>
      exists i :: 0 <= i < |installations| && OwnedBy(installations[i], owner)
        && installations[i].id == FirstInstallation(installations, owner).value
        && forall j :: 0 <= j < i ==> !OwnedBy(installations[j], owner)
    decreases |installations|
  {
    if installations != [] && !OwnedBy(installations[0], owner) {
      var rest := installations[1..];
      FirstInstallationIsFirst(rest, owner);
      if FirstInstallation(rest, owner).Some? {
        var i :| 0 <= i < |rest| && OwnedBy(rest[i], owner)
          && rest[i].id == FirstInstallation(rest, owner).value
          && forall j :: 0 <= j < i ==> !OwnedBy(rest[j], owner);
        assert installations[i + 1] == rest[i];
        assert forall j :: 0 <= j < i + 1 ==> !OwnedBy(installations[j], owner) by {
          forall j | 0 <= j < i + 1 ensures !OwnedBy(installations[j], owner) {
            if j > 0 { assert installations[j] == rest[j - 1]; }
          }
        }
      } else {
        forall i | 0 <= i < |installations| ensures !OwnedBy(installations[i], owner) {
          if i > 0 { assert installations[i] == rest[i - 1]; }
        }
      }
    }
  }

  function NoInstallation(repository: string): string {
    "Failed to find installation id for '" + repository + "'"
  }

  // ---------------------------------------------------------------------------
  // Repository names

  /** One identifier of the list: it needs a non-empty second part and the
      first repository's owner, compared exactly. */
  function NameOf(repository: string, owner: string, first: string): Result<string> {
    var parts := Split(repository, '/');
    if |parts| < 2 || parts[1] == "" then
      Err("Item \"" + repository + "\" does not contain a second element.")
    else if parts[0] != owner then
      Err("Item \"" + repository + "\" is not owned by the same owner as \"" + first + "\".")
    else Ok(parts[1])
  }

  /** The names of all repositories, or the first identifier's error. */
  function Names(repositories: seq<string>, owner: string, first: string): Result<seq<string>>
    decreases |repositories|
  {
    if repositories == [] then Ok([])
    else
      match Names(repositories[..|repositories| - 1], owner, first)
      case Err(m) => Err(m)
      case Ok(names) =>
        match NameOf(repositories[|repositories| - 1], owner, first)
        case Err(m) => Err(m)
        case Ok(n) => Ok(names + [n])
  }

  /** The `forEach` over the repositories; a throw ends it. */
  method RepositoryNames(repositories: seq<string>, owner: string, first: string) returns (r: Result<seq<string>>)
    ensures r == Names(repositories, owner, first)
  {
    var names: seq<string> := [];
    var i := 0;
    while i < |repositories|
      invariant 0 <= i <= |repositories|
      invariant Names(repositories[..i], owner, first) == Ok(names)
    {
      assert repositories[..i + 1][..i] == repositories[..i];
      var parts := Split(repositories[i], '/');
      if |parts| < 2 || parts[1] == "" {
        NamesStopAt(repositories, i + 1, owner, first);
        return Err("Item \"" + repositories[i] + "\" does not contain a second element.");
      }
      if parts[0] != owner {
        NamesStopAt(repositories, i + 1, owner, first);
        return Err("Item \"" + repositories[i] + "\" is not owned by the same owner as \"" + first + "\".");
      }
      names := names + [parts[1]];
      i := i + 1;
    }
    assert repositories[..i] == repositories;
    r := Ok(names);
  }

  lemma {:induction false} NamesStopAt(repositories: seq<string>, n: nat, owner: string, first: string)
    requires n <= |repositories| && Names(repositories[..n], owner, first).Err?
    ensures Names(repositories, owner, first) == Names(repositories[..n], owner, first)
    decreases |repositories| - n
  {
    if n < |repositories| {
      var init := repositories[..|repositories| - 1];
      assert init[..n] == repositories[..n];
      NamesStopAt(init, n, owner, first);
    } else {
      assert repositories[..n] == repositories;
    }
  }

  /** When every identifier passes, the names are their second parts, one per
      repository in order, all of the same owner. */
  lemma {:induction false} NamesAreSecondParts(repositories: seq<string>, owner: string, first: string)
    requires Names(repositories, owner, first).Ok?
    ensures var names := Names(repositories, owner, first).value;
      && |names| == |repositories|
      && forall i :: 0 <= i < |repositories| ==>
           var parts := Split(repositories[i], '/');
           |parts| >= 2 && parts[0] == owner && names[i] == parts[1] && names[i] != ""
    decreases |repositories|
  {
    if repositories != [] {
      NamesAreSecondParts(repositories[..|repositories| - 1], owner, first);
    }
  }

  /** The names step succeeds iff every identifier passes. */
  lemma {:induction false} NamesSucceedIffAllPass(repositories: seq<string>, owner: string, first: string)
    ensures Names(repositories, owner, first).Ok? <==>
      forall i :: 0 <= i < |repositories| ==> NameOf(repositories[i], owner, first).Ok?
    decreases |repositories|
  {
    if repositories != [] {
      var init := repositories[..|repositories| - 1];
      NamesSucceedIffAllPass(init, owner, first);
      assert forall i :: 0 <= i < |init| ==> init[i] == repositories[i];
    }
  }

  /** When the identifier at `i` is the first to fail, its error is the step's. */
  lemma NamesFailAtFirst(repositories: seq<string>, owner: string, first: string, i: nat)
    requires i < |repositories| && NameOf(repositories[i], owner, first).Err?
    requires forall j :: 0 <= j < i ==> NameOf(repositories[j], owner, first).Ok?
    ensures Names(repositories, owner, first) == Err(NameOf(repositories[i], owner, first).message)
  {
    var upTo := repositories[..i + 1];
    assert upTo[..i] == repositories[..i];
    NamesSucceedIffAllPass(repositories[..i], owner, first);
    NamesStopAt(repositories, i + 1, owner, first);
  }

  /** The first repository passes the names step whenever it parsed and
      its name is not empty. */
  lemma FirstRepositoryPasses(first: string)
    requires ParseIdentifier(first).Ok? && ParseIdentifier(first).value.name != ""
    ensures NameOf(first, ParseIdentifier(first).value.owner, first) == Ok(ParseIdentifier(first).value.name)
  {
  }

  // ---------------------------------------------------------------------------
  // Pull-request refs

  const MergeSuffix := "/merge"

  /** The number of a ref matching `^(\d+)\/merge$`. */
  function MergeNumber(ref: string): (r: Option<string>)
    ensures r.Some? ==> r.value != [] && AllDigits(r.value) && ref == r.value + MergeSuffix
  {
    assert |ref| >= |MergeSuffix| ==> ref == ref[..|ref| - |MergeSuffix|] + ref[|ref| - |MergeSuffix|..];
    if |ref| > |MergeSuffix| && ref[|ref| - |MergeSuffix|..] == MergeSuffix && AllDigits(ref[..|ref| - |MergeSuffix|])
    then Some(ref[..|ref| - |MergeSuffix|])
    else None
  }

  /** A pull request's merge ref becomes its head ref on `pull_request`
      events; every other ref is used as given. */
  function CommitRef(ref: string, eventName: string): (r: string)
    ensures r != ref ==>
      eventName == "pull_request" && MergeNumber(ref).Some? && r == "refs/pull/" + MergeNumber(ref).value + "/head"
  {
    match MergeNumber(ref)
    case Some(n) => if eventName == "pull_request" then "refs/pull/" + n + "/head" else ref
    case None => ref
  }

  /** A ref matches iff it is a non-empty run of digits followed by `/merge`,
      and the match is that run of digits. */
  lemma MergeNumberMatches(ref: string, n: string)
    ensures MergeNumber(ref) == Some(n) <==> n != [] && AllDigits(n) && ref == n + MergeSuffix
  {
    if n != [] && AllDigits(n) && ref == n + MergeSuffix {
      assert ref[..|ref| - |MergeSuffix|] == n;
      assert ref[|ref| - |MergeSuffix|..] == MergeSuffix;
    }
    if MergeNumber(ref) == Some(n) {
      assert ref == ref[..|ref| - |MergeSuffix|] + ref[|ref| - |MergeSuffix|..];
    }
  }

  /** The rewrite of a merge ref on a pull-request event, and no rewrite otherwise. */
  lemma CommitRefRewrites(n: string, eventName: string)
    requires n != [] && AllDigits(n)
    ensures CommitRef(n + MergeSuffix, eventName) ==
      if eventName == "pull_request" then "refs/pull/" + n + "/head" else n + MergeSuffix
  {
    MergeNumberMatches(n + MergeSuffix, n);
  }

  lemma CommitRefKeepsOthers(ref: string, eventName: string)
    requires eventName != "pull_request" || MergeNumber(ref).None?
    ensures CommitRef(ref, eventName) == ref
  {
  }

  // ---------------------------------------------------------------------------
  // `run` and `post`

  /** Fetching a file: only an `HttpError` with status 404 is skipped. */
  function ContentStep(api: GitHubApi, id: Identifier, sha: string): string -> Step {
    path => SkipNotFound(api.getContent(id.owner, id.name, sha, path), "HttpError")
  }

  /** `run`. `saved` is the token saved for `post`, "" when none was. */
  method Run(repositories: seq<string>, ref: string, files: seq<string>, env: GitHubEnv, api: GitHubApi)
    returns (r: Result<RepositoryInfo>, saved: string)
    ensures env.key == "" ==> r == Err(MissingKey) && saved == ""
    ensures env.key != "" && repositories == [] ==> r == Err(NoFirstRepository) && saved == ""
    ensures env.key != "" && repositories != [] && ParseIdentifier(repositories[0]).Err? ==>
      r == Err(InvalidFormat(repositories[0])) && saved == ""
    ensures env.key != "" && repositories != [] && ParseIdentifier(repositories[0]).Ok? ==>
      var id := ParseIdentifier(repositories[0]).value;
      var installation := FirstInstallation(api.installations, id.owner);
      var names := Names(repositories, id.owner, repositories[0]);
      if installation.None? || installation.value == 0 then
        r == Err(NoInstallation(repositories[0])) && saved == ""
      else if names.Err? then
        r == Err(names.message) && saved == ""
      else
        var token := api.issueToken(installation.value, names.value);
        var commit := api.getCommit(id.owner, id.name, CommitRef(ref, env.eventName));
        && saved == token
        && r == match Fold(files, ContentStep(api, id, commit.sha))
                case Err(m) => Err(m)
                case Ok(fs) => Ok(RepositoryInfo(commit.sha, commit.date, token, fs))
  {
    saved := "";
    var applicationId := AppIdOf(env);
    if env.key == "" {
      return Err(MissingKey), saved;
    }
    if repositories == [] {
      return Err(NoFirstRepository), saved;
    }
    var parsed := ParseIdentifier(repositories[0]);
    if parsed.Err? {
      return Err(parsed.message), saved;
    }
    var id := parsed.value;
    var installation := FindInstallation(api.installations, id.owner);
    if installation.None? || installation.value == 0 {
      return Err(NoInstallation(repositories[0])), saved;
    }
    var names := RepositoryNames(repositories, id.owner, repositories[0]);
    if names.Err? {
      return Err(names.message), saved;
    }
    var token := api.issueToken(installation.value, names.value);
    saved := token;
    var commit := api.getCommit(id.owner, id.name, CommitRef(ref, env.eventName));
    var fetched := FetchFiles(files, ContentStep(api, id, commit.sha));
    if fetched.Err? {
      return Err(fetched.message), saved;
    }
    r := Ok(RepositoryInfo(commit.sha, commit.date, token, fetched.value));
  }

  /** `post` revokes the saved token, if there is one. */
  function PostRevokes(saved: string): (revoked: Option<string>)
    ensures revoked.Some? <==> saved != ""
    ensures revoked.Some? ==> revoked.value == saved
  {
    if saved != "" then Some(saved) else None
  }
}

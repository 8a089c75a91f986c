/**
 * The Bitbucket provider: with a username and an app password it looks up
 * the ref by name in the workspace and project the URL points at, insists
 * on exactly one match, and fetches the requested files at its commit by
 * HTTP status: a success is kept, a 404 is skipped, anything else fails.
 *
 * The HTTP answers are the record `BitbucketApi`; the URL arrives parsed
 * and the base64 encoder is a parameter.
 */
module Bitbucket {
  import opened Wrappers
  import opened Strings
  import opened Types
  import opened FileFetch

  const MissingUsername := "Bitbucket repositories must supply `env.PEW_BITBUCKET_USERNAME"
  const MissingPassword := "Bitbucket repositories must supply `env.PEW_BITBUCKET_PASSWORD`"

  function Malformed(repository: string): string {
    "Malformed bitbucket repository '" + repository + "'"
  }

  function FailedRef(ref: string): string {
    "Failed to find ref '" + ref + "'"
  }

  /** The commit a ref points at; `date` in milliseconds. */
  datatype Target = Target(hash: string, date: int)

  /** The decoded answer of the refs query: an error object, or a page whose
      `values` may be absent. A request or decoding that throws ends the run
      with its message just as an error object does, and is an `ErrorAnswer`
      too. */
  datatype RefsAnswer = ErrorAnswer(message: string) | Page(values: Option<seq<Target>>)

  /** The outcome of a file request: a response, or the error thrown when
      the request is rejected or its body cannot be read. */
  datatype Response = Response(status: nat, statusText: string, text: string) | Rejected(message: string)

  /** `response.ok`: a status in the 200s. */
  predicate Succeeded(response: Response) {
    response.Response? && 200 <= response.status <= 299
  }

  /** The API's answers: `refs` gets workspace, project and ref name; `source`
      gets workspace, project, commit and path. */
  datatype BitbucketApi = BitbucketApi(
    refs: (string, string, string) -> RefsAnswer,
    source: (string, string, string, string) -> Response)

  datatype Location = Location(workspace: string, project: string)

  /** The URL path must split on `/` into exactly three parts: the empty
      part before the leading `/`, the workspace and the project. */
  function ParsePath(repository: string, pathname: string): (r: Result<Location>)
    ensures r.Ok? <==> CountChar(pathname, '/') == 2
    ensures r.Err? ==> r.message == Malformed(repository)
  {
    SplitCount(pathname, '/');
    var parts := Split(pathname, '/');
    if |parts| != 3 then Err(Malformed(repository)) else Ok(Location(parts[1], parts[2]))
  }

  /** `/<workspace>/<project>` is accepted, and gives back both. */
  lemma ParsePathRoundTrip(repository: string, workspace: string, project: string)
    requires '/' !in workspace && '/' !in project
    ensures ParsePath(repository, "/" + workspace + "/" + project) == Ok(Location(workspace, project))
  {
    SplitJoin(["", workspace, project], '/');
    assert ["", workspace, project][1..] == [workspace, project] && [workspace, project][1..] == [project];
    assert Join([workspace, project], '/') == workspace + "/" + project;
    assert Join(["", workspace, project], '/') == "/" + workspace + "/" + project;
  }

  /** A trailing slash makes a fourth part, and the path is rejected. */
  lemma TrailingSlashRejected(repository: string, workspace: string, project: string)
    requires '/' !in workspace && '/' !in project
    ensures ParsePath(repository, "/" + workspace + "/" + project + "/") == Err(Malformed(repository))
  {
    SplitJoin(["", workspace, project, ""], '/');
    var parts := ["", workspace, project, ""];
    assert parts[1..] == [workspace, project, ""] && parts[1..][1..] == [project, ""] && parts[1..][1..][1..] == [""];
    assert Join([project, ""], '/') == project + "/";
    assert Join([workspace, project, ""], '/') == workspace + "/" + project + "/";
    assert Join(["", workspace, project, ""], '/') == "/" + workspace + "/" + project + "/";
  }

  /** The lookup must not be an error and must hold exactly one value. */
  function SingleTarget(answer: RefsAnswer, ref: string): (r: Result<Target>)
    ensures answer.ErrorAnswer? ==> r == Err(answer.message)
    ensures answer.Page? ==> (r.Ok? <==> answer.values.Some? && |answer.values.value| == 1)
    ensures r.Ok? ==> answer.Page? && r.value == answer.values.value[0]
    ensures answer.Page? && r.Err? ==> r.message == FailedRef(ref)
  {
    match answer
    case ErrorAnswer(m) => Err(m)
    case Page(values) =>
      if values.None? || |values.value| != 1 then Err(FailedRef(ref)) else Ok(values.value[0])
  }

  /** How the fetch loop treats one response. */
  function StatusStep(path: string, response: Response): (s: Step)
    ensures s.Append? <==> Succeeded(response)
    ensures s.Append? ==> s.content == response.text
    ensures s.Skip? <==> response.Response? && response.status == 404
    ensures response.Rejected? ==> s == Abort(response.message)
    ensures response.Response? && s.Abort? ==>
      s.message == "Failed to fetch '" + path + "': " + NatToString(response.status) + ": " + response.statusText
  {
    match response
    case Rejected(m) => Abort(m)
    case Response(status, statusText, text) =>
      if Succeeded(response) then Append(text)
      else if status != 404 then
        Abort("Failed to fetch '" + path + "': " + NatToString(status) + ": " + statusText)
      else Skip
  }

  function SourceStep(api: BitbucketApi, at: Location, sha: string): string -> Step {
    path => StatusStep(path, api.source(at.workspace, at.project, sha, path))
  }

  /** The `Authorization` header and returned token. */
  function BasicAuth(username: string, password: string, base64: string -> string): string {
    "Basic " + base64(username + ":" + password)
  }

  /** `run`. `saved` is the password saved for `post`, "" when none was. */
  method Run(repository: string, pathname: string, ref: string, files: seq<string>,
             username: string, password: string, base64: string -> string, api: BitbucketApi)
    returns (r: Result<RepositoryInfo>, saved: string)
    ensures username == "" ==> r == Err(MissingUsername) && saved == ""
    ensures username != "" && password == "" ==> r == Err(MissingPassword) && saved == ""
    ensures username != "" && password != "" ==> saved == password
    ensures username != "" && password != "" && CountChar(pathname, '/') != 2 ==> r == Err(Malformed(repository))
    ensures username != "" && password != "" && CountChar(pathname, '/') == 2 ==>
      var at := ParsePath(repository, pathname).value;
      var target := SingleTarget(api.refs(at.workspace, at.project, ref), ref);
      && (target.Err? ==> r == Err(target.message))
      && (target.Ok? ==>
            r == match Fold(files, SourceStep(api, at, target.value.hash))
                 case Err(m) => Err(m)
                 case Ok(fs) => Ok(RepositoryInfo(target.value.hash, target.value.date,
                                                  BasicAuth(username, password, base64), fs)))
  {
    saved := "";
    if username == "" {
      return Err(MissingUsername), saved;
    }
    if password == "" {
      return Err(MissingPassword), saved;
    }
    saved := password;
    var basicAuth := BasicAuth(username, password, base64);
    var at := ParsePath(repository, pathname);
    if at.Err? {
      return Err(at.message), saved;
    }
    var target := SingleTarget(api.refs(at.value.workspace, at.value.project, ref), ref);
    if target.Err? {
      return Err(target.message), saved;
    }
    var sha := target.value.hash;
    var fetched := FetchFiles(files, SourceStep(api, at.value, sha));
    if fetched.Err? {
      return Err(fetched.message), saved;
    }
    r := Ok(RepositoryInfo(sha, target.value.date, basicAuth, fetched.value));
  }

  /** The files of a successful fetch are those that came back with a 2xx
      status, in request order; a 404 is never among them, and no request
      of a successful fetch was rejected or answered otherwise. */
  lemma FetchedAreOk(api: BitbucketApi, at: Location, sha: string, files: seq<string>, fs: seq<RepositoryFile>)
    requires Fold(files, SourceStep(api, at, sha)) == Ok(fs)
    ensures forall f :: f in fs ==>
      && f.path in files
      && Succeeded(api.source(at.workspace, at.project, sha, f.path))
      && f.content == api.source(at.workspace, at.project, sha, f.path).text
    ensures forall p :: p in files ==>
      var response := api.source(at.workspace, at.project, sha, p);
      || (response.Response? && response.status == 404)
      || Succeeded(response)
  {
    var step := SourceStep(api, at, sha);
    FoldKeeps(files, step);
    KeptAreFetched(files, step);
    FoldSucceedsIffNoAbort(files, step);
    forall p | p in files
      ensures var response := api.source(at.workspace, at.project, sha, p);
        (response.Response? && response.status == 404) || Succeeded(response)
    {
      var i :| 0 <= i < |files| && files[i] == p;
      assert !step(files[i]).Abort?;
    }
  }
}

/**
 * The GitLab provider: with a personal or project token it looks up the
 * one commit the ref names in the project the URL points at, saves the
 * token for `post`, and fetches the requested files at that commit,
 * skipping only those the server reports missing.
 *
 * The GitLab API is the record `GitLabApi`; the URL arrives parsed.
 */
module GitLab {
  import opened Wrappers
  import opened Types
  import opened FileFetch

  const MissingToken := "Gitlab repositories must supply `env.PEW_GITLAB_TOKEN`"

  function FailedRef(ref: string): string {
    "Failed to find ref '" + ref + "'"
  }

  /** A commit as the commit listing returns it; `committedDate` in milliseconds. */
  datatype GitLabCommit = GitLabCommit(id: string, committedDate: int)

  /** The API's answers: `commits` gets the project and the ref name (one
      page of at most one commit), `showFile` the project, path and commit. */
  datatype GitLabApi = GitLabApi(
    commits: (string, string) -> seq<GitLabCommit>,
    showFile: (string, string, string) -> Attempt)

  /** `pathname.substr(1)`: the path without its leading character. */
  function ProjectName(pathname: string): (name: string)
    ensures pathname == [] ==> name == []
    ensures pathname != [] ==> [pathname[0]] + name == pathname
  {
    if pathname == [] then [] else pathname[1..]
  }

  /** The project name read off `/<group>/<project>` is `<group>/<project>`. */
  lemma ProjectNameOfPath(path: string)
    ensures ProjectName("/" + path) == path
  {
    assert ("/" + path)[1..] == path;
  }

  /** The listing must hold exactly one commit. */
  function SingleCommit(commits: seq<GitLabCommit>, ref: string): (r: Result<GitLabCommit>)
    ensures r.Ok? <==> |commits| == 1
    ensures r.Ok? ==> r.value == commits[0]
    ensures r.Err? ==> r.message == FailedRef(ref)
  {
    if |commits| != 1 then Err(FailedRef(ref)) else Ok(commits[0])
  }

  /** Fetching a file: only a `GitbeakerRequestError` with status 404 is skipped. */
  function ShowStep(api: GitLabApi, project: string, sha: string): string -> Step {
    path => SkipNotFound(api.showFile(project, path, sha), "GitbeakerRequestError")
  }

  /** `run`. `saved` is the token saved for `post`, "" when none was. The
      token is saved only once the ref has resolved to exactly one commit. */
  method Run(pathname: string, ref: string, files: seq<string>, token: string, api: GitLabApi)
    returns (r: Result<RepositoryInfo>, saved: string)
    ensures token == "" ==> r == Err(MissingToken) && saved == ""
    ensures token != "" && |api.commits(ProjectName(pathname), ref)| != 1 ==> r == Err(FailedRef(ref)) && saved == ""
    ensures token != "" && |api.commits(ProjectName(pathname), ref)| == 1 ==>
      var c := api.commits(ProjectName(pathname), ref)[0];
      && saved == token
      && r == match Fold(files, ShowStep(api, ProjectName(pathname), c.id))
              case Err(m) => Err(m)
              case Ok(fs) => Ok(RepositoryInfo(c.id, c.committedDate, token, fs))
  {
    saved := "";
    if token == "" {
      return Err(MissingToken), saved;
    }
    var project := ProjectName(pathname);
    var commit := SingleCommit(api.commits(project, ref), ref);
    if commit.Err? {
      return Err(commit.message), saved;
    }
    saved := token;
    var sha := commit.value.id;
    var fetched := FetchFiles(files, ShowStep(api, project, sha));
    if fetched.Err? {
      return Err(fetched.message), saved;
    }
    r := Ok(RepositoryInfo(sha, commit.value.committedDate, token, fetched.value));
  }

  /** When the fetch loop of `run` succeeds (and so `run` returns its files),
      every file it returns was requested and holds what the API returned for
      it, every requested file the API returned is among them, and every
      other requested file was reported missing: a `GitbeakerRequestError`
      with status 404. */
  lemma RunKeepsRequested(api: GitLabApi, project: string, sha: string, files: seq<string>, fs: seq<RepositoryFile>)
    requires Fold(files, ShowStep(api, project, sha)) == Ok(fs)
    ensures forall f :: f in fs ==> f.path in files && api.showFile(project, f.path, sha) == Returned(f.content)
    ensures forall p :: p in files && api.showFile(project, p, sha).Returned? ==>
      RepositoryFile(p, api.showFile(project, p, sha).content) in fs
    ensures forall p :: p in files ==>
      var attempt := api.showFile(project, p, sha);
      || attempt.Returned?
      || (attempt.Threw? && attempt.name == "GitbeakerRequestError" && attempt.status == Some(404))
  {
    var step := ShowStep(api, project, sha);
    FoldKeeps(files, step);
    KeptAreFetched(files, step);
    FoldSucceedsIffNoAbort(files, step);
    forall p | p in files
      ensures var attempt := api.showFile(project, p, sha);
        || attempt.Returned?
        || (attempt.Threw? && attempt.name == "GitbeakerRequestError" && attempt.status == Some(404))
    {
      var i :| 0 <= i < |files| && files[i] == p;
      assert !step(files[i]).Abort?;
    }
  }
}

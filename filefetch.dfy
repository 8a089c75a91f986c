/**
 * The per-file loop the GitHub, Bitbucket and GitLab providers share: the
 * requested paths are fetched in order, a fetched file is appended, a file
 * the server does not have is skipped, and any other failure ends the run
 * with its error. Each provider decides, by its own rule, which of the
 * three a fetch attempt is.
 */
module FileFetch {
  import opened Wrappers
  import opened Types

  /** How the loop treats one fetch attempt. */
  datatype Step = Append(content: string) | Skip | Abort(message: string)

  /** A fetch through a client library: it returns the decoded content or
      throws an error with a `name`, an HTTP `status` when it has one, and a
      `message`. */
  datatype Attempt = Returned(content: string) | Threw(name: string, status: Option<int>, message: string)

  /** The rule of the library-based providers: only an error of the given
      name with status 404 is skipped, and everything else thrown is rethrown. */
  function SkipNotFound(attempt: Attempt, errorName: string): (s: Step)
    ensures s.Skip? <==> attempt.Threw? && attempt.name == errorName && attempt.status == Some(404)
    ensures s.Append? <==> attempt.Returned?
    ensures s.Append? ==> s.content == attempt.content
    ensures s.Abort? ==> s.message == attempt.message
  {
    match attempt
    case Returned(c) => Append(c)
    case Threw(name, status, message) =>
      if name == errorName && status == Some(404) then Skip else Abort(message)
  }

  /** The loop's result over `paths`: the first abort wins. */
  function Fold(paths: seq<string>, fetch: string -> Step): Result<seq<RepositoryFile>>
    decreases |paths|
  {
    if paths == [] then Ok([])
    else
      match Fold(paths[..|paths| - 1], fetch)
      case Err(m) => Err(m)
      case Ok(files) =>
        var path := paths[|paths| - 1];
        match fetch(path)
        case Append(c) => Ok(files + [RepositoryFile(path, c)])
        case Skip => Ok(files)
        case Abort(m) => Err(m)
  }

  /** The files a run that never aborts returns: the appended ones, in order. */
  function Kept(paths: seq<string>, fetch: string -> Step): seq<RepositoryFile>
    decreases |paths|
  {
    if paths == [] then []
    else
      var rest := Kept(paths[..|paths| - 1], fetch);
      var path := paths[|paths| - 1];
      if fetch(path).Append? then rest + [RepositoryFile(path, fetch(path).content)] else rest
  }

  /** The fetch loop. */
  method FetchFiles(paths: seq<string>, fetch: string -> Step) returns (r: Result<seq<RepositoryFile>>)
    ensures r == Fold(paths, fetch)
  {
    var files: seq<RepositoryFile> := [];
    var i := 0;
    while i < |paths|
      invariant 0 <= i <= |paths|
      invariant Fold(paths[..i], fetch) == Ok(files)
    {
      var path := paths[i];
      assert paths[..i + 1][..i] == paths[..i];
      var step := fetch(path);
      match step {
        case Append(c) =>
          files := files + [RepositoryFile(path, c)];
        case Skip =>
        case Abort(m) =>
          AbortStops(paths, i + 1, fetch);
          return Err(m);
      }
      i := i + 1;
    }
    assert paths[..i] == paths;
    r := Ok(files);
  }

  /** Once a prefix has aborted, the whole run has, with the same message. */
  lemma {:induction false} AbortStops(paths: seq<string>, n: nat, fetch: string -> Step)
    requires n <= |paths| && Fold(paths[..n], fetch).Err?
    ensures Fold(paths, fetch) == Fold(paths[..n], fetch)
    decreases |paths| - n
  {
    if n < |paths| {
      var init := paths[..|paths| - 1];
      assert init[..n] == paths[..n];
      AbortStops(init, n, fetch);
    } else {
      assert paths[..n] == paths;
    }
  }

  /** The run succeeds iff no path aborts. */
  lemma {:induction false} FoldSucceedsIffNoAbort(paths: seq<string>, fetch: string -> Step)
    ensures Fold(paths, fetch).Ok? <==> forall i :: 0 <= i < |paths| ==> !fetch(paths[i]).Abort?
    decreases |paths|
  {
    if paths != [] {
      var init := paths[..|paths| - 1];
      FoldSucceedsIffNoAbort(init, fetch);
      assert forall i :: 0 <= i < |init| ==> init[i] == paths[i];
    }
  }

  /** When the path at `i` is the first to abort, its message ends the run. */
  lemma FoldAbortsAtFirst(paths: seq<string>, fetch: string -> Step, i: nat)
    requires i < |paths| && fetch(paths[i]).Abort?
    requires forall j :: 0 <= j < i ==> !fetch(paths[j]).Abort?
    ensures Fold(paths, fetch) == Err(fetch(paths[i]).message)
  {
    var upTo := paths[..i + 1];
    assert upTo[..i] == paths[..i];
    FoldSucceedsIffNoAbort(paths[..i], fetch);
    AbortStops(paths, i + 1, fetch);
  }

  /** A run that does not abort returns exactly the appended files. */
  lemma {:induction false} FoldKeeps(paths: seq<string>, fetch: string -> Step)
    ensures Fold(paths, fetch).Ok? ==> Fold(paths, fetch).value == Kept(paths, fetch)
    decreases |paths|
  {
    if paths != [] {
      FoldKeeps(paths[..|paths| - 1], fetch);
    }
  }

  /** The kept files are requested paths with their fetched content, no more
      of them than paths, and skipped paths are not among them. */
  lemma {:induction false} KeptAreFetched(paths: seq<string>, fetch: string -> Step)
    ensures |Kept(paths, fetch)| <= |paths|
    ensures forall f :: f in Kept(paths, fetch) ==> f.path in paths && fetch(f.path) == Append(f.content)
    ensures forall p :: p in paths && fetch(p).Append? ==> RepositoryFile(p, fetch(p).content) in Kept(paths, fetch)
    decreases |paths|
  {
    if paths != [] {
      var init := paths[..|paths| - 1];
      KeptAreFetched(init, fetch);
      forall p | p in paths && fetch(p).Append?
        ensures RepositoryFile(p, fetch(p).content) in Kept(paths, fetch)
      {
        if p in init {
        } else {
          assert p == paths[|paths| - 1];
        }
      }
      forall f | f in Kept(paths, fetch)
        ensures f.path in paths && fetch(f.path) == Append(f.content)
      {
        if f in Kept(init, fetch) {
          assert f.path in init;
        }
      }
    }
  }
}

# Build-name and source-provider action, modelled in Dafny

This project models the core of a CI action. The action resolves a
repository ref to a commit through a source provider, then derives two
build names from that commit, the ref and the current date. It fetches the
files the workflow asked for and exports each one into the environment
variable named for it. Its `post` phase runs each provider's cleanup.

Modules, one file each:

- `Wrappers` (`wrappers.dfy`): `Option` and `Result` (an error carries its message).
- `Strings` (`strings.dfy`): the JavaScript string operations the code uses,
  written out over `seq<char>`:
  - `split` on one character, `join`, `trim`, ASCII `toLowerCase`;
  - `startsWith`/`endsWith`, `indexOf`, `replace` with a string pattern;
  - `toString` of a non-negative integer, `padStart`;
  - rendering a possibly-`undefined` value in a template literal.
- `Types` (`types.dfy`): the records passed between the parts.
- `BuildNames` (`buildname.dfy`): `generate`, which fills the
  `{project-name}-{datetime}-{hash}-{shortname}+{platform}+{configuration}+{branch}`
  template. Its substitutions are first proved for a template built from
  arbitrary placeholders, then used on the real one.
- `Action` (`action.dfy`): `run` and `post` of the entry point. What the host
  is asked to do (saved state, failures, outputs, warnings, exported
  variables) is a list of effects, in order.
- `FileFetch` (`filefetch.dfy`): the per-file loop shared by the GitHub,
  Bitbucket and GitLab providers. A fetched file is kept, a missing one is
  skipped, and any other failure ends the run with its error.
- `GitHub`, `GitLab`, `Bitbucket`, `Perforce`: the four providers.

Every loop of the source is a `method` with a `while` loop. Each is proved
equal to a recursive specification function, and lemmas prove what the
source promises about those functions. Services outside the process are
parameters:

- the provider APIs, `p4.exe`, the environment and the clock;
- the run number;
- the word list's chooser (`word`) and the base64 encoder.

The model follows the code as written, including these behaviours:

- Only `github` is a registered provider. `gitlab`, `bitbucket` and
  `perforce` are modelled as providers but are not reachable from `run`.
- A missing `ref` is reported as a failure, but `run` goes on: it still
  calls the provider and publishes outputs (`Action.Run`).
- `required` (a trailing `!`) is parsed but never enforced. A missing file
  is skipped whether or not it was required.
- Bitbucket looks the ref up by name only; there is no fallback that treats
  the ref as a raw commit hash.
- The GitHub app-id check can never fail, because the id defaults to
  `239145` (`GitHub.AppIdOf`).

## Model

| member | source | states |
|---|---|---|
| Strings.ToLower | src/provider/github.ts:43 | same length; every upper-case ASCII letter becomes the letter 32 code points on, its lower case, and every other character is unchanged |
| Strings.Split | src/main.ts:43-47 | `split` with a one-character separator always gives at least one part; with JoinSplit, SplitCount and SplitPartsOmitSeparator its parts are exactly the separator-free runs between separators |
| Strings.Trim | src/main.ts:48-50 | `trim`; it has no contract of its own, and TrimSplits states that it removes exactly the leading and trailing white space |
| Strings.TrimSplits | src/main.ts:48 | the input is leading white space + the trimmed text + trailing white space, and the trimmed text neither starts nor ends with white space |
| Strings.JoinSplit | src/main.ts:43 | joining the parts of a split with the separator gives back the input |
| Strings.SplitPartsOmitSeparator | src/main.ts:46 | no part of a split contains the separator |
| Strings.SplitCount | src/main.ts:46-47 | a split has one part more than the input has separators |
| Strings.SplitJoin | src/provider/bitbucket.ts:23 | splitting the join of separator-free parts gives back those parts |
| Strings.IndexFrom | src/buildname.ts:20 | the index found is an occurrence at or after the start with none before it; none is found iff there is no occurrence |
| Strings.ReplaceFirst | src/buildname.ts:20 | with no occurrence of the pattern the text is unchanged; otherwise the result is as long as the text with one pattern traded for the replacement, and the text before the first occurrence is kept (ReplaceFirstAfter pins the rest) |
| Strings.ReplaceFirstAfter | src/buildname.ts:20 | when the pattern does not occur before a given place, `replace` substitutes exactly there: the text before it, the replacement, then the text after the pattern |
| Strings.NatToString | src/buildname.ts:7-12 | the rendering is non-empty decimal digits that read back as the number, with no leading zero |
| Strings.PadStart | src/buildname.ts:7-12 | the padded length is the larger of the width and the input's length |
| Strings.PadStartShape | src/buildname.ts:7-12 | the padded text is fill characters followed by the input, unchanged |
| BuildNames.ShortHash | src/buildname.ts:17 | the hash is the first 7 characters of the commit (all of a shorter one), each lowered |
| BuildNames.TwoDigitsAreDigits | src/buildname.ts:7-12 | a padded field is all digits |
| BuildNames.TwoDigitsOfSmall | src/buildname.ts:7-12 | a number below 100 renders as exactly its tens and units digit, zero-padded, and reads back as itself |
| BuildNames.TwoDigitsReadBack | src/buildname.ts:7-12 | a field below 100 is two digits that read back as the number |
| BuildNames.LongDateLayout | src/buildname.ts:7-15 | the long date is `YYMMDD-hhmmss`: 13 characters, each field two digits reading back as the UTC year modulo 100, month counted from 1, day, hour, minute and second; the short date is its `MMDD` |
| BuildNames.LongDateHasNoBrace | src/buildname.ts:14 | the long date holds no `{`, so it cannot introduce a placeholder |
| BuildNames.FillHashStep | src/buildname.ts:20 | the hash replaces the `{hash}` placeholder in place, leaving the rest as it was |
| BuildNames.FillDateStep | src/buildname.ts:25 | the long date replaces `{datetime}` in place |
| BuildNames.FillBranchStep | src/buildname.ts:26 | the numbered branch replaces the final `{branch}` |
| BuildNames.FillShortStep | src/buildname.ts:29 | the short name replaces `{shortname}` in place |
| BuildNames.PlaceholdersApart | src/buildname.ts:4 | each placeholder opens with a `{` it never repeats, and none occurs in the template before its own place, even after the earlier substitutions |
| BuildNames.BranchKeyApart | src/buildname.ts:4 | `{branch}` does not occur before the last placeholder, once the hash and date are in |
| BuildNames.HeadFree | src/buildname.ts:4 | a later placeholder does not occur in `{project-name}-<date>-<hash>` |
| BuildNames.Generate | src/buildname.ts:6-35 | `generate`, the four replacements in the source's order; it has no contract of its own, and GenerateClosedForm and the lemmas after it state what it computes |
| BuildNames.GenerateClosedForm | src/buildname.ts:19-34 | the short name is the short date + the word chosen for the template with `{shortname}` still in it; the template is `{project-name}-<long date>-<hash>-<short name>+{platform}+{configuration}+<ref><run number>` |
| BuildNames.ShortNameInTemplate | src/buildname.ts:28-29 | the short name stands verbatim in the template, right after the hash |
| BuildNames.TemplateSegments | src/buildname.ts:19-34 | the template starts with project name, long date and hash, and ends with platform, configuration and numbered branch; the short name starts with the short date |
| BuildNames.RunNumberOnlyMovesBranchAndWord | src/buildname.ts:22-29 | two runs that differ only in the run number agree on the template up to the short name, and on the short date |
| BuildNames.GenerateEnds | src/buildname.ts:23-29 | the short name starts with the short date, and the template ends with `+` and the ref followed by the run number |
| BuildNames.ExampleDate | src/buildname.ts:7-15 | 2024-03-07T14:05:09Z renders as `240307-140509` and `0307` |
| BuildNames.ExampleHash | src/buildname.ts:17 | `abc1234ffffffff` shortens to `abc1234` |
| BuildNames.GenerateExample | src/buildname.ts:6-34 | for ref `main`, run 42 and that date, the short name starts with `0307` and the template ends with `+main42` |
| FileFetch.SkipNotFound | src/provider/github.ts:124-129 | a thrown error is skipped iff it has the library's error name and status 404; a returned file is kept with its content; anything else rethrows its message |
| FileFetch.FetchFiles | src/provider/github.ts:109-130 | the fetch loop, which stops at the first rethrown error, gives the fold over the paths |
| FileFetch.AbortStops | src/provider/github.ts:127 | once the files so far have failed, the remaining paths do not change the result |
| FileFetch.FoldSucceedsIffNoAbort | src/provider/github.ts:110-130 | the loop succeeds iff no path's fetch fails |
| FileFetch.FoldAbortsAtFirst | src/provider/github.ts:124-128 | the error of the first failing path is the loop's error |
| FileFetch.FoldKeeps | src/provider/github.ts:109-123 | a loop that succeeds returns exactly the kept files, in order |
| FileFetch.KeptAreFetched | src/provider/github.ts:119-123 | every kept file is a requested path with its fetched content, and every fetched path is kept |
| GitHub.AppIdOf | src/provider/github.ts:9-12 | the app id is the variable's value when set and `239145` otherwise, so it is never missing |
| GitHub.ParseIdentifier | src/provider/github.ts:21-24 | an identifier without exactly one `/` fails with `Invalid repository format for '<id>'` |
| GitHub.IdentifierRoundTrip | src/provider/github.ts:21-27 | `owner/name` parses back into that owner and name |
| GitHub.IdentifierAccepted | src/provider/github.ts:21-27 | an accepted identifier is exactly owner `/` name, neither containing `/` |
| GitHub.FindInstallation | src/provider/github.ts:41-47 | the installation loop, stopping at the first match, gives the first installation whose login equals the owner ignoring case |
| GitHub.FirstInstallationIsFirst | src/provider/github.ts:42-47 | none is found iff no installation matches; a found id is that of a matching installation with no match before it |
| GitHub.RepositoryNames | src/provider/github.ts:53-68 | the loop over the repositories gives their names or the first identifier's error |
| GitHub.NamesStopAt | src/provider/github.ts:54-59 | after an identifier fails, later repositories do not change the result |
| GitHub.NamesAreSecondParts | src/provider/github.ts:56-67 | when all pass, there is one name per repository, in order: its non-empty second part, under the first repository's owner |
| GitHub.NamesSucceedIffAllPass | src/provider/github.ts:54-68 | the names step succeeds iff every identifier has a non-empty second part and the same owner |
| GitHub.NamesFailAtFirst | src/provider/github.ts:57-64 | the error of the first failing identifier is the step's error |
| GitHub.FirstRepositoryPasses | src/provider/github.ts:21-27 | the first repository, once parsed with a non-empty name, passes the names step |
| GitHub.MergeNumber | src/provider/github.ts:91-92 | a match is a non-empty run of digits that, followed by `/merge`, is the whole ref |
| GitHub.MergeNumberMatches | src/provider/github.ts:91-92 | a ref matches `^(\d+)\/merge$` iff it is a non-empty run of digits followed by `/merge`, and the group is those digits |
| GitHub.CommitRef | src/provider/github.ts:90-95 | the ref changes only on a `pull_request` event for a merge ref, and then becomes `refs/pull/<n>/head` for its number |
| GitHub.CommitRefRewrites | src/provider/github.ts:90-95 | `<n>/merge` becomes `refs/pull/<n>/head` on a `pull_request` event, and stays as given otherwise |
| GitHub.CommitRefKeepsOthers | src/provider/github.ts:90-95 | a ref that does not match, or any ref outside a pull-request event, is used as given |
| GitHub.Run | src/provider/github.ts:7-138 | the private-key, first-repository, identifier, installation (zero id included) and names guards fail in that order. The token is issued for the names and saved before the ref and files are resolved. The result is the resolved commit, its date, the token and the fetched files, or the first fetch error |
| GitHub.PostRevokes | src/provider/github.ts:140-151 | `post` revokes a token iff one was saved, and it is that token |
| GitLab.ProjectName | src/provider/gitlab.ts:14 | the project name is the URL path with its first character removed (empty stays empty) |
| GitLab.ProjectNameOfPath | src/provider/gitlab.ts:14 | the path `/<group>/<project>` names the project `<group>/<project>` |
| GitLab.SingleCommit | src/provider/gitlab.ts:21-30 | the lookup succeeds iff exactly one commit is listed, and that commit is used; otherwise it fails with `Failed to find ref '<ref>'` |
| GitLab.Run | src/provider/gitlab.ts:4-64 | a missing token fails first; a listing without exactly one commit fails without saving the token; otherwise the token is saved and the result is that commit's id and date, the input token and the fetched files, or the first fetch error |
| GitLab.RunKeepsRequested | src/provider/gitlab.ts:37-54 | when the fetch loop of `run` succeeds, each returned file was requested and holds what the API returned for it, every requested file the API returned is among them, and every other requested file was reported missing as a `GitbeakerRequestError` with status 404 |
| Bitbucket.ParsePath | src/provider/bitbucket.ts:22-30 | the URL path is accepted iff it holds exactly two `/` (three parts); otherwise `Malformed bitbucket repository '<repository>'` |
| Bitbucket.ParsePathRoundTrip | src/provider/bitbucket.ts:22-30 | `/<workspace>/<project>` is accepted and gives back that workspace and project |
| Bitbucket.TrailingSlashRejected | src/provider/bitbucket.ts:23-26 | `/<workspace>/<project>/` is rejected as malformed |
| Bitbucket.SingleTarget | src/provider/bitbucket.ts:44-54 | an error answer fails with its own message; a page succeeds iff it has values and exactly one of them, which is the target used; otherwise `Failed to find ref '<ref>'` |
| Bitbucket.StatusStep | src/provider/bitbucket.ts:57-78 | a 2xx response is kept with its text, a 404 is skipped, any other status fails with `Failed to fetch '<path>': <status>: <status text>`, and a rejected request fails with its own error |
| Bitbucket.Run | src/provider/bitbucket.ts:4-87 | missing username, then missing password fail first; the password is saved once both are present; a malformed path fails; then an error answer fails with its message, a lookup without exactly one match with `Failed to find ref '<ref>'`, a failing fetch with the first failure's error, and otherwise the result is the target's hash and date, the `Basic` token of `user:password` and the files the fold kept |
| Bitbucket.FetchedAreOk | src/provider/bitbucket.ts:57-79 | after a successful fetch every returned file is a requested path that came back 2xx with that text, and every requested path came back 2xx or 404 (none was rejected) |
| Perforce.ValidRef | src/provider/perforce.ts:7-18 | `validateRef`: `#head`, or `@` followed by one or more digits; it has no contract of its own, and ValidRefShape states the accepted shape |
| Perforce.ChangelistRefValid | src/provider/perforce.ts:7-18 | `@` followed by any changelist number is a valid ref |
| Perforce.ValidRefShape | src/provider/perforce.ts:7-18 | a ref is valid iff it is `#head` or `@` followed by a non-empty run of ASCII digits |
| Perforce.ValidRefExamples | src/provider/perforce.ts:7-18 | `#head` and `@12345` are valid; `@`, `#HEAD`, `12345` and `@12a` are not |
| Perforce.ViewSpec | src/provider/perforce.ts:147-157 | the loop over the client spec's fields gives the view list, or stops at the first malformed view with its error |
| Perforce.ViewsStopAt | src/provider/perforce.ts:151-153 | once a view is malformed, later fields do not change the result |
| Perforce.ViewsSucceedIffWellFormed | src/provider/perforce.ts:147-157 | the view list builds iff no `View` field fails to split on a space into exactly two parts |
| Perforce.ViewOfMapping | src/provider/perforce.ts:149-155 | a `View` field `<depot> <client>` contributes `<depot><ref>` |
| Perforce.ViewsOnePerView | src/provider/perforce.ts:147-157 | a built view list has one entry per field whose key starts with `View`, in field order: entry k is the first space-separated part of the k-th `View` field's value with the ref appended |
| Perforce.LatestChange | src/provider/perforce.ts:167-173 | the loop keeping a running maximum gives the specified latest change |
| Perforce.LatestIsFirstMaximum | src/provider/perforce.ts:167-176 | there is a latest change iff the list is non-empty, and it is the first change with the greatest number |
| Perforce.LatestKeepsFirstOfTie | src/provider/perforce.ts:170-172 | of two changes tied at the top, the earlier is kept |
| Perforce.ChangeInfo | src/provider/perforce.ts:178-185 | the result's commit is `@<change>` (itself a valid ref), its date the change time times 1000, its token `p4ticket`, and it has no files |
| Perforce.Guard | src/provider/perforce.ts:65-97 | the guards fail in the source's order with its messages: more than one repository, any requested file, an invalid ref, no user, no password, no client template, no server at all, an `ssl:` server without a fingerprint; the run gets past them iff none applies |
| Perforce.Run | src/provider/perforce.ts:63-186 | a failed guard saves nothing; a failed trust gives `p4.exe returned error <code>` and saves nothing; a failed login gives its exit error and keeps only the trust port; after the login the port and user are saved, and a failing client command, a malformed view, a failing changes command or an empty listing each give their own error; otherwise the result is the latest change's information. The run succeeds iff every command exits 0, the views build and some change is listed |
| Perforce.Post | src/provider/perforce.ts:188-224 | `post` logs out iff both login port and user were saved, revokes trust iff the trust port was saved, runs exactly one command for each, logs out first, and runs nothing else |
| Perforce.PostAfterRun | src/provider/perforce.ts:91-135 | whatever state `run` left, `post` logs out iff the login succeeded on a non-empty server name (an empty saved value reads as unset), and then revokes trust iff the server is an `ssl:` one |
| Action.EntryOf | src/main.ts:46-54 | one `files` element parsed on its own; it has no contract of its own, and EntryOfParts states its result |
| Action.EntryOfParts | src/main.ts:46-54 | an element is kept iff it splits on the bar character into exactly two parts; it is required iff the trimmed path ends with `!`, and then exactly one `!` is removed; the variable is the trimmed second part |
| Action.ParseFiles | src/main.ts:41-61 | the parsing loop gives the request list and the dictionary of the parsed elements |
| Action.RequestsInOrder | src/main.ts:45-59 | one request per well-formed element, in input order, duplicates kept, and no request from a dropped element |
| Action.EmptyInputNoRequests | src/main.ts:43-47 | an empty `files` input yields no request and an empty dictionary |
| Action.EnvMapKeys | src/main.ts:55 | a path is in the dictionary iff some well-formed element names it |
| Action.EnvMapLastWins | src/main.ts:55 | for a path named several times the dictionary holds the variable of the last element naming it |
| Action.LookupProvider | src/main.ts:14-16 | the provider is found iff its lower-cased name is `github`; otherwise `Unknown provider '<name>'` |
| Action.LookupIgnoresCase | src/main.ts:63-66 | `GitHub`, `GITHUB` and `github` are found; `gitlab` is unknown |
| Action.ExportFiles | src/main.ts:87-95 | the export loop gives the specified effects |
| Action.ExportsMappedFiles | src/main.ts:87-95 | one effect per returned file, in order: an export under its variable iff its path maps to a non-empty name, a warning otherwise |
| Action.Run | src/main.ts:18-105 | `run` asks the host for exactly the effects its specification lists |
| Action.Publish | src/main.ts:70-95 | a resolved run outputs the token, the commit and both build names for the resolved commit, then the exports |
| Action.GuardsComeFirst | src/main.ts:24-39 | without a repository or a provider the effects do not depend on the provider's answer, and include that failure |
| Action.MissingRefStillResolves | src/main.ts:30-33 | a missing ref is reported as a failure, yet the provider is asked and the token and commit are still output |
| Action.ResolvedRunExports | src/main.ts:86-95 | in a resolved run the last effects are one per fetched file, exported under the variable its path was given in `files` or warned about |
| Action.PublishedExports | src/main.ts:87-95 | the exports follow the four outputs, one per file, in order |
| Action.Post | src/main.ts:107-118 | `post` warns once per provider cleanup that threw an `Error`, in order |
| Action.WarningsAreErrors | src/main.ts:108-117 | every cleanup error becomes a warning and every warning is a cleanup error, and a failing cleanup does not stop later ones |

## Left out

- The host requests of `main` (saved state, failures, outputs, warnings, exported variables) are recorded as effects. The network, `p4.exe`, the file system and the clock are parameters. Console logging, `setSecret` and `core.error` are left out.
- BuildNames.Generate: `replace` is modelled with a literal pattern and replacement. JavaScript's `$` patterns in a replacement string (a `$&` in a ref, for example) are not interpreted.
- BuildNames.Generate: the word list's chooser is a parameter, because `wordlist` is not part of this model.
- `Date` parsing and time zones are left out. A date is its UTC fields, and `commitDate` is milliseconds.
- Strings.PadStart: its own contract states only the length, to keep the date proofs small; PadStartShape states that the result is fill characters followed by the input.
- Strings.ToLower: only ASCII letters are lowered. JavaScript's full Unicode case mapping is left out.
- Strings are sequences of code points, not UTF-16 code units. `substr` and `length` agree with the source only for text in the Basic Multilingual Plane.
- The main-to-provider call is left out. `run` passes one repository string and `FileRequest` records, but the providers declare `string[]` for both. Each provider is modelled on its declared types, and `Action.Run` ends at the provider's answer. As written, GitHub's `repositories[0]` is then the first character of the repository string, so an `owner/name` input fails with `Invalid repository format for 'o'`, and `repositories.forEach` does not exist on a string.
- Object-key lookups (`allProviders[...]`, `filePathToEnv[...]`) are modelled as exact dictionary lookups. Inherited prototype keys such as `constructor` are left out.
- `for...in` over the client record is taken in field order; the model gets the fields as a sequence.
- In `run`, throws of values that are not `Error`s are left out; `run` would rethrow them. In `post` they are the outcome `ThrewOther`, which is ignored.
- `post` gets each provider's cleanup outcome as a parameter; the Bitbucket and GitLab cleanups do nothing.
- The Perforce change number is a natural number rendered canonically. The raw JSON text (leading zeros, say) is not kept.
- URL parsing, `btoa` on non-Latin-1 text and the JSON decoding of API answers are left out: the path, the encoder and the decoded records are inputs.
- GitLab: an error named `GitbeakerRequestError` without a `cause` would throw a `TypeError`. The model treats it as an error without a status, which is rethrown.
- FileFetch.Fold: a path's fetch is a function of the path, so a path listed twice in `files` gets the same answer both times. The source sends a new request for each listing; at a fixed commit the answers agree, and a request that fails only on a repeat is not modelled.
- Perforce.Run: a command that exits non-zero gives the source's own message `p4.exe returned error <code>`. Run through `@actions/exec` without `ignoreReturnCode`, such a command is rejected by the library with its own error text, which then becomes the run's error instead; what is saved on each path is the same either way. The library is not part of this model.
- Perforce's temporary password file is left out; the login gets the password directly.
- API calls other than the file fetches (GitHub's app and token requests and its commit lookup, GitLab's commit listing) are modelled as always answering. A ref the API cannot resolve, or a transport error, would end the run with the API's error. Bitbucket's refs query that throws is an `ErrorAnswer` carrying the thrown message, and a Bitbucket file request that is rejected, or whose body cannot be read, is a `Rejected` response.
- Perforce: a `p4` answer whose JSON does not parse is left out; the decoded records are inputs.
- The GitHub provider's log lines (the app name, the repositories the token covers) are left out.

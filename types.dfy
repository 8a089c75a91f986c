/** The records passed between the action, its providers and the build-name generator. */
module Types {

  /** A file the workflow asks for; `required` is parsed but no provider acts on it. */
  datatype FileRequest = FileRequest(path: string, required: bool)

  /** A file a provider fetched, with its decoded content. */
  datatype RepositoryFile = RepositoryFile(path: string, content: string)

  /** What a provider resolves: `commitDate` is milliseconds since the epoch. */
  datatype RepositoryInfo = RepositoryInfo(commit: string, commitDate: int, token: string, files: seq<RepositoryFile>)

  /** The UTC fields of a `Date` as its `getUTC*` accessors return them; `month` counts from 0. */
  datatype UtcDate = UtcDate(fullYear: nat, month: nat, day: nat, hours: nat, minutes: nat, seconds: nat)

  /** The ranges a `Date`'s UTC accessors stay within. */
  predicate ValidUtcDate(d: UtcDate) {
    d.month < 12 && 1 <= d.day <= 31 && d.hours < 24 && d.minutes < 60 && d.seconds < 60
  }

  datatype BuildDescription = BuildDescription(ref: string, commit: string, date: UtcDate)

  datatype BuildName = BuildName(template: string, short: string)
}

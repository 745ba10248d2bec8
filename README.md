# ghgql report scripts, modelled in Dafny

ghgql is a set of Python scripts that run GraphQL queries against the
GitHub API and write the answers to CSV reports. This project models their
core:

- the request executor in `lib/__init__.py`. One request is classified as
  bad credentials (exit), errors in the reply (the query and payload are
  written to two diagnostic files first), missing data, or success. The
  fetch retries up to three attempts, with a one-second sleep between them.
- the CSV writer `write_csv`. It writes nothing for no rows. It takes the
  columns from the first row, and writes a header only for a new file or in
  overwrite mode.
- the command-line helpers: `process_variables` (key/value pairs; `start`
  becomes `since`; `isFork` becomes a flag), `process_args` and
  `to_archive_url`.
- the timestamp helpers of `lib/time.py` and the commit flattening of
  `lib/git.py`.
- the cursor-following loops of `repos_and_commit_counts.py` and
  `repo_commits.py`. Both are instances of one pagination model: chained
  `cursor` variables, stopping at the first page without a next page, and
  the rows of all pages in fetch order.
- the committer and end-date filters of `get_commits`, and the report file
  name.
- `repos_and_commits.py`: `clean`, the list of at most 30 repositories,
  `process_results` (pop `rateLimit`, group rows by repository), and
  `write`, which writes a single header and then every group's rows.

The system is modelled in these terms:

- **Transport and FileSystem.** The HTTP transport is a `Transport` object
  holding a finite script of decoded replies. Each request consumes the
  next reply. A request made after the script is used up fails the way a
  `requests` exception does, and is not retried. Requests sent and sleeps
  taken are recorded in a ghost trace. The file system is a `FileSystem`
  object mapping every existing path to its lines.
- **Methods and their specification functions.** The imperative operations
  are methods over these objects plus the loops of the source. Each method
  is proved equal to a specification function on a `World` value. The
  properties are proved about those functions.
- **Failures.** A Python exception becomes the `Failure` case of a
  `Result`. `sys.exit(1)` becomes `Failure(Exit(1))`. A `KeyError` on a
  missing JSON key becomes `MissingKey`. A `TypeError` or `AttributeError`
  from indexing into a null field becomes `NullValue`.

Modules: `Common` (Option, Result, error kinds, `MapResult`), `Rows` (cell
values and ordered rows), `Time`, `Git`, `Lib`, `Paging`,
`ReposAndCommitCounts`, `RepoCommits`, `ReposAndCommits`.

Where the code and its comments disagree, the model follows the code:

- `parse_commit` reads the author login from the committer's user
  (`value["committer"]["user"]`, not an author field). The model does the
  same, so in verbose rows `author_login` always equals `committer_login`.
- `process_response` puts the branch name the reply reports into each row,
  not the branch name the caller asked for.
- `get_commits` turns the end date into a GitHub timestamp and then back
  into a date with `as_date`. `EndBoundIsEndDate` proves this round trip is
  the date given.

## Model

| member | source | states |
|---|---|---|
| Common.MapResult | ghgql/repo_commits.py:44-46 | a list comprehension over a raising call: succeeds exactly when every element's call succeeds, and then gives one result per element in order |
| Common.MapResultFailsAt | ghgql/repo_commits.py:44-46 | when an element fails and every earlier one succeeds, the whole comprehension fails with that element's error |
| Common.MapResultSnoc | ghgql/repo_commits.py:44-46 | one more successful element adds its result at the end |
| Rows.Keys | ghgql/lib/__init__.py:182 | the column names of a row, in its key order |
| Rows.KeysOfConcat | ghgql/lib/git.py:51 | the keys of `dict(a, **b)` with disjoint keys are a's keys followed by b's |
| Rows.LookupAt | ghgql/lib/git.py:51 | in a row with distinct keys, looking up the i-th key gives the i-th value |
| Rows.OptionalStr | ghgql/lib/git.py:17 | None becomes null, and `Some(x)` becomes the string value `x` |
| Time.DaysInMonth | ghgql/lib/time.py:14 | the date check `strptime` applies: 28 to 31 days, 29 in February exactly in leap years |
| Time.NumberOfPad | ghgql/lib/time.py:14 | reading back a zero-padded number gives the number |
| Time.PadOfNumber | ghgql/lib/time.py:14 | a digit string is the zero-padded form of its value |
| Time.FormatDate | ghgql/lib/time.py:14 | a date prints as ten characters with dashes at positions 4 and 7 |
| Time.ParseDate | ghgql/lib/time.py:14 | `%Y-%m-%d` accepts only ten-character strings of valid calendar dates |
| Time.ParseOfFormat | ghgql/lib/time.py:14 | parsing a printed valid date gives the date back |
| Time.FormatOfParse | ghgql/lib/time.py:14 | printing a parsed string gives the string back |
| Time.AsGitTimestamp | ghgql/lib/time.py:7-14 | succeeds exactly for a valid YYYY-MM-DD date and then appends midnight (`T00:00:00`); otherwise it fails with a date error |
| Time.AsDate | ghgql/lib/time.py:17-23 | reads only the first ten characters; succeeds exactly when they form a valid date, and the date prints as those characters |
| Time.AsDateReadsTenCharacters | ghgql/lib/time.py:21 | two strings that share their first ten characters give the same result |
| Time.TimestampRoundTrip | ghgql/lib/time.py:7-23 | `as_date(as_git_timestamp(s))` is the date s names |
| Git.Login | ghgql/lib/git.py:16-17 | null exactly when there is no user; otherwise the user's login |
| Git.VerboseRowKeys | ghgql/lib/git.py:25-35 | the verbose row's keys are the nine verbose column names, in order and distinct |
| Git.VerboseRowCommitFields | ghgql/lib/git.py:26-30 | the verbose row's id, author date, author login, commit date and committer login hold the commit's values |
| Git.VerboseRowChangeFields | ghgql/lib/git.py:31-34 | the verbose row's changed files, additions, deletions and message hold the commit's values |
| Git.VerboseFields | ghgql/lib/git.py:25-35 | the nine verbose columns in order, with distinct keys, each holding its field |
| Git.BriefFields | ghgql/lib/git.py:37-42 | the four default columns in order, each holding its field |
| Git.ParseCommit | ghgql/lib/git.py:12-42 | succeeds exactly when both dates parse, with the authored date's error first; the keys are the verbose or brief columns; the author login equals the committer login |
| Git.Prefixed | ghgql/lib/git.py:51 | repo_name and branch_name come first and the commit's fields follow unchanged |
| Git.PrepareRowShape | ghgql/lib/git.py:45-51 | `prepare_row` fails exactly when `parse_commit` does; otherwise it gives distinct keys, the two names and then the parsed fields |
| Git.PrepareAll | ghgql/repo_commits.py:44-46 | one row per commit in node order, or failure when some commit fails |
| Git.PrepareAllSnoc | ghgql/repos_and_commits.py:70-77 | one more commit appends its row |
| Git.PrepareAllFailsAt | ghgql/repos_and_commits.py:70-77 | the first commit that fails decides the error |
| Lib.Classify | ghgql/lib/__init__.py:45-70 | "Bad credentials" exits with status 1; otherwise non-empty errors fail even with data present; null data fails; success returns the reply unchanged; every failure except the exit is retryable |
| Lib.Request | ghgql/lib/__init__.py:37-70 | one call is recorded and one reply consumed; success means a reply with data |
| Lib.RequestDiagnostics | ghgql/lib/__init__.py:54-63 | an errors reply writes the query text and the payload to the two diagnostic paths, keeps every other file and raises; any other reply writes nothing |
| Lib.Attempt | ghgql/lib/__init__.py:88-108 | the attempts from attempt i on never consume more replies than the script holds, and a success consumes at least one |
| Lib.AttemptTrace | ghgql/lib/__init__.py:88-108 | the attempts from attempt i on keep the earlier trace and add at most MAX_ATTEMPTS - i calls with a one-second sleep between consecutive ones |
| Lib.Fetch | ghgql/lib/__init__.py:73-110 | a success consumes at least one reply, and no run consumes more than the script holds |
| Lib.AttemptLast | ghgql/lib/__init__.py:94-95 | the third attempt's failure is raised without a sleep |
| Lib.AttemptRetried | ghgql/lib/__init__.py:92-106 | a retryable failure before the last attempt sleeps one second and tries again |
| Lib.AttemptRun | ghgql/lib/__init__.py:88-108 | k-1 retryable failures then a success give that reply's data, k calls with sleeps between, and the diagnostics of the failures |
| Lib.FetchFirstSuccess | ghgql/lib/__init__.py:88-110 | when the k-th reply (k at most 3) is the first good one, fetch returns its data after k calls and k-1 sleeps |
| Lib.AttemptsThree | ghgql/lib/__init__.py:88-106 | three attempts are call, sleep one second, call, sleep one second, call |
| Lib.FetchGivesUp | ghgql/lib/__init__.py:94-95 | three retryable failures raise the third one's error after three calls and two sleeps, with all three diagnostics written |
| Lib.FetchStopsOnBadCredentials | ghgql/lib/__init__.py:46-49 | bad credentials after j retried failures exit at once, with no further call |
| Lib.AttemptsShape | ghgql/lib/__init__.py:88-108 | the events of one fetch are 1 to 3 calls, one fewer sleeps, and end with a call |
| Lib.FetchCallsAtMostThree | ghgql/lib/__init__.py:31 | every fetch makes between one and MAX_ATTEMPTS calls, with a sleep between consecutive calls |
| Lib.Transport.constructor | ghgql/lib/__init__.py:38-43 | the transport starts with its script and an empty trace |
| Lib.Transport.Post | ghgql/lib/__init__.py:38-43 | `requests.post`: records the call and takes the next reply, or none once the script is used up |
| Lib.Transport.Sleep | ghgql/lib/__init__.py:105 | records the sleep and leaves the script alone |
| Lib.FileSystem.constructor | ghgql/lib/__init__.py:135 | the file system starts with the given files |
| Lib.FileSystem.Open | ghgql/lib/__init__.py:184 | mode "w" empties the file and mode "a" keeps it; either way the file then exists |
| Lib.FileSystem.Write | ghgql/lib/__init__.py:123-136 | the file holds exactly the lines written |
| Lib.FileSystem.Append | ghgql/lib/__init__.py:189 | the lines go after the file's existing lines |
| Lib.RequestOnce | ghgql/lib/__init__.py:37-70 | the request's result and new world are those of `Request` |
| Lib.FetchGithubData | ghgql/lib/__init__.py:73-110 | the retry loop's result, trace, script and files are those of `Fetch` |
| Lib.Extras | ghgql/lib/__init__.py:185-189 | the keys outside the field names; empty exactly when every key is a field name |
| Lib.RowLine | ghgql/lib/__init__.py:185-189 | `DictWriter` accepts a row exactly when all its keys are field names, and then writes one cell per field name in field order, empty for a missing key |
| Lib.RowLines | ghgql/lib/__init__.py:189 | `writerows` writes at most one line per row; it succeeds exactly when every row can be written, and then writes one line per row |
| Lib.RowLinesRecordAt | ghgql/lib/__init__.py:189 | the i-th line written is the record of the i-th row |
| Lib.RowLinesRecords | ghgql/lib/__init__.py:189 | every line written is the record of the row at the same position |
| Lib.RowLinesStopsAtFirstError | ghgql/lib/__init__.py:189 | a failure stops at the first row with an extra key, keeps the lines before it, and reports that row's error |
| Lib.WriteRows | ghgql/lib/__init__.py:189 | appends the lines `RowLines` gives and returns its result |
| Lib.OpenCsv | ghgql/lib/__init__.py:180-188 | opening in append mode keeps the file's lines and overwrite mode empties it; the header is written when the file is new or not appended to |
| Lib.WriteCsvSteps | ghgql/lib/__init__.py:180-189 | opening, the header, then `writerows` together give the result and files of the write_csv specification |
| Lib.WriteCsv | ghgql/lib/__init__.py:165-195 | the result and files are those of the write_csv specification |
| Lib.HeaderCountOfConcat | ghgql/lib/__init__.py:187-189 | header counts add up over concatenation |
| Lib.NoHeaderAmongRows | ghgql/lib/__init__.py:189 | record lines never contain a header |
| Lib.WriteCsvNoRows | ghgql/lib/__init__.py:174-178 | no rows: success and no file touched |
| Lib.WriteCsvOnlyPath | ghgql/lib/__init__.py:180-189 | with rows, only the target path changes, and it exists afterwards |
| Lib.WriteCsvAppendKeeps | ghgql/lib/__init__.py:181-189 | appending to an existing file adds the rows and no header |
| Lib.WriteCsvFreshHeader | ghgql/lib/__init__.py:180-189 | a new file or overwrite mode gives exactly one header, from the first row's keys, then the rows |
| Lib.OverwriteThenAppend | ghgql/lib/__init__.py:169-172 | overwriting a report and then appending a section gives one header, then both sections in order |
| Lib.RecordRow | ghgql/lib/__init__.py:157-162 | a `DictReader` record has the header's names as keys |
| Lib.ReadRecords | ghgql/lib/__init__.py:157-162 | one row per record line |
| Lib.RecordReadsBack | ghgql/lib/__init__.py:157-189 | a row whose keys are the field names is read back with the same names and cells, in the order written |
| Lib.RecordsReadBack | ghgql/lib/__init__.py:157-189 | rows with the field names as keys are read back with the same names and cells, one row per record, in order |
| Lib.WriteCsvReadCsv | ghgql/lib/__init__.py:157-195 | `read_csv` after an overwriting `write_csv` of rows sharing the first row's keys gives back the rows' names and cells, in order |
| Lib.Pairs | ghgql/lib/__init__.py:209 | `zip(args[::2], args[1::2])`: the i-th pair is the (2i, 2i+1) arguments |
| Lib.ToDict | ghgql/lib/__init__.py:209 | the keys are exactly the pairs' keys |
| Lib.ToDictLastPair | ghgql/lib/__init__.py:209 | a pair whose key no later pair repeats gives that key's value |
| Lib.AsText | ghgql/lib/__init__.py:209 | every given value is sent as a string |
| Lib.RenameStart | ghgql/lib/__init__.py:212-214 | `start` is removed; a truthy start must be a valid date and becomes `since` with midnight appended, replacing any given `since`; a bad date fails |
| Lib.RenameFork | ghgql/lib/__init__.py:216-218 | `isFork` is removed, or replaced by the parsed flag when truthy; other keys are unchanged |
| Lib.ProcessVariables | ghgql/lib/__init__.py:198-222 | no arguments give the empty mapping; an odd count fails with the arguments; otherwise the dict goes through `start` and then `isFork` |
| Lib.ProcessVariablesResult | ghgql/lib/__init__.py:202-220 | the variables' full content: every other key unchanged as text, `since` from `start`, the `isFork` flag, or the bad-date error |
| Lib.LastValueWins | ghgql/lib/__init__.py:209 | the last value given for a key wins |
| Lib.ProcessArgs | ghgql/lib/__init__.py:225-236 | the first argument is the path and the rest are the variables; an empty list fails |
| Lib.ToArchiveUrl | ghgql/lib/__init__.py:239-243 | the URL is the host, the owner, the repository, `/archive/`, the branch and `.zip`, each in place |
| Lib.ArchiveUrlDeterminesParts | ghgql/lib/__init__.py:239-243 | with the owner's and the repository's lengths known, equal URLs name the same owner, repository and branch |
| Paging.RowsOfExtend | ghgql/repo_commits.py:88 | the rows of one more round are appended at the end |
| Paging.Paginate | ghgql/repo_commits.py:82-93 | the loop keeps the rounds already done as a prefix and never consumes more replies than the script holds |
| Paging.PaginateRuns | ghgql/repo_commits.py:82-93 | requests are chained by cursor; each round's page is the step of its data; success ends on a page without a next cursor and returns all rows in order; failure leaves the failed request's variables |
| Paging.FirstRequestAsGiven | ghgql/repos_and_commit_counts.py:71 | the first request sends the caller's variables unchanged |
| Paging.StopsAtFirstLastPage | ghgql/repos_and_commit_counts.py:85-89 | a successful run stops at the first page without a next page, every earlier page had one, and each later request's `cursor` is the previous page's end |
| Paging.ChainedCursors | ghgql/repo_commits.py:90-91 | the cursor sent next is the previous page's end cursor |
| Paging.RowsArePagesInOrder | ghgql/repo_commits.py:88 | the result is every page's rows concatenated in fetch order |
| Paging.RowsOfLength | ghgql/repo_commits.py:88 | the row count is the sum of the pages' row counts |
| ReposAndCommitCounts.PageCount | ghgql/repos_and_commit_counts.py:79 | `ceil(total / 100)`: the fewest pages of 100 items that hold them all |
| ReposAndCommitCounts.FirstLine | ghgql/repos_and_commit_counts.py:45 | `split("\n")[0]`: the longest prefix without a newline |
| ReposAndCommitCounts.SummaryFields | ghgql/repos_and_commit_counts.py:47-54 | the six summary columns in order, each holding its field |
| ReposAndCommitCounts.FormatRepoShape | ghgql/repos_and_commit_counts.py:22-54 | the six columns, with the owner login and the name |
| ReposAndCommitCounts.EmptyRepoDefaults | ghgql/repos_and_commit_counts.py:29-33 | no default branch: null branch, zero commits, no date, no subject |
| ReposAndCommitCounts.NoCommitsDefaults | ghgql/repos_and_commit_counts.py:35-40 | a branch with a zero count: its name, zero, no date, no subject |
| ReposAndCommitCounts.MissingLatestCommit | ghgql/repos_and_commit_counts.py:40-41 | a non-zero count and no commit node raise at `nodes[0]` |
| ReposAndCommitCounts.LatestCommitSummary | ghgql/repos_and_commit_counts.py:40-45 | the count, the latest commit's date (or its read error) and the first line of its message |
| ReposAndCommitCounts.FormatAll | ghgql/repos_and_commit_counts.py:81-83 | one formatted row per repository in order, or the first failure |
| ReposAndCommitCounts.CountsStep | ghgql/repos_and_commit_counts.py:72-89 | a null owner fails; a page's rows are its formatted repositories, with a next cursor exactly when `hasNextPage` |
| ReposAndCommitCounts.AppendFormatted | ghgql/repos_and_commit_counts.py:81-83 | appends the formatted repositories to the rows so far, or fails with the first failure |
| ReposAndCommitCounts.Variables.constructor | ghgql/repos_and_commit_counts.py:57 | the caller's variables dict |
| ReposAndCommitCounts.Variables.Set | ghgql/repos_and_commit_counts.py:87 | `variables['cursor'] = ...` changes that key only |
| ReposAndCommitCounts.GetReposAndCommitCounts | ghgql/repos_and_commit_counts.py:57-91 | the loop's result, world and the caller's variables as left are those of the pagination model |
| ReposAndCommitCounts.RowCountIsNodeCount | ghgql/repos_and_commit_counts.py:81-83 | the rows of the pages number as many as the repository nodes |
| ReposAndCommitCounts.OneRowPerRepository | ghgql/repos_and_commit_counts.py:57-91 | a successful run has one row per repository fetched |
| ReposAndCommitCounts.CountsReport | ghgql/repos_and_commit_counts.py:94-96 | the rows are written to the report in overwrite mode, or the failure is passed on with no report written |
| RepoCommits.BranchKey | ghgql/repo_commits.py:27 | `ref` exactly when a branch is named, otherwise `defaultBranchRef` |
| RepoCommits.Parse | ghgql/repo_commits.py:23-36 | a null repository or branch fails; otherwise the branch name, commit count and nodes, and the end cursor exactly when there is a next page |
| RepoCommits.ParseReadsRef | ghgql/repo_commits.py:27-28 | with a branch named, the default branch does not matter |
| RepoCommits.ParseReadsDefaultBranchRef | ghgql/repo_commits.py:27-28 | with no branch named, the `ref` field does not matter |
| RepoCommits.ProcessResponseSucceeds | ghgql/repo_commits.py:39-48 | a parse error is passed on; otherwise it succeeds exactly when every commit parses |
| RepoCommits.ProcessResponseRows | ghgql/repo_commits.py:39-48 | one row per commit in order, with the repository asked for and the reply's branch name, plus the count and cursor |
| RepoCommits.PageOf | ghgql/repo_commits.py:87-93 | the page's rows are the processed commits, and the loop continues exactly when the cursor is truthy |
| RepoCommits.Timestamp | ghgql/repo_commits.py:70-71 | no date gives None; a date must be valid and gets midnight appended |
| RepoCommits.QueryVariables | ghgql/repo_commits.py:72-77 | exactly owner, repo_name, branch_name and since, and no cursor before the first request |
| RepoCommits.Filter | ghgql/repo_commits.py:95-106 | `list(filter(...))`: the kept elements are members that pass, and every member that passes is kept |
| RepoCommits.FilterConcat | ghgql/repo_commits.py:95-106 | filtering distributes over concatenation |
| RepoCommits.FilterTwice | ghgql/repo_commits.py:95-106 | two filters in a row are the filter of their conjunction |
| RepoCommits.FilterKeepsAll | ghgql/repo_commits.py:95-106 | a test that every element passes keeps the list |
| RepoCommits.FilterAgrees | ghgql/repo_commits.py:95-106 | tests that agree on the elements give the same list |
| RepoCommits.KeepCommitter | ghgql/repo_commits.py:95-99 | no committer keeps every row; otherwise exactly the rows whose committer_login matches |
| RepoCommits.KeepBefore | ghgql/repo_commits.py:101-106 | no bound keeps every row; otherwise exactly the rows committed strictly before the bound, or the bound's read error |
| RepoCommits.FetchAllPages | ghgql/repo_commits.py:79-93 | the loop's result and world are those of the pagination model |
| RepoCommits.GetCommits | ghgql/repo_commits.py:51-114 | the date errors first, then the query for the named branch or the default one, then the loop and both filters, as in the get_commits specification |
| RepoCommits.EndBoundIsEndDate | ghgql/repo_commits.py:71-102 | the end date survives the trip to a timestamp and back |
| RepoCommits.KeepCommitterFilter | ghgql/repo_commits.py:95-99 | the committer filter is the generic filter with that test |
| RepoCommits.KeepBeforeFilter | ghgql/repo_commits.py:101-106 | the end-date filter is the generic filter with that test |
| RepoCommits.GetCommitsRows | ghgql/repo_commits.py:82-106 | a successful result is every page's rows in order, filtered by committer and end date |
| RepoCommits.NoFiltersKeepsEveryPage | ghgql/repo_commits.py:88-106 | with neither filter, every page's rows in order |
| RepoCommits.FiltersOnlyRemove | ghgql/repo_commits.py:95-106 | every row returned came from a page and passes both filters |
| RepoCommits.Show | ghgql/repo_commits.py:132-138 | `str.format` writes a present value as itself and a missing one as `None` |
| RepoCommits.OutputName | ghgql/repo_commits.py:19-20 | `owner--repo`, then `--branch` exactly when a branch is named, then `--start-S--end-E.csv` |
| RepoCommits.OutputPath | ghgql/repo_commits.py:139-140 | the file goes under the given directory, or under VAR_DIR when none is given |
| RepoCommits.CommitsToCsv | ghgql/repo_commits.py:117-151 | the commits go to that path in overwrite mode, or the failure is passed on with no report written |
| ReposAndCommits.Swap | ghgql/repos_and_commits.py:152 | `-` becomes `_` and `.` becomes `X`; other characters are kept |
| ReposAndCommits.Replaced | ghgql/repos_and_commits.py:152 | both replacements applied to every character |
| ReposAndCommits.Clean | ghgql/repos_and_commits.py:146-157 | an empty name fails at `name[0]`; otherwise the same length, a leading digit becomes X, and the rest has the replacements |
| ReposAndCommits.CleanGivesAlias | ghgql/repos_and_commits.py:150 | a cleaned name has no `-` or `.` and does not start with a digit |
| ReposAndCommits.ReplacedKeepsAlias | ghgql/repos_and_commits.py:152 | the replacements leave such a name unchanged |
| ReposAndCommits.CleanIdempotent | ghgql/repos_and_commits.py:146-157 | cleaning twice is cleaning once |
| ReposAndCommits.Take | ghgql/repos_and_commits.py:172 | `names[:30]`: the first names, at most 30 |
| ReposAndCommits.RepoListShape | ghgql/repos_and_commits.py:172-175 | at most 30 entries; each has its name, the clean name and no cursor; an empty name among them fails |
| ReposAndCommits.FirstFailure | ghgql/repos_and_commits.py:173-175 | a failing element means some first failure decides the error |
| ReposAndCommits.Find | ghgql/repos_and_commits.py:58 | the index of the first entry with the key, or none when no entry has it |
| ReposAndCommits.PopItem | ghgql/repos_and_commits.py:58 | `dict.pop(key)` fails exactly when the key is absent |
| ReposAndCommits.PopRemoves | ghgql/repos_and_commits.py:58 | popping returns the key's value and removes exactly that entry, keeping the others in order |
| ReposAndCommits.RepoRowsShape | ghgql/repos_and_commits.py:63-77 | a repository's brief rows, one per commit in order, with its name and its default branch's name |
| ReposAndCommits.Values | ghgql/repos_and_commits.py:63 | `results.values()` in order |
| ReposAndCommits.AddRowGroups | ghgql/repos_and_commits.py:77 | `output_data[name].append(row)`: that group gains the row at the end, the others are unchanged, and the groups stay well formed |
| ReposAndCommits.FindSnoc | ghgql/repos_and_commits.py:62-77 | a new group is found after all the older ones |
| ReposAndCommits.FindUpdate | ghgql/repos_and_commits.py:62-77 | changing a group's rows does not move any group |
| ReposAndCommits.AddRowsGroups | ghgql/repos_and_commits.py:69-77 | appending a repository's rows extends that group only |
| ReposAndCommits.MergeGroups | ghgql/repos_and_commits.py:62-77 | the grouped rows of a name are the rows of all its entries in order, and the groups are well formed |
| ReposAndCommits.GroupExists | ghgql/repos_and_commits.py:69-78 | a name has a group exactly when it has rows, so repositories without commits get none |
| ReposAndCommits.ProcessResultsGroups | ghgql/repos_and_commits.py:52-84 | the rate limit is popped and returned; every other entry's rows are grouped by name in order; no group is empty |
| ReposAndCommits.QueryResults.constructor | ghgql/repos_and_commits.py:52 | the reply's dict |
| ReposAndCommits.QueryResults.Pop | ghgql/repos_and_commits.py:58 | the popped value, with the dict left without the key, or the failure |
| ReposAndCommits.AppendCommits | ghgql/repos_and_commits.py:69-77 | the commits' rows are appended to the repository's group, or the first failure is returned |
| ReposAndCommits.AddRowsSnoc | ghgql/repos_and_commits.py:70-77 | appending rows one at a time is appending them together |
| ReposAndCommits.MergeSnoc | ghgql/repos_and_commits.py:63-77 | one more entry merges its rows at the end |
| ReposAndCommits.ProcessEntry | ghgql/repos_and_commits.py:64-77 | one entry's rows are added to its group, or its error is returned |
| ReposAndCommits.GroupedSnoc | ghgql/repos_and_commits.py:63-77 | the groups after one more entry |
| ReposAndCommits.GroupedFailsAt | ghgql/repos_and_commits.py:63-77 | the first failing entry decides the error |
| ReposAndCommits.ProcessResults | ghgql/repos_and_commits.py:52-84 | the result and the dict as left are those of the process_results specification |
| ReposAndCommits.GroupLinesSnoc | ghgql/repos_and_commits.py:121-128 | one more group adds its rows' lines |
| ReposAndCommits.GroupLinesStop | ghgql/repos_and_commits.py:121-128 | a group whose rows fail ends the output there |
| ReposAndCommits.WriteGroupStep | ghgql/repos_and_commits.py:124-128 | writing one group's rows is the next step of the group lines |
| ReposAndCommits.WriteGroup | ghgql/repos_and_commits.py:124-128 | a group's rows go after the lines so far |
| ReposAndCommits.WriteGroups | ghgql/repos_and_commits.py:104-128 | the file is truncated; the header is written before the first group only; then the groups' rows, as in the write specification |
| ReposAndCommits.Write | ghgql/repos_and_commits.py:100-130 | `write` with the report's eleven columns, as in the write specification |
| ReposAndCommits.NoHeaderAmongGroups | ghgql/repos_and_commits.py:121-128 | the groups' lines contain no header |
| ReposAndCommits.WriteHeaderOnce | ghgql/repos_and_commits.py:104-128 | exactly one header at the top when there are groups, and an empty file otherwise; the old file's content does not matter; other files are kept |
| ReposAndCommits.WriteAcceptsProcessedRows | ghgql/repos_and_commits.py:107-128 | the rows `process_results` gives always fit the eleven columns, so writing them never fails |
| ReposAndCommits.MergeKeyed | ghgql/repos_and_commits.py:72-77 | every grouped row has the brief commit columns after the two names |
| ReposAndCommits.AddRowsKeyed | ghgql/repos_and_commits.py:77 | appending brief rows keeps every group brief |
| ReposAndCommits.GroupLinesKeyed | ghgql/repos_and_commits.py:124-128 | brief rows are accepted by the eleven-column writer |
| ReposAndCommits.GetResults | ghgql/repos_and_commits.py:87-97 | one fetch with no variables, then `process_results` of its data, or the fetch's failure |
| ReposAndCommits.DoQuery | ghgql/repos_and_commits.py:133-143 | the grouped rows are written to CSV_PATH, or the failure is passed on with no report written |
| ReposAndCommits.MakeReport | ghgql/repos_and_commits.py:160-178 | an empty name among the first 30 fails before any request; otherwise one request, and the report is written or the failure passed on |

## Left out

- The HTTP call's URL, headers, JSON encoding and timeout are left out. The
  transport is a finite script of decoded replies. A call past its end
  stands for a `requests` exception, which is not retried.
- `sleep` is a trace event; no time passes.
- Everything the scripts print to the console is left out. This covers the
  progress lines, the `RATE LIMITED` notice, the page-count lines
  (`PageCount` states the number printed), `print(page_info)` in
  `process_results`, the rate-limit dump in `do_query`, the per-repository
  lines of `write`, and the counter in `get_commits`.
- `lib/text.py` (`prettify`, `eprint`, `parse_bool`, `print_args_on_error`)
  is not part of this model. `parse_bool` is a function parameter, and
  error messages are kept as error values.
- `lib/config.py`, `read_counts`, `read_file`, `query_by_filename`,
  `read_template` and the Jinja `render` are left out. Query texts are
  parameters, and `make_report`'s rendering is a function parameter.
- ReposAndCommits.MakeReport: the model assumes rendering always succeeds
  and gives a query text. The source passes four positional arguments to
  jinja2's `Template.render`, which takes dict-style arguments. The model
  does not capture an error raised there before any request.
- The command-line `main` functions and `ghgql/demo/variables.py` are left
  out.
- CSV byte encoding is left out: quoting, line endings, and how Python
  stringifies dates, numbers and None. A file is a sequence of header and
  record lines. `ReadCsv` covers only files in that form.
- Lib.RecordReadsBack, Lib.RecordsReadBack and Lib.WriteCsvReadCsv: these
  round trips hold for the model's typed cells only. `csv.DictReader`
  returns every cell as a string: `5` comes back as `"5"`, None as `""` and
  a date as its `YYYY-MM-DD` text. The model does not prove the read-back
  strings equal the rendered values.
- `strptime` is modelled on zero-padded ASCII `YYYY-MM-DD` only. Its leniency
  (one-digit months and days) and Unicode digits for `str.isnumeric` are not
  modelled.
- Vars are a map, so the key order of the Python dict is not modelled. The
  order of `results.values()` is modelled as an ordered list of entries.
- `Paging.Paginate` ends because every page uses a reply from the finite
  script. The code itself has no bound on the number of pages.
- `Lib.ProcessArgs` returns the path and leaves the caller's list unchanged;
  the `args.pop(0)` mutation is not modelled.
- `VAR_DIR` is the relative path `var`, not the absolute `APP_DIR / "var"`.
  `Path` normalisation is not modelled.
- `ReposAndCommitCounts.CountsReport` takes the report path as a parameter
  instead of computing `COUNTS_CSV_PATH_TODAY` from today's date.
- `RepoCommits.CommitsToCsv` takes the start and end dates from its caller.
  The defaults, `"START"` and `date.today()`, need a clock and are absent.
- A missing `ref` or `defaultBranchRef` key is treated as a null one. Both
  raise, and the model's error names the key.
- The `total_commits` that `process_response` returns is not used by the
  loop. The model passes it on and proves nothing more about it.

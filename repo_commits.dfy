/** repo_commits.py: every commit of one branch of one repository (the
    default branch unless one is named), page by page, optionally narrowed
    to one committer and to commits before an end date, written as CSV. */
module RepoCommits {
  import opened Common
  import opened Rows
  import opened Lib
  import opened Paging
  import opened Git
  import Time

  /** `target.history` of a branch: the commit count, one page of commits
      and where the page ends. */
  datatype History = History(totalCount: nat, nodes: seq<CommitNode>, pageInfo: PageInfo)
  datatype Branch = Branch(name: Option<string>, history: History)
  /** `ref` is the named branch, `defaultBranchRef` the default one; the
      API gives null for a branch that does not exist. */
  datatype Repository = Repository(ref: Option<Branch>, defaultBranchRef: Option<Branch>)
  /** The `data` of a reply; `repository` is null for an unknown repository. */
  datatype CommitsData = CommitsData(repository: Option<Repository>)

  /** What `parse` returns: the branch's own name, the commit count, the
      page's commits and the cursor to continue from. */
  datatype Parsed = Parsed(branchName: Option<string>, totalCommits: nat, commits: seq<CommitNode>, cursor: Option<string>)

  /** The key `parse` reads the branch from. */
  function BranchKey(branchName: Option<string>): (key: string)
    ensures key == "ref" <==> Truthy(branchName)
    ensures key == "ref" || key == "defaultBranchRef"
  {
    if Truthy(branchName) then "ref" else "defaultBranchRef"
  }

  function Selected(repo: Repository, branchName: Option<string>): Option<Branch> {
    if Truthy(branchName) then repo.ref else repo.defaultBranchRef
  }

  /** `parse(resp, branch_name)`. A null repository or branch fails where
      Python would index or call `.get` on None. */
  function Parse(data: CommitsData, branchName: Option<string>): (r: Result<Parsed>)
    ensures data.repository.None? ==> r == Failure(NullValue("repository"))
    ensures data.repository.Some? && Selected(data.repository.value, branchName).None? ==>
      r == Failure(NullValue(BranchKey(branchName)))
    ensures r.Success? <==> data.repository.Some? && Selected(data.repository.value, branchName).Some?
    ensures r.Success? ==> var b := Selected(data.repository.value, branchName).value;
      && r.value.branchName == b.name
      && r.value.totalCommits == b.history.totalCount
      && r.value.commits == b.history.nodes
      && (r.value.cursor.Some? ==> b.history.pageInfo.hasNextPage && r.value.cursor == b.history.pageInfo.endCursor)
      && (b.history.pageInfo.hasNextPage ==> r.value.cursor == b.history.pageInfo.endCursor)
  {
    match data.repository
    case None => Failure(NullValue("repository"))
    case Some(repo) =>
      match Selected(repo, branchName)
      case None => Failure(NullValue(BranchKey(branchName)))
      case Some(branch) =>
        var pageInfo := branch.history.pageInfo;
        var cursor := if pageInfo.hasNextPage then pageInfo.endCursor else None;
        Success(Parsed(branch.name, branch.history.totalCount, branch.history.nodes, cursor))
  }

  /** With a branch name, `parse` reads only `ref`: whatever
      `defaultBranchRef` holds does not change the outcome. */
  lemma ParseReadsRef(ref: Option<Branch>, one: Option<Branch>, other: Option<Branch>, branchName: Option<string>)
    requires Truthy(branchName)
    ensures Parse(CommitsData(Some(Repository(ref, one))), branchName) == Parse(CommitsData(Some(Repository(ref, other))), branchName)
  {
  }

  /** Without a branch name, `parse` reads only `defaultBranchRef`. */
  lemma ParseReadsDefaultBranchRef(one: Option<Branch>, other: Option<Branch>, default: Option<Branch>, branchName: Option<string>)
    requires !Truthy(branchName)
    ensures Parse(CommitsData(Some(Repository(one, default))), branchName) == Parse(CommitsData(Some(Repository(other, default))), branchName)
  {
  }

  /** `process_response`: the page's commits as rows, the commit count and
      the cursor. */
  function ProcessResponse(data: CommitsData, repoName: string, branchName: Option<string>, verbose: bool)
    : Result<(seq<Row>, nat, Option<string>)>
  {
    var parsed :- Parse(data, branchName);
    var rows :- PrepareAll(parsed.commits, repoName, parsed.branchName, verbose);
    Success((rows, parsed.totalCommits, parsed.cursor))
  }

  /** A reply is processed when it parses and each of its commits does. */
  lemma ProcessResponseSucceeds(data: CommitsData, repoName: string, branchName: Option<string>, verbose: bool)
    ensures Parse(data, branchName).Failure? ==>
      ProcessResponse(data, repoName, branchName, verbose) == Failure(Parse(data, branchName).error)
    ensures Parse(data, branchName).Success? ==> var commits := Parse(data, branchName).value.commits;
      ProcessResponse(data, repoName, branchName, verbose).Success? <==>
        forall i :: 0 <= i < |commits| ==> ParseCommit(commits[i], verbose).Success?
  {
    if Parse(data, branchName).Success? {
      var parsed := Parse(data, branchName).value;
      forall i | 0 <= i < |parsed.commits| {
        PrepareRowShape(parsed.commits[i], repoName, parsed.branchName, verbose);
      }
    }
  }

  /** A processed reply has one row per commit, in node order, each carrying
      the repository name asked for and the branch name the reply reports
      (not the one asked for), and the reply's commit count and cursor. */
  lemma ProcessResponseRows(data: CommitsData, repoName: string, branchName: Option<string>, verbose: bool)
    requires ProcessResponse(data, repoName, branchName, verbose).Success?
    ensures Parse(data, branchName).Success?
    ensures var parsed := Parse(data, branchName).value; var r := ProcessResponse(data, repoName, branchName, verbose).value;
      && r.1 == parsed.totalCommits && r.2 == parsed.cursor
      && |r.0| == |parsed.commits|
      && forall i :: 0 <= i < |parsed.commits| ==>
           && Lookup(r.0[i], "repo_name") == Some(Str(repoName))
           && Lookup(r.0[i], "branch_name") == Some(OptionalStr(parsed.branchName))
           && r.0[i][2..] == ParseCommit(parsed.commits[i], verbose).value
  {
    var parsed := Parse(data, branchName).value;
    forall i | 0 <= i < |parsed.commits| {
      PrepareRowShape(parsed.commits[i], repoName, parsed.branchName, verbose);
    }
  }

  /** What the loop makes of one reply: the rows, and the cursor to continue
      from while it is truthy. */
  function PageOf(data: CommitsData, repoName: string, branchName: Option<string>, verbose: bool): (r: Result<Page>)
    ensures var p := ProcessResponse(data, repoName, branchName, verbose);
      && (p.Failure? ==> r == Failure(p.error))
      && (p.Success? ==> r.Success? && r.value.rows == p.value.0)
      && (p.Success? ==> (r.value.next.Some? <==> Truthy(p.value.2)))
      && (p.Success? && Truthy(p.value.2) ==> r.value.next == Some(Str(p.value.2.value)))
  {
    var (rows, _, cursor) :- ProcessResponse(data, repoName, branchName, verbose);
    Success(Page(rows, if Truthy(cursor) then Some(Str(cursor.value)) else None))
  }

  function CommitsPage(repoName: string, branchName: Option<string>, verbose: bool): CommitsData -> Result<Page> {
    data => PageOf(data, repoName, branchName, verbose)
  }

  /** `as_git_timestamp(date) if date else None`. */
  function Timestamp(date: Option<string>): (r: Result<Option<string>>)
    ensures !Truthy(date) ==> r == Success(None)
    ensures Truthy(date) ==> (r.Success? <==> Time.ParseDate(date.value).Some?)
    ensures Truthy(date) && r.Success? ==> r.value == Some(date.value + Time.MIDNIGHT)
    ensures r.Failure? ==> r.error == BadDate(date.value)
  {
    if Truthy(date) then
      var ts :- Time.AsGitTimestamp(date.value);
      Success(Some(ts))
    else Success(None)
  }

  /** The variables of the first request. */
  function QueryVariables(owner: string, repoName: string, branchName: Option<string>, since: Option<string>): (v: Vars)
    ensures v.Keys == {"owner", "repo_name", "branch_name", "since"}
    ensures "cursor" !in v
  {
    map["owner" := Str(owner), "repo_name" := Str(repoName), "branch_name" := OptionalStr(branchName), "since" := OptionalStr(since)]
  }

  // Filters

  /** `list(filter(keep, s))`. */
  function Filter<T>(s: seq<T>, keep: T -> bool): (r: seq<T>)
    ensures |r| <= |s|
    ensures forall i :: 0 <= i < |r| ==> r[i] in s && keep(r[i])
    ensures forall i :: 0 <= i < |s| && keep(s[i]) ==> s[i] in r
  {
    if s == [] then []
    else Filter(s[..|s| - 1], keep) + (if keep(s[|s| - 1]) then [s[|s| - 1]] else [])
  }

  /** Filtering keeps the order: it acts on each part of a concatenation. */
  lemma {:induction false} FilterConcat<T>(a: seq<T>, b: seq<T>, keep: T -> bool)
    ensures Filter(a + b, keep) == Filter(a, keep) + Filter(b, keep)
    decreases |b|
  {
    if b != [] {
      var init := b[..|b| - 1];
      assert (a + b)[..|a + b| - 1] == a + init;
      assert (a + b)[|a + b| - 1] == b[|b| - 1];
      FilterConcat(a, init, keep);
    } else {
      assert a + b == a;
    }
  }

  /** Two filters in a row keep what both keep, in order. */
  lemma {:induction false} FilterTwice<T>(s: seq<T>, first: T -> bool, second: T -> bool, both: T -> bool)
    requires forall x :: both(x) == (first(x) && second(x))
    ensures Filter(Filter(s, first), second) == Filter(s, both)
    decreases |s|
  {
    if s != [] {
      var init := s[..|s| - 1];
      var last := s[|s| - 1];
      FilterTwice(init, first, second, both);
      var kept := if first(last) then [last] else [];
      FilterConcat(Filter(init, first), kept, second);
      assert Filter(kept, second) == (if both(last) then [last] else []) by {
        if first(last) {
          assert kept[..0] == [];
        }
      }
    }
  }

  /** A filter that keeps everything changes nothing. */
  lemma {:induction false} FilterKeepsAll<T>(s: seq<T>, keep: T -> bool)
    requires forall x :: x in s ==> keep(x)
    ensures Filter(s, keep) == s
    decreases |s|
  {
    if s != [] {
      FilterKeepsAll(s[..|s| - 1], keep);
      assert s[..|s| - 1] + [s[|s| - 1]] == s;
    }
  }

  /** Two tests that agree on every element keep the same elements. */
  lemma {:induction false} FilterAgrees<T>(s: seq<T>, keep: T -> bool, same: T -> bool)
    requires forall x :: keep(x) == same(x)
    ensures Filter(s, keep) == Filter(s, same)
    decreases |s|
  {
    if s != [] {
      FilterAgrees(s[..|s| - 1], keep, same);
    }
  }

  /** `res["committer_login"] == committer`. */
  predicate ByCommitter(row: Row, committer: string) {
    Lookup(row, "committer_login") == Some(Str(committer))
  }

  /** `res["committed_date"] < before`. */
  predicate CommittedBefore(row: Row, before: Time.Date) {
    match Lookup(row, "committed_date")
    case Some(DateValue(d)) => Time.Before(d, before)
    case _ => false
  }

  /** `lambda res: res["committer_login"] == committer`. */
  function CommitterTest(committer: string): Row -> bool {
    row => ByCommitter(row, committer)
  }

  /** `lambda res: res["committed_date"] < before`. */
  function DateTest(before: Time.Date): Row -> bool {
    row => CommittedBefore(row, before)
  }

  /** What both filters together keep; an absent bound keeps everything. */
  predicate Kept(row: Row, committer: Option<string>, before: Option<Time.Date>) {
    && (Truthy(committer) ==> ByCommitter(row, committer.value))
    && (before.Some? ==> CommittedBefore(row, before.value))
  }

  function KeptTest(committer: Option<string>, before: Option<Time.Date>): Row -> bool {
    row => Kept(row, committer, before)
  }

  /** The committer filter, applied only when a committer is given. */
  function KeepCommitter(rows: seq<Row>, committer: Option<string>): (r: seq<Row>)
    ensures !Truthy(committer) ==> r == rows
    ensures Truthy(committer) ==> forall i :: 0 <= i < |r| ==> r[i] in rows && ByCommitter(r[i], committer.value)
    ensures Truthy(committer) ==> forall i :: 0 <= i < |rows| && ByCommitter(rows[i], committer.value) ==> rows[i] in r
  {
    if Truthy(committer) then Filter(rows, CommitterTest(committer.value)) else rows
  }

  /** The end-date filter, applied only when an end timestamp is given; the
      bound is `as_date` of the timestamp. */
  function KeepBefore(rows: seq<Row>, before: Option<string>): (r: Result<seq<Row>>)
    ensures before.None? ==> r == Success(rows)
    ensures before.Some? ==> (r.Success? <==> Time.AsDate(before.value).Success?)
    ensures before.Some? && r.Success? ==> var bound := Time.AsDate(before.value).value;
      && (forall i :: 0 <= i < |r.value| ==> r.value[i] in rows && CommittedBefore(r.value[i], bound))
      && (forall i :: 0 <= i < |rows| && CommittedBefore(rows[i], bound) ==> rows[i] in r.value)
  {
    match before
    case None => Success(rows)
    case Some(ts) =>
      var bound :- Time.AsDate(ts);
      Success(Filter(rows, DateTest(bound)))
  }

  // The paginator

  /** The arguments of `get_commits`. */
  datatype CommitsQuery = CommitsQuery(
    owner: string,
    repoName: string,
    branchName: Option<string>,
    committer: Option<string>,
    startDate: Option<string>,
    endDate: Option<string>,
    verbose: bool)

  /** The query text sent: the branch variant when a branch is named. */
  function QueryText(branchName: Option<string>, defaultQuery: string, branchQuery: string): string {
    if Truthy(branchName) then branchQuery else defaultQuery
  }

  /** The paginator run of `get_commits`, once the start timestamp is made. */
  function CommitsRun(w: World<CommitsData>, q: CommitsQuery, since: Option<string>, defaultQuery: string, branchQuery: string)
    : Paged<CommitsData>
  {
    PaginateAll(w, QueryText(q.branchName, defaultQuery, branchQuery),
      QueryVariables(q.owner, q.repoName, q.branchName, since), CommitsPage(q.repoName, q.branchName, q.verbose))
  }

  /** The whole run of `get_commits`: the timestamps, the paginator, then the
      two filters. A malformed date fails before any request. */
  function GetCommitsSpec(w: World<CommitsData>, q: CommitsQuery, defaultQuery: string, branchQuery: string)
    : (Result<seq<Row>>, World<CommitsData>)
  {
    var since := Timestamp(q.startDate);
    var before := Timestamp(q.endDate);
    if since.Failure? then (Failure(since.error), w)
    else if before.Failure? then (Failure(before.error), w)
    else
      var run := CommitsRun(w, q, since.value, defaultQuery, branchQuery);
      if run.result.Failure? then (Failure(run.result.error), run.world)
      else (KeepBefore(KeepCommitter(run.result.value, q.committer), before.value), run.world)
  }

  /** The `while True` loop of `get_commits`: one request per page, each
      page's rows appended, and `query_variables["cursor"]` set while the
      reply's cursor is truthy. */
  method FetchAllPages(t: Transport<CommitsData>, fs: FileSystem, query: string, queryVariables: Vars,
                       repoName: string, branchName: Option<string>, verbose: bool)
    returns (r: Result<seq<Row>>)
    modifies t, fs
    ensures var run := PaginateAll(old(WorldOf(t, fs)), query, queryVariables, CommitsPage(repoName, branchName, verbose));
      r == run.result && WorldOf(t, fs) == run.world
  {
    ghost var step := CommitsPage(repoName, branchName, verbose);
    ghost var w0 := WorldOf(t, fs);
    ghost var done: seq<Round<CommitsData>> := [];
    var variables := queryVariables;
    var results: seq<Row> := [];
    while true
      invariant Chained(queryVariables, done) && AllContinue(done)
      invariant variables == NextVars(queryVariables, done)
      invariant results == RowsOf(done)
      invariant Paginate(WorldOf(t, fs), query, queryVariables, step, done) == PaginateAll(w0, query, queryVariables, step)
      decreases |t.script|
    {
      var resp := FetchGithubData(t, fs, query, variables);
      if resp.Failure? {
        return Failure(resp.error);
      }
      var processed := ProcessResponse(resp.value, repoName, branchName, verbose);
      if processed.Failure? {
        return Failure(processed.error);
      }
      var (commits, _, cursor) := processed.value;
      results := results + commits;
      ghost var round := Round(variables, resp.value, step(resp.value).value);
      ChainedExtend(queryVariables, done, round);
      RowsOfExtend(done, round);
      done := done + [round];
      if Truthy(cursor) {
        variables := variables["cursor" := Str(cursor.value)];
      } else {
        break;
      }
    }
    r := Success(results);
  }

  /** `get_commits`: the paginator, then the committer and end-date filters. */
  method GetCommits(t: Transport<CommitsData>, fs: FileSystem, owner: string, repoName: string, branchName: Option<string>,
                    committer: Option<string>, startDate: Option<string>, endDate: Option<string>, verbose: bool,
                    defaultQuery: string, branchQuery: string)
    returns (r: Result<seq<Row>>)
    modifies t, fs
    ensures (r, WorldOf(t, fs)) ==
      GetCommitsSpec(old(WorldOf(t, fs)), CommitsQuery(owner, repoName, branchName, committer, startDate, endDate, verbose), defaultQuery, branchQuery)
  {
    var since := Timestamp(startDate);
    if since.Failure? {
      return Failure(since.error);
    }
    var before := Timestamp(endDate);
    if before.Failure? {
      return Failure(before.error);
    }
    var queryVariables := QueryVariables(owner, repoName, branchName, since.value);
    var query := if Truthy(branchName) then branchQuery else defaultQuery;
    var results := FetchAllPages(t, fs, query, queryVariables, repoName, branchName, verbose);
    if results.Failure? {
      return Failure(results.error);
    }
    var rows := KeepCommitter(results.value, committer);
    if before.value.Some? {
      var bound := Time.AsDate(before.value.value);
      if bound.Failure? {
        return Failure(bound.error);
      }
      rows := Filter(rows, DateTest(bound.value));
    }
    r := Success(rows);
  }

  /** The end timestamp always reads back as the end date, so the date
      filter never fails once the timestamp was made. */
  lemma EndBoundIsEndDate(endDate: Option<string>)
    requires Truthy(endDate) && Timestamp(endDate).Success?
    ensures Time.AsDate(Timestamp(endDate).value.value) == Success(Time.ParseDate(endDate.value).value)
  {
    Time.TimestampRoundTrip(endDate.value);
  }

  lemma KeepCommitterFilter(rows: seq<Row>, committer: Option<string>)
    ensures KeepCommitter(rows, committer) == Filter(rows, KeptTest(committer, None))
  {
    if Truthy(committer) {
      FilterAgrees(rows, CommitterTest(committer.value), KeptTest(committer, None));
    } else {
      FilterKeepsAll(rows, KeptTest(committer, None));
    }
  }

  lemma KeepBeforeFilter(rows: seq<Row>, endDate: Option<string>)
    requires Timestamp(endDate).Success?
    ensures var before := if Truthy(endDate) then Some(Time.ParseDate(endDate.value).value) else None;
      KeepBefore(rows, Timestamp(endDate).value) == Success(Filter(rows, KeptTest(None, before)))
  {
    if Truthy(endDate) {
      EndBoundIsEndDate(endDate);
      var bound := Time.ParseDate(endDate.value).value;
      FilterAgrees(rows, DateTest(bound), KeptTest(None, Some(bound)));
    } else {
      FilterKeepsAll(rows, KeptTest(None, None));
    }
  }

  /** The rows of a successful run: exactly the fetched rows that pass both
      filters, in the order fetched; with neither filter, every page's rows
      concatenated. */
  lemma GetCommitsRows(w: World<CommitsData>, q: CommitsQuery, defaultQuery: string, branchQuery: string)
    requires GetCommitsSpec(w, q, defaultQuery, branchQuery).0.Success?
    ensures !Truthy(q.endDate) || Time.ParseDate(q.endDate.value).Some?
    ensures var run := CommitsRun(w, q, Timestamp(q.startDate).value, defaultQuery, branchQuery);
      var before := if Truthy(q.endDate) then Some(Time.ParseDate(q.endDate.value).value) else None;
      && run.result.Success?
      && GetCommitsSpec(w, q, defaultQuery, branchQuery).0.value == Filter(RowsOf(run.rounds), KeptTest(q.committer, before))
  {
    var since := Timestamp(q.startDate).value;
    var run := CommitsRun(w, q, since, defaultQuery, branchQuery);
    RowsArePagesInOrder(w, QueryText(q.branchName, defaultQuery, branchQuery),
      QueryVariables(q.owner, q.repoName, q.branchName, since), CommitsPage(q.repoName, q.branchName, q.verbose));
    var all := RowsOf(run.rounds);
    var before := if Truthy(q.endDate) then Some(Time.ParseDate(q.endDate.value).value) else None;
    KeepCommitterFilter(all, q.committer);
    KeepBeforeFilter(KeepCommitter(all, q.committer), q.endDate);
    FilterTwice(all, KeptTest(q.committer, None), KeptTest(None, before), KeptTest(q.committer, before));
  }

  /** With neither a committer nor an end date, the result is every page's
      rows, concatenated in the order fetched. */
  lemma NoFiltersKeepsEveryPage(w: World<CommitsData>, q: CommitsQuery, defaultQuery: string, branchQuery: string)
    requires GetCommitsSpec(w, q, defaultQuery, branchQuery).0.Success?
    requires !Truthy(q.committer) && !Truthy(q.endDate)
    ensures GetCommitsSpec(w, q, defaultQuery, branchQuery).0.value == RowsOf(CommitsRun(w, q, Timestamp(q.startDate).value, defaultQuery, branchQuery).rounds)
  {
    var run := CommitsRun(w, q, Timestamp(q.startDate).value, defaultQuery, branchQuery);
    GetCommitsRows(w, q, defaultQuery, branchQuery);
    FilterKeepsAll(RowsOf(run.rounds), KeptTest(q.committer, None));
  }

  /** Every row of a successful run came from some page and passes both
      filters: the filters only ever remove rows. */
  lemma FiltersOnlyRemove(w: World<CommitsData>, q: CommitsQuery, defaultQuery: string, branchQuery: string)
    requires GetCommitsSpec(w, q, defaultQuery, branchQuery).0.Success?
    ensures var run := CommitsRun(w, q, Timestamp(q.startDate).value, defaultQuery, branchQuery);
      var rows := GetCommitsSpec(w, q, defaultQuery, branchQuery).0.value;
      && |rows| <= |RowsOf(run.rounds)|
      && (forall i :: 0 <= i < |rows| ==> rows[i] in RowsOf(run.rounds))
      && (Truthy(q.committer) ==> forall i :: 0 <= i < |rows| ==> ByCommitter(rows[i], q.committer.value))
      && (Truthy(q.endDate) ==> forall i :: 0 <= i < |rows| ==> CommittedBefore(rows[i], Time.ParseDate(q.endDate.value).value))
  {
    GetCommitsRows(w, q, defaultQuery, branchQuery);
  }

  // The report file

  /** `str(value)` inside `str.format`: None is written as "None". */
  function Show(v: Option<string>): (s: string)
    ensures v.None? ==> s == "None"
    ensures v.Some? ==> s == v.value
  {
    match v
    case None => "None"
    case Some(text) => text
  }

  /** CSV_OUT_NAME, or CSV_OUT_NAME_BRANCH when a branch is named, filled in. */
  function OutputName(owner: string, repoName: string, branchName: Option<string>, startDate: Option<string>, endDate: Option<string>)
    : (name: string)
    ensures var head := owner + "--" + repoName;
      |name| >= |head| && name[..|head|] == head
    ensures var tail := "--start-" + Show(startDate) + "--end-" + Show(endDate) + ".csv";
      |name| >= |tail| && name[|name| - |tail|..] == tail
    ensures var head := owner + "--" + repoName; var tail := "--start-" + Show(startDate) + "--end-" + Show(endDate) + ".csv";
      Truthy(branchName) ==> |name| == |head| + 2 + |branchName.value| + |tail| && name[|head|..|head| + 2 + |branchName.value|] == "--" + branchName.value
    ensures var head := owner + "--" + repoName; var tail := "--start-" + Show(startDate) + "--end-" + Show(endDate) + ".csv";
      !Truthy(branchName) ==> |name| == |head| + |tail|
  {
    var head := owner + "--" + repoName;
    var tail := "--start-" + Show(startDate) + "--end-" + Show(endDate) + ".csv";
    var name := if Truthy(branchName) then head + ("--" + branchName.value) + tail else head + tail;
    assert name[..|head|] == head;
    assert name[|name| - |tail|..] == tail;
    name
  }

  /** `Path(output_dir) / filename`, or VAR_DIR when no directory is given. */
  function OutputPath(outputDir: Option<string>, name: string): (path: string)
    ensures var dir := if Truthy(outputDir) then outputDir.value else VAR_DIR;
      path == dir + "/" + name
  {
    (if Truthy(outputDir) then outputDir.value else VAR_DIR) + "/" + name
  }

  /** `commits_to_csv`: the commits of `get_commits`, written to the report
      path in overwrite mode. */
  method CommitsToCsv(t: Transport<CommitsData>, fs: FileSystem, owner: string, repoName: string, branchName: Option<string>,
                      committer: Option<string>, outputDir: Option<string>, startDate: Option<string>, endDate: Option<string>,
                      verbose: bool, defaultQuery: string, branchQuery: string)
    returns (r: Result<()>)
    modifies t, fs
    ensures var path := OutputPath(outputDir, OutputName(owner, repoName, branchName, startDate, endDate));
      var got := GetCommitsSpec(old(WorldOf(t, fs)), CommitsQuery(owner, repoName, branchName, committer, startDate, endDate, verbose),
        defaultQuery, branchQuery);
      && t.script == got.1.script && t.trace == got.1.trace
      && (got.0.Failure? ==> r == Failure(got.0.error) && fs.files == got.1.files)
      && (got.0.Success? ==> (r, fs.files) == WriteCsvSpec(got.1.files, path, got.0.value, false))
  {
    var path := OutputPath(outputDir, OutputName(owner, repoName, branchName, startDate, endDate));
    var commits := GetCommits(t, fs, owner, repoName, branchName, committer, startDate, endDate, verbose, defaultQuery, branchQuery);
    if commits.Failure? {
      return Failure(commits.error);
    }
    r := WriteCsv(fs, path, commits.value, false);
  }
}

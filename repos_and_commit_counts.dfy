/** repos_and_commit_counts.py: one summary row per repository of an owner
    (its default branch, commit count, and latest commit), across as many
    pages of repositories as the API reports. */
module ReposAndCommitCounts {
  import opened Common
  import opened Rows
  import opened Lib
  import opened Paging
  import Time

  const ITEMS_PER_PAGE: nat := 100

  const COUNT_KEYS :=
    ["owner_name", "repo_name", "branch_name", "total_commits", "last_committed_date", "last_commit_msg_subject"]

  datatype Owner = Owner(login: string)
  datatype CommitSummary = CommitSummary(committedDate: string, message: string)
  /** `commits.history`: the commit count and the latest commit(s). */
  datatype History = History(totalCount: nat, nodes: seq<CommitSummary>)
  datatype BranchSummary = BranchSummary(name: string, history: History)
  /** One repository node; `defaultBranch` is null for an empty repository. */
  datatype Repo = Repo(owner: Owner, name: string, defaultBranch: Option<BranchSummary>)
  datatype Repositories = Repositories(totalCount: nat, nodes: seq<Repo>, pageInfo: PageInfo)
  /** The `data` of a reply; `repositoryOwner` is null for an unknown owner. */
  datatype CountsData = CountsData(repositoryOwner: Option<Repositories>)

  /** `math.ceil(total / ITEMS_PER_PAGE)`: the number of pages reported
      after the first page. */
  function PageCount(total: nat): (p: nat)
    ensures p * ITEMS_PER_PAGE >= total
    ensures p > 0 ==> (p - 1) * ITEMS_PER_PAGE < total
    ensures total == 0 <==> p == 0
  {
    (total + ITEMS_PER_PAGE - 1) / ITEMS_PER_PAGE
  }

  /** `message.split("\n")[0]`: the text before the first newline. */
  function FirstLine(message: string): (s: string)
    ensures |s| <= |message| && s == message[..|s|]
    ensures '\n' !in s
    ensures |s| == |message| || message[|s|] == '\n'
  {
    if message == [] || message[0] == '\n' then []
    else [message[0]] + FirstLine(message[1..])
  }

  lemma CountKeysDistinct()
    ensures Distinct(COUNT_KEYS)
  {
  }

  /** The six columns of a summary row, in order. */
  function SummaryFields(owner: string, name: string, branchName: Value, total: int, date: Value, subject: Value): (row: Row)
    ensures Keys(row) == COUNT_KEYS && DistinctKeys(row)
    ensures && Lookup(row, "owner_name") == Some(Str(owner))
            && Lookup(row, "repo_name") == Some(Str(name))
            && Lookup(row, "branch_name") == Some(branchName)
            && Lookup(row, "total_commits") == Some(Int(total))
            && Lookup(row, "last_committed_date") == Some(date)
            && Lookup(row, "last_commit_msg_subject") == Some(subject)
  {
    var row := [
      Field("owner_name", Str(owner)),
      Field("repo_name", Str(name)),
      Field("branch_name", branchName),
      Field("total_commits", Int(total)),
      Field("last_committed_date", date),
      Field("last_commit_msg_subject", subject)];
    assert Keys(row) == COUNT_KEYS;
    CountKeysDistinct();
    LookupAt(row, 0); LookupAt(row, 1); LookupAt(row, 2);
    LookupAt(row, 3); LookupAt(row, 4); LookupAt(row, 5);
    row
  }

  /** `format_repo`: an empty repository keeps the defaults (no branch,
      zero commits, no date, no subject); a branch with commits reads the
      first node's date and the first line of its message. */
  function FormatRepo(repo: Repo): Result<Row> {
    match repo.defaultBranch
    case None => Success(SummaryFields(repo.owner.login, repo.name, Null, 0, Null, Null))
    case Some(branch) =>
      var history := branch.history;
      if history.totalCount == 0 then
        Success(SummaryFields(repo.owner.login, repo.name, Str(branch.name), 0, Null, Null))
      else if history.nodes == [] then Failure(MissingFirstCommit)
      else
        var latest := history.nodes[0];
        var date :- Time.AsDate(latest.committedDate);
        Success(SummaryFields(repo.owner.login, repo.name, Str(branch.name), history.totalCount,
                             DateValue(date), Str(FirstLine(latest.message))))
  }

  /** Every summary row has the six keys in order, with the owner's login
      and the repository's name copied. */
  lemma FormatRepoShape(repo: Repo)
    ensures var r := FormatRepo(repo);
      r.Success? ==>
        && Keys(r.value) == COUNT_KEYS && DistinctKeys(r.value)
        && Lookup(r.value, "owner_name") == Some(Str(repo.owner.login))
        && Lookup(r.value, "repo_name") == Some(Str(repo.name))
  {
  }

  /** A repository without a default branch gets the defaults. */
  lemma EmptyRepoDefaults(repo: Repo)
    requires repo.defaultBranch.None?
    ensures var r := FormatRepo(repo);
      && r.Success?
      && Lookup(r.value, "branch_name") == Some(Null)
      && Lookup(r.value, "total_commits") == Some(Int(0))
      && Lookup(r.value, "last_committed_date") == Some(Null)
      && Lookup(r.value, "last_commit_msg_subject") == Some(Null)
  {
  }

  /** A branch with no commits: its name, a zero count, no date, no subject. */
  lemma NoCommitsDefaults(repo: Repo)
    requires repo.defaultBranch.Some? && repo.defaultBranch.value.history.totalCount == 0
    ensures var r := FormatRepo(repo);
      && r.Success?
      && Lookup(r.value, "branch_name") == Some(Str(repo.defaultBranch.value.name))
      && Lookup(r.value, "total_commits") == Some(Int(0))
      && Lookup(r.value, "last_committed_date") == Some(Null)
      && Lookup(r.value, "last_commit_msg_subject") == Some(Null)
  {
  }

  /** A non-zero count with no commit node raises at `nodes[0]`. */
  lemma MissingLatestCommit(repo: Repo)
    requires repo.defaultBranch.Some? && repo.defaultBranch.value.history.totalCount != 0
    requires repo.defaultBranch.value.history.nodes == []
    ensures FormatRepo(repo) == Failure(MissingFirstCommit)
  {
  }

  /** A branch with commits: the count, the latest commit's date (or the
      error reading it) and the first line of its message. */
  lemma LatestCommitSummary(repo: Repo)
    requires repo.defaultBranch.Some? && repo.defaultBranch.value.history.totalCount != 0
    requires repo.defaultBranch.value.history.nodes != []
    ensures var b := repo.defaultBranch.value; var latest := b.history.nodes[0]; var r := FormatRepo(repo);
      && (r.Success? <==> Time.AsDate(latest.committedDate).Success?)
      && (r.Failure? ==> r.error == Time.AsDate(latest.committedDate).error)
      && (r.Success? ==>
            && Lookup(r.value, "branch_name") == Some(Str(b.name))
            && Lookup(r.value, "total_commits") == Some(Int(b.history.totalCount))
            && Lookup(r.value, "last_committed_date") == Some(DateValue(Time.AsDate(latest.committedDate).value))
            && Lookup(r.value, "last_commit_msg_subject") == Some(Str(FirstLine(latest.message))))
  {
  }

  /** One formatted row per repository, in API order, or the first error. */
  function FormatAll(repos: seq<Repo>): (r: Result<seq<Row>>)
    ensures r.Success? <==> forall i :: 0 <= i < |repos| ==> FormatRepo(repos[i]).Success?
    ensures r.Success? ==> |r.value| == |repos| && forall i :: 0 <= i < |repos| ==> r.value[i] == FormatRepo(repos[i]).value
  {
    MapResult(repos, FormatRepo)
  }

  /** What the loop makes of one reply: the formatted repositories, and
      `endCursor` to continue from when `hasNextPage` is set. */
  function CountsStep(data: CountsData): (r: Result<Page>)
    ensures data.repositoryOwner.None? ==> r == Failure(NullValue("repositoryOwner"))
    ensures data.repositoryOwner.Some? ==> var repos := data.repositoryOwner.value;
      && (r.Success? <==> FormatAll(repos.nodes).Success?)
      && (r.Success? ==> r.value.rows == FormatAll(repos.nodes).value)
      && (r.Success? ==> (r.value.next.Some? <==> repos.pageInfo.hasNextPage))
      && (r.Success? && r.value.next.Some? ==> r.value.next.value == OptionalStr(repos.pageInfo.endCursor))
  {
    match data.repositoryOwner
    case None => Failure(NullValue("repositoryOwner"))
    case Some(repos) =>
      var rows :- FormatAll(repos.nodes);
      var next := if repos.pageInfo.hasNextPage then Some(OptionalStr(repos.pageInfo.endCursor)) else None;
      Success(Page(rows, next))
  }

  /** `for repo in nodes: repo_data.append(format_repo(repo))`. */
  method AppendFormatted(repoData: seq<Row>, nodes: seq<Repo>) returns (r: Result<seq<Row>>)
    ensures FormatAll(nodes).Success? ==> r == Success(repoData + FormatAll(nodes).value)
    ensures FormatAll(nodes).Failure? ==> r == Failure(FormatAll(nodes).error)
  {
    var rows := repoData;
    for k := 0 to |nodes|
      invariant MapResult(nodes[..k], FormatRepo).Success?
      invariant rows == repoData + MapResult(nodes[..k], FormatRepo).value
    {
      var formatted := FormatRepo(nodes[k]);
      if formatted.Failure? {
        MapResultStopsAt(nodes, FormatRepo, k);
        return Failure(formatted.error);
      }
      MapResultSnoc(nodes, FormatRepo, k);
      rows := rows + [formatted.value];
    }
    assert nodes[..|nodes|] == nodes;
    r := Success(rows);
  }

  /** The caller's variables, which the loop updates in place. */
  class Variables {
    var entries: Vars

    constructor (entries: Vars)
      ensures this.entries == entries
    {
      this.entries := entries;
    }

    /** `variables[key] = value`. */
    method Set(key: string, value: Value)
      modifies this
      ensures entries == old(entries)[key := value]
    {
      entries := entries[key := value];
    }
  }

  /** `get_repos_and_commit_counts(path, variables)`: one request per page,
      the page's rows appended, and `variables["cursor"]` set before the next
      request. */
  method GetReposAndCommitCounts(t: Transport<CountsData>, fs: FileSystem, query: string, variables: Variables)
    returns (r: Result<seq<Row>>)
    modifies t, fs, variables
    ensures var run := PaginateAll(old(WorldOf(t, fs)), query, old(variables.entries), CountsStep);
      && r == run.result
      && WorldOf(t, fs) == run.world
      && variables.entries == run.vars
  {
    ghost var w0 := WorldOf(t, fs);
    ghost var vars0 := variables.entries;
    ghost var done: seq<Round<CountsData>> := [];
    var repoData: seq<Row> := [];
    while true
      invariant Chained(vars0, done) && AllContinue(done)
      invariant variables.entries == NextVars(vars0, done)
      invariant repoData == RowsOf(done)
      invariant Paginate(WorldOf(t, fs), query, vars0, CountsStep, done) == PaginateAll(w0, query, vars0, CountsStep)
      decreases |t.script|
    {
      ghost var before := WorldOf(t, fs);
      var resp := FetchGithubData(t, fs, query, variables.entries);
      if resp.Failure? {
        return Failure(resp.error);
      }
      var data := resp.value;
      if data.repositoryOwner.None? {
        return Failure(NullValue("repositoryOwner"));
      }
      var repositories := data.repositoryOwner.value;
      var formatted := AppendFormatted(repoData, repositories.nodes);
      if formatted.Failure? {
        return Failure(formatted.error);
      }
      repoData := formatted.value;
      var page := CountsStep(data).value;
      ghost var round := Round(variables.entries, data, page);
      ChainedExtend(vars0, done, round);
      RowsOfExtend(done, round);
      done := done + [round];
      var pageInfo := repositories.pageInfo;
      if pageInfo.hasNextPage {
        variables.Set("cursor", OptionalStr(pageInfo.endCursor));
      } else {
        break;
      }
    }
    r := Success(repoData);
  }

  /** The repositories of every page fetched. */
  function NodeCount(rounds: seq<Round<CountsData>>): nat {
    if rounds == [] then 0
    else
      var last := rounds[|rounds| - 1].data.repositoryOwner;
      NodeCount(rounds[..|rounds| - 1]) + (if last.Some? then |last.value.nodes| else 0)
  }

  lemma {:induction false} RowCountIsNodeCount(rounds: seq<Round<CountsData>>)
    requires forall i :: 0 <= i < |rounds| ==> CountsStep(rounds[i].data) == Success(rounds[i].page)
    ensures RowCount(rounds) == NodeCount(rounds)
  {
    if rounds != [] {
      var init := rounds[..|rounds| - 1];
      assert forall i :: 0 <= i < |init| ==> init[i] == rounds[i];
      RowCountIsNodeCount(init);
    }
  }

  /** One row per repository node, across all pages fetched. */
  lemma OneRowPerRepository(w: World<CountsData>, query: string, vars0: Vars)
    ensures var run := PaginateAll(w, query, vars0, CountsStep);
      run.result.Success? ==> |run.result.value| == NodeCount(run.rounds)
  {
    var run := PaginateAll(w, query, vars0, CountsStep);
    PaginateRuns(w, query, vars0, CountsStep, []);
    if run.result.Success? {
      RowsOfLength(run.rounds);
      RowCountIsNodeCount(run.rounds);
    }
  }

  /** `counts_report(variables)`: the rows written, overwriting, to `path`. */
  method CountsReport(t: Transport<CountsData>, fs: FileSystem, query: string, variables: Variables, path: string)
    returns (r: Result<()>)
    modifies t, fs, variables
    ensures var run := PaginateAll(old(WorldOf(t, fs)), query, old(variables.entries), CountsStep);
      && t.script == run.world.script && t.trace == run.world.trace
      && variables.entries == run.vars
      && (run.result.Failure? ==> r == Failure(run.result.error) && fs.files == run.world.files)
      && (run.result.Success? ==> (r, fs.files) == WriteCsvSpec(run.world.files, path, run.result.value, false))
  {
    var rows := GetReposAndCommitCounts(t, fs, query, variables);
    if rows.Failure? {
      return Failure(rows.error);
    }
    r := WriteCsv(fs, path, rows.value, false);
  }
}

/** lib/git.py: flattening one commit node of the API into a row. */
module Git {
  import opened Common
  import opened Rows
  import Time

  datatype User = User(login: string)

  /** The commit fields the queries ask for. `committer` holds the committer's
      GitHub user, null when the e-mail matches no account. */
  datatype CommitNode = CommitNode(
    abbreviatedOid: string,
    authoredDate: string,
    committedDate: string,
    committer: Option<User>,
    changedFiles: int,
    additions: int,
    deletions: int,
    message: string)

  const BRIEF_KEYS := ["commit_id", "committed_date", "committer_login", "message"]
  const VERBOSE_KEYS :=
    ["commit_id", "author_date", "author_login", "committed_date", "committer_login",
     "changed_files", "additions", "deletions", "message"]
  const ROW_PREFIX_KEYS := ["repo_name", "branch_name"]

  /** `user["login"] if user is not None else None`. */
  function Login(user: Option<User>): (v: Value)
    ensures v.Null? <==> user.None?
    ensures user.Some? ==> v == Str(user.value.login)
  {
    match user
    case None => Null
    case Some(u) => Str(u.login)
  }

  lemma VerboseKeysDistinct()
    ensures Distinct(VERBOSE_KEYS)
  {
  }

  lemma BriefKeysDistinct()
    ensures Distinct(BRIEF_KEYS)
  {
  }

  /** The names in front never clash with a commit column. */
  lemma PrefixedKeysDistinct()
    ensures Distinct(ROW_PREFIX_KEYS + VERBOSE_KEYS)
    ensures Distinct(ROW_PREFIX_KEYS + BRIEF_KEYS)
  {
  }

  /** The nine columns of verbose output, as `dict(...)` builds them. */
  function VerboseRow(c: CommitNode, authorDate: Time.Date, commitDate: Time.Date): Row {
    [Field("commit_id", Str(c.abbreviatedOid)),
     Field("author_date", DateValue(authorDate)),
     Field("author_login", Login(c.committer)),
     Field("committed_date", DateValue(commitDate)),
     Field("committer_login", Login(c.committer)),
     Field("changed_files", Int(c.changedFiles)),
     Field("additions", Int(c.additions)),
     Field("deletions", Int(c.deletions)),
     Field("message", Str(c.message))]
  }

  lemma VerboseRowKeys(c: CommitNode, authorDate: Time.Date, commitDate: Time.Date)
    ensures Keys(VerboseRow(c, authorDate, commitDate)) == VERBOSE_KEYS
    ensures DistinctKeys(VerboseRow(c, authorDate, commitDate))
  {
    var row := VerboseRow(c, authorDate, commitDate);
    assert Keys(row) == VERBOSE_KEYS;
    VerboseKeysDistinct();
  }

  lemma VerboseRowCommitFields(c: CommitNode, authorDate: Time.Date, commitDate: Time.Date)
    ensures var row := VerboseRow(c, authorDate, commitDate);
      && Lookup(row, "commit_id") == Some(Str(c.abbreviatedOid))
      && Lookup(row, "author_date") == Some(DateValue(authorDate))
      && Lookup(row, "author_login") == Some(Login(c.committer))
      && Lookup(row, "committed_date") == Some(DateValue(commitDate))
      && Lookup(row, "committer_login") == Some(Login(c.committer))
  {
    var row := VerboseRow(c, authorDate, commitDate);
    VerboseRowKeys(c, authorDate, commitDate);
    LookupAt(row, 0); LookupAt(row, 1); LookupAt(row, 2); LookupAt(row, 3); LookupAt(row, 4);
  }

  lemma VerboseRowChangeFields(c: CommitNode, authorDate: Time.Date, commitDate: Time.Date)
    ensures var row := VerboseRow(c, authorDate, commitDate);
      && Lookup(row, "changed_files") == Some(Int(c.changedFiles))
      && Lookup(row, "additions") == Some(Int(c.additions))
      && Lookup(row, "deletions") == Some(Int(c.deletions))
      && Lookup(row, "message") == Some(Str(c.message))
  {
    var row := VerboseRow(c, authorDate, commitDate);
    VerboseRowKeys(c, authorDate, commitDate);
    LookupAt(row, 5); LookupAt(row, 6); LookupAt(row, 7); LookupAt(row, 8);
  }

  /** The nine columns of verbose output, in order. */
  function VerboseFields(c: CommitNode, authorDate: Time.Date, commitDate: Time.Date): (row: Row)
    ensures Keys(row) == VERBOSE_KEYS && DistinctKeys(row)
    ensures && Lookup(row, "commit_id") == Some(Str(c.abbreviatedOid))
            && Lookup(row, "author_date") == Some(DateValue(authorDate))
            && Lookup(row, "author_login") == Some(Login(c.committer))
            && Lookup(row, "committed_date") == Some(DateValue(commitDate))
            && Lookup(row, "committer_login") == Some(Login(c.committer))
            && Lookup(row, "changed_files") == Some(Int(c.changedFiles))
            && Lookup(row, "additions") == Some(Int(c.additions))
            && Lookup(row, "deletions") == Some(Int(c.deletions))
            && Lookup(row, "message") == Some(Str(c.message))
  {
    VerboseRowKeys(c, authorDate, commitDate);
    VerboseRowCommitFields(c, authorDate, commitDate);
    VerboseRowChangeFields(c, authorDate, commitDate);
    VerboseRow(c, authorDate, commitDate)
  }

  /** The four columns of the default output, in order. */
  function BriefFields(c: CommitNode, commitDate: Time.Date): (row: Row)
    ensures Keys(row) == BRIEF_KEYS && DistinctKeys(row)
    ensures && Lookup(row, "commit_id") == Some(Str(c.abbreviatedOid))
            && Lookup(row, "committed_date") == Some(DateValue(commitDate))
            && Lookup(row, "committer_login") == Some(Login(c.committer))
            && Lookup(row, "message") == Some(Str(c.message))
  {
    var row := [
      Field("commit_id", Str(c.abbreviatedOid)),
      Field("committed_date", DateValue(commitDate)),
      Field("committer_login", Login(c.committer)),
      Field("message", Str(c.message))];
    assert Keys(row) == BRIEF_KEYS;
    BriefKeysDistinct();
    LookupAt(row, 0); LookupAt(row, 1); LookupAt(row, 2); LookupAt(row, 3);
    row
  }

  /** `parse_commit`. Both logins are read from the committer's user, and
      the dates are `as_date` of the two timestamps, authored one first. */
  function ParseCommit(c: CommitNode, verbose: bool): (r: Result<Row>)
    ensures r.Success? <==> Time.AsDate(c.authoredDate).Success? && Time.AsDate(c.committedDate).Success?
    ensures Time.AsDate(c.authoredDate).Failure? ==> r == Failure(Time.AsDate(c.authoredDate).error)
    ensures r.Success? ==> DistinctKeys(r.value)
    ensures r.Success? ==> Keys(r.value) == if verbose then VERBOSE_KEYS else BRIEF_KEYS
    ensures r.Success? ==>
      && Lookup(r.value, "commit_id") == Some(Str(c.abbreviatedOid))
      && Lookup(r.value, "committed_date") == Some(DateValue(Time.AsDate(c.committedDate).value))
      && Lookup(r.value, "committer_login") == Some(Login(c.committer))
      && Lookup(r.value, "message") == Some(Str(c.message))
    ensures r.Success? && verbose ==>
      && Lookup(r.value, "author_date") == Some(DateValue(Time.AsDate(c.authoredDate).value))
      && Lookup(r.value, "author_login") == Lookup(r.value, "committer_login")
      && Lookup(r.value, "changed_files") == Some(Int(c.changedFiles))
      && Lookup(r.value, "additions") == Some(Int(c.additions))
      && Lookup(r.value, "deletions") == Some(Int(c.deletions))
  {
    var authorDate :- Time.AsDate(c.authoredDate);
    var commitDate :- Time.AsDate(c.committedDate);
    if verbose then Success(VerboseFields(c, authorDate, commitDate))
    else Success(BriefFields(c, commitDate))
  }

  /** The repo and branch names in front of a commit's fields. */
  function Prefixed(repoName: string, branchName: Option<string>, fields: Row): (row: Row)
    requires Keys(fields) == VERBOSE_KEYS || Keys(fields) == BRIEF_KEYS
    ensures DistinctKeys(row) && Keys(row) == ROW_PREFIX_KEYS + Keys(fields)
    ensures Lookup(row, "repo_name") == Some(Str(repoName))
    ensures Lookup(row, "branch_name") == Some(OptionalStr(branchName))
    ensures row[2..] == fields
  {
    var prefix := [Field("repo_name", Str(repoName)), Field("branch_name", OptionalStr(branchName))];
    var row := prefix + fields;
    KeysOfConcat(prefix, fields);
    assert Keys(prefix) == ROW_PREFIX_KEYS;
    PrefixedKeysDistinct();
    LookupAt(row, 0);
    LookupAt(row, 1);
    row
  }

  /** `prepare_row`: the repo and branch names, then the commit's fields. */
  function PrepareRow(c: CommitNode, repoName: string, branchName: Option<string>, verbose: bool): Result<Row> {
    var fields :- ParseCommit(c, verbose);
    Success(Prefixed(repoName, branchName, fields))
  }

  lemma PrepareRowShape(c: CommitNode, repoName: string, branchName: Option<string>, verbose: bool)
    ensures var r := PrepareRow(c, repoName, branchName, verbose);
      && (r.Success? <==> ParseCommit(c, verbose).Success?)
      && (r.Failure? ==> r == ParseCommit(c, verbose))
      && (r.Success? ==> DistinctKeys(r.value))
      && (r.Success? ==> Keys(r.value) == ROW_PREFIX_KEYS + Keys(ParseCommit(c, verbose).value))
      && (r.Success? ==>
            && Lookup(r.value, "repo_name") == Some(Str(repoName))
            && Lookup(r.value, "branch_name") == Some(OptionalStr(branchName))
            && r.value[2..] == ParseCommit(c, verbose).value)
  {
  }

  /** `c => prepare_row(c, repo_name, branch_name, verbose)`. */
  function RowOf(repoName: string, branchName: Option<string>, verbose: bool): CommitNode -> Result<Row> {
    c => PrepareRow(c, repoName, branchName, verbose)
  }

  /** `[prepare_row(c, repo_name, branch_name, verbose) for c in commits]`:
      one row per commit in node order, or the first commit's error. */
  function PrepareAll(commits: seq<CommitNode>, repoName: string, branchName: Option<string>, verbose: bool): (r: Result<seq<Row>>)
    ensures r.Success? <==> forall i :: 0 <= i < |commits| ==> PrepareRow(commits[i], repoName, branchName, verbose).Success?
    ensures r.Success? ==> |r.value| == |commits|
    ensures r.Success? ==> forall i :: 0 <= i < |commits| ==> r.value[i] == PrepareRow(commits[i], repoName, branchName, verbose).value
  {
    MapResult(commits, RowOf(repoName, branchName, verbose))
  }

  /** One more commit gives one more row at the end. */
  lemma PrepareAllSnoc(commits: seq<CommitNode>, repoName: string, branchName: Option<string>, verbose: bool, k: nat)
    requires k < |commits| && PrepareAll(commits[..k], repoName, branchName, verbose).Success?
    requires PrepareRow(commits[k], repoName, branchName, verbose).Success?
    ensures PrepareAll(commits[..k + 1], repoName, branchName, verbose) ==
      Success(PrepareAll(commits[..k], repoName, branchName, verbose).value + [PrepareRow(commits[k], repoName, branchName, verbose).value])
  {
    MapResultSnoc(commits, RowOf(repoName, branchName, verbose), k);
  }

  /** The first commit that cannot be prepared decides the error. */
  lemma PrepareAllFailsAt(commits: seq<CommitNode>, repoName: string, branchName: Option<string>, verbose: bool, k: nat)
    requires k < |commits| && PrepareAll(commits[..k], repoName, branchName, verbose).Success?
    requires PrepareRow(commits[k], repoName, branchName, verbose).Failure?
    ensures PrepareAll(commits, repoName, branchName, verbose) == Failure(PrepareRow(commits[k], repoName, branchName, verbose).error)
  {
    MapResultStopsAt(commits, RowOf(repoName, branchName, verbose), k);
  }
}

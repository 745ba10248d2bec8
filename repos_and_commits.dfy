/** repos_and_commits.py: the commits of up to 30 repositories of an owner,
    fetched in one request whose reply holds one entry per repository plus
    the rate-limit record, grouped by repository and written as one CSV. */
module ReposAndCommits {
  import opened Common
  import opened Rows
  import opened Lib
  import opened Paging
  import opened Git

  const CSV_PATH := VAR_DIR + "/commits.csv"

  /** `repo_names[:30]`: the most repositories one request asks for. */
  const MAX_REPOS: nat := 30

  /** The columns of the report: the repository and branch, then every
      verbose commit column. */
  const FIELDNAMES :=
    ["repo_name", "branch_name", "commit_id", "author_date", "author_login", "committed_date",
     "committer_login", "changed_files", "additions", "deletions", "message"]

  // ---------------------------------------------------------------------
  // Query aliases (`clean`)
  // ---------------------------------------------------------------------

  /** `str.isnumeric`, for the ASCII digits. */
  predicate IsNumeric(c: char) {
    '0' <= c <= '9'
  }

  /** What the two `replace` calls do to one character. */
  function Swap(c: char): (d: char)
    ensures d != '-' && d != '.'
    ensures IsNumeric(d) == IsNumeric(c)
    ensures c != '-' && c != '.' ==> d == c
  {
    if c == '-' then '_' else if c == '.' then 'X' else c
  }

  /** `name.replace("-", "_").replace(".", "X")`. */
  function Replaced(name: string): (r: string)
    ensures |r| == |name|
    ensures forall i :: 0 <= i < |name| ==> r[i] == Swap(name[i])
  {
    if name == [] then [] else [Swap(name[0])] + Replaced(name[1..])
  }

  /** `clean(name)`: a repository name made usable as a GraphQL alias. A
      leading digit is overwritten, not prefixed, so the length is kept; an
      empty name fails at `name[0]`. */
  function Clean(name: string): (r: Result<string>)
    ensures r.Failure? <==> name == []
    ensures r.Failure? ==> r.error == EmptyName
    ensures r.Success? ==> |r.value| == |name|
    ensures r.Success? ==> r.value[0] == if IsNumeric(name[0]) then 'X' else Swap(name[0])
    ensures r.Success? ==> forall i :: 1 <= i < |name| ==> r.value[i] == Swap(name[i])
  {
    var replaced := Replaced(name);
    if replaced == [] then Failure(EmptyName)
    else if IsNumeric(replaced[0]) then Success(['X'] + replaced[1..])
    else Success(replaced)
  }

  /** A cleaned name holds no `-` or `.` and does not start with a digit. */
  predicate IsAlias(s: string) {
    && s != []
    && !IsNumeric(s[0])
    && forall i :: 0 <= i < |s| ==> s[i] != '-' && s[i] != '.'
  }

  lemma CleanGivesAlias(name: string)
    requires name != []
    ensures IsAlias(Clean(name).value)
  {
  }

  /** A name that is already an alias is left as it is. */
  lemma {:induction false} ReplacedKeepsAlias(s: string)
    requires forall i :: 0 <= i < |s| ==> s[i] != '-' && s[i] != '.'
    ensures Replaced(s) == s
  {
    var r := Replaced(s);
    forall i | 0 <= i < |s| ensures r[i] == s[i] {
      assert r[i] == Swap(s[i]);
    }
  }

  /** Cleaning twice is cleaning once. */
  lemma CleanIdempotent(name: string)
    requires name != []
    ensures Clean(Clean(name).value) == Clean(name)
  {
    var once := Clean(name).value;
    CleanGivesAlias(name);
    ReplacedKeepsAlias(once);
  }

  // ---------------------------------------------------------------------
  // The repositories of one request (`make_report`)
  // ---------------------------------------------------------------------

  /** `{"name": name, "clean_name": clean(name), "cursor": None}`. */
  datatype QueryRepo = QueryRepo(name: string, cleanName: string, cursor: Option<Value>)

  function QueryRepoOf(name: string): Result<QueryRepo> {
    var alias :- Clean(name);
    Success(QueryRepo(name, alias, None))
  }

  /** `names[:n]`. */
  function Take(names: seq<string>, n: nat): (r: seq<string>)
    ensures |r| == if |names| <= n then |names| else n
    ensures r == names[..|r|]
  {
    if |names| <= n then names else names[..n]
  }

  /** The first 30 names, each with its alias and no cursor yet. */
  function RepoList(names: seq<string>): Result<seq<QueryRepo>> {
    MapResult(Take(names, MAX_REPOS), QueryRepoOf)
  }

  lemma RepoListShape(names: seq<string>)
    ensures var kept := Take(names, MAX_REPOS); var r := RepoList(names);
      && |kept| <= MAX_REPOS
      && (r.Success? <==> forall i :: 0 <= i < |kept| ==> names[i] != [])
      && (r.Failure? ==> r.error == EmptyName)
      && (r.Success? ==> |r.value| == |kept|)
      && (r.Success? ==> forall i :: 0 <= i < |kept| ==>
            r.value[i].name == names[i] && r.value[i].cleanName == Clean(names[i]).value && r.value[i].cursor.None?)
  {
    var kept := Take(names, MAX_REPOS);
    var f := QueryRepoOf;
    if RepoList(names).Failure? {
      var k :| 0 <= k < |kept| && f(kept[k]).Failure?;
      FirstFailure(kept, f, k);
    }
  }

  /** When some call fails, the first one that fails decides the error. */
  lemma {:induction false} FirstFailure<A, B>(xs: seq<A>, f: A -> Result<B>, k: nat)
    requires k < |xs| && f(xs[k]).Failure?
    ensures exists j :: 0 <= j <= k && f(xs[j]).Failure? && MapResult(xs, f) == Failure(f(xs[j]).error)
    decreases k
  {
    if forall i :: 0 <= i < k ==> f(xs[i]).Success? {
      MapResultFailsAt(xs, f, k);
    } else {
      var j :| 0 <= j < k && f(xs[j]).Failure?;
      FirstFailure(xs, f, j);
    }
  }

  // ---------------------------------------------------------------------
  // Grouping the reply (`process_results`)
  // ---------------------------------------------------------------------

  /** `defaultBranchRef.target.history` of a repository entry. */
  datatype History = History(nodes: seq<CommitNode>, pageInfo: PageInfo)
  datatype DefaultBranch = DefaultBranch(name: Option<string>, history: History)

  /** A value of the reply: the rate-limit record, or one repository (its
      default branch is null for an empty repository). */
  datatype Entry = RateLimit(info: Vars) | RepoData(name: string, defaultBranchRef: Option<DefaultBranch>)

  /** The reply's dict: alias or `rateLimit`, to value, in reply order. */
  type Items = seq<(string, Entry)>

  /** The grouped rows: repository name to its rows, in first-seen order. */
  type Groups = seq<(string, seq<Row>)>

  /** The first position holding `key`. */
  function Find<V>(items: seq<(string, V)>, key: string): (k: Option<nat>)
    ensures k.Some? ==> k.value < |items| && items[k.value].0 == key
    ensures k.Some? ==> forall j :: 0 <= j < k.value ==> items[j].0 != key
    ensures k.None? ==> forall j :: 0 <= j < |items| ==> items[j].0 != key
  {
    if items == [] then None
    else if items[0].0 == key then Some(0)
    else
      var k := Find(items[1..], key);
      if k.None? then None else Some(k.value + 1)
  }

  predicate DistinctNames<V>(items: seq<(string, V)>) {
    forall i, j :: 0 <= i < j < |items| ==> items[i].0 != items[j].0
  }

  /** `dict.pop(key)`: the value and the dict without it, or a KeyError. */
  function PopItem(items: Items, key: string): (r: Result<(Entry, Items)>)
    ensures r.Failure? <==> Find(items, key).None?
    ensures r.Failure? ==> r.error == MissingKey(key)
  {
    match Find(items, key)
    case None => Failure(MissingKey(key))
    case Some(k) => Success((items[k].1, items[..k] + items[k + 1..]))
  }

  /** Popping from a dict removes exactly that key and keeps the other
      entries in their order. */
  lemma PopRemoves(items: Items, key: string)
    requires DistinctNames(items) && PopItem(items, key).Success?
    ensures var k := Find(items, key).value; var rest := PopItem(items, key).value.1;
      && PopItem(items, key).value.0 == items[k].1
      && |rest| == |items| - 1
      && DistinctNames(rest)
      && (forall j :: 0 <= j < |rest| ==> rest[j].0 != key)
      && (forall j :: 0 <= j < |rest| ==> rest[j] == if j < k then items[j] else items[j + 1])
  {
    var k := Find(items, key).value;
    var rest := PopItem(items, key).value.1;
    forall j | 0 <= j < |rest| ensures rest[j] == if j < k then items[j] else items[j + 1] {
    }
    forall i, j | 0 <= i < j < |rest| ensures rest[i].0 != rest[j].0 {
      var i' := if i < k then i else i + 1;
      var j' := if j < k then j else j + 1;
      assert rest[i] == items[i'] && rest[j] == items[j'];
    }
  }

  /** One repository's rows: the name, the default branch, then one row per
      commit with the repository and branch names in front. */
  function RepoRows(e: Entry): (r: Result<(string, seq<Row>)>) {
    match e
    case RateLimit(_) => Failure(MissingKey("name"))
    case RepoData(name, branch) =>
      if branch.None? then Failure(NullValue("defaultBranchRef"))
      else
        var rows :- PrepareAll(branch.value.history.nodes, name, branch.value.name, false);
        Success((name, rows))
  }

  /** An entry that groups has one brief row per commit, in node order, each
      carrying the repository's name and its default branch's name. */
  lemma RepoRowsShape(e: Entry)
    requires RepoRows(e).Success?
    ensures e.RepoData? && e.defaultBranchRef.Some?
    ensures var nodes := e.defaultBranchRef.value.history.nodes; var r := RepoRows(e).value;
      && r.0 == e.name
      && |r.1| == |nodes|
      && forall i :: 0 <= i < |nodes| ==>
           && Keys(r.1[i]) == ROW_PREFIX_KEYS + BRIEF_KEYS
           && Lookup(r.1[i], "repo_name") == Some(Str(e.name))
           && Lookup(r.1[i], "branch_name") == Some(OptionalStr(e.defaultBranchRef.value.name))
           && r.1[i][2..] == ParseCommit(nodes[i], false).value
  {
    var b := e.defaultBranchRef.value;
    forall i | 0 <= i < |b.history.nodes| {
      PrepareRowShape(b.history.nodes[i], e.name, b.name, false);
    }
  }

  /** The rows held under `name`, none if there is no group. */
  function GroupOf(g: Groups, name: string): seq<Row> {
    match Find(g, name)
    case None => []
    case Some(k) => g[k].1
  }

  /** `output_data[name].append(row)` on a defaultdict of lists: a new group
      at the end for a new name, else the row added to the existing group. */
  function AddRow(g: Groups, name: string, row: Row): Groups {
    match Find(g, name)
    case None => g + [(name, [row])]
    case Some(k) => g[k := (name, g[k].1 + [row])]
  }

  /** The appends of one repository's rows, in order. */
  function AddRows(g: Groups, name: string, rows: seq<Row>): Groups {
    if rows == [] then g else AddRow(AddRows(g, name, rows[..|rows| - 1]), name, rows[|rows| - 1])
  }

  /** The groups made of each repository's rows, in reply order. */
  function Merge(parts: seq<(string, seq<Row>)>): Groups {
    if parts == [] then [] else
      var last := parts[|parts| - 1];
      AddRows(Merge(parts[..|parts| - 1]), last.0, last.1)
  }

  /** Every row contributed under `name`, in order: the reference for what
      a group holds. */
  function RowsNamed(parts: seq<(string, seq<Row>)>, name: string): seq<Row> {
    if parts == [] then [] else
      var last := parts[|parts| - 1];
      RowsNamed(parts[..|parts| - 1], name) + (if last.0 == name then last.1 else [])
  }

  /** `[d for d in results.values()]`. */
  function Values(items: Items): (vs: seq<Entry>)
    ensures |vs| == |items|
    ensures forall i :: 0 <= i < |items| ==> vs[i] == items[i].1
  {
    if items == [] then [] else [items[0].1] + Values(items[1..])
  }

  /** The grouped rows of the repositories, or the first repository's error. */
  function Grouped(values: seq<Entry>): Result<Groups> {
    var parts :- MapResult(values, RepoRows);
    Success(Merge(parts))
  }

  /** `process_results(results)`: the outcome, and the dict as it is left
      (without `rateLimit`, even when a repository then fails). */
  function ProcessResultsSpec(items: Items): (Result<(Groups, Entry)>, Items) {
    match PopItem(items, "rateLimit")
    case Failure(e) => (Failure(e), items)
    case Success(popped) =>
      var g := Grouped(Values(popped.1));
      (if g.Failure? then Failure(g.error) else Success((g.value, popped.0)), popped.1)
  }

  /** No group is empty, and no name has two groups. */
  predicate WellGrouped(g: Groups) {
    && DistinctNames(g)
    && forall k :: 0 <= k < |g| ==> g[k].1 != []
  }

  lemma AddRowGroups(g: Groups, name: string, row: Row)
    requires WellGrouped(g)
    ensures WellGrouped(AddRow(g, name, row))
    ensures forall m :: GroupOf(AddRow(g, name, row), m) == GroupOf(g, m) + (if m == name then [row] else [])
    ensures Find(AddRow(g, name, row), name).Some?
    ensures forall m :: m != name ==> (Find(AddRow(g, name, row), m).Some? <==> Find(g, m).Some?)
  {
    var g' := AddRow(g, name, row);
    match Find(g, name)
    case None =>
      assert g'[|g|] == (name, [row]);
      forall m | m != name ensures (Find(g', m).Some? <==> Find(g, m).Some?) && GroupOf(g', m) == GroupOf(g, m) {
        FindSnoc(g, (name, [row]), m);
      }
      FindSnoc(g, (name, [row]), name);
    case Some(k) =>
      forall m ensures Find(g', m) == Find(g, m) {
        FindUpdate(g, k, name, g[k].1 + [row], m);
      }
  }

  lemma {:induction false} FindSnoc<V>(items: seq<(string, V)>, item: (string, V), m: string)
    ensures Find(items + [item], m) == if Find(items, m).Some? then Find(items, m) else if item.0 == m then Some(|items|) else None
    decreases |items|
  {
    if items != [] {
      assert (items + [item])[1..] == items[1..] + [item];
      FindSnoc(items[1..], item, m);
    } else {
      assert (items + [item])[1..] == [];
    }
  }

  lemma {:induction false} FindUpdate<V>(items: seq<(string, V)>, k: nat, name: string, v: V, m: string)
    requires k < |items| && items[k].0 == name
    ensures Find(items[k := (name, v)], m) == Find(items, m)
    decreases |items|
  {
    if k > 0 {
      assert items[k := (name, v)][1..] == items[1..][k - 1 := (name, v)];
      FindUpdate(items[1..], k - 1, name, v, m);
    }
  }

  lemma {:induction false} AddRowsGroups(g: Groups, name: string, rows: seq<Row>)
    requires WellGrouped(g)
    ensures WellGrouped(AddRows(g, name, rows))
    ensures forall m :: GroupOf(AddRows(g, name, rows), m) == GroupOf(g, m) + (if m == name then rows else [])
    decreases |rows|
  {
    if rows != [] {
      var init := rows[..|rows| - 1];
      AddRowsGroups(g, name, init);
      AddRowGroups(AddRows(g, name, init), name, rows[|rows| - 1]);
      assert init + [rows[|rows| - 1]] == rows;
    }
  }

  /** The groups hold, under each name, exactly the rows contributed under
      it, in order; names are distinct and no group is empty. */
  lemma {:induction false} MergeGroups(parts: seq<(string, seq<Row>)>)
    ensures WellGrouped(Merge(parts))
    ensures forall m :: GroupOf(Merge(parts), m) == RowsNamed(parts, m)
    decreases |parts|
  {
    if parts != [] {
      var init := parts[..|parts| - 1];
      var last := parts[|parts| - 1];
      MergeGroups(init);
      AddRowsGroups(Merge(init), last.0, last.1);
    }
  }

  /** A name has a group exactly when some rows were contributed under it. */
  lemma GroupExists(g: Groups, m: string)
    requires WellGrouped(g)
    ensures Find(g, m).Some? <==> GroupOf(g, m) != []
  {
  }

  /** What `process_results` returns: `rateLimit` comes back as it was,
      it is gone from the dict, and each group holds exactly the rows of the
      repositories of that name, in reply order; a repository without
      commits leaves no group behind. */
  lemma ProcessResultsGroups(items: Items)
    requires DistinctNames(items)
    requires ProcessResultsSpec(items).0.Success?
    ensures var popped := PopItem(items, "rateLimit").value; var out := ProcessResultsSpec(items);
      && out.1 == popped.1
      && out.0.value.1 == items[Find(items, "rateLimit").value].1
      && (forall j :: 0 <= j < |out.1| ==> out.1[j].0 != "rateLimit")
      && WellGrouped(out.0.value.0)
      && var parts := MapResult(Values(popped.1), RepoRows).value;
         forall m :: (GroupOf(out.0.value.0, m) == RowsNamed(parts, m))
                  && (Find(out.0.value.0, m).Some? <==> RowsNamed(parts, m) != [])
  {
    PopRemoves(items, "rateLimit");
    var popped := PopItem(items, "rateLimit").value;
    var parts := MapResult(Values(popped.1), RepoRows).value;
    MergeGroups(parts);
    forall m ensures Find(Merge(parts), m).Some? <==> RowsNamed(parts, m) != [] {
      GroupExists(Merge(parts), m);
    }
  }

  /** The reply's dict, which `process_results` changes in place. */
  class QueryResults {
    var items: Items

    constructor (items: Items)
      ensures this.items == items
    {
      this.items := items;
    }

    /** `results.pop(key)`. */
    method Pop(key: string) returns (r: Result<Entry>)
      modifies this
      ensures var p := PopItem(old(items), key);
        && (p.Failure? ==> r == Failure(p.error) && items == old(items))
        && (p.Success? ==> r == Success(p.value.0) && items == p.value.1)
    {
      var p := PopItem(items, key);
      if p.Failure? {
        return Failure(p.error);
      }
      items := p.value.1;
      r := Success(p.value.0);
    }
  }

  /** `for c in raw_commits: output_data[name].append(...)`. */
  method AppendCommits(groups: Groups, name: string, branchName: Option<string>, nodes: seq<CommitNode>)
    returns (r: Result<Groups>)
    ensures var rows := PrepareAll(nodes, name, branchName, false);
      && (rows.Success? ==> r == Success(AddRows(groups, name, rows.value)))
      && (rows.Failure? ==> r == Failure(rows.error))
  {
    var g := groups;
    for j := 0 to |nodes|
      invariant PrepareAll(nodes[..j], name, branchName, false).Success?
      invariant g == AddRows(groups, name, PrepareAll(nodes[..j], name, branchName, false).value)
    {
      var row := PrepareRow(nodes[j], name, branchName, false);
      if row.Failure? {
        PrepareAllFailsAt(nodes, name, branchName, false, j);
        return Failure(row.error);
      }
      PrepareAllSnoc(nodes, name, branchName, false, j);
      AddRowsSnoc(groups, name, PrepareAll(nodes[..j], name, branchName, false).value, row.value);
      g := AddRow(g, name, row.value);
    }
    assert nodes[..|nodes|] == nodes;
    r := Success(g);
  }

  lemma AddRowsSnoc(g: Groups, name: string, rows: seq<Row>, row: Row)
    ensures AddRows(g, name, rows + [row]) == AddRow(AddRows(g, name, rows), name, row)
  {
    assert (rows + [row])[..|rows|] == rows;
  }

  lemma MergeSnoc(parts: seq<(string, seq<Row>)>, part: (string, seq<Row>))
    ensures Merge(parts + [part]) == AddRows(Merge(parts), part.0, part.1)
  {
    assert (parts + [part])[..|parts|] == parts;
  }

  /** One repository of the loop of `process_results`: its commits added to
      the groups, or the error that ends the loop. */
  method ProcessEntry(groups: Groups, entry: Entry) returns (r: Result<Groups>)
    ensures var rows := RepoRows(entry);
      && (rows.Success? ==> r == Success(AddRows(groups, rows.value.0, rows.value.1)))
      && (rows.Failure? ==> r == Failure(rows.error))
  {
    if entry.RateLimit? {
      return Failure(MissingKey("name"));
    }
    var name := entry.name;
    var branch := entry.defaultBranchRef;
    if branch.None? {
      return Failure(NullValue("defaultBranchRef"));
    }
    r := AppendCommits(groups, name, branch.value.name, branch.value.history.nodes);
  }

  /** A repository that groups adds its rows to the groups so far. */
  lemma GroupedSnoc(values: seq<Entry>, k: nat)
    requires k < |values| && MapResult(values[..k], RepoRows).Success? && RepoRows(values[k]).Success?
    ensures MapResult(values[..k + 1], RepoRows).Success?
    ensures Merge(MapResult(values[..k + 1], RepoRows).value) ==
      AddRows(Merge(MapResult(values[..k], RepoRows).value), RepoRows(values[k]).value.0, RepoRows(values[k]).value.1)
  {
    MapResultSnoc(values, RepoRows, k);
    MergeSnoc(MapResult(values[..k], RepoRows).value, RepoRows(values[k]).value);
  }

  /** The first repository that cannot be grouped decides the error. */
  lemma GroupedFailsAt(values: seq<Entry>, k: nat)
    requires k < |values| && MapResult(values[..k], RepoRows).Success? && RepoRows(values[k]).Failure?
    ensures Grouped(values) == Failure(RepoRows(values[k]).error)
  {
    MapResultStopsAt(values, RepoRows, k);
  }

  /** `process_results(results)`. */
  method ProcessResults(results: QueryResults) returns (r: Result<(Groups, Entry)>)
    modifies results
    ensures (r, results.items) == ProcessResultsSpec(old(results.items))
  {
    ghost var items0 := results.items;
    var rateLimit := results.Pop("rateLimit");
    if rateLimit.Failure? {
      return Failure(rateLimit.error);
    }
    ghost var popped := PopItem(items0, "rateLimit").value;
    var values := Values(results.items);
    assert results.items == popped.1 && values == Values(popped.1);
    var groups: Groups := [];
    assert values[..0] == [];
    for k := 0 to |values|
      invariant results.items == popped.1
      invariant MapResult(values[..k], RepoRows).Success?
      invariant groups == Merge(MapResult(values[..k], RepoRows).value)
    {
      var next := ProcessEntry(groups, values[k]);
      if next.Failure? {
        GroupedFailsAt(values, k);
        return Failure(next.error);
      }
      GroupedSnoc(values, k);
      groups := next.value;
    }
    assert values[..|values|] == values;
    r := Success((groups, rateLimit.value));
  }

  // ---------------------------------------------------------------------
  // The report (`write`)
  // ---------------------------------------------------------------------

  /** The data lines of the groups in order, up to the first row that cannot
      be written. */
  function GroupLines(fieldnames: seq<string>, groups: Groups): (r: (Result<()>, seq<Line>)) {
    if groups == [] then (Success(()), [])
    else
      var before := GroupLines(fieldnames, groups[..|groups| - 1]);
      if before.0.Failure? then before
      else
        var lines := RowLines(fieldnames, groups[|groups| - 1].1);
        (lines.0, before.1 + lines.1)
  }

  /** `write(path, rows)`: the file truncated, the header before the first
      group, then every group's rows. */
  function WriteSpec(files: Files, path: string, fieldnames: seq<string>, groups: Groups): (Result<()>, Files) {
    var out := GroupLines(fieldnames, groups);
    (out.0, files[path := (if groups == [] then [] else [Header(fieldnames)]) + out.1])
  }

  lemma GroupLinesSnoc(fieldnames: seq<string>, groups: Groups, k: nat)
    requires k < |groups| && GroupLines(fieldnames, groups[..k]).0.Success?
    ensures GroupLines(fieldnames, groups[..k + 1]) ==
      (RowLines(fieldnames, groups[k].1).0, GroupLines(fieldnames, groups[..k]).1 + RowLines(fieldnames, groups[k].1).1)
  {
    assert groups[..k + 1][..k] == groups[..k];
  }

  lemma {:induction false} GroupLinesStop(fieldnames: seq<string>, groups: Groups, k: nat)
    requires k < |groups| && GroupLines(fieldnames, groups[..k + 1]).0.Failure?
    ensures GroupLines(fieldnames, groups) == GroupLines(fieldnames, groups[..k + 1])
    decreases |groups| - k
  {
    if k + 1 < |groups| {
      assert groups[..k + 2][..k + 1] == groups[..k + 1];
      assert GroupLines(fieldnames, groups[..k + 2]) == GroupLines(fieldnames, groups[..k + 1]);
      GroupLinesStop(fieldnames, groups, k + 1);
    } else {
      assert groups[..k + 1] == groups;
    }
  }

  /** Appending one group's lines to the lines already written gives the
      lines of one more group. */
  lemma WriteGroupStep(fieldnames: seq<string>, groups: Groups, k: nat, head: seq<Line>)
    requires k < |groups| && GroupLines(fieldnames, groups[..k]).0.Success?
    ensures RowLines(fieldnames, groups[k].1).0 == GroupLines(fieldnames, groups[..k + 1]).0
    ensures head + GroupLines(fieldnames, groups[..k]).1 + RowLines(fieldnames, groups[k].1).1
         == head + GroupLines(fieldnames, groups[..k + 1]).1
  {
    GroupLinesSnoc(fieldnames, groups, k);
    ConcatAssoc(head, GroupLines(fieldnames, groups[..k]).1, RowLines(fieldnames, groups[k].1).1);
  }

  /** One group's rows appended after the lines already written. */
  method WriteGroup(fs: FileSystem, path: string, fieldnames: seq<string>, groups: Groups, k: nat, ghost files0: Files, ghost head: seq<Line>)
    returns (r: Result<()>)
    requires k < |groups| && GroupLines(fieldnames, groups[..k]).0.Success?
    requires fs.files == files0[path := head + GroupLines(fieldnames, groups[..k]).1]
    modifies fs
    ensures r == GroupLines(fieldnames, groups[..k + 1]).0
    ensures fs.files == files0[path := head + GroupLines(fieldnames, groups[..k + 1]).1]
  {
    ghost var prior := head + GroupLines(fieldnames, groups[..k]).1;
    assert Existing(fs.files, path) == prior;
    r := WriteRows(fs, path, fieldnames, groups[k].1);
    ghost var written := RowLines(fieldnames, groups[k].1).1;
    UpdateTwice(files0, path, prior, prior + written);
    WriteGroupStep(fieldnames, groups, k, head);
  }

  /** The loop of `write`: the header once, before the first group's rows. */
  method WriteGroups(fs: FileSystem, path: string, fieldnames: seq<string>, groups: Groups) returns (r: Result<()>)
    modifies fs
    ensures (r, fs.files) == WriteSpec(old(fs.files), path, fieldnames, groups)
  {
    ghost var files0 := fs.files;
    var wroteHeader := false;
    fs.Open(path, false);
    assert groups[..0] == [];
    assert GroupLines(fieldnames, groups[..0]) == (Success(()), []);
    ghost var none: seq<Line> := [];
    assert none + GroupLines(fieldnames, groups[..0]).1 == none;
    for k := 0 to |groups|
      invariant wroteHeader <==> k > 0
      invariant GroupLines(fieldnames, groups[..k]).0.Success?
      invariant fs.files == files0[path := (if k > 0 then [Header(fieldnames)] else []) + GroupLines(fieldnames, groups[..k]).1]
    {
      if !wroteHeader {
        assert k == 0 && Existing(fs.files, path) == [];
        fs.Append(path, [Header(fieldnames)]);
        wroteHeader := true;
        assert [Header(fieldnames)] + GroupLines(fieldnames, groups[..k]).1 == [] + [Header(fieldnames)];
      }
      var wrote := WriteGroup(fs, path, fieldnames, groups, k, files0, [Header(fieldnames)]);
      if wrote.Failure? {
        GroupLinesStop(fieldnames, groups, k);
        return wrote;
      }
    }
    assert groups[..|groups|] == groups;
    r := GroupLines(fieldnames, groups).0;
  }

  /** `write(path, rows)`, with the report's columns. */
  method Write(fs: FileSystem, path: string, groups: Groups) returns (r: Result<()>)
    modifies fs
    ensures (r, fs.files) == WriteSpec(old(fs.files), path, FIELDNAMES, groups)
  {
    r := WriteGroups(fs, path, FIELDNAMES, groups);
  }

  lemma {:induction false} NoHeaderAmongGroups(fieldnames: seq<string>, groups: Groups)
    ensures HeaderCount(GroupLines(fieldnames, groups).1) == 0
    decreases |groups|
  {
    if groups != [] {
      var before := GroupLines(fieldnames, groups[..|groups| - 1]);
      NoHeaderAmongGroups(fieldnames, groups[..|groups| - 1]);
      if before.0.Success? {
        NoHeaderAmongRows(fieldnames, groups[|groups| - 1].1);
        HeaderCountOfConcat(before.1, RowLines(fieldnames, groups[|groups| - 1].1).1);
      }
    }
  }

  /** The report holds one header, as its first line, exactly when there is
      at least one group, whatever the file held before; no other file
      changes. */
  lemma WriteHeaderOnce(files: Files, path: string, groups: Groups)
    ensures var out := WriteSpec(files, path, FIELDNAMES, groups).1;
      && path in out
      && HeaderCount(out[path]) == (if groups == [] then 0 else 1)
      && (groups != [] ==> out[path][0] == Header(FIELDNAMES))
      && (groups == [] ==> out[path] == [])
      && (forall other: Files :: WriteSpec(other, path, FIELDNAMES, groups).1[path] == out[path])
      && (forall q :: q in files && q != path ==> q in out && out[q] == files[q])
  {
    var lines := GroupLines(FIELDNAMES, groups).1;
    NoHeaderAmongGroups(FIELDNAMES, groups);
    if groups != [] {
      HeaderCountOfConcat([Header(FIELDNAMES)], lines);
    } else {
      assert lines == [];
    }
  }

  /** The rows `process_results` produces always fit the report's columns:
      writing them never fails. */
  lemma WriteAcceptsProcessedRows(files: Files, path: string, items: Items)
    requires ProcessResultsSpec(items).0.Success?
    ensures WriteSpec(files, path, FIELDNAMES, ProcessResultsSpec(items).0.value.0).0.Success?
  {
    var popped := PopItem(items, "rateLimit").value;
    var values := Values(popped.1);
    var parts := MapResult(values, RepoRows).value;
    forall i | 0 <= i < |parts|
      ensures forall j :: 0 <= j < |parts[i].1| ==> Keys(parts[i].1[j]) == ROW_PREFIX_KEYS + BRIEF_KEYS
    {
      RepoRowsShape(values[i]);
    }
    MergeKeyed(parts);
    GroupLinesKeyed(Merge(parts));
  }

  predicate BriefRows(rows: seq<Row>) {
    forall j :: 0 <= j < |rows| ==> Keys(rows[j]) == ROW_PREFIX_KEYS + BRIEF_KEYS
  }

  lemma {:induction false} MergeKeyed(parts: seq<(string, seq<Row>)>)
    requires forall i :: 0 <= i < |parts| ==> BriefRows(parts[i].1)
    ensures forall k :: 0 <= k < |Merge(parts)| ==> BriefRows(Merge(parts)[k].1)
    decreases |parts|
  {
    if parts != [] {
      var init := parts[..|parts| - 1];
      var last := parts[|parts| - 1];
      assert forall i :: 0 <= i < |init| ==> init[i] == parts[i];
      MergeKeyed(init);
      AddRowsKeyed(Merge(init), last.0, last.1);
    }
  }

  lemma {:induction false} AddRowsKeyed(g: Groups, name: string, rows: seq<Row>)
    requires forall k :: 0 <= k < |g| ==> BriefRows(g[k].1)
    requires BriefRows(rows)
    ensures forall k :: 0 <= k < |AddRows(g, name, rows)| ==> BriefRows(AddRows(g, name, rows)[k].1)
    decreases |rows|
  {
    if rows != [] {
      var init := rows[..|rows| - 1];
      var row := rows[|rows| - 1];
      assert BriefRows(init);
      AddRowsKeyed(g, name, init);
      var g' := AddRows(g, name, init);
      match Find(g', name)
      case None =>
      case Some(k) =>
        assert BriefRows(g'[k].1 + [row]);
    }
  }

  lemma {:induction false} GroupLinesKeyed(groups: Groups)
    requires forall k :: 0 <= k < |groups| ==> BriefRows(groups[k].1)
    ensures GroupLines(FIELDNAMES, groups).0.Success?
    decreases |groups|
  {
    if groups != [] {
      var init := groups[..|groups| - 1];
      assert forall k :: 0 <= k < |init| ==> init[k] == groups[k];
      GroupLinesKeyed(init);
      var rows := groups[|groups| - 1].1;
      forall i | 0 <= i < |rows| ensures RowLine(FIELDNAMES, rows[i]).Success? {
        assert Keys(rows[i]) == ROW_PREFIX_KEYS + BRIEF_KEYS;
      }
    }
  }

  // ---------------------------------------------------------------------
  // One request of the report (`get_results`, `do_query`, `make_report`)
  // ---------------------------------------------------------------------

  /** `get_results`: the reply of one request, grouped. */
  method GetResults(t: Transport<Items>, fs: FileSystem, query: string) returns (r: Result<(Groups, Entry)>)
    modifies t, fs
    ensures var fetched := Fetch(old(WorldOf(t, fs)), Payload(query, map[]));
      && WorldOf(t, fs) == fetched.1
      && (fetched.0.Failure? ==> r == Failure(fetched.0.error))
      && (fetched.0.Success? ==> r == ProcessResultsSpec(fetched.0.value).0)
  {
    var data := FetchGithubData(t, fs, query, map[]);
    if data.Failure? {
      return Failure(data.error);
    }
    var results := new QueryResults(data.value);
    r := ProcessResults(results);
  }

  /** `do_query`: one request, then the report written to CSV_PATH. */
  method DoQuery(t: Transport<Items>, fs: FileSystem, query: string) returns (r: Result<()>)
    modifies t, fs
    ensures var fetched := Fetch(old(WorldOf(t, fs)), Payload(query, map[]));
      var grouped := if fetched.0.Success? then ProcessResultsSpec(fetched.0.value).0 else Failure(fetched.0.error);
      && t.script == fetched.1.script && t.trace == fetched.1.trace
      && (grouped.Failure? ==> r == Failure(grouped.error) && fs.files == fetched.1.files)
      && (grouped.Success? ==> (r, fs.files) == WriteSpec(fetched.1.files, CSV_PATH, FIELDNAMES, grouped.value.0))
  {
    var out := GetResults(t, fs, query);
    if out.Failure? {
      return Failure(out.error);
    }
    r := Write(fs, CSV_PATH, out.value.0);
  }

  /** `make_report`: the repository list of the first 30 names, rendered
      into the query text by `render`, then one request. */
  method MakeReport(t: Transport<Items>, fs: FileSystem, repoNames: seq<string>, render: seq<QueryRepo> -> string)
    returns (r: Result<()>)
    modifies t, fs
    ensures RepoList(repoNames).Failure? ==>
      r == Failure(EmptyName) && t.script == old(t.script) && t.trace == old(t.trace) && fs.files == old(fs.files)
    ensures RepoList(repoNames).Success? ==>
      var fetched := Fetch(old(WorldOf(t, fs)), Payload(render(RepoList(repoNames).value), map[]));
      && t.script == fetched.1.script && t.trace == fetched.1.trace
      && (fetched.0.Failure? ==> r == Failure(fetched.0.error) && fs.files == fetched.1.files)
      && (fetched.0.Success? && ProcessResultsSpec(fetched.0.value).0.Failure? ==>
            r == Failure(ProcessResultsSpec(fetched.0.value).0.error) && fs.files == fetched.1.files)
      && (fetched.0.Success? && ProcessResultsSpec(fetched.0.value).0.Success? ==>
            (r, fs.files) == WriteSpec(fetched.1.files, CSV_PATH, FIELDNAMES, ProcessResultsSpec(fetched.0.value).0.value.0))
  {
    var repos := RepoList(repoNames);
    if repos.Failure? {
      RepoListShape(repoNames);
      return Failure(repos.error);
    }
    r := DoQuery(t, fs, render(repos.value));
  }
}

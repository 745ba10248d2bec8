/** lib/__init__.py: the request executor (reply classification and bounded
    retry), the CSV report writer, and the command-line variable builder.

    The HTTP transport is a finite script of replies; each call takes the
    next one, and a call after the script is used up fails the way a
    requests exception does. Sleeping is an event in a ghost trace. The
    file system maps each existing path to its lines. */
module Lib {
  import opened Common
  import opened Rows
  import Time

  const MAX_ATTEMPTS: nat := 3
  const RETRY_SECONDS: nat := 1
  const BAD_CREDENTIALS := "Bad credentials"
  /** The output directory, relative to the directory the scripts run in. */
  const VAR_DIR := "var"
  const ERROR_QUERY_PATH := VAR_DIR + "/error_query.gql"
  const ERROR_PAYLOAD_PATH := VAR_DIR + "/error_payload.gql"

  /** The GraphQL variables of a request. */
  type Vars = map<string, Value>

  /** The JSON body of a request: `{"query": ..., "variables": ...}`. */
  datatype Payload = Payload(query: string, variables: Vars)

  /** A decoded reply: its optional top-level `message`, its `errors` list
      (empty when absent) and its `data`, None when absent or null. */
  datatype Reply<D> = Reply(message: Option<string>, errors: seq<string>, data: Option<D>)

  /** What the outside world sees happen: a request sent, or a sleep. */
  datatype Event = Call(payload: Payload) | Sleep(seconds: nat)

  /** A line of a file: a CSV header, a CSV record, or one of the two
      diagnostic dumps (the query text, the JSON payload). */
  datatype Line = Header(names: seq<string>) | Record(cells: seq<Value>) | Text(text: string) | PayloadDump(payload: Payload)

  /** The file system: the lines of every file that exists. */
  type Files = map<string, seq<Line>>

  /** Everything a request can touch: the replies still to come, the events
      so far, and the files. */
  datatype World<D> = World(script: seq<Reply<D>>, trace: seq<Event>, files: Files)

  // ---------------------------------------------------------------------
  // Reply classification (`_request`)
  // ---------------------------------------------------------------------

  /** `_request`'s checks, in order: bad credentials exit the program before
      anything else is looked at; a non-empty `errors` list fails even when
      `data` is present; then a missing `data` fails; otherwise the whole
      reply is returned. */
  function Classify<D>(reply: Reply<D>): (r: Result<Reply<D>>)
    ensures r == Failure(Exit(1)) <==> reply.message == Some(BAD_CREDENTIALS)
    ensures r.Success? <==> reply.message != Some(BAD_CREDENTIALS) && reply.errors == [] && reply.data.Some?
    ensures r.Success? ==> r.value == reply
    ensures reply.message != Some(BAD_CREDENTIALS) && reply.errors != [] ==> r == Failure(QueryErrors(reply.errors))
    ensures r.Failure? ==> r.error == Exit(1) || Retryable(r.error)
  {
    if reply.message == Some(BAD_CREDENTIALS) then Failure(Exit(1))
    else if reply.errors != [] then Failure(QueryErrors(reply.errors))
    else if reply.data.None? then Failure(MissingData)
    else Success(reply)
  }

  /** The two diagnostic files written before an errors reply is raised. */
  function Diagnose(files: Files, p: Payload): Files {
    files[ERROR_QUERY_PATH := [Text(p.query)]][ERROR_PAYLOAD_PATH := [PayloadDump(p)]]
  }

  predicate IsQueryErrors<D>(c: Result<D>) {
    c.Failure? && c.error.QueryErrors?
  }

  /** One `_request` call on the world: one event, at most one reply used. */
  function Request<D>(w: World<D>, p: Payload): (r: (Result<Reply<D>>, World<D>))
    ensures r.1.trace == w.trace + [Call(p)]
    ensures r.1.script == if w.script == [] then [] else w.script[1..]
    ensures r.0.Success? ==> w.script != [] && r.0.value.data.Some?
  {
    var w1 := w.(trace := w.trace + [Call(p)]);
    if w.script == [] then (Failure(TransportFailure), w1)
    else
      var c := Classify(w.script[0]);
      var w2 := w1.(script := w.script[1..]);
      if IsQueryErrors(c) then (c, w2.(files := Diagnose(w2.files, p))) else (c, w2)
  }

  /** Only an errors reply writes files: the query text and the payload go
      to the two diagnostic paths, and every other file is kept. */
  lemma RequestDiagnostics<D>(w: World<D>, p: Payload)
    ensures var errs := w.script != [] && w.script[0].message != Some(BAD_CREDENTIALS) && w.script[0].errors != [];
      var out := Request(w, p);
      && (errs ==> out.0 == Failure(QueryErrors(w.script[0].errors)))
      && (errs ==> out.1.files[ERROR_QUERY_PATH] == [Text(p.query)] && out.1.files[ERROR_PAYLOAD_PATH] == [PayloadDump(p)])
      && (errs ==> forall q :: q in w.files && q != ERROR_QUERY_PATH && q != ERROR_PAYLOAD_PATH ==> q in out.1.files && out.1.files[q] == w.files[q])
      && (!errs ==> out.1.files == w.files)
  {
    assert ERROR_QUERY_PATH != ERROR_PAYLOAD_PATH;
  }

  // ---------------------------------------------------------------------
  // Bounded retry (`fetch_github_data`)
  // ---------------------------------------------------------------------

  /** `k` calls of `p` with one retry pause between each two. */
  function Attempts(p: Payload, k: nat): (t: seq<Event>)
    requires k >= 1
  {
    if k == 1 then [Call(p)] else [Call(p), Sleep(RETRY_SECONDS)] + Attempts(p, k - 1)
  }

  /** `t` is `Attempts(p, k)` for some `k` between 1 and `n`. */
  predicate IsAttempts(t: seq<Event>, p: Payload, n: nat)
    decreases n
  {
    n >= 1 &&
    (t == [Call(p)] ||
     (n >= 2 && |t| >= 2 && t[0] == Call(p) && t[1] == Sleep(RETRY_SECONDS) && IsAttempts(t[2..], p, n - 1)))
  }

  function CallCount(t: seq<Event>): nat {
    if t == [] then 0 else (if t[0].Call? then 1 else 0) + CallCount(t[1..])
  }

  function SleepCount(t: seq<Event>): nat {
    if t == [] then 0 else (if t[0].Sleep? then 1 else 0) + SleepCount(t[1..])
  }

  /** Attempt number `i` (counting from 0) and the ones after it. */
  function Attempt<D>(w: World<D>, p: Payload, i: nat): (r: (Result<D>, World<D>))
    requires i < MAX_ATTEMPTS
    decreases MAX_ATTEMPTS - i
    ensures |r.1.script| <= |w.script|
    ensures r.0.Success? ==> |r.1.script| < |w.script|
  {
    var rq := Request(w, p);
    var c := rq.0;
    if c.Success? then (Success(c.value.data.value), rq.1)
    else if !Retryable(c.error) || i + 1 == MAX_ATTEMPTS then (Failure(c.error), rq.1)
    else
      var w2 := rq.1.(trace := rq.1.trace + [Sleep(RETRY_SECONDS)]);
      Attempt(w2, p, i + 1)
  }

  /** The attempts from `i` on only add to the trace, and what they add is
      a run of at most `MAX_ATTEMPTS - i` calls with a pause between each two. */
  lemma {:induction false} AttemptTrace<D>(w: World<D>, p: Payload, i: nat)
    requires i < MAX_ATTEMPTS
    decreases MAX_ATTEMPTS - i
    ensures var t := Attempt(w, p, i).1.trace;
      |t| >= |w.trace| && t[..|w.trace|] == w.trace && IsAttempts(t[|w.trace|..], p, MAX_ATTEMPTS - i)
  {
    var rq := Request(w, p);
    if rq.0.Failure? && Retryable(rq.0.error) && i + 1 < MAX_ATTEMPTS {
      var w2 := rq.1.(trace := rq.1.trace + [Sleep(RETRY_SECONDS)]);
      assert Attempt(w, p, i) == Attempt(w2, p, i + 1);
      AttemptTrace(w2, p, i + 1);
      AttemptsTraceStep(w.trace, w2.trace, Attempt(w2, p, i + 1).1.trace, p, MAX_ATTEMPTS - i);
    } else {
      assert Attempt(w, p, i).1 == rq.1;
      AttemptsTraceOne(w.trace, rq.1.trace, p, MAX_ATTEMPTS - i);
    }
  }

  /** An attempt that ends the loop adds its one call. */
  lemma AttemptsTraceOne(before: seq<Event>, after: seq<Event>, p: Payload, n: nat)
    requires n >= 1 && after == before + [Call(p)]
    ensures |after| >= |before| && after[..|before|] == before
    ensures IsAttempts(after[|before|..], p, n)
  {
    assert after[|before|..] == [Call(p)];
  }

  /** One more failed attempt puts a call and a pause in front of the rest. */
  lemma AttemptsTraceStep(before: seq<Event>, mid: seq<Event>, after: seq<Event>, p: Payload, n: nat)
    requires n >= 2 && mid == before + [Call(p)] + [Sleep(RETRY_SECONDS)]
    requires |after| >= |mid| && after[..|mid|] == mid
    requires IsAttempts(after[|mid|..], p, n - 1)
    ensures |after| >= |before| && after[..|before|] == before
    ensures IsAttempts(after[|before|..], p, n)
  {
    var t := after[|before|..];
    assert t[0] == mid[|before|];
    assert t[1] == mid[|before| + 1];
    assert t[2..] == after[|mid|..];
    assert after[..|before|] == mid[..|before|];
  }

  /** `fetch_github_data(query, variables)` on the world. */
  function Fetch<D>(w: World<D>, p: Payload): (r: (Result<D>, World<D>))
    ensures r.0.Success? ==> |r.1.script| < |w.script|
    ensures |r.1.script| <= |w.script|
  {
    Attempt(w, p, 0)
  }

  /** The result a classified reply gives the caller of `fetch_github_data`. */
  function Outcome<D>(c: Result<Reply<D>>): Result<D>
    requires c.Success? ==> c.value.data.Some?
  {
    match c
    case Success(reply) => Success(reply.data.value)
    case Failure(e) => Failure(e)
  }

  /** The files after the diagnostics of every errors reply in `s`. */
  function DiagnosedBy<D>(files: Files, s: seq<Reply<D>>, p: Payload): Files
    decreases |s|
  {
    if s == [] then files
    else DiagnosedBy(if IsQueryErrors(Classify(s[0])) then Diagnose(files, p) else files, s[1..], p)
  }

  /** Each of the first `k - 1` replies fails in a way that is retried. */
  predicate RetriedPrefix<D>(s: seq<Reply<D>>, k: nat)
    requires k <= |s|
  {
    forall j :: 0 <= j < k - 1 ==> Classify(s[j]).Failure? && Retryable(Classify(s[j]).error)
  }

  /** The files after the first reply's diagnostics, if it has errors. */
  function FilesAfter<D>(files: Files, reply: Reply<D>, p: Payload): Files {
    if IsQueryErrors(Classify(reply)) then Diagnose(files, p) else files
  }

  /** An attempt that ends the loop: its reply decides the result. */
  lemma AttemptLast<D>(w: World<D>, p: Payload, i: nat)
    requires i < MAX_ATTEMPTS && w.script != []
    requires Classify(w.script[0]).Success? || !Retryable(Classify(w.script[0]).error) || i + 1 == MAX_ATTEMPTS
    ensures Attempt(w, p, i) ==
      (Outcome(Classify(w.script[0])), World(w.script[1..], w.trace + [Call(p)], FilesAfter(w.files, w.script[0], p)))
  {
  }

  /** An attempt that is retried: the pause, then the next attempt. */
  lemma AttemptRetried<D>(w: World<D>, p: Payload, i: nat)
    requires i + 1 < MAX_ATTEMPTS && w.script != []
    requires Classify(w.script[0]).Failure? && Retryable(Classify(w.script[0]).error)
    ensures Attempt(w, p, i) ==
      Attempt(World(w.script[1..], w.trace + [Call(p), Sleep(RETRY_SECONDS)], FilesAfter(w.files, w.script[0], p)), p, i + 1)
  {
    assert w.trace + [Call(p)] + [Sleep(RETRY_SECONDS)] == w.trace + [Call(p), Sleep(RETRY_SECONDS)];
  }

  /** When attempt `i + k - 1` is the first one that ends the loop (it
      succeeds, it is not retryable, or it is the last allowed), exactly `k`
      calls are made, one pause separates each two, the first `k` replies
      are used, and the k-th reply decides the result. */
  lemma {:induction false} AttemptRun<D>(w: World<D>, p: Payload, i: nat, k: nat)
    requires i < MAX_ATTEMPTS && 1 <= k <= MAX_ATTEMPTS - i && k <= |w.script|
    requires RetriedPrefix(w.script, k)
    requires Classify(w.script[k - 1]).Success? || !Retryable(Classify(w.script[k - 1]).error) || i + k == MAX_ATTEMPTS
    ensures Attempt(w, p, i) ==
      (Outcome(Classify(w.script[k - 1])),
       World(w.script[k..], w.trace + Attempts(p, k), DiagnosedBy(w.files, w.script[..k], p)))
    decreases k
  {
    var files1 := FilesAfter(w.files, w.script[0], p);
    if k == 1 {
      AttemptLast(w, p, i);
      assert w.script[..1][1..] == [];
    } else {
      AttemptRetried(w, p, i);
      var w2 := World(w.script[1..], w.trace + [Call(p), Sleep(RETRY_SECONDS)], files1);
      RetriedPrefixTail(w.script, k);
      AttemptRun(w2, p, i + 1, k - 1);
      DropFirstReply(w, p, k);
    }
  }

  lemma RetriedPrefixTail<D>(s: seq<Reply<D>>, k: nat)
    requires 2 <= k <= |s| && RetriedPrefix(s, k)
    ensures RetriedPrefix(s[1..], k - 1)
  {
    forall j | 0 <= j < k - 2 ensures Classify(s[1..][j]).Failure? && Retryable(Classify(s[1..][j]).error) {
      assert s[1..][j] == s[j + 1];
    }
  }

  /** What the rest of the run sees once the first reply is used. */
  lemma DropFirstReply<D>(w: World<D>, p: Payload, k: nat)
    requires 2 <= k <= |w.script|
    ensures w.script[1..][k - 2] == w.script[k - 1]
    ensures w.script[1..][k - 1..] == w.script[k..]
    ensures DiagnosedBy(FilesAfter(w.files, w.script[0], p), w.script[1..][..k - 1], p) == DiagnosedBy(w.files, w.script[..k], p)
    ensures w.trace + [Call(p), Sleep(RETRY_SECONDS)] + Attempts(p, k - 1) == w.trace + Attempts(p, k)
  {
    assert w.script[..k][1..] == w.script[1..][..k - 1];
  }

  /** If attempt k is the first success, exactly k requests were sent and
      that reply's `data` is returned. */
  lemma FetchFirstSuccess<D>(w: World<D>, p: Payload, k: nat)
    requires 1 <= k <= MAX_ATTEMPTS && k <= |w.script|
    requires RetriedPrefix(w.script, k) && Classify(w.script[k - 1]).Success?
    ensures Fetch(w, p).0 == Success(w.script[k - 1].data.value)
    ensures Fetch(w, p).1.script == w.script[k..]
    ensures Fetch(w, p).1.trace == w.trace + Attempts(p, k)
  {
    AttemptRun(w, p, 0, k);
  }

  /** Three retried failures in a row: the third error is raised after three
      requests and two pauses, none after the last request. */
  lemma FetchGivesUp<D>(w: World<D>, p: Payload)
    requires |w.script| >= MAX_ATTEMPTS && RetriedPrefix(w.script, MAX_ATTEMPTS)
    requires Classify(w.script[2]).Failure? && Retryable(Classify(w.script[2]).error)
    ensures Fetch(w, p).0 == Failure(Classify(w.script[2]).error)
    ensures Fetch(w, p).1.script == w.script[3..]
    ensures Fetch(w, p).1.trace == w.trace + [Call(p), Sleep(1), Call(p), Sleep(1), Call(p)]
    ensures Fetch(w, p).1.files == DiagnosedBy(w.files, w.script[..3], p)
  {
    AttemptRun(w, p, 0, 3);
    AttemptsThree(p);
    var c := Classify(w.script[2]);
    assert Outcome(c) == Failure(c.error);
  }

  lemma AttemptsThree(p: Payload)
    ensures Attempts(p, 3) == [Call(p), Sleep(1), Call(p), Sleep(1), Call(p)]
  {
    assert Attempts(p, 1) == [Call(p)];
    assert Attempts(p, 2) == [Call(p), Sleep(1), Call(p)];
  }

  /** A bad-credentials reply ends the run with exit status 1 at once: no
      further request is sent, whatever attempts remain. */
  lemma FetchStopsOnBadCredentials<D>(w: World<D>, p: Payload, j: nat)
    requires j < MAX_ATTEMPTS && j < |w.script| && RetriedPrefix(w.script, j + 1)
    requires w.script[j].message == Some(BAD_CREDENTIALS)
    ensures Fetch(w, p).0 == Failure(Exit(1))
    ensures Fetch(w, p).1.script == w.script[j + 1..]
    ensures Fetch(w, p).1.trace == w.trace + Attempts(p, j + 1)
  {
    AttemptRun(w, p, 0, j + 1);
  }

  /** However the loop ends, it sent between 1 and `n` requests, paused
      once between each two, and never paused after the last one. */
  lemma {:induction false} AttemptsShape(t: seq<Event>, p: Payload, n: nat)
    requires IsAttempts(t, p, n)
    ensures 1 <= CallCount(t) <= n
    ensures SleepCount(t) == CallCount(t) - 1
    ensures t[|t| - 1] == Call(p)
    decreases n
  {
    if t != [Call(p)] {
      AttemptsShape(t[2..], p, n - 1);
      assert t == [t[0]] + ([t[1]] + t[2..]);
      assert t[1..][1..] == t[2..];
    }
  }

  /** At most MAX_ATTEMPTS requests per `fetch_github_data`. */
  lemma FetchCallsAtMostThree<D>(w: World<D>, p: Payload)
    ensures 1 <= CallCount(Fetch(w, p).1.trace[|w.trace|..]) <= MAX_ATTEMPTS
    ensures SleepCount(Fetch(w, p).1.trace[|w.trace|..]) == CallCount(Fetch(w, p).1.trace[|w.trace|..]) - 1
  {
    AttemptTrace(w, p, 0);
    AttemptsShape(Fetch(w, p).1.trace[|w.trace|..], p, MAX_ATTEMPTS);
  }

  // ---------------------------------------------------------------------
  // The transport and the file system as objects
  // ---------------------------------------------------------------------

  /** The HTTP endpoint: the replies it will give, in order. */
  class Transport<D> {
    var script: seq<Reply<D>>
    ghost var trace: seq<Event>

    constructor (script: seq<Reply<D>>)
      ensures this.script == script && trace == []
    {
      this.script := script;
      trace := [];
    }

    /** `requests.post(...).json()`: None when the transport raises. */
    method Post(p: Payload) returns (reply: Option<Reply<D>>)
      modifies this
      ensures trace == old(trace) + [Call(p)]
      ensures old(script) == [] ==> reply == None && script == []
      ensures old(script) != [] ==> reply == Some(old(script)[0]) && script == old(script)[1..]
    {
      trace := trace + [Call(p)];
      if script == [] {
        reply := None;
      } else {
        reply := Some(script[0]);
        script := script[1..];
      }
    }

    /** `sleep(seconds)`. */
    method Sleep(seconds: nat)
      modifies this
      ensures trace == old(trace) + [Event.Sleep(seconds)] && script == old(script)
    {
      trace := trace + [Event.Sleep(seconds)];
    }
  }

  class FileSystem {
    var files: Files

    constructor (files: Files)
      ensures this.files == files
    {
      this.files := files;
    }

    /** `open(path, "a" if append else "w")`: appending keeps the lines (and
        creates a missing file), writing truncates. */
    method Open(path: string, append: bool)
      modifies this
      ensures files == old(files)[path := if append then Existing(old(files), path) else []]
    {
      if append {
        files := files[path := Existing(files, path)];
      } else {
        files := files[path := []];
      }
    }

    /** `open(path, "w")` followed by writing `lines`. */
    method Write(path: string, lines: seq<Line>)
      modifies this
      ensures files == old(files)[path := lines]
    {
      files := files[path := lines];
    }

    /** `open(path, "a")` followed by writing `lines`; creates a missing file. */
    method Append(path: string, lines: seq<Line>)
      modifies this
      ensures files == old(files)[path := Existing(old(files), path) + lines]
    {
      files := files[path := Existing(files, path) + lines];
    }
  }

  /** The lines of `path`, none when it does not exist. */
  function Existing(files: Files, path: string): seq<Line> {
    if path in files then files[path] else []
  }

  ghost function WorldOf<D>(t: Transport<D>, fs: FileSystem): World<D>
    reads t, fs
  {
    World(t.script, t.trace, fs.files)
  }

  /** `_request(url, payload, headers)`. */
  method RequestOnce<D>(t: Transport<D>, fs: FileSystem, p: Payload) returns (r: Result<Reply<D>>)
    modifies t, fs
    ensures (r, WorldOf(t, fs)) == Request(old(WorldOf(t, fs)), p)
  {
    var reply := t.Post(p);
    if reply.None? {
      return Failure(TransportFailure);
    }
    var resp := reply.value;
    if resp.message == Some(BAD_CREDENTIALS) {
      return Failure(Exit(1));
    }
    if resp.errors != [] {
      fs.Write(ERROR_QUERY_PATH, [Text(p.query)]);
      fs.Write(ERROR_PAYLOAD_PATH, [PayloadDump(p)]);
      return Failure(QueryErrors(resp.errors));
    }
    if resp.data.None? {
      return Failure(MissingData);
    }
    return Success(resp);
  }

  /** `fetch_github_data(query, variables)`: up to MAX_ATTEMPTS requests, a
      pause of RETRY_SECONDS after each retried failure but the last, and the
      last failure re-raised. */
  method FetchGithubData<D>(t: Transport<D>, fs: FileSystem, query: string, variables: Vars) returns (r: Result<D>)
    modifies t, fs
    ensures (r, WorldOf(t, fs)) == Fetch(old(WorldOf(t, fs)), Payload(query, variables))
  {
    var p := Payload(query, variables);
    ghost var w0 := WorldOf(t, fs);
    var resp: Option<Reply<D>> := None;
    for i := 0 to MAX_ATTEMPTS
      invariant i < MAX_ATTEMPTS
      invariant Attempt(WorldOf(t, fs), p, i) == Fetch(w0, p)
    {
      ghost var before := WorldOf(t, fs);
      var c := RequestOnce(t, fs, p);
      if c.Failure? {
        if !Retryable(c.error) || i + 1 == MAX_ATTEMPTS {
          return Failure(c.error);
        }
        t.Sleep(RETRY_SECONDS);
      } else {
        resp := Some(c.value);
        assert (Success(c.value.data.value), WorldOf(t, fs)) == Fetch(w0, p);
        break;
      }
    }
    r := Success(resp.value.data.value);
  }

  // ---------------------------------------------------------------------
  // The CSV writer (`write_csv`) and its reader (`read_csv`)
  // ---------------------------------------------------------------------

  /** The keys of `ks` that are not field names. */
  function Extras(fieldnames: seq<string>, ks: seq<string>): (e: seq<string>)
    ensures e == [] <==> forall k :: k in ks ==> k in fieldnames
  {
    if ks == [] then []
    else (if ks[0] in fieldnames then [] else [ks[0]]) + Extras(fieldnames, ks[1..])
  }

  /** `row.get(key, "")`: DictWriter's default for a missing key. */
  function CellOf(row: Row, key: string): Value {
    match Lookup(row, key)
    case Some(v) => v
    case None => Str("")
  }

  /** `DictWriter.writerow(row)`: one record, its cells in field-name order;
      a row with a key outside the field names raises ValueError. */
  function RowLine(fieldnames: seq<string>, row: Row): (r: Result<Line>)
    ensures r.Success? <==> forall k :: k in Keys(row) ==> k in fieldnames
    ensures r.Success? ==> r.value.Record? && |r.value.cells| == |fieldnames|
    ensures r.Success? ==> forall i :: 0 <= i < |fieldnames| ==> r.value.cells[i] == CellOf(row, fieldnames[i])
  {
    var extras := Extras(fieldnames, Keys(row));
    if extras != [] then Failure(ExtraFields(extras))
    else Success(Record(seq(|fieldnames|, i requires 0 <= i < |fieldnames| => CellOf(row, fieldnames[i]))))
  }

  /** `DictWriter.writerows(rows)`: the records written before the first row
      that raises, and that row's error. */
  function RowLines(fieldnames: seq<string>, rows: seq<Row>): (r: (Result<()>, seq<Line>))
    ensures |r.1| <= |rows|
    ensures r.0.Success? <==> forall i :: 0 <= i < |rows| ==> RowLine(fieldnames, rows[i]).Success?
    ensures r.0.Success? ==> |r.1| == |rows|
  {
    if rows == [] then (Success(()), [])
    else
      match RowLine(fieldnames, rows[0])
      case Failure(e) => (Failure(e), [])
      case Success(line) =>
        var rest := RowLines(fieldnames, rows[1..]);
        assert forall i :: 1 <= i < |rows| ==> rows[i] == rows[1..][i - 1];
        (rest.0, [line] + rest.1)
  }

  /** The i-th line written is the i-th row's record. */
  lemma {:induction false} RowLinesRecordAt(fieldnames: seq<string>, rows: seq<Row>, i: nat)
    requires i < |RowLines(fieldnames, rows).1|
    ensures RowLine(fieldnames, rows[i]) == Success(RowLines(fieldnames, rows).1[i])
    decreases i
  {
    var tail := rows[1..];
    var out := RowLines(fieldnames, rows).1;
    assert out == [RowLine(fieldnames, rows[0]).value] + RowLines(fieldnames, tail).1;
    if i > 0 {
      RowLinesRecordAt(fieldnames, tail, i - 1);
      assert out[i] == RowLines(fieldnames, tail).1[i - 1] && rows[i] == tail[i - 1];
    }
  }

  /** Each line written is its row's record. */
  lemma RowLinesRecords(fieldnames: seq<string>, rows: seq<Row>)
    ensures var r := RowLines(fieldnames, rows);
      forall i :: 0 <= i < |r.1| ==> RowLine(fieldnames, rows[i]) == Success(r.1[i])
  {
    forall i | 0 <= i < |RowLines(fieldnames, rows).1| ensures RowLine(fieldnames, rows[i]) == Success(RowLines(fieldnames, rows).1[i]) {
      RowLinesRecordAt(fieldnames, rows, i);
    }
  }

  /** A failure is the error of the first row that raises; nothing is
      written for it or after it. */
  lemma {:induction false} RowLinesStopsAtFirstError(fieldnames: seq<string>, rows: seq<Row>)
    ensures var r := RowLines(fieldnames, rows);
      r.0.Failure? ==>
        |r.1| < |rows| && RowLine(fieldnames, rows[|r.1|]).Failure? && r.0.error == RowLine(fieldnames, rows[|r.1|]).error
  {
    if rows != [] && RowLine(fieldnames, rows[0]).Success? {
      RowLinesStopsAtFirstError(fieldnames, rows[1..]);
      var rest := RowLines(fieldnames, rows[1..]);
      if rest.0.Failure? {
        assert |RowLines(fieldnames, rows).1| == |rest.1| + 1;
        assert rows[|rest.1| + 1] == rows[1..][|rest.1|];
      }
    }
  }

  /** What `path` holds after `write_csv` with some rows: the old lines when
      appending, a header (the first row's keys) on a new file or in
      overwrite mode, then the rows written. */
  function CsvFileLines(files: Files, path: string, rows: seq<Row>, append: bool): seq<Line>
    requires rows != []
  {
    var fieldnames := Keys(rows[0]);
    (if append then Existing(files, path) else [])
    + (if path !in files || !append then [Header(fieldnames)] else [])
    + RowLines(fieldnames, rows).1
  }

  /** `write_csv(path, rows, append)` on the file system. */
  function WriteCsvSpec(files: Files, path: string, rows: seq<Row>, append: bool): (Result<()>, Files) {
    if rows == [] then (Success(()), files)
    else (RowLines(Keys(rows[0]), rows).0, files[path := CsvFileLines(files, path, rows, append)])
  }

  /** `writer.writerows(rows)` on the open file `path`. */
  method WriteRows(fs: FileSystem, path: string, fieldnames: seq<string>, rows: seq<Row>) returns (r: Result<()>)
    modifies fs
    ensures r == RowLines(fieldnames, rows).0
    ensures fs.files == old(fs.files)[path := Existing(old(fs.files), path) + RowLines(fieldnames, rows).1]
  {
    var written := RowLines(fieldnames, rows);
    fs.Append(path, written.1);
    r := written.0;
  }

  /** The file opened in mode "a" or "w", and the header written on a new
      file or in overwrite mode. */
  method OpenCsv(fs: FileSystem, path: string, fieldnames: seq<string>, append: bool)
    modifies fs
    ensures fs.files == old(fs.files)[path := (if append then Existing(old(fs.files), path) else [])
                                             + (if path !in old(fs.files) || !append then [Header(fieldnames)] else [])]
  {
    var isNewFile := path !in fs.files;
    ghost var kept := if append then Existing(fs.files, path) else [];
    fs.Open(path, append);
    if isNewFile || !append {
      fs.Append(path, [Header(fieldnames)]);
    } else {
      assert kept + [] == kept;
    }
  }

  /** `write_csv`: no rows, no file operation; otherwise the file is opened
      to append or truncated, the header written on a new file or in
      overwrite mode, then the rows. */
  method WriteCsv(fs: FileSystem, path: string, rows: seq<Row>, append: bool) returns (r: Result<()>)
    modifies fs
    ensures (r, fs.files) == WriteCsvSpec(old(fs.files), path, rows, append)
  {
    if rows == [] {
      return Success(());
    }
    ghost var files0 := fs.files;
    var fieldnames := Keys(rows[0]);
    OpenCsv(fs, path, fieldnames, append);
    ghost var start := fs.files[path];
    assert Existing(fs.files, path) == start;
    r := WriteRows(fs, path, fieldnames, rows);
    WriteCsvSteps(files0, path, rows, append, fieldnames, start, RowLines(fieldnames, rows), fs.files);
  }

  /** Opening, the header, then the rows: the file `write_csv` leaves. */
  lemma WriteCsvSteps(files0: Files, path: string, rows: seq<Row>, append: bool, fieldnames: seq<string>,
                      start: seq<Line>, written: (Result<()>, seq<Line>), files: Files)
    requires rows != [] && fieldnames == Keys(rows[0]) && written == RowLines(fieldnames, rows)
    requires start == (if append then Existing(files0, path) else [])
                      + (if path !in files0 || !append then [Header(fieldnames)] else [])
    requires files == files0[path := start][path := start + written.1]
    ensures WriteCsvSpec(files0, path, rows, append) == (written.0, files)
  {
    UpdateTwice(files0, path, start, start + written.1);
    assert CsvFileLines(files0, path, rows, append) == start + written.1;
  }

  function HeaderCount(lines: seq<Line>): nat {
    if lines == [] then 0 else (if lines[0].Header? then 1 else 0) + HeaderCount(lines[1..])
  }

  lemma {:induction false} HeaderCountOfConcat(a: seq<Line>, b: seq<Line>)
    ensures HeaderCount(a + b) == HeaderCount(a) + HeaderCount(b)
  {
    if a == [] {
      assert a + b == b;
    } else {
      assert (a + b)[0] == a[0];
      assert (a + b)[1..] == a[1..] + b;
      HeaderCountOfConcat(a[1..], b);
    }
  }

  /** Rows are never written as headers. */
  lemma {:induction false} NoHeaderAmongRows(fieldnames: seq<string>, rows: seq<Row>)
    ensures HeaderCount(RowLines(fieldnames, rows).1) == 0
  {
    if rows != [] && RowLine(fieldnames, rows[0]).Success? {
      NoHeaderAmongRows(fieldnames, rows[1..]);
      var rest := RowLines(fieldnames, rows[1..]).1;
      assert ([RowLine(fieldnames, rows[0]).value] + rest)[1..] == rest;
    }
  }

  /** An empty row list leaves the file system as it was. */
  lemma WriteCsvNoRows(files: Files, path: string, append: bool)
    ensures WriteCsvSpec(files, path, [], append) == (Success(()), files)
  {
  }

  /** Only `path` is written: every other file keeps its lines. */
  lemma WriteCsvOnlyPath(files: Files, path: string, rows: seq<Row>, append: bool)
    requires rows != []
    ensures WriteCsvSpec(files, path, rows, append).1.Keys == files.Keys + {path}
    ensures forall q :: q in files && q != path ==> WriteCsvSpec(files, path, rows, append).1[q] == files[q]
  {
  }

  /** Appending to an existing file keeps its lines and adds no header. */
  lemma WriteCsvAppendKeeps(files: Files, path: string, rows: seq<Row>)
    requires rows != [] && path in files
    ensures CsvFileLines(files, path, rows, true) == files[path] + RowLines(Keys(rows[0]), rows).1
    ensures HeaderCount(CsvFileLines(files, path, rows, true)) == HeaderCount(files[path])
  {
    var lines := RowLines(Keys(rows[0]), rows).1;
    assert CsvFileLines(files, path, rows, true) == files[path] + lines;
    NoHeaderAmongRows(Keys(rows[0]), rows);
    HeaderCountOfConcat(files[path], lines);
  }

  /** A new file, or any file in overwrite mode, starts with the one header. */
  lemma WriteCsvFreshHeader(files: Files, path: string, rows: seq<Row>, append: bool)
    requires rows != [] && (path !in files || !append)
    ensures CsvFileLines(files, path, rows, append) == [Header(Keys(rows[0]))] + RowLines(Keys(rows[0]), rows).1
    ensures HeaderCount(CsvFileLines(files, path, rows, append)) == 1
  {
    var fieldnames := Keys(rows[0]);
    var lines := RowLines(fieldnames, rows).1;
    assert CsvFileLines(files, path, rows, append) == [Header(fieldnames)] + lines by {
      assert (if append then Existing(files, path) else []) == [];
      assert (if path !in files || !append then [Header(fieldnames)] else []) == [Header(fieldnames)];
    }
    NoHeaderAmongRows(fieldnames, rows);
    HeaderFirst(fieldnames, lines);
  }

  /** One header in front of lines that hold none. */
  lemma HeaderFirst(fieldnames: seq<string>, lines: seq<Line>)
    requires HeaderCount(lines) == 0
    ensures HeaderCount([Header(fieldnames)] + lines) == 1
  {
    HeaderCountOfConcat([Header(fieldnames)], lines);
    assert [Header(fieldnames)][1..] == [];
  }

  /** Running a report in overwrite mode and then adding a section in append
      mode leaves one header at the top, then both sets of rows in order. */
  lemma OverwriteThenAppend(files: Files, path: string, first: seq<Row>, second: seq<Row>)
    requires first != [] && second != []
    ensures var out := WriteCsvSpec(WriteCsvSpec(files, path, first, false).1, path, second, true).1;
      && out[path] == [Header(Keys(first[0]))] + RowLines(Keys(first[0]), first).1 + RowLines(Keys(second[0]), second).1
      && HeaderCount(out[path]) == 1
  {
    var f1 := WriteCsvSpec(files, path, first, false).1;
    WriteCsvFreshHeader(files, path, first, false);
    assert f1[path] == CsvFileLines(files, path, first, false);
    WriteCsvAppendKeeps(f1, path, second);
    assert WriteCsvSpec(f1, path, second, true).1[path] == CsvFileLines(f1, path, second, true);
  }

  /** `csv.DictReader` over lines in the model's form: the header names
      paired with each record's cells. None for lines it does not cover. */
  function ReadCsv(lines: seq<Line>): Option<seq<Row>> {
    if lines == [] then Some([])
    else if !lines[0].Header? then None
    else ReadRecords(lines[0].names, lines[1..])
  }

  /** The row DictReader makes of one record. */
  function RecordRow(names: seq<string>, cells: seq<Value>): (row: Row)
    requires |cells| == |names|
    ensures Keys(row) == names
  {
    seq(|names|, i requires 0 <= i < |names| => Field(names[i], cells[i]))
  }

  function ReadRecords(names: seq<string>, lines: seq<Line>): (r: Option<seq<Row>>)
    ensures r.Some? ==> |r.value| == |lines|
  {
    if lines == [] then Some([])
    else if !lines[0].Record? || |lines[0].cells| != |names| then None
    else
      match ReadRecords(names, lines[1..])
      case None => None
      case Some(rest) => Some([RecordRow(names, lines[0].cells)] + rest)
  }

  /** A row whose keys are exactly the field names comes back from its record. */
  lemma RecordReadsBack(fieldnames: seq<string>, row: Row)
    requires Keys(row) == fieldnames && DistinctKeys(row)
    ensures RowLine(fieldnames, row).Success?
    ensures RecordRow(fieldnames, RowLine(fieldnames, row).value.cells) == row
  {
    var back := RecordRow(fieldnames, RowLine(fieldnames, row).value.cells);
    forall i | 0 <= i < |fieldnames|
      ensures back[i] == row[i]
    {
      LookupAt(row, i);
    }
  }

  lemma {:induction false} RecordsReadBack(fieldnames: seq<string>, rows: seq<Row>)
    requires forall r :: r in rows ==> Keys(r) == fieldnames && DistinctKeys(r)
    ensures RowLines(fieldnames, rows).0.Success?
    ensures ReadRecords(fieldnames, RowLines(fieldnames, rows).1) == Some(rows)
  {
    if rows != [] {
      RecordReadsBack(fieldnames, rows[0]);
      RecordsReadBack(fieldnames, rows[1..]);
      var line := RowLine(fieldnames, rows[0]).value;
      var rest := RowLines(fieldnames, rows[1..]).1;
      var lines := RowLines(fieldnames, rows).1;
      assert lines == [line] + rest;
      assert lines[0] == line && lines[1..] == rest;
      assert [rows[0]] + rows[1..] == rows;
    }
  }

  /** Round trip: a file written in overwrite mode reads back as the rows
      written, when every row has the first row's keys. */
  lemma WriteCsvReadCsv(files: Files, path: string, rows: seq<Row>)
    requires rows != []
    requires forall r :: r in rows ==> Keys(r) == Keys(rows[0]) && DistinctKeys(r)
    ensures WriteCsvSpec(files, path, rows, false).0.Success?
    ensures ReadCsv(WriteCsvSpec(files, path, rows, false).1[path]) == Some(rows)
  {
    RecordsReadBack(Keys(rows[0]), rows);
    var lines := RowLines(Keys(rows[0]), rows).1;
    assert CsvFileLines(files, path, rows, false) == [Header(Keys(rows[0]))] + lines;
    assert ([Header(Keys(rows[0]))] + lines)[1..] == lines;
  }

  // ---------------------------------------------------------------------
  // Command-line variables (`process_variables`, `process_args`)
  // ---------------------------------------------------------------------

  /** `zip(args[::2], args[1::2])`. */
  function Pairs(args: seq<string>): (ps: seq<(string, string)>)
    requires |args| % 2 == 0
    ensures |ps| == |args| / 2
    ensures forall i :: 0 <= i < |ps| ==> ps[i] == (args[2 * i], args[2 * i + 1])
  {
    if args == [] then []
    else
      var rest := Pairs(args[2..]);
      assert forall i :: 0 <= i < |rest| ==> rest[i] == (args[2 * (i + 1)], args[2 * (i + 1) + 1]);
      [(args[0], args[1])] + rest
  }

  /** `dict(pairs)`: every key given, each with the value of its last pair. */
  function ToDict(ps: seq<(string, string)>): (m: map<string, string>)
    ensures m.Keys == set p | p in ps :: p.0
  {
    if ps == [] then map[]
    else
      var init := ps[..|ps| - 1];
      var last := ps[|ps| - 1];
      assert ps == init + [last];
      ToDict(init)[last.0 := last.1]
  }

  /** A pair whose key comes in no later pair gives that key's value. */
  lemma {:induction false} ToDictLastPair(ps: seq<(string, string)>, i: nat)
    requires i < |ps| && forall j :: i < j < |ps| ==> ps[j].0 != ps[i].0
    ensures ps[i].0 in ToDict(ps) && ToDict(ps)[ps[i].0] == ps[i].1
  {
    var init := ps[..|ps| - 1];
    if i < |ps| - 1 {
      assert init[i] == ps[i];
      forall j | i < j < |init| ensures init[j].0 != init[i].0 {
        assert init[j] == ps[j];
      }
      ToDictLastPair(init, i);
    }
  }

  /** The key/value mapping the arguments spell, before the renames. */
  function Given(args: seq<string>): map<string, string>
    requires |args| % 2 == 0
  {
    ToDict(Pairs(args))
  }

  /** `variables.pop(key, None)`, as the popped value. */
  function Popped(m: map<string, string>, key: string): Option<string> {
    if key in m then Some(m[key]) else None
  }

  /** Every given value, as text. */
  function AsText(g: map<string, string>): (v: Vars)
    ensures v.Keys == g.Keys
    ensures forall k :: k in g ==> v[k] == Str(g[k])
  {
    map k | k in g :: Str(g[k])
  }

  /** `start` is removed; when it is truthy, `since` becomes its git
      timestamp (and strptime may raise). */
  function RenameStart(v: Vars, start: Option<string>): (r: Result<Vars>)
    ensures r.Success? <==> !Truthy(start) || Time.ParseDate(start.value).Some?
    ensures r.Failure? ==> Truthy(start) && r.error == BadDate(start.value)
    ensures r.Success? ==> "start" !in r.value
    ensures r.Success? ==> forall k :: k != "start" && k != "since" ==>
      (k in r.value <==> k in v) && (k in v ==> r.value[k] == v[k])
    ensures r.Success? && Truthy(start) ==> "since" in r.value && r.value["since"] == Str(start.value + Time.MIDNIGHT)
    ensures r.Success? && !Truthy(start) ==>
      ("since" in r.value <==> "since" in v) && ("since" in v ==> r.value["since"] == v["since"])
  {
    var rest := v - {"start"};
    if Truthy(start) then
      var since :- Time.AsGitTimestamp(start.value);
      Success(rest["since" := Str(since)])
    else Success(rest)
  }

  /** `isFork` is removed; when it is truthy, it comes back as a boolean. */
  function RenameFork(v: Vars, isFork: Option<string>, parseBool: string -> bool): (r: Vars)
    ensures forall k :: k != "isFork" ==> (k in r <==> k in v) && (k in v ==> r[k] == v[k])
    ensures "isFork" in r <==> Truthy(isFork)
    ensures Truthy(isFork) ==> r["isFork"] == Bool(parseBool(isFork.value))
  {
    var rest := v - {"isFork"};
    if Truthy(isFork) then rest["isFork" := Bool(parseBool(isFork.value))] else rest
  }

  /** `process_variables(args)`; `parseBool` stands for `text.parse_bool`. */
  function ProcessVariables(args: seq<string>, parseBool: string -> bool): (r: Result<Vars>)
    ensures args == [] ==> r == Success(map[])
    ensures |args| % 2 == 1 ==> r == Failure(OddArguments(args))
    ensures args != [] && |args| % 2 == 0 ==> match RenameStart(AsText(Given(args)), Popped(Given(args), "start"))
      case Failure(e) => r == Failure(e)
      case Success(v) => r == Success(RenameFork(v, Popped(Given(args), "isFork"), parseBool))
  {
    if args == [] then Success(map[])
    else if |args| % 2 == 1 then Failure(OddArguments(args))
    else
      var g := Given(args);
      var withSince :- RenameStart(AsText(g), Popped(g, "start"));
      Success(RenameFork(withSince, Popped(g, "isFork"), parseBool))
  }

  /** What `process_variables` makes of well-paired arguments: every other
      key keeps its text; a truthy `start` becomes `since` as a git
      timestamp (overriding any `since` given) or raises; a truthy `isFork`
      becomes a boolean and a falsy one is dropped. */
  lemma ProcessVariablesResult(args: seq<string>, parseBool: string -> bool)
    requires args != [] && |args| % 2 == 0
    ensures var g := Given(args); var r := ProcessVariables(args, parseBool);
      && (r.Success? <==> !Truthy(Popped(g, "start")) || Time.ParseDate(g["start"]).Some?)
      && (r.Failure? ==> r == Failure(BadDate(g["start"])))
      && (r.Success? ==>
        && "start" !in r.value
        && (forall k :: k != "start" && k != "since" && k != "isFork" ==>
              (k in r.value <==> k in g) && (k in g ==> r.value[k] == Str(g[k])))
        && (Truthy(Popped(g, "start")) ==> "since" in r.value && r.value["since"] == Str(g["start"] + Time.MIDNIGHT))
        && (!Truthy(Popped(g, "start")) ==>
              ("since" in r.value <==> "since" in g) && ("since" in g ==> r.value["since"] == Str(g["since"])))
        && ("isFork" in r.value <==> Truthy(Popped(g, "isFork")))
        && ("isFork" in r.value ==> r.value["isFork"] == Bool(parseBool(g["isFork"]))))
  {
  }

  /** The last value given for a key wins. */
  lemma LastValueWins(args: seq<string>, i: nat)
    requires |args| % 2 == 0 && i < |args| / 2
    requires forall j :: i < j < |args| / 2 ==> args[2 * j] != args[2 * i]
    ensures args[2 * i] in Given(args) && Given(args)[args[2 * i]] == args[2 * i + 1]
  {
    var ps := Pairs(args);
    assert ps[i] == (args[2 * i], args[2 * i + 1]);
    forall j | i < j < |ps| ensures ps[j].0 != ps[i].0 {
      assert ps[j].0 == args[2 * j];
    }
    ToDictLastPair(ps, i);
  }

  /** `process_args(args)`: the query path first, then the variables; an
      empty list raises IndexError. */
  function ProcessArgs(args: seq<string>, parseBool: string -> bool): (r: Result<(string, Vars)>)
    ensures args == [] ==> r == Failure(MissingArgument)
    ensures args != [] ==> match ProcessVariables(args[1..], parseBool)
      case Success(v) => r == Success((args[0], v))
      case Failure(e) => r == Failure(e)
  {
    if args == [] then Failure(MissingArgument)
    else
      var variables :- ProcessVariables(args[1..], parseBool);
      Success((args[0], variables))
  }

  // ---------------------------------------------------------------------
  // `to_archive_url`
  // ---------------------------------------------------------------------

  const ARCHIVE_HOST := "https://github.com/"

  /** The download URL of a branch's zip archive. */
  function ToArchiveUrl(owner: string, repoName: string, branch: string): (url: string)
    ensures |url| == |ARCHIVE_HOST| + |owner| + 1 + |repoName| + 9 + |branch| + 4
    ensures url[..|ARCHIVE_HOST|] == ARCHIVE_HOST
    ensures url[|ARCHIVE_HOST|..|ARCHIVE_HOST| + |owner|] == owner
    ensures url[|ARCHIVE_HOST| + |owner|..|ARCHIVE_HOST| + |owner| + 1 + |repoName| + 9] == "/" + repoName + "/archive/"
    ensures url[|url| - 4..] == ".zip"
    ensures url[|url| - 4 - |branch|..|url| - 4] == branch
  {
    ARCHIVE_HOST + owner + "/" + repoName + "/archive/" + branch + ".zip"
  }

  /** Given how long the owner and the repository name are, the URL names
      one owner, one repository and one branch. */
  lemma ArchiveUrlDeterminesParts(owner: string, repoName: string, branch: string,
                                  owner': string, repoName': string, branch': string)
    requires |owner| == |owner'| && |repoName| == |repoName'|
    requires ToArchiveUrl(owner, repoName, branch) == ToArchiveUrl(owner', repoName', branch')
    ensures owner == owner' && repoName == repoName' && branch == branch'
  {
    var segment := "/" + repoName + "/archive/";
    var segment' := "/" + repoName' + "/archive/";
    assert segment == segment';
    assert repoName == segment[1..1 + |repoName|];
    assert repoName' == segment'[1..1 + |repoName'|];
  }
}

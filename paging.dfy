/** The cursor-following loop shared by the report scripts: fetch a page,
    turn it into rows, and, while the page says there is more, send the
    same query again with `cursor` set to where the page ended (the
    `pageInfo` of section 5 of the GraphQL Cursor Connections
    specification).

    The loop has no cap of its own; it ends because every page needs a
    reply from the finite transport script, so termination here comes from
    the model, not from the code. */
module Paging {
  import opened Common
  import opened Rows
  import opened Lib

  /** `pageInfo`: whether another page follows, and the cursor of this
      page's last item (null on an empty page). */
  datatype PageInfo = PageInfo(hasNextPage: bool, endCursor: Option<string>)

  /** What one page contributes: its rows in API order, and the cursor to
      continue from (None: this was the last page). */
  datatype Page = Page(rows: seq<Row>, next: Option<Value>)

  /** A round that produced a page: the variables sent, the data received,
      and the page made of it. */
  datatype Round<D> = Round(vars: Vars, data: D, page: Page)

  /** How a run of the loop ended: its result, the world after it, the
      variables as they were left, and every round that produced a page. */
  datatype Paged<D> = Paged(result: Result<seq<Row>>, world: World<D>, vars: Vars, rounds: seq<Round<D>>)

  /** The rows of all rounds, in order. */
  function RowsOf<D>(rounds: seq<Round<D>>): seq<Row> {
    if rounds == [] then [] else RowsOf(rounds[..|rounds| - 1]) + rounds[|rounds| - 1].page.rows
  }

  /** The variables of the next request: the caller's mapping first, then
      the previous request's with `cursor` set to the page's end. */
  function NextVars<D>(vars0: Vars, done: seq<Round<D>>): Vars
    requires done != [] ==> done[|done| - 1].page.next.Some?
  {
    if done == [] then vars0
    else done[|done| - 1].vars["cursor" := done[|done| - 1].page.next.value]
  }

  /** Every request after the first sends the previous request's variables
      with `cursor` set to the previous page's end. */
  predicate Chained<D>(vars0: Vars, rounds: seq<Round<D>>) {
    && (rounds != [] ==> rounds[0].vars == vars0)
    && (forall i :: 0 <= i < |rounds| - 1 ==>
          rounds[i].page.next.Some? && rounds[i + 1].vars == rounds[i].vars["cursor" := rounds[i].page.next.value])
  }

  /** The `cursor` of every request after the first is the previous page's end. */
  ghost predicate CursorsFollow<D>(rounds: seq<Round<D>>) {
    forall i, j :: 0 <= i < j < |rounds| && j == i + 1 ==>
      rounds[i].page.next.Some? && "cursor" in rounds[j].vars && rounds[j].vars["cursor"] == rounds[i].page.next.value
  }

  /** Rounds that ask for another page. */
  predicate AllContinue<D>(rounds: seq<Round<D>>) {
    forall i :: 0 <= i < |rounds| ==> rounds[i].page.next.Some?
  }

  lemma ChainedExtend<D>(vars0: Vars, done: seq<Round<D>>, round: Round<D>)
    requires Chained(vars0, done) && AllContinue(done)
    requires round.vars == NextVars(vars0, done)
    ensures Chained(vars0, done + [round])
  {
    var rs := done + [round];
    forall i | 0 <= i < |rs| - 1
      ensures rs[i].page.next.Some? && rs[i + 1].vars == rs[i].vars["cursor" := rs[i].page.next.value]
    {
      assert rs[i] == done[i];
      if i + 1 < |done| {
        assert rs[i + 1] == done[i + 1];
      }
    }
  }

  lemma RowsOfExtend<D>(done: seq<Round<D>>, round: Round<D>)
    ensures RowsOf(done + [round]) == RowsOf(done) + round.page.rows
  {
    assert (done + [round])[..|done|] == done;
  }

  /** The loop from the round after `done` on. */
  function Paginate<D>(w: World<D>, query: string, vars0: Vars, step: D -> Result<Page>, done: seq<Round<D>>): (r: Paged<D>)
    requires Chained(vars0, done) && AllContinue(done)
    decreases |w.script|
    ensures |r.rounds| >= |done| && r.rounds[..|done|] == done
    ensures |r.world.script| <= |w.script|
  {
    var vars := NextVars(vars0, done);
    var fetched := Fetch(w, Payload(query, vars));
    if fetched.0.Failure? then Paged(Failure(fetched.0.error), fetched.1, vars, done)
    else
      var data := fetched.0.value;
      match step(data)
      case Failure(e) => Paged(Failure(e), fetched.1, vars, done)
      case Success(page) =>
        var done' := done + [Round(vars, data, page)];
        ChainedExtend(vars0, done, Round(vars, data, page));
        assert done'[..|done|] == done;
        if page.next.None? then Paged(Success(RowsOf(done')), fetched.1, vars, done')
        else
          var r := Paginate(fetched.1, query, vars0, step, done');
          assert r.rounds[..|done|] == r.rounds[..|done'|][..|done|];
          r
  }

  /** A request that fails ends the run with its error. */
  lemma PaginateFetchFails<D>(w: World<D>, query: string, vars0: Vars, step: D -> Result<Page>, done: seq<Round<D>>)
    requires Chained(vars0, done) && AllContinue(done)
    requires Fetch(w, Payload(query, NextVars(vars0, done))).0.Failure?
    ensures var fetched := Fetch(w, Payload(query, NextVars(vars0, done)));
      Paginate(w, query, vars0, step, done) == Paged(Failure(fetched.0.error), fetched.1, NextVars(vars0, done), done)
  {
  }

  /** A reply the step rejects ends the run with the step's error. */
  lemma PaginateStepFails<D>(w: World<D>, query: string, vars0: Vars, step: D -> Result<Page>, done: seq<Round<D>>)
    requires Chained(vars0, done) && AllContinue(done)
    requires var fetched := Fetch(w, Payload(query, NextVars(vars0, done)));
      fetched.0.Success? && step(fetched.0.value).Failure?
    ensures var fetched := Fetch(w, Payload(query, NextVars(vars0, done)));
      Paginate(w, query, vars0, step, done) == Paged(Failure(step(fetched.0.value).error), fetched.1, NextVars(vars0, done), done)
  {
  }

  /** A page without a next cursor ends the run with every round's rows. */
  lemma PaginateStops<D>(w: World<D>, query: string, vars0: Vars, step: D -> Result<Page>, done: seq<Round<D>>, round: Round<D>)
    requires Chained(vars0, done) && AllContinue(done)
    requires round.vars == NextVars(vars0, done) && Fetch(w, Payload(query, round.vars)).0 == Success(round.data)
    requires step(round.data) == Success(round.page) && round.page.next.None?
    ensures Paginate(w, query, vars0, step, done) ==
      Paged(Success(RowsOf(done + [round])), Fetch(w, Payload(query, round.vars)).1, round.vars, done + [round])
  {
  }

  /** A page with a next cursor hands the world on to the next round. */
  lemma PaginateContinues<D>(w: World<D>, query: string, vars0: Vars, step: D -> Result<Page>, done: seq<Round<D>>, round: Round<D>)
    requires Chained(vars0, done) && AllContinue(done)
    requires round.vars == NextVars(vars0, done) && Fetch(w, Payload(query, round.vars)).0 == Success(round.data)
    requires step(round.data) == Success(round.page) && round.page.next.Some?
    ensures Chained(vars0, done + [round]) && AllContinue(done + [round])
    ensures Paginate(w, query, vars0, step, done) == Paginate(Fetch(w, Payload(query, round.vars)).1, query, vars0, step, done + [round])
  {
    ChainedExtend(vars0, done, round);
  }

  /** What a run from `done` on guarantees: the requests are chained by
      cursor, each new round's page is the step of its data, a success ends
      on a page without a next cursor and returns all rows in order, and a
      failure leaves the variables of the request that failed. */
  ghost predicate Ran<D>(r: Paged<D>, vars0: Vars, step: D -> Result<Page>, done: seq<Round<D>>) {
    && |r.rounds| >= |done|
    && Chained(vars0, r.rounds)
    && (forall i :: |done| <= i < |r.rounds| ==> step(r.rounds[i].data) == Success(r.rounds[i].page))
    && (r.result.Success? ==>
          && |r.rounds| > |done|
          && r.rounds[|r.rounds| - 1].page.next.None?
          && r.vars == r.rounds[|r.rounds| - 1].vars
          && r.result.value == RowsOf(r.rounds))
    && (r.result.Failure? ==> AllContinue(r.rounds) && r.vars == NextVars(vars0, r.rounds))
  }

  lemma {:induction false} PaginateRuns<D>(w: World<D>, query: string, vars0: Vars, step: D -> Result<Page>, done: seq<Round<D>>)
    requires Chained(vars0, done) && AllContinue(done)
    ensures Ran(Paginate(w, query, vars0, step, done), vars0, step, done)
    decreases |w.script|
  {
    var vars := NextVars(vars0, done);
    var fetched := Fetch(w, Payload(query, vars));
    if fetched.0.Failure? {
      PaginateFetchFails(w, query, vars0, step, done);
    } else if step(fetched.0.value).Failure? {
      PaginateStepFails(w, query, vars0, step, done);
    } else {
      var round := Round(vars, fetched.0.value, step(fetched.0.value).value);
      ChainedExtend(vars0, done, round);
      if round.page.next.Some? {
        PaginateContinues(w, query, vars0, step, done, round);
        PaginateRuns(fetched.1, query, vars0, step, done + [round]);
        RanBefore(Paginate(fetched.1, query, vars0, step, done + [round]), vars0, step, done, round);
      } else {
        PaginateStops(w, query, vars0, step, done, round);
        LastRoundRan(fetched.1, vars0, step, done, round);
      }
    }
  }

  /** A run that stops at `round`, whose page has no next cursor. */
  lemma LastRoundRan<D>(w: World<D>, vars0: Vars, step: D -> Result<Page>, done: seq<Round<D>>, round: Round<D>)
    requires AllContinue(done) && Chained(vars0, done + [round]) && round.vars == NextVars(vars0, done)
    requires step(round.data) == Success(round.page) && round.page.next.None?
    ensures Ran(Paged(Success(RowsOf(done + [round])), w, round.vars, done + [round]), vars0, step, done)
  {
    var rs := done + [round];
    assert rs[|rs| - 1] == round;
    forall i | |done| <= i < |rs| ensures step(rs[i].data) == Success(rs[i].page) {
      assert i == |done|;
    }
  }

  /** What holds from `done + [round]` on also holds from `done` on. */
  lemma RanBefore<D>(r: Paged<D>, vars0: Vars, step: D -> Result<Page>, done: seq<Round<D>>, round: Round<D>)
    requires Ran(r, vars0, step, done + [round]) && step(round.data) == Success(round.page)
    requires |r.rounds| > |done| && r.rounds[|done|] == round
    ensures Ran(r, vars0, step, done)
  {
  }

  /** A whole run of the loop, from the caller's variables. */
  function PaginateAll<D>(w: World<D>, query: string, vars0: Vars, step: D -> Result<Page>): Paged<D> {
    Paginate(w, query, vars0, step, [])
  }

  /** The first request sends the caller's variables as given. */
  lemma FirstRequestAsGiven<D>(w: World<D>, query: string, vars0: Vars, step: D -> Result<Page>)
    ensures var r := PaginateAll(w, query, vars0, step);
      r.rounds != [] ==> r.rounds[0].vars == vars0
  {
    PaginateRuns(w, query, vars0, step, []);
  }

  /** Continuing and stopping: the run that succeeds stops at the first
      page without a next cursor, every earlier page had one, and each
      later request's `cursor` is the previous page's end. */
  lemma StopsAtFirstLastPage<D>(w: World<D>, query: string, vars0: Vars, step: D -> Result<Page>)
    ensures var r := PaginateAll(w, query, vars0, step);
      r.result.Success? ==>
        && r.rounds != []
        && r.rounds[|r.rounds| - 1].page.next.None?
        && (forall i :: 0 <= i < |r.rounds| - 1 ==> r.rounds[i].page.next.Some?)
        && CursorsFollow(r.rounds)
  {
    PaginateRuns(w, query, vars0, step, []);
    ChainedCursors(vars0, PaginateAll(w, query, vars0, step).rounds);
  }

  lemma ChainedCursors<D>(vars0: Vars, rounds: seq<Round<D>>)
    requires Chained(vars0, rounds)
    ensures CursorsFollow(rounds)
  {
    forall i, j | 0 <= i < j < |rounds| && j == i + 1
      ensures rounds[i].page.next.Some? && "cursor" in rounds[j].vars && rounds[j].vars["cursor"] == rounds[i].page.next.value
    {
      assert rounds[i + 1] == rounds[j];
    }
  }

  /** The rows are the pages' rows, concatenated in the order fetched. */
  lemma RowsArePagesInOrder<D>(w: World<D>, query: string, vars0: Vars, step: D -> Result<Page>)
    ensures var r := PaginateAll(w, query, vars0, step);
      r.result.Success? ==>
        && r.result.value == RowsOf(r.rounds)
        && (forall i :: 0 <= i < |r.rounds| ==> step(r.rounds[i].data) == Success(r.rounds[i].page))
  {
    PaginateRuns(w, query, vars0, step, []);
  }

  /** The sum of the pages' row counts. */
  function RowCount<D>(rounds: seq<Round<D>>): nat {
    if rounds == [] then 0 else RowCount(rounds[..|rounds| - 1]) + |rounds[|rounds| - 1].page.rows|
  }

  lemma {:induction false} RowsOfLength<D>(rounds: seq<Round<D>>)
    ensures |RowsOf(rounds)| == RowCount(rounds)
  {
    if rounds != [] {
      RowsOfLength(rounds[..|rounds| - 1]);
    }
  }
}

/** Values shared by every module: optional values, the exceptions the
    program raises, and a failure-compatible result type. */
module Common {

  datatype Option<T> = None | Some(value: T)

  /** One constructor per exception the modelled code can raise. */
  datatype Error =
    | Exit(code: int)                  // sys.exit after a "Bad credentials" reply
    | TransportFailure                 // the transport itself raised (not a ValueError)
    | QueryErrors(errors: seq<string>) // ValueError: the API reported errors
    | MissingData                      // ValueError: the reply has no data
    | BadDate(text: string)            // ValueError from strptime
    | OddArguments(args: seq<string>)  // ValueError: uneven key/value items
    | MissingArgument                  // IndexError: pop(0) on an empty list
    | EmptyName                        // IndexError: name[0] on an empty name
    | MissingFirstCommit               // IndexError: nodes[0] on an empty list
    | NullValue(key: string)           // TypeError/AttributeError: a null object was used
    | MissingKey(key: string)          // KeyError
    | ExtraFields(keys: seq<string>)   // ValueError from csv.DictWriter

  /** Storing twice under one key keeps the second value only. */
  lemma UpdateTwice<K, V>(m: map<K, V>, k: K, a: V, b: V)
    ensures m[k := a][k := b] == m[k := b]
  {
  }

  lemma ConcatAssoc<T>(a: seq<T>, b: seq<T>, c: seq<T>)
    ensures (a + b) + c == a + (b + c)
  {
  }

  /** The two ValueError causes that `fetch_github_data` catches and retries. */
  predicate Retryable(e: Error) {
    e.QueryErrors? || e.MissingData?
  }

  datatype Result<T> = Success(value: T) | Failure(error: Error) {
    predicate IsFailure() { Failure? }
    function PropagateFailure<U>(): Result<U>
      requires Failure?
    {
      Failure(error)
    }
    function Extract(): T
      requires Success?
    {
      value
    }
  }

  /** Python truthiness of an optional string: None and "" are false. */
  predicate Truthy(s: Option<string>) {
    s.Some? && s.value != ""
  }

  /** `[f(x) for x in xs]` where every call may raise: all results in
      order, or the error of the first call that fails. */
  function MapResult<A, B>(xs: seq<A>, f: A -> Result<B>): (r: Result<seq<B>>)
    ensures r.Success? <==> forall i :: 0 <= i < |xs| ==> f(xs[i]).Success?
    ensures r.Success? ==> |r.value| == |xs|
    ensures r.Success? ==> forall i :: 0 <= i < |xs| ==> r.value[i] == f(xs[i]).value
  {
    if xs == [] then Success([])
    else
      var init := xs[..|xs| - 1];
      assert forall i :: 0 <= i < |init| ==> init[i] == xs[i];
      var ys :- MapResult(init, f);
      var y :- f(xs[|xs| - 1]);
      Success(ys + [y])
  }

  /** The first call that fails decides the error. */
  lemma {:induction false} MapResultFailsAt<A, B>(xs: seq<A>, f: A -> Result<B>, k: nat)
    requires k < |xs| && f(xs[k]).Failure?
    requires forall i :: 0 <= i < k ==> f(xs[i]).Success?
    ensures MapResult(xs, f) == Failure(f(xs[k]).error)
    decreases |xs|
  {
    var init := xs[..|xs| - 1];
    if k < |xs| - 1 {
      assert init[k] == xs[k];
      assert forall i :: 0 <= i < k ==> init[i] == xs[i];
      MapResultFailsAt(init, f, k);
    } else {
      assert forall i :: 0 <= i < |init| ==> init[i] == xs[i];
    }
  }

  /** The same, from the calls before `k` succeeding together. */
  lemma MapResultStopsAt<A, B>(xs: seq<A>, f: A -> Result<B>, k: nat)
    requires k < |xs| && MapResult(xs[..k], f).Success? && f(xs[k]).Failure?
    ensures MapResult(xs, f) == Failure(f(xs[k]).error)
  {
    forall i | 0 <= i < k ensures f(xs[i]).Success? {
      assert xs[..k][i] == xs[i];
    }
    MapResultFailsAt(xs, f, k);
  }

  /** One more element maps to one more result at the end. */
  lemma MapResultSnoc<A, B>(xs: seq<A>, f: A -> Result<B>, k: nat)
    requires k < |xs| && MapResult(xs[..k], f).Success? && f(xs[k]).Success?
    ensures MapResult(xs[..k + 1], f) == Success(MapResult(xs[..k], f).value + [f(xs[k]).value])
  {
    assert xs[..k + 1][..|xs[..k + 1]| - 1] == xs[..k];
  }
}

/** Values shared by the two open-data pipelines: decoded JSON, the services'
    result envelope, what one request returns, how a collection run ends, the
    standard station record and the arguments handed to the station store. */
module OpenApi {

  datatype Option<+T> = None | Some(value: T)

  /** A JSON value as encoding/json decodes it into `interface{}`.  JSON numbers
      are float64 values there; they are modelled as reals. */
  datatype Json =
    | JNull
    | JBool(b: bool)
    | JNumber(n: real)
    | JString(s: string)
    | JArray(items: seq<Json>)
    | JObject(fields: map<string, Json>)

  /** The result code both services send with a response that was processed normally. */
  const SuccessCode: string := "INFO-000"

  datatype ResultCode = ResultCode(code: string, message: string)

  /** The failure envelope of a service, as the request helpers report it. */
  datatype ApiError = ApiError(result: ResultCode)

  /** What one request yields: the decoded success body (the zero body when the
      service sent a failure envelope) and the error, `None` standing for Go's
      zero `OpenAPIError{}`. */
  datatype Fetched<R> = Fetched(response: R, apiError: Option<ApiError>)

  /** How a collection run ends.
      - Done: the loop left through its stop condition; Go returns (rows, nil).
      - Failed: an error envelope was recognised; Go returns (rows, err).
      - Fault: the Go code panics (a failed type assertion, an index out of
        range or a decoding error).
      - Exhausted: the responses given to the model ran out while the loop
        would still issue requests. */
  datatype Outcome<T> =
    | Done(rows: seq<T>)
    | Failed(rows: seq<T>, error: ApiError)
    | Fault
    | Exhausted(rows: seq<T>)

  /** A collection run: its outcome and every request issued, in order, each as
      the pair of integers that select the rows (page index and page size, or
      start and end index). */
  datatype Run<T> = Run(outcome: Outcome<T>, requests: seq<(int, int)>)

  /** The run `r` preceded by the requests `issued`. */
  function Prepend<T>(issued: seq<(int, int)>, r: Run<T>): (p: Run<T>)
    ensures p.outcome == r.outcome && |p.requests| == |issued| + |r.requests|
    ensures p.requests[..|issued|] == issued && p.requests[|issued|..] == r.requests
  {
    Run(r.outcome, issued + r.requests)
  }

  /** Prepending in two steps is prepending the concatenation. */
  lemma PrependTwice<T>(a: seq<(int, int)>, b: seq<(int, int)>, r: Run<T>)
    ensures Prepend(a, Prepend(b, r)) == Prepend(a + b, r)
  {
    assert a + (b + r.requests) == (a + b) + r.requests;
  }

  /** The unified record both pipelines produce (store.StandardBusStation). */
  datatype StandardBusStation = StandardBusStation(
    StationName: string,
    StationId: string,
    ArsId: string,
    Latitude: real,
    Longitude: real)

  /** One argument of the store's CreateBusStations operation. */
  datatype StoreValue = TextArg(text: string) | NumberArg(number: real)

  datatype StoreError = StoreError(message: string)

  /** The station store, seen from the caller: given the calls made so far,
      the last one being the current call, the error that call returns (None
      for nil).  Letting the answer depend on the earlier calls covers a store
      whose state changes as rows are written. */
  type Store = seq<seq<StoreValue>> -> Option<StoreError>

  /** What an insertion loop promises when it writes `rows` one call per row:
      the calls made are the rows in order up to the first call the store
      refuses, that call included; every call before it was accepted; the
      error returned is that call's error, and there is none exactly when
      every row was written and accepted. */
  predicate StoredInOrder(rows: seq<seq<StoreValue>>, store: Store,
                          calls: seq<seq<StoreValue>>, err: Option<StoreError>)
  {
    && |calls| <= |rows| && calls == rows[..|calls|]
    && (forall n :: 1 <= n < |calls| ==> store(rows[..n]).None?)
    && (err.None? <==> |calls| == |rows| && (rows == [] || store(rows).None?))
    && (err.Some? ==> |calls| >= 1 && err == store(rows[..|calls|]))
  }

  /** StoredInOrder leaves no freedom: the calls made and the error returned
      are determined by the rows and the store. */
  lemma StoredInOrderUnique(rows: seq<seq<StoreValue>>, store: Store,
                            calls1: seq<seq<StoreValue>>, err1: Option<StoreError>,
                            calls2: seq<seq<StoreValue>>, err2: Option<StoreError>)
    requires StoredInOrder(rows, store, calls1, err1)
    requires StoredInOrder(rows, store, calls2, err2)
    ensures calls1 == calls2 && err1 == err2
  {
  }

  /** Go's strings.Contains on a sequence of characters. */
  predicate Contains(s: string, sub: string)
    decreases |s|
  {
    sub <= s || (|s| > 0 && Contains(s[1..], sub))
  }

  /** A string that contains `sub` has a character of `sub`. */
  lemma {:induction false} ContainsHasChar(s: string, sub: string)
    requires |sub| > 0 && Contains(s, sub)
    ensures exists i :: 0 <= i < |s| && s[i] == sub[0]
    decreases |s|
  {
    if sub <= s {
      assert s[0] == sub[0];
    } else {
      ContainsHasChar(s[1..], sub);
      var i :| 0 <= i < |s[1..]| && s[1..][i] == sub[0];
      assert s[i + 1] == sub[0];
    }
  }
}

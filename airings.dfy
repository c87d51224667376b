/** The driver: for each series identifier, in order, fetch its listing page,
    extract the upcoming episode and render one line; the first error aborts
    the whole batch. The network request and HTML parsing are an oracle
    `fetch` that maps an identifier to either a failure or the matched list
    items of its page. */
module Airings {
  import opened Text
  import opened Episodes
  import opened Extractor

  /** What fetching and parsing one series' page yields: a failure of the
      request or of reading the response, with its cause, or the items the
      episode selector matched. */
  datatype Fetched = FetchErr(cause: string) | Page(matches: seq<Node>)

  /** The errors that abort a batch. */
  datatype Error = FetchFailed(cause: string) | DataNotFound(missing: DataNotFoundError)

  datatype Result<T> = Ok(value: T) | Err(error: Error)

  datatype Option<T> = None | Some(value: T)

  /** The page outcome for one series: a failed fetch, no upcoming episode,
      the episode read from the last matched item, or the error for its
      first absent field. */
  function GetPage(series: string, fetch: string -> Fetched): (r: Result<Option<Episode>>)
    ensures fetch(series).FetchErr? ==> r == Err(FetchFailed(fetch(series).cause))
    ensures fetch(series).Page? && fetch(series).matches == [] ==> r == Ok(None)
    ensures fetch(series).Page? && fetch(series).matches != [] ==>
      var item := Last(fetch(series).matches);
      r == if |item| < 4 then Err(DataNotFound(DataNotFoundError(FieldNames[|item|])))
           else Ok(Some(Episode(item[0], item[1], item[2], item[3])))
  {
    match fetch(series)
    case FetchErr(cause) => Err(FetchFailed(cause))
    case Page(matches) =>
      match Extract(matches)
      case NoEpisode => Ok(None)
      case Found(episode) => Ok(Some(episode))
      case Missing(e) => Err(DataNotFound(e))
  }

  /** The line for one series, or the error that aborts the batch: a failed
      fetch, the no-episode line, the display of the last matched item's
      episode, or the error for its first absent field. */
  function Airing(series: string, fetch: string -> Fetched, isWs: char -> bool): (r: Result<string>)
    ensures fetch(series).FetchErr? ==> r == Err(FetchFailed(fetch(series).cause))
    ensures fetch(series).Page? && fetch(series).matches == [] ==>
      r == Ok(series + ": no episode scheduled to air")
    ensures fetch(series).Page? && fetch(series).matches != [] ==>
      var item := Last(fetch(series).matches);
      r == if |item| < 4 then Err(DataNotFound(DataNotFoundError(FieldNames[|item|])))
           else Ok(FormatEpisode(Episode(item[0], item[1], item[2], item[3]), isWs))
  {
    match GetPage(series, fetch)
    case Err(e) => Err(e)
    case Ok(Some(episode)) => Ok(FormatEpisode(episode, isWs))
    case Ok(None) => Ok(NoEpisodeLine(series))
  }

  /** `map` followed by `collect` into a result: apply `f` to each element in
      order and gather the values, stopping at the first error, which becomes
      the result. */
  function CollectMap<X, T>(xs: seq<X>, f: X -> Result<T>): (r: Result<seq<T>>)
    ensures r.Ok? <==> forall i :: 0 <= i < |xs| ==> f(xs[i]).Ok?
    ensures r.Ok? ==> |r.value| == |xs|
    decreases |xs|
  {
    if xs == [] then Ok([])
    else
      match f(xs[0])
      case Err(e) => Err(e)
      case Ok(v) =>
        match CollectMap(xs[1..], f)
        case Err(e) => Err(e)
        case Ok(vs) => Ok([v] + vs)
  }

  /** On success, value i is what `f` gave for element i. */
  lemma {:induction false} CollectMapValues<X, T>(xs: seq<X>, f: X -> Result<T>, i: nat)
    requires CollectMap(xs, f).Ok? && i < |xs|
    ensures f(xs[i]) == Ok(CollectMap(xs, f).value[i])
    decreases i
  {
    var rest := CollectMap(xs[1..], f);
    assert rest.Ok? && CollectMap(xs, f).value == [f(xs[0]).value] + rest.value;
    if i > 0 {
      CollectMapValues(xs[1..], f, i - 1);
      assert xs[1..][i - 1] == xs[i];
    }
  }

  /** The collection fails with the error of the first failing element. */
  lemma {:induction false} CollectMapFailsAtFirstError<X, T>(xs: seq<X>, f: X -> Result<T>, k: nat)
    requires k < |xs| && f(xs[k]).Err?
    requires forall j :: 0 <= j < k ==> f(xs[j]).Ok?
    ensures CollectMap(xs, f) == Err(f(xs[k]).error)
    decreases k
  {
    if k > 0 {
      forall j | 0 <= j < k - 1 ensures f(xs[1..][j]).Ok? {
        assert xs[1..][j] == xs[j + 1];
      }
      assert xs[1..][k - 1] == xs[k];
      CollectMapFailsAtFirstError(xs[1..], f, k - 1);
    }
  }

  /** Elements after the first failing one are never passed to `f`: a
      function that agrees with `f` up to and including that element gives
      the same outcome, whatever it does on the later ones. */
  lemma {:induction false} CollectMapStopsAtFirstError<X, T>(xs: seq<X>, f: X -> Result<T>, g: X -> Result<T>, k: nat)
    requires k < |xs| && f(xs[k]).Err?
    requires forall j :: 0 <= j < k ==> f(xs[j]).Ok?
    requires forall j :: 0 <= j <= k ==> g(xs[j]) == f(xs[j])
    ensures CollectMap(xs, g) == CollectMap(xs, f)
    decreases k
  {
    if k > 0 {
      var rest := xs[1..];
      forall j | 0 <= j < k - 1 ensures f(rest[j]).Ok? {
        assert rest[j] == xs[j + 1];
      }
      forall j | 0 <= j <= k - 1 ensures g(rest[j]) == f(rest[j]) {
        assert rest[j] == xs[j + 1];
      }
      CollectMapStopsAtFirstError(rest, f, g, k - 1);
    }
  }

  /** Once a collection fails, elements appended after it change nothing. */
  lemma {:induction false} CollectMapIgnoresRest<X, T>(a: seq<X>, b: seq<X>, f: X -> Result<T>)
    requires CollectMap(a, f).Err?
    ensures CollectMap(a + b, f) == CollectMap(a, f)
    decreases |a|
  {
    var ab := a + b;
    assert ab[0] == a[0] && ab[1..] == a[1..] + b;
    if f(a[0]).Ok? {
      CollectMapIgnoresRest(a[1..], b, f);
    }
  }

  /** After a part that succeeds, the rest is collected as if on its own: its
      error is the outcome, or its values follow those of the first part. */
  lemma {:induction false} CollectMapAppend<X, T>(a: seq<X>, b: seq<X>, f: X -> Result<T>)
    requires CollectMap(a, f).Ok?
    ensures CollectMap(b, f).Err? ==> CollectMap(a + b, f) == CollectMap(b, f)
    ensures CollectMap(b, f).Ok? ==> CollectMap(a + b, f) == Ok(CollectMap(a, f).value + CollectMap(b, f).value)
    decreases |a|
  {
    var rb := CollectMap(b, f);
    if a == [] {
      assert a + b == b;
      if rb.Ok? {
        assert CollectMap(a, f).value + rb.value == rb.value;
      }
    } else {
      var ab := a + b;
      assert ab[0] == a[0] && ab[1..] == a[1..] + b;
      CollectMapAppend(a[1..], b, f);
      if rb.Ok? {
        var v, ra := f(a[0]).value, CollectMap(a[1..], f);
        assert [v] + ra.value + rb.value == [v] + (ra.value + rb.value);
      }
    }
  }

  /** All lines, in order, or the first error. */
  function GetAirings(ids: seq<string>, fetch: string -> Fetched, isWs: char -> bool): (r: Result<seq<string>>)
    ensures r.Ok? <==> forall i :: 0 <= i < |ids| ==> Airing(ids[i], fetch, isWs).Ok?
    ensures r.Ok? ==> |r.value| == |ids|
  {
    CollectMap(ids, series => Airing(series, fetch, isWs))
  }

  /** On success, line i is the line of identifier i. */
  lemma GetAiringsLines(ids: seq<string>, fetch: string -> Fetched, isWs: char -> bool, i: nat)
    requires GetAirings(ids, fetch, isWs).Ok? && i < |ids|
    ensures Airing(ids[i], fetch, isWs) == Ok(GetAirings(ids, fetch, isWs).value[i])
  {
    CollectMapValues(ids, series => Airing(series, fetch, isWs), i);
  }

  /** Identifiers after the first failing one are never fetched: an oracle
      that agrees up to and including the failing identifier gives the same
      outcome, whatever it answers for the later ones. */
  lemma GetAiringsStopsFetching(
    ids: seq<string>, k: nat, fetch: string -> Fetched, other: string -> Fetched, isWs: char -> bool)
    requires k < |ids| && Airing(ids[k], fetch, isWs).Err?
    requires forall j :: 0 <= j < k ==> Airing(ids[j], fetch, isWs).Ok?
    requires forall j :: 0 <= j <= k ==> other(ids[j]) == fetch(ids[j])
    ensures GetAirings(ids, other, isWs) == GetAirings(ids, fetch, isWs)
    ensures GetAirings(ids, fetch, isWs) == Err(Airing(ids[k], fetch, isWs).error)
  {
    var f := series => Airing(series, fetch, isWs);
    var g := series => Airing(series, other, isWs);
    forall j | 0 <= j <= k ensures g(ids[j]) == f(ids[j]) {
      assert other(ids[j]) == fetch(ids[j]);
    }
    CollectMapStopsAtFirstError(ids, f, g, k);
    CollectMapFailsAtFirstError(ids, f, k);
  }

  /** Three series where the second one's fetch fails: the batch reports that
      failure and no line at all, although the first series succeeds. */
  lemma BatchAbortsOnFailedFetch(a: string, b: string, c: string, fetch: string -> Fetched, isWs: char -> bool)
    requires Airing(a, fetch, isWs).Ok? && fetch(b).FetchErr?
    ensures GetAirings([a, b, c], fetch, isWs) == Err(FetchFailed(fetch(b).cause))
  {
    var ids := [a, b, c];
    assert ids[0] == a && ids[1] == b;
    assert Airing(b, fetch, isWs) == Err(FetchFailed(fetch(b).cause));
    CollectMapFailsAtFirstError(ids, series => Airing(series, fetch, isWs), 1);
  }
}

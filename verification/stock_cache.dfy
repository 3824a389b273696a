/**
  The cache-aside fetchers of the stock hooks: `getGainerLoser` (top
  gainers/losers) and `getStockDetail` (one company's overview).

  Each call reads the persisted entry under its key, serves the stored data
  when it is strictly younger than one hour, and otherwise calls the quote
  service, rejects any status but 200, writes `{data, timestamp}` and returns
  the data. The device store is a map from key to stored text, the quote
  service's answer and the two clock readings are inputs, and every store
  read, network request and store write is recorded in order.
 */
module StockCache {
  import opened Outcomes

  /** The single key of the top gainers/losers entry. */
  const TopMoversKey: string := "topGainerLoserData"

  /** The prefix of every company overview key. */
  const DetailKeyPrefix: string := "stockDetail_"

  /** How long an entry may be served: one hour, in milliseconds. */
  const CacheTime: int := 1000 * 60 * 60

  /** The error message of a top gainers/losers response whose status is not 200. */
  const TopMoversFailure: string := "Failed to fetch data"

  /** The error message of an overview response whose status is not 200. */
  const DetailFailure: string := "Failed to fetch details"

  /** The key of one company's overview entry. */
  function DetailKey(company: string): (k: string)
    ensures |k| == |DetailKeyPrefix| + |company|
    ensures k[..|DetailKeyPrefix|] == DetailKeyPrefix && k[|DetailKeyPrefix|..] == company
  {
    DetailKeyPrefix + company
  }

  /**
    What `getItem` can hand back under a key that is present, as seen by
    `JSON.parse` and the destructuring of `{data, timestamp}`:
    - `Blank`: the empty string, which is falsy and so skipped like a missing key;
    - `Corrupt`: text that `JSON.parse` rejects, or that parses to `null`,
      on which the destructuring throws;
    - `Record`: a parsed object; `timestamp` is `None` when the field is
      missing, which makes the age `NaN` and the entry never fresh.
   */
  datatype Stored<D> = Blank | Corrupt | Record(data: D, timestamp: Option<int>)

  /** The device key-value store. */
  type Store<D> = map<string, Stored<D>>

  /** The two quote service endpoints; the API key is left out. */
  datatype Endpoint = TopGainersLosers | Overview(symbol: string)

  /** What the HTTP client produces: a rejected promise or a response. */
  datatype Response<D> = Rejected | Reply(status: int, body: D)

  /** Why a call throws. */
  datatype FetchError =
    | MalformedEntry          // `JSON.parse` or the destructuring threw
    | TransportFailure        // the HTTP request itself was rejected
    | BadStatus(message: string) // a response whose status is not 200

  /** The observable effects of one call, in the order they happen. */
  datatype Effect = GetItem(key: string) | HttpGet(endpoint: Endpoint) | SetItem(key: string)

  /** What a call returns or throws, the store afterwards, and what it did. */
  datatype Run<T, D> = Run(result: Result<T, FetchError>, store: Store<D>, effects: seq<Effect>)

  /** An entry under `key` that a read at time `now` serves without a request. */
  ghost predicate Fresh<D>(store: Store<D>, key: string, now: int) {
    && key in store
    && store[key].Record?
    && store[key].timestamp.Some?
    && now - store[key].timestamp.value < CacheTime
  }

  /** Whether the effects contain a network request. */
  ghost predicate Requested(effects: seq<Effect>) {
    exists i :: 0 <= i < |effects| && effects[i].HttpGet?
  }

  /**
    Any store write is the last effect, is under `key`, and belongs to a call
    that succeeded: a failed call writes nothing and a call writes at most once.
   */
  ghost predicate OnlyFinalWrite<T, D>(run: Run<T, D>, key: string) {
    forall i :: 0 <= i < |run.effects| && run.effects[i].SetItem? ==>
      i == |run.effects| - 1 && run.effects[i] == SetItem(key) && run.result.Success?
  }

  /** Every key other than `key` holds the same thing in both stores. */
  ghost predicate SameElsewhere<D>(before: Store<D>, after: Store<D>, key: string) {
    forall k :: k != key ==> (k in after <==> k in before) && (k in before ==> after[k] == before[k])
  }

  /**
    The protocol both hooks share: read at `now`, serve a fresh entry,
    otherwise request `endpoint` and, on status 200, store the body stamped
    with the second clock reading `later`.
   */
  function FetchWithCache<D>(store: Store<D>, key: string, endpoint: Endpoint, failMessage: string,
                             now: int, remote: Response<D>, later: int): (run: Run<D, D>)
    // the store is read first, and only under `key`
    ensures |run.effects| >= 1 && run.effects[0] == GetItem(key)
    // a fresh entry is served as stored, with no request and no write
    ensures Fresh(store, key, now) ==>
              run == Run(Success(store[key].data), store, [GetItem(key)])
    // a request is made exactly when the entry is neither fresh nor unparseable
    ensures Requested(run.effects) <==> !Fresh(store, key, now) && !(key in store && store[key].Corrupt?)
    // unparseable text throws without a request: it is not treated as a miss
    ensures key in store && store[key].Corrupt? ==>
              run == Run(Failure(MalformedEntry), store, [GetItem(key)])
    // a miss answered with 200 overwrites the entry with the body and the second clock reading
    ensures !Fresh(store, key, now) && !(key in store && store[key].Corrupt?) && remote.Reply? && remote.status == 200 ==>
              && run.result == Success(remote.body)
              && run.store == store[key := Record(remote.body, Some(later))]
              && run.effects == [GetItem(key), HttpGet(endpoint), SetItem(key)]
    // any other status throws the resource's message and leaves the store untouched
    ensures !Fresh(store, key, now) && !(key in store && store[key].Corrupt?) && remote.Reply? && remote.status != 200 ==>
              run == Run(Failure(BadStatus(failMessage)), store, [GetItem(key), HttpGet(endpoint)])
    ensures !Fresh(store, key, now) && !(key in store && store[key].Corrupt?) && remote.Rejected? ==>
              run == Run(Failure(TransportFailure), store, [GetItem(key), HttpGet(endpoint)])
    // a failed call changes nothing; at most one write happens, last, and only under `key`
    ensures run.result.Failure? ==> run.store == store
    ensures OnlyFinalWrite(run, key)
    ensures SameElsewhere(store, run.store, key)
  {
    var cached := if key in store then store[key] else Blank;
    if cached.Corrupt? then
      Run(Failure(MalformedEntry), store, [GetItem(key)])
    else if cached.Record? && cached.timestamp.Some? && now - cached.timestamp.value < CacheTime then
      Run(Success(cached.data), store, [GetItem(key)])
    else
      var attempted := [GetItem(key), HttpGet(endpoint)];
      assert attempted[1].HttpGet?;
      match remote
      case Rejected => Run(Failure(TransportFailure), store, attempted)
      case Reply(status, body) =>
        if status != 200 then
          Run(Failure(BadStatus(failMessage)), store, attempted)
        else
          assert (attempted + [SetItem(key)])[1].HttpGet?;
          Run(Success(body), store[key := Record(body, Some(later))], attempted + [SetItem(key)])
  }

  /** `getGainerLoser`: the cache-aside fetch under the fixed top movers key. */
  function GetGainerLoser<D>(store: Store<D>, now: int, remote: Response<D>, later: int): (run: Run<D, D>)
    ensures |run.effects| >= 1 && run.effects[0] == GetItem("topGainerLoserData")
    ensures Requested(run.effects) ==> HttpGet(TopGainersLosers) in run.effects
    ensures run.result == Failure(BadStatus("Failed to fetch data")) <==>
              !Fresh(store, "topGainerLoserData", now) && remote.Reply? && remote.status != 200
              && !("topGainerLoserData" in store && store["topGainerLoserData"].Corrupt?)
    ensures SameElsewhere(store, run.store, "topGainerLoserData")
  {
    FetchWithCache(store, TopMoversKey, TopGainersLosers, TopMoversFailure, now, remote, later)
  }

  /**
    `getStockDetail`: `null` for an empty company without touching the store
    or the network, otherwise the cache-aside fetch under the company's key.
   */
  function GetStockDetail<D>(company: string, store: Store<D>, now: int, remote: Response<D>, later: int)
    : (run: Run<Option<D>, D>)
    ensures company == "" ==> run == Run(Success(None), store, [])
    ensures company != "" ==> |run.effects| >= 1 && run.effects[0] == GetItem("stockDetail_" + company)
    ensures company != "" && Requested(run.effects) ==> HttpGet(Overview(company)) in run.effects
    ensures company != "" ==>
              (run.result == Failure(BadStatus("Failed to fetch details")) <==>
                 !Fresh(store, "stockDetail_" + company, now) && remote.Reply? && remote.status != 200
                 && !("stockDetail_" + company in store && store["stockDetail_" + company].Corrupt?))
    ensures company != "" ==> run.result != Success(None)
    ensures SameElsewhere(store, run.store, "stockDetail_" + company)
  {
    if company == "" then
      Run(Success(None), store, [])
    else
      var inner := FetchWithCache(store, DetailKey(company), Overview(company), DetailFailure, now, remote, later);
      var result := match inner.result
        case Success(data) => Success(Some(data))
        case Failure(e) => Failure(e);
      Run(result, inner.store, inner.effects)
  }

  /** Distinct companies have distinct keys, so each has its own entry and clock. */
  lemma DetailKeyInjective(a: string, b: string)
    ensures DetailKey(a) == DetailKey(b) ==> a == b
  {
    if DetailKey(a) == DetailKey(b) {
      assert a == DetailKey(a)[|DetailKeyPrefix|..];
      assert b == DetailKey(b)[|DetailKeyPrefix|..];
    }
  }

  /** No company's key is the top movers key. */
  lemma DetailKeyIsNotTopMoversKey(company: string)
    ensures DetailKey(company) != TopMoversKey
  {
    assert DetailKey(company)[0] == 's' != 't' == TopMoversKey[0];
  }

  /** An entry exactly one hour old is stale: the read falls through to a request. */
  lemma ExactlyOneHourOldIsRefetched<D>(store: Store<D>, key: string, endpoint: Endpoint, msg: string,
                                        data: D, stamp: int, remote: Response<D>, later: int)
    requires key in store && store[key] == Record(data, Some(stamp))
    ensures var run := FetchWithCache(store, key, endpoint, msg, stamp + CacheTime, remote, later);
            Requested(run.effects) && HttpGet(endpoint) in run.effects
  {
    var run := FetchWithCache(store, key, endpoint, msg, stamp + CacheTime, remote, later);
    assert run.effects[1] == HttpGet(endpoint);
  }

  /** A missing key and an empty stored string are both plain misses. */
  lemma BlankIsMiss<D>(store: Store<D>, key: string, endpoint: Endpoint, msg: string,
                       now: int, remote: Response<D>, later: int)
    requires key !in store || store[key] == Blank
    ensures var run := FetchWithCache(store, key, endpoint, msg, now, remote, later);
            run.effects[..2] == [GetItem(key), HttpGet(endpoint)]
  {
  }

  /**
    What a successful miss stores is served by any later read within the hour:
    the written body comes back with no request and no write.
   */
  lemma {:induction false} WriteThenReadWithinHour<D>(store: Store<D>, key: string, endpoint: Endpoint, msg: string,
                                                      now: int, body: D, later: int, next: int, remote: Response<D>, last: int)
    requires !Fresh(store, key, now) && !(key in store && store[key].Corrupt?)
    requires next - later < CacheTime
    ensures var first := FetchWithCache(store, key, endpoint, msg, now, Reply(200, body), later);
            var second := FetchWithCache(first.store, key, endpoint, msg, next, remote, last);
            second.result == Success(body) && second.store == first.store && !Requested(second.effects)
  {
    var first := FetchWithCache(store, key, endpoint, msg, now, Reply(200, body), later);
    assert first.store[key] == Record(body, Some(later));
    assert Fresh(first.store, key, next);
  }

  /** Two successful refreshes leave exactly the most recent body and timestamp. */
  lemma LastRefreshWins<D>(store: Store<D>, key: string, endpoint: Endpoint, msg: string,
                           now1: int, body1: D, later1: int, now2: int, body2: D, later2: int)
    requires !Fresh(store, key, now1) && !(key in store && store[key].Corrupt?)
    requires now2 - later1 >= CacheTime
    ensures var first := FetchWithCache(store, key, endpoint, msg, now1, Reply(200, body1), later1);
            var second := FetchWithCache(first.store, key, endpoint, msg, now2, Reply(200, body2), later2);
            second.store == store[key := Record(body2, Some(later2))]
  {
  }

  /** A top movers fetch never changes any company's entry, hence not its freshness. */
  lemma TopMoversFetchKeepsDetails<D>(store: Store<D>, now: int, remote: Response<D>, later: int,
                                      company: string, t: int)
    ensures var run := GetGainerLoser(store, now, remote, later);
            (DetailKey(company) in run.store <==> DetailKey(company) in store)
            && (Fresh(run.store, DetailKey(company), t) <==> Fresh(store, DetailKey(company), t))
  {
    DetailKeyIsNotTopMoversKey(company);
  }

  /**
    A company fetch never changes the top movers entry nor another company's
    entry, hence not their freshness.
   */
  lemma DetailFetchKeepsOthers<D>(company: string, store: Store<D>, now: int, remote: Response<D>, later: int,
                                  other: string, t: int)
    requires other != company
    ensures var run := GetStockDetail(company, store, now, remote, later);
            && (Fresh(run.store, TopMoversKey, t) <==> Fresh(store, TopMoversKey, t))
            && (Fresh(run.store, DetailKey(other), t) <==> Fresh(store, DetailKey(other), t))
  {
    DetailKeyIsNotTopMoversKey(company);
    DetailKeyInjective(company, other);
  }
}

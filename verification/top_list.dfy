/**
  The top list slice of the application state: the latest top gainers and
  top losers, replaced together by `setList` and emptied by `removeList`.
 */
module TopList {

  /** One row of the top movers, numeric fields as the decimal text the quote service sent. */
  datatype StockRow = StockRow(ticker: string, price: string, changeAmount: string, changePercentage: string)

  datatype TopListState = TopListState(topGainers: seq<StockRow>, topLosers: seq<StockRow>)

  /** The `setList` payload: a top movers snapshot. */
  datatype TopMovers = TopMovers(topGainers: seq<StockRow>, topLosers: seq<StockRow>)

  /** The slice's initial state: both lists empty. */
  const InitialTopList: TopListState := TopListState([], [])

  /** `setList`: both lists are taken from the payload. */
  function SetList(s: TopListState, p: TopMovers): (r: TopListState)
    ensures r.topGainers == p.topGainers && r.topLosers == p.topLosers
  {
    TopListState(p.topGainers, p.topLosers)
  }

  /** `removeList`: both lists emptied; its payload is ignored. */
  function RemoveList<P>(s: TopListState, payload: P): (r: TopListState)
    ensures r.topGainers == [] && r.topLosers == []
  {
    InitialTopList
  }

  /** The initial state has both lists empty, and `removeList` keeps it so. */
  lemma InitialTopListEmpty<P>(payload: P)
    ensures InitialTopList.topGainers == [] && InitialTopList.topLosers == []
    ensures RemoveList(InitialTopList, payload) == InitialTopList
  {
  }

  /** The last `setList` wins: what came before it does not matter. */
  lemma LastSetListWins(s: TopListState, t: TopListState, p: TopMovers, q: TopMovers)
    ensures SetList(SetList(s, p), q) == SetList(s, q) == SetList(t, q)
  {
  }

  /** `removeList` is idempotent, and undoes any `setList`. */
  lemma RemoveListResets<P>(s: TopListState, p: TopMovers, a: P, b: P)
    ensures RemoveList(RemoveList(s, a), b) == RemoveList(s, a)
    ensures RemoveList(SetList(s, p), a) == InitialTopList
  {
  }
}

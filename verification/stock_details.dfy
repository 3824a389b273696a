/**
  The watchlist commands of the stock details screen: the "is saved" check,
  the add-to-watchlist handler, the remove handler and the bookmark button.
  A handler's effect is the screen state it leaves and the watchlist
  actions it dispatches, in order; the store applies them with the
  watchlist reducer.
 */
module StockDetails {
  import opened Outcomes
  import opened Sequences
  import opened JsString
  import opened WatchListSlice

  /** The route parameters the screen is opened with (one row of the top movers). */
  datatype Company = Company(ticker: string, price: string, changeAmount: string,
                             changePercentage: string, volume: string)

  /** The screen's local state that the watchlist commands read and set. */
  datatype Screen = Screen(saved: bool, showAddModal: bool, selectedWatchlist: string, newWatchlistName: string)

  /** What a handler leaves behind: the screen state and the dispatched actions. */
  datatype Handled = Handled(screen: Screen, dispatched: seq<Action>)

  /** The `some` predicate over stocks: the stock has this ticker. */
  function IsTicker(ticker: string): Stock -> bool {
    (st: Stock) => st.ticker == ticker
  }

  /** The `find`/`some` predicate over lists: the list holds a stock with this ticker. */
  function HoldsTicker(ticker: string): WatchList -> bool {
    (wl: WatchList) => AnyOf(wl.stocks, IsTicker(ticker))
  }

  /** Some stock of the list has this ticker. */
  ghost predicate Holds(wl: WatchList, ticker: string) {
    exists st :: st in wl.stocks && st.ticker == ticker
  }

  /** Some list holds a stock with this ticker. */
  ghost predicate SavedAnywhere(lists: seq<WatchList>, ticker: string) {
    exists wl :: wl in lists && Holds(wl, ticker)
  }

  /** `i` is the position of the first list holding this ticker. */
  ghost predicate IsFirstHolding(lists: seq<WatchList>, ticker: string, i: int) {
    && 0 <= i < |lists|
    && Holds(lists[i], ticker)
    && forall j :: 0 <= j < i ==> !Holds(lists[j], ticker)
  }

  lemma HoldsTickerMeansHolds(ticker: string)
    ensures forall wl :: HoldsTicker(ticker)(wl) <==> Holds(wl, ticker)
  {
  }

  /**
    The saved-check effect: false without a symbol (missing or empty) or
    without an array of watchlists (`None`), otherwise whether any list holds
    a stock with that ticker.
   */
  function IsSaved(symbol: Option<string>, watchlists: Option<seq<WatchList>>): (saved: bool)
    ensures saved <==> && symbol.Some? && symbol.value != ""
                       && watchlists.Some? && SavedAnywhere(watchlists.value, symbol.value)
  {
    HoldsTickerMeansHolds(if symbol.Some? then symbol.value else "");
    if symbol.None? || symbol.value == "" || watchlists.None? then false
    else AnyOf(watchlists.value, HoldsTicker(symbol.value))
  }

  /** The stock record `handleAddStock` stores, built from the overview symbol and the quote row. */
  function StockRecord(symbol: string, company: Company): (st: Stock)
    ensures st.ticker == symbol && st.price == company.price
    ensures st.changePrice == company.changeAmount && st.changePercentage == company.changePercentage
  {
    Stock(symbol, company.changeAmount, company.price, company.changePercentage)
  }

  /**
    `handleAddStock`: a selected list receives the stock; with no selection a
    non-blank typed name, trimmed, is first ensured to exist and then
    receives it; with neither, nothing happens. After a dispatch the dialog
    closes, its fields reset and the screen shows the stock as saved.
   */
  function HandleAddStock(screen: Screen, symbol: string, company: Company): (h: Handled)
    ensures screen.selectedWatchlist != "" ==>
              h.dispatched == [AddStockAction(screen.selectedWatchlist, StockRecord(symbol, company))]
    ensures screen.selectedWatchlist == "" && Trim(screen.newWatchlistName) != "" ==>
              h.dispatched == [AddWatchListAction(Trim(screen.newWatchlistName)),
                               AddStockAction(Trim(screen.newWatchlistName), StockRecord(symbol, company))]
    ensures screen.selectedWatchlist == "" && Trim(screen.newWatchlistName) == "" ==>
              h == Handled(screen, [])
    ensures h.dispatched != [] ==> h.screen == Screen(true, false, "", "")
    ensures forall k :: 0 <= k < |h.dispatched| && h.dispatched[k].AddStockAction? ==>
              h.dispatched[k].stock == StockRecord(symbol, company) && h.dispatched[k].watchlistName != ""
  {
    var typed := Trim(screen.newWatchlistName);
    var creates := screen.selectedWatchlist == "" && typed != "";
    var target := if creates then typed else screen.selectedWatchlist;
    var ensure := if creates then [AddWatchListAction(typed)] else [];
    if target != "" then
      Handled(Screen(true, false, "", ""), ensure + [AddStockAction(target, StockRecord(symbol, company))])
    else
      Handled(screen, [])
  }

  /**
    `handleRemoveStock`: removes the ticker from the first list holding it,
    by that list's name, and shows the stock as not saved; when no list
    holds it nothing happens.
   */
  function HandleRemoveStock(screen: Screen, lists: seq<WatchList>, symbol: string): (h: Handled)
    ensures h.dispatched == [] <==> !SavedAnywhere(lists, symbol)
    ensures !SavedAnywhere(lists, symbol) ==> h.screen == screen
    ensures forall i :: IsFirstHolding(lists, symbol, i) ==>
              h == Handled(screen.(saved := false), [RemoveStockAction(lists[i].name, symbol)])
  {
    HoldsTickerMeansHolds(symbol);
    match FindFirst(lists, HoldsTicker(symbol))
    case Some(i) =>
      assert IsFirstHolding(lists, symbol, i);
      Handled(screen.(saved := false), [RemoveStockAction(lists[i].name, symbol)])
    case None => Handled(screen, [])
  }

  /** The bookmark button: removes when saved, otherwise opens the add dialog. */
  function PressBookmark(screen: Screen, lists: seq<WatchList>, symbol: string): (h: Handled)
    ensures screen.saved ==> h == HandleRemoveStock(screen, lists, symbol)
    ensures !screen.saved ==> h == Handled(screen.(showAddModal := true), [])
    ensures forall k :: 0 <= k < |h.dispatched| ==> h.dispatched[k].RemoveStockAction?
  {
    if screen.saved then HandleRemoveStock(screen, lists, symbol)
    else Handled(screen.(showAddModal := true), [])
  }

  /**
    Ensuring the list exists before adding to it changes nothing: the pair of
    actions `handleAddStock` dispatches for a new name has the effect of
    `addStock` alone.
   */
  lemma EnsureThenAddIsAdd(s: WatchListState, name: string, stock: Stock)
    ensures ReduceAll(s, [AddWatchListAction(name), AddStockAction(name, stock)]) == AddStock(s, name, stock)
  {
    ReduceAllTwo(s, AddWatchListAction(name), AddStockAction(name, stock));
    if !HasList(s.watchlists, name) {
      var n := |s.watchlists|;
      var t := AddWatchList(s, name);
      assert t.watchlists == s.watchlists + [WatchList(name, [])];
      assert IsFirstNamed(t.watchlists, name, n);
      var viaEnsure := AddStock(t, name, stock).watchlists;
      var direct := AddStock(s, name, stock).watchlists;
      assert |viaEnsure| == |direct|;
      forall j | 0 <= j < |direct|
        ensures viaEnsure[j] == direct[j]
      {
        if j == n {
          assert [] + [stock] == [stock];
        }
      }
      assert viaEnsure == direct;
    }
  }

  /** The actions `handleAddStock` dispatches have the effect of one `addStock` into the target list. */
  lemma DispatchedAddIsAddStock(s: WatchListState, screen: Screen, symbol: string, company: Company)
    ensures var h := HandleAddStock(screen, symbol, company);
            h.dispatched != [] ==>
              ReduceAll(s, h.dispatched) == AddStock(s, Last(h.dispatched).watchlistName, StockRecord(symbol, company))
  {
    var h := HandleAddStock(screen, symbol, company);
    if h.dispatched != [] {
      var target := Last(h.dispatched).watchlistName;
      var st := StockRecord(symbol, company);
      if |h.dispatched| == 2 {
        EnsureThenAddIsAdd(s, target, st);
      } else {
        ReduceAllOne(s, AddStockAction(target, st));
      }
    }
  }

  /**
    After `addStock` some list holds the stock's ticker, so for a non-empty
    ticker the saved-check finds it.
   */
  lemma AddStockMakesSaved(s: WatchListState, name: string, st: Stock)
    ensures var after := AddStock(s, name, st).watchlists;
            && SavedAnywhere(after, st.ticker)
            && exists i :: IsFirstNamed(after, name, i) && |after[i].stocks| > 0 && Last(after[i].stocks) == st
  {
    var after := AddStock(s, name, st).watchlists;
    AddStockLandsInFirstNamed(s, name, st);
    var i :| IsFirstNamed(after, name, i) && |after[i].stocks| > 0 && after[i].stocks[|after[i].stocks| - 1] == st;
    assert Holds(after[i], st.ticker);
  }

  /**
    After `handleAddStock` dispatches, the saved-check over the resulting
    lists agrees with the `saved` flag the handler sets.
   */
  lemma AddedStockIsSaved(s: WatchListState, screen: Screen, symbol: string, company: Company)
    requires symbol != ""
    ensures var h := HandleAddStock(screen, symbol, company);
            h.dispatched != [] ==>
              h.screen.saved && IsSaved(Some(symbol), Some(ReduceAll(s, h.dispatched).watchlists))
  {
    var h := HandleAddStock(screen, symbol, company);
    if h.dispatched != [] {
      DispatchedAddIsAddStock(s, screen, symbol, company);
      AddStockMakesSaved(s, Last(h.dispatched).watchlistName, StockRecord(symbol, company));
    }
  }

  /**
    With an empty symbol `handleAddStock` still dispatches and shows the
    stock as saved, yet the saved-check, which rejects an empty symbol,
    finds nothing: the effect then turns `saved` back off.
   */
  lemma EmptySymbolSavedButNotFound(s: WatchListState, screen: Screen, company: Company)
    ensures var h := HandleAddStock(screen, "", company);
            h.dispatched != [] ==>
              h.screen.saved && !IsSaved(Some(""), Some(ReduceAll(s, h.dispatched).watchlists))
    ensures screen.selectedWatchlist != "" ==> HandleAddStock(screen, "", company).dispatched != []
  {
  }
}

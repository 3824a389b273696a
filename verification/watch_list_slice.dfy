/**
  The watchlist slice of the application state: a sequence of named lists
  of saved stocks, and the reducers that change it.
 */
module WatchListSlice {
  import opened Outcomes
  import opened Sequences

  /** One saved stock, with its quote fields as the text the quote service sent. */
  datatype Stock = Stock(ticker: string, changePrice: string, price: string, changePercentage: string)

  /** A named list of saved stocks. */
  datatype WatchList = WatchList(name: string, stocks: seq<Stock>)

  datatype WatchListState = WatchListState(watchlists: seq<WatchList>)

  /** The slice's initial state: no watchlists. */
  const InitialState: WatchListState := WatchListState([])

  /** The `find` predicate the reducers use: the list carries this name. */
  function Named(name: string): WatchList -> bool {
    (wl: WatchList) => wl.name == name
  }

  /** The `filter` predicate of `removeStock`: the stock has another ticker. */
  function NotTicker(ticker: string): Stock -> bool {
    (st: Stock) => st.ticker != ticker
  }

  /** The `filter` predicate of `removeWatchList`: the list carries another name. */
  function NotNamed(name: string): WatchList -> bool {
    (wl: WatchList) => wl.name != name
  }

  /** Some list carries this name. */
  ghost predicate HasList(lists: seq<WatchList>, name: string) {
    exists i :: 0 <= i < |lists| && lists[i].name == name
  }

  /** `i` is the position of the first list carrying this name. */
  ghost predicate IsFirstNamed(lists: seq<WatchList>, name: string, i: int) {
    && 0 <= i < |lists|
    && lists[i].name == name
    && forall j :: 0 <= j < i ==> lists[j].name != name
  }

  /** No two lists carry the same name. */
  ghost predicate UniqueNames(lists: seq<WatchList>) {
    forall i, j :: 0 <= i < j < |lists| ==> lists[i].name != lists[j].name
  }

  /** How many stocks of the list have this ticker. */
  function Occurrences(stocks: seq<Stock>, ticker: string): (n: nat) {
    if |stocks| == 0 then 0
    else (if stocks[0].ticker == ticker then 1 else 0) + Occurrences(stocks[1..], ticker)
  }

  lemma {:induction false} OccurrencesAppend(stocks: seq<Stock>, st: Stock, ticker: string)
    ensures Occurrences(stocks + [st], ticker) == Occurrences(stocks, ticker) + (if st.ticker == ticker then 1 else 0)
  {
    if |stocks| > 0 {
      assert (stocks + [st])[1..] == stocks[1..] + [st];
      OccurrencesAppend(stocks[1..], st, ticker);
    }
  }

  /** The first list carrying `name` is found by `find`. */
  lemma FindNamed(lists: seq<WatchList>, name: string)
    ensures FindFirst(lists, Named(name)).None? <==> !HasList(lists, name)
    ensures FindFirst(lists, Named(name)).Some? ==> IsFirstNamed(lists, name, FindFirst(lists, Named(name)).value)
  {
  }

  /** `createWatchList`: appends an empty list, whether or not the name is taken. */
  function CreateWatchList(s: WatchListState, name: string): (r: WatchListState)
    ensures |r.watchlists| == |s.watchlists| + 1
    ensures r.watchlists[..|s.watchlists|] == s.watchlists
    ensures r.watchlists[|s.watchlists|] == WatchList(name, [])
  {
    WatchListState(s.watchlists + [WatchList(name, [])])
  }

  /**
    `addStock`: appends the stock to the first list with this name, or, if
    there is none, appends a new list holding just the stock.
   */
  function AddStock(s: WatchListState, name: string, stock: Stock): (r: WatchListState)
    ensures forall i :: IsFirstNamed(s.watchlists, name, i) ==>
              && |r.watchlists| == |s.watchlists|
              && r.watchlists[i] == WatchList(name, s.watchlists[i].stocks + [stock])
              && forall j :: 0 <= j < |s.watchlists| && j != i ==> r.watchlists[j] == s.watchlists[j]
    ensures !HasList(s.watchlists, name) ==> r.watchlists == s.watchlists + [WatchList(name, [stock])]
  {
    FindNamed(s.watchlists, name);
    match FindFirst(s.watchlists, Named(name))
    case Some(i) =>
      var wl := s.watchlists[i];
      WatchListState(s.watchlists[i := wl.(stocks := wl.stocks + [stock])])
    case None =>
      WatchListState(s.watchlists + [WatchList(name, [stock])])
  }

  /**
    `removeStock`: drops every stock with this ticker from the first list
    with this name, keeping the others in order; an unknown name changes nothing.
   */
  function RemoveStock(s: WatchListState, name: string, ticker: string): (r: WatchListState)
    ensures |r.watchlists| == |s.watchlists|
    ensures forall i :: IsFirstNamed(s.watchlists, name, i) ==>
              && r.watchlists[i].name == name
              && r.watchlists[i].stocks == Filter(s.watchlists[i].stocks, NotTicker(ticker))
              && forall j :: 0 <= j < |s.watchlists| && j != i ==> r.watchlists[j] == s.watchlists[j]
    ensures !HasList(s.watchlists, name) ==> r == s
  {
    FindNamed(s.watchlists, name);
    match FindFirst(s.watchlists, Named(name))
    case Some(i) =>
      var wl := s.watchlists[i];
      WatchListState(s.watchlists[i := wl.(stocks := Filter(wl.stocks, NotTicker(ticker)))])
    case None => s
  }

  /** `addWatchList`: appends an empty list unless the name is already taken. */
  function AddWatchList(s: WatchListState, name: string): (r: WatchListState)
    ensures HasList(s.watchlists, name) ==> r == s
    ensures !HasList(s.watchlists, name) ==> r.watchlists == s.watchlists + [WatchList(name, [])]
    ensures HasList(r.watchlists, name)
  {
    if AnyOf(s.watchlists, Named(name)) then s
    else
      var r := WatchListState(s.watchlists + [WatchList(name, [])]);
      assert r.watchlists[|s.watchlists|].name == name;
      r
  }

  /** `removeWatchList`: drops every list with this name, keeping the others in order. */
  function RemoveWatchList(s: WatchListState, name: string): (r: WatchListState)
    ensures !HasList(r.watchlists, name)
    ensures forall i :: 0 <= i < |s.watchlists| && s.watchlists[i].name != name ==> s.watchlists[i] in r.watchlists
    ensures forall i :: 0 <= i < |r.watchlists| ==> r.watchlists[i] in s.watchlists
  {
    WatchListState(Filter(s.watchlists, NotNamed(name)))
  }

  /** `setWatchLists`: replaces the lists wholesale. */
  function SetWatchLists(s: WatchListState, lists: seq<WatchList>): (r: WatchListState)
    ensures r.watchlists == lists
  {
    WatchListState(lists)
  }

  /** `clearAllWatchLists`: no lists remain. */
  function ClearAllWatchLists(s: WatchListState): (r: WatchListState)
    ensures r.watchlists == []
  {
    InitialState
  }

  /** The slice's actions. */
  datatype Action =
    | CreateWatchListAction(watchlistName: string)
    | AddStockAction(watchlistName: string, stock: Stock)
    | RemoveStockAction(watchlistName: string, ticker: string)
    | AddWatchListAction(name: string)
    | RemoveWatchListAction(name: string)
    | SetWatchListsAction(lists: seq<WatchList>)
    | ClearAllWatchListsAction

  /** The slice reducer: each action is handled by its case reducer. */
  function Reduce(s: WatchListState, a: Action): (r: WatchListState)
    ensures a.CreateWatchListAction? ==> |r.watchlists| == |s.watchlists| + 1
    ensures a.AddStockAction? ==> HasList(r.watchlists, a.watchlistName)
    ensures a.RemoveStockAction? ==> |r.watchlists| == |s.watchlists|
    ensures a.AddWatchListAction? ==> HasList(r.watchlists, a.name)
    ensures a.RemoveWatchListAction? ==> !HasList(r.watchlists, a.name)
    ensures a.SetWatchListsAction? ==> r.watchlists == a.lists
    ensures a.ClearAllWatchListsAction? ==> r == InitialState
  {
    match a
    case CreateWatchListAction(n) => CreateWatchList(s, n)
    case AddStockAction(n, st) => AddStockLandsInFirstNamed(s, n, st); AddStock(s, n, st)
    case RemoveStockAction(n, t) => RemoveStock(s, n, t)
    case AddWatchListAction(n) => AddWatchList(s, n)
    case RemoveWatchListAction(n) => RemoveWatchList(s, n)
    case SetWatchListsAction(lists) => SetWatchLists(s, lists)
    case ClearAllWatchListsAction => ClearAllWatchLists(s)
  }

  /**
    The state after dispatching the actions in order. A final
    `setWatchLists` or `clearAllWatchLists` decides the lists alone.
   */
  function ReduceAll(s: WatchListState, actions: seq<Action>): (r: WatchListState)
    ensures |actions| > 0 && Last(actions).SetWatchListsAction? ==> r.watchlists == Last(actions).lists
    ensures |actions| > 0 && Last(actions).ClearAllWatchListsAction? ==> r == InitialState
    decreases |actions|
  {
    if |actions| == 0 then s
    else
      assert |actions| > 1 ==> Last(actions[1..]) == Last(actions);
      ReduceAll(Reduce(s, actions[0]), actions[1..])
  }

  /**
    `removeWatchList` keeps the surviving lists in their order: removing from
    a concatenation is removing from each part, and a part without the name
    is kept whole.
   */
  lemma RemoveWatchListKeepsOrder(a: seq<WatchList>, b: seq<WatchList>, name: string)
    ensures RemoveWatchList(WatchListState(a + b), name).watchlists
              == RemoveWatchList(WatchListState(a), name).watchlists + RemoveWatchList(WatchListState(b), name).watchlists
    ensures !HasList(a, name) ==> RemoveWatchList(WatchListState(a), name).watchlists == a
  {
    FilterConcat(a, b, NotNamed(name));
    if !HasList(a, name) {
      FilterAll(a, NotNamed(name));
    }
  }

  /** After `addStock`, the first list with the name exists and ends with the stock. */
  lemma AddStockLandsInFirstNamed(s: WatchListState, name: string, stock: Stock)
    ensures var r := AddStock(s, name, stock).watchlists;
            exists i :: IsFirstNamed(r, name, i) && |r[i].stocks| > 0 && r[i].stocks[|r[i].stocks| - 1] == stock
  {
    var r := AddStock(s, name, stock).watchlists;
    if HasList(s.watchlists, name) {
      FindNamed(s.watchlists, name);
      var i := FindFirst(s.watchlists, Named(name)).value;
      assert IsFirstNamed(r, name, i);
    } else {
      assert IsFirstNamed(r, name, |s.watchlists|);
    }
  }

  /**
    `removeStock` on the first list with the name leaves no stock with the
    ticker there, keeps the list's name, and leaves every other list alone.
   */
  lemma RemoveStockClearsTicker(s: WatchListState, name: string, ticker: string, i: int)
    requires IsFirstNamed(s.watchlists, name, i)
    ensures var after := RemoveStock(s, name, ticker).watchlists;
            && |after| == |s.watchlists|
            && after[i].name == name
            && (forall k :: 0 <= k < |after[i].stocks| ==> after[i].stocks[k].ticker != ticker)
            && (forall j :: 0 <= j < |after| && j != i ==> after[j] == s.watchlists[j])
  {
    var kept := RemoveStock(s, name, ticker).watchlists[i].stocks;
    assert kept == Filter(s.watchlists[i].stocks, NotTicker(ticker));
    forall k | 0 <= k < |kept|
      ensures kept[k].ticker != ticker
    {
      assert NotTicker(ticker)(kept[k]);
    }
  }

  lemma ReduceAllOne(s: WatchListState, a: Action)
    ensures ReduceAll(s, [a]) == Reduce(s, a)
  {
    assert [a][1..] == [];
  }

  lemma ReduceAllTwo(s: WatchListState, a: Action, b: Action)
    ensures ReduceAll(s, [a, b]) == Reduce(Reduce(s, a), b)
  {
    assert [a, b][1..] == [b];
    ReduceAllOne(Reduce(s, a), b);
  }

  /**
    `setWatchLists` and `clearAllWatchLists` forget everything before them:
    what follows depends only on the lists they install.
   */
  lemma ResetsForgetHistory(s: WatchListState, lists: seq<WatchList>, actions: seq<Action>)
    ensures ReduceAll(s, [SetWatchListsAction(lists)] + actions) == ReduceAll(WatchListState(lists), actions)
    ensures ReduceAll(s, [ClearAllWatchListsAction] + actions) == ReduceAll(InitialState, actions)
  {
    assert ([SetWatchListsAction(lists)] + actions)[1..] == actions;
    assert ([ClearAllWatchListsAction] + actions)[1..] == actions;
  }

  /** Dispatching two runs of actions is dispatching their concatenation. */
  lemma {:induction false} ReduceAllConcat(s: WatchListState, a: seq<Action>, b: seq<Action>)
    ensures ReduceAll(s, a + b) == ReduceAll(ReduceAll(s, a), b)
    decreases |a|
  {
    if |a| > 0 {
      assert (a + b)[0] == a[0];
      assert (a + b)[1..] == a[1..] + b;
      ReduceAllConcat(Reduce(s, a[0]), a[1..], b);
    } else {
      assert a + b == b;
    }
  }

  /** `addWatchList` is idempotent. */
  lemma AddWatchListIdempotent(s: WatchListState, name: string)
    ensures AddWatchList(AddWatchList(s, name), name) == AddWatchList(s, name)
  {
  }

  /** Adding the same stock twice keeps both copies: `addStock` does not dedupe. */
  lemma AddStockKeepsDuplicates(s: WatchListState, name: string, stock: Stock)
    ensures var twice := AddStock(AddStock(s, name, stock), name, stock);
            && (forall i :: IsFirstNamed(s.watchlists, name, i) ==>
                  Occurrences(twice.watchlists[i].stocks, stock.ticker)
                    == Occurrences(s.watchlists[i].stocks, stock.ticker) + 2)
            && (!HasList(s.watchlists, name) ==>
                  twice.watchlists == s.watchlists + [WatchList(name, [stock, stock])])
  {
    var once := AddStock(s, name, stock);
    var twice := AddStock(once, name, stock);
    forall i | IsFirstNamed(s.watchlists, name, i)
      ensures Occurrences(twice.watchlists[i].stocks, stock.ticker)
                == Occurrences(s.watchlists[i].stocks, stock.ticker) + 2
    {
      assert IsFirstNamed(once.watchlists, name, i);
      OccurrencesAppend(s.watchlists[i].stocks, stock, stock.ticker);
      OccurrencesAppend(s.watchlists[i].stocks + [stock], stock, stock.ticker);
    }
    if !HasList(s.watchlists, name) {
      var n := |s.watchlists|;
      assert once.watchlists == s.watchlists + [WatchList(name, [stock])];
      assert IsFirstNamed(once.watchlists, name, n);
      assert twice.watchlists == once.watchlists[n := WatchList(name, [stock] + [stock])];
      assert [stock] + [stock] == [stock, stock];
    }
  }

  /** The actions that can never introduce a second list with a taken name. */
  predicate KeepsNamesUnique(a: Action) {
    !a.CreateWatchListAction? && !a.SetWatchListsAction?
  }

  /** Putting a list with a fresh name in front keeps names unique. */
  lemma ConsKeepsUnique(wl: WatchList, lists: seq<WatchList>)
    requires UniqueNames(lists) && !HasList(lists, wl.name)
    ensures UniqueNames([wl] + lists)
  {
    var r := [wl] + lists;
    forall i, j | 0 <= i < j < |r|
      ensures r[i].name != r[j].name
    {
      assert r[j] == lists[j - 1];
      if i > 0 {
        assert r[i] == lists[i - 1];
      }
    }
  }

  /** Filtering never introduces a repeated name. */
  lemma {:induction false} FilterKeepsUnique(lists: seq<WatchList>, p: WatchList -> bool)
    requires UniqueNames(lists)
    ensures UniqueNames(Filter(lists, p))
  {
    if |lists| > 0 {
      var tail := lists[1..];
      var rest := Filter(tail, p);
      FilterKeepsUnique(tail, p);
      if p(lists[0]) {
        var name := lists[0].name;
        forall k | 0 <= k < |rest|
          ensures rest[k].name != name
        {
          assert rest[k] in tail;
          var m :| 0 <= m < |tail| && tail[m] == rest[k];
          assert tail[m] == lists[m + 1];
        }
        ConsKeepsUnique(lists[0], rest);
      }
    }
  }

  /** Appending a list with a fresh name keeps names unique. */
  lemma SnocKeepsUnique(lists: seq<WatchList>, wl: WatchList)
    requires UniqueNames(lists) && !HasList(lists, wl.name)
    ensures UniqueNames(lists + [wl])
  {
    var r := lists + [wl];
    forall i, j | 0 <= i < j < |r|
      ensures r[i].name != r[j].name
    {
      assert r[i] == lists[i];
      if j < |lists| {
        assert r[j] == lists[j];
      }
    }
  }

  /** Lists carrying the same names position by position are equally free of repeats. */
  lemma SameNamesKeepUnique(a: seq<WatchList>, b: seq<WatchList>)
    requires UniqueNames(a) && |a| == |b|
    requires forall j :: 0 <= j < |a| ==> a[j].name == b[j].name
    ensures UniqueNames(b)
  {
  }

  /** `addStock` and `removeStock` on a present name change no list's name. */
  lemma InPlaceKeepsNames(s: WatchListState, a: Action)
    requires a.AddStockAction? || a.RemoveStockAction?
    requires HasList(s.watchlists, a.watchlistName)
    ensures |Reduce(s, a).watchlists| == |s.watchlists|
    ensures forall j :: 0 <= j < |s.watchlists| ==> Reduce(s, a).watchlists[j].name == s.watchlists[j].name
  {
    FindNamed(s.watchlists, a.watchlistName);
    var k := FindFirst(s.watchlists, Named(a.watchlistName)).value;
    assert IsFirstNamed(s.watchlists, a.watchlistName, k);
  }

  /** Every action other than `createWatchList` and `setWatchLists` keeps list names unique. */
  lemma ReduceKeepsUnique(s: WatchListState, a: Action)
    requires UniqueNames(s.watchlists) && KeepsNamesUnique(a)
    ensures UniqueNames(Reduce(s, a).watchlists)
  {
    match a
    case AddStockAction(n, st) =>
      if HasList(s.watchlists, n) {
        InPlaceKeepsNames(s, a);
        SameNamesKeepUnique(s.watchlists, Reduce(s, a).watchlists);
      } else {
        SnocKeepsUnique(s.watchlists, WatchList(n, [st]));
      }
    case RemoveStockAction(n, t) =>
      if HasList(s.watchlists, n) {
        InPlaceKeepsNames(s, a);
        SameNamesKeepUnique(s.watchlists, Reduce(s, a).watchlists);
      }
    case AddWatchListAction(n) =>
      if !HasList(s.watchlists, n) {
        SnocKeepsUnique(s.watchlists, WatchList(n, []));
      }
    case RemoveWatchListAction(n) =>
      FilterKeepsUnique(s.watchlists, NotNamed(n));
    case ClearAllWatchListsAction =>
  }

  /** Any run of such actions from a state with unique names keeps them unique. */
  lemma {:induction false} ReduceAllKeepsUnique(s: WatchListState, actions: seq<Action>)
    requires UniqueNames(s.watchlists)
    requires forall k :: 0 <= k < |actions| ==> KeepsNamesUnique(actions[k])
    ensures UniqueNames(ReduceAll(s, actions).watchlists)
    decreases |actions|
  {
    if |actions| > 0 {
      ReduceKeepsUnique(s, actions[0]);
      ReduceAllKeepsUnique(Reduce(s, actions[0]), actions[1..]);
    }
  }

  /**
    `createWatchList` keeps names unique exactly when they were unique and
    the name is new: it never checks whether the name is taken.
   */
  lemma CreateWatchListUniqueIff(s: WatchListState, name: string)
    ensures UniqueNames(CreateWatchList(s, name).watchlists) <==>
              UniqueNames(s.watchlists) && !HasList(s.watchlists, name)
  {
    var r := CreateWatchList(s, name).watchlists;
    var n := |s.watchlists|;
    if UniqueNames(s.watchlists) && !HasList(s.watchlists, name) {
      SnocKeepsUnique(s.watchlists, WatchList(name, []));
    }
    if HasList(s.watchlists, name) {
      var i :| 0 <= i < n && s.watchlists[i].name == name;
      assert r[i] == s.watchlists[i] && r[n].name == name;
    }
    if !UniqueNames(s.watchlists) {
      var i, j :| 0 <= i < j < n && s.watchlists[i].name == s.watchlists[j].name;
      assert r[i] == s.watchlists[i] && r[j] == s.watchlists[j];
    }
  }

  /**
    The initial state has no lists, and every run of actions other than
    `createWatchList` and `setWatchLists` from it keeps list names unique.
   */
  lemma InitialStateStaysUnique(actions: seq<Action>)
    requires forall k :: 0 <= k < |actions| ==> KeepsNamesUnique(actions[k])
    ensures InitialState.watchlists == []
    ensures UniqueNames(ReduceAll(InitialState, actions).watchlists)
  {
    ReduceAllKeepsUnique(InitialState, actions);
  }

  /** `createWatchList` appends even when the name is taken, so it can repeat a name. */
  lemma CreateWatchListCanRepeatName()
    ensures var s := AddWatchList(InitialState, "Tech");
            UniqueNames(s.watchlists) && !UniqueNames(CreateWatchList(s, "Tech").watchlists)
  {
    var s := AddWatchList(InitialState, "Tech");
    assert s.watchlists == [WatchList("Tech", [])];
    var r := CreateWatchList(s, "Tech");
    assert r.watchlists[0].name == r.watchlists[1].name;
  }
}

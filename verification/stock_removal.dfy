/**
  The remove path of the stock details screen: which list the remove
  handler empties of the ticker, when the removal misses because an earlier
  list carries the same name, and what the bookmark button dispatches.
 */
module StockRemoval {
  import opened Outcomes
  import opened Sequences
  import opened WatchListSlice
  import opened StockDetails

  /**
    The bookmark button never adds a stock or a list: when the stock is not
    shown as saved the lists stay as they are, and otherwise no list grows.
   */
  lemma BookmarkNeverAdds(s: WatchListState, screen: Screen, symbol: string)
    ensures var h := PressBookmark(screen, s.watchlists, symbol);
            var after := ReduceAll(s, h.dispatched).watchlists;
            && (!screen.saved ==> after == s.watchlists && h.screen.showAddModal)
            && |after| == |s.watchlists|
            && forall i :: 0 <= i < |after| ==> |after[i].stocks| <= |s.watchlists[i].stocks|
  {
    var h := PressBookmark(screen, s.watchlists, symbol);
    if h.dispatched != [] {
      var a := h.dispatched[0];
      assert h.dispatched == [a] && a.RemoveStockAction?;
      ReduceAllOne(s, a);
      var r := RemoveStock(s, a.watchlistName, a.ticker);
      FindNamed(s.watchlists, a.watchlistName);
      match FindFirst(s.watchlists, Named(a.watchlistName))
      case Some(k) =>
        assert IsFirstNamed(s.watchlists, a.watchlistName, k);
        forall i | 0 <= i < |r.watchlists|
          ensures |r.watchlists[i].stocks| <= |s.watchlists[i].stocks|
        {
          if i == k {
            assert r.watchlists[k].stocks == Filter(s.watchlists[k].stocks, NotTicker(a.ticker));
          }
        }
      case None =>
    }
  }

  /**
    With unique list names, `handleRemoveStock` removes the ticker from the
    first list holding it and from no other list.
   */
  lemma RemoveHitsFirstHoldingList(s: WatchListState, screen: Screen, symbol: string)
    requires UniqueNames(s.watchlists)
    ensures var h := HandleRemoveStock(screen, s.watchlists, symbol);
            var after := ReduceAll(s, h.dispatched).watchlists;
            forall i :: IsFirstHolding(s.watchlists, symbol, i) ==>
              && |after| == |s.watchlists|
              && !Holds(after[i], symbol)
              && after[i].name == s.watchlists[i].name
              && forall j :: 0 <= j < |after| && j != i ==> after[j] == s.watchlists[j]
  {
    forall i | IsFirstHolding(s.watchlists, symbol, i) {
      RemoveFirstHoldingAt(s, screen, symbol, i);
    }
  }

  /** The removal of `RemoveHitsFirstHoldingList`, at the first holding list `i`. */
  lemma RemoveFirstHoldingAt(s: WatchListState, screen: Screen, symbol: string, i: int)
    requires UniqueNames(s.watchlists) && IsFirstHolding(s.watchlists, symbol, i)
    ensures var after := ReduceAll(s, HandleRemoveStock(screen, s.watchlists, symbol).dispatched).watchlists;
            && |after| == |s.watchlists|
            && !Holds(after[i], symbol)
            && after[i].name == s.watchlists[i].name
            && forall j :: 0 <= j < |after| && j != i ==> after[j] == s.watchlists[j]
  {
    var name := s.watchlists[i].name;
    assert HandleRemoveStock(screen, s.watchlists, symbol).dispatched == [RemoveStockAction(name, symbol)];
    ReduceAllOne(s, RemoveStockAction(name, symbol));
    assert IsFirstNamed(s.watchlists, name, i);
    RemoveStockClearsTicker(s, name, symbol, i);
  }

  /**
    When an earlier list carries the name of the first list holding the
    ticker, the removal misses: `removeStock` filters that earlier list,
    which does not hold the ticker, so the lists are unchanged and the
    ticker stays saved, although the handler clears `saved`; pressing the
    bookmark again dispatches the same removal.
   */
  lemma RemoveMissesWhenNameShadowed(s: WatchListState, screen: Screen, symbol: string, i: int, k: int)
    requires symbol != ""
    requires IsFirstHolding(s.watchlists, symbol, i)
    requires IsFirstNamed(s.watchlists, s.watchlists[i].name, k) && k < i
    ensures var h := HandleRemoveStock(screen, s.watchlists, symbol);
            var after := ReduceAll(s, h.dispatched).watchlists;
            && !h.screen.saved
            && after == s.watchlists
            && IsSaved(Some(symbol), Some(after))
            && PressBookmark(screen.(saved := true), after, symbol).dispatched == h.dispatched
  {
    var lists := s.watchlists;
    var name := lists[i].name;
    assert HandleRemoveStock(screen, lists, symbol).dispatched == [RemoveStockAction(name, symbol)];
    ReduceAllOne(s, RemoveStockAction(name, symbol));
    RemoveStockSkipsNonHolder(s, name, symbol, k);
    assert Holds(lists[i], symbol);
  }

  /** `removeStock` aimed at a first named list that lacks the ticker changes nothing. */
  lemma RemoveStockSkipsNonHolder(s: WatchListState, name: string, symbol: string, k: int)
    requires IsFirstNamed(s.watchlists, name, k) && !Holds(s.watchlists[k], symbol)
    ensures RemoveStock(s, name, symbol) == s
  {
    var stocks := s.watchlists[k].stocks;
    forall j | 0 <= j < |stocks|
      ensures NotTicker(symbol)(stocks[j])
    {
    }
    FilterAll(stocks, NotTicker(symbol));
    var after := RemoveStock(s, name, symbol).watchlists;
    assert after[k] == s.watchlists[k];
    assert after == s.watchlists;
  }

  /**
    Without unique names the removal can miss: the first list holding the
    ticker shares its name with an earlier list, and `removeStock` filters
    that earlier list instead. The handler clears `saved`, but the ticker is
    still saved in the lists, so the saved-check effect sets it back; the
    lists are unchanged, and pressing the bookmark again dispatches the same
    removal, so the ticker cannot be removed from this screen.
   */
  lemma RemoveMissesBehindRepeatedName()
    ensures var apple := Stock("AAPL", "+1.00", "190.00", "+0.53%");
            var lists := [WatchList("Tech", []), WatchList("Tech", [apple])];
            var h := HandleRemoveStock(Screen(true, false, "", ""), lists, "AAPL");
            && !h.screen.saved
            && ReduceAll(WatchListState(lists), h.dispatched).watchlists == lists
            && IsSaved(Some("AAPL"), Some(ReduceAll(WatchListState(lists), h.dispatched).watchlists))
            && PressBookmark(Screen(true, false, "", ""), ReduceAll(WatchListState(lists), h.dispatched).watchlists, "AAPL") == h
  {
    var apple := Stock("AAPL", "+1.00", "190.00", "+0.53%");
    var lists := [WatchList("Tech", []), WatchList("Tech", [apple])];
    assert lists[1].stocks[0].ticker == "AAPL";
    assert Holds(lists[1], "AAPL") && !Holds(lists[0], "AAPL");
    assert IsFirstHolding(lists, "AAPL", 1);
    assert IsFirstNamed(lists, "Tech", 0);
    RemoveMissesWhenNameShadowed(WatchListState(lists), Screen(true, false, "", ""), "AAPL", 1, 0);
  }
}

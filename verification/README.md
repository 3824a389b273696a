# Grow stock app core in Dafny

This project is a Dafny model of the data core of a React Native stock-tracking app. The modelled parts are:

- **Cache-aside fetchers** (`StockCache`). The two data hooks, `getGainerLoser` and `getStockDetail`, each:
  - read a persisted `{data, timestamp}` entry from the device key-value store;
  - serve it while it is under one hour old;
  - otherwise call the quote service, reject any status other than 200, overwrite the entry and return the data.

  The store is a `map` from key to what `getItem` and `JSON.parse` see. The quote service's answer and both `Date.now()` readings are inputs. Every read, request and write is recorded in order.
- **Watchlist slice** (`WatchListSlice`):
  - the named lists of saved stocks;
  - the seven reducers and their initial state;
  - a reducer over sequences of actions.
- **Stock details screen commands** (`StockDetails`):
  - the "is saved" effect;
  - `handleAddStock`;
  - `handleRemoveStock`;
  - the bookmark button.

  A handler is modelled by the screen state it leaves and the actions it dispatches. The watchlist reducer applies the dispatched actions.
- **Remove path and bookmark** (`StockRemoval`): which list `handleRemoveStock` hits, when it misses behind a repeated list name, and what the bookmark button dispatches.
- **User slice** (`UserSlice`): `setUser`, `updateUser` (object spread) and `clearUser`.
- **Top list slice** (`TopList`): `setList` and `removeList`.
- **Chart helpers** (`TimeSeries`): `parseDailyData` and `parseIntradayData`. Each sorts time-series entries by parsed timestamp, and the daily one also keeps the newest `days`.

Two support modules state the JavaScript built-ins once:

- `Sequences`: `find`/`findIndex`, `some`, `filter`, `map`, stable `sort` and one-argument `slice`.
- `JsString`: `String.prototype.trim` with the ECMA-262 white space and line terminator set.

`Outcomes` holds `Option` and `Result`.

Behaviour of the code worth knowing, as the model states it:

- **Corrupt cache entries.** A corrupt entry is not treated as a miss: `JSON.parse`, or the destructuring of `null`, throws before any request (hooks/stocks.hook.ts:19, :94). So `FetchWithCache` fails with `MalformedEntry` and makes no request.
- **Blank entries.** An empty stored string is falsy and is skipped like a missing key (`BlankIsMiss`).
- **Repeated list names.** `createWatchList` appends without checking (store/watchListSlice.ts:29), so list names stay unique only under the other actions (`ReduceAllKeepsUnique`, `CreateWatchListUniqueIff`).
- **Removal with repeated names.** `handleRemoveStock` passes the name of the first list *holding* the ticker, but `removeStock` filters the first list *carrying that name*. When two lists share the name, the ticker survives the removal whenever an earlier list carries the name of the first list holding it (`RemoveMissesWhenNameShadowed`). The handler clears `saved`, but the saved-check effect (components/custom/StockDetailsScreen.tsx:70-79) finds the ticker still saved and sets it back. Pressing the bookmark again repeats the same removal, so the ticker cannot be removed from this screen (`RemoveMissesBehindRepeatedName`).

## Model

| member | source | states |
|---|---|---|
| StockCache.FetchWithCache | hooks/stocks.hook.ts:15-35 | Reads the key first. A fresh entry (under one hour old) is returned as stored, with no request and no write. A corrupt entry throws without a request. A request happens exactly when the entry is neither fresh nor corrupt. Status 200 overwrites the entry with the body and the second clock reading. Any other status throws the resource's message, and a rejected request throws. A failed call leaves the store as it was. Any write is the last effect, is under the key, and happens only on success. |
| StockCache.GetGainerLoser | hooks/stocks.hook.ts:10-35 | Reads `topGainerLoserData` first and requests the TOP_GAINERS_LOSERS endpoint when it requests at all. Throws "Failed to fetch data" exactly when a non-fresh, parseable entry meets a non-200 response. No other key changes. |
| StockCache.GetStockDetail | hooks/stocks.hook.ts:84-110 | For an empty company, returns null without touching the store or the network. Otherwise it is the cache-aside fetch under `stockDetail_<company>` and the OVERVIEW endpoint for that symbol. Throws "Failed to fetch details" exactly when a non-fresh, parseable entry meets a non-200 response. For a non-empty company the result is the stored or fetched payload, never the empty-company `null`. No other key changes. |
| StockCache.DetailKey | hooks/stocks.hook.ts:86 | A company's cache key is `stockDetail_` followed by exactly the company symbol. |
| StockCache.DetailKeyInjective | hooks/stocks.hook.ts:86 | Distinct companies have distinct cache keys, so each has its own entry and age. |
| StockCache.DetailKeyIsNotTopMoversKey | hooks/stocks.hook.ts:12 | No company's cache key coincides with the top movers key. |
| StockCache.ExactlyOneHourOldIsRefetched | hooks/stocks.hook.ts:13-25 | An entry exactly one hour old is stale (the comparison is strict) and the endpoint is requested. |
| StockCache.BlankIsMiss | hooks/stocks.hook.ts:17-25 | A missing key and an empty stored string both go straight to the request. |
| StockCache.WriteThenReadWithinHour | hooks/stocks.hook.ts:17-34 | After a successful refresh, any read less than an hour after the write returns the written body with no request and no store change. |
| StockCache.LastRefreshWins | hooks/stocks.hook.ts:30-33 | Two successful refreshes an hour apart leave exactly the latest body and timestamp under the key. |
| StockCache.TopMoversFetchKeepsDetails | hooks/stocks.hook.ts:12-34 | A top movers fetch never changes a company entry's presence or freshness. |
| StockCache.DetailFetchKeepsOthers | hooks/stocks.hook.ts:86-109 | A company fetch never changes the freshness of the top movers entry or of another company's entry. |
| Sequences.FindFirst | store/watchListSlice.ts:39 | Returns the first index whose element satisfies the predicate, and none exactly when no element does (`find`). |
| Sequences.AnyOf | store/watchListSlice.ts:60 | `some` holds exactly when some element satisfies the predicate. |
| Sequences.Filter | store/watchListSlice.ts:56 | Every kept element satisfies the predicate and comes from the input; every input element that satisfies it is kept. |
| Sequences.Map | utils/parseDaily.ts:7-10 | `map` keeps the length, and each output element is the function applied to the input element at the same position. |
| Sequences.SortBy | utils/parseDaily.ts:5 | The result is a permutation of the input, in ascending key order. |
| Sequences.SliceFrom | utils/parseDaily.ts:6 | `slice(start)` is a suffix. A negative start keeps the last `-start` elements (all if fewer); a non-negative start drops the first `start`. |
| JsString.Trim | components/custom/StockDetailsScreen.tsx:118-121 | The trimmed name is a contiguous piece of the typed name, starting right after its leading white space. |
| JsString.TrimIsCore | components/custom/StockDetailsScreen.tsx:118-121 | The trimmed name is the middle of the input: everything before and after it is white space or a line terminator, and it neither starts nor ends with one. |
| JsString.TrimEmptyIffBlank | components/custom/StockDetailsScreen.tsx:118 | A typed name trims to empty exactly when every character is white space or a line terminator. |
| JsString.TrimIdempotent | components/custom/StockDetailsScreen.tsx:120-121 | Trimming a trimmed name changes nothing. |
| WatchListSlice.CreateWatchList | store/watchListSlice.ts:27-33 | Appends an empty list with the name and leaves the existing lists as they were. |
| WatchListSlice.AddStock | store/watchListSlice.ts:34-48 | When a list with the name exists, the stock is appended to the first such list and every other list is unchanged. Otherwise one new list holding just the stock is appended. |
| WatchListSlice.RemoveStock | store/watchListSlice.ts:49-58 | The first list with the name keeps its name and exactly its stocks with other tickers, in order. Other lists are unchanged; an unknown name changes nothing. |
| WatchListSlice.AddWatchList | store/watchListSlice.ts:59-63 | A taken name changes nothing. A new name appends an empty list. Afterwards a list with the name exists. |
| WatchListSlice.RemoveWatchList | store/watchListSlice.ts:64-68 | No list with the name remains, every other list survives, and nothing new appears. |
| WatchListSlice.SetWatchLists | store/watchListSlice.ts:69-71 | The lists become exactly the payload. |
| WatchListSlice.ClearAllWatchLists | store/watchListSlice.ts:72-74 | No lists remain. |
| WatchListSlice.Reduce | store/watchListSlice.ts:23-76 | Each action does what its case reducer promises: `createWatchList` adds one list, `addStock` and `addWatchList` leave a list with the name, `removeStock` keeps the number of lists, `removeWatchList` leaves no list with the name, `setWatchLists` installs the payload, and `clearAllWatchLists` gives the initial state. |
| WatchListSlice.ReduceAll | store/watchListSlice.ts:69-74 | After a run of actions ending in `setWatchLists`, the lists are that payload. After a run ending in `clearAllWatchLists`, the state is the initial one. |
| WatchListSlice.ReduceAllConcat | store/watchListSlice.ts:23-76 | Dispatching two runs of actions one after the other equals dispatching their concatenation. |
| WatchListSlice.InitialStateStaysUnique | store/watchListSlice.ts:19-21 | The initial state has no lists. Any run of actions other than `createWatchList` and `setWatchLists` from it keeps list names unique. |
| WatchListSlice.ResetsForgetHistory | store/watchListSlice.ts:69-74 | After `setWatchLists` or `clearAllWatchLists`, any further actions give the same state whatever came before: the installed lists, or the initial empty state. |
| WatchListSlice.RemoveWatchListKeepsOrder | store/watchListSlice.ts:64-68 | Removal distributes over concatenation, so the survivors keep their relative order, and a part without the name is kept whole. |
| WatchListSlice.AddStockLandsInFirstNamed | store/watchListSlice.ts:38-47 | After `addStock`, the first list with the name exists and ends with the stock. |
| WatchListSlice.RemoveStockClearsTicker | store/watchListSlice.ts:53-57 | After `removeStock`, the first list with the name holds no stock with the ticker, keeps its name, and every other list is unchanged. |
| WatchListSlice.AddWatchListIdempotent | store/watchListSlice.ts:59-63 | Adding the same list name twice equals adding it once. |
| WatchListSlice.AddStockKeepsDuplicates | store/watchListSlice.ts:40-46 | Adding a stock twice stores two more copies of its ticker: `addStock` does not deduplicate. |
| WatchListSlice.FilterKeepsUnique | store/watchListSlice.ts:65-67 | Filtering lists with unique names leaves names unique. |
| WatchListSlice.ReduceKeepsUnique | store/watchListSlice.ts:34-74 | Every action except `createWatchList` and `setWatchLists` keeps list names unique. |
| WatchListSlice.ReduceAllKeepsUnique | store/watchListSlice.ts:34-74 | Any sequence of such actions from a state with unique names keeps them unique. |
| WatchListSlice.CreateWatchListUniqueIff | store/watchListSlice.ts:27-33 | After `createWatchList`, names are unique exactly when they were unique before and the name was not taken. |
| WatchListSlice.CreateWatchListCanRepeatName | store/watchListSlice.ts:27-33 | `createWatchList` can create a second list with a taken name. |
| StockDetails.IsSaved | components/custom/StockDetailsScreen.tsx:70-79 | Saved exactly when the symbol is present and non-empty, the watchlists are an array, and some list holds a stock with that ticker. |
| StockDetails.StockRecord | components/custom/StockDetailsScreen.tsx:127-132 | The stored stock takes its ticker from the overview symbol and its price, change and change percentage from the quote row. |
| StockDetails.HandleAddStock | components/custom/StockDetailsScreen.tsx:113-140 | A selected list receives the stock. With no selection and a non-blank typed name, the trimmed name is first ensured to exist and then receives the stock. With neither, nothing is dispatched and the screen is unchanged. After any dispatch, the screen shows the stock as saved, the dialog closed and both fields cleared. Every added stock goes to a non-empty list name. |
| StockDetails.HandleRemoveStock | components/custom/StockDetailsScreen.tsx:142-156 | Dispatches exactly when some list holds the ticker, and then exactly one `removeStock` naming the first list that holds it, marking the stock not saved. Otherwise nothing changes. |
| StockDetails.PressBookmark | components/custom/StockDetailsScreen.tsx:189-196 | When saved, the press is the remove handler; otherwise it only opens the add dialog. It never dispatches anything but removals. |
| StockDetails.EnsureThenAddIsAdd | components/custom/StockDetailsScreen.tsx:120-134 | The `addWatchList` that `handleAddStock` dispatches before `addStock` has no effect of its own: the pair equals `addStock` alone. |
| StockDetails.DispatchedAddIsAddStock | components/custom/StockDetailsScreen.tsx:113-140 | Whatever `handleAddStock` dispatches has the effect of one `addStock` of the stock record into the target list. |
| StockDetails.AddStockMakesSaved | components/custom/StockDetailsScreen.tsx:70-79 | After `addStock`, some list holds the stock's ticker, which is what the saved-check looks for, and the first list with the name ends with the stock. This holds for every stock, including one with an empty ticker. |
| StockDetails.AddedStockIsSaved | components/custom/StockDetailsScreen.tsx:113-140 | For a non-empty symbol, when `handleAddStock` dispatches, the saved-check over the resulting lists agrees with the `saved` flag it sets. |
| StockDetails.EmptySymbolSavedButNotFound | components/custom/StockDetailsScreen.tsx:70-140 | With an empty symbol, a dispatching `handleAddStock` still sets `saved`, but the saved-check over the resulting lists is false, so the effect turns it off again. A selected list always makes it dispatch. |
| StockRemoval.RemoveHitsFirstHoldingList | components/custom/StockDetailsScreen.tsx:142-156 | With unique list names, removal takes the ticker out of the first list holding it and leaves every other list unchanged. |
| StockRemoval.RemoveMissesWhenNameShadowed | components/custom/StockDetailsScreen.tsx:142-156 | When an earlier list carries the same name as the first list holding a non-empty ticker, the removal leaves the lists unchanged and the ticker saved. The handler clears `saved`, the saved-check over the lists is still true so the effect restores it, and a further bookmark press dispatches the same removal again. |
| StockRemoval.RemoveMissesBehindRepeatedName | components/custom/StockDetailsScreen.tsx:70-196 | An instance of that case, `[Tech [], Tech [AAPL]]`: removing AAPL leaves the lists unchanged, the saved-check still true and a repeat press dispatching the same removal, so the press has no lasting effect. |
| StockRemoval.BookmarkNeverAdds | components/custom/StockDetailsScreen.tsx:189-196 | A bookmark press never adds a stock or a list. When not saved, the lists stay as they are and the add dialog opens; otherwise the number of lists is kept and no list gains stocks. |
| UserSlice.UpdateUser | store/userSlice.ts:28-30 | Each field present in the payload takes the payload's value; each absent field keeps the old value. |
| UserSlice.SetUser | store/userSlice.ts:22-24 | `id`, `name` and `email` come from the payload; `avatarUrl` does too when present, otherwise it keeps the old value. |
| UserSlice.ClearUser | store/userSlice.ts:25-27 | Every field is null again. |
| UserSlice.InitialUserSignedOut | store/userSlice.ts:11-16 | The initial state has every field null. A `setUser` from it without an avatar leaves the avatar null, and `clearUser` returns to it from any state. |
| UserSlice.UpdateWithEmptyPatch | store/userSlice.ts:28-30 | An empty payload changes nothing. |
| UserSlice.UpdateIdempotent | store/userSlice.ts:28-30 | Applying the same payload twice equals applying it once. |
| UserSlice.UpdateComposes | store/userSlice.ts:28-30 | Two updates equal one update with the merged payload, the later payload's fields winning. |
| UserSlice.FullPatchForgetsPrior | store/userSlice.ts:28-30 | A payload with every field present determines the state whatever it was before. |
| UserSlice.ClearUserResets | store/userSlice.ts:11-27 | Clearing after any update gives the initial state, and clearing twice equals clearing once. |
| TopList.SetList | store/topList.ts:17-20 | Both lists are taken from the payload. |
| TopList.RemoveList | store/topList.ts:21-24 | Both lists are empty, whatever the payload. |
| TopList.InitialTopListEmpty | store/topList.ts:8-11 | The initial state has both lists empty, and `removeList` keeps it so. |
| TopList.LastSetListWins | store/topList.ts:17-20 | The last `setList` determines the state; what came before it does not matter. |
| TopList.RemoveListResets | store/topList.ts:8-24 | `removeList` is idempotent and undoes any `setList`, giving the initial state. |
| TimeSeries.Chronological | utils/parseDaily.ts:4-5 | The entries are permuted into ascending order of parsed timestamp. |
| TimeSeries.ParseDailyData | utils/parseDaily.ts:2-11 | A positive `days` yields the newest `min(days, n)` entries. Zero yields all entries, since `-0` is `0`. A negative `days` drops the oldest `-days`. The result is the date and close of a chronological suffix. |
| TimeSeries.DailyIsChronological | utils/parseDaily.ts:3-10 | The daily points are in ascending order of parsed date. |
| TimeSeries.DailyKeepsNewest | utils/parseDaily.ts:3-6 | Every entry left out is no newer than any kept point. |
| TimeSeries.DailyPointsFromEntries | utils/parseDaily.ts:7-10 | Each daily point is the date and close of some input entry. |
| TimeSeries.ParseIntradayData | utils/parseIntraday.ts:2-9 | One point per entry, a permutation of the entries' time and close, in ascending order of parsed time. |
| TimeSeries.IntradayPointsFromEntries | utils/parseIntraday.ts:3-7 | Each intraday point is the time and close of some input entry. |
| TimeSeries.IntradayKeepsEveryEntry | utils/parseIntraday.ts:3-8 | Every input entry appears among the intraday points. |
| TimeSeries.IntradayTimesDistinct | utils/parseIntraday.ts:3-8 | Because an object's keys are distinct, no time appears twice among the intraday points. |

## Left out

- **Inputs in place of I/O.** AsyncStorage, axios and `Date.now()` are inputs: the store map, the `Response` value and the two clock readings (`now` for the read, `later` for the write).
  - Concurrency between overlapping fetches is not modelled.
  - A rejected `setItem` is not modelled; writes are taken to succeed.
  - A rejected `getItem` (hooks/stocks.hook.ts:17, :92) is not modelled; reads are taken to succeed. In the source such a read makes the call throw before any request, and `FetchError` has no case for it.
- The HTTP client's own rejection of non-2xx statuses is folded into the `Response` input. A caller picks `Rejected` or a `Reply` with any status.
- JSON text is represented by what parsing yields (`Stored`: blank, corrupt, or a record). A timestamp that is missing or not a number is `None` and makes the entry stale. A numeric string that JavaScript would coerce in the subtraction is not represented.
- The TanStack Query layer is not modelled: query keys, deduplication of concurrent observers, the `enabled: !!company` gate at hooks/stocks.hook.ts:121, loading and error flags, and refetch options. The empty-company guard inside `getStockDetail` is modelled.
- The quote service URLs and the API key are left out (config/env.ts is not part of this model). The endpoint is represented by `Endpoint`.
- `parseFloat` and `new Date(...).getTime()` are left out:
  - close values are kept as the text of the `"4. close"` field (`None` when it is missing);
  - date parsing is an abstract `parseTime: string -> int`;
  - `NaN` from an unparseable date is not modelled, and it would make the JavaScript sort order implementation-defined.
- StockCache.GetStockDetail: a payload that is itself JSON `null` (a 200 reply with a `null` body, or a stored `{"data": null}`) is returned inside `Some`. The model tells it apart from the empty-company `null`, which the source does not.
- StockDetails.AddedStockIsSaved: holds only for a non-empty symbol. With an empty or missing `Symbol` (components/custom/StockDetailsScreen.tsx:71, :128, :135), the handler stores a stock with an empty (or, for a missing `Symbol`, undefined) ticker and sets `saved`, and the saved-check then turns it off. StockDetails.EmptySymbolSavedButNotFound states that case.
- Sequences.SortBy: stable like `Array.prototype.sort`, but stability is not stated as a property. Only order and permutation are proved.
- `Object.entries` order is the given entry sequence. TimeSeries.IntradayTimesDistinct assumes distinct keys, which every JavaScript object has.
- The 52-week range position (components/custom/StockDetailsScreen.tsx:103-110) uses floating-point arithmetic and is left out. So is everything that only renders: the screen layout, modal, chart, navigation and theming.
- `companyData.Symbol` being undefined in the handlers is not modelled: the handlers take the symbol as a string. The saved-check does take an optional symbol.
- `wl.stocks?.some` on a list without a `stocks` array is not modelled: every list has a stock sequence. `Array.isArray(watchlists)` failing is modelled as `None`.
- The `typeof newWatchlistName === "string"` test always holds in the model, since the field is a string.
- Object spread with a payload field explicitly set to `undefined` is not modelled: a field is present with a string or null, or it is absent.
- `createWatchList` is modelled as a reducer case, although it is not among the exported action creators (store/watchListSlice.ts:78-85).
- Not part of this model: hooks/user.hook.ts, the biometric authentication, the store wiring and every UI screen other than the watchlist commands.

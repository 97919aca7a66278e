# Crypto dashboard core, modelled in Dafny

This project models the derivation logic of a React crypto-currency
dashboard: the price-alert engine, the portfolio of holdings with its
analytics, the two favourites lists, and the way each change is written to
its own `localStorage` slot. The coin feed fetched from the price service is
an input sequence; everything shown on screen is left out.

Layout, one module per file:

- `optional.dfy` (`Optional`): the `Option` type used for empty inputs and missing records.
- `lists.dfy` (`Lists`): `filter`, the subsequence relation it establishes, and the favourites toggle.
- `feed.dfy` (`Feed`): the `Coin` record, find-first lookup by id, the market search, the card search and the favourites view.
- `alerts.dfy` (`Alerts`): alert records, the trigger guard, one evaluation pass, removal by id.
- `holdings.dfy` (`Holdings`): the portfolio as an insertion-ordered map keyed by coin id.
- `analytics.dfy` (`Analytics`): portfolio totals and the sorted per-holding breakdown.
- `storage.dfy` (`Storage`): the slot store shared by both components, plus the start-up loaders.
- `app.dfy` (`Dashboard`): class `App`, with the `App` component's state and handlers.
- `cards.dfy` (`Cards`): class `CryptoCards`, with the card grid's favourites by name.

The handlers are methods of a class. The fields are the React state: `alerts`,
`portfolio` and `favorites`. A shared `LocalStorage` object holds the slots.
Each handler's postcondition gives the new value of every field, and gives
the new slot map as the old one with at most one slot replaced. A no-op
branch, or an alert pass in which nothing fires, leaves every slot as it was. The derived
values are pure functions: `filteredCoins`, `portfolioValue`,
`totalInvested`, the profit/loss figures and `portfolioBreakdown`. Lemmas
state their properties.

Some definitions carry no contract of their own. Their properties are
stated by the rows named here:

- `Analytics.PortfolioValue`: `PortfolioValueIsReduce`, `TotalsAppend`, `RowsValueSum`.
- `Analytics.TotalInvested`: `TotalInvestedIsReduce`, `TotalsAppend`.
- `Analytics.TotalProfitLoss`: `RowsProfitLossSum`, `BreakdownTotals`, `TotalProfitLossPercent`.
- `Analytics.MakeRow`: `RowMeaning`.
- `Analytics.Breakdown`: `BreakdownRows`, `BreakdownTotals`, `BreakdownWeights`.
- `Analytics.Share`: `ShareAdd`, `ShareOfWhole`.
- `Alerts.EvaluateAlert` and `Alerts.Fires`: `EvaluateAlertFires`.
- `Feed.Contains`: `ContainsAt`.
- `Feed.MatchesSearch`: `SearchIgnoresCase`.
- `Feed.NameMatches`: `CardsWithinMarket`.

In a few places the code behaves otherwise than one would expect of such a
dashboard. The model follows the code:

- Adding a holding does not reject a zero or negative amount, although a holding's amount is meant to be positive. Only an empty field is rejected.
- A per-holding profit/loss percentage is not guarded against a zero cost, although a zero cost is expected to show 0 %. The model leaves that percentage undefined (`None`), where the source produces NaN or an infinity.
- Loading a slot that holds corrupt text throws in the source. The source has no fallback to an empty collection, although a broken slot is expected to load as empty.
- Weights and the total P/L percentage fall back to 0 whenever the divisor is not positive. The guard is `> 0`, not `== 0`.
- Favourites are a list that may hold a value twice if the stored slot already does. They are not a set.

## Model

| member | source | states |
|---|---|---|
| `Lists.Filter` | src/App.jsx:175 | the result holds exactly the elements that pass the test, in their original order; if every element passes, the input comes back unchanged |
| `Lists.FilterCount` | src/App.jsx:175 | every element that passes the test occurs in the result as many times as in the input, and no other element occurs |
| `Lists.FilterAppend` | src/App.jsx:143 | filtering a concatenation gives the concatenation of the filtered parts |
| `Lists.FilterOutCount` | src/App.jsx:143 | filtering out one value removes every occurrence of it and nothing else (as a multiset) |
| `Lists.FilterKeepsNoDuplicates` | src/App.jsx:143 | filtering a duplicate-free list gives a duplicate-free list |
| `Lists.Toggle` | src/App.jsx:142-144 | the toggled value is a member afterwards iff it was not before; every other value keeps its membership; an absent value is appended at the end; a present value is removed and the rest keep their order and their counts |
| `Lists.ToggleTwiceAbsent` | src/components/CryptoCards.jsx:28-37 | toggling an absent value twice restores the list exactly |
| `Lists.OccursOnce` | src/components/CryptoCards.jsx:30-31 | a value present in a duplicate-free list occurs exactly once |
| `Lists.ToggleTwicePresent` | src/components/CryptoCards.jsx:30-34 | toggling a present value twice on a duplicate-free list restores its elements, but with that value moved to the end |
| `Lists.ToggleTwiceReorders` | src/App.jsx:141-147 | concrete case: toggling "bitcoin" twice in ["bitcoin", "ethereum"] gives ["ethereum", "bitcoin"] |
| `Lists.ToggleKeepsNoDuplicates` | src/components/CryptoCards.jsx:28-37 | the toggle never creates a duplicate, so a list built only by toggles stays duplicate-free |
| `Feed.FindCoin` | src/App.jsx:94 | `None` exactly when no coin has the id; otherwise the coin at the first index with that id |
| `Feed.FilteredCoins` | src/App.jsx:126-131 | keeps exactly the coins whose lower-cased name or symbol contains the lower-cased search, each as many times as in the feed, in feed order; an empty search keeps the whole feed |
| `Feed.CardsShown` | src/components/CryptoCards.jsx:48-50 | keeps exactly the coins whose lower-cased name contains the lower-cased search, each as many times as in the feed, in feed order; an empty search keeps every coin |
| `Feed.CardsWithinMarket` | src/components/CryptoCards.jsx:48-50 | every coin the card grid shows for a search (name only) is also shown by the market search (name or symbol) |
| `Feed.Lower` | src/App.jsx:128-129 | lower-casing keeps the length, turns each ASCII capital into the small letter 32 code points above it, leaves no ASCII capital, and changes no other character |
| `Feed.LowerIdempotent` | src/App.jsx:128-129 | lower-casing an already lower-cased string changes nothing |
| `Feed.ContainsAt` | src/App.jsx:128 | `includes` holds iff the search text is the slice of the name starting at some index; this covers the empty text, which every name contains |
| `Feed.SearchIgnoresCase` | src/App.jsx:126-131 | a coin matches a search iff it matches the lower-cased search |
| `Feed.FavoriteCoins` | src/App.jsx:1046-1047 | keeps exactly the feed coins whose id is a favourite, each as many times as in the feed, in feed order |
| `Alerts.ShouldTrigger` | src/App.jsx:97-99 | an `Above` alert fires iff price >= target; a `Below` alert fires iff price <= target (both inclusive) |
| `Alerts.Trigger` | src/App.jsx:113 | a triggered alert has status `Triggered` and `triggeredAt = now`, and every other field is as it was |
| `Alerts.EvaluateAlertFires` | src/App.jsx:93-116 | the `map` callback returns the triggered alert exactly when the alert fires (active, coin in the feed, guard true), and the alert itself otherwise |
| `Alerts.EvaluateAlerts` | src/App.jsx:93-116 | same length and order as the input; an alert changes iff it fires (active, coin in the feed, guard true); a firing alert becomes `Triggered` with `triggeredAt = now` and no other field changed; triggered alerts and alerts whose coin is absent are unchanged |
| `Alerts.Fired` | src/App.jsx:101-111 | the alerts that fire in a pass, each as many times as in the list, in list order |
| `Alerts.NothingFiresWithoutFeed` | src/App.jsx:91 | with an empty feed nothing fires and the pass is the identity, so the early return changes nothing |
| `Alerts.EvaluateIdempotent` | src/App.jsx:90-123 | re-evaluating a pass's output against the same feed, at any later time, returns it unchanged |
| `Alerts.NoRefire` | src/App.jsx:101 | no alert fires on a pass's output |
| `Alerts.ChangedIffFired` | src/App.jsx:118-122 | a pass changes the list iff at least one alert fires |
| `Alerts.ActiveCountDrops` | src/App.jsx:101-113 | the number of active alerts falls by exactly the number of alerts that fired |
| `Alerts.RemoveById` | src/App.jsx:174-178 | removes every alert with the id, keeps every other alert as many times as before and in order, and changes nothing when the id is absent |
| `Holdings.Keys` | src/App.jsx:250 | one key per entry, each the entry's coin id, in entry order |
| `Holdings.Get` | src/App.jsx:215 | `None` exactly when the coin id is not a key; otherwise an entry with that coin id |
| `Holdings.Put` | src/App.jsx:183-195 | afterwards the key maps to the new holding, whatever was there before; every other key maps to what it did |
| `Holdings.PutKeys` | src/App.jsx:183-195 | an existing key keeps its position; a new key is appended at the end |
| `Holdings.PutUnique` | src/App.jsx:183-195 | adding or replacing an entry keeps coin ids unique |
| `Holdings.Delete` | src/App.jsx:202-207 | the key is gone; every other key maps to what it did; the order is kept; an absent key changes nothing |
| `Holdings.DeleteKeys` | src/App.jsx:203-204 | the key list loses exactly that key |
| `Holdings.DeleteUnique` | src/App.jsx:203-204 | deleting keeps coin ids unique |
| `Holdings.SetAmount` | src/App.jsx:212-218 | for a present key only that entry's `amount` changes; its other fields, every other entry and the key order are kept; an absent key changes nothing |
| `Analytics.PriceOf` | src/App.jsx:259 | the first feed coin's price, or 0 when the coin is not in the feed |
| `Analytics.CurrentValue` | src/App.jsx:229-233 | amount times the feed price, so 0 for a coin missing from the feed |
| `Analytics.PortfolioValueIsReduce` | src/App.jsx:227-235 | the source's left-to-right `reduce`, which skips holdings whose coin is not in the feed, gives `PortfolioValue` from a 0 start |
| `Analytics.TotalInvestedIsReduce` | src/App.jsx:238-242 | the source's left-to-right `reduce` of amount × purchasePrice gives `TotalInvested` from a 0 start |
| `Analytics.TotalsAppend` | src/App.jsx:227-242 | the recursive totals agree with the source's left-to-right `reduce`: appending a holding adds its value and its amount × purchasePrice |
| `Analytics.PutTotals` | src/App.jsx:180-198 | re-adding a coin replaces the old entry's cost and value by the new one's in both totals (no averaging) |
| `Analytics.DeleteTotals` | src/App.jsx:202-207 | removing a coin takes exactly its cost and value out of both totals |
| `Analytics.TotalProfitLossPercent` | src/App.jsx:245-246 | 0 whenever total invested <= 0; otherwise pct × invested = (value − invested) × 100 |
| `Analytics.RowMeaning` | src/App.jsx:251-259 | a `MakeRow` row's current price (0 when absent), value = amount × price, P/L = value − cost, P/L % × cost = P/L × 100 (undefined when cost = 0), weight × total = value × 100 (0 when total <= 0) |
| `Analytics.InsertSorted` | src/App.jsx:265 | inserting into rows sorted by non-increasing value keeps them sorted |
| `Analytics.InsertWithValue` | src/App.jsx:265 | an inserted row goes ahead of every row of equal value already there |
| `Analytics.SortByValue` | src/App.jsx:265 | a permutation of the rows, in non-increasing current value, with rows of equal value in their original relative order (stable) |
| `Analytics.SumInsert` | src/App.jsx:265 | inserting a row adds its column value to the column's sum |
| `Analytics.SumSort` | src/App.jsx:265 | sorting leaves every column sum unchanged |
| `Analytics.HoldingsOfSort` | src/App.jsx:265 | sorting permutes the holdings of the rows |
| `Analytics.BreakdownRows` | src/App.jsx:249-265 | exactly one row per holding (same multiset of holdings), each row computed from its own holding and the feed, sorted by non-increasing value, ties in portfolio order |
| `Analytics.RowsValueSum` | src/App.jsx:252 | the rows' current values add up to `portfolioValue` |
| `Analytics.RowsProfitLossSum` | src/App.jsx:253 | the rows' P/L values add up to `totalProfitLoss` |
| `Analytics.RowsWeightSum` | src/App.jsx:255 | the rows' weights add up to the portfolio value's share of the total |
| `Analytics.ShareAdd` | src/App.jsx:255 | weights (`Share`) of parts of one total add up like the parts |
| `Analytics.ShareOfWhole` | src/App.jsx:255 | a positive total has a weight of exactly 100 in itself |
| `Analytics.BreakdownTotals` | src/App.jsx:245-265 | the breakdown's value column sums to `portfolioValue` and its P/L column to `totalProfitLoss` (`TotalProfitLoss`, value minus invested) |
| `Analytics.BreakdownWeights` | src/App.jsx:255 | the weights sum to exactly 100 when `portfolioValue` > 0; otherwise every weight is 0 |
| `Analytics.ExampleRow` | src/App.jsx:252-254 | 2 coins bought at 100 and quoted at 150: worth 300, P/L 100, 50 % |
| `Storage.LocalStorage.SetItem` | src/App.jsx:146 | only the named slot changes, and it now holds the value |
| `Storage.LoadNames` | src/components/CryptoCards.jsx:9-11 | a missing slot loads as the empty list; a stored list loads as itself |
| `Storage.LoadAlerts` | src/App.jsx:70 | a missing `cryptoAlerts` slot loads as no alerts; a stored list loads as itself |
| `Storage.LoadPortfolio` | src/App.jsx:71 | a missing `cryptoPortfolio` slot loads as the empty portfolio; a stored one loads as itself |
| `Storage.SaveThenLoad` | src/App.jsx:67-75 | loading a favourites, alerts or portfolio slot right after writing it returns what was written |
| `Storage.WriteKeepsOthers` | src/App.jsx:67-75 | writing any value to one slot leaves what every other slot loads unchanged: each favourites slot, `cryptoAlerts` and `cryptoPortfolio` |
| `Dashboard.App.Load` | src/App.jsx:67-75 | each field starts as what its own slot loads |
| `Dashboard.App.ToggleFavorite` | src/App.jsx:141-147 | favourites become the toggled list; alerts and portfolio are unchanged; only `cryptoFavorites` is written, with the new list |
| `Dashboard.App.AddAlert` | src/App.jsx:149-172 | a no-op with no selected coin or no target price; otherwise exactly one active, untriggered alert is appended for the selected coin with the given id, target, condition, currency and creation time; earlier alerts are untouched; only `cryptoAlerts` is written |
| `Dashboard.App.RemoveAlert` | src/App.jsx:174-178 | alerts become the list without that id; only `cryptoAlerts` is written |
| `Dashboard.App.AddToPortfolio` | src/App.jsx:180-200 | a no-op with no selected coin or no amount; otherwise the selected coin's entry is the amount at the selected coin's price, replacing any earlier entry; other keys are unchanged; only `cryptoPortfolio` is written |
| `Dashboard.App.RemoveFromPortfolio` | src/App.jsx:202-207 | the portfolio loses that key only; only `cryptoPortfolio` is written |
| `Dashboard.App.UpdatePortfolioAmount` | src/App.jsx:209-224 | rejected, with nothing changed or written, when the amount is empty or <= 0; otherwise only that entry's amount changes and `cryptoPortfolio` is written |
| `Dashboard.App.CheckAlerts` | src/App.jsx:90-123 | alerts become one evaluation pass of the old alerts; the returned list is the alerts that fired; `cryptoAlerts` is written iff the pass changed the list |
| `Cards.CryptoCards.Load` | src/components/CryptoCards.jsx:9-11 | the favourites start as the stored `fav` list, or empty when the slot is missing |
| `Cards.CryptoCards.ToggleFav` | src/components/CryptoCards.jsx:28-37 | the favourites become the toggled list; only the `fav` slot is written, with the new list |

## Left out

- Network I/O: fetching the coin feed and the price charts is left out. The feed is an input sequence.
- Notification delivery and permission: `CheckAlerts` returns the alerts that fired. It does not deliver anything.
- JSON text: slots hold collections, not strings. `JSON.parse` throwing on corrupt text is not modelled. A slot holding another kind of collection loads as empty.
- The "changed" test compares `JSON.stringify` strings in the source. The model compares values.
- Floating point: amounts and prices are exact reals, so rounding, NaN and Infinity are not modelled. A per-holding P/L percentage over a zero cost is `None`, where the source gets NaN or an infinity.
- Input parsing: a text field is `None` when empty, or an already-parsed real. A `parseFloat` result of NaN and the positivity check on NaN are not modelled.
- Clock and ids: `Date.now()` and `new Date().toISOString()` become the parameters `id` and `now`. One pass stamps every triggered alert with the same `now`. The source reads the clock once per alert.
- Dashboard.App.UpdatePortfolioAmount: for a coin id with no entry, the source writes a record holding only `amount`, with every other field undefined. The model cannot represent that record, so it leaves the portfolio and its slot unchanged. Every caller passes the coin id of an existing row (src/App.jsx:791).
- Dashboard.App.Load: the model requires that a stored portfolio has no repeated coin id. A JSON object cannot repeat a key.
- Feed.Lower: only the ASCII capitals A-Z are lower-cased. JavaScript's `toLowerCase` also maps other letters, such as 'Ö' to 'ö', so a non-ASCII search can match in the source and not in the model. It can also change a string's length ('İ' becomes two code units), while the model keeps the length.
- The `image` field: `addAlert` and `addToPortfolio` copy the coin's image URL into the stored records (src/App.jsx:157, src/App.jsx:189). `Alert`, `Holding` and `Coin` leave it out, because only rendering reads it.
- Object key order: JavaScript puts integer-like keys first. The model orders every key by insertion, which matches the non-numeric coin ids of the feed.
- The selected coin is the object captured when the user clicked a coin. Its price may be older than the current feed, and the model takes it as given.
- UI state: form resets after a handler (`setAlertPrice("")`, `setEditAmount("")` and the like), tabs, sorting of the feed request, chart data and options, every display-only ratio (market dominance, 24h volume share, the "close to target" highlight) and all formatting.
- React scheduling: `useEffect` and `useMemo` re-runs become explicit calls.
- src/components/Chart.jsx is not part of this model.

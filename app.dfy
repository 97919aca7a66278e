/** The state and event handlers of the `App` component: the alert list, the
    portfolio and the favourite coin ids, each persisted to its own storage
    slot by the handler that changes it. The selected coin, the form inputs,
    the clock and the id source are passed in; an empty input field is
    `None`. */
module Dashboard {
  import opened Optional
  import opened Lists
  import opened Feed
  import opened Alerts
  import opened Holdings
  import opened Storage

  class App {
    var alerts: seq<Alert>
    var portfolio: Portfolio
    var favorites: seq<string>
    const storage: LocalStorage

    ghost predicate Valid()
      reads this
    {
      UniqueKeys(portfolio)
    }

    /** The start-up effect: each collection is read from its slot, and a
        missing slot gives an empty collection. */
    constructor Load(storage: LocalStorage)
      requires PortfolioSlotWellFormed(storage.slots)
      ensures Valid() && this.storage == storage
      ensures favorites == LoadNames(storage.slots, FavoritesSlot)
      ensures alerts == LoadAlerts(storage.slots)
      ensures portfolio == LoadPortfolio(storage.slots)
    {
      this.storage := storage;
      favorites := LoadNames(storage.slots, FavoritesSlot);
      alerts := LoadAlerts(storage.slots);
      portfolio := LoadPortfolio(storage.slots);
    }

    /** `toggleFavorite`: adds an absent coin id at the end or removes a
        present one, and writes the new list to `cryptoFavorites` only. */
    method ToggleFavorite(coinId: string)
      requires Valid()
      modifies this, storage
      ensures Valid()
      ensures favorites == Toggle(old(favorites), coinId)
      ensures alerts == old(alerts) && portfolio == old(portfolio)
      ensures storage.slots == old(storage.slots)[FavoritesSlot := NameList(favorites)]
    {
      favorites := Toggle(favorites, coinId);
      storage.SetItem(FavoritesSlot, NameList(favorites));
    }

    /** `addAlert`: without a selected coin or a target price nothing happens;
        otherwise one new active alert for the selected coin is appended and
        the list is written to `cryptoAlerts`. */
    method AddAlert(selected: Option<Coin>, alertPrice: Option<real>, condition: Condition,
                    currency: string, id: int, now: string)
      requires Valid()
      modifies this, storage
      ensures Valid()
      ensures portfolio == old(portfolio) && favorites == old(favorites)
      ensures selected.None? || alertPrice.None? ==>
                alerts == old(alerts) && storage.slots == old(storage.slots)
      ensures selected.Some? && alertPrice.Some? ==>
                && |alerts| == |old(alerts)| + 1
                && alerts[..|old(alerts)|] == old(alerts)
                && alerts[|old(alerts)|].id == id
                && alerts[|old(alerts)|].coinId == selected.value.id
                && alerts[|old(alerts)|].coinName == selected.value.name
                && alerts[|old(alerts)|].coinSymbol == selected.value.symbol
                && alerts[|old(alerts)|].currentPrice == selected.value.currentPrice
                && alerts[|old(alerts)|].targetPrice == alertPrice.value
                && alerts[|old(alerts)|].condition == condition
                && alerts[|old(alerts)|].currency == currency
                && alerts[|old(alerts)|].status == Active
                && alerts[|old(alerts)|].createdAt == now
                && alerts[|old(alerts)|].triggeredAt == None
                && storage.slots == old(storage.slots)[AlertsSlot := AlertList(alerts)]
    {
      if selected.None? || alertPrice.None? {
        return;
      }
      var coin := selected.value;
      var newAlert := Alert(id, coin.id, coin.name, coin.symbol, coin.currentPrice,
                            alertPrice.value, condition, currency, Active, now, None);
      alerts := alerts + [newAlert];
      storage.SetItem(AlertsSlot, AlertList(alerts));
    }

    /** `removeAlert`: drops every alert with that id and writes the list. */
    method RemoveAlert(alertId: int)
      requires Valid()
      modifies this, storage
      ensures Valid()
      ensures alerts == RemoveById(old(alerts), alertId)
      ensures portfolio == old(portfolio) && favorites == old(favorites)
      ensures storage.slots == old(storage.slots)[AlertsSlot := AlertList(alerts)]
    {
      alerts := RemoveById(alerts, alertId);
      storage.SetItem(AlertsSlot, AlertList(alerts));
    }

    /** `addToPortfolio`: without a selected coin or an amount nothing
        happens; otherwise the selected coin's entry becomes a holding of that
        amount bought at the selected coin's price, replacing any earlier
        entry, and the portfolio is written to `cryptoPortfolio`. The amount is
        not checked for sign. */
    method AddToPortfolio(selected: Option<Coin>, amount: Option<real>, currency: string, now: string)
      requires Valid()
      modifies this, storage
      ensures Valid()
      ensures alerts == old(alerts) && favorites == old(favorites)
      ensures selected.None? || amount.None? ==>
                portfolio == old(portfolio) && storage.slots == old(storage.slots)
      ensures selected.Some? && amount.Some? ==>
                && portfolio == Put(old(portfolio), Holding(selected.value.id, selected.value.name,
                                    selected.value.symbol, amount.value, selected.value.currentPrice, now, currency))
                && storage.slots == old(storage.slots)[PortfolioSlot := HoldingMap(portfolio)]
    {
      if selected.None? || amount.None? {
        return;
      }
      var coin := selected.value;
      var holding := Holding(coin.id, coin.name, coin.symbol, amount.value, coin.currentPrice, now, currency);
      PutUnique(portfolio, holding);
      portfolio := Put(portfolio, holding);
      storage.SetItem(PortfolioSlot, HoldingMap(portfolio));
    }

    /** `removeFromPortfolio`: deletes that coin's entry, if any, and writes
        the portfolio. */
    method RemoveFromPortfolio(coinId: string)
      requires Valid()
      modifies this, storage
      ensures Valid()
      ensures portfolio == Delete(old(portfolio), coinId)
      ensures alerts == old(alerts) && favorites == old(favorites)
      ensures storage.slots == old(storage.slots)[PortfolioSlot := HoldingMap(portfolio)]
    {
      DeleteUnique(portfolio, coinId);
      portfolio := Delete(portfolio, coinId);
      storage.SetItem(PortfolioSlot, HoldingMap(portfolio));
    }

    /** `updatePortfolioAmount`: an empty or non-positive amount is rejected
        and nothing changes; otherwise only the amount of that coin's entry
        changes and the portfolio is written. */
    method UpdatePortfolioAmount(coinId: string, editAmount: Option<real>)
      requires Valid()
      modifies this, storage
      ensures Valid()
      ensures alerts == old(alerts) && favorites == old(favorites)
      ensures editAmount.None? || editAmount.value <= 0.0 || Get(old(portfolio), coinId).None? ==>
                portfolio == old(portfolio) && storage.slots == old(storage.slots)
      ensures editAmount.Some? && editAmount.value > 0.0 && Get(old(portfolio), coinId).Some? ==>
                && portfolio == SetAmount(old(portfolio), coinId, editAmount.value)
                && storage.slots == old(storage.slots)[PortfolioSlot := HoldingMap(portfolio)]
    {
      if editAmount.None? || editAmount.value <= 0.0 {
        return;
      }
      if Get(portfolio, coinId).None? {
        return;
      }
      portfolio := SetAmount(portfolio, coinId, editAmount.value);
      storage.SetItem(PortfolioSlot, HoldingMap(portfolio));
    }

    /** The alert-check effect, run when the feed or the alerts change: one
        evaluation pass; the list and its slot are written only when the pass
        changed something. Returns the alerts to notify about. */
    method CheckAlerts(coins: seq<Coin>, now: string) returns (fired: seq<Alert>)
      requires Valid()
      modifies this, storage
      ensures Valid()
      ensures fired == Fired(old(alerts), coins)
      ensures alerts == EvaluateAlerts(old(alerts), coins, now)
      ensures portfolio == old(portfolio) && favorites == old(favorites)
      ensures storage.slots == if alerts == old(alerts) then old(storage.slots)
                               else old(storage.slots)[AlertsSlot := AlertList(alerts)]
    {
      if |coins| == 0 || |alerts| == 0 {
        if |coins| == 0 { NothingFiresWithoutFeed(alerts, now); }
        fired := [];
        return;
      }
      var updated := EvaluateAlerts(alerts, coins, now);
      fired := Fired(alerts, coins);
      if updated != alerts {
        alerts := updated;
        storage.SetItem(AlertsSlot, AlertList(alerts));
      }
    }
  }
}

/** The browser's `localStorage` as the dashboard uses it: named slots, each
    holding one collection, written whole by `setItem` and read once at
    start-up with "missing means empty". JSON text is not modelled; a slot
    holds the collection itself. */
module Storage {
  import opened Alerts
  import opened Holdings

  /** What a slot can hold. */
  datatype Stored =
    | AlertList(alerts: seq<Alert>)
    | HoldingMap(holdings: Portfolio)
    | NameList(names: seq<string>)

  const AlertsSlot: string := "cryptoAlerts"
  const PortfolioSlot: string := "cryptoPortfolio"
  const FavoritesSlot: string := "cryptoFavorites"
  /** The card grid's own favourites slot. */
  const CardFavoritesSlot: string := "fav"

  class LocalStorage {
    var slots: map<string, Stored>

    constructor (initial: map<string, Stored>)
      ensures slots == initial
    {
      slots := initial;
    }

    /** `localStorage.setItem(key, value)`: that slot now holds `value`, every
        other slot is as it was. */
    method SetItem(key: string, value: Stored)
      modifies this
      ensures slots == old(slots)[key := value]
    {
      slots := slots[key := value];
    }
  }

  /** `JSON.parse(localStorage.getItem(key)) || []` for a list of names. */
  function LoadNames(slots: map<string, Stored>, key: string): (names: seq<string>)
    ensures key !in slots ==> names == []
    ensures key in slots && slots[key].NameList? ==> names == slots[key].names
  {
    if key in slots && slots[key].NameList? then slots[key].names else []
  }

  /** `JSON.parse(localStorage.getItem('cryptoAlerts')) || []`. */
  function LoadAlerts(slots: map<string, Stored>): (alerts: seq<Alert>)
    ensures AlertsSlot !in slots ==> alerts == []
    ensures AlertsSlot in slots && slots[AlertsSlot].AlertList? ==> alerts == slots[AlertsSlot].alerts
  {
    if AlertsSlot in slots && slots[AlertsSlot].AlertList? then slots[AlertsSlot].alerts else []
  }

  /** `JSON.parse(localStorage.getItem('cryptoPortfolio')) || {}`. */
  function LoadPortfolio(slots: map<string, Stored>): (p: Portfolio)
    ensures PortfolioSlot !in slots ==> p == []
    ensures PortfolioSlot in slots && slots[PortfolioSlot].HoldingMap? ==> p == slots[PortfolioSlot].holdings
  {
    if PortfolioSlot in slots && slots[PortfolioSlot].HoldingMap? then slots[PortfolioSlot].holdings else []
  }

  /** A stored portfolio came from a JSON object, whose keys are distinct. */
  predicate PortfolioSlotWellFormed(slots: map<string, Stored>)
  {
    PortfolioSlot in slots && slots[PortfolioSlot].HoldingMap? ==> UniqueKeys(slots[PortfolioSlot].holdings)
  }

  /** Writing one slot and loading it again gives back what was written. */
  lemma SaveThenLoad(slots: map<string, Stored>, names: seq<string>, alerts: seq<Alert>, p: Portfolio, key: string)
    ensures LoadNames(slots[key := NameList(names)], key) == names
    ensures LoadAlerts(slots[AlertsSlot := AlertList(alerts)]) == alerts
    ensures LoadPortfolio(slots[PortfolioSlot := HoldingMap(p)]) == p
  {
  }

  /** Writing any value to one slot leaves what every other slot loads as it
      was, so a bad write to one collection cannot corrupt another. */
  lemma WriteKeepsOthers(slots: map<string, Stored>, key: string, value: Stored)
    ensures forall k :: k != key ==> LoadNames(slots[key := value], k) == LoadNames(slots, k)
    ensures key != AlertsSlot ==> LoadAlerts(slots[key := value]) == LoadAlerts(slots)
    ensures key != PortfolioSlot ==> LoadPortfolio(slots[key := value]) == LoadPortfolio(slots)
  {
  }
}

/** The price-alert engine of App.jsx: the two-state alert record, the
    inclusive trigger guard, one evaluation pass over the alert list against
    the current feed, and the list operations behind adding and removing an
    alert. */
module Alerts {
  import opened Optional
  import opened Lists
  import opened Feed

  datatype Condition = Above | Below

  /** An alert starts `Active` and moves at most once, to `Triggered`. */
  datatype Status = Active | Triggered

  datatype Alert = Alert(
    id: int,
    coinId: string,
    coinName: string,
    coinSymbol: string,
    currentPrice: real,   // the coin's price when the alert was created
    targetPrice: real,
    condition: Condition,
    currency: string,
    status: Status,
    createdAt: string,
    triggeredAt: Option<string>)

  /** The trigger guard; both comparisons include the target itself. */
  function ShouldTrigger(condition: Condition, price: real, target: real): (fire: bool)
    ensures fire <==> (condition == Above && price >= target) || (condition == Below && price <= target)
  {
    match condition
    case Above => price >= target
    case Below => price <= target
  }

  /** The alert as it leaves a pass in which it fired. */
  function Trigger(alert: Alert, now: string): (r: Alert)
    ensures r.status == Triggered && r.triggeredAt == Some(now)
    ensures r.(status := alert.status, triggeredAt := alert.triggeredAt) == alert
  {
    alert.(status := Triggered, triggeredAt := Some(now))
  }

  /** An alert fires when it is still active, its coin is in the feed and the
      first feed entry for that coin satisfies the guard. */
  predicate Fires(alert: Alert, coins: seq<Coin>)
  {
    && alert.status == Active
    && FindCoin(coins, alert.coinId).Some?
    && ShouldTrigger(alert.condition, FindCoin(coins, alert.coinId).value.currentPrice, alert.targetPrice)
  }

  /** The callback of `alerts.map` in the alert-check effect, branch for
      branch: look the coin up, leave the alert alone if it is missing, and
      trigger it if the guard holds and it is still active. */
  function EvaluateAlert(alert: Alert, coins: seq<Coin>, now: string): Alert
  {
    match FindCoin(coins, alert.coinId)
    case None => alert
    case Some(coin) =>
      if ShouldTrigger(alert.condition, coin.currentPrice, alert.targetPrice) && alert.status == Active
      then Trigger(alert, now)
      else alert
  }

  /** The callback triggers an alert exactly when it fires and otherwise
      returns it unchanged, whichever order its tests come in. */
  lemma EvaluateAlertFires(alert: Alert, coins: seq<Coin>, now: string)
    ensures EvaluateAlert(alert, coins, now) == if Fires(alert, coins) then Trigger(alert, now) else alert
  {
  }

  /** One evaluation pass. The list keeps its length and order; exactly the
      alerts that fire change, and they change only in status and
      `triggeredAt`. */
  function EvaluateAlerts(alerts: seq<Alert>, coins: seq<Coin>, now: string): (r: seq<Alert>)
    ensures |r| == |alerts|
    ensures forall i :: 0 <= i < |alerts| ==> (r[i] != alerts[i] <==> Fires(alerts[i], coins))
    ensures forall i :: 0 <= i < |alerts| && Fires(alerts[i], coins) ==> r[i] == Trigger(alerts[i], now)
    ensures forall i :: 0 <= i < |alerts| && alerts[i].status == Triggered ==> r[i] == alerts[i]
    ensures forall i :: 0 <= i < |alerts| && FindCoin(coins, alerts[i].coinId).None? ==> r[i] == alerts[i]
  {
    if alerts == [] then []
    else [EvaluateAlert(alerts[0], coins, now)] + EvaluateAlerts(alerts[1..], coins, now)
  }

  /** The alerts a pass notifies about, in list order. */
  function Fired(alerts: seq<Alert>, coins: seq<Coin>): (r: seq<Alert>)
    ensures forall a :: a in r <==> a in alerts && Fires(a, coins)
    ensures forall a :: multiset(r)[a] == if Fires(a, coins) then multiset(alerts)[a] else 0
    ensures IsSubsequence(r, alerts)
  {
    FilterCount(alerts, (a: Alert) => Fires(a, coins));
    Filter(alerts, (a: Alert) => Fires(a, coins))
  }

  /** With an empty feed no alert fires, which is why the effect may return
      early when the feed has not arrived yet. */
  lemma {:induction false} NothingFiresWithoutFeed(alerts: seq<Alert>, now: string)
    ensures Fired(alerts, []) == []
    ensures EvaluateAlerts(alerts, [], now) == alerts
  {
    if alerts != [] {
      NothingFiresWithoutFeed(alerts[1..], now);
    }
  }

  /** Re-evaluating the result of a pass, at any later time, changes nothing:
      a triggered alert never fires again. */
  lemma {:induction false} EvaluateIdempotent(alerts: seq<Alert>, coins: seq<Coin>, now: string, later: string)
    ensures EvaluateAlerts(EvaluateAlerts(alerts, coins, now), coins, later) == EvaluateAlerts(alerts, coins, now)
  {
    if alerts != [] {
      EvaluateIdempotent(alerts[1..], coins, now, later);
    }
  }

  /** Nothing fires on the output of a pass. */
  lemma NoRefire(alerts: seq<Alert>, coins: seq<Coin>, now: string)
    ensures Fired(EvaluateAlerts(alerts, coins, now), coins) == []
  {
  }

  /** A pass changes the list exactly when it notifies about some alert, so the
      effect's "only update if changed" test writes precisely on a trigger. */
  lemma ChangedIffFired(alerts: seq<Alert>, coins: seq<Coin>, now: string)
    ensures EvaluateAlerts(alerts, coins, now) != alerts <==> Fired(alerts, coins) != []
  {
    var r := EvaluateAlerts(alerts, coins, now);
    if Fired(alerts, coins) != [] {
      var a := Fired(alerts, coins)[0];
      assert a in alerts && Fires(a, coins);
      var i :| 0 <= i < |alerts| && alerts[i] == a;
      assert r[i] != alerts[i];
    }
    if r != alerts {
      var i :| 0 <= i < |alerts| && r[i] != alerts[i];
      assert alerts[i] in Fired(alerts, coins);
    }
  }

  /** The number of active alerts. */
  function ActiveCount(alerts: seq<Alert>): nat
  {
    if alerts == [] then 0
    else (if alerts[0].status == Active then 1 else 0) + ActiveCount(alerts[1..])
  }

  /** Every notified alert leaves the active set, and no other does. */
  lemma {:induction false} ActiveCountDrops(alerts: seq<Alert>, coins: seq<Coin>, now: string)
    ensures ActiveCount(EvaluateAlerts(alerts, coins, now)) == ActiveCount(alerts) - |Fired(alerts, coins)|
  {
    if alerts != [] {
      ActiveCountDrops(alerts[1..], coins, now);
      var r := EvaluateAlerts(alerts, coins, now);
      assert r[1..] == EvaluateAlerts(alerts[1..], coins, now);
    }
  }

  /** `alerts.filter(alert => alert.id !== alertId)`: every alert with that id
      goes, the rest stay in order, and an unknown id changes nothing. */
  function RemoveById(alerts: seq<Alert>, alertId: int): (r: seq<Alert>)
    ensures forall a :: a in r <==> a in alerts && a.id != alertId
    ensures forall a :: multiset(r)[a] == if a.id != alertId then multiset(alerts)[a] else 0
    ensures IsSubsequence(r, alerts)
    ensures (forall a :: a in alerts ==> a.id != alertId) ==> r == alerts
  {
    FilterCount(alerts, (a: Alert) => a.id != alertId);
    Filter(alerts, (a: Alert) => a.id != alertId)
  }
}

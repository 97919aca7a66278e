/** The portfolio analytics of App.jsx: the totals (current value, invested,
    profit/loss and its percentage) and the per-holding breakdown, sorted by
    descending current value. Amounts and prices are exact reals. */
module Analytics {
  import opened Optional
  import opened Lists
  import opened Feed
  import opened Holdings

  /** `coin ? coin.current_price : 0`. */
  function PriceOf(coins: seq<Coin>, coinId: string): (price: real)
    ensures FindCoin(coins, coinId).None? ==> price == 0.0
    ensures FindCoin(coins, coinId).Some? ==> price == FindCoin(coins, coinId).value.currentPrice
  {
    match FindCoin(coins, coinId)
    case None => 0.0
    case Some(coin) => coin.currentPrice
  }

  /** What one holding is worth at feed prices; a coin missing from the feed
      is worth nothing. */
  function CurrentValue(h: Holding, coins: seq<Coin>): (value: real)
    ensures value == h.amount * PriceOf(coins, h.coinId)
  {
    match FindCoin(coins, h.coinId)
    case None => 0.0
    case Some(coin) => h.amount * coin.currentPrice
  }

  function Invested(h: Holding): real
  {
    h.amount * h.purchasePrice
  }

  /** `portfolioValue`. */
  function PortfolioValue(p: Portfolio, coins: seq<Coin>): real
  {
    if p == [] then 0.0 else CurrentValue(p[0], coins) + PortfolioValue(p[1..], coins)
  }

  /** `totalInvested`. */
  function TotalInvested(p: Portfolio): real
  {
    if p == [] then 0.0 else Invested(p[0]) + TotalInvested(p[1..])
  }

  /** The `reduce` callback of `portfolioValue`, run left to right from
      `total`: a holding whose coin is missing from the feed is skipped. */
  function ReduceValue(p: Portfolio, coins: seq<Coin>, total: real): real
  {
    if p == [] then total
    else
      match FindCoin(coins, p[0].coinId)
      case None => ReduceValue(p[1..], coins, total)
      case Some(coin) => ReduceValue(p[1..], coins, total + p[0].amount * coin.currentPrice)
  }

  /** The `reduce` callback of `totalInvested`, run left to right from `total`. */
  function ReduceInvested(p: Portfolio, total: real): real
  {
    if p == [] then total else ReduceInvested(p[1..], total + p[0].amount * p[0].purchasePrice)
  }

  /** `portfolioValue` as the source computes it, a reduce from 0, is the
      model's total. */
  lemma {:induction false} PortfolioValueIsReduce(p: Portfolio, coins: seq<Coin>, total: real)
    ensures ReduceValue(p, coins, total) == total + PortfolioValue(p, coins)
  {
    if p != [] {
      PortfolioValueIsReduce(p[1..], coins, total + CurrentValue(p[0], coins));
    }
  }

  /** `totalInvested` as the source computes it, a reduce from 0, is the
      model's total. */
  lemma {:induction false} TotalInvestedIsReduce(p: Portfolio, total: real)
    ensures ReduceInvested(p, total) == total + TotalInvested(p)
  {
    if p != [] {
      TotalInvestedIsReduce(p[1..], total + Invested(p[0]));
    }
  }

  /** Both totals agree with the source's left-to-right `reduce`: adding a
      holding at the end adds its own contribution. */
  lemma {:induction false} TotalsAppend(p: Portfolio, h: Holding, coins: seq<Coin>)
    ensures PortfolioValue(p + [h], coins) == PortfolioValue(p, coins) + CurrentValue(h, coins)
    ensures TotalInvested(p + [h]) == TotalInvested(p) + h.amount * h.purchasePrice
  {
    if p != [] {
      assert (p + [h])[1..] == p[1..] + [h];
      TotalsAppend(p[1..], h, coins);
    }
  }

  /** Adding a holding for a coin already held swaps the old entry's
      contribution for the new one's in both totals: the purchase cost is
      replaced, never averaged. */
  lemma {:induction false} PutTotals(p: Portfolio, h: Holding, coins: seq<Coin>)
    ensures TotalInvested(Put(p, h)) ==
            TotalInvested(p) - (match Get(p, h.coinId) case None => 0.0 case Some(prior) => Invested(prior)) + Invested(h)
    ensures PortfolioValue(Put(p, h), coins) ==
            PortfolioValue(p, coins) - (match Get(p, h.coinId) case None => 0.0 case Some(prior) => CurrentValue(prior, coins))
            + CurrentValue(h, coins)
  {
    if p != [] && p[0].coinId != h.coinId {
      PutTotals(p[1..], h, coins);
    }
  }

  /** Removing a holding takes exactly its contribution out of both totals. */
  lemma {:induction false} DeleteTotals(p: Portfolio, coinId: string, coins: seq<Coin>)
    requires UniqueKeys(p)
    ensures TotalInvested(Delete(p, coinId)) ==
            TotalInvested(p) - (match Get(p, coinId) case None => 0.0 case Some(prior) => Invested(prior))
    ensures PortfolioValue(Delete(p, coinId), coins) ==
            PortfolioValue(p, coins) - (match Get(p, coinId) case None => 0.0 case Some(prior) => CurrentValue(prior, coins))
  {
    if p != [] {
      assert Keys(p[1..]) == Keys(p)[1..];
      if p[0].coinId == coinId {
        assert coinId !in Keys(p[1..]);
      } else {
        DeleteTotals(p[1..], coinId, coins);
      }
    }
  }

  function TotalProfitLoss(p: Portfolio, coins: seq<Coin>): real
  {
    PortfolioValue(p, coins) - TotalInvested(p)
  }

  /** `totalProfitLossPercent`: the profit/loss as a percentage of what was
      invested, and 0 whenever nothing positive was invested. */
  function TotalProfitLossPercent(p: Portfolio, coins: seq<Coin>): (pct: real)
    ensures TotalInvested(p) <= 0.0 ==> pct == 0.0
    ensures TotalInvested(p) > 0.0 ==> pct * TotalInvested(p) == TotalProfitLoss(p, coins) * 100.0
  {
    var invested := TotalInvested(p);
    if invested > 0.0 then (TotalProfitLoss(p, coins) / invested) * 100.0 else 0.0
  }

  /** One line of `portfolioBreakdown`. `profitLossPercent` is `None` where the
      source divides by a zero investment and gets NaN or an infinity. */
  datatype Row = Row(
    holding: Holding,
    currentPrice: real,
    currentValue: real,
    profitLoss: real,
    profitLossPercent: Option<real>,
    weight: real)

  /** `whole > 0 ? (part / whole) * 100 : 0`, the weight formula. */
  function Share(part: real, whole: real): real
  {
    if whole > 0.0 then (part / whole) * 100.0 else 0.0
  }

  /** Shares of one whole add up like the parts. */
  lemma ShareAdd(a: real, b: real, whole: real)
    ensures Share(a, whole) + Share(b, whole) == Share(a + b, whole)
  {
  }

  /** The whole is 100 percent of itself. */
  lemma ShareOfWhole(whole: real)
    requires whole > 0.0
    ensures Share(whole, whole) == 100.0
  {
  }

  /** The `map` callback of `portfolioBreakdown`, given the portfolio total. */
  function MakeRow(h: Holding, coins: seq<Coin>, total: real): Row
  {
    var currentValue := CurrentValue(h, coins);
    var profitLoss := currentValue - Invested(h);
    Row(h,
        PriceOf(coins, h.coinId),
        currentValue,
        profitLoss,
        if Invested(h) == 0.0 then None else Some((profitLoss / Invested(h)) * 100.0),
        Share(currentValue, total))
  }

  /** What each column of a row means: the feed price (0 for a coin missing
      from the feed), the value at that price, its gain over the purchase
      cost, that gain in percent of the cost (undefined for a zero cost), and
      the value's share of the portfolio total (0 unless the total is
      positive). */
  lemma RowMeaning(h: Holding, coins: seq<Coin>, total: real)
    ensures MakeRow(h, coins, total).holding == h
    ensures MakeRow(h, coins, total).currentPrice == PriceOf(coins, h.coinId)
    ensures MakeRow(h, coins, total).currentValue == h.amount * MakeRow(h, coins, total).currentPrice
    ensures MakeRow(h, coins, total).profitLoss == MakeRow(h, coins, total).currentValue - h.amount * h.purchasePrice
    ensures Invested(h) == 0.0 ==> MakeRow(h, coins, total).profitLossPercent.None?
    ensures Invested(h) != 0.0 ==>
              && MakeRow(h, coins, total).profitLossPercent.Some?
              && MakeRow(h, coins, total).profitLossPercent.value * Invested(h) == MakeRow(h, coins, total).profitLoss * 100.0
    ensures total <= 0.0 ==> MakeRow(h, coins, total).weight == 0.0
    ensures total > 0.0 ==> MakeRow(h, coins, total).weight * total == MakeRow(h, coins, total).currentValue * 100.0
  {
  }

  /** `Object.values(portfolio).map(...)`, before sorting. */
  function Rows(p: Portfolio, coins: seq<Coin>, total: real): (rows: seq<Row>)
    ensures |rows| == |p|
    ensures forall i :: 0 <= i < |p| ==> rows[i] == MakeRow(p[i], coins, total)
  {
    if p == [] then [] else [MakeRow(p[0], coins, total)] + Rows(p[1..], coins, total)
  }

  function HoldingsOf(rows: seq<Row>): (hs: seq<Holding>)
    ensures |hs| == |rows|
    ensures forall i :: 0 <= i < |rows| ==> hs[i] == rows[i].holding
  {
    if rows == [] then [] else [rows[0].holding] + HoldingsOf(rows[1..])
  }

  predicate SortedByValue(rows: seq<Row>)
  {
    forall i, j :: 0 <= i < j < |rows| ==> rows[i].currentValue >= rows[j].currentValue
  }

  /** The rows of a given current value, in their order. */
  function WithValue(rows: seq<Row>, v: real): seq<Row>
  {
    if rows == [] then []
    else (if rows[0].currentValue == v then [rows[0]] else []) + WithValue(rows[1..], v)
  }

  /** Places `x` before the first row it is not smaller than, so that among
      equal values the row inserted earlier comes first. */
  function Insert(x: Row, rows: seq<Row>): (r: seq<Row>)
    ensures multiset(r) == multiset(rows) + multiset{x}
  {
    if rows == [] || rows[0].currentValue <= x.currentValue then [x] + rows
    else
      assert rows == [rows[0]] + rows[1..];
      [rows[0]] + Insert(x, rows[1..])
  }

  /** The first row after an insertion is `x` or the old first row. */
  lemma InsertHead(x: Row, rows: seq<Row>)
    ensures Insert(x, rows)[0] == x || (rows != [] && Insert(x, rows)[0] == rows[0])
  {
  }

  lemma {:induction false} InsertSorted(x: Row, rows: seq<Row>)
    requires SortedByValue(rows)
    ensures SortedByValue(Insert(x, rows))
  {
    if rows != [] && rows[0].currentValue > x.currentValue {
      var rest := Insert(x, rows[1..]);
      InsertSorted(x, rows[1..]);
      InsertHead(x, rows[1..]);
      assert rest[0].currentValue <= rows[0].currentValue;
      var r := [rows[0]] + rest;
      forall i, j | 0 <= i < j < |r| ensures r[i].currentValue >= r[j].currentValue {
        assert r[j] == rest[j - 1];
        if i == 0 {
          assert rest[0].currentValue >= rest[j - 1].currentValue;
        } else {
          assert r[i] == rest[i - 1];
        }
      }
    }
  }

  /** `.sort((a, b) => b.currentValue - a.currentValue)` with JavaScript's
      stable sort: the result is a permutation of the rows, in non-increasing
      current value, and rows of equal value keep their relative order. */
  function SortByValue(rows: seq<Row>): (r: seq<Row>)
    ensures multiset(r) == multiset(rows)
    ensures SortedByValue(r)
    ensures forall v :: WithValue(r, v) == WithValue(rows, v)
  {
    if rows == [] then []
    else
      var rest := SortByValue(rows[1..]);
      assert rows == [rows[0]] + rows[1..];
      InsertSorted(rows[0], rest);
      forall v ensures WithValue(Insert(rows[0], rest), v) == WithValue(rows, v) {
        InsertWithValue(rows[0], rest, v);
      }
      Insert(rows[0], rest)
  }

  /** Insertion puts `x` ahead of every row of its own value already there. */
  lemma {:induction false} InsertWithValue(x: Row, rows: seq<Row>, v: real)
    ensures WithValue(Insert(x, rows), v) == (if x.currentValue == v then [x] else []) + WithValue(rows, v)
  {
    if rows == [] || rows[0].currentValue <= x.currentValue {
      InsertWithValueFront(x, rows, v);
    } else {
      InsertWithValue(x, rows[1..], v);
      InsertWithValueStep(x, rows, v);
    }
  }

  /** `x` goes in front: it heads the rows of its value. */
  lemma InsertWithValueFront(x: Row, rows: seq<Row>, v: real)
    requires rows == [] || rows[0].currentValue <= x.currentValue
    ensures WithValue(Insert(x, rows), v) == (if x.currentValue == v then [x] else []) + WithValue(rows, v)
  {
    assert Insert(x, rows) == [x] + rows;
    assert ([x] + rows)[1..] == rows;
  }

  /** `x` goes past a larger head row, which it cannot share a value with. */
  lemma InsertWithValueStep(x: Row, rows: seq<Row>, v: real)
    requires rows != [] && rows[0].currentValue > x.currentValue
    requires WithValue(Insert(x, rows[1..]), v) == (if x.currentValue == v then [x] else []) + WithValue(rows[1..], v)
    ensures WithValue(Insert(x, rows), v) == (if x.currentValue == v then [x] else []) + WithValue(rows, v)
  {
    assert Insert(x, rows) == [rows[0]] + Insert(x, rows[1..]);
    assert rows == [rows[0]] + rows[1..];
    WithValuePast(rows[0], Insert(x, rows[1..]), rows[1..], x, v);
  }

  /** Putting a row of larger value in front of both sides keeps them
      agreeing on the rows of `x`'s value. */
  lemma WithValuePast(head: Row, rest: seq<Row>, tail: seq<Row>, x: Row, v: real)
    requires head.currentValue > x.currentValue
    requires WithValue(rest, v) == (if x.currentValue == v then [x] else []) + WithValue(tail, v)
    ensures WithValue([head] + rest, v) == (if x.currentValue == v then [x] else []) + WithValue([head] + tail, v)
  {
    assert ([head] + rest)[1..] == rest;
    assert ([head] + tail)[1..] == tail;
  }

  /** `portfolioBreakdown`. */
  function Breakdown(p: Portfolio, coins: seq<Coin>): seq<Row>
  {
    SortByValue(Rows(p, coins, PortfolioValue(p, coins)))
  }

  function ValueColumn(r: Row): real { r.currentValue }
  function ProfitLossColumn(r: Row): real { r.profitLoss }
  function WeightColumn(r: Row): real { r.weight }

  /** The sum of one numeric column of the rows. */
  function Sum(rows: seq<Row>, column: Row -> real): real
  {
    if rows == [] then 0.0 else column(rows[0]) + Sum(rows[1..], column)
  }

  lemma {:induction false} SumInsert(x: Row, rows: seq<Row>, column: Row -> real)
    ensures Sum(Insert(x, rows), column) == column(x) + Sum(rows, column)
  {
    if rows != [] && rows[0].currentValue > x.currentValue {
      SumInsert(x, rows[1..], column);
    }
  }

  /** Sorting does not change a column's total. */
  lemma {:induction false} SumSort(rows: seq<Row>, column: Row -> real)
    ensures Sum(SortByValue(rows), column) == Sum(rows, column)
  {
    if rows != [] {
      SumSort(rows[1..], column);
      SumInsert(rows[0], SortByValue(rows[1..]), column);
    }
  }

  lemma {:induction false} HoldingsOfInsert(x: Row, rows: seq<Row>)
    ensures multiset(HoldingsOf(Insert(x, rows))) == multiset(HoldingsOf(rows)) + multiset{x.holding}
  {
    if rows != [] && rows[0].currentValue > x.currentValue {
      HoldingsOfInsert(x, rows[1..]);
      assert HoldingsOf(Insert(x, rows)) == [rows[0].holding] + HoldingsOf(Insert(x, rows[1..]));
      assert HoldingsOf(rows) == [rows[0].holding] + HoldingsOf(rows[1..]);
    } else {
      assert HoldingsOf([x] + rows) == [x.holding] + HoldingsOf(rows);
    }
  }

  lemma {:induction false} HoldingsOfSort(rows: seq<Row>)
    ensures multiset(HoldingsOf(SortByValue(rows))) == multiset(HoldingsOf(rows))
  {
    if rows != [] {
      HoldingsOfSort(rows[1..]);
      HoldingsOfInsert(rows[0], SortByValue(rows[1..]));
      assert HoldingsOf(rows) == [rows[0].holding] + HoldingsOf(rows[1..]);
    }
  }

  /** The breakdown has exactly one row per holding, each row computed from its
      own holding and the feed, in non-increasing current value with ties in
      portfolio order. */
  lemma BreakdownRows(p: Portfolio, coins: seq<Coin>)
    ensures |Breakdown(p, coins)| == |p|
    ensures multiset(HoldingsOf(Breakdown(p, coins))) == multiset(p)
    ensures forall r :: r in Breakdown(p, coins) ==> r == MakeRow(r.holding, coins, PortfolioValue(p, coins))
    ensures SortedByValue(Breakdown(p, coins))
    ensures forall v :: WithValue(Breakdown(p, coins), v) == WithValue(Rows(p, coins, PortfolioValue(p, coins)), v)
  {
    var rows := Rows(p, coins, PortfolioValue(p, coins));
    HoldingsOfSort(rows);
    assert HoldingsOf(rows) == p;
    assert |Breakdown(p, coins)| == |multiset(Breakdown(p, coins))| == |multiset(rows)|;
    forall r | r in Breakdown(p, coins) ensures r == MakeRow(r.holding, coins, PortfolioValue(p, coins)) {
      assert r in multiset(rows);
    }
  }

  /** The unsorted rows' current values add up to the portfolio value. */
  lemma {:induction false} RowsValueSum(p: Portfolio, coins: seq<Coin>, total: real)
    ensures Sum(Rows(p, coins, total), ValueColumn) == PortfolioValue(p, coins)
  {
    if p != [] {
      RowsValueSum(p[1..], coins, total);
      assert Rows(p, coins, total)[1..] == Rows(p[1..], coins, total);
    }
  }

  /** The unsorted rows' profit/loss adds up to the total profit/loss. */
  lemma {:induction false} RowsProfitLossSum(p: Portfolio, coins: seq<Coin>, total: real)
    ensures Sum(Rows(p, coins, total), ProfitLossColumn) == TotalProfitLoss(p, coins)
  {
    if p != [] {
      RowsProfitLossSum(p[1..], coins, total);
      assert Rows(p, coins, total)[1..] == Rows(p[1..], coins, total);
    }
  }

  /** The unsorted rows' weights add up to the portfolio value's share of
      `total`. */
  lemma {:induction false} RowsWeightSum(p: Portfolio, coins: seq<Coin>, total: real)
    ensures Sum(Rows(p, coins, total), WeightColumn) == Share(PortfolioValue(p, coins), total)
  {
    if p != [] {
      RowsWeightSum(p[1..], coins, total);
      assert Rows(p, coins, total)[1..] == Rows(p[1..], coins, total);
      ShareAdd(CurrentValue(p[0], coins), PortfolioValue(p[1..], coins), total);
    }
  }

  /** The breakdown's current values add up to the portfolio value and its
      profit/loss column to the total profit/loss. */
  lemma BreakdownTotals(p: Portfolio, coins: seq<Coin>)
    ensures Sum(Breakdown(p, coins), ValueColumn) == PortfolioValue(p, coins)
    ensures Sum(Breakdown(p, coins), ProfitLossColumn) == TotalProfitLoss(p, coins)
  {
    var total := PortfolioValue(p, coins);
    var rows := Rows(p, coins, total);
    SumSort(rows, ValueColumn);
    SumSort(rows, ProfitLossColumn);
    RowsValueSum(p, coins, total);
    RowsProfitLossSum(p, coins, total);
  }

  /** The weights add up to exactly 100 when the portfolio is worth something;
      otherwise every weight is 0. */
  lemma BreakdownWeights(p: Portfolio, coins: seq<Coin>)
    ensures PortfolioValue(p, coins) > 0.0 ==> Sum(Breakdown(p, coins), WeightColumn) == 100.0
    ensures PortfolioValue(p, coins) <= 0.0 ==> forall r :: r in Breakdown(p, coins) ==> r.weight == 0.0
  {
    var total := PortfolioValue(p, coins);
    var rows := Rows(p, coins, total);
    SumSort(rows, WeightColumn);
    RowsWeightSum(p, coins, total);
    if total > 0.0 {
      ShareOfWhole(total);
    } else {
      BreakdownRows(p, coins);
      forall r | r in Breakdown(p, coins) ensures r.weight == 0.0 {
        RowMeaning(r.holding, coins, total);
      }
    }
  }

  /** A holding of 2 coins bought at 100 and quoted at 150 is worth 300, was
      bought for 200, and is up 100, or 50 percent. */
  lemma ExampleRow(h: Holding, coin: Coin, total: real)
    requires h.amount == 2.0 && h.purchasePrice == 100.0
    requires coin.id == h.coinId && coin.currentPrice == 150.0
    ensures MakeRow(h, [coin], total).currentValue == 300.0
    ensures MakeRow(h, [coin], total).profitLoss == 100.0
    ensures MakeRow(h, [coin], total).profitLossPercent == Some(50.0)
  {
    RowMeaning(h, [coin], total);
  }
}

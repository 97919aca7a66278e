/** The market feed as the dashboard sees it: the page of coins fetched from
    the price service, find-first lookup by id, and the three filters applied
    to it (the market view's search, the favourites view and the card grid's
    name search). */
module Feed {
  import opened Optional
  import opened Lists

  /** One entry of the feed, reduced to the fields the core reads. */
  datatype Coin = Coin(id: string, name: string, symbol: string, currentPrice: real)

  /** `coins.find(c => c.id === id)`: the first coin with that id, if any. */
  function FindCoin(coins: seq<Coin>, id: string): (r: Option<Coin>)
    ensures r.None? <==> forall i :: 0 <= i < |coins| ==> coins[i].id != id
    ensures r.Some? ==> exists i :: 0 <= i < |coins| && coins[i] == r.value && r.value.id == id &&
                                    forall j :: 0 <= j < i ==> coins[j].id != id
  {
    if coins == [] then None
    else if coins[0].id == id then Some(coins[0])
    else
      var r := FindCoin(coins[1..], id);
      assert r.Some? ==> exists i :: 1 <= i < |coins| && coins[i] == r.value && r.value.id == id &&
                                     forall j :: 0 <= j < i ==> coins[j].id != id by {
        if r.Some? {
          var k :| 0 <= k < |coins| - 1 && coins[1..][k] == r.value && r.value.id == id &&
                   forall j :: 0 <= j < k ==> coins[1..][j].id != id;
          assert coins[k + 1] == r.value;
          assert forall j :: 0 <= j < k + 1 ==> coins[j].id != id by {
            forall j | 0 <= j < k + 1 ensures coins[j].id != id {
              if j > 0 { assert coins[j] == coins[1..][j - 1]; }
            }
          }
        }
      }
      r
  }

  /** `toLowerCase`, restricted to ASCII letters. */
  function LowerChar(c: char): char
  {
    if 'A' <= c <= 'Z' then (c as int + 32) as char else c
  }

  /** Lower-casing keeps the length, turns each ASCII capital into its small
      letter and changes nothing else. */
  function Lower(s: string): (r: string)
    ensures |r| == |s|
    ensures forall i :: 0 <= i < |r| ==> !('A' <= r[i] <= 'Z')
    ensures forall i :: 0 <= i < |s| && 'A' <= s[i] <= 'Z' ==>
              'a' <= r[i] <= 'z' && r[i] as int - s[i] as int == 'a' as int - 'A' as int
    ensures forall i :: 0 <= i < |s| && !('A' <= s[i] <= 'Z') ==> r[i] == s[i]
  {
    seq(|s|, i requires 0 <= i < |s| => LowerChar(s[i]))
  }

  /** Lower-casing twice is lower-casing once. */
  lemma LowerIdempotent(s: string)
    ensures Lower(Lower(s)) == Lower(s)
  {
  }

  /** `String.prototype.includes`: `t` occurs in `s` as a contiguous block. */
  predicate Contains(s: string, t: string)
  {
    t <= s || (s != [] && Contains(s[1..], t))
  }

  /** `t` is the slice of `s` that starts at index `i`. */
  predicate OccursAt(s: string, t: string, i: int)
  {
    0 <= i <= |s| - |t| && s[i..i + |t|] == t
  }

  /** `Contains` means that `t` is the slice of `s` starting at some index;
      in particular every string contains the empty string. */
  lemma {:induction false} ContainsAt(s: string, t: string)
    ensures Contains(s, t) <==> exists i :: OccursAt(s, t, i)
  {
    if t <= s {
      assert OccursAt(s, t, 0);
    }
    if s == [] {
      if t == [] {
        assert OccursAt(s, t, 0);
      }
    } else {
      ContainsAt(s[1..], t);
      if exists i :: OccursAt(s[1..], t, i) {
        var i :| OccursAt(s[1..], t, i);
        assert s[i + 1..i + 1 + |t|] == s[1..][i..i + |t|];
        assert OccursAt(s, t, i + 1);
      }
      if exists i :: OccursAt(s, t, i) {
        var i :| OccursAt(s, t, i);
        if i > 0 {
          assert s[1..][i - 1..i - 1 + |t|] == s[i..i + |t|];
          assert OccursAt(s[1..], t, i - 1);
        } else {
          assert t <= s;
        }
      }
    }
  }

  /** The market view's search predicate: name or symbol contains the search
      text, both lower-cased. */
  predicate MatchesSearch(coin: Coin, search: string)
  {
    Contains(Lower(coin.name), Lower(search)) || Contains(Lower(coin.symbol), Lower(search))
  }

  /** `filteredCoins`: the coins matching the search, in feed order; an empty
      search keeps the whole feed. */
  function FilteredCoins(coins: seq<Coin>, search: string): (r: seq<Coin>)
    ensures forall c :: c in r <==> c in coins && MatchesSearch(c, search)
    ensures forall c :: multiset(r)[c] == if MatchesSearch(c, search) then multiset(coins)[c] else 0
    ensures IsSubsequence(r, coins)
    ensures search == "" ==> r == coins
  {
    FilterCount(coins, (c: Coin) => MatchesSearch(c, search));
    Filter(coins, (c: Coin) => MatchesSearch(c, search))
  }

  /** The market search ignores the case of the search text. */
  lemma SearchIgnoresCase(coin: Coin, search: string)
    ensures MatchesSearch(coin, search) <==> MatchesSearch(coin, Lower(search))
  {
    LowerIdempotent(search);
  }

  /** The card grid's search predicate: only the name is searched. */
  predicate NameMatches(coin: Coin, search: string)
  {
    Contains(Lower(coin.name), Lower(search))
  }

  /** The card grid's filter: the coins whose lower-cased name contains the
      lower-cased search, in feed order; an empty search keeps every coin. */
  function CardsShown(coins: seq<Coin>, search: string): (r: seq<Coin>)
    ensures forall c :: c in r <==> c in coins && NameMatches(c, search)
    ensures forall c :: multiset(r)[c] == if NameMatches(c, search) then multiset(coins)[c] else 0
    ensures IsSubsequence(r, coins)
    ensures search == "" ==> r == coins
  {
    FilterCount(coins, (c: Coin) => NameMatches(c, search));
    Filter(coins, (c: Coin) => NameMatches(c, search))
  }

  /** Every coin the card grid shows for a search, the market view shows too. */
  lemma CardsWithinMarket(coins: seq<Coin>, search: string)
    ensures forall c :: c in CardsShown(coins, search) ==> c in FilteredCoins(coins, search)
  {
  }

  /** The favourites view: the feed's coins whose id is a favourite, in feed
      order (not in the order they were starred). */
  function FavoriteCoins(coins: seq<Coin>, favorites: seq<string>): (r: seq<Coin>)
    ensures forall c :: c in r <==> c in coins && c.id in favorites
    ensures forall c :: multiset(r)[c] == if c.id in favorites then multiset(coins)[c] else 0
    ensures IsSubsequence(r, coins)
  {
    FilterCount(coins, (c: Coin) => c.id in favorites);
    Filter(coins, (c: Coin) => c.id in favorites)
  }
}

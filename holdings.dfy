/** The portfolio of App.jsx: an object keyed by coin id whose values are
    holdings. It is modelled as a sequence of holdings in the object's key
    order, no coin id twice; replacing a key keeps its place and a new key
    goes last, as JavaScript orders an object's string keys. */
module Holdings {
  import opened Optional
  import opened Lists

  datatype Holding = Holding(
    coinId: string,
    coinName: string,
    coinSymbol: string,
    amount: real,
    purchasePrice: real,
    purchaseDate: string,
    currency: string)

  type Portfolio = seq<Holding>

  /** `Object.keys(portfolio)`, in order. */
  function Keys(p: Portfolio): (ks: seq<string>)
    ensures |ks| == |p|
    ensures forall i :: 0 <= i < |p| ==> ks[i] == p[i].coinId
  {
    if p == [] then [] else [p[0].coinId] + Keys(p[1..])
  }

  /** No coin id has two entries. */
  predicate UniqueKeys(p: Portfolio)
  {
    NoDuplicates(Keys(p))
  }

  /** `portfolio[coinId]`. */
  function Get(p: Portfolio, coinId: string): (r: Option<Holding>)
    ensures r.None? <==> coinId !in Keys(p)
    ensures r.Some? ==> r.value in p && r.value.coinId == coinId
  {
    if p == [] then None
    else if p[0].coinId == coinId then Some(p[0])
    else Get(p[1..], coinId)
  }

  /** `{...portfolio, [h.coinId]: h}`: the entry for `h.coinId` becomes `h`
      whatever it was before, and every other key keeps its entry. */
  function Put(p: Portfolio, h: Holding): (r: Portfolio)
    ensures Get(r, h.coinId) == Some(h)
    ensures forall k :: k != h.coinId ==> Get(r, k) == Get(p, k)
  {
    if p == [] then [h]
    else if p[0].coinId == h.coinId then [h] + p[1..]
    else [p[0]] + Put(p[1..], h)
  }

  /** An existing key keeps its position and a new key is appended. */
  lemma {:induction false} PutKeys(p: Portfolio, h: Holding)
    ensures Keys(Put(p, h)) == if h.coinId in Keys(p) then Keys(p) else Keys(p) + [h.coinId]
  {
    if p == [] {
      assert Put(p, h) == [h];
    } else if p[0].coinId == h.coinId {
      PutKeysHere(p, h);
    } else {
      PutKeys(p[1..], h);
      KeysPast(Put(p[1..], h), p, h.coinId);
    }
  }

  /** Replacing the first entry keeps the key list. */
  lemma PutKeysHere(p: Portfolio, h: Holding)
    requires p != [] && p[0].coinId == h.coinId
    ensures h.coinId in Keys(p) && Keys(Put(p, h)) == Keys(p)
  {
    assert Put(p, h) == [h] + p[1..];
    assert Keys(p)[0] == h.coinId;
  }

  /** Putting a first entry with another key in front of a key list that
      "appends the key unless present" keeps that relation. */
  lemma KeysPast(q: Portfolio, p: Portfolio, k: string)
    requires p != [] && p[0].coinId != k
    requires Keys(q) == if k in Keys(p[1..]) then Keys(p[1..]) else Keys(p[1..]) + [k]
    ensures Keys([p[0]] + q) == if k in Keys(p) then Keys(p) else Keys(p) + [k]
  {
    KeysCons(p[0], q);
    assert Keys(p) == [p[0].coinId] + Keys(p[1..]);
    ConsAppendKey(p[0].coinId, Keys(p[1..]), Keys(q), k);
  }

  lemma KeysCons(x: Holding, q: Portfolio)
    ensures Keys([x] + q) == [x.coinId] + Keys(q)
  {
    assert ([x] + q)[1..] == q;
  }

  /** "Append the key unless present" commutes with putting another key in
      front. */
  lemma ConsAppendKey(a: string, ks: seq<string>, ks': seq<string>, k: string)
    requires a != k
    requires ks' == if k in ks then ks else ks + [k]
    ensures [a] + ks' == if k in [a] + ks then [a] + ks else [a] + ks + [k]
  {
    assert k in [a] + ks <==> k in ks;
  }

  /** Adding or replacing an entry never creates a second entry for a key. */
  lemma PutUnique(p: Portfolio, h: Holding)
    requires UniqueKeys(p)
    ensures UniqueKeys(Put(p, h))
  {
    PutKeys(p, h);
    if h.coinId !in Keys(p) {
      AppendFreshNoDuplicates(Keys(p), h.coinId);
    }
  }

  /** `delete portfolio[coinId]`: only that key goes, the others keep their
      entries and their order, and an absent key changes nothing. */
  function Delete(p: Portfolio, coinId: string): (r: Portfolio)
    ensures Get(r, coinId).None?
    ensures forall k :: k != coinId ==> Get(r, k) == Get(p, k)
    ensures IsSubsequence(r, p)
    ensures Get(p, coinId).None? ==> r == p
  {
    if p == [] then []
    else if p[0].coinId == coinId then Delete(p[1..], coinId)
    else [p[0]] + Delete(p[1..], coinId)
  }

  /** Deleting takes exactly that key out of the key list. */
  lemma {:induction false} DeleteKeys(p: Portfolio, coinId: string)
    ensures Keys(Delete(p, coinId)) == Filter(Keys(p), (k: string) => k != coinId)
  {
    if p != [] {
      DeleteKeys(p[1..], coinId);
      assert Keys(p) == [p[0].coinId] + Keys(p[1..]);
      if p[0].coinId != coinId {
        assert Keys(Delete(p, coinId)) == [p[0].coinId] + Keys(Delete(p[1..], coinId));
      }
    }
  }

  lemma DeleteUnique(p: Portfolio, coinId: string)
    requires UniqueKeys(p)
    ensures UniqueKeys(Delete(p, coinId))
  {
    DeleteKeys(p, coinId);
    FilterKeepsNoDuplicates(Keys(p), (k: string) => k != coinId);
  }

  /** `{...portfolio, [coinId]: {...portfolio[coinId], amount}}` for a key that
      is present: that entry's amount changes and nothing else does. */
  function SetAmount(p: Portfolio, coinId: string, amount: real): (r: Portfolio)
    ensures Get(p, coinId).None? ==> r == p
    ensures Get(p, coinId).Some? ==> Get(r, coinId) == Some(Get(p, coinId).value.(amount := amount))
    ensures forall k :: k != coinId ==> Get(r, k) == Get(p, k)
    ensures Keys(r) == Keys(p)
  {
    match Get(p, coinId)
    case None => p
    case Some(h) =>
      PutKeys(p, h.(amount := amount));
      Put(p, h.(amount := amount))
  }
}

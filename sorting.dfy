/**
 * The two in-place sorts of the pass: `.sort((a, b) => a.id - b.id)` and
 * the re-sort by `parseInt(rank) + parseInt(moonRank)`. A comparator
 * yields a number or NaN. The engine's sort algorithm is not part of this
 * model; SortBy below is an insertion sort standing in for it, which
 * moves a record before another only when the comparator is a positive
 * number, so in this model a record whose key is NaN is never moved
 * past. Since the engine's order for NaN keys is not specified, ascending
 * order is promised only when every key is a number.
 */
module Sorting {
  import opened Wrappers
  import opened Values
  import opened Enrichment
  import Text

  /** A sort key: a number, or None for NaN. */
  type Key = Record -> Option<real>

  /** The key of `(a, b) => a.id - b.id`. */
  function IdKey(r: Record): Option<real>
  {
    ToNumber(Get(r, Id))
  }

  /** The key of the re-sort: `parseInt(rank || "") + parseInt(moonRank || "")`. */
  function RankSumKey(r: Record): Option<real>
  {
    match (ParseIntOf(Get(r, Rank)), ParseIntOf(Get(r, MoonRank)))
    case (Some(a), Some(b)) => Some((a + b) as real)
    case _ => None
  }

  /** `comparator(a, b) > 0`: both keys are numbers and `a`'s is the larger. */
  predicate After(key: Key, a: Record, b: Record)
  {
    key(a).Some? && key(b).Some? && key(a).value > key(b).value
  }

  /** Both keys are numbers and `a`'s is not the larger. */
  predicate NotAfter(key: Key, a: Record, b: Record)
  {
    key(a).Some? && key(b).Some? && key(a).value <= key(b).value
  }

  /**
   * A matched record's `id` is the row's first column, a string; when it
   * spells the number `k` in decimal, the id key is `k`.
   */
  lemma MatchedIdKey(market: Market, store: Store, moonrank: Moonrank, l: Listing, k: nat)
    requires ValidMarket(market) && HasRow(store, l)
    requires var row := Query(store, Text.SecondPiece(l.title)).value; |row| > 0 && row[0] == Text.Decimal(k)
    ensures IdKey(EnrichOne(market, store, moonrank, l)) == Some(k as real)
  {
    MatchedFields(market, store, moonrank, l);
    ToNumberDecimal(k);
  }

  /** An unmatched record's `id` is the parsed identifier: for `<name>#<n>` its id key is `n`. */
  lemma UnmatchedIdKey(market: Market, store: Store, moonrank: Moonrank, l: Listing, name: string, n: nat)
    requires ValidMarket(market) && !HasRow(store, l)
    requires Text.Hash !in name && l.title == name + [Text.Hash] + Text.Decimal(n)
    ensures IdKey(EnrichOne(market, store, moonrank, l)) == Some(n as real)
  {
    Text.NumberOfTitle(name, n);
  }

  /**
   * An unmatched record has neither `rank` nor `moonRank`, so its rank
   * sum is NaN: with any unmatched listing the rank sort's order is not
   * promised.
   */
  lemma UnmatchedRankSum(market: Market, store: Store, moonrank: Moonrank, l: Listing)
    requires ValidMarket(market) && !HasRow(store, l)
    ensures RankSumKey(EnrichOne(market, store, moonrank, l)) == None
  {
    UnmatchedFields(market, store, moonrank, l);
    assert Headers[1] == Rank;
  }

  /**
   * A matched record whose `rank` column spells `a` and whose moonrank
   * spells `b` has rank sum `a + b`.
   */
  lemma MatchedRankSum(market: Market, store: Store, moonrank: Moonrank, l: Listing, id: string, a: nat, b: nat)
    requires ValidMarket(market)
    requires Text.SecondPiece(l.title) == Some(id) && id in store
    requires |store[id]| > 1 && store[id][1] == Text.Decimal(a)
    requires id in moonrank && moonrank[id] == Text.Decimal(b)
    ensures RankSumKey(EnrichOne(market, store, moonrank, l)) == Some((a + b) as real)
  {
    var r := Matched(market, moonrank, l, store[id]);
    assert EnrichOne(market, store, moonrank, l) == r;
    MatchedRecordColumns(market, moonrank, l, store[id]);
    MatchedRecordOwnFields(market, moonrank, l, store[id]);
    assert Get(r, Rank) == Str(Text.Decimal(a));
    assert Get(r, MoonRank) == Str(Text.Decimal(b));
    RankSumOfDecimals(r, a, b);
  }

  /** A record whose `rank` spells `a` and whose `moonRank` spells `b` has rank sum `a + b`. */
  lemma RankSumOfDecimals(r: Record, a: nat, b: nat)
    requires Get(r, Rank) == Str(Text.Decimal(a)) && Get(r, MoonRank) == Str(Text.Decimal(b))
    ensures RankSumKey(r) == Some((a + b) as real)
  {
    ParseIntOfDecimal(a);
    ParseIntOfDecimal(b);
  }

  /** Every record has a numeric key. */
  predicate Keyed(s: seq<Record>, key: Key)
  {
    forall x :: x in s ==> key(x).Some?
  }

  /** Ascending order of key, every key a number. */
  predicate Ascending(s: seq<Record>, key: Key)
  {
    forall p, q :: 0 <= p < q < |s| ==> NotAfter(key, s[p], s[q])
  }

  /** Rearranging records does not change whether all keys are numbers. */
  lemma KeyedPermutation(s: seq<Record>, t: seq<Record>, key: Key)
    requires multiset(s) == multiset(t)
    ensures Keyed(s, key) <==> Keyed(t, key)
  {
    forall x | x in s ensures x in t {
      assert x in multiset(s);
    }
    forall x | x in t ensures x in s {
      assert x in multiset(t);
    }
  }

  /** Exchange two records of `a`. */
  method Swap(a: array<Record>, i: nat, j: nat)
    requires i < a.Length && j < a.Length
    modifies a
    ensures a[..] == old(a[..])[i := old(a[j])][j := old(a[i])]
    ensures multiset(a[..]) == multiset(old(a[..]))
  {
    a[i], a[j] := a[j], a[i];
  }

  /**
   * Sort `a` in place by the comparator `key(a) - key(b)` (an insertion
   * sort): the result is a permutation, and ascending whenever every key
   * is a number.
   */
  method SortBy(a: array<Record>, key: Key)
    modifies a
    ensures multiset(a[..]) == multiset(old(a[..]))
    ensures Keyed(old(a[..]), key) ==> Ascending(a[..], key)
  {
    ghost var keyed := Keyed(a[..], key);
    if keyed {
      forall k | 0 <= k < a.Length ensures key(a[k]).Some? {
        assert a[k] in a[..];
      }
    }
    var i := 0;
    while i < a.Length
      invariant 0 <= i <= a.Length
      invariant multiset(a[..]) == multiset(old(a[..]))
      invariant keyed ==> forall k :: 0 <= k < a.Length ==> key(a[k]).Some?
      invariant keyed ==> forall p, q :: 0 <= p < q < i ==> NotAfter(key, a[p], a[q])
    {
      var j := i;
      while 0 < j && After(key, a[j - 1], a[j])
        invariant 0 <= j <= i
        invariant multiset(a[..]) == multiset(old(a[..]))
        invariant keyed ==> forall k :: 0 <= k < a.Length ==> key(a[k]).Some?
        invariant keyed ==> forall p, q :: 0 <= p < q <= i && q != j ==> NotAfter(key, a[p], a[q])
      {
        Swap(a, j - 1, j);
        j := j - 1;
      }
      i := i + 1;
    }
  }
}

/**
 * The MagicEden script's `dataWithScore`: every record of the id-sorted
 * list with `id`, `price`, `moonRank` and `rank` moved to the front, a
 * `score` of `(price - minPrice) * 100 + parseInt(moonRank || "")` after
 * them, and the rest of its fields unchanged.
 */
module Scoring {
  import opened Wrappers
  import opened Values
  import opened Enrichment

  /** The fields the destructuring `const { id, price, moonRank, rank, ...rest }` takes out. */
  const Leading: set<Field> := {Id, Price, MoonRank, Rank}

  /**
   * `(price - minPrice) * 100 + parseInt(moonRank || "")`. An unparsable
   * moonrank gives NaN; so does a price that is not a number. With
   * `minPrice` still `Infinity` the difference is minus infinity.
   */
  function ScoreOf(r: Record, minPrice: MinPrice): Value
  {
    match (Get(r, Price), ParseIntOf(Get(r, MoonRank)))
    case (Num(p), Some(k)) =>
      (match minPrice
       case Finite(m) => Num((p - m) * 100.0 + k as real)
       case Infinity => NegInfinity)
    case _ => NaN
  }

  /** One record of `dataWithScore`: `{ id, price, moonRank, rank, score, ...rest }`. */
  function WithScore(r: Record, minPrice: MinPrice): Record
  {
    map[
      Id := Get(r, Id),
      Price := Get(r, Price),
      MoonRank := Get(r, MoonRank),
      Rank := Get(r, Rank),
      Score := ScoreOf(r, minPrice)
    ] + (r - Leading)
  }

  /** `enhancedData.map(...)`: the scored records, in the same order. */
  function ScoreAll(data: seq<Record>, minPrice: MinPrice): (scored: seq<Record>)
    ensures |scored| == |data|
  {
    seq(|data|, i requires 0 <= i < |data| => WithScore(data[i], minPrice))
  }

  /**
   * A scored record keeps every field of its record with the same value,
   * gains `moonRank` and `rank` (as `undefined` when the record had none)
   * and `score`, and nothing else.
   */
  lemma WithScoreFields(r: Record, minPrice: MinPrice)
    requires Score !in r
    ensures WithScore(r, minPrice).Keys == r.Keys + Leading + {Score}
    ensures forall f :: f in r ==> WithScore(r, minPrice)[f] == r[f]
    ensures forall f :: f in Leading ==> WithScore(r, minPrice)[f] == Get(r, f)
    ensures WithScore(r, minPrice)[Score] == ScoreOf(r, minPrice)
  {
  }

  /**
   * In the MagicEden pass every record with a `moonRank` field comes from
   * a matched listing, so the minimum is finite and no higher than its
   * price: `price - minPrice >= 0`, and a numeric score is never below
   * the record's moonrank.
   */
  lemma ScoreAboveMoonrank(store: Store, moonrank: Moonrank, listings: seq<Listing>, data: seq<Record>, k: nat)
    requires multiset(data) == multiset(EnrichAll(MagicEden, store, moonrank, listings))
    requires k < |data| && MoonRank in data[k]
    ensures MinMatched(store, listings).Finite?
    ensures Get(data[k], Price).Num? && MinMatched(store, listings).value <= Get(data[k], Price).x
    ensures ScoreOf(data[k], MinMatched(store, listings)).Num? ==>
      ScoreOf(data[k], MinMatched(store, listings)).x >= ParseIntOf(Get(data[k], MoonRank)).value as real
  {
    var all := EnrichAll(MagicEden, store, moonrank, listings);
    assert data[k] in multiset(all);
    var i :| 0 <= i < |all| && all[i] == data[k];
    var l := listings[i];
    if !HasRow(store, l) {
      MarketsValid();
      UnmatchedFields(MagicEden, store, moonrank, l);
      assert false;
    }
    MarketsValid();
    MatchedFields(MagicEden, store, moonrank, l);
    MinMatchedIsMinimum(store, listings);
  }
}

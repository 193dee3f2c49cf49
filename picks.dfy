/**
 * The picks report: the rank-sorted records are pushed into four price
 * bands with closed upper bounds 0.5, 1, 1.5 and 2 (a record above 2 goes
 * nowhere), and the first three of each band, band by band, are the
 * picks.
 */
module Picks {
  import opened Wrappers
  import opened Values
  import Sorting

  /** The closed upper bound of each band. */
  const Upper: seq<real> := [0.5, 1.0, 1.5, 2.0]

  /** The number of bands and how many records each contributes to the picks. */
  const BandCount: nat := 4
  const PerBand: nat := 3

  /**
   * The `if ... else if` chain: the first band whose bound the price does
   * not exceed, or none above 2.
   */
  function BandOfPrice(price: real): (b: Option<nat>)
    ensures b.Some? <==> price <= Upper[BandCount - 1]
    ensures b.Some? ==> b.value < BandCount && price <= Upper[b.value]
    ensures b.Some? && b.value > 0 ==> Upper[b.value - 1] < price
  {
    if price <= 0.5 then Some(0)
    else if price <= 1.0 then Some(1)
    else if price <= 1.5 then Some(2)
    else if price <= 2.0 then Some(3)
    else None
  }

  /**
   * The band of a record. A price that is not a number fails every
   * comparison, like NaN in `gloom.price <= 0.5`.
   */
  function Band(r: Record): Option<nat>
  {
    match Get(r, Price)
    case Num(p) => BandOfPrice(p)
    case _ => None
  }

  /** The records of band `b`, in the order they were pushed. */
  function InBand(s: seq<Record>, b: nat): seq<Record>
  {
    if s == [] then []
    else InBand(s[..|s| - 1], b) + (if Band(s[|s| - 1]) == Some(b) then [s[|s| - 1]] else [])
  }

  /** The four bands of `s`. */
  function Bands(s: seq<Record>): seq<seq<Record>>
  {
    seq(BandCount, b requires 0 <= b < BandCount => InBand(s, b))
  }

  /**
   * The `sortedData.reduce` over `[[], [], [], []]`: each record with a
   * band is pushed onto that band's list.
   */
  method Bucketise(sorted: seq<Record>) returns (buckets: seq<seq<Record>>)
    ensures buckets == Bands(sorted)
  {
    buckets := [[], [], [], []];
    for i := 0 to |sorted|
      invariant |buckets| == BandCount
      invariant forall b :: 0 <= b < BandCount ==> buckets[b] == InBand(sorted[..i], b)
    {
      var r := sorted[i];
      var band := Band(r);
      if band.Some? {
        buckets := buckets[band.value := buckets[band.value] + [r]];
      }
      assert sorted[..i + 1][..i] == sorted[..i];
    }
    assert sorted[..|sorted|] == sorted;
  }

  /**
   * Every record of band `b` is a record of `s` whose price lies in that
   * band, so no record is in two bands and every member is priced at
   * most 2.
   */
  lemma {:induction false} InBandMembers(s: seq<Record>, b: nat)
    ensures forall x :: x in InBand(s, b) ==> x in s && Band(x) == Some(b)
    ensures forall x :: x in InBand(s, b) ==> Get(x, Price).Num? && Get(x, Price).x <= Upper[BandCount - 1]
  {
    if s != [] {
      InBandMembers(s[..|s| - 1], b);
      forall x | x in s[..|s| - 1] ensures x in s {
        var k :| 0 <= k < |s| - 1 && s[..|s| - 1][k] == x;
        assert s[k] == x;
      }
    }
  }

  /**
   * Band `b` holds every occurrence in `s` of a record whose price is in
   * band `b`, and nothing else: the bands are disjoint, and together they
   * hold exactly the records priced at most 2.
   */
  lemma {:induction false} InBandCounts(s: seq<Record>, b: nat)
    ensures forall x :: multiset(InBand(s, b))[x] == if Band(x) == Some(b) then multiset(s)[x] else 0
  {
    if s != [] {
      var init, last := s[..|s| - 1], s[|s| - 1];
      InBandCounts(init, b);
      assert s == init + [last];
      assert InBand(s, b) == InBand(init, b) + (if Band(last) == Some(b) then [last] else []);
    }
  }

  /** A band keeps the order of `s`: if `s` ascends by a key, so does each band. */
  lemma {:induction false} InBandAscending(s: seq<Record>, b: nat, key: Sorting.Key)
    requires Sorting.Ascending(s, key)
    ensures Sorting.Ascending(InBand(s, b), key)
  {
    if s != [] {
      var init, last := s[..|s| - 1], s[|s| - 1];
      assert Sorting.Ascending(init, key);
      InBandAscending(init, b, key);
      InBandMembers(init, b);
      var t := InBand(s, b);
      if Band(last) == Some(b) {
        forall p, q | 0 <= p < q < |t| ensures Sorting.NotAfter(key, t[p], t[q]) {
          if q == |t| - 1 && p < |t| - 1 {
            var x := t[p];
            assert x in InBand(init, b);
            var i :| 0 <= i < |init| && init[i] == x;
            assert s[i] == x && s[|s| - 1] == last;
          }
        }
      }
    }
  }

  /** `bucket.slice(0, 3)`. */
  function Head3(bucket: seq<Record>): (h: seq<Record>)
    ensures |h| == if |bucket| < PerBand then |bucket| else PerBand
    ensures h == bucket[..|h|]
  {
    if |bucket| <= PerBand then bucket else bucket[..PerBand]
  }

  /** `buckets.reduce((picks, bucket) => [...picks, ...bucket.slice(0, 3)], [])`. */
  function TopPicks(buckets: seq<seq<Record>>): seq<Record>
  {
    if buckets == [] then []
    else TopPicks(buckets[..|buckets| - 1]) + Head3(buckets[|buckets| - 1])
  }

  /** The picks are at most three per bucket, each taken from some bucket. */
  lemma {:induction false} TopPicksBound(buckets: seq<seq<Record>>)
    ensures |TopPicks(buckets)| <= PerBand * |buckets|
    ensures forall x :: x in TopPicks(buckets) ==> exists b :: 0 <= b < |buckets| && x in Head3(buckets[b])
  {
    if buckets != [] {
      var init := buckets[..|buckets| - 1];
      TopPicksBound(init);
      forall x | x in TopPicks(buckets)
        ensures exists b :: 0 <= b < |buckets| && x in Head3(buckets[b])
      {
        if x in TopPicks(init) {
          var b :| 0 <= b < |init| && x in Head3(init[b]);
          assert buckets[b] == init[b];
        } else {
          assert x in Head3(buckets[|buckets| - 1]);
        }
      }
    }
  }

  /** With four buckets, the picks are each bucket's first three in bucket order. */
  lemma FourBucketPicks(buckets: seq<seq<Record>>)
    requires |buckets| == BandCount
    ensures TopPicks(buckets) == Head3(buckets[0]) + Head3(buckets[1]) + Head3(buckets[2]) + Head3(buckets[3])
  {
    assert buckets[..1][..0] == [] && buckets[..1][0] == buckets[0];
    assert buckets[..2][..1] == buckets[..1] && buckets[..2][1] == buckets[1];
    assert buckets[..3][..2] == buckets[..2] && buckets[..3][2] == buckets[2];
    assert buckets[..3] == buckets[..|buckets| - 1];
    assert TopPicks(buckets[..1]) == Head3(buckets[0]);
    assert TopPicks(buckets[..2]) == Head3(buckets[0]) + Head3(buckets[1]);
    assert TopPicks(buckets[..3]) == Head3(buckets[0]) + Head3(buckets[1]) + Head3(buckets[2]);
  }

  /**
   * The picks of the rank-sorted records: at most 12, each a record of
   * `sorted` priced at most 2, drawn from the first three of its band.
   */
  lemma PicksOfSorted(sorted: seq<Record>)
    ensures |TopPicks(Bands(sorted))| <= PerBand * BandCount
    ensures forall x :: x in TopPicks(Bands(sorted)) ==>
      x in sorted && Band(x).Some? && Get(x, Price).Num? && Get(x, Price).x <= Upper[BandCount - 1]
    ensures forall x :: x in TopPicks(Bands(sorted)) ==> x in Head3(InBand(sorted, Band(x).value))
  {
    var bands := Bands(sorted);
    TopPicksBound(bands);
    forall x | x in TopPicks(bands)
      ensures x in sorted && Band(x).Some? && Get(x, Price).Num? && Get(x, Price).x <= Upper[BandCount - 1]
      ensures x in Head3(InBand(sorted, Band(x).value))
    {
      var b :| 0 <= b < |bands| && x in Head3(bands[b]);
      InBandMembers(sorted, b);
      assert x in InBand(sorted, b);
    }
  }
}

/**
 * The MagicEden script end to end: enrich the `results` while tracking
 * the minimum matched price, sort by id, score (the rows of the data
 * report), re-sort by rank sum, bucket by price and take the picks.
 * Reading the JSON files, the store, writing the two CSV files and
 * deleting the input file are not part of this model.
 */
module MagicEdenPass {
  import opened Values
  import opened Enrichment
  import opened Sorting
  import opened Scoring
  import opened Picks
  import Text

  /**
   * Both URLs of a MagicEden record: the rarity page of the identifier
   * and the item page of the mint address, whether or not the listing
   * has a rarity row.
   */
  lemma MagicEdenURLs(store: Store, moonrank: Moonrank, l: Listing)
    ensures var r := EnrichOne(MagicEden, store, moonrank, l);
      && RarityURL in r && MeURL in r
      && r[RarityURL] == Str("https://gloom-rarity-page.vercel.app/punk/" + IdText(Text.SecondPiece(l.title)))
      && r[MeURL] == Str("https://magiceden.io/item-details/" + l.address)
  {
  }

  /**
   * The pass over the listings. `enhancedData` is the id-sorted list the
   * score is computed from, `dataWithScore` the data report, `sortedData`
   * the rank-sorted list (the same array, sorted again) and `topPicks`
   * the picks report.
   */
  method Run(listings: seq<Listing>, store: Store, moonrank: Moonrank)
    returns (enhancedData: seq<Record>, dataWithScore: seq<Record>, sortedData: seq<Record>, topPicks: seq<Record>)
    ensures |enhancedData| == |listings|
    ensures multiset(enhancedData) == multiset(EnrichAll(MagicEden, store, moonrank, listings))
    ensures Keyed(enhancedData, IdKey) ==> Ascending(enhancedData, IdKey)
    ensures dataWithScore == ScoreAll(enhancedData, MinMatched(store, listings))
    ensures forall k :: 0 <= k < |enhancedData| && MoonRank in enhancedData[k] ==>
      MinMatched(store, listings).Finite? &&
      Get(enhancedData[k], Price).Num? && MinMatched(store, listings).value <= Get(enhancedData[k], Price).x
    ensures multiset(sortedData) == multiset(enhancedData)
    ensures Keyed(sortedData, RankSumKey) ==> Ascending(sortedData, RankSumKey)
    ensures topPicks == TopPicks(Bands(sortedData))
    ensures |topPicks| <= PerBand * BandCount
    ensures forall x :: x in topPicks ==> x in sortedData && Get(x, Price).Num? && Get(x, Price).x <= Upper[BandCount - 1]
  {
    var records, minPrice := EnrichTrackingMin(MagicEden, store, moonrank, listings);
    var data := new Record[|records|](i requires 0 <= i < |records| => records[i]);
    assert data[..] == records;
    SortBy(data, IdKey);
    enhancedData := data[..];
    KeyedPermutation(records, enhancedData, IdKey);
    assert |multiset(enhancedData)| == |multiset(records)|;
    forall k | 0 <= k < |enhancedData| && MoonRank in enhancedData[k]
      ensures MinMatched(store, listings).Finite? &&
        Get(enhancedData[k], Price).Num? && MinMatched(store, listings).value <= Get(enhancedData[k], Price).x
    {
      ScoreAboveMoonrank(store, moonrank, listings, enhancedData, k);
    }
    dataWithScore := ScoreAll(enhancedData, minPrice);
    SortBy(data, RankSumKey);
    sortedData := data[..];
    KeyedPermutation(enhancedData, sortedData, RankSumKey);
    var buckets := Bucketise(sortedData);
    topPicks := TopPicks(buckets);
    PicksOfSorted(sortedData);
  }
}

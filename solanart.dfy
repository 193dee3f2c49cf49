/**
 * The Solanart script end to end: enrich the listings, sort by id (the
 * rows of the data report), re-sort by rank sum, bucket by price and
 * take the picks. It has no minimum price and no score. Reading the
 * JSON files, the store and writing the two CSV files are not part of
 * this model.
 */
module SolanartPass {
  import opened Values
  import opened Enrichment
  import opened Sorting
  import opened Picks
  import Text

  /**
   * Both URLs of a Solanart record: the rarity page of the identifier
   * taken from `name`, and the search page of the token address, whether
   * or not the listing has a rarity row.
   */
  lemma SolanartURLs(store: Store, moonrank: Moonrank, l: Listing)
    ensures var r := EnrichOne(Solanart, store, moonrank, l);
      && RarityURL in r && SolanartURL in r
      && r[RarityURL] == Str("https://gloom-rarity-page.vercel.app/punk/" + IdText(Text.SecondPiece(l.title)))
      && r[SolanartURL] == Str("https://solanart.io/search/?token=" + l.address)
  {
  }

  /**
   * The pass over the listings. `enhancedData` is the id-sorted data
   * report, `sortedData` the rank-sorted list (the same array, sorted
   * again) and `topPicks` the picks report.
   */
  method Run(listings: seq<Listing>, store: Store, moonrank: Moonrank)
    returns (enhancedData: seq<Record>, sortedData: seq<Record>, topPicks: seq<Record>)
    ensures |enhancedData| == |listings|
    ensures multiset(enhancedData) == multiset(EnrichAll(Solanart, store, moonrank, listings))
    ensures Keyed(enhancedData, IdKey) ==> Ascending(enhancedData, IdKey)
    ensures multiset(sortedData) == multiset(enhancedData)
    ensures Keyed(sortedData, RankSumKey) ==> Ascending(sortedData, RankSumKey)
    ensures topPicks == TopPicks(Bands(sortedData))
    ensures |topPicks| <= PerBand * BandCount
    ensures forall x :: x in topPicks ==> x in sortedData && Get(x, Price).Num? && Get(x, Price).x <= Upper[BandCount - 1]
  {
    var records := EnrichAll(Solanart, store, moonrank, listings);
    var data := new Record[|records|](i requires 0 <= i < |records| => records[i]);
    assert data[..] == records;
    SortBy(data, IdKey);
    enhancedData := data[..];
    KeyedPermutation(records, enhancedData, IdKey);
    assert |multiset(enhancedData)| == |multiset(records)|;
    SortBy(data, RankSumKey);
    sortedData := data[..];
    KeyedPermutation(enhancedData, sortedData, RankSumKey);
    var buckets := Bucketise(sortedData);
    topPicks := TopPicks(buckets);
    PicksOfSorted(sortedData);
  }
}

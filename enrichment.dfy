/**
 * The enrichment pass both scripts share: each listing becomes a record
 * holding its identifier, price, the rarity-page URL and the
 * marketplace URL; a listing whose identifier has a row in the rarity
 * store also gets its moonrank and the row's columns, zipped against the
 * fixed header list. The MagicEden script also keeps the lowest price of
 * the matched listings while it maps.
 */
module Enrichment {
  import opened Wrappers
  import opened Values
  import Text

  /** One marketplace listing: its `title` (MagicEden) or `name` (Solanart), price and address. */
  datatype Listing = Listing(title: string, price: real, address: string)

  /** What differs between the two scripts: the marketplace URL and the field holding it. */
  datatype Market = Market(urlPrefix: string, urlField: Field)

  const MagicEden: Market := Market("https://magiceden.io/item-details/", MeURL)
  const Solanart: Market := Market("https://solanart.io/search/?token=", SolanartURL)

  const RarityPrefix: string := "https://gloom-rarity-page.vercel.app/punk/"

  /** The rarity store: `SELECT * from gloomRarity WHERE id = ?` by identifier text. */
  type Store = map<string, seq<string>>

  /** The moonrank file: identifier text to moonrank. */
  type Moonrank = map<string, string>

  /** The column names of a rarity row, in column order. */
  const Headers: seq<Field> := [
    Id, Rank, Background, Skin, Hair, Mouth,
    Eyes, Eyebrows, Clothes, HeadAccessory, FaceAccessory, Glasses
  ]

  /** The keys the pass itself writes, besides the header columns and the marketplace URL. */
  const OwnKeys: set<Field> := {Id, Price, MoonRank, RarityURL}

  /** The marketplace URL field must not collide with a field the pass writes itself. */
  predicate ValidMarket(m: Market)
  {
    m.urlField == MeURL || m.urlField == SolanartURL
  }

  lemma MarketsValid()
    ensures ValidMarket(MagicEden) && ValidMarket(Solanart)
  {
  }

  lemma HeadersDistinct()
    ensures forall i, j :: 0 <= i < j < |Headers| ==> Headers[i] != Headers[j]
  {
  }

  /** `${id}`: the identifier text, or "undefined" when the title has no `#`. */
  function IdText(id: Option<string>): string
  {
    match id
    case Some(s) => s
    case None => "undefined"
  }

  /**
   * The store's first row for the identifier, or None when the query
   * returns nothing. A missing identifier is bound as NULL, which no
   * row's id equals.
   */
  function Query(store: Store, id: Option<string>): Option<seq<string>>
  {
    if id.Some? && id.value in store then Some(store[id.value]) else None
  }

  /** `rarityData[index]`: a column of the row, `undefined` past its end. */
  function Cell(row: seq<string>, i: nat): Value
  {
    if i < |row| then Str(row[i]) else Undefined
  }

  /**
   * The header reduce after its first `n` steps: starting from
   * `{ rank: "" }`, each step spreads the accumulator and sets
   * `[Headers[i]]: row[i]`.
   */
  function ZipRow(row: seq<string>, n: nat): Record
    requires n <= |Headers|
  {
    if n == 0 then map[Rank := Str("")]
    else ZipRow(row, n - 1)[Headers[n - 1] := Cell(row, n - 1)]
  }

  /** The complete reduce: the row as an object keyed by the headers. */
  function Rarity(row: seq<string>): Record
  {
    ZipRow(row, |Headers|)
  }

  /**
   * After `n` steps the object holds `rank` and the first `n` headers,
   * each set to its column; `rank` keeps its `""` default only until
   * the header `rank` (the second) is reached.
   */
  lemma {:induction false} ZipRowFields(row: seq<string>, n: nat)
    requires n <= |Headers|
    ensures forall f :: f in ZipRow(row, n) <==> f == Rank || f in Headers[..n]
    ensures forall i :: 0 <= i < n ==> ZipRow(row, n)[Headers[i]] == Cell(row, i)
    ensures n <= 1 ==> ZipRow(row, n)[Rank] == Str("")
  {
    if n > 0 {
      ZipRowFields(row, n - 1);
      HeadersDistinct();
      assert Headers[..n] == Headers[..n - 1] + [Headers[n - 1]];
    }
  }

  /** The keys of the rarity object. */
  const HeaderKeys: set<Field> := {
    Id, Rank, Background, Skin, Hair, Mouth,
    Eyes, Eyebrows, Clothes, HeadAccessory, FaceAccessory, Glasses
  }

  /** The set display above holds exactly the fields of `Headers`. */
  lemma HeaderKeysAreHeaders()
    ensures forall f :: f in HeaderKeys <==> f in Headers
  {
  }

  /** The rarity object has exactly the header keys, `headers[i]` holding `row[i]`. */
  lemma RarityFields(row: seq<string>)
    ensures Rarity(row).Keys == HeaderKeys
    ensures forall i :: 0 <= i < |Headers| ==> Rarity(row)[Headers[i]] == Cell(row, i)
    ensures Rarity(row)[Id] == Cell(row, 0) && Rarity(row)[Rank] == Cell(row, 1)
  {
    ZipRowFields(row, |Headers|);
    assert Headers[..|Headers|] == Headers;
    assert Headers[0] == Id && Headers[1] == Rank;
  }

  /** `moonrank[id]`: the moonrank text, or `undefined`. */
  function MoonValue(moonrank: Moonrank, id: string): Value
  {
    if id in moonrank then Str(moonrank[id]) else Undefined
  }

  /** The record of a listing with no rarity row: `{ id: parseInt(id), price, rarityURL, <url> }`. */
  function Unmatched(market: Market, l: Listing): Record
  {
    var id := Text.SecondPiece(l.title);
    map[
      Id := FromParsed(if id.Some? then Text.ParseInt(id.value) else None),
      Price := Num(l.price),
      RarityURL := Str(RarityPrefix + IdText(id)),
      market.urlField := Str(market.urlPrefix + l.address)
    ]
  }

  /**
   * The record of a listing with a rarity row:
   * `{ id: parseInt(id), price, moonRank: moonrank[id], ...rarity, rarityURL, <url> }`.
   * Spreading is map union, the later object winning on shared keys.
   */
  function Matched(market: Market, moonrank: Moonrank, l: Listing, row: seq<string>): Record
  {
    MatchedFront(moonrank, l) + Rarity(row) + MatchedBack(market, l)
  }

  /** True when the rarity store has a row for the listing's identifier. */
  predicate HasRow(store: Store, l: Listing)
  {
    Query(store, Text.SecondPiece(l.title)).Some?
  }

  /** The `.map` callback, without its minimum-price side effect. */
  function EnrichOne(market: Market, store: Store, moonrank: Moonrank, l: Listing): Record
  {
    match Query(store, Text.SecondPiece(l.title))
    case None => Unmatched(market, l)
    case Some(row) => Matched(market, moonrank, l, row)
  }

  /**
   * `.map(callback).filter(Boolean)`: every callback result is an object,
   * so the filter keeps all of them.
   */
  function EnrichAll(market: Market, store: Store, moonrank: Moonrank, listings: seq<Listing>): seq<Record>
  {
    seq(|listings|, i requires 0 <= i < |listings| => EnrichOne(market, store, moonrank, listings[i]))
  }

  /**
   * An unmatched listing yields exactly `id`, `price`, `rarityURL` and the
   * marketplace URL: no `rank`, no `moonRank`, no trait.
   */
  lemma UnmatchedFields(market: Market, store: Store, moonrank: Moonrank, l: Listing)
    requires ValidMarket(market)
    requires !HasRow(store, l)
    ensures var r := EnrichOne(market, store, moonrank, l);
      && r.Keys == {Id, Price, RarityURL, market.urlField}
      && r[Price] == Num(l.price)
      && r[RarityURL] == Str(RarityPrefix + IdText(Text.SecondPiece(l.title)))
      && r[market.urlField] == Str(market.urlPrefix + l.address)
      && (r[Id].Num? <==> Text.SecondPiece(l.title).Some? && Text.ParseInt(Text.SecondPiece(l.title).value).Some?)
      && MoonRank !in r
      && forall i :: 1 <= i < |Headers| ==> Headers[i] !in r
  {
  }

  /** The three pieces the matched record is spread from. */
  function MatchedFront(moonrank: Moonrank, l: Listing): Record
  {
    var id := Text.SecondPiece(l.title);
    map[
      Id := FromParsed(if id.Some? then Text.ParseInt(id.value) else None),
      Price := Num(l.price),
      MoonRank := MoonValue(moonrank, IdText(id))
    ]
  }

  function MatchedBack(market: Market, l: Listing): Record
  {
    map[
      RarityURL := Str(RarityPrefix + IdText(Text.SecondPiece(l.title))),
      market.urlField := Str(market.urlPrefix + l.address)
    ]
  }

  /**
   * In the matched record `headers[i]` holds `row[i]`: the spread of the
   * row overrides both the parsed `id` (the final `id` is `row[0]`) and
   * the `rank: ""` default (the final `rank` is `row[1]`). Its keys are
   * the pass's own, the marketplace URL and every header.
   */
  lemma MatchedRecordColumns(market: Market, moonrank: Moonrank, l: Listing, row: seq<string>)
    requires ValidMarket(market)
    ensures Matched(market, moonrank, l, row).Keys == OwnKeys + {market.urlField} + HeaderKeys
    ensures forall i :: 0 <= i < |Headers| ==> Matched(market, moonrank, l, row)[Headers[i]] == Cell(row, i)
    ensures Matched(market, moonrank, l, row)[Id] == Cell(row, 0)
    ensures Matched(market, moonrank, l, row)[Rank] == Cell(row, 1)
  {
    var back := MatchedBack(market, l);
    RarityFields(row);
    assert MatchedFront(moonrank, l).Keys == {Id, Price, MoonRank};
    assert back.Keys == {RarityURL, market.urlField};
    forall i | 0 <= i < |Headers|
      ensures Matched(market, moonrank, l, row)[Headers[i]] == Cell(row, i)
    {
      assert Headers[i] in HeaderKeys && Headers[i] != RarityURL;
      assert Headers[i] !in back;
    }
    assert Headers[0] == Id && Headers[1] == Rank;
  }

  /**
   * The fields the matched record takes from the listing and the
   * moonrank file: `moonRank` is the moonrank of the identifier, and the
   * price and both URLs are those of the listing.
   */
  lemma MatchedRecordOwnFields(market: Market, moonrank: Moonrank, l: Listing, row: seq<string>)
    requires ValidMarket(market)
    ensures Matched(market, moonrank, l, row)[MoonRank] == MoonValue(moonrank, IdText(Text.SecondPiece(l.title)))
    ensures Matched(market, moonrank, l, row)[Price] == Num(l.price)
    ensures Matched(market, moonrank, l, row)[RarityURL] == Str(RarityPrefix + IdText(Text.SecondPiece(l.title)))
    ensures Matched(market, moonrank, l, row)[market.urlField] == Str(market.urlPrefix + l.address)
  {
    var front, back := MatchedFront(moonrank, l), MatchedBack(market, l);
    RarityFields(row);
    assert Price !in Rarity(row) && MoonRank !in Rarity(row);
    assert Price !in back && MoonRank !in back;
    assert Price in front && MoonRank in front;
  }

  /** The three lemmas above for the record EnrichOne gives a listing that has a row. */
  lemma MatchedFields(market: Market, store: Store, moonrank: Moonrank, l: Listing)
    requires ValidMarket(market)
    requires HasRow(store, l)
    ensures var id := Text.SecondPiece(l.title);
      var row := Query(store, id).value;
      var r := EnrichOne(market, store, moonrank, l);
      && id.Some?
      && r.Keys == OwnKeys + {market.urlField} + HeaderKeys
      && (forall i :: 0 <= i < |Headers| ==> r[Headers[i]] == Cell(row, i))
      && r[Id] == Cell(row, 0)
      && r[Rank] == Cell(row, 1)
      && r[MoonRank] == MoonValue(moonrank, id.value)
      && r[Price] == Num(l.price)
  {
    var row := Query(store, Text.SecondPiece(l.title)).value;
    MatchedRecordColumns(market, moonrank, l, row);
    MatchedRecordOwnFields(market, moonrank, l, row);
  }

  /** The running minimum as `let minPrice = Infinity` holds it. */
  datatype MinPrice = Infinity | Finite(value: real)

  /** `price < minPrice`. */
  predicate Below(price: real, m: MinPrice)
  {
    m.Infinity? || price < m.value
  }

  /** The lowest price over the matched listings, taken left to right. */
  function MinMatched(store: Store, listings: seq<Listing>): MinPrice
  {
    if listings == [] then Infinity
    else
      var m := MinMatched(store, listings[..|listings| - 1]);
      var l := listings[|listings| - 1];
      if HasRow(store, l) && Below(l.price, m) then Finite(l.price) else m
  }

  /**
   * The minimum stays `Infinity` exactly when no listing has a rarity row;
   * otherwise it is the price of a matched listing and no matched price
   * is below it. Unmatched listings play no part.
   */
  lemma {:induction false} MinMatchedIsMinimum(store: Store, listings: seq<Listing>)
    ensures MinMatched(store, listings).Infinity? <==>
      forall i :: 0 <= i < |listings| ==> !HasRow(store, listings[i])
    ensures forall i :: 0 <= i < |listings| && HasRow(store, listings[i]) ==>
      MinMatched(store, listings).Finite? && MinMatched(store, listings).value <= listings[i].price
    ensures MinMatched(store, listings).Finite? ==>
      exists i :: 0 <= i < |listings| && HasRow(store, listings[i]) && listings[i].price == MinMatched(store, listings).value
  {
    if listings != [] {
      var init := listings[..|listings| - 1];
      MinMatchedIsMinimum(store, init);
      var m := MinMatched(store, init);
      var last := |listings| - 1;
      assert forall i :: 0 <= i < last ==> listings[i] == init[i];
      if MinMatched(store, listings).Finite? {
        if HasRow(store, listings[last]) && Below(listings[last].price, m) {
          assert HasRow(store, listings[last]) && listings[last].price == MinMatched(store, listings).value;
        } else {
          var i :| 0 <= i < |init| && HasRow(store, init[i]) && init[i].price == m.value;
          assert listings[i] == init[i];
        }
      }
    }
  }

  /**
   * The `.map` over the listings with the callback's side effect on
   * `minPrice`: a matched listing cheaper than the running minimum lowers
   * it. The records are those of EnrichAll and the final minimum is
   * MinMatched.
   */
  method EnrichTrackingMin(market: Market, store: Store, moonrank: Moonrank, listings: seq<Listing>)
    returns (records: seq<Record>, minPrice: MinPrice)
    ensures records == EnrichAll(market, store, moonrank, listings)
    ensures minPrice == MinMatched(store, listings)
  {
    records, minPrice := [], Infinity;
    for k := 0 to |listings|
      invariant records == EnrichAll(market, store, moonrank, listings[..k])
      invariant minPrice == MinMatched(store, listings[..k])
    {
      var l := listings[k];
      var id := Text.SecondPiece(l.title);
      var query := Query(store, id);
      var record;
      if query.None? {
        record := Unmatched(market, l);
      } else {
        if Below(l.price, minPrice) {
          minPrice := Finite(l.price);
        }
        record := Matched(market, moonrank, l, query.value);
      }
      assert listings[..k + 1][..k] == listings[..k];
      records := records + [record];
    }
    assert listings[..|listings|] == listings;
  }
}

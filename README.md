# Gloom listing enrichment, modelled in Dafny

The two scripts `postprocess-magiceden.ts` and `postprocess-solanart.ts`
enrich the marketplace listings of the Gloom NFT collection. Each listing's
identifier is the second `#`-piece of its title (MagicEden `title`,
Solanart `name`). It is looked up in a rarity store, whose row is zipped
against a fixed list of twelve column names, and in a moonrank file. Each
listing gets a rarity-page URL and a marketplace URL. The records are
sorted by id and written as the data report. MagicEden first adds a
`score` built from the lowest price among matched listings. The records
are then re-sorted by `rank + moonRank`, pushed into four price bands
(closed upper bounds 0.5, 1, 1.5, 2) and the first three of each band
form the picks report.

The two scripts are one model. A `Market` value holds what differs: the
URL prefix and the name of the URL field (`meURL` or `solanartURL`). The
MagicEden driver adds the minimum-price tracking and the score.

Modules:

- `Text` (text.dfy): `split("#")`, the second piece, a digits-only `parseInt`.
- `Values` (values.dfy): JavaScript values (`Num`, `NaN`, `-Infinity`, strings,
  `undefined`), records as `map<Field, Value>`, and the coercions
  `parseInt(v || "")` and `a.id - b.id` apply.
- `Enrichment` (enrichment.dfy): the `.map` callback, the header zip, the
  running minimum.
- `Sorting` (sorting.dfy): the two in-place sorts, on an `array`.
- `Scoring` (scoring.dfy): `dataWithScore` (MagicEden only).
- `Picks` (picks.dfy): the bucket reduce and the top picks.
- `MagicEdenPass`, `SolanartPass` (magiceden.dfy, solanart.dfy): each script end to end.

A JavaScript object is a Dafny `map`. The object spread `{...a, ...b}` is
the map union `a + b`, where the right operand wins on a shared key. A key
present with value `undefined` (`moonRank: moonrank[id]` when the file
lacks the id) is distinct from an absent key. Property names are the
constructors of `Field`, each named after its JavaScript property.

Three behaviours of the code are easy to misread; the model follows the code:

- For a matched listing the final `id` is the row's first column, because
  `...rarity` comes after `id: parseInt(id)`. It is not the parsed
  integer. The id sort then compares through JavaScript's numeric coercion.
- In `dataWithScore` an unmatched record gains `moonRank` and `rank`
  keys, both with value `undefined`, because the destructuring writes
  them back explicitly.
- `sortedData` is the same array as `enhancedData`, sorted again in place.
  The data report is written before this second sort, so both drivers
  return the id-sorted snapshot and the rank-sorted one separately.

The Solanart lines that match the shared members are
`postprocess-solanart.ts:76-111` (enrichment and id sort, with `name`,
`token_add` and `solanartURL`), `:122-127` (rank sort), `:129-149`
(buckets) and `:151-154` (picks).

## Model

| member | source | states |
|---|---|---|
| Text.Split | postprocess-magiceden.ts:74 | `split("#")` gives at least one piece and no piece contains `#` |
| Text.JoinSplit | postprocess-magiceden.ts:74 | joining the pieces with `#` gives the title back, so splitting loses nothing |
| Text.SplitFirstPiece | postprocess-magiceden.ts:74 | a `#`-free prefix followed by `#` splits off as the first piece |
| Text.SplitNoSeparator | postprocess-magiceden.ts:74 | a string without `#` is one piece |
| Text.FirstSeparator | postprocess-magiceden.ts:74 | a string containing `#` splits into at least two pieces |
| Text.SecondPieceMissing | postprocess-magiceden.ts:74 | the identifier is `undefined` exactly when the title has no `#` |
| Text.IdentifierOfTitle | postprocess-magiceden.ts:74 | for a title `<name>#<id>` (optionally followed by more `#`-pieces) the identifier is exactly `<id>` |
| Text.ParseDecimal | postprocess-magiceden.ts:82 | about `Text.ParseInt`: `parseInt` of the decimal spelling of `n` is `n` |
| Text.NumberOfTitle | postprocess-magiceden.ts:74-82 | for a title `<name>#<n>` the identifier is the spelling of `n` and `parseInt` of it is `n` |
| Values.ParseIntOf | postprocess-magiceden.ts:135-136 | `parseInt` of a value, a falsy value taken as `""`, is NaN for `undefined`, NaN and `""`, and parses a string by its digits |
| Values.ToNumber | postprocess-magiceden.ts:111 | the coercion in `a.id - b.id` keeps numbers, makes `undefined` and NaN into NaN and the empty string into 0, and a non-empty string is a number exactly when it parses |
| Values.ToNumberDecimal | postprocess-magiceden.ts:111 | a string id spelled in decimal, such as a row's `id` column, coerces to its number |
| Values.ParseIntOfDecimal | postprocess-magiceden.ts:135-136 | a `rank` or `moonRank` string spelled in decimal is non-empty, so the fallback to `""` does not apply and `parseInt` gives its number |
| Enrichment.ZipRowFields | postprocess-magiceden.ts:87-95 | about `Enrichment.ZipRow`: after `n` steps of the header reduce the object holds `rank` and the first `n` headers, `headers[i]` holding `row[i]`; `rank` keeps `""` only before the `rank` header |
| Enrichment.RarityFields | postprocess-magiceden.ts:87-95 | about `Enrichment.Rarity`: the zipped row has exactly the twelve header keys, `headers[i]` holding `row[i]` (`undefined` past the row's end), so `id` is `row[0]` and `rank` is `row[1]` |
| Enrichment.UnmatchedFields | postprocess-magiceden.ts:80-83 | about `Enrichment.Unmatched` through `Enrichment.EnrichOne`: a listing without a rarity row yields exactly `id`, `price`, `rarityURL` and the marketplace URL; it has no `moonRank`, no `rank` and no trait; `id` is numeric exactly when the identifier parses |
| Enrichment.HeaderKeysAreHeaders | postprocess-magiceden.ts:43-56 | the key set of the rarity object holds exactly the twelve header names |
| Enrichment.MatchedRecordColumns | postprocess-magiceden.ts:101-108 | about `Enrichment.Matched`: a matched record's keys are `id`, `price`, `moonRank`, `rarityURL`, the marketplace URL and the twelve headers; `headers[i]` holds `row[i]`; the spread overrides the parsed id with `row[0]` and the `""` rank with `row[1]` |
| Enrichment.MatchedRecordOwnFields | postprocess-magiceden.ts:101-108 | about `Enrichment.Matched`: a matched record's `moonRank` is `moonrank[id]`, and its price and both URLs are the listing's |
| Enrichment.MatchedFields | postprocess-magiceden.ts:78-108 | about `Enrichment.EnrichOne`: for a listing that has a row, the identifier exists and the record EnrichOne builds has the matched keys and values |
| Enrichment.MinMatchedIsMinimum | postprocess-magiceden.ts:97-99 | about `Enrichment.MinMatched`: the minimum stays `Infinity` exactly when no listing has a row; otherwise it is the price of some matched listing and no matched price is below it; unmatched listings play no part |
| Enrichment.EnrichTrackingMin | postprocess-magiceden.ts:69-110 | against `Enrichment.EnrichAll` and `Enrichment.MinMatched`: the `.map` with its `minPrice` side effect yields one record per listing (the filter drops nothing) and leaves `minPrice` at the minimum over matched listings |
| Sorting.SortBy | postprocess-magiceden.ts:134-139 | sorting in place keeps the same records (a permutation), in ascending key order whenever every key is a number |
| Sorting.KeyedPermutation | postprocess-magiceden.ts:134 | reordering the records does not change whether every key is a number |
| Sorting.MatchedIdKey | postprocess-magiceden.ts:101-111 | about `Sorting.IdKey`: a matched record's id is the string `row[0]`; when it spells `k` in decimal, the id sort compares it as `k` |
| Sorting.UnmatchedIdKey | postprocess-magiceden.ts:82-111 | about `Sorting.IdKey`: an unmatched listing titled `<name>#<n>` sorts by id `n` |
| Sorting.UnmatchedRankSum | postprocess-magiceden.ts:134-138 | about `Sorting.RankSumKey`: an unmatched record (line 82) has no `rank` and no `moonRank`, so its rank sum is NaN |
| Sorting.MatchedRankSum | postprocess-magiceden.ts:134-138 | about `Sorting.RankSumKey`: a matched record whose `rank` column spells `a` and whose moonrank spells `b` has rank sum `a + b` |
| Sorting.RankSumOfDecimals | postprocess-magiceden.ts:135-136 | about `Sorting.RankSumKey`: a record whose `rank` and `moonRank` spell `a` and `b` in decimal has rank sum `a + b` |
| Scoring.ScoreAll | postprocess-magiceden.ts:118-128 | `dataWithScore` has one record per record of the id-sorted list |
| Scoring.WithScoreFields | postprocess-magiceden.ts:118-128 | about `Scoring.WithScore`: a scored record keeps every field with its value, gains `moonRank` and `rank` (`undefined` when absent) and `score`, and nothing else |
| Scoring.ScoreAboveMoonrank | postprocess-magiceden.ts:125 | about `Scoring.ScoreOf` over `Enrichment.MinMatched`: for every record with a `moonRank` the minimum is finite and at most its price, so `price - minPrice >= 0` and a numeric score is at least the moonrank |
| Picks.BandOfPrice | postprocess-magiceden.ts:143-152 | (also the band of a record, `Picks.Band`) a price has a band exactly when it is at most 2; band `b` has closed upper bound `Upper[b]` and lies above the previous band's bound, so a boundary price goes to the lower band |
| Picks.Bucketise | postprocess-magiceden.ts:141-161 | against `Picks.Bands`: the bucket reduce yields four lists; list `b` holds the records of band `b` in the order of the sorted list |
| Picks.InBandMembers | postprocess-magiceden.ts:141-161 | about `Picks.InBand`: every record of band `b` comes from the sorted list, has band `b` and is priced at most 2, so no record is in two bands |
| Picks.InBandCounts | postprocess-magiceden.ts:141-161 | about `Picks.InBand`: band `b` holds every occurrence of a band-`b` record and nothing else, so the bands are disjoint and together hold exactly the records priced at most 2 |
| Picks.InBandAscending | postprocess-magiceden.ts:141-161 | about `Picks.InBand`: a band keeps the order of the list: if the list ascends by a key, so does each band |
| Picks.TopPicksBound | postprocess-magiceden.ts:163-166 | about `Picks.TopPicks` and `Picks.Head3`: the picks have at most three records per bucket, each among its bucket's first three |
| Picks.FourBucketPicks | postprocess-magiceden.ts:163-166 | about `Picks.TopPicks`: with four buckets the picks are the first three of bucket 0, then of 1, 2 and 3 |
| Picks.PicksOfSorted | postprocess-magiceden.ts:141-166 | about `Picks.TopPicks` of `Picks.Bands`: the picks number at most 12; each is a record of the sorted list, priced at most 2, and among the first three of its band |
| MagicEdenPass.MagicEdenURLs | postprocess-magiceden.ts:74-76 | every MagicEden record has `rarityURL` = rarity prefix + identifier and `meURL` = `https://magiceden.io/item-details/` + mint address |
| MagicEdenPass.Run | postprocess-magiceden.ts:69-166 | data has one record per listing, a permutation of the enriched records, ascending by id when every id is numeric; the score uses the matched minimum, which bounds every matched price; the rank-sorted list is a permutation, ascending by rank sum when every sum is numeric; the picks are the bands' first threes, at most 12, each in the list and priced at most 2 |
| SolanartPass.SolanartURLs | postprocess-solanart.ts:78-80 | every Solanart record has `rarityURL` = rarity prefix + identifier from `name` and `solanartURL` = `https://solanart.io/search/?token=` + token address |
| SolanartPass.Run | postprocess-solanart.ts:76-154 | data has one record per listing, a permutation of the enriched records, ascending by id when every id is numeric; the rank-sorted list is a permutation, ascending by rank sum when every sum is numeric; the picks are the bands' first threes, at most 12, each in the list and priced at most 2 |

## Left out

- Reading the export, the moonrank file and the rarity store, writing the two CSV files, deleting the MagicEden input, and the `console.log` lines. These are I/O through external libraries. The model takes the listings, the store and the moonrank file as values.
- The SQLite store is a map from identifier text to one row of strings. SQLite's type affinity (an integer `id` column matching `"012"`) and numeric column values are not modelled.
- CSV header inference from record shape is library behaviour and is not modelled.
- Text.ParseInt: models JavaScript `parseInt` only on a non-empty run of digits. The lenient prefix parsing (`"12abc"` is 12), whitespace and signs are not modelled.
- Values.ToNumber: a non-empty string id is coerced with the same digits-only parser, so leading or trailing whitespace, signs, decimals and exponents give NaN here although `Number` accepts them; the empty string is 0. `-Infinity` is treated as NaN; no id can be `-Infinity`.
- Values.ParseIntOf: for a non-zero number it keeps the integer part. The exponent spellings `String(x)` uses for very large or very small numbers are not modelled. The pass only applies it to strings and `undefined`.
- Sorting.SortBy: the engine's sort algorithm is not visible. The model is an insertion sort that moves a record only when the comparator is a positive number. The order of records with a NaN key (unmatched records in the rank sort, unparsable ids) is implementation-defined, so ascending order is promised only when every key is a number. Stability is not stated.
- Prices are Dafny reals. IEEE-754 rounding is not modelled.
- The TypeScript field `faceAccessorry` exists only in the type declarations. At run time the record uses the header's `faceAccessory`, which is what the model holds.

# Nominatim ICU name analyzer, modelled in Dafny

Nominatim's ICU tokenizer hands every place it imports to a
`LegacyICUNameAnalyzer`. The analyzer turns the place's sanitized names and
address parts into a token-info record (`_TokenInfo`): arrays of word ids
written as `{1,2,3}`, the housenumbers joined by `;`, and a dictionary of
address terms. On the way it creates the tokens it needs in the `word` table,
remembering answers in a per-analyzer `_TokenCache`. The analyzer also brings
the special phrases of the table in line with a new list, and registers the
names of countries. `ICUTokenAnalysis` builds the transliterators and the
analyzer map the name analyzer works with.

The project models these parts. Python's own operations are written out in
Dafny: `strip`, `upper`, `split`, `re.split('[;,]')`, `join`, `str()` of an
id, and the set and dictionary operations.

| file | module | what it holds |
|---|---|---|
| `base.dfy` | `Base` | `Option`/`Result`/`Error`, sequence-to-set and map lookups with their lemmas, set enumeration |
| `text.dfy` | `Text` | Python string operations and decimal numerals |
| `icu_token_analysis.dfy` | `IcuTokenAnalysis` | rule assembly, the analyzer map, `get_analyzer` |
| `word_table.dfy` | `WordTable` | the `word` table as a value, its get-or-create functions, the `WordStore` class, the database connection with a round-trip counter |
| `token_cache.dfy` | `TokenCache` | the `_TokenCache` class, its coherence with the table, `get_hnr_tokens` |
| `token_info.dfy` | `TokenInfo` | `_mk_array` and its inverse, the `_TokenInfo` class |
| `analyzer_helpers.dfy` | `AnalyzerHelpers` | postcode normalization, housenumber splitting, address bucketing, name keys, the cached partial-word lookup, special-phrase keys |
| `name_analyzer.dfy` | `NameAnalyzer` | the `NameAnalyzer` class (`LegacyICUNameAnalyzer`) |

Each operation that changes state appears twice:

- a method on the class, with the source's loops, proved to agree with a function of the session state;
- that function. The session state is the value `Session(caches, table, queries)`, where `queries` counts database round trips.

The properties are lemmas about those functions. The class invariant
`NameAnalyzer.Valid()` holds before and after every method. It says that
ids are drawn from one positive sequence, and that every cached answer
agrees with the table. The one exception is a cached list of street ids,
which may miss rows added after it was read.

The ICU transliterators are foreign code. A transliterator is represented by
its id and rule text. What it does to a string, and what an analyzer's
`get_variants_ascii` returns, are arrow functions passed to the
`NameAnalyzer` constructor (`Icu`). Their results are `strip()`-ed exactly
where the source strips them. The server-side functions
`getorcreate_partial_word`, `getorcreate_hnr_id` and `getorcreate_full_word`
are modelled as get-or-create on the in-memory table.

Behaviour of the code worth noting:

- `_add_postcode` does nothing for a postcode containing `:`, `,` or `;` (`icu_tokenizer.py:529`).
- When a postcode's search term is empty, `_add_postcode` returns before it caches the postcode (`icu_tokenizer.py:534-535`). A later call with the same postcode therefore transliterates it again.
- `_compute_name_tokens` indexes `analysis[analyzer_id]` directly (`icu_tokenizer.py:509`), without the fallback of `get_analyzer`. An analyzer id that is not configured raises a `KeyError`, which ends `process_place`. The model returns it as `Err(KeyError(id))`.
- `get_analyzer` falls back on `analysis.get(name) or analysis[None]`. Taking analyzer objects to be truthy, the fallback happens exactly when `name` is not a key.

Behaviour of the code that the lemmas bring out:

- The `len(simple_list) > 1` else-branch of `_split_housenumbers` is never taken. Once the test at line 550 holds, there are always at least two pieces (`AnalyzerHelpers.SplitGivesSeveralPieces`).
- A special phrase whose operator is not `'in'`, `'near'` or `'-'` is stored with a null operator. It then reads back with `'-'`, so it never matches itself: every update adds it again (`PhraseUpdateOddOperator`).
- An `'S'` row whose stored operator is the empty string reads back as `'-'`. The `DELETE` does not match it, so it cannot be removed (`AnalyzerHelpers.RowsWithoutKeys`). Idempotence of the update is therefore proved for tables without such rows.
- Full-name keys are `norm` or `norm@analyzer`. A normalized name that itself contains `@` can collide with a name that has an analyzer (`AnalyzerHelpers.NameKeyCollision`). Without `@` in names, keys are injective (`AnalyzerHelpers.NameKeyInjective`), and a second `_compute_name_tokens` over the same names makes no round trip and returns the same ids (`NameTokensTwice`).

## Model

| member | source | states |
|---|---|---|
| AnalyzerHelpers.NormalizePostcode | nominatim/tokenizer/icu_tokenizer.py:235-241 | definition: `strip().upper()`; its properties are `NormalizePostcodeShape` and `NormalizePostcodeIdempotent` |
| AnalyzerHelpers.NameKey | nominatim/tokenizer/icu_tokenizer.py:502-505 | definition: the normalized name, with `@analyzer` appended when there is one; its properties are `NameKeyAt`, `NameKeyInjective` and `NameKeyCollision` |
| AnalyzerHelpers.PartialLookup | nominatim/tokenizer/icu_tokenizer.py:450-469 | definition: the cached get-or-create of partial words on values; its properties are the four `PartialLookup` lemmas |
| AnalyzerHelpers.NormalizePostcodeShape | nominatim/tokenizer/icu_tokenizer.py:235-241 | the normalized postcode has no outer whitespace, no lower-case letter, and is no longer than the input |
| AnalyzerHelpers.NormalizePostcodeIdempotent | nominatim/tokenizer/icu_tokenizer.py:235-241 | normalizing a postcode twice gives the same result as normalizing it once |
| AnalyzerHelpers.StripKeepsAvoids | nominatim/tokenizer/icu_tokenizer.py:529-530 | stripping adds no character, so a string free of separators stays free of them |
| AnalyzerHelpers.NormalizePostcodeKeepsSeparatorFree | nominatim/tokenizer/icu_tokenizer.py:529-530 | a postcode that passes the `[:,;]` test still passes it once normalized |
| AnalyzerHelpers.StripAll | nominatim/tokenizer/icu_tokenizer.py:554 | definition: `strip()` of every piece; its properties are `HnrPiecesClean` and `SplitGivesSeveralPieces` |
| AnalyzerHelpers.HnrPiecesLength | nominatim/tokenizer/icu_tokenizer.py:553-554 | splitting gives at least one piece per housenumber |
| AnalyzerHelpers.SplitGivesSeveralPieces | nominatim/tokenizer/icu_tokenizer.py:550-559 | when the split test holds there are at least two pieces, so the else-branch is dead |
| AnalyzerHelpers.HnrPiecesClean | nominatim/tokenizer/icu_tokenizer.py:553-554 | every piece is stripped and contains neither `;` nor `,` |
| AnalyzerHelpers.SplitHousenumbers | nominatim/tokenizer/icu_tokenizer.py:549-561 | an unsplit input is returned unchanged; otherwise the result holds every stripped piece exactly once |
| AnalyzerHelpers.BucketOf | nominatim/tokenizer/icu_tokenizer.py:419-431 | each address part goes to exactly one bucket, with each bucket's condition stated as an if-and-only-if |
| AnalyzerHelpers.HousenumberNames | nominatim/tokenizer/icu_tokenizer.py:422-423 | the housenumber list is empty exactly when no part is a housenumber kind |
| AnalyzerHelpers.NameKeyAt | nominatim/tokenizer/icu_tokenizer.py:502-505 | the key contains `@` exactly when an analyzer is given, and then the `@` follows the normalized name |
| AnalyzerHelpers.NameKeyInjective | nominatim/tokenizer/icu_tokenizer.py:502-505 | for names without `@`, equal keys mean equal name and analyzer |
| AnalyzerHelpers.NameKeyCollision | nominatim/tokenizer/icu_tokenizer.py:502-505 | for every `n` and `a`, `n@a` without an analyzer and `n` with analyzer `a` get the same key |
| AnalyzerHelpers.SplitTruthy | nominatim/tokenizer/icu_tokenizer.py:452-457 | the first loop returns the cached ids of the hits in order, and the misses in order |
| AnalyzerHelpers.LookupPartials | nominatim/tokenizer/icu_tokenizer.py:450-469 | the method's cache, table, round trips and tokens are those of the partial lookup function |
| AnalyzerHelpers.PartialLookupCoherent | nominatim/tokenizer/icu_tokenizer.py:459-467 | the lookup keeps the table consistent and the caches coherent, and the table only grows |
| AnalyzerHelpers.PartialLookupCache | nominatim/tokenizer/icu_tokenizer.py:453-467 | every word is cached afterwards; no entry is removed; a round trip happens exactly when some word missed |
| AnalyzerHelpers.PartialLookupOrder | nominatim/tokenizer/icu_tokenizer.py:453-467 | the tokens are the table ids of the hits in order, followed by those of the misses |
| AnalyzerHelpers.PartialLookupTokens | nominatim/tokenizer/icu_tokenizer.py:450-469 | the tokens are, as a multiset, the table ids of the words, one per word |
| AnalyzerHelpers.NewPhraseRowKey | nominatim/tokenizer/icu_tokenizer.py:322-324 | a new row reads back as the phrase with any operator other than in or near turned into `-`; it reads back as the phrase itself exactly when the operator is in, near or `-` |
| AnalyzerHelpers.RowsWithoutKeys | nominatim/tokenizer/icu_tokenizer.py:341-346 | after the DELETE, the rows left are those whose key is not deleted, plus those stored with an empty operator |
| AnalyzerHelpers.ExistingRowsWithout | nominatim/tokenizer/icu_tokenizer.py:338-346 | without empty stored operators, the DELETE removes exactly the given phrases from the read-back set |
| AnalyzerHelpers.StoredKnown | nominatim/tokenizer/icu_tokenizer.py:322-324 | phrases with operators in, near or `-` are stored as themselves |
| AnalyzerHelpers.ReplaceSets | nominatim/tokenizer/icu_tokenizer.py:315-338 | adding the missing phrases and deleting the unwanted old ones leaves the wanted old ones plus the added ones |
| AnalyzerHelpers.ReplaceRows | nominatim/tokenizer/icu_tokenizer.py:301-304 | appending the new rows and then the DELETE leaves the phrase set (existing ∩ wanted) ∪ added |
| AnalyzerHelpers.CollectExisting | nominatim/tokenizer/icu_tokenizer.py:295-299 | the loop over the 'S' rows yields exactly their read-back phrase set |
| AnalyzerHelpers.ExistingPhrasesOps | nominatim/tokenizer/icu_tokenizer.py:298-299 | a read-back phrase never has an empty operator (`or '-'`) |
| IcuTokenAnalysis.Create | nominatim/tokenizer/icu_token_analysis.py:19-29 | the analysis map has exactly the keys of the analysis rules; each analyzer is built from its own rules, with the shared normalizer and to-ASCII transliterators |
| IcuTokenAnalysis.CreateRules | nominatim/tokenizer/icu_token_analysis.py:22-26 | the to-ASCII rules are the transliteration rules plus the space rule; the search rules are the normalization rules followed by the to-ASCII rules |
| IcuTokenAnalysis.GetAnalyzer | nominatim/tokenizer/icu_token_analysis.py:32-36 | returns the analyzer of a configured name, the default otherwise, and a `KeyError(None)` exactly when neither exists |
| IcuTokenAnalysis.AnalyzerAt | nominatim/tokenizer/icu_tokenizer.py:509 | direct indexing succeeds exactly for configured keys, and otherwise fails with `KeyError` of that key |
| IcuTokenAnalysis.GetAnalyzerVersusIndex | nominatim/tokenizer/icu_token_analysis.py:32-36 | with a default configured, `get_analyzer` never fails, agrees with indexing where indexing succeeds, and gives the default where it fails |
| IcuTokenAnalysis.CreateThenGet | nominatim/tokenizer/icu_token_analysis.py:28-36 | every analyzer that is created is returned by `get_analyzer` under its own key |
| TokenCache.HnrLookup | nominatim/tokenizer/icu_tokenizer.py:629-652 | definition: the cached get-or-create of housenumber ids on values; its properties are the four `HnrLookup` lemmas |
| TokenCache.CoherenceGrows | nominatim/tokenizer/icu_tokenizer.py:615-626 | the caches stay coherent as the table grows |
| TokenCache.PostcodeCoherent | nominatim/tokenizer/icu_tokenizer.py:539-545 | caching a postcode right after inserting it keeps the caches coherent |
| TokenCache.NameCoherent | nominatim/tokenizer/icu_tokenizer.py:513-518 | caching the ids `getorcreate_full_word` returned keeps the caches coherent |
| TokenCache.CountryCoherent | nominatim/tokenizer/icu_tokenizer.py:380-384 | inserting country rows keeps the table consistent and the caches coherent |
| TokenCache.HnrLookupCoherent | nominatim/tokenizer/icu_tokenizer.py:629-652 | `get_hnr_tokens` keeps the caches coherent and changes only the housenumber rows |
| TokenCache.HnrLookupCache | nominatim/tokenizer/icu_tokenizer.py:637-650 | every term is cached afterwards; no entry is removed; a round trip happens exactly when some term missed |
| TokenCache.HnrLookupOrder | nominatim/tokenizer/icu_tokenizer.py:637-650 | the tokens are the table ids of the cached terms in order, followed by those of the others |
| TokenCache.HnrLookupTokens | nominatim/tokenizer/icu_tokenizer.py:629-652 | one token per term: as a multiset, the table ids of the terms |
| TokenCache.TokenCache.constructor | nominatim/tokenizer/icu_tokenizer.py:621-626 | all five caches start empty |
| TokenCache.TokenCache.GetHnrTokens | nominatim/tokenizer/icu_tokenizer.py:629-652 | the method's housenumber cache, table, round trips and tokens are those of the lookup function, and the other caches are unchanged |
| TokenCache.SplitCached | nominatim/tokenizer/icu_tokenizer.py:637-642 | the first loop yields the cached ids of the hits in order, and the misses in order |
| TokenCache.Remember | nominatim/tokenizer/icu_tokenizer.py:644-650 | the second loop caches each miss with its returned id and appends the ids |
| TokenInfo.MkArray | nominatim/tokenizer/icu_tokenizer.py:573-575 | definition: the ids in decimal, joined by `,` inside braces; inverted by `MkArrayRoundTrip`, and injective by `MkArrayInjective` |
| TokenInfo.ParseNumeralsIdStrings | nominatim/tokenizer/icu_tokenizer.py:575 | the decimal renderings of the ids read back as the ids |
| TokenInfo.MkArrayRoundTrip | nominatim/tokenizer/icu_tokenizer.py:573-575 | `_mk_array` output parses back to exactly the ids, in order; this includes the empty list `{}` |
| TokenInfo.MkArrayInjective | nominatim/tokenizer/icu_tokenizer.py:573-575 | different id lists are written as different strings |
| TokenInfo.HnrFieldRoundTrip | nominatim/tokenizer/icu_tokenizer.py:589 | the 'hnr' field splits back at `;` into the housenumbers, when none of them contains `;` |
| TokenInfo.AddrDictKeys | nominatim/tokenizer/icu_tokenizer.py:608-609 | the 'addr' dictionary has exactly the kinds with some non-empty partial list as keys |
| TokenInfo.AddrDictValues | nominatim/tokenizer/icu_tokenizer.py:608-609 | each kind maps to the array of its last entry with a non-empty partial list |
| TokenInfo.TokenInfo.constructor | nominatim/tokenizer/icu_tokenizer.py:569-571 | starts with the given cache and empty data |
| TokenInfo.TokenInfo.AddNames | nominatim/tokenizer/icu_tokenizer.py:578-581 | 'names' is the array of all full ids, then all partial ids, each set enumerated without repetition |
| TokenInfo.TokenInfo.AddHousenumbers | nominatim/tokenizer/icu_tokenizer.py:584-589 | 'hnr_tokens' is the array of the looked-up ids and 'hnr' is the `;`-join; only the housenumber cache and the table change |
| TokenInfo.TokenInfo.AddStreet | nominatim/tokenizer/icu_tokenizer.py:592-595 | 'street' becomes the array of the tokens |
| TokenInfo.TokenInfo.AddPlace | nominatim/tokenizer/icu_tokenizer.py:598-602 | 'place' is set exactly when the token list is non-empty |
| TokenInfo.TokenInfo.AddAddressTerms | nominatim/tokenizer/icu_tokenizer.py:605-612 | 'addr' is set exactly when some kind has partials |
| WordTable.PartialWords | nominatim/tokenizer/icu_tokenizer.py:461-466 | every word gets a 'w' row and its id; existing rows are kept; only 'w' rows and the id sequence change |
| WordTable.HnrIds | nominatim/tokenizer/icu_tokenizer.py:646-650 | every housenumber gets an 'H' row and its id; existing rows are kept |
| WordTable.AddFullRows | nominatim/tokenizer/icu_tokenizer.py:514-516 | each variant gets a 'W' row with the id, and no row is lost |
| WordTable.VariantWordsShape | nominatim/tokenizer/icu_tokenizer.py:514-516 | the partial words of the variants are non-empty and contain no whitespace |
| WordTable.FullWord | nominatim/tokenizer/icu_tokenizer.py:513-516 | a known key keeps its id; a new key gets a 'W' row per variant; it returns the partial ids of the variants' words |
| WordTable.InsertPostcode | nominatim/tokenizer/icu_tokenizer.py:539-544 | a 'P' row is added only if none exists for the postcode |
| WordTable.InsertCountryTokens | nominatim/tokenizer/icu_tokenizer.py:380-384 | the country gains the tokens; no other country changes |
| WordTable.OpOrPlaceholder | nominatim/tokenizer/icu_tokenizer.py:299 | a read-back operator is never empty |
| WordTable.RowsWithout | nominatim/tokenizer/icu_tokenizer.py:341-346 | the rows left are exactly those that match no deleted phrase |
| WordTable.WordStore.constructor | nominatim/tokenizer/icu_tokenizer.py:171-173 | the connection starts on a consistent table with no round trips |
| WordTable.WordStore.GetOrCreatePartials | nominatim/tokenizer/icu_tokenizer.py:461-466 | one round trip, with the result of `PartialWords` |
| WordTable.WordStore.GetOrCreateHnrs | nominatim/tokenizer/icu_tokenizer.py:645-648 | one round trip, with the result of `HnrIds` |
| WordTable.WordStore.GetOrCreateFull | nominatim/tokenizer/icu_tokenizer.py:513-516 | one round trip, with the result of `FullWord` |
| WordTable.WordStore.LookupFull | nominatim/tokenizer/icu_tokenizer.py:482-485 | one round trip; returns the ids of the 'W' rows of the token and changes no row |
| WordTable.WordStore.AddPostcode | nominatim/tokenizer/icu_tokenizer.py:537-544 | one round trip, with the result of `InsertPostcode` |
| WordTable.WordStore.ReadCountryTokens | nominatim/tokenizer/icu_tokenizer.py:374-377 | one round trip; returns the country's 'C' tokens |
| WordTable.WordStore.AddCountryTokens | nominatim/tokenizer/icu_tokenizer.py:380-384 | one round trip, with the result of `InsertCountryTokens` |
| WordTable.WordStore.ReadPhrases | nominatim/tokenizer/icu_tokenizer.py:296-297 | one round trip; returns the 'S' rows |
| WordTable.WordStore.AppendPhrases | nominatim/tokenizer/icu_tokenizer.py:318-328 | one round trip; the rows are appended |
| WordTable.WordStore.DeletePhrases | nominatim/tokenizer/icu_tokenizer.py:340-346 | one round trip; the matching rows are removed |
| Text.StripShape | nominatim/tokenizer/icu_tokenizer.py:241 | `strip()` gives a middle part of the input with no outer whitespace and drops only whitespace |
| Text.StripIdempotent | nominatim/tokenizer/icu_tokenizer.py:241 | stripping twice is stripping once |
| Text.UpperAt | nominatim/tokenizer/icu_tokenizer.py:241 | `upper()` maps each character in place |
| Text.UpperIdempotent | nominatim/tokenizer/icu_tokenizer.py:241 | upper-casing twice is upper-casing once |
| Text.UpperKeepsStripped | nominatim/tokenizer/icu_tokenizer.py:241 | upper-casing keeps a stripped string stripped |
| Text.SplitWhereAvoids | nominatim/tokenizer/icu_tokenizer.py:554 | no piece of `re.split` contains a separator |
| Text.SplitSingle | nominatim/tokenizer/icu_tokenizer.py:554 | a string splits into one piece exactly when it has no separator, and that piece is the string |
| Text.SplitJoin | nominatim/tokenizer/icu_tokenizer.py:575 | joining separator-free pieces with a separator and splitting again gives the pieces back |
| Text.WordsShape | nominatim/tokenizer/icu_tokenizer.py:452 | every word of `split()` is non-empty and contains no whitespace |
| Text.WordsEmpty | nominatim/tokenizer/icu_tokenizer.py:452 | `split()` is empty exactly when the string is all whitespace |
| Text.NoWordsWhenEmpty | nominatim/tokenizer/icu_tokenizer.py:448-452 | a stripped name has no words exactly when it is empty |
| Text.NatToString | nominatim/tokenizer/icu_tokenizer.py:575 | `str(id)` is a non-empty string of digits |
| Text.ParseNatToString | nominatim/tokenizer/icu_tokenizer.py:575 | the decimal rendering of an id reads back as the id |
| NameAnalyzer.NameAnalyzer.constructor | nominatim/tokenizer/icu_tokenizer.py:171-177 | the analyzer starts with empty caches and the invariant holds |
| NameAnalyzer.NameAnalyzer.SearchNormalized | nominatim/tokenizer/icu_tokenizer.py:188-192 | definition: the search transliteration, stripped; the transliteration itself is uninterpreted |
| NameAnalyzer.NameAnalyzer.Normalized | nominatim/tokenizer/icu_tokenizer.py:194-198 | definition: the normalization transliteration, stripped |
| NameAnalyzer.NameAnalyzer.PartialStep | nominatim/tokenizer/icu_tokenizer.py:444-469 | definition: `_compute_partial_tokens` on the session; properties in `PartialStepProperties`, agreement in `ComputePartialTokens` |
| NameAnalyzer.NameAnalyzer.FullStep | nominatim/tokenizer/icu_tokenizer.py:472-489 | definition: `_retrieve_full_tokens` on the session; properties in `FullStepProperties`, agreement in `RetrieveFullTokens` |
| NameAnalyzer.NameAnalyzer.PostcodeStep | nominatim/tokenizer/icu_tokenizer.py:526-545 | definition: `_add_postcode` on the session; properties in the four `PostcodeStep` lemmas, agreement in `AddPostcode` |
| NameAnalyzer.NameAnalyzer.NameStep | nominatim/tokenizer/icu_tokenizer.py:499-521 | definition: one name of the loop of `_compute_name_tokens`; properties in `NameStepCoherent`, `NameStepAdds` and `NameStepCached` |
| NameAnalyzer.NameAnalyzer.NewName | nominatim/tokenizer/icu_tokenizer.py:513-518 | definition: the `getorcreate_full_word` branch; properties in `NewNameCoherent` |
| NameAnalyzer.NameAnalyzer.NameTokens | nominatim/tokenizer/icu_tokenizer.py:492-523 | definition: `_compute_name_tokens` on the session; properties in the `NameTokens` lemmas, agreement in `ComputeNameTokens` |
| NameAnalyzer.NameAnalyzer.AddressItem | nominatim/tokenizer/icu_tokenizer.py:419-431 | definition: one address part; properties in `AddressItemCoherent` and `AddressItemStreets` |
| NameAnalyzer.NameAnalyzer.HnrStep | nominatim/tokenizer/icu_tokenizer.py:584-589 | definition: `add_housenumbers` on the session; properties in `HnrStepTokens` |
| NameAnalyzer.NameAnalyzer.HnrPart | nominatim/tokenizer/icu_tokenizer.py:433-435 | definition: the `if hnrs` part of `_process_place_address`; properties in `HnrPartKeys` |
| NameAnalyzer.NameAnalyzer.TermsAndStreets | nominatim/tokenizer/icu_tokenizer.py:437-441 | definition: `add_address_terms` and `add_street`; properties in `TermsAndStreetsKeys` |
| NameAnalyzer.NameAnalyzer.AddressStep | nominatim/tokenizer/icu_tokenizer.py:415-441 | definition: `_process_place_address` on the session; properties in the `AddressStep` lemmas, agreement in `ProcessPlaceAddress` |
| NameAnalyzer.NameAnalyzer.CountryStep | nominatim/tokenizer/icu_tokenizer.py:362-384 | definition: `_add_country_full_names` on the session; properties in `CountryStepProperties` and `CountryStepTwice` |
| NameAnalyzer.NameAnalyzer.PhraseRows | nominatim/tokenizer/icu_tokenizer.py:319-325 | definition: the rows written by `_add_special_phrases`; properties in `PhraseRowsCount`, `PhraseRowsKeys` and `PhraseRowsNone` |
| NameAnalyzer.NameAnalyzer.PhraseUpdate | nominatim/tokenizer/icu_tokenizer.py:284-309 | definition: `update_special_phrases` on the table; properties in the `PhraseUpdate` lemmas, agreement in `UpdateSpecialPhrases` |
| NameAnalyzer.NameAnalyzer.PlaceNamesStep | nominatim/tokenizer/icu_tokenizer.py:397-407 | definition: the names part of `process_place`; properties in `PlaceNamesStepCoherent` |
| NameAnalyzer.NameAnalyzer.PlaceStep | nominatim/tokenizer/icu_tokenizer.py:391-412 | definition: `process_place` on the session; properties in the `PlaceStep` lemmas, agreement in `ProcessPlace` |
| NameAnalyzer.NameAnalyzer.PartialStepProperties | nominatim/tokenizer/icu_tokenizer.py:444-469 | coherence is kept; only 'w' rows change; every word is in the table; one token per word; no round trip exactly when all words are cached; at most one round trip |
| NameAnalyzer.NameAnalyzer.ComputePartialTokens | nominatim/tokenizer/icu_tokenizer.py:444-469 | the method's new state and tokens are those of `PartialStep` |
| NameAnalyzer.NameAnalyzer.FullStepProperties | nominatim/tokenizer/icu_tokenizer.py:472-489 | no row changes; the name is cached afterwards, even with an empty list; a cache hit costs nothing; a miss costs one round trip and returns exactly the table's 'W' ids |
| NameAnalyzer.NameAnalyzer.RetrieveFullTokens | nominatim/tokenizer/icu_tokenizer.py:472-489 | the method's new state and result are those of `FullStep` |
| NameAnalyzer.NameAnalyzer.PostcodeStepCoherent | nominatim/tokenizer/icu_tokenizer.py:526-545 | coherence is kept; only 'P' rows and the postcode cache change |
| NameAnalyzer.NameAnalyzer.PostcodeStepSkips | nominatim/tokenizer/icu_tokenizer.py:529-535 | nothing changes for a postcode with `:`, `,` or `;`, for a cached one, or for one with an empty search term; any change costs one round trip |
| NameAnalyzer.NameAnalyzer.PostcodeStepAdds | nominatim/tokenizer/icu_tokenizer.py:529-545 | a separator-free postcode with a search term is cached and has a 'P' row afterwards; no other 'P' row is added or changed |
| NameAnalyzer.NameAnalyzer.PostcodeStepTwice | nominatim/tokenizer/icu_tokenizer.py:526-545 | adding a postcode twice has the effect of adding it once |
| NameAnalyzer.NameAnalyzer.AddPostcode | nominatim/tokenizer/icu_tokenizer.py:526-545 | the method's new state is that of `PostcodeStep` |
| NameAnalyzer.NameAnalyzer.NameStepCoherent | nominatim/tokenizer/icu_tokenizer.py:499-521 | one name keeps coherence; only full and partial rows and the name cache change; no cache entry is lost; without an error, a cached name or one whose analyzer gives variants has its key cached afterwards; at most one round trip, and with none nothing changes |
| NameAnalyzer.NameAnalyzer.NewNameCoherent | nominatim/tokenizer/icu_tokenizer.py:513-518 | the `getorcreate_full_word` branch keeps coherence, caches the key with the returned `(full, part)`, and costs exactly one round trip |
| NameAnalyzer.NameAnalyzer.NameTokensCoherent | nominatim/tokenizer/icu_tokenizer.py:492-523 | coherence is kept over all names; no cache entry is lost; without an error, every counted name's key is cached afterwards; at most one round trip per name |
| NameAnalyzer.NameAnalyzer.NameTokensFrame | nominatim/tokenizer/icu_tokenizer.py:492-523 | over all names only full and partial rows and the name cache change, and coherence is kept |
| NameAnalyzer.NameAnalyzer.NameTokensCached | nominatim/tokenizer/icu_tokenizer.py:507-518 | without an error, every cached name and every name whose analyzer gives variants has its key in the name cache afterwards |
| NameAnalyzer.NameAnalyzer.NameStepKeepsNames | nominatim/tokenizer/icu_tokenizer.py:507-518 | one name keeps every cached entry and, without an error, caches its key when it was cached or its analyzer gives variants |
| NameAnalyzer.NameAnalyzer.NameTokensCachedStep | nominatim/tokenizer/icu_tokenizer.py:507-518 | the induction step of `NameTokensCached`: if the earlier names' keys are cached, so are all the names' keys after the last one |
| NameAnalyzer.NameAnalyzer.NameTokensNewKeys | nominatim/tokenizer/icu_tokenizer.py:513-518 | every key the name cache gains is the key of a name whose analyzer gave variants |
| NameAnalyzer.NameAnalyzer.NameTokensReplay | nominatim/tokenizer/icu_tokenizer.py:507-520 | a run from a session whose name cache holds the first run's entries, and still lacks the keys it skipped, makes no round trip and gives the same ids and error |
| NameAnalyzer.NameAnalyzer.NameTokensTwice | nominatim/tokenizer/icu_tokenizer.py:492-523 | for names without `@`, a second `_compute_name_tokens` on the resulting session leaves it unchanged and gives the same full ids, partial ids and error |
| NameAnalyzer.NameAnalyzer.NameTokensAbort | nominatim/tokenizer/icu_tokenizer.py:509 | once a `KeyError` is raised, the later names are not processed |
| NameAnalyzer.NameAnalyzer.NameTokensError | nominatim/tokenizer/icu_tokenizer.py:500-509 | with every analyzer configured there is no error; an error is the `KeyError` of a name whose analyzer is not configured |
| NameAnalyzer.NameAnalyzer.NameStepAdds | nominatim/tokenizer/icu_tokenizer.py:507-521 | one name only adds ids: a new full id is the table id of its key, and a new partial id is a table id; a counted name's full id is added |
| NameAnalyzer.NameAnalyzer.NameTokensSound | nominatim/tokenizer/icu_tokenizer.py:492-523 | every full id is the table id of some name's key; every partial id is a 'w' id of the table |
| NameAnalyzer.NameAnalyzer.NameTokensComplete | nominatim/tokenizer/icu_tokenizer.py:507-520 | without an error, every cached name, and every name whose analyzer yields variants, contributes its full id |
| NameAnalyzer.NameAnalyzer.NameTokensCompleteAt | nominatim/tokenizer/icu_tokenizer.py:507-520 | the same, for one given name |
| NameAnalyzer.NameAnalyzer.NameTokensAllCached | nominatim/tokenizer/icu_tokenizer.py:507-520 | when every key is cached, nothing is asked of the store and the full ids are exactly the cached ones |
| NameAnalyzer.NameAnalyzer.NameStepCached | nominatim/tokenizer/icu_tokenizer.py:507-521 | a cached name adds its cached ids and changes nothing else |
| NameAnalyzer.NameAnalyzer.NameTokensAllCachedPartials | nominatim/tokenizer/icu_tokenizer.py:507-521 | when every key is cached, every name's cached partial ids are in the result |
| NameAnalyzer.NameAnalyzer.NameTokensAllCachedPartialsFrom | nominatim/tokenizer/icu_tokenizer.py:507-521 | when every key is cached, every partial id of the result is cached for some name |
| NameAnalyzer.NameAnalyzer.AddNameTokens | nominatim/tokenizer/icu_tokenizer.py:499-521 | one pass of the loop agrees with `NameStep` |
| NameAnalyzer.NameAnalyzer.ComputeNameTokens | nominatim/tokenizer/icu_tokenizer.py:492-523 | the method's new state, its two sets and its error are those of `NameTokens` |
| NameAnalyzer.NameAnalyzer.StandardHnrs | nominatim/tokenizer/icu_tokenizer.py:244-249 | definition: `_make_standard_hnr` of every housenumber; its properties are `HnrStepTokens`, `AddressStepData` and `AddressStepHnrTokens` |
| NameAnalyzer.NameAnalyzer.TermsAndStreetsKeys | nominatim/tokenizer/icu_tokenizer.py:437-441 | 'addr' is set exactly when some term has partials, and 'street' exactly when there are street ids; nothing else changes |
| NameAnalyzer.NameAnalyzer.AddressItemCoherent | nominatim/tokenizer/icu_tokenizer.py:419-431 | one address part keeps coherence and changes only 'w' and 'P' rows and the partial, full and postcode caches, never dropping a cached postcode or street |
| NameAnalyzer.NameAnalyzer.AddressItemsCoherent | nominatim/tokenizer/icu_tokenizer.py:419-431 | the same over all address parts |
| NameAnalyzer.NameAnalyzer.AddressItemsData | nominatim/tokenizer/icu_tokenizer.py:426-428 | the loop sets no key of the token info except 'place', and 'place' only for a place part |
| NameAnalyzer.NameAnalyzer.AddressItemsTerms | nominatim/tokenizer/icu_tokenizer.py:429-431 | the address terms list the kinds of the general parts, in order |
| NameAnalyzer.NameAnalyzer.AddressItemsPostcodes | nominatim/tokenizer/icu_tokenizer.py:420-421 | every separator-free postcode part with a search term is cached and in the table afterwards |
| NameAnalyzer.NameAnalyzer.AddressItemStreets | nominatim/tokenizer/icu_tokenizer.py:424-425 | one part only extends the street ids, each with a 'W' id; a street name is cached afterwards |
| NameAnalyzer.NameAnalyzer.AddressItemsStreets | nominatim/tokenizer/icu_tokenizer.py:424-425 | the street ids are only ever extended, and every new one is the id of a 'W' row |
| NameAnalyzer.NameAnalyzer.AddressItemsStreetsCached | nominatim/tokenizer/icu_tokenizer.py:424-425 | every street name is in the full-name cache afterwards |
| NameAnalyzer.NameAnalyzer.AddressStepCoherent | nominatim/tokenizer/icu_tokenizer.py:415-441 | `_process_place_address` keeps coherence, changes only 'w', 'H' and 'P' rows, and leaves the name cache alone |
| NameAnalyzer.NameAnalyzer.AddressStepData | nominatim/tokenizer/icu_tokenizer.py:415-441 | only address keys change; 'hnr' and 'hnr_tokens' are set exactly when there are housenumbers, with 'hnr' the `;`-join of the standardized split list; 'street' and 'addr' follow the collected lists |
| NameAnalyzer.NameAnalyzer.HnrPartKeys | nominatim/tokenizer/icu_tokenizer.py:433-435 | the housenumber part sets 'hnr' and 'hnr_tokens' exactly when there are housenumbers, and nothing else |
| NameAnalyzer.NameAnalyzer.AddressStepKeys | nominatim/tokenizer/icu_tokenizer.py:415-441 | only address keys are added, and 'names' is kept as it was |
| NameAnalyzer.NameAnalyzer.HnrStepTokens | nominatim/tokenizer/icu_tokenizer.py:584-589 | afterwards every standardized housenumber is in the table, and 'hnr_tokens' parses back to their ids, one each |
| NameAnalyzer.NameAnalyzer.AddressStepHnrTokens | nominatim/tokenizer/icu_tokenizer.py:433-435 | with housenumbers, 'hnr_tokens' parses back to the table ids of the standardized split housenumbers, one each |
| NameAnalyzer.NameAnalyzer.AddressStepAddrKinds | nominatim/tokenizer/icu_tokenizer.py:429-438 | the kinds of 'addr' are kinds of general address parts |
| NameAnalyzer.NameAnalyzer.ProcessAddressItem | nominatim/tokenizer/icu_tokenizer.py:419-431 | one pass of the loop agrees with `AddressItem`; only a housenumber part extends the housenumber list |
| NameAnalyzer.NameAnalyzer.ProcessAddressItems | nominatim/tokenizer/icu_tokenizer.py:416-431 | the loop agrees with `AddressItems`, and the housenumber list is that of the housenumber parts in order |
| NameAnalyzer.NameAnalyzer.ProcessHousenumbers | nominatim/tokenizer/icu_tokenizer.py:435 | the standardized housenumbers are added as `HnrStep` says |
| NameAnalyzer.NameAnalyzer.ProcessHousenumberList | nominatim/tokenizer/icu_tokenizer.py:433-435 | without housenumbers nothing happens; otherwise the list is split as `_split_housenumbers` specifies and then added |
| NameAnalyzer.NameAnalyzer.AddTermsAndStreets | nominatim/tokenizer/icu_tokenizer.py:437-441 | the token info becomes that of `TermsAndStreets` |
| NameAnalyzer.NameAnalyzer.ProcessPlaceAddress | nominatim/tokenizer/icu_tokenizer.py:415-441 | the method's new state and token info are those of `AddressStep`, with the housenumbers split as specified |
| NameAnalyzer.NameAnalyzer.CountryNameTokens | nominatim/tokenizer/icu_tokenizer.py:366-370 | the empty search term is never collected |
| NameAnalyzer.NameAnalyzer.CountryStepProperties | nominatim/tokenizer/icu_tokenizer.py:362-384 | afterwards the country has its old tokens plus all the names' tokens; no other country changes; nothing is deleted; only 'C' rows change |
| NameAnalyzer.NameAnalyzer.CountryStepTwice | nominatim/tokenizer/icu_tokenizer.py:374-384 | afterwards no token is missing, so a second run makes only the SELECT and issues no INSERT |
| NameAnalyzer.NameAnalyzer.CollectCountryTokens | nominatim/tokenizer/icu_tokenizer.py:366-370 | the loop collects exactly the non-empty search terms |
| NameAnalyzer.NameAnalyzer.AddCountryFullNames | nominatim/tokenizer/icu_tokenizer.py:362-384 | the method's new state is that of `CountryStep` |
| NameAnalyzer.NameAnalyzer.PhraseRowsCount | nominatim/tokenizer/icu_tokenizer.py:319-325 | one row per phrase with a non-empty search term, so `added` counts exactly those phrases |
| NameAnalyzer.NameAnalyzer.PhraseRowsKeys | nominatim/tokenizer/icu_tokenizer.py:319-324 | the rows written read back as the stored forms of the phrases with a search term, none with an empty operator |
| NameAnalyzer.NameAnalyzer.PhraseUpdateCounts | nominatim/tokenizer/icu_tokenizer.py:290-309 | `added` is the number of new phrases with search terms; `deleted` is `|existing − new|` when replacing and 0 otherwise; only phrase rows change |
| NameAnalyzer.NameAnalyzer.PhraseUpdateAppends | nominatim/tokenizer/icu_tokenizer.py:301-306 | without replacing, the old rows stay in front, and the phrases are the old ones plus the stored forms of the added ones |
| NameAnalyzer.NameAnalyzer.PhraseUpdateReplaces | nominatim/tokenizer/icu_tokenizer.py:301-304 | when replacing, the phrases afterwards are (existing ∩ new) plus the new phrases with search terms |
| NameAnalyzer.NameAnalyzer.PhraseUpdateTwice | nominatim/tokenizer/icu_tokenizer.py:284-309 | a second update with the same phrases adds nothing, deletes nothing and leaves the table as it is |
| NameAnalyzer.NameAnalyzer.PhraseUpdateSettled | nominatim/tokenizer/icu_tokenizer.py:284-309 | when everything wanted with a search term is present and, when replacing, nothing unwanted is, an update changes nothing |
| NameAnalyzer.NameAnalyzer.PhraseRowsNone | nominatim/tokenizer/icu_tokenizer.py:319-325 | no row is written when no phrase to add has a search term |
| NameAnalyzer.NameAnalyzer.PhraseUpdateOddOperator | nominatim/tokenizer/icu_tokenizer.py:322-324 | a phrase with an operator other than in, near or `-` is still missing after the update |
| NameAnalyzer.NameAnalyzer.CollectPhraseRows | nominatim/tokenizer/icu_tokenizer.py:319-325 | the loop builds the rows of `PhraseRows` and counts them |
| NameAnalyzer.NameAnalyzer.AddSpecialPhrases | nominatim/tokenizer/icu_tokenizer.py:312-330 | the rows of `new − existing` with search terms are appended in one round trip, and their number is returned |
| NameAnalyzer.NameAnalyzer.RemoveSpecialPhrases | nominatim/tokenizer/icu_tokenizer.py:334-348 | returns `|existing − new|`; the DELETE runs only when that set is not empty, and then removes the matching rows |
| NameAnalyzer.NameAnalyzer.UpdateSpecialPhrases | nominatim/tokenizer/icu_tokenizer.py:284-309 | the method's table, round trips and counts are those of `PhraseUpdate` |
| NameAnalyzer.NameAnalyzer.PlaceNamesStepCoherent | nominatim/tokenizer/icu_tokenizer.py:401-407 | the names part keeps coherence and only grows the table |
| NameAnalyzer.NameAnalyzer.PlaceStepCoherent | nominatim/tokenizer/icu_tokenizer.py:391-412 | `process_place` keeps coherence and never removes or renumbers a token |
| NameAnalyzer.NameAnalyzer.PlaceStepError | nominatim/tokenizer/icu_tokenizer.py:401-402 | it fails exactly when the names fail, then with the `KeyError` of a name whose analyzer is not configured; it succeeds when every analyzer is configured |
| NameAnalyzer.NameAnalyzer.PlaceStepData | nominatim/tokenizer/icu_tokenizer.py:397-412 | 'names' is present exactly when the place has names, and it parses back to the ids; otherwise only address keys are set, and none without address parts |
| NameAnalyzer.NameAnalyzer.PlaceStepEmpty | nominatim/tokenizer/icu_tokenizer.py:397-412 | a place without names and without address gets an empty record and changes nothing |
| NameAnalyzer.NameAnalyzer.PlaceStepCountry | nominatim/tokenizer/icu_tokenizer.py:406-407 | after a country with names, the country has a 'C' token for each non-empty search term of its names |
| NameAnalyzer.NameAnalyzer.ProcessPlaceNames | nominatim/tokenizer/icu_tokenizer.py:397-407 | the names part agrees with `PlaceNamesStep`, with the 'names' ids enumerating the computed sets |
| NameAnalyzer.NameAnalyzer.ProcessPlace | nominatim/tokenizer/icu_tokenizer.py:391-412 | the method's new state and result are those of `PlaceStep`; the 'names' ids enumerate the computed sets, and the housenumbers are split as specified |

## Left out

- ICU transliteration and the analyzers' variant generation: foreign library code. They are uninterpreted functions (`Icu`) whose results are stripped where the source strips them.
- Text.UpperChar: only ASCII `a`–`z` are upper-cased. Python's full Unicode case mapping, including mappings that change a string's length such as `ß` → `SS`, is not modelled.
- The SQL functions `getorcreate_partial_word`, `getorcreate_hnr_id` and `getorcreate_full_word` are not part of this repository's code shown here. They are modelled as get-or-create on the in-memory table, with new ids drawn from one increasing sequence.
- `CopyBuffer` and cursors: a copy-out, or a statement with its result rows, is one round trip of the `WordStore`. The order in which the database returns rows is the order of the request.
- The order in which Python iterates a set: `_split_housenumbers`, `add_names` and `_add_special_phrases` iterate sets. The order they use is a ghost output (`split`, `fullOrder`/`partialOrder`, `order`). Every property holds for whatever order is chosen.
- `update_postcodes_from_db` (`icu_tokenizer.py:251-281`): its reconciliation is one SQL full join on tables outside the `word` table.
- `get_word_token_info` (`icu_tokenizer.py:201-231`): a debugging query.
- `__init__` connection set-up and `close` (`icu_tokenizer.py:171-185`): the connection is the `WordStore` handed to the constructor.
- `add_country_names` (`icu_tokenizer.py:351-359`), the sanitizer `process_names`, `PlaceInfo` and `is_country`: external collaborators. Their output is taken as given (`Place`, `PlaceName`).
- IcuTokenAnalysis.GetAnalyzer: assumes every analyzer object is truthy, so that `or` falls back only for a missing key. The analyzers come from the analysis modules' `create` (`icu_token_analysis.py:28`), which are not part of this model.
- The tokenizer class `LegacyICUTokenizer` (set-up, configuration files, statistics SQL) and `LOG.info`: I/O.
- Concurrency: an analyzer and its cache belong to one thread.
- NameAnalyzer.NameAnalyzer.NameTokensSound: together with `NameTokensComplete`, it bounds the full ids from both sides. The full ids lie between the ids of the counted names and the ids of all names' keys. The exact set is not stated as one equation, because the ids of names that were neither cached nor given variants are absent.
- NameAnalyzer.NameAnalyzer.PhraseUpdateReplaces: stated for operators `in`, `near` and `-`, and for tables without a stored empty operator. For other operators the result differs from the intended one, as `PhraseUpdateOddOperator` and `AnalyzerHelpers.RowsWithoutKeys` show.
- NameAnalyzer.NameAnalyzer.PhraseUpdateTwice: stated under the same two conditions, for the same reason.
- NameAnalyzer.NameAnalyzer.NameTokensTwice: stated for names whose normalized form has no `@`. With a key collision, a name whose own analyzer gives no variants can find the other name's entry on the second run, so the second run may return more ids.
- NameAnalyzer.NameAnalyzer.FullStepProperties: a cached street list is only known to be a prefix of the table's current 'W' ids. The source does not refresh the cache when rows are added later.

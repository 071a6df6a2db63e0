/**
 * The parts of `LegacyICUNameAnalyzer` that do not depend on the analyzer's
 * transliterators: the place names it receives, postcode normalization,
 * housenumber splitting, the sorting of address parts, the keys under which
 * full names are registered, the partial-word lookup through the cache, and
 * the keys of special phrases.
 */
module AnalyzerHelpers {
  import opened Base
  import Text
  import opened WordTable
  import opened TokenCache

  /**
   * A `PlaceName` as the sanitizer hands it over: the name, its kind (the
   * part of the OSM tag before the first colon), its suffix and its
   * 'analyzer' attribute.
   */
  datatype PlaceName = PlaceName(name: string, kind: string, suffix: Option<string>, analyzer: Option<string>)

  /** `if item.suffix`: a suffix is present and not empty. */
  predicate HasSuffix(n: PlaceName) {
    n.suffix.Some? && n.suffix.value != ""
  }

  /**
   * A place after sanitizing: its names and address parts, `is_country()`
   * and its country code.
   */
  datatype Place = Place(names: seq<PlaceName>, address: seq<PlaceName>, isCountry: bool, countryCode: string)

  // ---------------------------------------------------------------- postcodes

  /** The characters of `[:,;]`: a postcode containing one is not indexed. */
  predicate IsPostcodeSep(c: char) {
    c == ':' || c == ',' || c == ';'
  }

  /** `normalize_postcode`: `postcode.strip().upper()`. */
  function NormalizePostcode(p: string): string {
    Text.Upper(Text.Strip(p))
  }

  /** A normalized postcode has no surrounding space and no lower-case letter, and is no longer. */
  lemma {:induction false} NormalizePostcodeShape(p: string)
    ensures var r := NormalizePostcode(p);
      && Text.IsStripped(r) && |r| <= |p|
      && forall i :: 0 <= i < |r| ==> !('a' <= r[i] <= 'z')
  {
    Text.StripShape(p);
    Text.UpperKeepsStripped(Text.Strip(p));
    Text.UpperAt(Text.Strip(p));
  }

  /** Normalizing a normalized postcode changes nothing. */
  lemma {:induction false} NormalizePostcodeIdempotent(p: string)
    ensures NormalizePostcode(NormalizePostcode(p)) == NormalizePostcode(p)
  {
    NormalizePostcodeShape(p);
    Text.StripStripped(NormalizePostcode(p));
    Text.UpperIdempotent(Text.Strip(p));
  }

  /** Stripping keeps a middle part of the string, so it adds no character. */
  lemma {:induction false} StripKeepsAvoids(s: string, sep: char -> bool)
    requires Text.Avoids(s, sep)
    ensures Text.Avoids(Text.Strip(s), sep)
  {
    Text.StripSlice(s);
    var r, k := Text.Strip(s), |s| - |Text.StripLeft(s)|;
    forall i | 0 <= i < |r| ensures !sep(r[i]) {
      assert r[i] == s[k + i];
    }
  }

  /** A postcode that passes the separator test still passes it once normalized. */
  lemma {:induction false} NormalizePostcodeKeepsSeparatorFree(p: string)
    requires Text.Avoids(p, IsPostcodeSep)
    ensures Text.Avoids(NormalizePostcode(p), IsPostcodeSep)
  {
    StripKeepsAvoids(p, IsPostcodeSep);
    Text.UpperAt(Text.Strip(p));
  }

  // ------------------------------------------------------------- housenumbers

  /** The characters of `[;,]`, at which housenumber lists are split. */
  predicate IsHnrSep(c: char) {
    c == ';' || c == ','
  }

  /** `[p.strip() for p in ps]`. */
  function StripAll(ps: seq<string>): seq<string> {
    seq(|ps|, i requires 0 <= i < |ps| => Text.Strip(ps[i]))
  }

  /** The stripped pieces of `re.split('[;,]', h)` for every housenumber `h` in turn. */
  function HnrPieces(hnrs: seq<string>): seq<string>
    decreases |hnrs|
  {
    if hnrs == [] then []
    else HnrPieces(hnrs[..|hnrs| - 1]) + StripAll(Text.SplitWhere(hnrs[|hnrs| - 1], IsHnrSep))
  }

  /** The test of `_split_housenumbers`: several housenumbers, or separators in the only one. */
  predicate NeedsSplit(hnrs: seq<string>)
    requires |hnrs| >= 1
  {
    |hnrs| > 1 || !Text.Avoids(hnrs[0], IsHnrSep)
  }

  /**
   * What `_split_housenumbers` returns: the list unchanged when it needs no
   * splitting, and otherwise every stripped piece exactly once, in no
   * particular order.
   */
  ghost predicate IsHnrSplit(hnrs: seq<string>, r: seq<string>)
    requires |hnrs| >= 1
  {
    && (!NeedsSplit(hnrs) ==> r == hnrs)
    && (NeedsSplit(hnrs) ==> NoDups(r) && ToSet(r) == ToSet(HnrPieces(hnrs)))
  }

  /** Every housenumber gives at least one piece. */
  lemma {:induction false} HnrPiecesLength(hnrs: seq<string>)
    ensures |HnrPieces(hnrs)| >= |hnrs|
    decreases |hnrs|
  {
    if hnrs != [] {
      HnrPiecesLength(hnrs[..|hnrs| - 1]);
    }
  }

  /**
   * When splitting is needed there are always at least two pieces, so the
   * branch of `_split_housenumbers` that keeps a list of at most one piece is
   * never taken.
   */
  lemma {:induction false} SplitGivesSeveralPieces(hnrs: seq<string>)
    requires |hnrs| >= 1 && NeedsSplit(hnrs)
    ensures |HnrPieces(hnrs)| >= 2
  {
    if |hnrs| > 1 {
      HnrPiecesLength(hnrs);
    } else {
      Text.SplitSingle(hnrs[0], IsHnrSep);
      assert hnrs[..0] == [];
    }
  }

  /** Every piece is stripped and contains no separator. */
  lemma {:induction false} HnrPiecesClean(hnrs: seq<string>)
    ensures forall p :: p in HnrPieces(hnrs) ==> Text.IsStripped(p) && Text.Avoids(p, IsHnrSep)
    decreases |hnrs|
  {
    if hnrs != [] {
      HnrPiecesClean(hnrs[..|hnrs| - 1]);
      var parts := Text.SplitWhere(hnrs[|hnrs| - 1], IsHnrSep);
      Text.SplitWhereAvoids(hnrs[|hnrs| - 1], IsHnrSep);
      forall i | 0 <= i < |parts| ensures Text.IsStripped(StripAll(parts)[i]) && Text.Avoids(StripAll(parts)[i], IsHnrSep) {
        assert parts[i] in parts;
        Text.StripShape(parts[i]);
        StripKeepsAvoids(parts[i], IsHnrSep);
      }
    }
  }

  /** `_split_housenumbers`. */
  method SplitHousenumbers(hnrs: seq<string>) returns (r: seq<string>)
    requires |hnrs| >= 1
    ensures IsHnrSplit(hnrs, r)
  {
    r := hnrs;
    if |hnrs| > 1 || !Text.Avoids(hnrs[0], IsHnrSep) {
      var simple: seq<string> := [];
      var i := 0;
      while i < |hnrs|
        invariant 0 <= i <= |hnrs|
        invariant simple == HnrPieces(hnrs[..i])
      {
        assert hnrs[..i + 1][..i] == hnrs[..i];
        simple := simple + StripAll(Text.SplitWhere(hnrs[i], IsHnrSep));
        i := i + 1;
      }
      assert hnrs[..i] == hnrs;
      if |simple| > 1 {
        r := Enumerate(ToSet(simple));
      } else {
        r := simple;
      }
    }
  }

  // ---------------------------------------------------------- address parts

  /** Where `_process_place_address` sends an address part. */
  datatype Bucket = PostcodeItem | HousenumberItem | StreetItem | PlaceItem | AddressTerm | Skipped

  predicate IsHousenumberKind(k: string) {
    k == "housenumber" || k == "streetnumber" || k == "conscriptionnumber"
  }

  /** `kind.startswith('_')`. */
  predicate IsInternalKind(k: string) {
    |k| > 0 && k[0] == '_'
  }

  /**
   * The `if`/`elif` chain of `_process_place_address`. A suffix matters only
   * for places and general address terms; postcodes, housenumbers and streets
   * are taken whatever their suffix.
   */
  function BucketOf(item: PlaceName): (b: Bucket)
    ensures b == PostcodeItem <==> item.kind == "postcode"
    ensures b == HousenumberItem <==> IsHousenumberKind(item.kind)
    ensures b == StreetItem <==> item.kind == "street"
    ensures b == PlaceItem <==> item.kind == "place" && !HasSuffix(item)
    ensures b == AddressTerm <==>
              && item.kind !in {"postcode", "street", "place", "country", "full"}
              && !IsHousenumberKind(item.kind) && !IsInternalKind(item.kind) && !HasSuffix(item)
  {
    if item.kind == "postcode" then PostcodeItem
    else if IsHousenumberKind(item.kind) then HousenumberItem
    else if item.kind == "street" then StreetItem
    else if item.kind == "place" then (if HasSuffix(item) then Skipped else PlaceItem)
    else if !IsInternalKind(item.kind) && !HasSuffix(item) && item.kind != "country" && item.kind != "full" then AddressTerm
    else Skipped
  }

  /** The names of the housenumber parts of an address, in order (the list `hnrs`). */
  function HousenumberNames(address: seq<PlaceName>): (r: seq<string>)
    ensures |r| <= |address|
    ensures r == [] <==> forall i :: 0 <= i < |address| ==> BucketOf(address[i]) != HousenumberItem
    decreases |address|
  {
    if address == [] then []
    else
      var init, last := address[..|address| - 1], address[|address| - 1];
      assert forall i :: 0 <= i < |init| ==> init[i] == address[i];
      HousenumberNames(init) + (if BucketOf(last) == HousenumberItem then [last.name] else [])
  }

  /** The kinds of the general address terms, in order. */
  function TermKinds(address: seq<PlaceName>): seq<string>
    decreases |address|
  {
    if address == [] then []
    else
      var last := address[|address| - 1];
      TermKinds(address[..|address| - 1]) + (if BucketOf(last) == AddressTerm then [last.kind] else [])
  }

  /** The kinds of a list of `(kind, partials)` pairs. */
  function Kinds(terms: seq<(string, seq<TokenId>)>): seq<string> {
    seq(|terms|, i requires 0 <= i < |terms| => terms[i].0)
  }

  lemma {:induction false} KindsSnoc(terms: seq<(string, seq<TokenId>)>, t: (string, seq<TokenId>))
    ensures Kinds(terms + [t]) == Kinds(terms) + [t.0]
  {
    assert forall i :: 0 <= i < |terms| ==> (terms + [t])[i] == terms[i];
  }

  // ---------------------------------------------------------------- name keys

  /** The `word` of a full name: the normalized name, followed by `@analyzer` unless it is the default. */
  function NameKey(norm: string, analyzer: Option<string>): string {
    if analyzer.None? then norm else norm + "@" + analyzer.value
  }

  /** A key with an analyzer contains '@' after the normalized name. */
  lemma {:induction false} NameKeyAt(norm: string, analyzer: Option<string>)
    requires '@' !in norm
    ensures '@' in NameKey(norm, analyzer) <==> analyzer.Some?
    ensures analyzer.Some? ==> NameKey(norm, analyzer)[|norm|] == '@'
  {
    if analyzer.Some? {
      assert NameKey(norm, analyzer)[|norm|] == '@';
    }
  }

  /** As long as normalized names contain no '@', different names have different keys. */
  lemma {:induction false} NameKeyInjective(n1: string, a1: Option<string>, n2: string, a2: Option<string>)
    requires '@' !in n1 && '@' !in n2
    requires NameKey(n1, a1) == NameKey(n2, a2)
    ensures n1 == n2 && a1 == a2
  {
    var s := NameKey(n1, a1);
    NameKeyAt(n1, a1);
    NameKeyAt(n2, a2);
    if a1.Some? {
      assert forall j :: 0 <= j < |n1| ==> s[j] == n1[j];
      assert forall j :: 0 <= j < |n2| ==> s[j] == n2[j];
      assert |n1| >= |n2|;
      assert |n1| <= |n2|;
      assert n1 == s[..|n1|] == n2;
      assert a1.value == s[|n1| + 1..] == a2.value;
    }
  }

  /** A '@' in a normalized name makes the keys ambiguous: `n@a` without an analyzer collides with `n` under analyzer `a`. */
  lemma {:induction false} NameKeyCollision(n: string, a: string)
    ensures NameKey(n + "@" + a, None) == NameKey(n, Some(a))
  {
  }

  // ---------------------------------------------------- partial-word lookup

  /**
   * The lookup of `_compute_partial_tokens` on values: the cached ids of the
   * hits in input order, then, if there are misses, one
   * `getorcreate_partial_word` call for all of them, whose ids are appended
   * and remembered. This is the same cached get-or-create as
   * `TokenCache.HnrLookup`, with `getorcreate_partial_word` in place of
   * `getorcreate_hnr_id`; its four lemmas mirror the `HnrLookup` ones.
   */
  function PartialLookup(cached: map<string, TokenId>, t: Table, words: seq<string>): Lookups {
    var hits, misses := Present(cached, words), Absent(cached, words);
    if misses == [] then Lookups(cached, t, 0, Lookup(cached, hits))
    else
      var (t1, ids) := PartialWords(t, misses);
      Lookups(Remembered(cached, misses, ids), t1, 1, Lookup(cached, hits) + ids)
  }

  /**
   * The first loop of `_compute_partial_tokens`: a word is a hit when the
   * cache holds a truthy id for it. Ids are positive, so this is the same
   * split as by membership.
   */
  method SplitTruthy(cached: map<string, TokenId>, words: seq<string>) returns (tokens: seq<TokenId>, need: seq<string>)
    requires forall w :: w in cached ==> cached[w] != 0
    ensures tokens == Lookup(cached, Present(cached, words))
    ensures need == Absent(cached, words)
  {
    tokens := [];
    need := [];
    var i := 0;
    while i < |words|
      invariant 0 <= i <= |words|
      invariant tokens == Lookup(cached, Present(cached, words[..i]))
      invariant need == Absent(cached, words[..i])
    {
      var partial := words[i];
      assert words[..i + 1] == words[..i] + [partial];
      LookupHitsSnoc(cached, words[..i], partial);
      var token := if partial in cached then cached[partial] else 0;
      if token != 0 {
        tokens := tokens + [token];
      } else {
        need := need + [partial];
      }
      i := i + 1;
    }
    assert words[..i] == words;
  }

  /**
   * The lookups of `_compute_partial_tokens`: the cached ids first, then one
   * store call for the words not cached, whose ids are appended and
   * remembered.
   */
  method LookupPartials(store: WordStore, cached: map<string, TokenId>, words: seq<string>)
    returns (cached': map<string, TokenId>, tokens: seq<TokenId>)
    requires store.Valid() && forall w :: w in cached ==> cached[w] != 0
    modifies store
    ensures var l := PartialLookup(cached, old(store.table), words);
      && cached' == l.cache && store.table == l.table && tokens == l.tokens
      && store.queries == old(store.queries) + l.calls
    ensures store.Valid()
  {
    var need;
    tokens, need := SplitTruthy(cached, words);
    cached' := cached;
    if need != [] {
      var ids := store.GetOrCreatePartials(need);
      cached', tokens := Remember(cached, need, ids, tokens);
    }
  }

  /**
   * A partial-word lookup keeps the table consistent and the caches coherent,
   * and of the table changes only the partial-word rows.
   */
  lemma {:induction false} PartialLookupCoherent(c: Caches, t: Table, words: seq<string>)
    requires Consistent(t) && CachesCoherent(c, t)
    ensures var r := PartialLookup(c.partials, t, words);
      && Consistent(r.table) && Grows(t, r.table)
      && CachesCoherent(c.(partials := r.cache), r.table)
      && r.table == t.(partialIds := r.table.partialIds, nextId := r.table.nextId)
  {
    var misses := Absent(c.partials, words);
    if misses != [] {
      var (t1, ids) := PartialWords(t, misses);
      CoherenceGrows(c, t, t1);
      RememberedWithin(c.partials, misses, ids, t1.partialIds);
    }
  }

  /**
   * A partial-word lookup adds exactly the words to the cache, and calls the
   * store exactly when some word is not cached; otherwise nothing changes.
   */
  lemma {:induction false} PartialLookupCache(cached: map<string, TokenId>, t: Table, words: seq<string>)
    requires Consistent(t) && SubMap(cached, t.partialIds)
    ensures var r := PartialLookup(cached, t, words);
      && SubMap(cached, r.cache)
      && r.cache.Keys == cached.Keys + ToSet(words)
      && (r.calls == 0 <==> forall w :: w in words ==> w in cached)
      && (r.calls == 0 ==> r.table == t && r.cache == cached)
  {
    var misses := Absent(cached, words);
    AbsentEmpty(cached, words);
    MissesCoverInput(cached, words);
    if misses != [] {
      var (t1, ids) := PartialWords(t, misses);
      RememberedWithin(cached, misses, ids, t1.partialIds);
    }
  }

  /** One token per word: the table's ids of the cache hits, then of the misses. */
  lemma {:induction false} PartialLookupOrder(cached: map<string, TokenId>, t: Table, words: seq<string>)
    requires Consistent(t) && SubMap(cached, t.partialIds)
    ensures var r := PartialLookup(cached, t, words);
      && (forall w :: w in Present(cached, words) + Absent(cached, words) ==> w in r.table.partialIds)
      && r.tokens == Lookup(r.table.partialIds, Present(cached, words) + Absent(cached, words))
  {
    var hits, misses := Present(cached, words), Absent(cached, words);
    if misses == [] {
      LookupSubMap(cached, t.partialIds, hits);
      assert hits + misses == hits;
    } else {
      var (t1, ids) := PartialWords(t, misses);
      assert Grows(t, t1);
      LookupSubMap(cached, t1.partialIds, hits);
      LookupConcat(t1.partialIds, hits, misses);
    }
  }

  /** The tokens are the table's ids of the words, reordered, one per word. */
  lemma {:induction false} PartialLookupTokens(cached: map<string, TokenId>, t: Table, words: seq<string>)
    requires Consistent(t) && SubMap(cached, t.partialIds)
    ensures var r := PartialLookup(cached, t, words);
      && (forall w :: w in words ==> w in r.table.partialIds)
      && multiset(r.tokens) == multiset(Lookup(r.table.partialIds, words))
      && |r.tokens| == |words|
  {
    var r := PartialLookup(cached, t, words);
    PartialLookupOrder(cached, t, words);
    assert forall w :: w in words ==> w in Present(cached, words) + Absent(cached, words) by {
      forall w | w in words ensures w in Present(cached, words) + Absent(cached, words) {
        PresentAbsentPermutation(cached, words);
        assert w in multiset(words);
      }
    }
    HitsThenMisses(cached, r.table.partialIds, words);
  }

  // ---------------------------------------------------------- special phrases

  /** The 'S' row written for a new phrase: only the operators 'in' and 'near' are kept. */
  function NewPhraseRow(p: Phrase, term: string): PhraseRow {
    PhraseRow(term, p.word, p.cls, p.typ, if p.op == "in" || p.op == "near" then Some(p.op) else None)
  }

  /**
   * A row written for a phrase reads back as that phrase when its operator is
   * 'in', 'near' or '-', and with the operator '-' otherwise.
   */
  lemma {:induction false} NewPhraseRowKey(p: Phrase, term: string)
    ensures RowKey(NewPhraseRow(p, term)) == StoredPhrase(p)
    ensures KnownOp(p) <==> RowKey(NewPhraseRow(p, term)) == p
    ensures NewPhraseRow(p, term).op != Some("")
  {
  }

  /** The phrase a new row reads back as: operators other than 'in' and 'near' become '-'. */
  function StoredPhrase(p: Phrase): Phrase {
    p.(op := if p.op == "in" || p.op == "near" then p.op else "-")
  }

  /** The operators a phrase row can round-trip: 'in', 'near' and the placeholder '-'. */
  predicate KnownOp(p: Phrase) {
    p.op == "in" || p.op == "near" || p.op == "-"
  }

  /** No 'S' row stores the empty string as its operator. */
  predicate NoEmptyOps(rows: seq<PhraseRow>) {
    forall i :: 0 <= i < |rows| ==> rows[i].op != Some("")
  }

  /** The phrases `(word, class, type, op or '-')` of the 'S' rows. */
  function ExistingPhrases(rows: seq<PhraseRow>): set<Phrase> {
    set r | r in rows :: RowKey(r)
  }

  /**
   * Deleting a set of phrases read back from the table removes exactly the
   * rows whose phrase is in the set, except rows whose stored operator is the
   * empty string, which the DELETE's condition never matches.
   */
  lemma {:induction false} RowsWithoutKeys(rows: seq<PhraseRow>, del: set<Phrase>)
    requires forall d :: d in del ==> d.op != ""
    ensures forall r :: r in RowsWithout(rows, del) <==> r in rows && (RowKey(r) !in del || r.op == Some(""))
  {
    forall r | r in rows
      ensures MatchesSome(r, del) <==> RowKey(r) in del && r.op != Some("")
    {
      if MatchesSome(r, del) {
        var d :| d in del && Matches(r, d);
        assert RowKey(r) == d;
      }
      if RowKey(r) in del && r.op != Some("") {
        assert Matches(r, RowKey(r));
      }
    }
  }

  /** The phrases of rows appended to others are the phrases of both. */
  lemma {:induction false} ExistingPhrasesConcat(a: seq<PhraseRow>, b: seq<PhraseRow>)
    ensures ExistingPhrases(a + b) == ExistingPhrases(a) + ExistingPhrases(b)
  {
    forall d | d in ExistingPhrases(a + b) ensures d in ExistingPhrases(a) + ExistingPhrases(b) {
      var r :| r in a + b && RowKey(r) == d;
    }
  }

  /** Deleting phrases read back from rows without empty operators removes exactly those phrases. */
  lemma {:induction false} ExistingRowsWithout(rows: seq<PhraseRow>, del: set<Phrase>)
    requires NoEmptyOps(rows)
    requires forall d :: d in del ==> d.op != ""
    ensures ExistingPhrases(RowsWithout(rows, del)) == ExistingPhrases(rows) - del
    ensures NoEmptyOps(RowsWithout(rows, del))
  {
    RowsWithoutKeys(rows, del);
    var kept := RowsWithout(rows, del);
    forall d | d in ExistingPhrases(kept) ensures d in ExistingPhrases(rows) - del {
      var r :| r in kept && RowKey(r) == d;
      var i :| 0 <= i < |rows| && rows[i] == r;
    }
    forall d | d in ExistingPhrases(rows) - del ensures d in ExistingPhrases(kept) {
      var r :| r in rows && RowKey(r) == d;
      assert r in kept;
    }
    forall i | 0 <= i < |kept| ensures kept[i].op != Some("") {
      assert kept[i] in rows;
      var j :| 0 <= j < |rows| && rows[j] == kept[i];
    }
  }

  lemma {:induction false} NoEmptyOpsConcat(a: seq<PhraseRow>, b: seq<PhraseRow>)
    requires NoEmptyOps(a) && NoEmptyOps(b)
    ensures NoEmptyOps(a + b)
  {
    forall i | 0 <= i < |a + b| ensures (a + b)[i].op != Some("") {
      if i >= |a| { assert (a + b)[i] == b[i - |a|]; }
    }
  }

  /** Phrases whose operators round-trip are stored as themselves. */
  lemma {:induction false} StoredKnown(ps: set<Phrase>)
    requires forall p :: p in ps ==> KnownOp(p)
    ensures (set p | p in ps :: StoredPhrase(p)) == ps
  {
    forall p | p in ps ensures StoredPhrase(p) == p {
      assert KnownOp(p);
    }
  }

  /** Adding phrases not yet there and then deleting the unwanted old ones leaves the wanted old ones and the added ones. */
  lemma {:induction false} ReplaceSets(existing: set<Phrase>, wanted: set<Phrase>, added: set<Phrase>)
    requires added <= wanted - existing
    ensures (existing + added) - (existing - wanted) == (existing * wanted) + added
  {
  }

  /**
   * Appending rows for phrases not yet there, then deleting the existing
   * phrases that are not wanted (if any), leaves the wanted existing
   * phrases and the appended ones.
   */
  lemma {:induction false} ReplaceRows(rows: seq<PhraseRow>, newRows: seq<PhraseRow>, wanted: set<Phrase>, added: set<Phrase>)
    requires NoEmptyOps(rows) && NoEmptyOps(newRows)
    requires ExistingPhrases(newRows) == added && added <= wanted - ExistingPhrases(rows)
    ensures var del, all := ExistingPhrases(rows) - wanted, rows + newRows;
      var result := if del == {} then all else RowsWithout(all, del);
      ExistingPhrases(result) == (ExistingPhrases(rows) * wanted) + added && NoEmptyOps(result)
  {
    var existing := ExistingPhrases(rows);
    var del, all := existing - wanted, rows + newRows;
    NoEmptyOpsConcat(rows, newRows);
    ExistingPhrasesConcat(rows, newRows);
    ReplaceSets(existing, wanted, added);
    if del != {} {
      ExistingPhrasesOps(rows);
      ExistingRowsWithout(all, del);
    }
  }

  /** The loop of `update_special_phrases` over the 'S' rows: the set of their phrases. */
  method CollectExisting(rows: seq<PhraseRow>) returns (existing: set<Phrase>)
    ensures existing == ExistingPhrases(rows)
  {
    existing := {};
    var i := 0;
    while i < |rows|
      invariant 0 <= i <= |rows|
      invariant existing == ExistingPhrases(rows[..i])
    {
      ExistingPhrasesConcat(rows[..i], [rows[i]]);
      assert rows[..i + 1] == rows[..i] + [rows[i]];
      existing := existing + {RowKey(rows[i])};
      i := i + 1;
    }
    assert rows[..i] == rows;
  }

  /** Phrases read back from the table never have an empty operator. */
  lemma {:induction false} ExistingPhrasesOps(rows: seq<PhraseRow>)
    ensures forall d :: d in ExistingPhrases(rows) ==> d.op != ""
  {
  }
}

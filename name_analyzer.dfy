/**
 * `LegacyICUNameAnalyzer`: turns the names and address parts of a place into
 * the token information stored with the place, creating the tokens it needs
 * in the word table on the way, and maintains the special phrases and the
 * country names. Every database round trip goes through the `WordStore`;
 * every lookup that can be answered from the analyzer's `TokenCache` is.
 *
 * Each operation is a method on the analyzer and, beside it, a function of
 * the session state (caches, table, round trips) that the method is proved
 * to agree with; the properties are lemmas about those functions.
 */
module NameAnalyzer {
  import opened Base
  import Text
  import opened IcuTokenAnalysis
  import opened WordTable
  import opened TokenCache
  import opened TokenInfo
  import opened AnalyzerHelpers

  /** What the analyzer works on: its caches, the word table and the round trips made so far. */
  datatype Session = Session(caches: Caches, table: Table, queries: nat)

  ghost predicate Coherent(s: Session) {
    Consistent(s.table) && CachesCoherent(s.caches, s.table)
  }

  /** The state of `_compute_name_tokens` after some of the names; `error` once a `KeyError` was raised. */
  datatype NameRun = NameRun(session: Session, fulls: set<TokenId>, partials: set<TokenId>, error: Option<Error>)

  /** The state of the loop of `_process_place_address` after some of the address parts. */
  datatype AddressRun = AddressRun(
    session: Session,
    data: map<string, InfoValue>,               // the token info, with 'place' set as it is met
    terms: seq<(string, seq<TokenId>)>,         // addr_terms
    streets: seq<TokenId>)                      // streets

  /** What `update_special_phrases` leaves: the table, the round trips it made, and the two counts it logs. */
  datatype PhraseOutcome = PhraseOutcome(table: Table, calls: nat, added: nat, deleted: nat)

  /** The keys of the token info that `_process_place_address` may set. */
  const AddressKeys: set<string> := {"place", "hnr_tokens", "hnr", "addr", "street"}

  class NameAnalyzer {
    const store: WordStore
    const cache: TokenCache
    const analysis: TokenAnalysis
    const icu: Icu

    constructor (store: WordStore, analysis: TokenAnalysis, icu: Icu)
      requires store.Valid()
      ensures this.store == store && this.analysis == analysis && this.icu == icu
      ensures fresh(cache) && cache.Snapshot() == NoCaches
      ensures Valid()
    {
      this.store := store;
      this.analysis := analysis;
      this.icu := icu;
      cache := new TokenCache();
    }

    ghost predicate Valid()
      reads store, cache
    {
      store.Valid() && cache.CoherentWith(store.table)
    }

    function Current(): Session
      reads store, cache
    {
      Session(cache.Snapshot(), store.table, store.queries)
    }

    lemma {:induction false} ValidIsCoherent()
      ensures Valid() <==> Coherent(Current())
    {
    }

    // ------------------------------------------------------ normalization

    /** `_search_normalized`: the search transliteration, stripped. */
    function SearchNormalized(s: string): string {
      Text.Strip(icu.transliterate(analysis.search, s))
    }

    /** `_normalized`: the normalization transliteration, stripped. */
    function Normalized(s: string): string {
      Text.Strip(icu.transliterate(analysis.normalizer, s))
    }

    /** The `token_id` of a name in `_compute_name_tokens`. */
    function Key(n: PlaceName): string {
      NameKey(Normalized(n.name), n.analyzer)
    }

    /** `get_variants_ascii` of the name's analyzer, applied to the normalized name. */
    function Variants(n: PlaceName): seq<string>
      requires n.analyzer in analysis.analysis
    {
      icu.variantsAscii(analysis.analysis[n.analyzer], Normalized(n.name))
    }

    // -------------------------------------------------------- partial words

    /** `_compute_partial_tokens` on the session. */
    function PartialStep(s: Session, name: string): (Session, seq<TokenId>) {
      var l := PartialLookup(s.caches.partials, s.table, Text.Words(SearchNormalized(name)));
      (Session(s.caches.(partials := l.cache), l.table, s.queries + l.calls), l.tokens)
    }

    /**
     * Computing partial tokens keeps the session coherent, creates only
     * partial words, and returns one id per word of the search-normalized
     * name: the table's id of that word.
     */
    lemma {:induction false} PartialStepProperties(s: Session, name: string)
      requires Coherent(s)
      ensures var (s', tokens) := PartialStep(s, name);
        var words := Text.Words(SearchNormalized(name));
        && Coherent(s') && Grows(s.table, s'.table)
        && s'.table == s.table.(partialIds := s'.table.partialIds, nextId := s'.table.nextId)
        && (forall w :: w in words ==> w in s'.table.partialIds)
        && multiset(tokens) == multiset(Lookup(s'.table.partialIds, words))
        && (s'.queries == s.queries <==> forall w :: w in words ==> w in s.caches.partials)
        && s'.queries <= s.queries + 1
    {
      var words := Text.Words(SearchNormalized(name));
      PartialLookupCoherent(s.caches, s.table, words);
      PartialLookupCache(s.caches.partials, s.table, words);
      PartialLookupTokens(s.caches.partials, s.table, words);
    }

    /** `_compute_partial_tokens`. */
    method ComputePartialTokens(name: string) returns (tokens: seq<TokenId>)
      requires Valid()
      modifies store, cache`partials
      ensures Current() == PartialStep(old(Current()), name).0
      ensures tokens == PartialStep(old(Current()), name).1
      ensures Valid()
    {
      ghost var s0 := Current();
      var words := Text.Words(SearchNormalized(name));
      var cached;
      cached, tokens := LookupPartials(store, cache.partials, words);
      cache.partials := cached;
      ghost var l := PartialLookup(s0.caches.partials, s0.table, words);
      assert cache.partials == l.cache;
      assert store.table == l.table;
      assert tokens == l.tokens;
      assert store.queries == s0.queries + l.calls;
      assert cache.names == s0.caches.names;
      assert cache.fulls == s0.caches.fulls;
      assert cache.Snapshot() == s0.caches.(partials := l.cache);
      PartialLookupCoherent(s0.caches, s0.table, words);
    }

    // ------------------------------------------------------------ full names

    /** `_retrieve_full_tokens` on the session. */
    function FullStep(s: Session, name: string): (Session, seq<TokenId>) {
      var norm := SearchNormalized(name);
      if norm in s.caches.fulls then (s, s.caches.fulls[norm])
      else
        var full := FullTokens(s.table, norm);
        (s.(caches := s.caches.(fulls := s.caches.fulls[norm := full]), queries := s.queries + 1), full)
    }

    /**
     * Retrieving full tokens changes no table row and keeps the session
     * coherent; the answer is the table's current 'W' rows for the name or,
     * when cached, a prefix of them, and the store is asked only on a miss.
     */
    lemma {:induction false} FullStepProperties(s: Session, name: string)
      requires Coherent(s)
      ensures var (s', full) := FullStep(s, name);
        var norm := SearchNormalized(name);
        && Coherent(s') && s'.table == s.table
        && norm in s'.caches.fulls && s'.caches.fulls[norm] == full
        && full <= FullTokens(s.table, norm)
        && (norm in s.caches.fulls ==> s' == s)
        && (norm !in s.caches.fulls ==> full == FullTokens(s.table, norm) && s'.queries == s.queries + 1)
    {
    }

    /** `_retrieve_full_tokens`. */
    method RetrieveFullTokens(name: string) returns (full: seq<TokenId>)
      requires Valid()
      modifies store`queries, cache`fulls
      ensures Current() == FullStep(old(Current()), name).0
      ensures full == FullStep(old(Current()), name).1
      ensures Valid()
    {
      var normName := SearchNormalized(name);
      if normName in cache.fulls {
        return cache.fulls[normName];
      }
      full := store.LookupFull(normName);
      cache.fulls := cache.fulls[normName := full];
    }

    // ------------------------------------------------------------ postcodes

    /** `_add_postcode` on the session. */
    function PostcodeStep(s: Session, postcode: string): Session {
      if !Text.Avoids(postcode, IsPostcodeSep) then s
      else
        var pc := NormalizePostcode(postcode);
        if pc in s.caches.postcodes then s
        else
          var term := SearchNormalized(pc);
          if term == "" then s
          else Session(s.caches.(postcodes := s.caches.postcodes + {pc}), InsertPostcode(s.table, term, pc), s.queries + 1)
    }

    /** Adding a postcode keeps the session coherent and changes only postcode rows and the postcode cache. */
    lemma {:induction false} PostcodeStepCoherent(s: Session, postcode: string)
      requires Coherent(s)
      ensures var s' := PostcodeStep(s, postcode);
        && Coherent(s') && Grows(s.table, s'.table)
        && s'.table == s.table.(postcodes := s'.table.postcodes)
        && s'.caches == s.caches.(postcodes := s'.caches.postcodes)
    {
      if Text.Avoids(postcode, IsPostcodeSep) {
        var pc := NormalizePostcode(postcode);
        var term := SearchNormalized(pc);
        if pc !in s.caches.postcodes && term != "" {
          PostcodeCoherent(s.caches, s.table, term, pc);
        }
      }
    }

    /**
     * `_add_postcode` does nothing for a postcode containing ':', ',' or ';',
     * for one already cached and for one whose search term is empty; it
     * makes one round trip otherwise.
     */
    lemma {:induction false} PostcodeStepSkips(s: Session, postcode: string)
      ensures var s' := PostcodeStep(s, postcode);
        var pc := NormalizePostcode(postcode);
        && (!Text.Avoids(postcode, IsPostcodeSep) ==> s' == s)
        && (pc in s.caches.postcodes ==> s' == s)
        && (SearchNormalized(pc) == "" ==> s' == s)
        && (s' != s ==> s'.queries == s.queries + 1)
    {
    }

    /**
     * Any other postcode is afterwards cached and in the table, with the row
     * it had if it had one.
     */
    lemma {:induction false} PostcodeStepAdds(s: Session, postcode: string)
      requires s.caches.postcodes <= s.table.postcodes.Keys
      requires Text.Avoids(postcode, IsPostcodeSep)
      ensures var s' := PostcodeStep(s, postcode);
        var pc := NormalizePostcode(postcode);
        && (SearchNormalized(pc) != "" ==> pc in s'.caches.postcodes)
        && s'.table.postcodes.Keys == s.table.postcodes.Keys + (if SearchNormalized(pc) != "" then {pc} else {})
        && (forall p :: p in s.table.postcodes ==> s'.table.postcodes[p] == s.table.postcodes[p])
    {
      var s' := PostcodeStep(s, postcode);
      var pc := NormalizePostcode(postcode);
      var term := SearchNormalized(pc);
      if pc !in s.caches.postcodes && term != "" {
        assert s'.table == InsertPostcode(s.table, term, pc);
        assert s'.table.postcodes == if pc in s.table.postcodes then s.table.postcodes else s.table.postcodes[pc := term];
      } else {
        assert s'.table == s.table;
        assert pc in s.caches.postcodes ==> pc in s.table.postcodes;
      }
    }

    /** Adding the same postcode twice is the same as adding it once. */
    lemma {:induction false} PostcodeStepTwice(s: Session, postcode: string)
      ensures PostcodeStep(PostcodeStep(s, postcode), postcode) == PostcodeStep(s, postcode)
    {
    }

    /** `_add_postcode`. */
    method AddPostcode(postcode: string)
      requires Valid()
      modifies store, cache`postcodes
      ensures Current() == PostcodeStep(old(Current()), postcode)
      ensures Valid()
    {
      if Text.Avoids(postcode, IsPostcodeSep) {
        var pc := NormalizePostcode(postcode);
        if pc !in cache.postcodes {
          var term := SearchNormalized(pc);
          if term == "" {
            return;
          }
          store.AddPostcode(term, pc);
          cache.postcodes := cache.postcodes + {pc};
        }
      }
    }

    // ------------------------------------------------------------ name tokens

    /**
     * One name of the loop of `_compute_name_tokens`: a cached key gives its
     * ids; otherwise the name's analyzer (a `KeyError` when there is none)
     * gives the variants and, unless there are none, one
     * `getorcreate_full_word` call gives the ids, which are cached. Once an
     * error is raised, nothing more happens.
     */
    function NameStep(r: NameRun, n: PlaceName): NameRun {
      if r.error.Some? then r
      else if Key(n) in r.session.caches.names then
        var entry := r.session.caches.names[Key(n)];
        r.(fulls := r.fulls + {entry.0}, partials := r.partials + ToSet(entry.1))
      else if n.analyzer !in analysis.analysis then r.(error := Some(KeyError(n.analyzer)))
      else if Variants(n) == [] then r
      else NewName(r, Key(n), Variants(n))
    }

    /** `getorcreate_full_word(key, variants)`, its answer cached under `key` and added to the sets. */
    function NewName(r: NameRun, key: string, variants: seq<string>): NameRun {
      var s := r.session;
      var (t, full, part) := FullWord(s.table, key, variants);
      NameRun(Session(s.caches.(names := s.caches.names[key := (full, part)]), t, s.queries + 1),
              r.fulls + {full}, r.partials + ToSet(part), r.error)
    }

    /** `_compute_name_tokens` on the session: the names in order, up to the first error. */
    function NameTokens(s: Session, names: seq<PlaceName>): NameRun
      decreases |names|
    {
      if names == [] then NameRun(s, {}, {}, None)
      else NameStep(NameTokens(s, names[..|names| - 1]), names[|names| - 1])
    }

    /**
     * One name keeps the session coherent, changes only full-name and
     * partial-word rows and the name cache, and makes at most one round trip.
     */
    lemma {:induction false} NameStepCoherent(r: NameRun, n: PlaceName)
      requires Coherent(r.session)
      ensures var s, s' := r.session, NameStep(r, n).session;
        && Coherent(s') && Grows(s.table, s'.table)
        && s'.table == s.table.(fullIds := s'.table.fullIds, fullRows := s'.table.fullRows,
                                partialIds := s'.table.partialIds, nextId := s'.table.nextId)
        && s'.caches == s.caches.(names := s'.caches.names)
        && SubMap(s.caches.names, s'.caches.names)
        && (NameStep(r, n).error.None? && Counted(s.caches, n) ==> Key(n) in s'.caches.names)
        && s'.queries <= s.queries + 1
        && (s'.queries == s.queries ==> s' == s)
    {
      if r.error.None? && Key(n) !in r.session.caches.names && n.analyzer in analysis.analysis && Variants(n) != [] {
        NewNameCoherent(r, Key(n), Variants(n));
      } else {
        assert NameStep(r, n).session == r.session;
      }
    }

    lemma {:induction false} NewNameCoherent(r: NameRun, key: string, variants: seq<string>)
      requires Coherent(r.session) && key !in r.session.caches.names
      ensures var s, s' := r.session, NewName(r, key, variants).session;
        && Coherent(s') && Grows(s.table, s'.table)
        && s'.table == s.table.(fullIds := s'.table.fullIds, fullRows := s'.table.fullRows,
                                partialIds := s'.table.partialIds, nextId := s'.table.nextId)
        && s'.caches == s.caches.(names := s'.caches.names)
        && SubMap(s.caches.names, s'.caches.names)
        && (var (_, full, part) := FullWord(s.table, key, variants);
            key in s'.caches.names && s'.caches.names[key] == (full, part))
        && s'.queries == s.queries + 1
    {
      var s := r.session;
      var (t, full, part) := FullWord(s.table, key, variants);
      CoherenceGrows(s.caches, s.table, t);
      LookupValues(t.partialIds, VariantWords(variants));
      NameCoherent(s.caches, t, key, full, part);
    }

    /**
     * Computing the name tokens keeps the session coherent, changes only
     * full-name and partial-word rows and the name cache, never drops a
     * cached name, caches the key of every name that counts, and makes at
     * most one round trip per name.
     */
    lemma {:induction false} NameTokensCoherent(s: Session, names: seq<PlaceName>)
      requires Coherent(s)
      ensures var s' := NameTokens(s, names).session;
        && Coherent(s') && Grows(s.table, s'.table)
        && s'.table == s.table.(fullIds := s'.table.fullIds, fullRows := s'.table.fullRows,
                                partialIds := s'.table.partialIds, nextId := s'.table.nextId)
        && s'.caches == s.caches.(names := s'.caches.names)
        && SubMap(s.caches.names, s'.caches.names)
        && (NameTokens(s, names).error.None? ==>
              forall i :: 0 <= i < |names| && Counted(s.caches, names[i]) ==> Key(names[i]) in s'.caches.names)
        && s'.queries <= s.queries + |names|
    {
      NameTokensFrame(s, names);
      NameTokensCached(s, names);
    }

    /** The frame part of `NameTokensCoherent`, by induction over the names. */
    lemma {:induction false} NameTokensFrame(s: Session, names: seq<PlaceName>)
      requires Coherent(s)
      ensures var s' := NameTokens(s, names).session;
        && Coherent(s') && Grows(s.table, s'.table)
        && s'.table == s.table.(fullIds := s'.table.fullIds, fullRows := s'.table.fullRows,
                                partialIds := s'.table.partialIds, nextId := s'.table.nextId)
        && s'.caches == s.caches.(names := s'.caches.names)
        && SubMap(s.caches.names, s'.caches.names)
        && s'.queries <= s.queries + |names|
      decreases |names|
    {
      if names != [] {
        var init := names[..|names| - 1];
        NameTokensFrame(s, init);
        var r := NameTokens(s, init);
        NameStepCoherent(r, names[|names| - 1]);
        GrowsTransitive(s.table, r.session.table, NameTokens(s, names).session.table);
      }
    }

    /** Without an error, the key of every name that counts is cached afterwards. */
    lemma {:induction false} NameTokensCached(s: Session, names: seq<PlaceName>)
      requires Coherent(s)
      ensures var r := NameTokens(s, names);
        r.error.None? ==>
          forall i :: 0 <= i < |names| && Counted(s.caches, names[i]) ==> Key(names[i]) in r.session.caches.names
      decreases |names|
    {
      if names != [] {
        var n := |names| - 1;
        var init := names[..n];
        var r := NameTokens(s, init);
        assert NameTokens(s, names) == NameStep(r, names[n]);
        NameTokensCached(s, init);
        NameTokensFrame(s, init);
        NameStepKeepsNames(r, names[n]);
        NameTokensCachedStep(s, init, names[n], r);
        assert init + [names[n]] == names;
      }
    }

    /** The step of `NameTokensCached`: from the names before the last to all of them. */
    lemma {:induction false} NameTokensCachedStep(s: Session, init: seq<PlaceName>, last: PlaceName, r: NameRun)
      requires SubMap(s.caches.names, r.session.caches.names)
      requires r.error.None? ==>
        forall i :: 0 <= i < |init| && Counted(s.caches, init[i]) ==> Key(init[i]) in r.session.caches.names
      requires var c, c' := r.session.caches.names, NameStep(r, last).session.caches.names;
        && SubMap(c, c')
        && (NameStep(r, last).error.None? && Counted(r.session.caches, last) ==> Key(last) in c')
      ensures var r' := NameStep(r, last);
        r'.error.None? ==>
          forall i :: 0 <= i < |init + [last]| && Counted(s.caches, (init + [last])[i]) ==>
            Key((init + [last])[i]) in r'.session.caches.names
    {
      var r' := NameStep(r, last);
      var names := init + [last];
      if r'.error.None? {
        assert r.error.None?;
        forall i | 0 <= i < |names| && Counted(s.caches, names[i]) ensures Key(names[i]) in r'.session.caches.names {
          if i < |init| {
            assert names[i] == init[i];
          } else {
            assert names[i] == last;
            assert Counted(r.session.caches, last);
          }
        }
      }
    }

    /** One name keeps every cached entry and, without an error, caches its key when it counts. */
    lemma {:induction false} NameStepKeepsNames(r: NameRun, n: PlaceName)
      ensures var c, c' := r.session.caches.names, NameStep(r, n).session.caches.names;
        && SubMap(c, c')
        && (NameStep(r, n).error.None? && Counted(r.session.caches, n) ==> Key(n) in c')
    {
    }

    /** After an error the remaining names are not looked at. */
    lemma {:induction false} NameTokensAbort(s: Session, names: seq<PlaceName>, k: nat)
      requires k <= |names| && NameTokens(s, names[..k]).error.Some?
      ensures NameTokens(s, names) == NameTokens(s, names[..k])
      decreases |names|
    {
      if k < |names| {
        var init := names[..|names| - 1];
        assert init[..k] == names[..k];
        NameTokensAbort(s, init, k);
      } else {
        assert names[..k] == names;
      }
    }

    /**
     * A `KeyError` is raised only for a name whose analyzer is not
     * configured, and never when every name's analyzer is.
     */
    lemma {:induction false} NameTokensError(s: Session, names: seq<PlaceName>)
      ensures var r := NameTokens(s, names);
        && ((forall i :: 0 <= i < |names| ==> names[i].analyzer in analysis.analysis) ==> r.error.None?)
        && (r.error.Some? ==> exists i :: 0 <= i < |names| && names[i].analyzer !in analysis.analysis
                                          && r.error.value == KeyError(names[i].analyzer))
      decreases |names|
    {
      if names != [] {
        var n := |names| - 1;
        var init := names[..n];
        assert forall i :: 0 <= i < n ==> init[i] == names[i];
        NameTokensError(s, init);
      }
    }

    /** The full-name ids of the names whose dispatch key is in the table `t`. */
    ghost function KeyIds(t: Table, names: seq<PlaceName>): set<TokenId> {
      set i | 0 <= i < |names| && Key(names[i]) in t.fullIds :: t.fullIds[Key(names[i])]
    }

    /**
     * What one name adds: at most the table's full id for its key, only ids
     * of partial words, and, unless an error is raised, that full id when
     * the name counts.
     */
    lemma {:induction false} NameStepAdds(r: NameRun, n: PlaceName)
      requires Coherent(r.session)
      ensures var r' := NameStep(r, n);
        var t' := r'.session.table;
        && r.fulls <= r'.fulls && r.partials <= r'.partials
        && (r'.error.None? ==> r.error.None?)
        && (forall f :: f in r'.fulls && f !in r.fulls ==> Key(n) in t'.fullIds && f == t'.fullIds[Key(n)])
        && (forall p :: p in r'.partials && p !in r.partials ==> p in t'.partialIds.Values)
        && (r'.error.None? && Counted(r.session.caches, n) ==> Key(n) in t'.fullIds && t'.fullIds[Key(n)] in r'.fulls)
    {
      var s, key := r.session, Key(n);
      if r.error.None? {
        if key in s.caches.names {
          assert NameStep(r, n).session == s;
          var entry := s.caches.names[key];
          assert entry.0 == s.table.fullIds[key];
          forall p | p in entry.1 ensures p in s.table.partialIds.Values {
          }
        } else if n.analyzer in analysis.analysis && Variants(n) != [] {
          var (t, full, part) := FullWord(s.table, key, Variants(n));
          assert NameStep(r, n) == NewName(r, key, Variants(n));
          LookupValues(t.partialIds, VariantWords(Variants(n)));
        }
      }
    }

    /**
     * Every full id returned is the table's id of one of the names, and
     * every partial id returned is an id of a partial word of the table.
     */
    lemma {:induction false} NameTokensSound(s: Session, names: seq<PlaceName>)
      requires Coherent(s)
      ensures var r := NameTokens(s, names);
        && r.fulls <= KeyIds(r.session.table, names)
        && (forall p :: p in r.partials ==> p in r.session.table.partialIds.Values)
      decreases |names|
    {
      if names != [] {
        var n := |names| - 1;
        var init := names[..n];
        NameTokensSound(s, init);
        NameTokensFrame(s, init);
        var r := NameTokens(s, init);
        var r' := NameStep(r, names[n]);
        NameStepCoherent(r, names[n]);
        NameStepAdds(r, names[n]);
        var t, t' := r.session.table, r'.session.table;
        forall f | f in r'.fulls ensures f in KeyIds(t', names) {
          if f in r.fulls {
            var i :| 0 <= i < n && Key(init[i]) in t.fullIds && t.fullIds[Key(init[i])] == f;
            assert init[i] == names[i];
          }
        }
        forall p | p in r'.partials ensures p in t'.partialIds.Values {
          if p in r.partials {
            var w :| w in t.partialIds && t.partialIds[w] == p;
            assert t'.partialIds[w] == p;
          }
        }
      }
    }

    /** The name counts: its key is cached, or its analyzer gives variants. */
    ghost predicate Counted(c: Caches, n: PlaceName) {
      Key(n) in c.names || (n.analyzer in analysis.analysis && Variants(n) != [])
    }

    /**
     * Without an error, every name that counts has its key in the table,
     * and the table's full id for it is among the full ids returned.
     */
    lemma {:induction false} NameTokensComplete(s: Session, names: seq<PlaceName>)
      requires Coherent(s)
      ensures var r := NameTokens(s, names);
        r.error.None? ==> forall i :: 0 <= i < |names| && Counted(s.caches, names[i]) ==>
          Key(names[i]) in r.session.table.fullIds && r.session.table.fullIds[Key(names[i])] in r.fulls
    {
      forall i | 0 <= i < |names| && Counted(s.caches, names[i]) && NameTokens(s, names).error.None? {
        NameTokensCompleteAt(s, names, i);
      }
    }

    lemma {:induction false} NameTokensCompleteAt(s: Session, names: seq<PlaceName>, i: nat)
      requires Coherent(s) && i < |names| && Counted(s.caches, names[i])
      requires NameTokens(s, names).error.None?
      ensures var r := NameTokens(s, names);
        Key(names[i]) in r.session.table.fullIds && r.session.table.fullIds[Key(names[i])] in r.fulls
      decreases |names|
    {
      var n := |names| - 1;
      var init := names[..n];
      var r := NameTokens(s, init);
      var r' := NameStep(r, names[n]);
      assert NameTokens(s, names) == r';
      NameTokensFrame(s, init);
      NameStepCoherent(r, names[n]);
      NameStepAdds(r, names[n]);
      var key := Key(names[i]);
      var t, t' := r.session.table, r'.session.table;
      if i < n {
        assert init[i] == names[i];
        assert r.error.None?;
        NameTokensCompleteAt(s, init, i);
        assert SubMap(t.fullIds, t'.fullIds);
        assert key in t'.fullIds && t'.fullIds[key] == t.fullIds[key];
        assert t.fullIds[key] in r'.fulls;
      } else {
        assert SubMap(s.caches.names, r.session.caches.names);
        assert i == n;
        assert Counted(r.session.caches, names[n]);
        assert r'.error.None?;
        assert Key(names[n]) in t'.fullIds;
        assert t'.fullIds[Key(names[n])] in r'.fulls;
      }
    }

    /** Every name's key is cached. */
    ghost predicate AllCached(c: Caches, names: seq<PlaceName>) {
      forall i :: 0 <= i < |names| ==> Key(names[i]) in c.names
    }

    /** When every key is cached, nothing is asked of the store and the ids are the cached ones. */
    lemma {:induction false} NameTokensAllCached(s: Session, names: seq<PlaceName>)
      requires AllCached(s.caches, names)
      ensures var r := NameTokens(s, names);
        && r.session == s && r.error.None?
        && r.fulls == (set i | 0 <= i < |names| :: s.caches.names[Key(names[i])].0)
      decreases |names|
    {
      if names != [] {
        var n := |names| - 1;
        var init := names[..n];
        assert forall i :: 0 <= i < n ==> init[i] == names[i];
        NameTokensAllCached(s, init);
        var r0, e := NameTokens(s, init), s.caches.names[Key(names[n])];
        assert Key(names[n]) in r0.session.caches.names && r0.error.None?;
        assert NameStep(r0, names[n]) == r0.(fulls := r0.fulls + {e.0}, partials := r0.partials + ToSet(e.1));
        var f0 := set i | 0 <= i < n :: s.caches.names[Key(init[i])].0;
        var f := set i | 0 <= i < |names| :: s.caches.names[Key(names[i])].0;
        assert f == f0 + {e.0};
      }
    }

    /** A name whose key is cached adds the cached ids and changes nothing else. */
    lemma {:induction false} NameStepCached(r: NameRun, n: PlaceName)
      requires r.error.None? && Key(n) in r.session.caches.names
      ensures var e := r.session.caches.names[Key(n)];
        NameStep(r, n) == r.(fulls := r.fulls + {e.0}, partials := r.partials + ToSet(e.1))
    {
    }

    /** When every key is cached, the partial ids cached for every name are among the result's. */
    lemma {:induction false} NameTokensAllCachedPartials(s: Session, names: seq<PlaceName>)
      requires AllCached(s.caches, names)
      ensures var r := NameTokens(s, names);
        forall i :: 0 <= i < |names| ==> ToSet(s.caches.names[Key(names[i])].1) <= r.partials
      decreases |names|
    {
      if names != [] {
        var n := |names| - 1;
        var init := names[..n];
        assert forall i :: 0 <= i < n ==> init[i] == names[i];
        NameTokensAllCached(s, init);
        NameTokensAllCachedPartials(s, init);
        var r0 := NameTokens(s, init);
        NameStepCached(r0, names[n]);
        var r := NameStep(r0, names[n]);
        assert NameTokens(s, names) == r;
        forall i | 0 <= i < |names| ensures ToSet(s.caches.names[Key(names[i])].1) <= r.partials {
          if i < n {
            assert ToSet(s.caches.names[Key(init[i])].1) <= r0.partials;
          }
        }
      }
    }

    /** When every key is cached, every partial id of the result is cached for one of the names. */
    lemma {:induction false} NameTokensAllCachedPartialsFrom(s: Session, names: seq<PlaceName>)
      requires AllCached(s.caches, names)
      ensures var r := NameTokens(s, names);
        forall p :: p in r.partials ==> exists i :: 0 <= i < |names| && p in s.caches.names[Key(names[i])].1
      decreases |names|
    {
      if names != [] {
        var n := |names| - 1;
        var init := names[..n];
        assert forall i :: 0 <= i < n ==> init[i] == names[i];
        NameTokensAllCached(s, init);
        NameTokensAllCachedPartialsFrom(s, init);
        var r0 := NameTokens(s, init);
        NameStepCached(r0, names[n]);
        var r := NameStep(r0, names[n]);
        assert NameTokens(s, names) == r;
        forall p | p in r.partials ensures exists i :: 0 <= i < |names| && p in s.caches.names[Key(names[i])].1 {
          if p in r0.partials {
            var i :| 0 <= i < n && p in s.caches.names[Key(init[i])].1;
            assert names[i] == init[i];
          } else {
            assert p in s.caches.names[Key(names[n])].1;
          }
        }
      }
    }

    /** Every key the names cache gains belongs to a name whose analyzer gave variants. */
    lemma {:induction false} NameTokensNewKeys(s: Session, names: seq<PlaceName>)
      ensures var c' := NameTokens(s, names).session.caches.names;
        forall key :: key in c' && key !in s.caches.names ==>
          exists i :: 0 <= i < |names| && Key(names[i]) == key
                      && names[i].analyzer in analysis.analysis && Variants(names[i]) != []
      decreases |names|
    {
      if names != [] {
        var n := |names| - 1;
        var init := names[..n];
        NameTokensNewKeys(s, init);
        var r := NameTokens(s, init);
        assert NameTokens(s, names) == NameStep(r, names[n]);
        var c, c' := r.session.caches.names, NameStep(r, names[n]).session.caches.names;
        forall key | key in c' && key !in s.caches.names
          ensures exists i :: 0 <= i < |names| && Key(names[i]) == key
                              && names[i].analyzer in analysis.analysis && Variants(names[i]) != []
        {
          if key in c {
            var i :| 0 <= i < n && Key(init[i]) == key
                     && init[i].analyzer in analysis.analysis && Variants(init[i]) != [];
            assert init[i] == names[i];
          } else {
            assert Key(names[n]) == key;
          }
        }
      }
    }

    /** A name the run neither finds in the cache nor sends to the store. */
    ghost predicate Skipped(r: NameRun, n: PlaceName) {
      r.error.None? && Key(n) !in r.session.caches.names && !(n.analyzer in analysis.analysis && Variants(n) != [])
    }

    /** Every name the run from `s` skipped is still uncached in `s2`. */
    ghost predicate StillSkipped(s: Session, names: seq<PlaceName>, s2: Session) {
      forall i :: 0 <= i < |names| && Skipped(NameTokens(s, names[..i]), names[i]) ==> Key(names[i]) !in s2.caches.names
    }

    /**
     * A run from a session whose names cache extends the one the run from
     * `s` ends with, and still lacks the keys it skipped, makes no call and
     * gives the same ids and the same error.
     */
    lemma {:induction false} NameTokensReplay(s: Session, names: seq<PlaceName>, s2: Session)
      requires Coherent(s)
      requires SubMap(NameTokens(s, names).session.caches.names, s2.caches.names)
      requires StillSkipped(s, names, s2)
      ensures NameTokens(s2, names) == NameTokens(s, names).(session := s2)
      decreases |names|
    {
      if names != [] {
        var n := |names| - 1;
        var init := names[..n];
        var r := NameTokens(s, init);
        var r' := NameStep(r, names[n]);
        assert NameTokens(s, names) == r';
        NameTokensFrame(s, init);
        NameStepCoherent(r, names[n]);
        forall k | k in r.session.caches.names ensures k in s2.caches.names && s2.caches.names[k] == r.session.caches.names[k] {
          assert r'.session.caches.names[k] == r.session.caches.names[k];
        }
        forall i | 0 <= i < n && Skipped(NameTokens(s, init[..i]), init[i]) ensures Key(init[i]) !in s2.caches.names {
          assert init[..i] == names[..i] && init[i] == names[i];
        }
        NameTokensReplay(s, init, s2);
        var key := Key(names[n]);
        if r.error.None? && key !in r.session.caches.names {
          if names[n].analyzer in analysis.analysis && Variants(names[n]) != [] {
            NewNameCoherent(r, key, Variants(names[n]));
          } else {
            assert names[..n] == init;
            assert Skipped(r, names[n]);
          }
        }
      }
    }

    /**
     * As long as normalized names contain no '@', computing the name tokens a
     * second time on the session the first run leaves asks nothing of the
     * store and gives the same ids, or the same error.
     */
    lemma {:induction false} NameTokensTwice(s: Session, names: seq<PlaceName>)
      requires Coherent(s)
      requires forall i :: 0 <= i < |names| ==> '@' !in Normalized(names[i].name)
      ensures var r := NameTokens(s, names);
        NameTokens(r.session, names) == r
    {
      var s2 := NameTokens(s, names).session;
      NameTokensNewKeys(s, names);
      forall i | 0 <= i < |names| && Skipped(NameTokens(s, names[..i]), names[i]) ensures Key(names[i]) !in s2.caches.names {
        var ri := NameTokens(s, names[..i]);
        if names[i].analyzer !in analysis.analysis {
          assert names[..i + 1][..i] == names[..i];
          assert names[..i + 1][i] == names[i];
          assert NameTokens(s, names[..i + 1]) == NameStep(ri, names[i]);
          NameTokensAbort(s, names, i + 1);
        } else {
          NameTokensFrame(s, names[..i]);
          if Key(names[i]) in s2.caches.names {
            var j :| 0 <= j < |names| && Key(names[j]) == Key(names[i])
                     && names[j].analyzer in analysis.analysis && Variants(names[j]) != [];
            NameKeyInjective(Normalized(names[j].name), names[j].analyzer, Normalized(names[i].name), names[i].analyzer);
            assert false;
          }
        }
      }
      NameTokensReplay(s, names, s2);
    }

    /** The body of the loop of `_compute_name_tokens`, for one name. */
    method AddNameTokens(n: PlaceName, fulls: set<TokenId>, partials: set<TokenId>)
      returns (error: Option<Error>, fulls': set<TokenId>, partials': set<TokenId>)
      requires Valid()
      modifies store, cache`names
      ensures Current() == NameStep(NameRun(old(Current()), fulls, partials, None), n).session
      ensures error == NameStep(NameRun(old(Current()), fulls, partials, None), n).error
      ensures fulls' == NameStep(NameRun(old(Current()), fulls, partials, None), n).fulls
      ensures partials' == NameStep(NameRun(old(Current()), fulls, partials, None), n).partials
      ensures Valid()
    {
      ghost var s0 := Current();
      var key := NameKey(Normalized(n.name), n.analyzer);
      error, fulls', partials' := None, fulls, partials;
      if key in cache.names {
        var entry := cache.names[key];
        fulls' := fulls + {entry.0};
        partials' := partials + ToSet(entry.1);
        return;
      }
      if n.analyzer !in analysis.analysis {
        error := Some(KeyError(n.analyzer));
        return;
      }
      var variants := icu.variantsAscii(analysis.analysis[n.analyzer], Normalized(n.name));
      if variants == [] {
        return;
      }
      var full, part := store.GetOrCreateFull(key, variants);
      cache.names := cache.names[key := (full, part)];
      fulls' := fulls + {full};
      partials' := partials + ToSet(part);
      ghost var r := NewName(NameRun(s0, fulls, partials, None), key, variants);
      assert store.table == r.session.table;
      assert store.queries == r.session.queries;
      assert cache.Snapshot() == r.session.caches;
      NameStepCoherent(NameRun(s0, fulls, partials, None), n);
    }

    /**
     * `_compute_name_tokens`: the set of full-name ids and the set of
     * partial ids of the names, or the `KeyError` of the first name whose
     * analyzer is not configured.
     */
    method ComputeNameTokens(names: seq<PlaceName>) returns (res: Result<(set<TokenId>, set<TokenId>)>)
      requires Valid()
      modifies store, cache`names
      ensures Current() == NameTokens(old(Current()), names).session
      ensures res.Ok? <==> NameTokens(old(Current()), names).error.None?
      ensures res.Ok? ==> res.value.0 == NameTokens(old(Current()), names).fulls
      ensures res.Ok? ==> res.value.1 == NameTokens(old(Current()), names).partials
      ensures res.Err? ==> Some(res.error) == NameTokens(old(Current()), names).error
      ensures Valid()
    {
      ghost var s0 := Current();
      var fulls, partials := {}, {};
      var i := 0;
      while i < |names|
        invariant 0 <= i <= |names|
        invariant Valid()
        invariant NameTokens(s0, names[..i]).error.None?
        invariant Current() == NameTokens(s0, names[..i]).session
        invariant fulls == NameTokens(s0, names[..i]).fulls
        invariant partials == NameTokens(s0, names[..i]).partials
      {
        assert names[..i + 1][..i] == names[..i];
        ghost var r' := NameStep(NameTokens(s0, names[..i]), names[i]);
        assert NameTokens(s0, names[..i + 1]) == r';
        var error;
        error, fulls, partials := AddNameTokens(names[i], fulls, partials);
        if error.Some? {
          NameTokensAbort(s0, names, i + 1);
          assert NameTokens(s0, names) == r';
          return Err(error.value);
        }
        i := i + 1;
      }
      assert names[..i] == names;
      return Ok((fulls, partials));
    }

    // ------------------------------------------------------ address parts

    /** One address part of the loop of `_process_place_address`. */
    function AddressItem(r: AddressRun, item: PlaceName): AddressRun {
      match BucketOf(item)
      case PostcodeItem => r.(session := PostcodeStep(r.session, item.name))
      case HousenumberItem => r
      case StreetItem =>
        var (s', full) := FullStep(r.session, item.name);
        r.(session := s', streets := r.streets + full)
      case PlaceItem =>
        var (s', tokens) := PartialStep(r.session, item.name);
        r.(session := s', data := if tokens != [] then r.data["place" := Str(MkArray(tokens))] else r.data)
      case AddressTerm =>
        var (s', tokens) := PartialStep(r.session, item.name);
        r.(session := s', terms := r.terms + [(item.kind, tokens)])
      case Skipped => r
    }

    /** The loop of `_process_place_address`: the address parts in order. */
    function AddressItems(r: AddressRun, address: seq<PlaceName>): AddressRun
      decreases |address|
    {
      if address == [] then r
      else AddressItem(AddressItems(r, address[..|address| - 1]), address[|address| - 1])
    }

    /** `[self._make_standard_hnr(n) for n in hnrs]`. */
    function StandardHnrs(hnrs: seq<string>): seq<string> {
      seq(|hnrs|, i requires 0 <= i < |hnrs| => SearchNormalized(hnrs[i]))
    }

    /** `add_housenumbers` with the standardized housenumbers `std`, on the session and the token info. */
    function HnrStep(s: Session, data: map<string, InfoValue>, std: seq<string>): (Session, map<string, InfoValue>) {
      var l := HnrLookup(s.caches.housenumbers, s.table, std);
      (Session(s.caches.(housenumbers := l.cache), l.table, s.queries + l.calls),
       data["hnr_tokens" := Str(MkArray(l.tokens))]["hnr" := Str(Text.Join(";", std))])
    }

    /**
     * `_process_place_address` on the session and the token info `data`;
     * `split` is the order in which `_split_housenumbers` returned the
     * housenumbers.
     */
    function AddressStep(s: Session, data: map<string, InfoValue>, address: seq<PlaceName>, split: seq<string>): (Session, map<string, InfoValue>) {
      var r := AddressItems(AddressRun(s, data, [], []), address);
      var (s1, d1) := HnrPart(r.session, r.data, HousenumberNames(address), split);
      (s1, TermsAndStreets(d1, r.terms, r.streets))
    }

    /** `if hnrs: ... add_housenumbers(...)`, with `split` the housenumbers as `_split_housenumbers` returned them. */
    function HnrPart(s: Session, data: map<string, InfoValue>, hnrs: seq<string>, split: seq<string>): (Session, map<string, InfoValue>) {
      if hnrs == [] then (s, data) else HnrStep(s, data, StandardHnrs(split))
    }

    /** The end of `_process_place_address`: `add_address_terms` if there are terms, `add_street` if there are streets. */
    function TermsAndStreets(data: map<string, InfoValue>, terms: seq<(string, seq<TokenId>)>, streets: seq<TokenId>): map<string, InfoValue> {
      var d := if terms != [] && AddrDict(terms) != map[] then data["addr" := Dict(AddrDict(terms))] else data;
      if streets != [] then d["street" := Str(MkArray(streets))] else d
    }

    /** 'addr' is set exactly when some term has partial ids, 'street' exactly when there are street ids. */
    lemma {:induction false} TermsAndStreetsKeys(data: map<string, InfoValue>, terms: seq<(string, seq<TokenId>)>, streets: seq<TokenId>)
      ensures var d' := TermsAndStreets(data, terms, streets);
        && (forall k :: k != "addr" && k != "street" ==> (k in d' <==> k in data) && (k in data ==> d'[k] == data[k]))
        && ("street" in d' <==> "street" in data || streets != [])
        && (streets != [] ==> d'["street"] == Str(MkArray(streets)))
        && ("addr" in d' <==> "addr" in data || AddrDict(terms) != map[])
        && (AddrDict(terms) != map[] ==> d'["addr"] == Dict(AddrDict(terms)))
    {
      assert AddrDict(terms) != map[] ==> terms != [];
    }

    /** An id of some 'W' row of the table. */
    ghost predicate IsFullId(t: Table, x: TokenId) {
      exists tok :: tok in t.fullRows && x in t.fullRows[tok]
    }

    /**
     * One address part keeps the session coherent, changes only partial-word
     * and postcode rows and the partial, full-name and postcode caches, and
     * drops nothing from the postcode and full-name caches.
     */
    lemma {:induction false} AddressItemCoherent(r: AddressRun, item: PlaceName)
      requires Coherent(r.session)
      ensures var s, s' := r.session, AddressItem(r, item).session;
        && Coherent(s') && Grows(s.table, s'.table)
        && s'.table == s.table.(partialIds := s'.table.partialIds, postcodes := s'.table.postcodes, nextId := s'.table.nextId)
        && s'.caches == s.caches.(partials := s'.caches.partials, fulls := s'.caches.fulls, postcodes := s'.caches.postcodes)
        && s.caches.postcodes <= s'.caches.postcodes
        && s.caches.fulls.Keys <= s'.caches.fulls.Keys
    {
      match BucketOf(item)
      case PostcodeItem =>
        PostcodeStepCoherent(r.session, item.name);
      case StreetItem =>
        FullStepProperties(r.session, item.name);
      case PlaceItem =>
        PartialStepProperties(r.session, item.name);
      case AddressTerm =>
        PartialStepProperties(r.session, item.name);
      case _ =>
    }

    /** The address parts keep the session coherent and change only what one part may change. */
    lemma {:induction false} AddressItemsCoherent(r: AddressRun, address: seq<PlaceName>)
      requires Coherent(r.session)
      ensures var s, s' := r.session, AddressItems(r, address).session;
        && Coherent(s') && Grows(s.table, s'.table)
        && s'.table == s.table.(partialIds := s'.table.partialIds, postcodes := s'.table.postcodes, nextId := s'.table.nextId)
        && s'.caches == s.caches.(partials := s'.caches.partials, fulls := s'.caches.fulls, postcodes := s'.caches.postcodes)
        && s.caches.postcodes <= s'.caches.postcodes
        && s.caches.fulls.Keys <= s'.caches.fulls.Keys
      decreases |address|
    {
      if address != [] {
        var n := |address| - 1;
        AddressItemsCoherent(r, address[..n]);
        var r1 := AddressItems(r, address[..n]);
        AddressItemCoherent(r1, address[n]);
        GrowsTransitive(r.session.table, r1.session.table, AddressItem(r1, address[n]).session.table);
      }
    }

    /** Of the token info, the address parts set nothing but 'place', and that only for a place part. */
    lemma {:induction false} AddressItemsData(r: AddressRun, address: seq<PlaceName>)
      ensures var d, d' := r.data, AddressItems(r, address).data;
        && (forall k :: k != "place" ==> (k in d' <==> k in d) && (k in d ==> d'[k] == d[k]))
        && ("place" in d' ==> "place" in d || exists i :: 0 <= i < |address| && BucketOf(address[i]) == PlaceItem)
      decreases |address|
    {
      if address != [] {
        var n := |address| - 1;
        AddressItemsData(r, address[..n]);
        var r1 := AddressItems(r, address[..n]);
        if "place" in AddressItems(r, address).data && "place" !in r.data && BucketOf(address[n]) != PlaceItem {
          assert AddressItems(r, address).data == r1.data;
          var i :| 0 <= i < n && BucketOf(address[..n][i]) == PlaceItem;
          assert address[..n][i] == address[i];
        }
      }
    }

    /** The address terms are those of the general address parts, in order. */
    lemma {:induction false} AddressItemsTerms(r: AddressRun, address: seq<PlaceName>)
      ensures Kinds(AddressItems(r, address).terms) == Kinds(r.terms) + TermKinds(address)
      decreases |address|
    {
      if address != [] {
        var n := |address| - 1;
        AddressItemsTerms(r, address[..n]);
        var r1 := AddressItems(r, address[..n]);
        var r' := AddressItems(r, address);
        if BucketOf(address[n]) == AddressTerm {
          assert r'.terms == r1.terms + [r'.terms[|r1.terms|]];
          KindsSnoc(r1.terms, r'.terms[|r1.terms|]);
        } else {
          assert r'.terms == r1.terms;
        }
      }
    }

    /**
     * Every postcode part without ':', ',' or ';' whose search term is not
     * empty is afterwards cached and in the table.
     */
    lemma {:induction false} AddressItemsPostcodes(r: AddressRun, address: seq<PlaceName>)
      requires Coherent(r.session)
      ensures var s' := AddressItems(r, address).session;
        forall i :: 0 <= i < |address| && BucketOf(address[i]) == PostcodeItem
                    && Text.Avoids(address[i].name, IsPostcodeSep)
                    && SearchNormalized(NormalizePostcode(address[i].name)) != "" ==>
          NormalizePostcode(address[i].name) in s'.caches.postcodes
          && NormalizePostcode(address[i].name) in s'.table.postcodes
      decreases |address|
    {
      if address != [] {
        var n := |address| - 1;
        var init := address[..n];
        AddressItemsPostcodes(r, init);
        AddressItemsCoherent(r, init);
        var r1 := AddressItems(r, init);
        AddressItemCoherent(r1, address[n]);
        var s1, s' := r1.session, AddressItem(r1, address[n]).session;
        forall i | 0 <= i < |address| && BucketOf(address[i]) == PostcodeItem
                   && Text.Avoids(address[i].name, IsPostcodeSep)
                   && SearchNormalized(NormalizePostcode(address[i].name)) != ""
          ensures NormalizePostcode(address[i].name) in s'.caches.postcodes
                  && NormalizePostcode(address[i].name) in s'.table.postcodes
        {
          var pc := NormalizePostcode(address[i].name);
          if i < n {
            assert init[i] == address[i];
            assert pc in s1.caches.postcodes && pc in s1.table.postcodes;
            assert SubMap(s1.table.postcodes, s'.table.postcodes);
          } else {
            assert i == n;
            PostcodeStepAdds(s1, address[n].name);
            assert s' == PostcodeStep(s1, address[n].name);
          }
        }
      }
    }

    /** An id of a 'W' row stays one as the table grows. */
    lemma {:induction false} FullIdGrows(t: Table, t': Table, x: TokenId)
      requires Grows(t, t') && IsFullId(t, x)
      ensures IsFullId(t', x)
    {
      var tok :| tok in t.fullRows && x in t.fullRows[tok];
      assert t.fullRows[tok] <= t'.fullRows[tok];
    }

    /** One address part extends the street ids by ids of 'W' rows only. */
    lemma {:induction false} AddressItemStreets(r: AddressRun, item: PlaceName)
      requires Coherent(r.session)
      ensures var r' := AddressItem(r, item);
        && r.streets <= r'.streets
        && (forall j :: |r.streets| <= j < |r'.streets| ==> IsFullId(r'.session.table, r'.streets[j]))
        && (BucketOf(item) == StreetItem ==> SearchNormalized(item.name) in r'.session.caches.fulls)
    {
      if BucketOf(item) == StreetItem {
        FullStepProperties(r.session, item.name);
        var t, norm := r.session.table, SearchNormalized(item.name);
        var full := FullStep(r.session, item.name).1;
        var r' := AddressItem(r, item);
        assert r'.streets == r.streets + full && r'.session.table == t;
        forall j | |r.streets| <= j < |r'.streets| ensures IsFullId(t, r'.streets[j]) {
          assert r'.streets[j] == full[j - |r.streets|];
          assert full <= FullTokens(t, norm);
        }
      }
    }

    /** The street ids extend the list, every new one an id of a 'W' row. */
    lemma {:induction false} AddressItemsStreets(r: AddressRun, address: seq<PlaceName>)
      requires Coherent(r.session)
      ensures var r' := AddressItems(r, address);
        && r.streets <= r'.streets
        && (forall j :: |r.streets| <= j < |r'.streets| ==> IsFullId(r'.session.table, r'.streets[j]))
      decreases |address|
    {
      if address != [] {
        var n := |address| - 1;
        AddressItemsStreets(r, address[..n]);
        AddressItemsCoherent(r, address[..n]);
        var r1 := AddressItems(r, address[..n]);
        var r' := AddressItem(r1, address[n]);
        AddressItemCoherent(r1, address[n]);
        AddressItemStreets(r1, address[n]);
        forall j | |r.streets| <= j < |r'.streets| ensures IsFullId(r'.session.table, r'.streets[j]) {
          if j < |r1.streets| {
            assert r'.streets[j] == r1.streets[j];
            FullIdGrows(r1.session.table, r'.session.table, r1.streets[j]);
          }
        }
      }
    }

    /** Every street name is afterwards in the full-name cache. */
    lemma {:induction false} AddressItemsStreetsCached(r: AddressRun, address: seq<PlaceName>)
      requires Coherent(r.session)
      ensures var r' := AddressItems(r, address);
        forall i :: 0 <= i < |address| && BucketOf(address[i]) == StreetItem ==>
          SearchNormalized(address[i].name) in r'.session.caches.fulls
      decreases |address|
    {
      if address != [] {
        var n := |address| - 1;
        var init := address[..n];
        AddressItemsStreetsCached(r, init);
        AddressItemsCoherent(r, init);
        var r1 := AddressItems(r, init);
        AddressItemCoherent(r1, address[n]);
        AddressItemStreets(r1, address[n]);
        forall i | 0 <= i < |address| && BucketOf(address[i]) == StreetItem
          ensures SearchNormalized(address[i].name) in AddressItem(r1, address[n]).session.caches.fulls
        {
          if i < n {
            assert init[i] == address[i];
          } else {
            assert i == n;
          }
        }
      }
    }

    /**
     * `_process_place_address` keeps the session coherent and changes only
     * partial-word, housenumber and postcode rows; the name cache is untouched.
     */
    lemma {:induction false} AddressStepCoherent(s: Session, data: map<string, InfoValue>, address: seq<PlaceName>, split: seq<string>)
      requires Coherent(s)
      ensures var s' := AddressStep(s, data, address, split).0;
        && Coherent(s') && Grows(s.table, s'.table)
        && s'.table == s.table.(partialIds := s'.table.partialIds, hnrIds := s'.table.hnrIds,
                                postcodes := s'.table.postcodes, nextId := s'.table.nextId)
        && s'.caches.names == s.caches.names
    {
      var r := AddressItems(AddressRun(s, data, [], []), address);
      AddressItemsCoherent(AddressRun(s, data, [], []), address);
      if HousenumberNames(address) != [] {
        var std := StandardHnrs(split);
        HnrLookupCoherent(r.session.caches, r.session.table, std);
        var l := HnrLookup(r.session.caches.housenumbers, r.session.table, std);
        assert AddressStep(s, data, address, split).0 == HnrStep(r.session, r.data, std).0;
        GrowsTransitive(s.table, r.session.table, l.table);
      } else {
        assert AddressStep(s, data, address, split).0 == r.session;
      }
    }

    /**
     * Of the token info, `_process_place_address` sets only the address
     * keys: 'hnr' and 'hnr_tokens' exactly when there are housenumbers,
     * 'street' exactly when some street gave ids, 'addr' exactly when some
     * address term gave partial ids, and 'place' as the place parts do.
     */
    lemma {:induction false} AddressStepData(s: Session, data: map<string, InfoValue>, address: seq<PlaceName>, split: seq<string>)
      ensures var d' := AddressStep(s, data, address, split).1;
        var r := AddressItems(AddressRun(s, data, [], []), address);
        && (forall k :: k !in AddressKeys ==> (k in d' <==> k in data) && (k in data ==> d'[k] == data[k]))
        && (HousenumberNames(address) != [] ==>
              && "hnr_tokens" in d'
              && "hnr" in d' && d'["hnr"] == Str(Text.Join(";", StandardHnrs(split))))
        && (HousenumberNames(address) == [] ==>
              && ("hnr" in d' <==> "hnr" in data) && ("hnr_tokens" in d' <==> "hnr_tokens" in data))
        && ("street" in d' <==> "street" in data || r.streets != [])
        && (r.streets != [] ==> d'["street"] == Str(MkArray(r.streets)))
        && ("addr" in d' <==> "addr" in data || AddrDict(r.terms) != map[])
        && (AddrDict(r.terms) != map[] ==> d'["addr"] == Dict(AddrDict(r.terms)))
        && ("place" in d' <==> "place" in r.data)
    {
      AddressItemsData(AddressRun(s, data, [], []), address);
      var r := AddressItems(AddressRun(s, data, [], []), address);
      var d1 := HnrPart(r.session, r.data, HousenumberNames(address), split).1;
      HnrPartKeys(r.session, r.data, HousenumberNames(address), split);
      assert AddressStep(s, data, address, split).1 == TermsAndStreets(d1, r.terms, r.streets);
      TermsAndStreetsKeys(d1, r.terms, r.streets);
    }

    /** The housenumber part sets 'hnr' and 'hnr_tokens' when there are housenumbers, and nothing else. */
    lemma {:induction false} HnrPartKeys(s: Session, data: map<string, InfoValue>, hnrs: seq<string>, split: seq<string>)
      ensures var d' := HnrPart(s, data, hnrs, split).1;
        && (forall k :: k != "hnr" && k != "hnr_tokens" ==> (k in d' <==> k in data) && (k in data ==> d'[k] == data[k]))
        && (hnrs != [] ==> "hnr_tokens" in d' && "hnr" in d' && d'["hnr"] == Str(Text.Join(";", StandardHnrs(split))))
        && (hnrs == [] ==> d' == data)
    {
      if hnrs != [] {
        var std := StandardHnrs(split);
        var l := HnrLookup(s.caches.housenumbers, s.table, std);
        assert HnrPart(s, data, hnrs, split).1 == data["hnr_tokens" := Str(MkArray(l.tokens))]["hnr" := Str(Text.Join(";", std))];
      }
    }

    /** `_process_place_address` adds only address keys and keeps 'names'. */
    lemma {:induction false} AddressStepKeys(s: Session, data: map<string, InfoValue>, address: seq<PlaceName>, split: seq<string>)
      ensures var d' := AddressStep(s, data, address, split).1;
        && (forall k :: k in d' ==> k in data || k in AddressKeys)
        && ("names" in d' <==> "names" in data)
        && ("names" in data ==> d'["names"] == data["names"])
    {
      AddressStepData(s, data, address, split);
      assert "names" !in AddressKeys;
    }

    /** After `add_housenumbers`, 'hnr_tokens' reads back as the table ids of the housenumbers. */
    lemma {:induction false} HnrStepTokens(s: Session, data: map<string, InfoValue>, std: seq<string>)
      requires Coherent(s)
      ensures var (s', d') := HnrStep(s, data, std);
        && (forall h :: h in std ==> h in s'.table.hnrIds)
        && "hnr_tokens" in d' && d'["hnr_tokens"].Str?
        && ParseArray(d'["hnr_tokens"].s).Some?
        && multiset(ParseArray(d'["hnr_tokens"].s).value) == multiset(Lookup(s'.table.hnrIds, std))
    {
      var l := HnrLookup(s.caches.housenumbers, s.table, std);
      HnrLookupTokens(s.caches.housenumbers, s.table, std);
      MkArrayRoundTrip(l.tokens);
      var d' := HnrStep(s, data, std).1;
      assert d'["hnr_tokens"] == Str(MkArray(l.tokens));
    }

    /**
     * With housenumbers, 'hnr_tokens' reads back as one table id per
     * standardized housenumber, and every one of them is in the table.
     */
    lemma {:induction false} AddressStepHnrTokens(s: Session, data: map<string, InfoValue>, address: seq<PlaceName>, split: seq<string>)
      requires Coherent(s) && HousenumberNames(address) != []
      ensures var (s', d') := AddressStep(s, data, address, split);
        var std := StandardHnrs(split);
        && (forall h :: h in std ==> h in s'.table.hnrIds)
        && "hnr_tokens" in d' && d'["hnr_tokens"].Str?
        && ParseArray(d'["hnr_tokens"].s).Some?
        && multiset(ParseArray(d'["hnr_tokens"].s).value) == multiset(Lookup(s'.table.hnrIds, std))
    {
      var r := AddressItems(AddressRun(s, data, [], []), address);
      AddressItemsCoherent(AddressRun(s, data, [], []), address);
      var std := StandardHnrs(split);
      var h := HnrStep(r.session, r.data, std);
      HnrStepTokens(r.session, r.data, std);
      TermsAndStreetsKeys(h.1, r.terms, r.streets);
      assert AddressStep(s, data, address, split) == (h.0, TermsAndStreets(h.1, r.terms, r.streets));
    }

    /** The 'addr' dictionary has only kinds of general address parts as keys. */
    lemma {:induction false} AddressStepAddrKinds(s: Session, data: map<string, InfoValue>, address: seq<PlaceName>, split: seq<string>)
      ensures var d' := AddressStep(s, data, address, split).1;
        "addr" in d' && "addr" !in data ==> d'["addr"].Dict? && forall k :: k in d'["addr"].d ==> k in TermKinds(address)
    {
      var r := AddressItems(AddressRun(s, data, [], []), address);
      AddressStepData(s, data, address, split);
      AddressItemsTerms(AddressRun(s, data, [], []), address);
      AddrDictKeys(r.terms);
      var d' := AddressStep(s, data, address, split).1;
      if "addr" in d' && "addr" !in data {
        forall k | k in AddrDict(r.terms) ensures k in TermKinds(address) {
          var i :| 0 <= i < |r.terms| && r.terms[i].0 == k && r.terms[i].1 != [];
          assert Kinds(r.terms)[i] == k;
        }
      }
    }

    /** The body of the loop of `_process_place_address`, for one address part. */
    method ProcessAddressItem(info: TokenInfo, item: PlaceName, hnrs: seq<string>,
                              terms: seq<(string, seq<TokenId>)>, streets: seq<TokenId>)
      returns (hnrs': seq<string>, terms': seq<(string, seq<TokenId>)>, streets': seq<TokenId>)
      requires Valid() && info.cache == cache
      modifies store, cache`partials, cache`fulls, cache`postcodes, info`data
      ensures Current() == AddressItem(AddressRun(old(Current()), old(info.data), terms, streets), item).session
      ensures info.data == AddressItem(AddressRun(old(Current()), old(info.data), terms, streets), item).data
      ensures terms' == AddressItem(AddressRun(old(Current()), old(info.data), terms, streets), item).terms
      ensures streets' == AddressItem(AddressRun(old(Current()), old(info.data), terms, streets), item).streets
      ensures hnrs' == hnrs + (if BucketOf(item) == HousenumberItem then [item.name] else [])
      ensures Valid()
    {
      hnrs', terms', streets' := hnrs, terms, streets;
      if item.kind == "postcode" {
        AddPostcode(item.name);
      } else if IsHousenumberKind(item.kind) {
        hnrs' := hnrs + [item.name];
      } else if item.kind == "street" {
        var full := RetrieveFullTokens(item.name);
        streets' := streets + full;
      } else if item.kind == "place" {
        if !HasSuffix(item) {
          var tokens := ComputePartialTokens(item.name);
          info.AddPlace(tokens);
        }
      } else if !IsInternalKind(item.kind) && !HasSuffix(item) && item.kind != "country" && item.kind != "full" {
        var tokens := ComputePartialTokens(item.name);
        terms' := terms + [(item.kind, tokens)];
      }
    }

    /** The loop of `_process_place_address`. */
    method ProcessAddressItems(info: TokenInfo, address: seq<PlaceName>)
      returns (hnrs: seq<string>, terms: seq<(string, seq<TokenId>)>, streets: seq<TokenId>)
      requires Valid() && info.cache == cache
      modifies store, cache`partials, cache`fulls, cache`postcodes, info`data
      ensures Current() == AddressItems(AddressRun(old(Current()), old(info.data), [], []), address).session
      ensures info.data == AddressItems(AddressRun(old(Current()), old(info.data), [], []), address).data
      ensures terms == AddressItems(AddressRun(old(Current()), old(info.data), [], []), address).terms
      ensures streets == AddressItems(AddressRun(old(Current()), old(info.data), [], []), address).streets
      ensures hnrs == HousenumberNames(address)
      ensures Valid()
    {
      ghost var s0, d0 := Current(), info.data;
      hnrs, terms, streets := [], [], [];
      var i := 0;
      while i < |address|
        invariant 0 <= i <= |address|
        invariant Valid()
        invariant Current() == AddressItems(AddressRun(s0, d0, [], []), address[..i]).session
        invariant info.data == AddressItems(AddressRun(s0, d0, [], []), address[..i]).data
        invariant terms == AddressItems(AddressRun(s0, d0, [], []), address[..i]).terms
        invariant streets == AddressItems(AddressRun(s0, d0, [], []), address[..i]).streets
        invariant hnrs == HousenumberNames(address[..i])
      {
        assert address[..i + 1][..i] == address[..i];
        hnrs, terms, streets := ProcessAddressItem(info, address[i], hnrs, terms, streets);
        i := i + 1;
      }
      assert address[..i] == address;
    }

    /** The housenumbers of `_process_place_address`, once split: standardized and added. */
    method ProcessHousenumbers(info: TokenInfo, simple: seq<string>)
      requires Valid() && info.cache == cache
      modifies store, cache`housenumbers, info`data
      ensures cache.Snapshot() == HnrStep(old(Current()), old(info.data), StandardHnrs(simple)).0.caches
      ensures store.table == HnrStep(old(Current()), old(info.data), StandardHnrs(simple)).0.table
      ensures store.queries == HnrStep(old(Current()), old(info.data), StandardHnrs(simple)).0.queries
      ensures info.data == HnrStep(old(Current()), old(info.data), StandardHnrs(simple)).1
      ensures Valid()
    {
      ghost var s0 := Current();
      var std := StandardHnrs(simple);
      info.AddHousenumbers(store, std);
      HnrLookupCoherent(s0.caches, s0.table, std);
    }

    /** The housenumber part of `_process_place_address`: nothing without housenumbers. */
    method ProcessHousenumberList(info: TokenInfo, hnrs: seq<string>) returns (ghost split: seq<string>)
      requires Valid() && info.cache == cache
      modifies store, cache`housenumbers, info`data
      ensures hnrs != [] ==> IsHnrSplit(hnrs, split)
      ensures cache.Snapshot() == HnrPart(old(Current()), old(info.data), hnrs, split).0.caches
      ensures store.table == HnrPart(old(Current()), old(info.data), hnrs, split).0.table
      ensures store.queries == HnrPart(old(Current()), old(info.data), hnrs, split).0.queries
      ensures info.data == HnrPart(old(Current()), old(info.data), hnrs, split).1
      ensures Valid()
    {
      split := [];
      if hnrs != [] {
        var simple := SplitHousenumbers(hnrs);
        split := simple;
        ProcessHousenumbers(info, simple);
      }
    }

    /** The end of `_process_place_address`: the address terms, then the streets. */
    method AddTermsAndStreets(info: TokenInfo, terms: seq<(string, seq<TokenId>)>, streets: seq<TokenId>)
      modifies info`data
      ensures info.data == TermsAndStreets(old(info.data), terms, streets)
    {
      if terms != [] {
        info.AddAddressTerms(terms);
      }
      if streets != [] {
        info.AddStreet(streets);
      }
    }

    /** `_process_place_address`; `split` is the order `_split_housenumbers` chose. */
    method ProcessPlaceAddress(info: TokenInfo, address: seq<PlaceName>) returns (ghost split: seq<string>)
      requires Valid() && info.cache == cache
      modifies store, cache`partials, cache`fulls, cache`postcodes, cache`housenumbers, info`data
      ensures HousenumberNames(address) != [] ==> IsHnrSplit(HousenumberNames(address), split)
      ensures Current() == AddressStep(old(Current()), old(info.data), address, split).0
      ensures info.data == AddressStep(old(Current()), old(info.data), address, split).1
      ensures Valid()
    {
      ghost var s0, d0 := Current(), info.data;
      var hnrs, terms, streets := ProcessAddressItems(info, address);
      ghost var r := AddressItems(AddressRun(s0, d0, [], []), address);
      split := ProcessHousenumberList(info, hnrs);
      ghost var h := HnrPart(r.session, r.data, hnrs, split);
      assert Current() == h.0;
      AddTermsAndStreets(info, terms, streets);
    }

    // -------------------------------------------------------- country names

    /** The non-empty search terms of the names, the set `word_tokens`. */
    function CountryNameTokens(names: seq<PlaceName>): (r: set<string>)
      ensures "" !in r
      decreases |names|
    {
      if names == [] then {}
      else
        var term := SearchNormalized(names[|names| - 1].name);
        CountryNameTokens(names[..|names| - 1]) + (if term != "" then {term} else {})
    }

    /** `_add_country_full_names` on the session: read the country's tokens, insert the missing ones. */
    function CountryStep(s: Session, cc: string, names: seq<PlaceName>): Session {
      var missing := CountryNameTokens(names) - CountryTokens(s.table, cc);
      if missing == {} then s.(queries := s.queries + 1)
      else s.(table := InsertCountryTokens(s.table, cc, missing), queries := s.queries + 2)
    }

    /**
     * Afterwards the country has all the names' tokens, no other country
     * changes, no token is removed, and nothing but country rows changes.
     */
    lemma {:induction false} CountryStepProperties(s: Session, cc: string, names: seq<PlaceName>)
      requires Coherent(s)
      ensures var s' := CountryStep(s, cc, names);
        && Coherent(s') && Grows(s.table, s'.table) && s'.caches == s.caches
        && CountryTokens(s'.table, cc) == CountryTokens(s.table, cc) + CountryNameTokens(names)
        && (forall c :: c != cc ==> CountryTokens(s'.table, c) == CountryTokens(s.table, c))
        && s'.table == s.table.(countries := s'.table.countries)
    {
      var s' := CountryStep(s, cc, names);
      var old_, new_ := CountryTokens(s.table, cc), CountryNameTokens(names);
      var missing := new_ - old_;
      if missing == {} {
        assert s'.table == s.table;
        assert old_ + new_ == old_;
      } else {
        var t' := InsertCountryTokens(s.table, cc, missing);
        assert s'.table == t';
        assert old_ + missing == old_ + new_;
        CountryCoherent(s.caches, s.table, cc, missing);
      }
    }

    /** A second run with the same names finds nothing missing: it makes only the SELECT and issues no INSERT. */
    lemma {:induction false} CountryStepTwice(s: Session, cc: string, names: seq<PlaceName>)
      ensures var s' := CountryStep(s, cc, names);
        && CountryNameTokens(names) - CountryTokens(s'.table, cc) == {}
        && CountryStep(s', cc, names) == s'.(queries := s'.queries + 1)
    {
    }

    /** The first loop of `_add_country_full_names`: the set of non-empty search terms. */
    method CollectCountryTokens(names: seq<PlaceName>) returns (wordTokens: set<string>)
      ensures wordTokens == CountryNameTokens(names)
    {
      wordTokens := {};
      var i := 0;
      while i < |names|
        invariant 0 <= i <= |names|
        invariant wordTokens == CountryNameTokens(names[..i])
      {
        assert names[..i + 1][..i] == names[..i];
        var normName := SearchNormalized(names[i].name);
        if normName != "" {
          wordTokens := wordTokens + {normName};
        }
        i := i + 1;
      }
      assert names[..i] == names;
    }

    /** `_add_country_full_names`. */
    method AddCountryFullNames(cc: string, names: seq<PlaceName>)
      requires Valid()
      modifies store
      ensures Current() == CountryStep(old(Current()), cc, names)
      ensures Valid()
    {
      ghost var s0 := Current();
      ghost var s1 := CountryStep(s0, cc, names);
      var wordTokens := CollectCountryTokens(names);
      var existing := store.ReadCountryTokens(cc);
      wordTokens := wordTokens - existing;
      if wordTokens != {} {
        store.AddCountryTokens(cc, wordTokens);
        assert store.table == s1.table;
        assert store.queries == s1.queries;
      } else {
        assert store.table == s1.table;
        assert store.queries == s1.queries;
      }
      assert cache.Snapshot() == s1.caches;
      CountryStepProperties(s0, cc, names);
    }

    // ------------------------------------------------------ special phrases

    /** `norm_phrases`: the phrases with their phrase text normalized, as a set. */
    function NormPhrases(phrases: seq<Phrase>): set<Phrase> {
      set i | 0 <= i < |phrases| :: phrases[i].(word := Normalized(phrases[i].word))
    }

    /** The phrases of `ps` whose search term is not empty: those that get a row. */
    function WithTerm(ps: set<Phrase>): set<Phrase> {
      set p | p in ps && SearchNormalized(p.word) != ""
    }

    /** The rows the loop of `_add_special_phrases` writes, visiting the phrases in the order `order`. */
    function PhraseRows(order: seq<Phrase>): seq<PhraseRow>
      decreases |order|
    {
      if order == [] then []
      else
        var p := order[|order| - 1];
        var term := SearchNormalized(p.word);
        PhraseRows(order[..|order| - 1]) + (if term != "" then [NewPhraseRow(p, term)] else [])
    }

    /** One row per phrase with a search term: the count `added` is the number of rows written. */
    lemma {:induction false} PhraseRowsCount(order: seq<Phrase>)
      requires NoDups(order)
      ensures |PhraseRows(order)| == |WithTerm(ToSet(order))|
      decreases |order|
    {
      if order != [] {
        var n := |order| - 1;
        var init, p := order[..n], order[n];
        assert NoDups(init);
        PhraseRowsCount(init);
        assert order == init + [p];
        ToSetSnoc(init, p);
        assert p !in ToSet(init);
        if SearchNormalized(p.word) != "" {
          assert WithTerm(ToSet(order)) == WithTerm(ToSet(init)) + {p};
        } else {
          assert WithTerm(ToSet(order)) == WithTerm(ToSet(init));
        }
      }
    }

    /** The rows written read back as the stored forms of the phrases with a search term. */
    lemma {:induction false} PhraseRowsKeys(order: seq<Phrase>)
      ensures ExistingPhrases(PhraseRows(order)) == (set p | p in WithTerm(ToSet(order)) :: StoredPhrase(p))
      ensures NoEmptyOps(PhraseRows(order))
      decreases |order|
    {
      if order != [] {
        var n := |order| - 1;
        var init, p := order[..n], order[n];
        var term := SearchNormalized(p.word);
        var last := if term != "" then [NewPhraseRow(p, term)] else [];
        PhraseRowsKeys(init);
        assert order == init + [p];
        ToSetSnoc(init, p);
        ExistingPhrasesConcat(PhraseRows(init), last);
        NewPhraseRowKey(p, term);
        if term != "" {
          assert ExistingPhrases(last) == {StoredPhrase(p)};
          assert WithTerm(ToSet(order)) == WithTerm(ToSet(init)) + {p};
        } else {
          assert ExistingPhrases(last) == {};
          assert WithTerm(ToSet(order)) == WithTerm(ToSet(init));
        }
        assert NoEmptyOps(last);
      }
    }

    /**
     * `update_special_phrases` on the table: read the existing phrases, add
     * the new phrases missing from them (in the order `order`), and, when
     * replacing, delete the existing phrases missing from the new ones.
     */
    function PhraseUpdate(t: Table, phrases: seq<Phrase>, shouldReplace: bool, order: seq<Phrase>): PhraseOutcome {
      var norm, existing := NormPhrases(phrases), ExistingPhrases(t.phrases);
      var t1 := t.(phrases := t.phrases + PhraseRows(order));
      var added, del := |WithTerm(norm - existing)|, existing - norm;
      if !shouldReplace then PhraseOutcome(t1, 2, added, 0)
      else if del == {} then PhraseOutcome(t1, 2, added, 0)
      else PhraseOutcome(t1.(phrases := RowsWithout(t1.phrases, del)), 3, added, |del|)
    }

    /** `order` visits the phrases `_add_special_phrases` adds. */
    ghost predicate AddOrder(t: Table, phrases: seq<Phrase>, order: seq<Phrase>) {
      NoDups(order) && ToSet(order) == NormPhrases(phrases) - ExistingPhrases(t.phrases)
    }

    /**
     * The counts: `added` rows are appended, and `deleted` is the number of
     * existing phrases that are not among the new ones when replacing, 0
     * otherwise. Only phrase rows change.
     */
    lemma {:induction false} PhraseUpdateCounts(t: Table, phrases: seq<Phrase>, shouldReplace: bool, order: seq<Phrase>)
      requires AddOrder(t, phrases, order)
      ensures var r := PhraseUpdate(t, phrases, shouldReplace, order);
        var norm, existing := NormPhrases(phrases), ExistingPhrases(t.phrases);
        && r.table == t.(phrases := r.table.phrases)
        && r.added == |WithTerm(norm - existing)| == |PhraseRows(order)|
        && r.deleted == (if shouldReplace then |existing - norm| else 0)
        && (shouldReplace && existing - norm != {} ==> r.table.phrases == RowsWithout(t.phrases + PhraseRows(order), existing - norm))
        && (!shouldReplace || existing - norm == {} ==> r.table.phrases == t.phrases + PhraseRows(order))
    {
      PhraseRowsCount(order);
    }

    /**
     * Without replacing, no row goes: the old rows stay in front, and the
     * phrases afterwards are the old ones plus the stored forms of the new
     * phrases that have search terms.
     */
    lemma {:induction false} PhraseUpdateAppends(t: Table, phrases: seq<Phrase>, order: seq<Phrase>)
      requires AddOrder(t, phrases, order)
      ensures var t' := PhraseUpdate(t, phrases, false, order).table;
        var norm, existing := NormPhrases(phrases), ExistingPhrases(t.phrases);
        && t'.phrases[..|t.phrases|] == t.phrases
        && ExistingPhrases(t'.phrases) == existing + (set p | p in WithTerm(norm - existing) :: StoredPhrase(p))
    {
      var rows := PhraseRows(order);
      assert (t.phrases + rows)[..|t.phrases|] == t.phrases;
      ExistingPhrasesConcat(t.phrases, rows);
      PhraseRowsKeys(order);
    }

    /**
     * When replacing, with operators that a row round-trips and no stored
     * empty operator, the phrases afterwards are the existing phrases that
     * are still wanted and the wanted ones with a search term.
     */
    lemma {:induction false} PhraseUpdateReplaces(t: Table, phrases: seq<Phrase>, order: seq<Phrase>)
      requires AddOrder(t, phrases, order) && NoEmptyOps(t.phrases)
      requires forall p :: p in NormPhrases(phrases) ==> KnownOp(p)
      ensures var t' := PhraseUpdate(t, phrases, true, order).table;
        var norm, existing := NormPhrases(phrases), ExistingPhrases(t.phrases);
        && ExistingPhrases(t'.phrases) == (existing * norm) + WithTerm(norm - existing)
        && NoEmptyOps(t'.phrases)
    {
      var norm, existing := NormPhrases(phrases), ExistingPhrases(t.phrases);
      var rows := PhraseRows(order);
      var del := existing - norm;
      var added := WithTerm(norm - existing);
      PhraseRowsKeys(order);
      StoredKnown(added);
      ReplaceRows(t.phrases, rows, norm, added);
      assert PhraseUpdate(t, phrases, true, order).table.phrases
          == if del == {} then t.phrases + rows else RowsWithout(t.phrases + rows, del);
    }

    /**
     * A second run with the same phrases adds nothing, deletes nothing and
     * leaves the phrase rows as they are, when the operators round-trip and
     * no empty operator is stored.
     */
    lemma {:induction false} PhraseUpdateTwice(t: Table, phrases: seq<Phrase>, shouldReplace: bool,
                                               order: seq<Phrase>, order2: seq<Phrase>)
      requires AddOrder(t, phrases, order) && NoEmptyOps(t.phrases)
      requires forall p :: p in NormPhrases(phrases) ==> KnownOp(p)
      requires AddOrder(PhraseUpdate(t, phrases, shouldReplace, order).table, phrases, order2)
      ensures var t' := PhraseUpdate(t, phrases, shouldReplace, order).table;
        var r := PhraseUpdate(t', phrases, shouldReplace, order2);
        r.added == 0 && r.deleted == 0 && r.table == t'
    {
      var norm, existing := NormPhrases(phrases), ExistingPhrases(t.phrases);
      var t' := PhraseUpdate(t, phrases, shouldReplace, order).table;
      var added := WithTerm(norm - existing);
      var existing' := if shouldReplace then (existing * norm) + added else existing + added;
      if shouldReplace {
        PhraseUpdateReplaces(t, phrases, order);
      } else {
        PhraseUpdateAppends(t, phrases, order);
        StoredKnown(added);
      }
      assert ExistingPhrases(t'.phrases) == existing';
      WithTermNone(norm - existing', norm - existing);
      assert shouldReplace ==> existing' <= norm;
      PhraseUpdateSettled(t', phrases, shouldReplace, order2);
    }

    /**
     * When every wanted phrase with a search term is there and, when
     * replacing, nothing unwanted is, an update changes nothing.
     */
    lemma {:induction false} PhraseUpdateSettled(t: Table, phrases: seq<Phrase>, shouldReplace: bool, order: seq<Phrase>)
      requires AddOrder(t, phrases, order)
      requires WithTerm(NormPhrases(phrases) - ExistingPhrases(t.phrases)) == {}
      requires shouldReplace ==> ExistingPhrases(t.phrases) <= NormPhrases(phrases)
      ensures var r := PhraseUpdate(t, phrases, shouldReplace, order);
        r.added == 0 && r.deleted == 0 && r.table == t
    {
      PhraseRowsNone(order);
      assert t.phrases + [] == t.phrases;
    }

    /** Once the phrases with a search term are taken, no phrase with one is left. */
    lemma {:induction false} WithTermNone(ps: set<Phrase>, qs: set<Phrase>)
      requires ps <= qs - WithTerm(qs)
      ensures WithTerm(ps) == {}
    {
      forall p | p in ps ensures SearchNormalized(p.word) == "" {
        assert p !in WithTerm(qs);
      }
    }

    /** No row is written when no phrase to add has a search term. */
    lemma {:induction false} PhraseRowsNone(order: seq<Phrase>)
      requires NoDups(order) && WithTerm(ToSet(order)) == {}
      ensures PhraseRows(order) == []
    {
      PhraseRowsCount(order);
    }

    /**
     * A phrase whose operator is neither 'in', 'near' nor '-' is stored
     * with '-' and so never reads back as itself: while it is not in the
     * table, every run adds it again.
     */
    lemma {:induction false} PhraseUpdateOddOperator(t: Table, phrases: seq<Phrase>, shouldReplace: bool, order: seq<Phrase>, p: Phrase)
      requires AddOrder(t, phrases, order)
      requires p in NormPhrases(phrases) && !KnownOp(p) && SearchNormalized(p.word) != ""
      requires p !in ExistingPhrases(t.phrases)
      ensures p !in ExistingPhrases(PhraseUpdate(t, phrases, shouldReplace, order).table.phrases)
    {
      var norm, existing := NormPhrases(phrases), ExistingPhrases(t.phrases);
      var rows := PhraseRows(order);
      ExistingPhrasesConcat(t.phrases, rows);
      PhraseRowsKeys(order);
      forall q | q in WithTerm(ToSet(order)) ensures StoredPhrase(q) != p {
      }
      var all := t.phrases + rows;
      assert p !in ExistingPhrases(all);
      var del := existing - norm;
      if shouldReplace && del != {} {
        forall r | r in RowsWithout(all, del) ensures RowKey(r) != p {
          assert r in all && RowKey(r) in ExistingPhrases(all);
        }
      }
    }

    /** The loop of `_add_special_phrases`: the rows to copy, and their number. */
    method CollectPhraseRows(order: seq<Phrase>) returns (rows: seq<PhraseRow>, added: nat)
      ensures rows == PhraseRows(order) && added == |rows|
    {
      rows, added := [], 0;
      var i := 0;
      while i < |order|
        invariant 0 <= i <= |order|
        invariant rows == PhraseRows(order[..i]) && added == |rows|
      {
        assert order[..i + 1][..i] == order[..i];
        var p := order[i];
        var term := SearchNormalized(p.word);
        if term != "" {
          rows := rows + [NewPhraseRow(p, term)];
          added := added + 1;
        }
        i := i + 1;
      }
      assert order[..i] == order;
    }

    /**
     * `_add_special_phrases`: one row for every new phrase that is not there
     * yet and has a search term; `order` is the order the set `to_add` is
     * visited in.
     */
    method AddSpecialPhrases(newPhrases: set<Phrase>, existing: set<Phrase>) returns (added: nat, ghost order: seq<Phrase>)
      requires Valid()
      modifies store
      ensures NoDups(order) && ToSet(order) == newPhrases - existing
      ensures added == |WithTerm(newPhrases - existing)|
      ensures store.table == old(store.table).(phrases := old(store.table).phrases + PhraseRows(order))
      ensures store.queries == old(store.queries) + 1
      ensures Valid()
    {
      ghost var t0 := store.table;
      var toAdd := Enumerate(newPhrases - existing);
      order := toAdd;
      var rows;
      rows, added := CollectPhraseRows(toAdd);
      store.AppendPhrases(rows);
      PhraseRowsCount(toAdd);
      CoherenceGrows(cache.Snapshot(), t0, store.table);
    }

    /** `_remove_special_phrases`: delete the existing phrases that are not among the new ones. */
    method RemoveSpecialPhrases(newPhrases: set<Phrase>, existing: set<Phrase>) returns (deleted: nat)
      requires Valid()
      modifies store
      ensures deleted == |existing - newPhrases|
      ensures existing - newPhrases != {} ==>
        && store.table == old(store.table).(phrases := RowsWithout(old(store.table).phrases, existing - newPhrases))
        && store.queries == old(store.queries) + 1
      ensures existing - newPhrases == {} ==> store.table == old(store.table) && store.queries == old(store.queries)
      ensures Valid()
    {
      ghost var t0 := store.table;
      var toDelete := existing - newPhrases;
      if toDelete != {} {
        store.DeletePhrases(toDelete);
        CoherenceGrows(cache.Snapshot(), t0, store.table);
      }
      deleted := |toDelete|;
    }

    /**
     * `update_special_phrases`: the numbers of phrases added and deleted;
     * `order` is the order the phrases to add are visited in.
     */
    method UpdateSpecialPhrases(phrases: seq<Phrase>, shouldReplace: bool) returns (added: nat, deleted: nat, ghost order: seq<Phrase>)
      requires Valid()
      modifies store
      ensures AddOrder(old(store.table), phrases, order)
      ensures store.table == PhraseUpdate(old(store.table), phrases, shouldReplace, order).table
      ensures store.queries == old(store.queries) + PhraseUpdate(old(store.table), phrases, shouldReplace, order).calls
      ensures added == PhraseUpdate(old(store.table), phrases, shouldReplace, order).added
      ensures deleted == PhraseUpdate(old(store.table), phrases, shouldReplace, order).deleted
      ensures Valid()
    {
      ghost var t0, q0 := store.table, store.queries;
      var normPhrases := NormPhrases(phrases);
      var rows := store.ReadPhrases();
      var existing := CollectExisting(rows);
      added, order := AddSpecialPhrases(normPhrases, existing);
      ghost var t1 := store.table;
      if shouldReplace {
        deleted := RemoveSpecialPhrases(normPhrases, existing);
      } else {
        deleted := 0;
      }
      ghost var r := PhraseUpdate(t0, phrases, shouldReplace, order);
      assert t1 == t0.(phrases := t0.phrases + PhraseRows(order));
      assert store.table == r.table;
      assert store.queries == q0 + r.calls;
    }

    // --------------------------------------------------------------- places

    /**
     * The names part of `process_place`: the name tokens, recorded as
     * 'names' in the id order `order`, then the country names if the place
     * is a country.
     */
    function PlaceNamesStep(s: Session, place: Place, order: seq<TokenId>): (Session, Result<map<string, InfoValue>>) {
      if place.names == [] then (s, Ok(map[]))
      else
        var r := NameTokens(s, place.names);
        if r.error.Some? then (r.session, Err(r.error.value))
        else
          (if place.isCountry then CountryStep(r.session, place.countryCode, place.names) else r.session,
           Ok(map["names" := Str(MkArray(order))]))
    }

    /**
     * `process_place` on the session: the returned token info, or the
     * `KeyError` raised while computing the name tokens; `order` is the
     * order of the ids in 'names' and `split` the order of the
     * housenumbers.
     */
    function PlaceStep(s: Session, place: Place, order: seq<TokenId>, split: seq<string>): (Session, Result<map<string, InfoValue>>) {
      var (s1, d1) := PlaceNamesStep(s, place, order);
      if d1.Err? || place.address == [] then (s1, d1)
      else
        var a := AddressStep(s1, d1.value, place.address, split);
        (a.0, Ok(a.1))
    }

    /** The names part keeps the session coherent and changes only name and country rows. */
    lemma {:induction false} PlaceNamesStepCoherent(s: Session, place: Place, order: seq<TokenId>)
      requires Coherent(s)
      ensures var s' := PlaceNamesStep(s, place, order).0;
        Coherent(s') && Grows(s.table, s'.table)
    {
      if place.names != [] {
        var r := NameTokens(s, place.names);
        NameTokensCoherent(s, place.names);
        if r.error.None? && place.isCountry {
          CountryStepProperties(r.session, place.countryCode, place.names);
          GrowsTransitive(s.table, r.session.table, CountryStep(r.session, place.countryCode, place.names).table);
        }
      }
    }

    /** `process_place` keeps the session coherent and never removes or renumbers a token. */
    lemma {:induction false} PlaceStepCoherent(s: Session, place: Place, order: seq<TokenId>, split: seq<string>)
      requires Coherent(s)
      ensures var s' := PlaceStep(s, place, order, split).0;
        Coherent(s') && Grows(s.table, s'.table)
    {
      PlaceNamesStepCoherent(s, place, order);
      var (s1, d1) := PlaceNamesStep(s, place, order);
      if d1.Ok? && place.address != [] {
        AddressStepCoherent(s1, d1.value, place.address, split);
        GrowsTransitive(s.table, s1.table, AddressStep(s1, d1.value, place.address, split).0.table);
      }
    }

    /**
     * `process_place` fails exactly when the names fail: then some name asks
     * for an analyzer that is not configured, and when every name's analyzer
     * is configured it succeeds.
     */
    lemma {:induction false} PlaceStepError(s: Session, place: Place, order: seq<TokenId>, split: seq<string>)
      ensures var res := PlaceStep(s, place, order, split).1;
        && (res.Err? <==> place.names != [] && NameTokens(s, place.names).error.Some?)
        && (res.Err? ==> exists i :: 0 <= i < |place.names| && place.names[i].analyzer !in analysis.analysis
                                       && res.error == KeyError(place.names[i].analyzer))
        && ((forall i :: 0 <= i < |place.names| ==> place.names[i].analyzer in analysis.analysis) ==> res.Ok?)
    {
      NameTokensError(s, place.names);
    }

    /**
     * The token info of a place has 'names' exactly when the place has
     * names, and it reads back as `order`; beside it only the address keys
     * are set, and none of them without address parts.
     */
    lemma {:induction false} PlaceStepData(s: Session, place: Place, order: seq<TokenId>, split: seq<string>)
      ensures var res := PlaceStep(s, place, order, split).1;
        res.Ok? ==>
          && ("names" in res.value <==> place.names != [])
          && (place.names != [] ==> res.value["names"].Str? && ParseArray(res.value["names"].s) == Some(order))
          && (forall k :: k in res.value ==> k == "names" || k in AddressKeys)
          && (place.address == [] ==> forall k :: k in res.value ==> k == "names")
    {
      var n := PlaceNamesStep(s, place, order);
      if n.1.Ok? {
        var d1 := n.1.value;
        if place.names != [] {
          MkArrayRoundTrip(order);
          assert d1 == map["names" := Str(MkArray(order))];
        } else {
          assert d1 == map[];
        }
        if place.address != [] {
          AddressStepKeys(n.0, d1, place.address, split);
          assert PlaceStep(s, place, order, split).1 == Ok(AddressStep(n.0, d1, place.address, split).1);
        } else {
          assert PlaceStep(s, place, order, split).1 == Ok(d1);
        }
      }
    }

    /** A place without names and without address parts gets an empty token info and changes nothing. */
    lemma {:induction false} PlaceStepEmpty(s: Session, place: Place, order: seq<TokenId>, split: seq<string>)
      requires place.names == [] && place.address == []
      ensures PlaceStep(s, place, order, split) == (s, Ok(map[]))
    {
    }

    /** After a country with names, the country has a token for each non-empty search term of its names. */
    lemma {:induction false} PlaceStepCountry(s: Session, place: Place, order: seq<TokenId>, split: seq<string>)
      requires Coherent(s) && place.isCountry && place.names != []
      ensures var (s', res) := PlaceStep(s, place, order, split);
        res.Ok? ==> CountryNameTokens(place.names) <= CountryTokens(s'.table, place.countryCode)
    {
      var r := NameTokens(s, place.names);
      NameTokensCoherent(s, place.names);
      if r.error.None? {
        var s1 := CountryStep(r.session, place.countryCode, place.names);
        CountryStepProperties(r.session, place.countryCode, place.names);
        if place.address != [] {
          var d1 := map["names" := Str(MkArray(order))];
          AddressStepCoherent(s1, d1, place.address, split);
          assert AddressStep(s1, d1, place.address, split).0.table.countries == s1.table.countries;
        }
      }
    }

    /** The names part of `process_place`. */
    method ProcessPlaceNames(info: TokenInfo, place: Place) returns (error: Option<Error>, ghost fullOrder: seq<TokenId>, ghost partialOrder: seq<TokenId>)
      requires Valid() && info.cache == cache && info.data == map[]
      modifies store, cache`names, info`data
      ensures error.None? && place.names != [] ==>
        && NoDups(fullOrder) && ToSet(fullOrder) == NameTokens(old(Current()), place.names).fulls
        && NoDups(partialOrder) && ToSet(partialOrder) == NameTokens(old(Current()), place.names).partials
      ensures Current() == PlaceNamesStep(old(Current()), place, fullOrder + partialOrder).0
      ensures error.None? <==> PlaceNamesStep(old(Current()), place, fullOrder + partialOrder).1.Ok?
      ensures error.None? ==> info.data == PlaceNamesStep(old(Current()), place, fullOrder + partialOrder).1.value
      ensures error.Some? ==> error.value == PlaceNamesStep(old(Current()), place, fullOrder + partialOrder).1.error
      ensures Valid()
    {
      ghost var s0 := Current();
      fullOrder, partialOrder := [], [];
      error := None;
      if place.names != [] {
        var res := ComputeNameTokens(place.names);
        if res.Err? {
          return Some(res.error), fullOrder, partialOrder;
        }
        fullOrder, partialOrder := info.AddNames(res.value.0, res.value.1);
        if place.isCountry {
          AddCountryFullNames(place.countryCode, place.names);
        }
      }
    }

    /**
     * `process_place`: the token info of the place, or the `KeyError` of a
     * name whose analyzer is not configured. The ids of 'names' are the
     * full-name ids in the order `fullOrder`, then the partial ids in the
     * order `partialOrder`.
     */
    method ProcessPlace(place: Place) returns (res: Result<map<string, InfoValue>>,
                                             ghost fullOrder: seq<TokenId>, ghost partialOrder: seq<TokenId>,
                                             ghost split: seq<string>)
      requires Valid()
      modifies store, cache`names, cache`partials, cache`fulls, cache`postcodes, cache`housenumbers
      ensures res.Ok? && place.names != [] ==>
        && NoDups(fullOrder) && ToSet(fullOrder) == NameTokens(old(Current()), place.names).fulls
        && NoDups(partialOrder) && ToSet(partialOrder) == NameTokens(old(Current()), place.names).partials
      ensures HousenumberNames(place.address) != [] && res.Ok? ==> IsHnrSplit(HousenumberNames(place.address), split)
      ensures Current() == PlaceStep(old(Current()), place, fullOrder + partialOrder, split).0
      ensures res == PlaceStep(old(Current()), place, fullOrder + partialOrder, split).1
      ensures Valid()
    {
      ghost var s0 := Current();
      var info := new TokenInfo(cache);
      var error;
      error, fullOrder, partialOrder := ProcessPlaceNames(info, place);
      ghost var n := PlaceNamesStep(s0, place, fullOrder + partialOrder);
      split := [];
      if error.Some? {
        assert PlaceStep(s0, place, fullOrder + partialOrder, split) == n;
        return Err(error.value), fullOrder, partialOrder, split;
      }
      if place.address != [] {
        split := ProcessPlaceAddress(info, place.address);
        ghost var a := AddressStep(n.0, n.1.value, place.address, split);
        assert PlaceStep(s0, place, fullOrder + partialOrder, split) == (a.0, Ok(a.1));
      } else {
        assert PlaceStep(s0, place, fullOrder + partialOrder, split) == n;
      }
      res := Ok(info.data);
    }
  }
}

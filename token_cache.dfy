/**
 * `_TokenCache`: the per-analyzer memo of token lookups, kept coherent with
 * the word table it caches.
 */
module TokenCache {
  import opened Base
  import opened WordTable

  /** The contents of the five caches, as a value. */
  datatype Caches = Caches(
    names: map<string, (TokenId, seq<TokenId>)>,  // name dispatch key -> (full-name id, partial ids)
    partials: map<string, TokenId>,               // partial word -> id
    fulls: map<string, seq<TokenId>>,             // search-normalized street name -> full-name ids
    postcodes: set<string>,                       // normalized postcodes known to be in the table
    housenumbers: map<string, TokenId>)           // normalized housenumber -> id

  const NoCaches := Caches(map[], map[], map[], {}, map[])

  /** Every cached name has the table's full-name id and partial ids that are in the table. */
  ghost predicate NamesAgree(names: map<string, (TokenId, seq<TokenId>)>, fullIds: map<string, TokenId>, partialIds: map<string, TokenId>) {
    forall k :: k in names ==>
      && k in fullIds && names[k].0 == fullIds[k]
      && forall p :: p in names[k].1 ==> p in partialIds.Values
  }

  /** Every cached list of full-name ids is a prefix of the table's rows for that token. */
  ghost predicate FullsAgree(fulls: map<string, seq<TokenId>>, fullRows: map<string, seq<TokenId>>) {
    forall k :: k in fulls ==> fulls[k] <= (if k in fullRows then fullRows[k] else [])
  }

  /**
   * Every cached answer is what the table says, except that a cached list of
   * full-name ids may miss rows added after it was read.
   */
  ghost predicate CachesCoherent(c: Caches, t: Table) {
    && NamesAgree(c.names, t.fullIds, t.partialIds)
    && SubMap(c.partials, t.partialIds)
    && FullsAgree(c.fulls, t.fullRows)
    && c.postcodes <= t.postcodes.Keys
    && SubMap(c.housenumbers, t.hnrIds)
  }

  /** Since the table only grows, a coherent cache stays coherent. */
  lemma {:induction false} CoherenceGrows(c: Caches, t0: Table, t1: Table)
    requires CachesCoherent(c, t0) && Grows(t0, t1)
    ensures CachesCoherent(c, t1)
  {
    forall k | k in c.names ensures forall p :: p in c.names[k].1 ==> p in t1.partialIds.Values {
      forall p | p in c.names[k].1 ensures p in t1.partialIds.Values {
        var w :| w in t0.partialIds && t0.partialIds[w] == p;
        assert t1.partialIds[w] == p;
      }
    }
    forall k | k in c.fulls ensures c.fulls[k] <= FullTokens(t1, k) {
      assert FullTokens(t0, k) <= FullTokens(t1, k);
    }
  }

  /** Caching a postcode that was just inserted keeps the caches coherent. */
  lemma {:induction false} PostcodeCoherent(c: Caches, t: Table, term: string, pc: string)
    requires CachesCoherent(c, t)
    ensures CachesCoherent(c.(postcodes := c.postcodes + {pc}), InsertPostcode(t, term, pc))
  {
    var t' := InsertPostcode(t, term, pc);
    assert t'.postcodes.Keys == t.postcodes.Keys + {pc};
  }

  /** Caching the table's ids of a name keeps the caches coherent. */
  lemma {:induction false} NameCoherent(c: Caches, t: Table, key: string, full: TokenId, part: seq<TokenId>)
    requires CachesCoherent(c, t)
    requires key in t.fullIds && full == t.fullIds[key]
    requires forall p :: p in part ==> p in t.partialIds.Values
    ensures CachesCoherent(c.(names := c.names[key := (full, part)]), t)
  {
  }

  /** New country rows keep the table consistent and the caches coherent. */
  lemma {:induction false} CountryCoherent(c: Caches, t: Table, cc: string, tokens: set<string>)
    requires Consistent(t) && CachesCoherent(c, t)
    ensures var t' := InsertCountryTokens(t, cc, tokens);
      Consistent(t') && CachesCoherent(c, t') && Grows(t, t')
  {
    var t' := InsertCountryTokens(t, cc, tokens);
    assert t' == t.(countries := t'.countries);
    forall k | k in t.countries ensures k in t'.countries && t.countries[k] <= t'.countries[k] {
      assert CountryTokens(t, k) <= CountryTokens(t', k);
    }
  }

  /** The outcome of a cached lookup: new cache, new table, store calls made (0 or 1), tokens. */
  datatype Lookups = Lookups(cache: map<string, TokenId>, table: Table, calls: nat, tokens: seq<TokenId>)

  /**
   * `get_hnr_tokens` on values: the cached ids of the hits in input order,
   * then, if there are misses, one `getorcreate_hnr_id` call for all of them,
   * whose ids are appended and remembered. `AnalyzerHelpers.PartialLookup`
   * is the same scheme for partial words.
   */
  function HnrLookup(cached: map<string, TokenId>, t: Table, terms: seq<string>): Lookups {
    var hits, misses := Present(cached, terms), Absent(cached, terms);
    if misses == [] then Lookups(cached, t, 0, Lookup(cached, hits))
    else
      var (t1, ids) := HnrIds(t, misses);
      Lookups(Remembered(cached, misses, ids), t1, 1, Lookup(cached, hits) + ids)
  }

  /**
   * A housenumber lookup keeps the table consistent and the caches coherent,
   * and of the table changes only the housenumber rows.
   */
  lemma {:induction false} HnrLookupCoherent(c: Caches, t: Table, terms: seq<string>)
    requires Consistent(t) && CachesCoherent(c, t)
    ensures var r := HnrLookup(c.housenumbers, t, terms);
      && Consistent(r.table) && Grows(t, r.table)
      && CachesCoherent(c.(housenumbers := r.cache), r.table)
      && r.table == t.(hnrIds := r.table.hnrIds, nextId := r.table.nextId)
  {
    var misses := Absent(c.housenumbers, terms);
    if misses != [] {
      var (t1, ids) := HnrIds(t, misses);
      CoherenceGrows(c, t, t1);
      RememberedWithin(c.housenumbers, misses, ids, t1.hnrIds);
    }
  }

  /**
   * A housenumber lookup adds exactly the terms to the cache, and calls the
   * store exactly when some term is not cached; otherwise nothing changes.
   */
  lemma {:induction false} HnrLookupCache(cached: map<string, TokenId>, t: Table, terms: seq<string>)
    requires Consistent(t) && SubMap(cached, t.hnrIds)
    ensures var r := HnrLookup(cached, t, terms);
      && SubMap(cached, r.cache)
      && r.cache.Keys == cached.Keys + ToSet(terms)
      && (r.calls == 0 <==> forall x :: x in terms ==> x in cached)
      && (r.calls == 0 ==> r.table == t && r.cache == cached)
  {
    var misses := Absent(cached, terms);
    AbsentEmpty(cached, terms);
    MissesCoverInput(cached, terms);
    if misses != [] {
      var (t1, ids) := HnrIds(t, misses);
      RememberedWithin(cached, misses, ids, t1.hnrIds);
    }
  }

  /** One token per term: the table's ids of the cache hits, then of the misses. */
  lemma {:induction false} HnrLookupOrder(cached: map<string, TokenId>, t: Table, terms: seq<string>)
    requires Consistent(t) && SubMap(cached, t.hnrIds)
    ensures var r := HnrLookup(cached, t, terms);
      && (forall x :: x in Present(cached, terms) + Absent(cached, terms) ==> x in r.table.hnrIds)
      && r.tokens == Lookup(r.table.hnrIds, Present(cached, terms) + Absent(cached, terms))
  {
    var hits, misses := Present(cached, terms), Absent(cached, terms);
    if misses == [] {
      LookupSubMap(cached, t.hnrIds, hits);
      assert hits + misses == hits;
    } else {
      var (t1, ids) := HnrIds(t, misses);
      assert Grows(t, t1);
      LookupSubMap(cached, t1.hnrIds, hits);
      LookupConcat(t1.hnrIds, hits, misses);
    }
  }

  /** The tokens are the table's ids of the terms, reordered, one per term. */
  lemma {:induction false} HnrLookupTokens(cached: map<string, TokenId>, t: Table, terms: seq<string>)
    requires Consistent(t) && SubMap(cached, t.hnrIds)
    ensures var r := HnrLookup(cached, t, terms);
      && (forall x :: x in terms ==> x in r.table.hnrIds)
      && multiset(r.tokens) == multiset(Lookup(r.table.hnrIds, terms))
      && |r.tokens| == |terms|
  {
    var r := HnrLookup(cached, t, terms);
    HnrLookupOrder(cached, t, terms);
    MissesCoverInput(cached, terms);
    assert forall x :: x in terms ==> x in Present(cached, terms) + Absent(cached, terms) by {
      forall x | x in terms ensures x in Present(cached, terms) + Absent(cached, terms) {
        PresentAbsentPermutation(cached, terms);
        assert x in multiset(terms);
      }
    }
    HitsThenMisses(cached, r.table.hnrIds, terms);
  }

  class TokenCache {
    var names: map<string, (TokenId, seq<TokenId>)>
    var partials: map<string, TokenId>
    var fulls: map<string, seq<TokenId>>
    var postcodes: set<string>
    var housenumbers: map<string, TokenId>

    constructor ()
      ensures Snapshot() == NoCaches
    {
      names := map[];
      partials := map[];
      fulls := map[];
      postcodes := {};
      housenumbers := map[];
    }

    function Snapshot(): Caches
      reads this
    {
      Caches(names, partials, fulls, postcodes, housenumbers)
    }

    ghost predicate CoherentWith(t: Table)
      reads this
    {
      CachesCoherent(Snapshot(), t)
    }

    /**
     * `get_hnr_tokens`: cached ids first, then one store call for all misses,
     * whose answers are cached and appended.
     */
    method GetHnrTokens(store: WordStore, terms: seq<string>) returns (tokens: seq<TokenId>)
      requires store.Valid()
      modifies this`housenumbers, store
      ensures var r := HnrLookup(old(housenumbers), old(store.table), terms);
        && housenumbers == r.cache && store.table == r.table && tokens == r.tokens
        && store.queries == old(store.queries) + r.calls
      ensures store.Valid()
      ensures Snapshot() == old(Snapshot()).(housenumbers := housenumbers)
    {
      var askdb;
      tokens, askdb := SplitCached(housenumbers, terms);
      if askdb != [] {
        var ids := store.GetOrCreateHnrs(askdb);
        housenumbers, tokens := Remember(housenumbers, askdb, ids, tokens);
      }
    }
  }

  /** The first loop of `get_hnr_tokens`: cached ids in order, and the misses. */
  method SplitCached(cached: map<string, TokenId>, terms: seq<string>) returns (tokens: seq<TokenId>, askdb: seq<string>)
    ensures tokens == Lookup(cached, Present(cached, terms))
    ensures askdb == Absent(cached, terms)
  {
    tokens := [];
    askdb := [];
    var i := 0;
    while i < |terms|
      invariant 0 <= i <= |terms|
      invariant tokens == Lookup(cached, Present(cached, terms[..i]))
      invariant askdb == Absent(cached, terms[..i])
    {
      var term := terms[i];
      assert terms[..i + 1] == terms[..i] + [term];
      LookupHitsSnoc(cached, terms[..i], term);
      if term in cached {
        tokens := tokens + [cached[term]];
      } else {
        askdb := askdb + [term];
      }
      i := i + 1;
    }
    assert terms[..i] == terms;
  }

  /**
   * The second loop of `get_hnr_tokens` (and of `_compute_partial_tokens`):
   * remember and append the id returned for each miss.
   */
  method Remember(cached: map<string, TokenId>, askdb: seq<string>, ids: seq<TokenId>, tokens: seq<TokenId>)
    returns (cached': map<string, TokenId>, tokens': seq<TokenId>)
    requires |ids| == |askdb|
    ensures cached' == Remembered(cached, askdb, ids)
    ensures tokens' == tokens + ids
  {
    cached', tokens' := cached, tokens;
    var j := 0;
    while j < |askdb|
      invariant 0 <= j <= |askdb|
      invariant cached' == Remembered(cached, askdb[..j], ids[..j])
      invariant tokens' == tokens + ids[..j]
    {
      assert askdb[..j + 1][..j] == askdb[..j];
      assert ids[..j + 1] == ids[..j] + [ids[j]];
      cached' := cached'[askdb[j] := ids[j]];
      tokens' := tokens' + [ids[j]];
      j := j + 1;
    }
    assert askdb[..j] == askdb && ids[..j] == ids;
  }
}

/**
 * The `word` table of the database, as far as the name analyzer uses it,
 * kept in memory. The server-side functions `getorcreate_full_word`,
 * `getorcreate_partial_word` and `getorcreate_hnr_id` and the SQL statements
 * of the analyzer become get-or-create functions on a `Table` value; the
 * `WordStore` class holds the current table (the database behind the
 * connection) and counts the round trips made to it.
 */
module WordTable {
  import opened Base
  import Text

  /** A `word_id`: drawn from one sequence that starts at 1. */
  type TokenId = nat

  /** A special phrase as the analyzer compares them: (phrase, class, type, operator or '-'). */
  datatype Phrase = Phrase(word: string, cls: string, typ: string, op: string)

  /** A row of type 'S': search token, normalized phrase and the info's class, type and operator. */
  datatype PhraseRow = PhraseRow(token: string, word: string, cls: string, typ: string, op: Option<string>)

  datatype Table = Table(
    nextId: TokenId,                      // next value of the word-id sequence
    fullIds: map<string, TokenId>,        // 'W' rows: word (a name's dispatch key) -> word_id
    fullRows: map<string, seq<TokenId>>,  // 'W' rows: word_token -> word_ids of the rows
    partialIds: map<string, TokenId>,     // 'w' rows: word_token -> word_id
    hnrIds: map<string, TokenId>,         // 'H' rows: word_token -> word_id
    postcodes: map<string, string>,       // 'P' rows: word (postcode) -> word_token
    countries: map<string, set<string>>,  // 'C' rows: word (country code) -> word_tokens
    phrases: seq<PhraseRow>)              // 'S' rows

  const EmptyTable := Table(1, map[], map[], map[], map[], map[], map[], [])

  /** All ids of `m` are drawn from the sequence before `next`: positive and below it. */
  ghost predicate IdsBelow(m: map<string, TokenId>, next: TokenId) {
    forall k :: k in m ==> 1 <= m[k] < next
  }

  /** Ids are drawn from the sequence, so they are positive and below `nextId`. */
  ghost predicate Consistent(t: Table) {
    && t.nextId >= 1
    && IdsBelow(t.fullIds, t.nextId)
    && IdsBelow(t.partialIds, t.nextId)
    && IdsBelow(t.hnrIds, t.nextId)
  }

  /** Rows of type W, w, H, P and C are only ever added, never changed or removed. */
  ghost predicate Grows(t0: Table, t1: Table) {
    && t0.nextId <= t1.nextId
    && SubMap(t0.fullIds, t1.fullIds)
    && SubMap(t0.partialIds, t1.partialIds)
    && SubMap(t0.hnrIds, t1.hnrIds)
    && SubMap(t0.postcodes, t1.postcodes)
    && (forall tok :: tok in t0.fullRows ==> tok in t1.fullRows && t0.fullRows[tok] <= t1.fullRows[tok])
    && (forall cc :: cc in t0.countries ==> cc in t1.countries && t0.countries[cc] <= t1.countries[cc])
  }

  lemma {:induction false} GrowsTransitive(t0: Table, t1: Table, t2: Table)
    requires Grows(t0, t1) && Grows(t1, t2)
    ensures Grows(t0, t2)
  {
    forall tok | tok in t0.fullRows ensures tok in t2.fullRows && t0.fullRows[tok] <= t2.fullRows[tok] {
      assert t0.fullRows[tok] <= t1.fullRows[tok] <= t2.fullRows[tok];
    }
  }

  /**
   * Get-or-create of one kind of row for each of `ws` in turn (the rows of an
   * `unnest` are processed one after the other): an existing id is reused, a
   * missing word gets the next id of the sequence.
   */
  function GetOrCreate(m: map<string, TokenId>, next: TokenId, ws: seq<string>): (r: (map<string, TokenId>, TokenId))
    ensures SubMap(m, r.0)
    ensures r.0.Keys == m.Keys + ToSet(ws)
    ensures next <= r.1
    ensures forall k :: k in r.0 && k !in m ==> next <= r.0[k] < r.1
    ensures (forall k :: k in m ==> m[k] < next) ==> forall k :: k in r.0 ==> r.0[k] < r.1
    decreases |ws|
  {
    if ws == [] then (m, next)
    else if ws[0] in m then
      var r := GetOrCreate(m, next, ws[1..]);
      assert ToSet(ws) == {ws[0]} + ToSet(ws[1..]);
      r
    else
      var r := GetOrCreate(m[ws[0] := next], next + 1, ws[1..]);
      assert ToSet(ws) == {ws[0]} + ToSet(ws[1..]);
      r
  }

  /** `getorcreate_partial_word(word)` for every word of `ws`: the ids, one per word. */
  function PartialWords(t: Table, ws: seq<string>): (r: (Table, seq<TokenId>))
    ensures forall w :: w in ws ==> w in r.0.partialIds
    ensures r.1 == Lookup(r.0.partialIds, ws)
    ensures r.0.partialIds.Keys == t.partialIds.Keys + ToSet(ws)
    ensures r.0 == t.(partialIds := r.0.partialIds, nextId := r.0.nextId)
    ensures Consistent(t) ==> Consistent(r.0) && Grows(t, r.0)
  {
    var (m, n) := GetOrCreate(t.partialIds, t.nextId, ws);
    (t.(partialIds := m, nextId := n), Lookup(m, ws))
  }

  /** `getorcreate_hnr_id(nr)` for every housenumber of `hs`: the ids, one per housenumber. */
  function HnrIds(t: Table, hs: seq<string>): (r: (Table, seq<TokenId>))
    ensures forall h :: h in hs ==> h in r.0.hnrIds
    ensures r.1 == Lookup(r.0.hnrIds, hs)
    ensures r.0.hnrIds.Keys == t.hnrIds.Keys + ToSet(hs)
    ensures r.0 == t.(hnrIds := r.0.hnrIds, nextId := r.0.nextId)
    ensures Consistent(t) ==> Consistent(r.0) && Grows(t, r.0)
  {
    var (m, n) := GetOrCreate(t.hnrIds, t.nextId, hs);
    (t.(hnrIds := m, nextId := n), Lookup(m, hs))
  }

  /** The ids of the 'W' rows whose `word_token` is `tok` (none if there are none). */
  function FullTokens(t: Table, tok: string): seq<TokenId> {
    if tok in t.fullRows then t.fullRows[tok] else []
  }

  /** One 'W' row with id `id` for every variant. */
  function AddFullRows(rows: map<string, seq<TokenId>>, variants: seq<string>, id: TokenId): (r: map<string, seq<TokenId>>)
    ensures forall tok :: tok in rows ==> tok in r && rows[tok] <= r[tok]
    ensures forall v :: v in variants ==> v in r && id in r[v]
    decreases |variants|
  {
    if variants == [] then rows
    else
      var v := variants[0];
      var before := if v in rows then rows[v] else [];
      var r := AddFullRows(rows[v := before + [id]], variants[1..], id);
      assert id in r[v] by { assert id in before + [id]; }
      r
  }

  /** The words of all variants: the partial words of a full name. */
  function VariantWords(variants: seq<string>): seq<string> {
    if variants == [] then [] else Text.Words(variants[0]) + VariantWords(variants[1..])
  }

  /** Every partial word of a full name is a non-empty run of non-whitespace. */
  lemma {:induction false} VariantWordsShape(variants: seq<string>)
    ensures forall w :: w in VariantWords(variants) ==> w != [] && Text.Avoids(w, Text.IsSpace)
    decreases |variants|
  {
    if variants != [] {
      Text.WordsShape(variants[0]);
      VariantWordsShape(variants[1..]);
    }
  }

  /**
   * `getorcreate_full_word(key, variants)`: the full-name id registered for
   * `key` (creating it, with one 'W' row per variant, when `key` is new) and
   * the partial-word ids of all words of the variants.
   */
  function FullWord(t: Table, key: string, variants: seq<string>): (r: (Table, TokenId, seq<TokenId>))
    ensures key in r.0.fullIds && r.1 == r.0.fullIds[key]
    ensures key in t.fullIds ==> r.1 == t.fullIds[key]
    ensures key !in t.fullIds ==> forall v :: v in variants ==> v in r.0.fullRows && r.1 in r.0.fullRows[v]
    ensures forall w :: w in VariantWords(variants) ==> w in r.0.partialIds
    ensures r.2 == Lookup(r.0.partialIds, VariantWords(variants))
    ensures r.0 == t.(fullIds := r.0.fullIds, fullRows := r.0.fullRows, partialIds := r.0.partialIds, nextId := r.0.nextId)
    ensures Consistent(t) ==> Consistent(r.0) && Grows(t, r.0)
  {
    var t1 := if key in t.fullIds then t
              else t.(fullIds := t.fullIds[key := t.nextId],
                      fullRows := AddFullRows(t.fullRows, variants, t.nextId),
                      nextId := t.nextId + 1);
    assert Consistent(t) ==> Consistent(t1) && Grows(t, t1);
    var (t2, parts) := PartialWords(t1, VariantWords(variants));
    GrowsTransitiveWhenConsistent(t, t1, t2);
    (t2, t1.fullIds[key], parts)
  }

  lemma {:induction false} GrowsTransitiveWhenConsistent(t0: Table, t1: Table, t2: Table)
    requires Consistent(t0) ==> Consistent(t1) && Grows(t0, t1)
    requires Consistent(t1) ==> Consistent(t2) && Grows(t1, t2)
    ensures Consistent(t0) ==> Consistent(t2) && Grows(t0, t2)
  {
    if Consistent(t0) { GrowsTransitive(t0, t1, t2); }
  }

  /** The postcode insert: a 'P' row for `pc` only if there is none yet. */
  function InsertPostcode(t: Table, term: string, pc: string): (r: Table)
    ensures pc in r.postcodes
    ensures pc in t.postcodes ==> r == t
    ensures pc !in t.postcodes ==> r == t.(postcodes := t.postcodes[pc := term])
  {
    if pc in t.postcodes then t else t.(postcodes := t.postcodes[pc := term])
  }

  /** The tokens of the 'C' rows of a country. */
  function CountryTokens(t: Table, cc: string): set<string> {
    if cc in t.countries then t.countries[cc] else {}
  }

  function InsertCountryTokens(t: Table, cc: string, tokens: set<string>): (r: Table)
    ensures CountryTokens(r, cc) == CountryTokens(t, cc) + tokens
    ensures forall c :: c != cc ==> CountryTokens(r, c) == CountryTokens(t, c)
    ensures r == t.(countries := r.countries)
  {
    t.(countries := t.countries[cc := CountryTokens(t, cc) + tokens])
  }

  /** The operator of a stored phrase as it is read back: `info.get('op') or '-'`. */
  function OpOrPlaceholder(op: Option<string>): (r: string)
    ensures r != ""
  {
    if op.None? || op.value == "" then "-" else op.value
  }

  /** The key under which an existing 'S' row is compared with new phrases. */
  function RowKey(r: PhraseRow): Phrase {
    Phrase(r.word, r.cls, r.typ, OpOrPlaceholder(r.op))
  }

  /**
   * The condition of the DELETE in `_remove_special_phrases`: same phrase,
   * class and type, and either the placeholder '-' against a missing operator
   * or the same operator.
   */
  predicate Matches(r: PhraseRow, d: Phrase) {
    && r.word == d.word && r.cls == d.cls && r.typ == d.typ
    && ((d.op == "-" && r.op.None?) || r.op == Some(d.op))
  }

  predicate MatchesSome(r: PhraseRow, del: set<Phrase>) {
    exists d :: d in del && Matches(r, d)
  }

  /** The 'S' rows left after deleting those that match one of `del`. */
  function RowsWithout(rows: seq<PhraseRow>, del: set<Phrase>): (r: seq<PhraseRow>)
    ensures forall x :: x in r <==> x in rows && !MatchesSome(x, del)
  {
    if rows == [] then []
    else if MatchesSome(rows[0], del) then RowsWithout(rows[1..], del)
    else [rows[0]] + RowsWithout(rows[1..], del)
  }

  /** The database connection: the current table and the number of round trips made so far. */
  class WordStore {
    var table: Table
    var queries: nat

    ghost predicate Valid()
      reads this
    {
      Consistent(table)
    }

    constructor (t: Table)
      requires Consistent(t)
      ensures Valid() && table == t && queries == 0
    {
      table := t;
      queries := 0;
    }

    /** `SELECT word, getorcreate_partial_word(word) FROM unnest(ws)`. */
    method GetOrCreatePartials(ws: seq<string>) returns (ids: seq<TokenId>)
      requires Valid()
      modifies this
      ensures Valid() && Grows(old(table), table)
      ensures (table, ids) == PartialWords(old(table), ws)
      ensures queries == old(queries) + 1
    {
      var r := PartialWords(table, ws);
      table, ids := r.0, r.1;
      queries := queries + 1;
    }

    /** `SELECT nr, getorcreate_hnr_id(nr) FROM unnest(hs)`. */
    method GetOrCreateHnrs(hs: seq<string>) returns (ids: seq<TokenId>)
      requires Valid()
      modifies this
      ensures Valid() && Grows(old(table), table)
      ensures (table, ids) == HnrIds(old(table), hs)
      ensures queries == old(queries) + 1
    {
      var r := HnrIds(table, hs);
      table, ids := r.0, r.1;
      queries := queries + 1;
    }

    /** `SELECT (getorcreate_full_word(key, variants)).*`. */
    method GetOrCreateFull(key: string, variants: seq<string>) returns (full: TokenId, partials: seq<TokenId>)
      requires Valid()
      modifies this
      ensures Valid() && Grows(old(table), table)
      ensures (table, full, partials) == FullWord(old(table), key, variants)
      ensures queries == old(queries) + 1
    {
      var r := FullWord(table, key, variants);
      table, full, partials := r.0, r.1, r.2;
      queries := queries + 1;
    }

    /** `SELECT word_id FROM word WHERE word_token = tok and type = 'W'`. */
    method LookupFull(tok: string) returns (ids: seq<TokenId>)
      modifies this`queries
      ensures ids == FullTokens(table, tok)
      ensures queries == old(queries) + 1
    {
      ids := FullTokens(table, tok);
      queries := queries + 1;
    }

    /** The INSERT ... WHERE NOT EXISTS of `_add_postcode`. */
    method AddPostcode(term: string, pc: string)
      requires Valid()
      modifies this
      ensures Valid() && Grows(old(table), table)
      ensures table == InsertPostcode(old(table), term, pc)
      ensures queries == old(queries) + 1
    {
      table := InsertPostcode(table, term, pc);
      queries := queries + 1;
    }

    /** `SELECT word_token FROM word WHERE type = 'C' and word = cc`. */
    method ReadCountryTokens(cc: string) returns (tokens: set<string>)
      modifies this`queries
      ensures tokens == CountryTokens(table, cc)
      ensures queries == old(queries) + 1
    {
      tokens := CountryTokens(table, cc);
      queries := queries + 1;
    }

    /** The INSERT of new 'C' rows for a country. */
    method AddCountryTokens(cc: string, tokens: set<string>)
      requires Valid()
      modifies this
      ensures Valid() && Grows(old(table), table)
      ensures table == InsertCountryTokens(old(table), cc, tokens)
      ensures queries == old(queries) + 1
    {
      table := InsertCountryTokens(table, cc, tokens);
      queries := queries + 1;
    }

    /** `SELECT word, info FROM word WHERE type = 'S'`. */
    method ReadPhrases() returns (rows: seq<PhraseRow>)
      modifies this`queries
      ensures rows == table.phrases
      ensures queries == old(queries) + 1
    {
      rows := table.phrases;
      queries := queries + 1;
    }

    /** The copy of new 'S' rows into the table. */
    method AppendPhrases(rows: seq<PhraseRow>)
      requires Valid()
      modifies this
      ensures Valid() && Grows(old(table), table)
      ensures table == old(table).(phrases := old(table).phrases + rows)
      ensures queries == old(queries) + 1
    {
      table := table.(phrases := table.phrases + rows);
      queries := queries + 1;
    }

    /** The DELETE of `_remove_special_phrases`. */
    method DeletePhrases(del: set<Phrase>)
      requires Valid()
      modifies this
      ensures Valid() && Grows(old(table), table)
      ensures table == old(table).(phrases := RowsWithout(old(table).phrases, del))
      ensures queries == old(queries) + 1
    {
      table := table.(phrases := RowsWithout(table.phrases, del));
      queries := queries + 1;
    }
  }
}

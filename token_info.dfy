/**
 * `_TokenInfo`: the token information of one place, collected as a
 * dictionary and handed to the database. Id lists are written as
 * PostgreSQL array literals `{1,2,3}`.
 */
module TokenInfo {
  import opened Base
  import Text
  import opened WordTable
  import opened TokenCache

  /** A value of the token-info dictionary: a string, or (for 'addr') a dictionary of strings. */
  datatype InfoValue = Str(s: string) | Dict(d: map<string, string>)

  /** `str(s)` for every id. */
  function IdStrings(ids: seq<TokenId>): seq<string> {
    seq(|ids|, i requires 0 <= i < |ids| => Text.NatToString(ids[i]))
  }

  /** `_mk_array(tokens)`: the ids in decimal, comma separated, in braces. */
  function MkArray(ids: seq<TokenId>): string {
    "{" + Text.Join(",", IdStrings(ids)) + "}"
  }

  predicate IsComma(c: char) {
    c == ','
  }

  /** The values of a list of decimal numerals; `None` if one of them is not a numeral. */
  function ParseNumerals(parts: seq<string>): (r: Option<seq<TokenId>>)
    ensures r.Some? ==> |r.value| == |parts|
  {
    if parts == [] then Some([])
    else if parts[0] == [] || !(forall i :: 0 <= i < |parts[0]| ==> Text.IsDigit(parts[0][i])) then None
    else
      match ParseNumerals(parts[1..])
      case None => None
      case Some(rest) => Some([Text.ParseNat(parts[0])] + rest)
  }

  /** Reading an array literal back: the inverse of `MkArray`. */
  function ParseArray(s: string): Option<seq<TokenId>> {
    if |s| < 2 || s[0] != '{' || s[|s| - 1] != '}' then None
    else
      var inner := s[1..|s| - 1];
      if inner == [] then Some([]) else ParseNumerals(Text.SplitWhere(inner, IsComma))
  }

  lemma {:induction false} ParseNumeralsIdStrings(ids: seq<TokenId>)
    ensures ParseNumerals(IdStrings(ids)) == Some(ids)
    decreases |ids|
  {
    if ids != [] {
      var parts := IdStrings(ids);
      assert parts[1..] == IdStrings(ids[1..]);
      ParseNumeralsIdStrings(ids[1..]);
      Text.ParseNatToString(ids[0]);
      assert ids == [ids[0]] + ids[1..];
    }
  }

  /** An array literal reads back as the ids it was written from. */
  lemma {:induction false} MkArrayRoundTrip(ids: seq<TokenId>)
    ensures ParseArray(MkArray(ids)) == Some(ids)
  {
    var s := MkArray(ids);
    var inner := Text.Join(",", IdStrings(ids));
    assert s[1..|s| - 1] == inner;
    if ids == [] {
      assert inner == [];
    } else {
      var parts := IdStrings(ids);
      assert forall k :: 0 <= k < |parts| ==> Text.Avoids(parts[k], IsComma) by {
        forall k | 0 <= k < |parts| ensures Text.Avoids(parts[k], IsComma) {
          assert parts[k] == Text.NatToString(ids[k]);
        }
      }
      Text.JoinNonEmpty(",", parts);
      Text.SplitJoin(',', parts, IsComma);
      ParseNumeralsIdStrings(ids);
    }
  }

  /** Different id lists are written differently. */
  lemma {:induction false} MkArrayInjective(a: seq<TokenId>, b: seq<TokenId>)
    requires MkArray(a) == MkArray(b)
    ensures a == b
  {
    MkArrayRoundTrip(a);
    MkArrayRoundTrip(b);
  }

  predicate IsSemicolon(c: char) {
    c == ';'
  }

  /** The 'hnr' field reads back as the housenumbers when none of them contains ';'. */
  lemma {:induction false} HnrFieldRoundTrip(hnrs: seq<string>)
    requires |hnrs| >= 1
    requires forall k :: 0 <= k < |hnrs| ==> Text.Avoids(hnrs[k], IsSemicolon)
    ensures Text.SplitWhere(Text.Join(";", hnrs), IsSemicolon) == hnrs
  {
    Text.SplitJoin(';', hnrs, IsSemicolon);
  }

  /**
   * The dictionary `{key: _mk_array(partials) for key, partials in terms if partials}`:
   * later entries for the same key win, entries without partials are skipped.
   */
  function AddrDict(terms: seq<(string, seq<TokenId>)>): map<string, string>
    decreases |terms|
  {
    if terms == [] then map[]
    else
      var init, last := AddrDict(terms[..|terms| - 1]), terms[|terms| - 1];
      if last.1 != [] then init[last.0 := MkArray(last.1)] else init
  }

  /** The address kinds that some entry gives a non-empty list of partials. */
  ghost predicate HasPartials(terms: seq<(string, seq<TokenId>)>, k: string) {
    exists i :: 0 <= i < |terms| && terms[i].0 == k && terms[i].1 != []
  }

  /** Entry `i` is the last entry for its key with a non-empty list of partials. */
  ghost predicate LastWithPartials(terms: seq<(string, seq<TokenId>)>, i: int) {
    && 0 <= i < |terms| && terms[i].1 != []
    && forall j :: i < j < |terms| && terms[j].0 == terms[i].0 ==> terms[j].1 == []
  }

  /** The 'addr' dictionary has exactly the kinds with non-empty partials as keys. */
  lemma {:induction false} AddrDictKeys(terms: seq<(string, seq<TokenId>)>)
    ensures forall k :: k in AddrDict(terms) <==> HasPartials(terms, k)
    decreases |terms|
  {
    if terms != [] {
      var n := |terms| - 1;
      var init, last := terms[..n], terms[n];
      AddrDictKeys(init);
      forall k ensures k in AddrDict(terms) <==> HasPartials(terms, k) {
        if HasPartials(init, k) {
          var i :| 0 <= i < |init| && init[i].0 == k && init[i].1 != [];
          assert terms[i] == init[i];
        }
        if HasPartials(terms, k) && !(last.0 == k && last.1 != []) {
          var i :| 0 <= i < |terms| && terms[i].0 == k && terms[i].1 != [];
          assert i < n && init[i] == terms[i];
        }
      }
    }
  }

  /** Each kind of the 'addr' dictionary maps to the array of its last entry with partials. */
  lemma {:induction false} AddrDictValues(terms: seq<(string, seq<TokenId>)>)
    ensures forall k :: k in AddrDict(terms) ==>
              exists i :: LastWithPartials(terms, i) && terms[i].0 == k && AddrDict(terms)[k] == MkArray(terms[i].1)
    decreases |terms|
  {
    if terms != [] {
      var n := |terms| - 1;
      var init, last := terms[..n], terms[n];
      AddrDictValues(init);
      var r := AddrDict(terms);
      forall k | k in r
        ensures exists i :: LastWithPartials(terms, i) && terms[i].0 == k && r[k] == MkArray(terms[i].1)
      {
        if last.0 == k && last.1 != [] {
          assert LastWithPartials(terms, n);
        } else {
          assert k in AddrDict(init) && r[k] == AddrDict(init)[k];
          var i :| LastWithPartials(init, i) && init[i].0 == k && AddrDict(init)[k] == MkArray(init[i].1);
          assert terms[i] == init[i];
          assert LastWithPartials(terms, i);
        }
      }
    }
  }

  class TokenInfo {
    const cache: TokenCache
    var data: map<string, InfoValue>

    constructor (cache: TokenCache)
      ensures this.cache == cache && data == map[]
    {
      this.cache := cache;
      data := map[];
    }

    /**
     * `add_names`: the full-name ids, then the partial ids, as one array.
     * Python iterates the two sets in an unspecified order, returned here as
     * `fullOrder` and `partialOrder`.
     */
    method AddNames(fulls: set<TokenId>, partials: set<TokenId>) returns (ghost fullOrder: seq<TokenId>, ghost partialOrder: seq<TokenId>)
      modifies this`data
      ensures NoDups(fullOrder) && ToSet(fullOrder) == fulls
      ensures NoDups(partialOrder) && ToSet(partialOrder) == partials
      ensures data == old(data)["names" := Str(MkArray(fullOrder + partialOrder))]
    {
      var fs := Enumerate(fulls);
      var ps := Enumerate(partials);
      fullOrder, partialOrder := fs, ps;
      data := data["names" := Str(MkArray(fs + ps))];
    }

    /** `add_housenumbers`: the housenumber ids, and the housenumbers joined by ';'. */
    method AddHousenumbers(store: WordStore, hnrs: seq<string>)
      requires store.Valid()
      modifies this`data, cache`housenumbers, store
      ensures var r := HnrLookup(old(cache.housenumbers), old(store.table), hnrs);
        && cache.housenumbers == r.cache && store.table == r.table
        && store.queries == old(store.queries) + r.calls
        && data == old(data)["hnr_tokens" := Str(MkArray(r.tokens))]["hnr" := Str(Text.Join(";", hnrs))]
      ensures store.Valid()
      ensures cache.Snapshot() == old(cache.Snapshot()).(housenumbers := cache.housenumbers)
    {
      var ids := cache.GetHnrTokens(store, hnrs);
      data := data["hnr_tokens" := Str(MkArray(ids))];
      data := data["hnr" := Str(Text.Join(";", hnrs))];
    }

    /** `add_street`. */
    method AddStreet(tokens: seq<TokenId>)
      modifies this`data
      ensures data == old(data)["street" := Str(MkArray(tokens))]
    {
      data := data["street" := Str(MkArray(tokens))];
    }

    /** `add_place`: only a non-empty list is recorded. */
    method AddPlace(tokens: seq<TokenId>)
      modifies this`data
      ensures tokens != [] ==> data == old(data)["place" := Str(MkArray(tokens))]
      ensures tokens == [] ==> data == old(data)
    {
      if tokens != [] {
        data := data["place" := Str(MkArray(tokens))];
      }
    }

    /** `add_address_terms`: recorded only if some kind has partials. */
    method AddAddressTerms(terms: seq<(string, seq<TokenId>)>)
      modifies this`data
      ensures AddrDict(terms) != map[] ==> data == old(data)["addr" := Dict(AddrDict(terms))]
      ensures AddrDict(terms) == map[] ==> data == old(data)
    {
      var tokens := AddrDict(terms);
      if tokens != map[] {
        data := data["addr" := Dict(tokens)];
      }
    }
  }
}

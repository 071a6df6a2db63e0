/**
 * The container of transliterators and token analyzers used by one name
 * analyzer session (`ICUTokenAnalysis`). The ICU library itself is foreign:
 * a transliterator is represented by the id and rule text it is compiled
 * from, and what it does to a string is supplied from outside as `Icu`.
 */
module IcuTokenAnalysis {
  import opened Base

  /** A transliterator as `Transliterator.createFromRules(id, rules)` builds it. */
  datatype Transliterator = Transliterator(id: string, rules: string)

  /** The configuration of one analyzer: the analysis module that creates it and its config. */
  datatype AnalyzerRules = AnalyzerRules(factory: string, config: string)

  /** An analyzer as `arules.create(normalizer, to_ascii, arules.config)` returns it. */
  datatype Analyzer = Analyzer(factory: string, normalizer: Transliterator, toAscii: Transliterator, config: string)

  /**
   * The behaviour of the foreign ICU code, left uninterpreted: applying a
   * transliterator to a string, and an analyzer's `get_variants_ascii`.
   */
  datatype Icu = Icu(
    transliterate: (Transliterator, string) -> string,
    variantsAscii: (Analyzer, string) -> seq<string>)

  /** The key of an analyzer; `None` is the default analyzer. */
  type AnalyzerKey = Option<string>

  datatype TokenAnalysis = TokenAnalysis(
    normalizer: Transliterator,
    toAscii: Transliterator,
    search: Transliterator,
    analysis: map<AnalyzerKey, Analyzer>)

  /** The rule appended to the transliteration rules: collapse runs of spaces to one blank. */
  const SpaceRule: string := ";[:Space:]+ > ' '"

  /** `ICUTokenAnalysis.__init__`. */
  function Create(normRules: string, transRules: string, analysisRules: map<AnalyzerKey, AnalyzerRules>): (r: TokenAnalysis)
    ensures r.normalizer.rules == normRules
    ensures r.analysis.Keys == analysisRules.Keys
    ensures forall k :: k in analysisRules ==>
              && r.analysis[k].factory == analysisRules[k].factory
              && r.analysis[k].config == analysisRules[k].config
              && r.analysis[k].normalizer == r.normalizer
              && r.analysis[k].toAscii == r.toAscii
  {
    var asciiRules := transRules + SpaceRule;
    var normalizer := Transliterator("icu_normalization", normRules);
    var toAscii := Transliterator("icu_to_ascii", asciiRules);
    var search := Transliterator("icu_search", normRules + asciiRules);
    TokenAnalysis(normalizer, toAscii, search,
      map k | k in analysisRules :: Analyzer(analysisRules[k].factory, normalizer, toAscii, analysisRules[k].config))
  }

  /**
   * The to-ASCII rules are the transliteration rules followed by the space rule,
   * and the search rules are the normalization rules followed by exactly those.
   */
  lemma {:induction false} CreateRules(normRules: string, transRules: string, analysisRules: map<AnalyzerKey, AnalyzerRules>)
    ensures var r := Create(normRules, transRules, analysisRules);
      && r.toAscii.rules == transRules + SpaceRule
      && r.search.rules == r.normalizer.rules + r.toAscii.rules
      && r.search.rules[..|normRules|] == normRules
      && r.search.rules[|r.search.rules| - |SpaceRule|..] == SpaceRule
  {
    var r := Create(normRules, transRules, analysisRules);
    assert r.search.rules == normRules + transRules + SpaceRule;
  }

  /**
   * `get_analyzer(name)`: `analysis.get(name) or analysis[None]`. The model
   * takes every analyzer object to be truthy (they come from the analysis
   * modules' `create`, which are not part of this model), so the `or` falls
   * back exactly when `name` is not a key; a missing default then raises a
   * `KeyError`.
   */
  function GetAnalyzer(ta: TokenAnalysis, name: AnalyzerKey): (r: Result<Analyzer>)
    ensures r.Ok? <==> name in ta.analysis || None in ta.analysis
    ensures name in ta.analysis ==> r == Ok(ta.analysis[name])
    ensures name !in ta.analysis && None in ta.analysis ==> r == Ok(ta.analysis[None])
    ensures r.Err? ==> r.error == KeyError(None)
  {
    if name in ta.analysis then Ok(ta.analysis[name])
    else if None in ta.analysis then Ok(ta.analysis[None])
    else Err(KeyError(None))
  }

  /** Direct indexing `analysis[name]`, as the name analyzer does it. */
  function AnalyzerAt(ta: TokenAnalysis, name: AnalyzerKey): (r: Result<Analyzer>)
    ensures r.Ok? <==> name in ta.analysis
    ensures r.Err? ==> r.error == KeyError(name)
  {
    if name in ta.analysis then Ok(ta.analysis[name]) else Err(KeyError(name))
  }

  /**
   * With a default analyzer configured, `get_analyzer` never fails, agrees with
   * direct indexing on every configured key, and differs from it (where direct
   * indexing fails) on every other key.
   */
  lemma {:induction false} GetAnalyzerVersusIndex(ta: TokenAnalysis, name: AnalyzerKey)
    requires None in ta.analysis
    ensures GetAnalyzer(ta, name).Ok?
    ensures AnalyzerAt(ta, name).Ok? ==> GetAnalyzer(ta, name) == AnalyzerAt(ta, name)
    ensures AnalyzerAt(ta, name).Err? ==> GetAnalyzer(ta, name) == Ok(ta.analysis[None])
  {
  }

  /** Every analyzer created by `Create` is reachable through `get_analyzer` under its own key. */
  lemma {:induction false} CreateThenGet(normRules: string, transRules: string, analysisRules: map<AnalyzerKey, AnalyzerRules>, name: AnalyzerKey)
    requires name in analysisRules
    ensures var r := Create(normRules, transRules, analysisRules);
      GetAnalyzer(r, name) == Ok(r.analysis[name]) && r.analysis[name].factory == analysisRules[name].factory
  {
  }
}

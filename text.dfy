/**
 * The Python string operations the tokenizer relies on: `str.strip()`,
 * `str.upper()`, `str.split()`, `re.split` over a character class,
 * `str.join` and `str(int)` for non-negative integers.
 */
module Text {

  /** Python's `str.isspace()` for a single character. */
  predicate IsSpace(c: char) {
    || ('\t' <= c <= '\r')
    || ('\U{1C}' <= c <= ' ')
    || c == '\U{85}' || c == '\U{A0}' || c == '\U{1680}'
    || ('\U{2000}' <= c <= '\U{200A}')
    || c == '\U{2028}' || c == '\U{2029}' || c == '\U{202F}' || c == '\U{205F}' || c == '\U{3000}'
  }

  /** No leading and no trailing whitespace. */
  predicate IsStripped(s: string) {
    s == [] || (!IsSpace(s[0]) && !IsSpace(s[|s| - 1]))
  }

  /** Python `s.lstrip()`. */
  function StripLeft(s: string): string
    decreases |s|
  {
    if s != [] && IsSpace(s[0]) then StripLeft(s[1..]) else s
  }

  /** `s.lstrip()` is a suffix of `s` that does not start with whitespace, and only whitespace is dropped. */
  lemma {:induction false} StripLeftShape(s: string)
    ensures var r := StripLeft(s);
      && |r| <= |s| && r == s[|s| - |r|..]
      && (r == [] || !IsSpace(r[0]))
      && forall i :: 0 <= i < |s| - |r| ==> IsSpace(s[i])
    decreases |s|
  {
    if s != [] && IsSpace(s[0]) {
      StripLeftShape(s[1..]);
      var r := StripLeft(s);
      assert s[1..][|s| - 1 - |r|..] == s[|s| - |r|..];
      forall i | 0 <= i < |s| - |r| ensures IsSpace(s[i]) {
        if i > 0 { assert s[i] == s[1..][i - 1]; }
      }
    }
  }

  /** Python `s.rstrip()`. */
  function StripRight(s: string): string
    decreases |s|
  {
    if s != [] && IsSpace(s[|s| - 1]) then StripRight(s[..|s| - 1]) else s
  }

  /** `s.rstrip()` is a prefix of `s` that does not end with whitespace, and only whitespace is dropped. */
  lemma {:induction false} StripRightShape(s: string)
    ensures var r := StripRight(s);
      && |r| <= |s| && r == s[..|r|]
      && (r == [] || !IsSpace(r[|r| - 1]))
      && forall i :: |r| <= i < |s| ==> IsSpace(s[i])
    decreases |s|
  {
    if s != [] && IsSpace(s[|s| - 1]) {
      var init := s[..|s| - 1];
      StripRightShape(init);
      var r := StripRight(s);
      assert init[..|r|] == s[..|r|];
      forall i | |r| <= i < |s| ensures IsSpace(s[i]) {
        if i < |s| - 1 { assert s[i] == init[i]; }
      }
    }
  }

  /** Python `s.strip()`: drop leading and trailing whitespace, keep the rest. */
  function Strip(s: string): string {
    StripRight(StripLeft(s))
  }

  /** A stripped string has no outer whitespace, is a middle part of the input and is no longer. */
  lemma {:induction false} StripShape(s: string)
    ensures var r := Strip(s);
      && IsStripped(r) && |r| <= |StripLeft(s)| <= |s|
      && forall i :: 0 <= i < |r| ==> r[i] == s[|s| - |StripLeft(s)| + i]
  {
    var l := StripLeft(s);
    StripLeftShape(s);
    StripRightShape(l);
    var r := StripRight(l);
    assert forall i :: 0 <= i < |r| ==> r[i] == l[i];
    if r != [] {
      assert r[0] == l[0];
    }
  }

  /** The strip of a string is the slice of it between the outer whitespace. */
  lemma {:induction false} StripSlice(s: string)
    ensures var k := |s| - |StripLeft(s)|;
      0 <= k <= k + |Strip(s)| <= |s| && Strip(s) == s[k..k + |Strip(s)|]
  {
    StripShape(s);
  }

  /** A string without outer whitespace is its own strip. */
  lemma {:induction false} StripStripped(s: string)
    requires IsStripped(s)
    ensures Strip(s) == s
  {
  }

  lemma {:induction false} StripIdempotent(s: string)
    ensures Strip(Strip(s)) == Strip(s)
  {
    StripShape(s);
    StripStripped(Strip(s));
  }

  /** Upper-casing of one character (ASCII letters only, see README). */
  function UpperChar(c: char): (u: char)
    ensures !('a' <= u <= 'z')
    ensures 'a' <= c <= 'z' ==> 'A' <= u <= 'Z'
    ensures !('a' <= c <= 'z') ==> u == c
  {
    if 'a' <= c <= 'z' then (c as int - 32) as char else c
  }

  /** Python `s.upper()`, character by character. */
  function Upper(s: string): (r: string)
    ensures |r| == |s|
  {
    if s == [] then [] else [UpperChar(s[0])] + Upper(s[1..])
  }

  /** Each character is upper-cased in place. */
  lemma {:induction false} UpperAt(s: string)
    ensures forall i :: 0 <= i < |s| ==> Upper(s)[i] == UpperChar(s[i])
    decreases |s|
  {
    if s != [] {
      UpperAt(s[1..]);
      forall i | 0 <= i < |s| ensures Upper(s)[i] == UpperChar(s[i]) {
        if i > 0 { assert Upper(s)[i] == Upper(s[1..])[i - 1]; }
      }
    }
  }

  lemma {:induction false} UpperIdempotent(s: string)
    ensures Upper(Upper(s)) == Upper(s)
  {
    UpperAt(s);
    UpperAt(Upper(s));
  }

  /** Upper-casing never turns whitespace into text or text into whitespace. */
  lemma {:induction false} UpperKeepsStripped(s: string)
    requires IsStripped(s)
    ensures IsStripped(Upper(s))
  {
    UpperAt(s);
  }

  /** The characters of `s` that satisfy `sep` (none if the result is false). */
  predicate Avoids(s: string, sep: char -> bool) {
    forall i :: 0 <= i < |s| ==> !sep(s[i])
  }

  /**
   * `re.split('[...]', s)` for a character class `sep`: the pieces between
   * separators, empty pieces included; always at least one piece.
   */
  function SplitWhere(s: string, sep: char -> bool): (r: seq<string>)
    ensures |r| >= 1
    decreases |s|
  {
    if s == [] then [""]
    else
      var rest := SplitWhere(s[1..], sep);
      if sep(s[0]) then [""] + rest
      else [[s[0]] + rest[0]] + rest[1..]
  }

  /** No piece contains a separator. */
  lemma {:induction false} SplitWhereAvoids(s: string, sep: char -> bool)
    ensures forall p :: p in SplitWhere(s, sep) ==> Avoids(p, sep)
    decreases |s|
  {
    if s != [] {
      SplitWhereAvoids(s[1..], sep);
      var rest := SplitWhere(s[1..], sep);
      if !sep(s[0]) {
        var first := [s[0]] + rest[0];
        assert rest[0] in rest;
        assert forall i :: 1 <= i < |first| ==> first[i] == rest[0][i - 1];
        assert forall p :: p in rest[1..] ==> p in rest;
      }
    }
  }

  /** `s` is split into more than one piece exactly when it contains a separator. */
  lemma {:induction false} SplitSingle(s: string, sep: char -> bool)
    ensures |SplitWhere(s, sep)| == 1 <==> Avoids(s, sep)
    ensures Avoids(s, sep) ==> SplitWhere(s, sep) == [s]
    decreases |s|
  {
    if s != [] {
      SplitSingle(s[1..], sep);
      if !sep(s[0]) {
        assert Avoids(s, sep) <==> Avoids(s[1..], sep) by {
          if Avoids(s[1..], sep) {
            forall i | 0 <= i < |s| ensures !sep(s[i]) {
              if i > 0 { assert s[i] == s[1..][i - 1]; }
            }
          }
        }
        if Avoids(s, sep) { assert s == [s[0]] + s[1..]; }
      }
    }
  }

  /** A separator-free prefix followed by a separator becomes the first piece. */
  lemma {:induction false} SplitAfterPiece(p: string, c: char, rest: string, sep: char -> bool)
    requires Avoids(p, sep) && sep(c)
    ensures SplitWhere(p + [c] + rest, sep) == [p] + SplitWhere(rest, sep)
    decreases |p|
  {
    if p == [] {
      assert p + [c] + rest == [c] + rest;
      assert ([c] + rest)[1..] == rest;
    } else {
      var s := p + [c] + rest;
      assert s[1..] == p[1..] + [c] + rest;
      assert Avoids(p[1..], sep) by {
        forall i | 0 <= i < |p[1..]| ensures !sep(p[1..][i]) { assert p[1..][i] == p[i + 1]; }
      }
      SplitAfterPiece(p[1..], c, rest, sep);
      assert [p[0]] + p[1..] == p;
    }
  }

  /** Python `sep.join(parts)`. */
  function Join(sep: string, parts: seq<string>): string
    decreases |parts|
  {
    if |parts| == 0 then ""
    else if |parts| == 1 then parts[0]
    else parts[0] + sep + Join(sep, parts[1..])
  }

  /** Joining separator-free pieces with a separator character and splitting again gives the pieces back. */
  lemma {:induction false} SplitJoin(c: char, parts: seq<string>, sep: char -> bool)
    requires sep(c) && |parts| >= 1
    requires forall k :: 0 <= k < |parts| ==> Avoids(parts[k], sep)
    ensures SplitWhere(Join([c], parts), sep) == parts
    decreases |parts|
  {
    if |parts| == 1 {
      SplitSingle(parts[0], sep);
    } else {
      SplitJoin(c, parts[1..], sep);
      SplitAfterPiece(parts[0], c, Join([c], parts[1..]), sep);
      assert parts == [parts[0]] + parts[1..];
    }
  }

  /** A join of pieces one of which is non-empty is non-empty. */
  lemma {:induction false} JoinNonEmpty(sep: string, parts: seq<string>)
    requires |parts| >= 1 && parts[0] != []
    ensures Join(sep, parts) != []
  {
  }

  /** The non-empty strings of `xs`, in order. */
  function NonEmpty(xs: seq<string>): seq<string> {
    if xs == [] then []
    else if xs[0] == [] then NonEmpty(xs[1..])
    else [xs[0]] + NonEmpty(xs[1..])
  }

  /** Exactly the non-empty strings of `xs` are kept. */
  lemma {:induction false} NonEmptyMembers(xs: seq<string>)
    ensures forall w :: w in NonEmpty(xs) <==> w in xs && w != []
    decreases |xs|
  {
    if xs != [] {
      NonEmptyMembers(xs[1..]);
      assert xs == [xs[0]] + xs[1..];
    }
  }

  /** Python `s.split()`: the maximal runs of non-whitespace characters. */
  function Words(s: string): seq<string> {
    NonEmpty(SplitWhere(s, IsSpace))
  }

  /** Every word is non-empty and contains no whitespace. */
  lemma {:induction false} WordsShape(s: string)
    ensures forall w :: w in Words(s) ==> w != [] && Avoids(w, IsSpace)
  {
    NonEmptyMembers(SplitWhere(s, IsSpace));
    SplitWhereAvoids(s, IsSpace);
  }

  predicate IsBlank(s: string) {
    forall i :: 0 <= i < |s| ==> IsSpace(s[i])
  }

  /** A string has no words exactly when it is all whitespace. */
  lemma {:induction false} WordsEmpty(s: string)
    ensures Words(s) == [] <==> IsBlank(s)
    decreases |s|
  {
    if s != [] {
      WordsEmpty(s[1..]);
      var rest := SplitWhere(s[1..], IsSpace);
      assert IsBlank(s) <==> IsSpace(s[0]) && IsBlank(s[1..]) by {
        if IsSpace(s[0]) && IsBlank(s[1..]) {
          forall i | 0 <= i < |s| ensures IsSpace(s[i]) {
            if i > 0 { assert s[i] == s[1..][i - 1]; }
          }
        }
      }
      if IsSpace(s[0]) {
        assert SplitWhere(s, IsSpace) == [""] + rest;
        assert NonEmpty([""] + rest) == NonEmpty(rest) by { assert ([""] + rest)[1..] == rest; }
        assert Words(s) == Words(s[1..]);
      } else {
        var first := [s[0]] + rest[0];
        assert SplitWhere(s, IsSpace) == [first] + rest[1..];
        assert first in SplitWhere(s, IsSpace);
        NonEmptyMembers(SplitWhere(s, IsSpace));
        assert first in Words(s);
      }
    } else {
      assert SplitWhere(s, IsSpace) == [""];
      assert NonEmpty([""]) == NonEmpty([""][1..]);
    }
  }

  /** A stripped string has no words exactly when it is empty. */
  lemma {:induction false} NoWordsWhenEmpty(s: string)
    requires IsStripped(s)
    ensures Words(s) == [] <==> s == []
  {
    WordsEmpty(s);
    if s != [] { assert !IsSpace(s[0]); }
  }

  predicate IsDigit(c: char) {
    '0' <= c <= '9'
  }

  function DigitChar(d: nat): (c: char)
    requires d < 10
    ensures IsDigit(c)
  {
    ('0' as int + d) as char
  }

  function DigitValue(c: char): (d: nat)
    requires IsDigit(c)
    ensures d < 10
  {
    (c as int - '0' as int)
  }

  /** Python `str(n)` for a non-negative integer: its decimal digits. */
  function NatToString(n: nat): (s: string)
    ensures s != [] && forall i :: 0 <= i < |s| ==> IsDigit(s[i])
  {
    if n < 10 then [DigitChar(n)] else NatToString(n / 10) + [DigitChar(n % 10)]
  }

  /** The value of a string of decimal digits. */
  function ParseNat(s: string): nat
    requires forall i :: 0 <= i < |s| ==> IsDigit(s[i])
  {
    if s == [] then 0 else ParseNat(s[..|s| - 1]) * 10 + DigitValue(s[|s| - 1])
  }

  lemma {:induction false} ParseNatToString(n: nat)
    ensures ParseNat(NatToString(n)) == n
  {
    var s := NatToString(n);
    if n < 10 {
      assert s[..|s| - 1] == [];
    } else {
      ParseNatToString(n / 10);
      assert s[..|s| - 1] == NatToString(n / 10);
    }
  }
}

/** Shared datatypes and collection helpers used by the tokenizer model. */
module Base {

  datatype Option<+T> = None | Some(value: T)

  /** The only exception the modelled core raises itself: a missing dictionary key. */
  datatype Error = KeyError(key: Option<string>)

  datatype Result<+T> = Ok(value: T) | Err(error: Error)

  /** The set of elements of a sequence (Python `set(xs)`). */
  function ToSet<T>(xs: seq<T>): set<T> {
    set x | x in xs
  }

  lemma {:induction false} ToSetSnoc<T>(xs: seq<T>, x: T)
    ensures ToSet(xs + [x]) == ToSet(xs) + {x}
  {
  }

  predicate NoDups<T(==)>(xs: seq<T>) {
    forall i, j :: 0 <= i < j < |xs| ==> xs[i] != xs[j]
  }

  /** A duplicate-free sequence has as many elements as its set. */
  lemma {:induction false} NoDupsCard<T>(xs: seq<T>)
    requires NoDups(xs)
    ensures |ToSet(xs)| == |xs|
  {
    if xs != [] {
      var init := xs[..|xs| - 1];
      var last := xs[|xs| - 1];
      assert NoDups(init);
      NoDupsCard(init);
      assert xs == init + [last];
      assert last !in init;
      assert ToSet(xs) == ToSet(init) + {last};
    }
  }

  /** `a` agrees with `b` on every key of `a`. */
  ghost predicate SubMap<K, V>(a: map<K, V>, b: map<K, V>) {
    forall k :: k in a ==> k in b && b[k] == a[k]
  }

  /** The values of `m` at the keys `ks`, in order. */
  function Lookup<K, V>(m: map<K, V>, ks: seq<K>): (r: seq<V>)
    requires forall k :: k in ks ==> k in m
    ensures |r| == |ks|
    ensures forall i :: 0 <= i < |ks| ==> r[i] == m[ks[i]]
  {
    seq(|ks|, i requires 0 <= i < |ks| => m[ks[i]])
  }

  lemma {:induction false} LookupConcat<K, V>(m: map<K, V>, a: seq<K>, b: seq<K>)
    requires forall k :: k in a ==> k in m
    requires forall k :: k in b ==> k in m
    ensures forall k :: k in a + b ==> k in m
    ensures Lookup(m, a + b) == Lookup(m, a) + Lookup(m, b)
  {
    assert forall k :: k in a + b ==> k in a || k in b;
    var l, r := Lookup(m, a + b), Lookup(m, a) + Lookup(m, b);
    forall i | 0 <= i < |l| ensures l[i] == r[i] {
      if i < |a| { assert (a + b)[i] == a[i]; } else { assert (a + b)[i] == b[i - |a|]; }
    }
  }

  /** Every looked-up value is a value of the map. */
  lemma {:induction false} LookupValues<K, V>(m: map<K, V>, ks: seq<K>)
    requires forall k :: k in ks ==> k in m
    ensures forall v :: v in Lookup(m, ks) ==> v in m.Values
  {
    var r := Lookup(m, ks);
    forall v | v in r ensures v in m.Values {
      var i :| 0 <= i < |r| && r[i] == v;
      assert m[ks[i]] == v;
    }
  }

  /** Taking one key out of the middle takes its value out of the looked-up multiset. */
  lemma {:induction false} LookupRemove<K, V>(m: map<K, V>, b: seq<K>, k: nat)
    requires forall x :: x in b ==> x in m
    requires k < |b|
    ensures forall x :: x in b[..k] + b[k + 1..] ==> x in m
    ensures multiset(Lookup(m, b)) == multiset(Lookup(m, b[..k] + b[k + 1..])) + multiset{m[b[k]]}
  {
    var c := b[..k] + b[k + 1..];
    assert forall x :: x in c ==> x in b;
    var l, r := Lookup(m, b), Lookup(m, c);
    var p, q := l[..k], l[k + 1..];
    forall i | 0 <= i < |r| ensures r[i] == (p + q)[i] {
      if i < k {
        assert c[i] == b[i] && (p + q)[i] == l[i];
      } else {
        assert c[i] == b[i + 1] && (p + q)[i] == l[i + 1];
      }
    }
    assert r == p + q;
    assert l == p + [l[k]] + q;
    calc {
      multiset(l);
      multiset(p) + multiset([l[k]]) + multiset(q);
      multiset(r) + multiset{m[b[k]]};
    }
  }

  /** Keys of a permutation of `a` are keys of `m` when those of `a` are. */
  lemma {:induction false} PermutationKeys<K, V>(m: map<K, V>, a: seq<K>, b: seq<K>)
    requires forall k :: k in a ==> k in m
    requires multiset(a) == multiset(b)
    ensures forall k :: k in b ==> k in m
  {
    forall k | k in b ensures k in m {
      assert k in multiset(b);
    }
  }

  /** Removing the same element from two permutations leaves permutations. */
  lemma {:induction false} PermutationRemove<K>(a: seq<K>, b: seq<K>, k: nat)
    requires multiset(a) == multiset(b)
    requires a != [] && k < |b| && b[k] == a[0]
    ensures multiset(b[..k] + b[k + 1..]) == multiset(a[1..])
  {
    var x := a[0];
    var b1, b2 := b[..k], b[k + 1..];
    assert b == b1 + [x] + b2;
    assert multiset(b) == multiset(b1) + multiset{x} + multiset(b2);
    assert multiset(b1 + b2) == multiset(b1) + multiset(b2);
    assert a == [x] + a[1..];
    assert multiset(a) == multiset{x} + multiset(a[1..]);
    assert multiset(a[1..]) == multiset(a) - multiset{x};
    assert multiset(b1) + multiset(b2) == multiset(b) - multiset{x};
  }

  /** Looking up a permutation of the keys yields a permutation of the values. */
  lemma {:induction false} LookupPermutation<K, V>(m: map<K, V>, a: seq<K>, b: seq<K>)
    requires forall k :: k in a ==> k in m
    requires multiset(a) == multiset(b)
    ensures forall k :: k in b ==> k in m
    ensures multiset(Lookup(m, a)) == multiset(Lookup(m, b))
  {
    PermutationKeys(m, a, b);
    if a == [] {
      assert |multiset(b)| == 0;
    } else {
      var x := a[0];
      assert x in multiset(b);
      var k :| 0 <= k < |b| && b[k] == x;
      PermutationRemove(a, b, k);
      assert forall y :: y in a[1..] ==> y in a;
      LookupPermutation(m, a[1..], b[..k] + b[k + 1..]);
      LookupRemove(m, b, k);
      assert Lookup(m, a) == [m[x]] + Lookup(m, a[1..]);
    }
  }

  /** Looking up keys of a sub-map gives the same values in the bigger map. */
  lemma {:induction false} LookupSubMap<K, V>(m: map<K, V>, m': map<K, V>, ks: seq<K>)
    requires forall k :: k in ks ==> k in m
    requires SubMap(m, m')
    ensures forall k :: k in ks ==> k in m'
    ensures Lookup(m, ks) == Lookup(m', ks)
  {
  }

  /** The elements of `xs` that are keys of `m`, in order (the cache hits). */
  function Present<K(!new), V>(m: map<K, V>, xs: seq<K>): (r: seq<K>)
    ensures forall x :: x in r ==> x in xs && x in m
    decreases |xs|
  {
    if xs == [] then []
    else Present(m, xs[..|xs| - 1]) + (if xs[|xs| - 1] in m then [xs[|xs| - 1]] else [])
  }

  /** The elements of `xs` that are not keys of `m`, in order (the cache misses). */
  function Absent<K(!new), V>(m: map<K, V>, xs: seq<K>): (r: seq<K>)
    ensures forall x :: x in r ==> x in xs && x !in m
    decreases |xs|
  {
    if xs == [] then []
    else Absent(m, xs[..|xs| - 1]) + (if xs[|xs| - 1] !in m then [xs[|xs| - 1]] else [])
  }

  lemma {:induction false} PresentAbsentSnoc<K(!new), V>(m: map<K, V>, xs: seq<K>, x: K)
    ensures Present(m, xs + [x]) == Present(m, xs) + (if x in m then [x] else [])
    ensures Absent(m, xs + [x]) == Absent(m, xs) + (if x !in m then [x] else [])
  {
    assert (xs + [x])[..|xs|] == xs;
  }

  /** One more input element extends the looked-up hits or the misses. */
  lemma {:induction false} LookupHitsSnoc<K(!new), V>(m: map<K, V>, xs: seq<K>, x: K)
    ensures Lookup(m, Present(m, xs + [x])) == Lookup(m, Present(m, xs)) + (if x in m then [m[x]] else [])
    ensures Absent(m, xs + [x]) == Absent(m, xs) + (if x !in m then [x] else [])
  {
    PresentAbsentSnoc(m, xs, x);
    if x in m {
      LookupSnoc(m, Present(m, xs), x);
    }
  }

  /** Looking up one more key appends its value. */
  lemma {:induction false} LookupSnoc<K, V>(m: map<K, V>, ks: seq<K>, x: K)
    requires forall k :: k in ks ==> k in m
    requires x in m
    ensures forall k :: k in ks + [x] ==> k in m
    ensures Lookup(m, ks + [x]) == Lookup(m, ks) + [m[x]]
  {
    assert forall k :: k in ks + [x] ==> k in ks || k == x;
    var l, r := Lookup(m, ks + [x]), Lookup(m, ks) + [m[x]];
    forall i | 0 <= i < |l| ensures l[i] == r[i] {
      if i < |ks| { assert (ks + [x])[i] == ks[i]; }
    }
  }

  /** Hits followed by misses are a permutation of the input. */
  lemma {:induction false} PresentAbsentPermutation<K(!new), V>(m: map<K, V>, xs: seq<K>)
    ensures multiset(Present(m, xs) + Absent(m, xs)) == multiset(xs)
    decreases |xs|
  {
    if xs != [] {
      var init, last := xs[..|xs| - 1], xs[|xs| - 1];
      PresentAbsentPermutation(m, init);
      var p, a := Present(m, init), Absent(m, init);
      assert xs == init + [last];
      if last in m {
        assert Present(m, xs) == p + [last];
        assert Absent(m, xs) == a;
      } else {
        assert Present(m, xs) == p;
        assert Absent(m, xs) == a + [last];
      }
    }
  }

  /** Adding the misses to the cache's keys gives the cache's keys plus the input. */
  lemma {:induction false} MissesCoverInput<K(!new), V>(cache: map<K, V>, xs: seq<K>)
    ensures cache.Keys + ToSet(Absent(cache, xs)) == cache.Keys + ToSet(xs)
    decreases |xs|
  {
    if xs != [] {
      var init, last := xs[..|xs| - 1], xs[|xs| - 1];
      MissesCoverInput(cache, init);
      PresentAbsentSnoc(cache, init, last);
      assert xs == init + [last];
      ToSetSnoc(init, last);
      var a := Absent(cache, init);
      if last !in cache {
        assert Absent(cache, xs) == a + [last];
        ToSetSnoc(a, last);
      } else {
        assert Absent(cache, xs) == a;
        assert last in cache.Keys;
      }
    }
  }

  /** Looking up the hits and then the misses yields the lookups of the input, reordered. */
  lemma {:induction false} HitsThenMisses<K(!new), V, W>(cache: map<K, W>, m: map<K, V>, xs: seq<K>)
    requires forall x :: x in xs ==> x in m
    ensures forall x :: x in Present(cache, xs) + Absent(cache, xs) ==> x in m
    ensures multiset(Lookup(m, Present(cache, xs) + Absent(cache, xs))) == multiset(Lookup(m, xs))
    ensures |Lookup(m, Present(cache, xs) + Absent(cache, xs))| == |xs|
  {
    PresentAbsentPermutation(cache, xs);
    var ys := Present(cache, xs) + Absent(cache, xs);
    assert forall x :: x in ys ==> x in xs;
    LookupPermutation(m, ys, xs);
    assert |ys| == |multiset(ys)| == |multiset(xs)| == |xs|;
  }

  /** Every element of `xs` is a key of `m` exactly when there are no misses. */
  lemma {:induction false} AbsentEmpty<K(!new), V>(m: map<K, V>, xs: seq<K>)
    ensures Absent(m, xs) == [] <==> forall x :: x in xs ==> x in m
    decreases |xs|
  {
    if xs != [] {
      var init, last := xs[..|xs| - 1], xs[|xs| - 1];
      AbsentEmpty(m, init);
      PresentAbsentSnoc(m, init, last);
      assert xs == init + [last];
    }
  }

  /** The map after `m[keys[i]] = vals[i]` for each `i` in turn. */
  function Remembered<K, V>(m: map<K, V>, keys: seq<K>, vals: seq<V>): map<K, V>
    requires |keys| == |vals|
    decreases |keys|
  {
    if keys == [] then m
    else Remembered(m, keys[..|keys| - 1], vals[..|vals| - 1])[keys[|keys| - 1] := vals[|vals| - 1]]
  }

  /**
   * Remembering values taken from `t` into a sub-map of `t` keeps it a sub-map
   * of `t`, keeps what it held, and adds exactly the remembered keys.
   */
  lemma {:induction false} RememberedWithin<K, V>(m: map<K, V>, keys: seq<K>, vals: seq<V>, t: map<K, V>)
    requires |keys| == |vals| && SubMap(m, t)
    requires forall i :: 0 <= i < |keys| ==> keys[i] in t && vals[i] == t[keys[i]]
    ensures SubMap(m, Remembered(m, keys, vals)) && SubMap(Remembered(m, keys, vals), t)
    ensures Remembered(m, keys, vals).Keys == m.Keys + ToSet(keys)
    decreases |keys|
  {
    if keys != [] {
      var n := |keys| - 1;
      RememberedWithin(m, keys[..n], vals[..n], t);
      assert keys == keys[..n] + [keys[n]];
      ToSetSnoc(keys[..n], keys[n]);
    }
  }

  /** Iterating over a Python set: every element once, in an unspecified order. */
  method Enumerate<T>(s: set<T>) returns (xs: seq<T>)
    ensures NoDups(xs)
    ensures ToSet(xs) == s
  {
    xs := [];
    var rest := s;
    while rest != {}
      invariant rest !! ToSet(xs)
      invariant ToSet(xs) + rest == s
      invariant NoDups(xs)
      decreases |rest|
    {
      var x :| x in rest;
      xs := xs + [x];
      rest := rest - {x};
    }
  }
}

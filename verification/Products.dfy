/** Products of reals, one by one and over sequences in any order. */
module Products {
  import opened Sums

  function Times(a: real, b: real): real { a * b }

  lemma TimesAssociates(a: real, b: real, c: real)
    ensures Times(Times(a, b), c) == Times(a, Times(b, c))
  {}

  lemma TimesSwaps(a: real, b: real, c: real)
    ensures Times(a, Times(b, c)) == Times(b, Times(a, c))
  {}

  lemma TimesParts(k: real, a: real)
    ensures Times(k, a) + Times(k, 1.0 - a) == k
  {}

  lemma TimesOne(k: real)
    ensures Times(k, 1.0) == k && Times(1.0, k) == k
  {}

  lemma TimesPositive(a: real, b: real)
    requires a > 0.0 && b > 0.0
    ensures Times(a, b) > 0.0
  {}

  /** The product of f over a sequence. */
  function ProductOf<T>(s: seq<T>, f: T -> real): real {
    if s == [] then 1.0 else Times(f(s[0]), ProductOf(s[1..], f))
  }

  function Filter<T>(s: seq<T>, p: T -> bool): seq<T> {
    if s == [] then [] else (if p(s[0]) then [s[0]] else []) + Filter(s[1..], p)
  }

  lemma {:induction false} ProductConcat<T>(s: seq<T>, t: seq<T>, f: T -> real)
    ensures ProductOf(s + t, f) == Times(ProductOf(s, f), ProductOf(t, f))
  {
    hide Times;
    if s == [] {
      assert s + t == t;
      TimesOne(ProductOf(t, f));
    } else {
      assert (s + t)[1..] == s[1..] + t;
      ProductConcat(s[1..], t, f);
      TimesAssociates(f(s[0]), ProductOf(s[1..], f), ProductOf(t, f));
    }
  }

  lemma {:induction false} ProductRemove<T>(s: seq<T>, i: nat, f: T -> real)
    requires i < |s|
    ensures ProductOf(s, f) == Times(f(s[i]), ProductOf(s[..i] + s[i + 1..], f))
  {
    hide Times;
    if i == 0 {
      assert s[..0] + s[1..] == s[1..];
    } else {
      ProductRemove(s[1..], i - 1, f);
      var rest := s[..i] + s[i + 1..];
      assert rest[1..] == s[1..][..i - 1] + s[1..][i..];
      TimesSwaps(f(s[0]), f(s[i]), ProductOf(rest[1..], f));
    }
  }

  /** A product does not depend on the order of its factors. */
  lemma {:induction false} ProductPermutes<T>(s: seq<T>, t: seq<T>, f: T -> real)
    requires multiset(s) == multiset(t)
    ensures ProductOf(s, f) == ProductOf(t, f)
  {
    hide Times, ProductOf;
    assert |multiset(s)| == |multiset(t)|;
    if s == [] {
      assert s == t;
    } else {
      assert s[0] in multiset(t);
      var i :| 0 <= i < |t| && t[i] == s[0];
      MultisetRemove(s, 0);
      MultisetRemove(t, i);
      ProductPermutes(s[..0] + s[1..], t[..i] + t[i + 1..], f);
      ProductRemove(s, 0, f);
      ProductRemove(t, i, f);
    }
  }

  /** The product of pointwise products. */
  lemma {:induction false} ProductOfTimes<T>(s: seq<T>, f: T -> real, g: T -> real, h: T -> real)
    requires forall x :: x in s ==> f(x) == Times(g(x), h(x))
    ensures ProductOf(s, f) == Times(ProductOf(s, g), ProductOf(s, h))
  {
    hide Times;
    if s == [] {
      TimesOne(1.0);
    } else {
      var gs, hs := ProductOf(s[1..], g), ProductOf(s[1..], h);
      ProductOfTimes(s[1..], f, g, h);
      assert s[0] in s;
      TimesAssociates(g(s[0]), h(s[0]), Times(gs, hs));
      TimesSwaps(h(s[0]), gs, hs);
      TimesAssociates(g(s[0]), gs, Times(h(s[0]), hs));
    }
  }

  /** Elements whose factor is one may be filtered out. */
  lemma {:induction false} ProductFilter<T>(s: seq<T>, p: T -> bool, f: T -> real)
    requires forall x :: x in s && !p(x) ==> f(x) == 1.0
    ensures ProductOf(Filter(s, p), f) == ProductOf(s, f)
  {
    hide Times;
    if s != [] {
      assert s[0] in s;
      ProductFilter(s[1..], p, f);
      if p(s[0]) {
        assert Filter(s, p)[1..] == Filter(s[1..], p);
      } else {
        assert Filter(s, p) == Filter(s[1..], p);
        TimesOne(ProductOf(s[1..], f));
      }
    }
  }

  lemma {:induction false} ProductPositive<T>(s: seq<T>, f: T -> real)
    requires forall x :: x in s ==> f(x) > 0.0
    ensures ProductOf(s, f) > 0.0
  {
    hide Times;
    if s != [] {
      assert s[0] in s;
      ProductPositive(s[1..], f);
      TimesPositive(f(s[0]), ProductOf(s[1..], f));
    }
  }

  lemma {:induction false} ProductSame<T>(s: seq<T>, f: T -> real, g: T -> real)
    requires forall x :: x in s ==> f(x) == g(x)
    ensures ProductOf(s, f) == ProductOf(s, g)
  {
    hide Times;
    if s != [] {
      assert s[0] in s;
      ProductSame(s[1..], f, g);
    }
  }
}

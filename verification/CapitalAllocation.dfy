/**
 Largest-remainder apportionment of capital, engine/core/capital_allocation.py.
 Amounts, weights and quotas are exact; a mapping is the sequence of its items.
 */
module CapitalAllocation {
  import opened Wrappers
  import opened Sums
  import opened Sorting
  import opened OrderedDict

  type Weight = Entry<string, real>

  datatype AllocationError = NegativeCapital | NoStrategies | NegativeWeight(id: string)
                           | WeightsSumToZero | RemainderOutOfRange

  /** What fixes every quota: the cents to give out and the sum of all weights. */
  datatype Scale = Scale(cents: nat, sum: real)
  type Basis = s: Scale | s.sum > 0.0 witness Scale(0, 1.0)

  function Quota(b: Basis, w: real): real { b.cents as real * w / b.sum }

  function Share(b: Basis, w: real): int { Quota(b, w).Floor }

  function Frac(b: Basis, w: real): (f: real)
    ensures 0.0 <= f < 1.0
  {
    Quota(b, w) - Share(b, w) as real
  }

  /** Python's order on strings: by code points, a prefix first. */
  predicate StrLe(a: string, b: string) {
    a == [] || (b != [] && (a[0] < b[0] || (a[0] == b[0] && StrLe(a[1..], b[1..]))))
  }

  /** The ranking key (-frac, id). */
  predicate Before(b: Basis, x: Weight, y: Weight) {
    Frac(b, x.value) > Frac(b, y.value) || (Frac(b, x.value) == Frac(b, y.value) && StrLe(x.key, y.key))
  }

  function Ranking(b: Basis, ws: seq<Weight>): (r: seq<Weight>)
    ensures |r| == |ws| && multiset(r) == multiset(ws)
  {
    SortPermutes(ws, (x, y) => Before(b, x, y));
    Sort(ws, (x, y) => Before(b, x, y))
  }

  function TotalWeight(ws: seq<Weight>): real {
    if ws == [] then 0.0 else ws[0].value + TotalWeight(ws[1..])
  }

  function Assigned(b: Basis, ws: seq<Weight>): int {
    if ws == [] then 0 else Share(b, ws[0].value) + Assigned(b, ws[1..])
  }

  function FirstNegative(ws: seq<Weight>): Option<string> {
    if ws == [] then None
    else if ws[0].value < 0.0 then Some(ws[0].key)
    else FirstNegative(ws[1..])
  }

  function KeySet(ws: seq<Weight>): set<string> { set e | e in ws :: e.key }

  function Raised(floors: map<string, int>, winners: set<string>): map<string, int> {
    map k | k in floors :: floors[k] + (if k in winners then 1 else 0)
  }

  /** The floors of the listed strategies. */
  function Floors(b: Basis, ws: seq<Weight>, ids: set<string>): map<string, int> {
    map k | k in ids :: Share(b, match Find(ws, k) case Some(w) => w case None => 0.0)
  }

  function Apportion(b: Basis, ws: seq<Weight>): Result<map<string, int>, AllocationError> {
    var remainder := b.cents - Assigned(b, ws);
    if remainder < 0 || remainder > |ws| then Err(RemainderOutOfRange)
    else Ok(Raised(Floors(b, ws, Keys(ws)), KeySet(Ranking(b, ws)[..remainder])))
  }

  /** allocate_capital, in cents. */
  function Allocate(capital: real, ws: seq<Weight>): Result<map<string, int>, AllocationError> {
    if capital < 0.0 then Err(NegativeCapital)
    else if ws == [] then if capital > 0.0 then Err(NoStrategies) else Ok(map[])
    else if FirstNegative(ws).Some? then Err(NegativeWeight(FirstNegative(ws).value))
    else if TotalWeight(ws) == 0.0 then Err(WeightsSumToZero)
    else
      SumIsNonnegative(ws);
      Apportion(Scale((capital * 100.0).Floor, TotalWeight(ws)), ws)
  }

  // ----- what a largest-remainder apportionment is, without an algorithm

  function Amount(m: map<string, int>): string -> real {
    k => if k in m then m[k] as real else 0.0
  }

  ghost function Total(m: map<string, int>): real { SumOver(m.Keys, Amount(m)) }

  /**
   All the cents are given out, each strategy gets its floor or one cent more,
   and whoever gets the cent precedes in (larger fraction, smaller id) everybody who does not.
   */
  ghost predicate Hamilton(b: Basis, ws: seq<Weight>, m: map<string, int>) {
    && m.Keys == Keys(ws)
    && Total(m) == b.cents as real
    && (forall e :: e in ws ==> e.key in m && Share(b, e.value) <= m[e.key] <= Share(b, e.value) + 1)
    && (forall x, y :: x in ws && y in ws && Favoured(b, m, x) && !Favoured(b, m, y) ==> Before(b, x, y))
  }

  predicate Favoured(b: Basis, m: map<string, int>, e: Weight) {
    e.key in m && m[e.key] > Share(b, e.value)
  }

  // ----- the order of the ranking

  lemma {:induction false} StrLeTotal(a: string, b: string)
    ensures StrLe(a, b) || StrLe(b, a)
    ensures StrLe(a, b) && StrLe(b, a) ==> a == b
  {
    if a != [] && b != [] && a[0] == b[0] {
      StrLeTotal(a[1..], b[1..]);
      assert a == [a[0]] + a[1..] && b == [b[0]] + b[1..];
    }
  }

  lemma {:induction false} StrLeTransitive(a: string, b: string, c: string)
    requires StrLe(a, b) && StrLe(b, c)
    ensures StrLe(a, c)
  {
    if a != [] && a[0] == b[0] == c[0] {
      StrLeTransitive(a[1..], b[1..], c[1..]);
    }
  }

  lemma BeforeIsOrder(b: Basis)
    ensures TotalPreorder((x, y) => Before(b, x, y))
  {
    forall x: Weight, y: Weight
      ensures Before(b, x, y) || Before(b, y, x)
    {
      StrLeTotal(x.key, y.key);
    }
    forall x: Weight, y: Weight, z: Weight | Before(b, x, y) && Before(b, y, z)
      ensures Before(b, x, z)
    {
      if StrLe(x.key, y.key) && StrLe(y.key, z.key) {
        StrLeTransitive(x.key, y.key, z.key);
      }
    }
  }

  // ----- mappings

  lemma {:induction false} KeySetIsKeys(ws: seq<Weight>)
    ensures KeySet(ws) == Keys(ws)
  {
    if ws != [] {
      KeySetIsKeys(ws[1..]);
      assert forall e :: e in ws <==> e == ws[0] || e in ws[1..];
    }
  }

  lemma {:induction false} DistinctOnce(ws: seq<Weight>, e: Weight)
    requires Distinct(ws)
    ensures multiset(ws)[e] <= 1
  {
    if ws != [] {
      DistinctOnce(ws[1..], e);
      assert multiset(ws) == multiset{ws[0]} + multiset(ws[1..]) by {
        assert ws == [ws[0]] + ws[1..];
      }
      if e == ws[0] && e in ws[1..] {
        EntryInKeys(ws[1..], e);
      }
    }
  }

  lemma SameKeySameEntry(ws: seq<Weight>, x: Weight, y: Weight)
    requires Distinct(ws) && x in ws && y in ws && x.key == y.key
    ensures x == y
  {
    EntryInKeys(ws, x);
    EntryInKeys(ws, y);
  }

  /** No key comes twice in a reordering of a mapping's items. */
  lemma RankingDistinct(ws: seq<Weight>, r: seq<Weight>, i: nat, j: nat)
    requires Distinct(ws) && multiset(r) == multiset(ws) && i < j < |r|
    ensures r[i].key != r[j].key
  {
    if r[i].key == r[j].key {
      assert r[i] in multiset(r) && r[j] in multiset(r);
      SameKeySameEntry(ws, r[i], r[j]);
      assert r == r[..j] + r[j..];
      assert r[i] in r[..j] && r[i] in r[j..];
      DistinctOnce(ws, r[i]);
      assert false;
    }
  }

  lemma {:induction false} PrefixSize(ws: seq<Weight>, r: seq<Weight>, n: nat)
    requires Distinct(ws) && multiset(r) == multiset(ws) && n <= |r|
    ensures |KeySet(r[..n])| == n
  {
    if n > 0 {
      PrefixSize(ws, r, n - 1);
      PrefixStep(ws, r, n - 1);
    }
  }

  lemma PrefixStep(ws: seq<Weight>, r: seq<Weight>, i: nat)
    requires Distinct(ws) && multiset(r) == multiset(ws) && i < |r|
    ensures KeySet(r[..i + 1]) == KeySet(r[..i]) + {r[i].key}
    ensures r[i].key !in KeySet(r[..i])
  {
    assert r[..i + 1] == r[..i] + [r[i]];
    forall a | 0 <= a < i
      ensures r[a].key != r[i].key
    {
      RankingDistinct(ws, r, a, i);
    }
  }

  lemma FloorsAt(b: Basis, ws: seq<Weight>, e: Weight)
    requires Distinct(ws) && e in ws
    ensures e.key in Keys(ws) && Floors(b, ws, Keys(ws))[e.key] == Share(b, e.value)
  {
    EntryInKeys(ws, e);
  }

  // ----- sums

  /** Raising by one cent on a set of strategies adds its size. */
  lemma {:induction false} RaisedSum(s: set<string>, low: string -> real, high: string -> real, up: set<string>)
    requires forall k :: k in s ==> high(k) == low(k) + (if k in up then 1.0 else 0.0)
    ensures SumOver(s, high) == SumOver(s, low) + |s * up| as real
  {
    if s != {} {
      var k :| k in s;
      SumOverPick(s, low, k);
      SumOverPick(s, high, k);
      RaisedSum(s - {k}, low, high, up);
      assert s * up == (s - {k}) * up + (if k in up then {k} else {});
    } else {
      assert s * up == {};
    }
  }

  /** A sum of fractions is below the number of positive ones, unless there are none. */
  lemma {:induction false} FractionalSum(s: set<string>, f: string -> real, positive: set<string>)
    requires forall k :: k in s ==> 0.0 <= f(k) < 1.0
    requires forall k :: k in positive <==> k in s && f(k) > 0.0
    ensures if positive == {} then SumOver(s, f) == 0.0 else 0.0 < SumOver(s, f) < |positive| as real
  {
    if s != {} {
      var k :| k in s;
      SumOverPick(s, f, k);
      FractionalSum(s - {k}, f, positive - {k});
      if k in positive {
        assert |positive| == |positive - {k}| + 1;
      } else {
        assert positive - {k} == positive;
      }
    }
  }

  lemma QuotaAdds(b: Basis, v: real, w: real)
    ensures Quota(b, v + w) == Quota(b, v) + Quota(b, w)
  {
    var c := b.cents as real;
    assert c * (v + w) == c * v + c * w;
  }

  ghost function FracOf(b: Basis, ws: seq<Weight>): string -> real {
    k => match Find(ws, k) case Some(w) => Frac(b, w) case None => 0.0
  }

  /** The floors and the fractions of all strategies make up the whole. */
  lemma {:induction false} QuotasSum(b: Basis, ws: seq<Weight>, f: string -> real, g: string -> real)
    requires Distinct(ws)
    requires forall e :: e in ws ==> f(e.key) == Frac(b, e.value) && g(e.key) == Share(b, e.value) as real
    ensures SumOver(Keys(ws), g) == Assigned(b, ws) as real
    ensures SumOver(Keys(ws), f) + Assigned(b, ws) as real == Quota(b, TotalWeight(ws))
    decreases ws
  {
    if ws != [] {
      QuotasSum(b, ws[1..], f, g);
      SumOverPick(Keys(ws), f, ws[0].key);
      SumOverPick(Keys(ws), g, ws[0].key);
      assert Keys(ws) - {ws[0].key} == Keys(ws[1..]);
      QuotaAdds(b, ws[0].value, TotalWeight(ws[1..]));
    }
  }

  lemma WholeQuota(b: Basis)
    ensures Quota(b, b.sum) == b.cents as real
  {
    assert b.cents as real * b.sum / b.sum == b.cents as real;
  }

  ghost function Positive(b: Basis, ws: seq<Weight>): set<string> {
    set k | k in Keys(ws) && FracOf(b, ws)(k) > 0.0
  }

  /** The remainder is below the number of strategies with a fraction of a cent, or both are zero. */
  lemma RemainderBelowFractions(b: Basis, ws: seq<Weight>)
    requires Distinct(ws) && b.sum == TotalWeight(ws)
    ensures var r := b.cents - Assigned(b, ws);
            if Positive(b, ws) == {} then r == 0 else 0 < r < |Positive(b, ws)|
    ensures |Positive(b, ws)| <= |ws|
    ensures SumOver(Keys(ws), Amount(Floors(b, ws, Keys(ws)))) == Assigned(b, ws) as real
  {
    var f, g := FracOf(b, ws), Amount(Floors(b, ws, Keys(ws)));
    forall e | e in ws
      ensures f(e.key) == Frac(b, e.value) && g(e.key) == Share(b, e.value) as real
    {
      EntryInKeys(ws, e);
    }
    QuotasSum(b, ws, f, g);
    WholeQuota(b);
    FractionalSum(Keys(ws), f, Positive(b, ws));
    SubsetSize(Positive(b, ws), Keys(ws));
    KeysSize(ws);
  }

  // ----- the result is a largest-remainder apportionment

  /** An item in a prefix of a reordering by key, and one that is not, have places in that order. */
  lemma PrefixPlaces(ws: seq<Weight>, r: seq<Weight>, n: nat, x: Weight, y: Weight) returns (i: nat, j: nat)
    requires Distinct(ws) && multiset(r) == multiset(ws) && n <= |r| && x in ws && y in ws
    requires x.key in KeySet(r[..n]) && y.key !in KeySet(r[..n])
    ensures i < n <= j < |r| && r[i] == x && r[j] == y
  {
    var x' :| x' in r[..n] && x'.key == x.key;
    assert x' in multiset(r) && y in multiset(ws);
    SameKeySameEntry(ws, x, x');
    i :| 0 <= i < n && r[i] == x;
    assert y !in r[..n] && r == r[..n] + r[n..];
    assert y in r[n..];
    var k :| 0 <= k < |r[n..]| && r[n..][k] == y;
    j := n + k;
  }

  lemma RankingOrders(b: Basis, ws: seq<Weight>, i: nat, j: nat)
    requires i < j < |Ranking(b, ws)|
    ensures Before(b, Ranking(b, ws)[i], Ranking(b, ws)[j])
  {
    BeforeIsOrder(b);
    SortSorts(ws, (x, y) => Before(b, x, y));
  }

  lemma WinnersPrecede(b: Basis, ws: seq<Weight>, n: nat, x: Weight, y: Weight)
    requires Distinct(ws) && n <= |Ranking(b, ws)| && x in ws && y in ws
    requires x.key in KeySet(Ranking(b, ws)[..n]) && y.key !in KeySet(Ranking(b, ws)[..n])
    ensures Before(b, x, y)
  {
    var i, j := PrefixPlaces(ws, Ranking(b, ws), n, x, y);
    RankingOrders(b, ws, i, j);
  }

  lemma RaisedTotal(b: Basis, ws: seq<Weight>, up: set<string>)
    requires Distinct(ws) && b.sum == TotalWeight(ws) && up <= Keys(ws)
    ensures Total(Raised(Floors(b, ws, Keys(ws)), up)) == (Assigned(b, ws) + |up|) as real
  {
    hide Share, Frac, Quota, Assigned, TotalWeight, Positive, Find;
    var floors := Floors(b, ws, Keys(ws));
    var m := Raised(floors, up);
    RemainderBelowFractions(b, ws);
    assert m.Keys == Keys(ws) && Keys(ws) * up == up;
    RaisedSum(m.Keys, Amount(floors), Amount(m), up);
  }

  lemma RaisedAt(b: Basis, ws: seq<Weight>, up: set<string>, e: Weight)
    requires Distinct(ws) && e in ws
    ensures var m := Raised(Floors(b, ws, Keys(ws)), up);
            && e.key in m && m[e.key] == Share(b, e.value) + (if e.key in up then 1 else 0)
            && (Favoured(b, m, e) <==> e.key in up)
  {
    FloorsAt(b, ws, e);
  }

  /** Raising the floors of the right number of strategies, all before the others, is an apportionment. */
  lemma RaisedIsHamilton(b: Basis, ws: seq<Weight>, up: set<string>)
    requires Distinct(ws) && b.sum == TotalWeight(ws) && up <= Keys(ws) && |up| == b.cents - Assigned(b, ws)
    requires forall x, y :: x in ws && y in ws && x.key in up && y.key !in up ==> Before(b, x, y)
    ensures Hamilton(b, ws, Raised(Floors(b, ws, Keys(ws)), up))
  {
    var m := Raised(Floors(b, ws, Keys(ws)), up);
    RaisedTotal(b, ws, up);
    forall e | e in ws
      ensures e.key in m && Share(b, e.value) <= m[e.key] <= Share(b, e.value) + 1
      ensures Favoured(b, m, e) <==> e.key in up
    {
      RaisedAt(b, ws, up, e);
    }
  }

  lemma WinnersAreKeys(b: Basis, ws: seq<Weight>, n: nat)
    requires Distinct(ws) && n <= |ws|
    ensures KeySet(Ranking(b, ws)[..n]) <= Keys(ws) && |KeySet(Ranking(b, ws)[..n])| == n
  {
    var r := Ranking(b, ws);
    PrefixSize(ws, r, n);
    forall e | e in r[..n]
      ensures e.key in Keys(ws)
    {
      assert e in multiset(r);
      EntryInKeys(ws, e);
    }
  }

  lemma RemainderInRange(b: Basis, ws: seq<Weight>)
    requires Distinct(ws) && b.sum == TotalWeight(ws)
    ensures 0 <= b.cents - Assigned(b, ws) <= |ws|
  {
    RemainderBelowFractions(b, ws);
  }

  lemma ApportionIs(b: Basis, ws: seq<Weight>)
    requires Distinct(ws) && b.sum == TotalWeight(ws)
    ensures 0 <= b.cents - Assigned(b, ws) <= |ws|
    ensures Apportion(b, ws) == Ok(Raised(Floors(b, ws, Keys(ws)), KeySet(Ranking(b, ws)[..b.cents - Assigned(b, ws)])))
  {
    RemainderInRange(b, ws);
  }

  /** The apportionment of every positive set of weights succeeds, and is one. */
  lemma ApportionIsHamilton(b: Basis, ws: seq<Weight>)
    requires Distinct(ws) && b.sum == TotalWeight(ws)
    ensures Apportion(b, ws).Ok? && Hamilton(b, ws, Apportion(b, ws).value)
  {
    ApportionIs(b, ws);
    var n := b.cents - Assigned(b, ws);
    WinnersAreKeys(b, ws, n);
    var up := KeySet(Ranking(b, ws)[..n]);
    forall x, y | x in ws && y in ws && x.key in up && y.key !in up
      ensures Before(b, x, y)
    {
      WinnersPrecede(b, ws, n, x, y);
    }
    RaisedIsHamilton(b, ws, up);
  }

  // ----- there is only one

  /** The strategies that got the extra cent. */
  ghost function Up(b: Basis, ws: seq<Weight>, m: map<string, int>): set<string> {
    set e | e in ws && Favoured(b, m, e) :: e.key
  }

  lemma RaisedByUp(b: Basis, ws: seq<Weight>, m: map<string, int>, k: string)
    requires Distinct(ws) && Hamilton(b, ws, m) && k in Keys(ws)
    ensures m[k] == Raised(Floors(b, ws, Keys(ws)), Up(b, ws, m))[k]
  {
    FindInKeys(ws, k);
    var e := Entry(k, Find(ws, k).value);
    FloorsAt(b, ws, e);
    if k in Up(b, ws, m) {
      var x :| x in ws && Favoured(b, m, x) && x.key == k;
      SameKeySameEntry(ws, x, e);
    }
  }

  lemma UpSize(b: Basis, ws: seq<Weight>, m: map<string, int>)
    requires Distinct(ws) && b.sum == TotalWeight(ws) && Hamilton(b, ws, m)
    ensures |Up(b, ws, m)| == b.cents - Assigned(b, ws)
    ensures m == Raised(Floors(b, ws, Keys(ws)), Up(b, ws, m))
  {
    var m' := Raised(Floors(b, ws, Keys(ws)), Up(b, ws, m));
    assert m.Keys == m'.Keys;
    forall k | k in m
      ensures m[k] == m'[k]
    {
      RaisedByUp(b, ws, m, k);
    }
    assert m == m';
    RaisedTotal(b, ws, Up(b, ws, m));
  }

  lemma SameSizeSubset<T>(a: set<T>, b: set<T>)
    requires a <= b && |a| >= |b|
    ensures a == b
  {
    assert b == a + (b - a);
  }

  lemma OnlyInLeft<T>(a: set<T>, b: set<T>) returns (x: T)
    requires |a| >= |b| && a != b
    ensures x in a && x !in b
  {
    if a <= b {
      SameSizeSubset(a, b);
    }
    x :| x in a && x !in b;
  }

  /** Any two largest-remainder apportionments are the same. */
  lemma HamiltonIsUnique(b: Basis, ws: seq<Weight>, m: map<string, int>, m': map<string, int>)
    requires Distinct(ws) && b.sum == TotalWeight(ws) && Hamilton(b, ws, m) && Hamilton(b, ws, m')
    ensures m == m'
  {
    UpSize(b, ws, m);
    UpSize(b, ws, m');
    var u, u' := Up(b, ws, m), Up(b, ws, m');
    if u != u' {
      var k := OnlyInLeft(u, u');
      var k' := OnlyInLeft(u', u);
      var x :| x in ws && Favoured(b, m, x) && x.key == k;
      var y :| y in ws && Favoured(b, m', y) && y.key == k';
      assert Before(b, x, y) && Before(b, y, x);
      StrLeTotal(x.key, y.key);
      assert false;
    }
  }

  lemma {:induction false} TotalWeightPermutes(ws: seq<Weight>, ws': seq<Weight>)
    requires multiset(ws) == multiset(ws')
    ensures TotalWeight(ws) == TotalWeight(ws')
  {
    hide TotalWeight;
    assert |multiset(ws)| == |multiset(ws')|;
    if ws == [] {
      assert ws == ws';
    } else {
      assert ws[0] in multiset(ws');
      var i :| 0 <= i < |ws'| && ws'[i] == ws[0];
      MultisetRemove(ws, 0);
      MultisetRemove(ws', i);
      TotalWeightPermutes(ws[..0] + ws[1..], ws'[..i] + ws'[i + 1..]);
      TotalWeightRemove(ws, 0);
      TotalWeightRemove(ws', i);
    }
  }

  lemma {:induction false} TotalWeightRemove(ws: seq<Weight>, i: nat)
    requires i < |ws|
    ensures TotalWeight(ws) == ws[i].value + TotalWeight(ws[..i] + ws[i + 1..])
  {
    if i == 0 {
      assert ws[..0] + ws[1..] == ws[1..];
    } else {
      TotalWeightRemove(ws[1..], i - 1);
      var rest := ws[..i] + ws[i + 1..];
      assert rest[1..] == ws[1..][..i - 1] + ws[1..][i..];
    }
  }

  lemma {:induction false} NegativeIff(ws: seq<Weight>)
    ensures FirstNegative(ws).Some? <==> exists e :: e in ws && e.value < 0.0
  {
    if ws != [] {
      NegativeIff(ws[1..]);
      assert forall e :: e in ws <==> e == ws[0] || e in ws[1..];
      assert ws[0] in ws;
    }
  }

  lemma SameItems(ws: seq<Weight>, ws': seq<Weight>)
    requires multiset(ws) == multiset(ws')
    ensures |ws| == |ws'| && Keys(ws) == Keys(ws')
    ensures forall e :: e in ws <==> e in ws'
  {
    assert |multiset(ws)| == |multiset(ws')|;
    assert forall e :: e in ws <==> e in multiset(ws);
    assert forall e :: e in ws' <==> e in multiset(ws');
    KeySetIsKeys(ws);
    KeySetIsKeys(ws');
  }

  lemma ApportionSame(b: Basis, ws: seq<Weight>, ws': seq<Weight>)
    requires Distinct(ws) && Distinct(ws') && multiset(ws) == multiset(ws')
    requires b.sum == TotalWeight(ws) == TotalWeight(ws')
    ensures Apportion(b, ws) == Apportion(b, ws')
  {
    ApportionIsHamilton(b, ws);
    ApportionIsHamilton(b, ws');
    SameItems(ws, ws');
    assert Hamilton(b, ws, Apportion(b, ws').value);
    HamiltonIsUnique(b, ws, Apportion(b, ws).value, Apportion(b, ws').value);
  }

  lemma NegativeSame(ws: seq<Weight>, ws': seq<Weight>)
    requires multiset(ws) == multiset(ws')
    ensures FirstNegative(ws).Some? <==> FirstNegative(ws').Some?
  {
    SameItems(ws, ws');
    NegativeIff(ws);
    NegativeIff(ws');
  }

  /** The same items in another order give the same amounts, and fail together. */
  lemma OrderIrrelevant(capital: real, ws: seq<Weight>, ws': seq<Weight>)
    requires Distinct(ws) && Distinct(ws') && multiset(ws) == multiset(ws')
    ensures Allocate(capital, ws).Ok? <==> Allocate(capital, ws').Ok?
    ensures Allocate(capital, ws).Ok? ==> Allocate(capital, ws) == Allocate(capital, ws')
  {
    hide Apportion, TotalWeight, FirstNegative;
    NegativeSame(ws, ws');
    TotalWeightPermutes(ws, ws');
    assert |multiset(ws)| == |multiset(ws')|;
    if FirstNegative(ws).None? {
      SumIsNonnegative(ws);
    }
    if capital >= 0.0 && TotalWeight(ws) > 0.0 {
      ApportionSame(Scale((capital * 100.0).Floor, TotalWeight(ws)), ws, ws');
    }
  }

  // ----- what a caller sees

  /** The call succeeds exactly on these inputs; the out-of-range branch is never taken. */
  lemma SucceedsIff(capital: real, ws: seq<Weight>)
    requires Distinct(ws)
    ensures Allocate(capital, ws).Ok? <==>
            capital >= 0.0 && (forall e :: e in ws ==> e.value >= 0.0)
            && (if ws == [] then capital == 0.0 else TotalWeight(ws) > 0.0)
    ensures Allocate(capital, ws) != Err(RemainderOutOfRange)
  {
    NegativeIff(ws);
    if capital >= 0.0 && TotalWeight(ws) > 0.0 {
      ApportionIsHamilton(Scale((capital * 100.0).Floor, TotalWeight(ws)), ws);
    }
  }

  lemma AllocateIsHamilton(capital: real, ws: seq<Weight>)
    requires Distinct(ws) && ws != [] && Allocate(capital, ws).Ok?
    ensures capital >= 0.0 && TotalWeight(ws) > 0.0
    ensures Hamilton(Scale((capital * 100.0).Floor, TotalWeight(ws)), ws, Allocate(capital, ws).value)
  {
    SumIsNonnegative(ws);
    ApportionIsHamilton(Scale((capital * 100.0).Floor, TotalWeight(ws)), ws);
  }

  /** If a whole quota got the extra cent, so did every positive fraction, which are too many. */
  lemma PositiveBeforeWhole(b: Basis, ws: seq<Weight>, m: map<string, int>, e: Weight)
    requires Distinct(ws) && Hamilton(b, ws, m) && e in ws && Frac(b, e.value) == 0.0 && Favoured(b, m, e)
    ensures |Positive(b, ws)| < |Up(b, ws, m)|
  {
    var p, u := Positive(b, ws), Up(b, ws, m);
    EntryInKeys(ws, e);
    assert e.key !in p;
    forall k | k in p
      ensures k in u
    {
      FindInKeys(ws, k);
      var y := Entry(k, Find(ws, k).value);
      assert y in ws && Frac(b, y.value) > 0.0;
      assert Favoured(b, m, y);
    }
    assert e.key in u;
    SubsetSize(p, u - {e.key});
  }

  lemma WholeIsNotFavoured(b: Basis, ws: seq<Weight>, m: map<string, int>, e: Weight)
    requires Distinct(ws) && b.sum == TotalWeight(ws) && Hamilton(b, ws, m) && e in ws && Frac(b, e.value) == 0.0
    ensures !Favoured(b, m, e)
  {
    RemainderBelowFractions(b, ws);
    UpSize(b, ws, m);
    if Favoured(b, m, e) {
      PositiveBeforeWhole(b, ws, m, e);
    }
  }

  lemma ZeroQuota(b: Basis)
    ensures Quota(b, 0.0) == 0.0
  {}

  /** A whole quota is paid as it is: in particular a zero weight gets nothing. */
  lemma WholeQuotaIsExact(b: Basis, ws: seq<Weight>, m: map<string, int>, e: Weight)
    requires Distinct(ws) && b.sum == TotalWeight(ws) && Hamilton(b, ws, m) && e in ws && Frac(b, e.value) == 0.0
    ensures e.key in m && m[e.key] as real == Quota(b, e.value)
    ensures e.value == 0.0 ==> m[e.key] == 0
  {
    ZeroQuota(b);
    WholeIsNotFavoured(b, ws, m, e);
  }

  lemma QuotaMonotone(b: Basis, v: real, w: real)
    requires v < w
    ensures b.cents > 0 ==> Quota(b, v) < Quota(b, w)
    ensures b.cents == 0 ==> Quota(b, v) == Quota(b, w) == 0.0
  {
    var c := b.cents as real;
    if b.cents > 0 {
      assert c * v < c * w;
      assert (c * w - c * v) / b.sum > 0.0;
    }
  }

  /** A heavier strategy never gets less. */
  lemma HeavierGetsNoLess(b: Basis, ws: seq<Weight>, m: map<string, int>, x: Weight, y: Weight)
    requires Distinct(ws) && b.sum == TotalWeight(ws) && Hamilton(b, ws, m)
    requires x in ws && y in ws && x.value < y.value
    ensures x.key in m && y.key in m && m[x.key] <= m[y.key]
  {
    QuotaMonotone(b, x.value, y.value);
    if b.cents == 0 {
      WholeQuotaIsExact(b, ws, m, x);
      WholeQuotaIsExact(b, ws, m, y);
    }
  }

  // ----- the code

  lemma SuffixFacts(ws: seq<Weight>, i: nat)
    requires Distinct(ws) && i <= |ws|
    ensures Distinct(ws[i..]) && Keys(ws[i..]) <= Keys(ws)
    ensures i < |ws| ==> ws[i] in ws && ws[i].key in Keys(ws) && Find(ws, ws[i].key) == Some(ws[i].value)
    ensures i < |ws| ==> ws[i..][1..] == ws[i + 1..] && ws[i].key !in Keys(ws[i + 1..])
  {
    if i == 0 {
      assert ws[i..] == ws;
    } else {
      SuffixFacts(ws[1..], i - 1);
      assert ws[1..][i - 1..] == ws[i..];
    }
    if i < |ws| {
      EntryInKeys(ws, ws[i]);
      SuffixDistinct(ws, i);
    }
  }

  lemma {:induction false} SuffixDistinct(ws: seq<Weight>, i: nat)
    requires Distinct(ws) && i <= |ws|
    ensures Distinct(ws[i..])
  {
    if i == 0 {
      assert ws[0..] == ws;
    } else {
      SuffixDistinct(ws[1..], i - 1);
      assert ws[1..][i - 1..] == ws[i..];
    }
    if i < |ws| {
      assert ws[i..][1..] == ws[i + 1..];
    }
  }

  /** allocate_capital: amounts in dollars. */
  method AllocateCapital(capital: real, ws: seq<Weight>) returns (r: Result<map<string, real>, AllocationError>)
    requires Distinct(ws)
    ensures r.Ok? <==> Allocate(capital, ws).Ok?
    ensures r.Err? ==> r.error == Allocate(capital, ws).error
    ensures r.Ok? ==> r.value.Keys == Allocate(capital, ws).value.Keys
                      && forall k :: k in r.value ==> r.value[k] * 100.0 == Allocate(capital, ws).value[k] as real
  {
    if capital < 0.0 {
      return Err(NegativeCapital);
    }
    if |ws| == 0 {
      if capital > 0.0 {
        return Err(NoStrategies);
      }
      return Ok(map[]);
    }
    var sum := 0.0;
    for i := 0 to |ws|
      invariant FirstNegative(ws) == FirstNegative(ws[i..])
      invariant sum + TotalWeight(ws[i..]) == TotalWeight(ws)
    {
      SuffixFacts(ws, i);
      if ws[i].value < 0.0 {
        return Err(NegativeWeight(ws[i].key));
      }
      sum := sum + ws[i].value;
    }
    SumIsNonnegative(ws);
    if sum == 0.0 {
      return Err(WeightsSumToZero);
    }
    var cents := ApportionCents(Scale((capital * 100.0).Floor, sum), ws);
    if cents.Err? {
      return Err(cents.error);
    }
    r := Ok(map k | k in cents.value :: cents.value[k] as real / 100.0);
  }

  lemma {:induction false} SumIsNonnegative(ws: seq<Weight>)
    requires FirstNegative(ws).None?
    ensures TotalWeight(ws) >= 0.0
  {
    if ws != [] {
      SumIsNonnegative(ws[1..]);
    }
  }

  /** Floors in one pass, then one cent each to the first of the ranking. */
  method ApportionCents(b: Basis, ws: seq<Weight>) returns (r: Result<map<string, int>, AllocationError>)
    requires Distinct(ws) && b.sum == TotalWeight(ws)
    ensures r == Apportion(b, ws)
    ensures r.Ok? ==> Hamilton(b, ws, r.value)
  {
    var floors, given := FloorCents(b, ws);
    var remainder := b.cents - given;
    if remainder < 0 || remainder > |ws| {
      return Err(RemainderOutOfRange);
    }
    WinnersAreKeys(b, ws, remainder);
    var ranking := Ranking(b, ws);
    var cents := GiveCents(ws, floors, ranking, remainder);
    ApportionIsHamilton(b, ws);
    r := Ok(cents);
  }

  method FloorCents(b: Basis, ws: seq<Weight>) returns (floors: map<string, int>, given: int)
    requires Distinct(ws)
    ensures floors == Floors(b, ws, Keys(ws)) && given == Assigned(b, ws)
  {
    floors, given := map[], 0;
    for i := 0 to |ws|
      invariant floors == Floors(b, ws, Keys(ws) - Keys(ws[i..]))
      invariant given + Assigned(b, ws[i..]) == Assigned(b, ws)
    {
      SuffixFacts(ws, i);
      var share := Share(b, ws[i].value);
      floors := floors[ws[i].key := share];
      given := given + share;
      assert Keys(ws) - Keys(ws[i + 1..]) == Keys(ws) - Keys(ws[i..]) + {ws[i].key};
    }
    assert Keys(ws) - Keys(ws[|ws|..]) == Keys(ws);
  }

  method GiveCents(ws: seq<Weight>, floors: map<string, int>, ranking: seq<Weight>, remainder: nat)
    returns (cents: map<string, int>)
    requires Distinct(ws) && multiset(ranking) == multiset(ws) && remainder <= |ranking| && floors.Keys == Keys(ws)
    ensures cents == Raised(floors, KeySet(ranking[..remainder]))
  {
    cents := floors;
    for i := 0 to remainder
      invariant cents == Raised(floors, KeySet(ranking[..i]))
    {
      PrefixStep(ws, ranking, i);
      assert ranking[i].key in floors by {
        assert ranking[i] in multiset(ranking);
        EntryInKeys(ws, ranking[i]);
      }
      cents := cents[ranking[i].key := cents[ranking[i].key] + 1];
    }
  }

  /** allocation_total, over the values in any order. */
  method AllocationTotal(allocation: map<string, real>, ghost m: map<string, int>) returns (total: real)
    requires allocation.Keys == m.Keys && forall k :: k in m ==> allocation[k] * 100.0 == m[k] as real
    ensures total * 100.0 == Total(m)
  {
    total := 0.0;
    var rest := allocation.Keys;
    while rest != {}
      invariant rest <= m.Keys
      invariant total * 100.0 + SumOver(rest, Amount(m)) == Total(m)
      decreases |rest|
    {
      var k :| k in rest;
      SumOverPick(rest, Amount(m), k);
      total := total + allocation[k];
      rest := rest - {k};
    }
  }
}

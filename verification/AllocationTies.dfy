/**
 Who wins a tie, what total a caller gets and which error (engine/core/capital_allocation.py),
 told from the ids, the weights and the capital.
 */
module AllocationTies {
  import opened Wrappers
  import opened OrderedDict
  import opened CapitalAllocation

  /** a is a proper prefix of b, or has the smaller character where they first differ. */
  ghost predicate ComesBefore(a: string, b: string) {
    a < b || exists i :: 0 <= i < |a| && i < |b| && a[..i] == b[..i] && a[i] < b[i]
  }

  /** The tie-breaking order is the lexicographic one. */
  lemma {:induction false} StrLeIff(a: string, b: string)
    ensures StrLe(a, b) <==> a == b || ComesBefore(a, b)
    decreases |a|
  {
    if a != [] && b != [] {
      if a[0] == b[0] {
        StrLeIff(a[1..], b[1..]);
        SameHead(a, b);
      } else if a[0] < b[0] {
        assert a[..0] == b[..0];
      } else {
        assert forall i :: 0 < i <= |a| && i <= |b| ==> a[..i][0] != b[..i][0];
      }
    }
  }

  /** Equal first characters decide nothing. */
  lemma SameHead(a: string, b: string)
    requires a != [] && b != [] && a[0] == b[0]
    ensures a == b || ComesBefore(a, b) <==> a[1..] == b[1..] || ComesBefore(a[1..], b[1..])
  {
    assert a == [a[0]] + a[1..] && b == [b[0]] + b[1..];
    assert a < b <==> a[1..] < b[1..];
    if i :| 0 <= i < |a| && i < |b| && a[..i] == b[..i] && a[i] < b[i] {
      assert a[1..][..i - 1] == a[..i][1..] == b[..i][1..] == b[1..][..i - 1];
      assert a[1..][i - 1] < b[1..][i - 1];
    }
    if i :| 0 <= i < |a[1..]| && i < |b[1..]| && a[1..][..i] == b[1..][..i] && a[1..][i] < b[1..][i] {
      assert a[..i + 1] == [a[0]] + a[1..][..i] == b[..i + 1];
      assert a[i + 1] < b[i + 1];
    }
  }

  /** Of two strategies with equal weights the one whose id comes first gets no less, and at most one cent more. */
  lemma TiesGoByName(b: Basis, ws: seq<Weight>, m: map<string, int>, x: Weight, y: Weight)
    requires Hamilton(b, ws, m) && x in ws && y in ws && x.value == y.value && ComesBefore(x.key, y.key)
    ensures x.key in m && y.key in m && m[y.key] <= m[x.key] <= m[y.key] + 1
  {
    if Favoured(b, m, y) && !Favoured(b, m, x) {
      assert Before(b, y, x);
      StrLeIff(y.key, x.key);
      StrLeIff(x.key, y.key);
      StrLeTotal(x.key, y.key);
      NotBoth(x.key);
      assert false;
    }
  }

  lemma NotBoth(a: string)
    ensures !ComesBefore(a, a)
  {}

  /** The cents given out are the capital down to the last whole cent. */
  lemma GivesWholeCents(capital: real, ws: seq<Weight>)
    requires Distinct(ws) && ws != [] && Allocate(capital, ws).Ok?
    ensures Total(Allocate(capital, ws).value) <= 100.0 * capital < Total(Allocate(capital, ws).value) + 1.0
  {
    AllocateIsHamilton(capital, ws);
  }

  /** The first negative weight is that of `id`. */
  ghost predicate IsFirstNegative(ws: seq<Weight>, id: string) {
    exists i :: 0 <= i < |ws| && ws[i].key == id && ws[i].value < 0.0 && forall k :: 0 <= k < i ==> ws[k].value >= 0.0
  }

  /** Which error a refused call reports; the first negative weight is the one named. */
  lemma ErrorsTell(capital: real, ws: seq<Weight>)
    requires Distinct(ws) && Allocate(capital, ws).Err?
    ensures var e := Allocate(capital, ws).error;
            && (e == NegativeCapital <==> capital < 0.0)
            && (e == NoStrategies <==> capital > 0.0 && ws == [])
            && (forall id :: e == NegativeWeight(id) <==> capital >= 0.0 && IsFirstNegative(ws, id))
            && (e == WeightsSumToZero <==>
                  capital >= 0.0 && ws != [] && forall k :: 0 <= k < |ws| ==> ws[k].value == 0.0)
  {
    SucceedsIff(capital, ws);
    FirstNegativeIs(ws);
    if FirstNegative(ws).None? {
      ZeroSumIff(ws);
    }
  }

  lemma {:induction false} FirstNegativeIs(ws: seq<Weight>)
    ensures forall id :: FirstNegative(ws) == Some(id) <==> IsFirstNegative(ws, id)
    ensures FirstNegative(ws).None? <==> forall k :: 0 <= k < |ws| ==> ws[k].value >= 0.0
    decreases ws
  {
    if ws != [] {
      FirstNegativeIs(ws[1..]);
      assert forall k :: 0 <= k < |ws[1..]| ==> ws[1..][k] == ws[k + 1];
      assert forall k :: 0 < k < |ws| ==> ws[k] == ws[1..][k - 1];
      if ws[0].value >= 0.0 {
        forall id
          ensures IsFirstNegative(ws, id) <==> IsFirstNegative(ws[1..], id)
        {
          ShiftFirst(ws, id);
        }
      }
    }
  }

  lemma ShiftFirst(ws: seq<Weight>, id: string)
    requires ws != [] && ws[0].value >= 0.0
    ensures IsFirstNegative(ws, id) <==> IsFirstNegative(ws[1..], id)
  {
    if i :| 0 <= i < |ws| && ws[i].key == id && ws[i].value < 0.0 && forall k :: 0 <= k < i ==> ws[k].value >= 0.0 {
      assert ws[1..][i - 1].key == id;
      assert forall k :: 0 <= k < i - 1 ==> ws[1..][k] == ws[k + 1];
    }
    if i :| 0 <= i < |ws[1..]| && ws[1..][i].key == id && ws[1..][i].value < 0.0 && forall k :: 0 <= k < i ==> ws[1..][k].value >= 0.0 {
      assert ws[i + 1].key == id;
      assert forall k :: 0 < k < i + 1 ==> ws[k] == ws[1..][k - 1];
    }
  }

  lemma {:induction false} ZeroSumIff(ws: seq<Weight>)
    requires FirstNegative(ws).None?
    ensures TotalWeight(ws) >= 0.0
    ensures TotalWeight(ws) == 0.0 <==> forall k :: 0 <= k < |ws| ==> ws[k].value == 0.0
    decreases ws
  {
    if ws != [] {
      ZeroSumIff(ws[1..]);
      assert forall k :: 0 < k < |ws| ==> ws[k] == ws[1..][k - 1];
    }
  }
}

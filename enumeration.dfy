/** The truth-table enumeration of `tt_check_all` as functions: the (true count,
    total count) pair it returns, the progress-bar increments it performs, the
    list of leaf models it visits, and the facts about them that `ask` relies on. */
module Enumeration {
  import opened Wrappers
  import opened Logic

  /** The pair `tt_check_all` returns: models where both kb and alpha hold, models where kb holds. */
  datatype Counts = Counts(hits: nat, total: nat)

  function Pow2(k: nat): (r: nat)
    ensures r >= 1
  {
    if k == 0 then 1 else 2 * Pow2(k - 1)
  }

  /** `true1 + true2, total1 + total2`; a branch that raised makes the whole call raise. */
  function Add(a: Option<Counts>, b: Option<Counts>): Option<Counts>
  {
    if a.None? || b.None? then None
    else Some(Counts(a.value.hits + b.value.hits, a.value.total + b.value.total))
  }

  /** The leaf case of `tt_check_all`: alpha is evaluated only when kb holds. */
  function Leaf(model: Model, kb: Val, alpha: Val): Option<Counts>
  {
    match IsTrue(kb, model)
    case None => None
    case Some(k) =>
      if !k then Some(Counts(0, 0))
      else
        match IsTrue(alpha, model)
        case None => None
        case Some(a) => Some(if a then Counts(1, 1) else Counts(0, 1))
  }

  /** The result of `tt_check_all(symbols, model, kb, alpha)`: branch on the first
      symbol, true before false, and add the two branches' counts. */
  function CheckAll(symbols: seq<string>, model: Model, kb: Val, alpha: Val): Option<Counts>
    decreases |symbols|
  {
    if |symbols| == 0 then Leaf(model, kb, alpha)
    else
      Add(CheckAll(symbols[1..], model + [(symbols[0], true)], kb, alpha),
          CheckAll(symbols[1..], model + [(symbols[0], false)], kb, alpha))
  }

  /** How far `tt_check_all` raises `progress_bar`: one per non-leaf call, up to the
      point where a call raises. A call that returns performs exactly 2^k - 1. */
  function Steps(symbols: seq<string>, model: Model, kb: Val, alpha: Val): nat
    decreases |symbols|
  {
    if |symbols| == 0 then 0
    else
      var whenTrue := model + [(symbols[0], true)];
      var whenFalse := model + [(symbols[0], false)];
      1 + Steps(symbols[1..], whenTrue, kb, alpha) +
      (if CheckAll(symbols[1..], whenTrue, kb, alpha).None? then 0
       else Steps(symbols[1..], whenFalse, kb, alpha))
  }

  /** One level of `CheckAll` and `Steps`, for callers that should not unfold them. */
  lemma StepsUnfold(symbols: seq<string>, model: Model, kb: Val, alpha: Val)
    requires |symbols| > 0
    ensures CheckAll(symbols, model, kb, alpha)
         == Add(CheckAll(symbols[1..], model + [(symbols[0], true)], kb, alpha),
                CheckAll(symbols[1..], model + [(symbols[0], false)], kb, alpha))
    ensures Steps(symbols, model, kb, alpha)
         == 1 + Steps(symbols[1..], model + [(symbols[0], true)], kb, alpha) +
            (if CheckAll(symbols[1..], model + [(symbols[0], true)], kb, alpha).None? then 0
             else Steps(symbols[1..], model + [(symbols[0], false)], kb, alpha))
  {
  }

  /** Over k symbols, 0 <= hits <= total <= 2^k. */
  lemma {:induction false} CountsBound(symbols: seq<string>, model: Model, kb: Val, alpha: Val)
    ensures CheckAll(symbols, model, kb, alpha).Some? ==>
      CheckAll(symbols, model, kb, alpha).value.hits <= CheckAll(symbols, model, kb, alpha).value.total <= Pow2(|symbols|)
    decreases |symbols|
  {
    if |symbols| > 0 {
      CountsBound(symbols[1..], model + [(symbols[0], true)], kb, alpha);
      CountsBound(symbols[1..], model + [(symbols[0], false)], kb, alpha);
    }
  }

  /** An enumeration over k symbols makes at most 2^k - 1 progress steps, and
      exactly that many when it returns. */
  lemma {:induction false} StepsBound(symbols: seq<string>, model: Model, kb: Val, alpha: Val)
    ensures Steps(symbols, model, kb, alpha) <= Pow2(|symbols|) - 1
    ensures CheckAll(symbols, model, kb, alpha).Some? ==> Steps(symbols, model, kb, alpha) == Pow2(|symbols|) - 1
    decreases |symbols|
  {
    if |symbols| > 0 {
      StepsBound(symbols[1..], model + [(symbols[0], true)], kb, alpha);
      StepsBound(symbols[1..], model + [(symbols[0], false)], kb, alpha);
    }
  }

  // ---------------------------------------------------------------------------
  // The counts do not depend on the order of the symbol list.

  lemma AddInterchange(a: Option<Counts>, b: Option<Counts>, c: Option<Counts>, d: Option<Counts>)
    ensures Add(Add(a, b), Add(c, d)) == Add(Add(a, c), Add(b, d))
  {
  }

  /** Two models binding the same symbols to true give the same counts. */
  lemma {:induction false} CheckAllDependsOnlyOnTrueSymbols(symbols: seq<string>, m1: Model, m2: Model, kb: Val, alpha: Val)
    requires TrueSymbols(m1) == TrueSymbols(m2)
    ensures CheckAll(symbols, m1, kb, alpha) == CheckAll(symbols, m2, kb, alpha)
    decreases |symbols|
  {
    if |symbols| == 0 {
      TruthDependsOnlyOnTrueSymbols(kb, m1, m2);
      TruthDependsOnlyOnTrueSymbols(alpha, m1, m2);
    } else {
      var p := symbols[0];
      TrueSymbolsExtend(m1, p, true);
      TrueSymbolsExtend(m2, p, true);
      TrueSymbolsExtend(m1, p, false);
      TrueSymbolsExtend(m2, p, false);
      CheckAllDependsOnlyOnTrueSymbols(symbols[1..], m1 + [(p, true)], m2 + [(p, true)], kb, alpha);
      CheckAllDependsOnlyOnTrueSymbols(symbols[1..], m1 + [(p, false)], m2 + [(p, false)], kb, alpha);
    }
  }

  lemma TrueSymbolsCommute(model: Model, p: string, b: bool, q: string, c: bool)
    ensures TrueSymbols(model + [(p, b)] + [(q, c)]) == TrueSymbols(model + [(q, c)] + [(p, b)])
  {
    TrueSymbolsExtend(model, p, b);
    TrueSymbolsExtend(model + [(p, b)], q, c);
    TrueSymbolsExtend(model, q, c);
    TrueSymbolsExtend(model + [(q, c)], p, b);
  }

  /** Exchanging the first two symbols does not change the counts. */
  lemma SwapFront(p: string, q: string, rest: seq<string>, model: Model, kb: Val, alpha: Val)
    ensures CheckAll([p, q] + rest, model, kb, alpha) == CheckAll([q, p] + rest, model, kb, alpha)
  {
    assert ([p, q] + rest)[1..] == [q] + rest;
    assert ([q, p] + rest)[1..] == [p] + rest;
    assert ([q] + rest)[1..] == rest;
    assert ([p] + rest)[1..] == rest;
    var tt := CheckAll(rest, model + [(p, true)] + [(q, true)], kb, alpha);
    var tf := CheckAll(rest, model + [(p, true)] + [(q, false)], kb, alpha);
    var ft := CheckAll(rest, model + [(p, false)] + [(q, true)], kb, alpha);
    var ff := CheckAll(rest, model + [(p, false)] + [(q, false)], kb, alpha);
    assert CheckAll([p, q] + rest, model, kb, alpha) == Add(Add(tt, tf), Add(ft, ff));
    forall b: bool, c: bool
      ensures CheckAll(rest, model + [(p, b)] + [(q, c)], kb, alpha)
           == CheckAll(rest, model + [(q, c)] + [(p, b)], kb, alpha)
    {
      TrueSymbolsCommute(model, p, b, q, c);
      CheckAllDependsOnlyOnTrueSymbols(rest, model + [(p, b)] + [(q, c)], model + [(q, c)] + [(p, b)], kb, alpha);
    }
    assert CheckAll([q, p] + rest, model, kb, alpha) == Add(Add(tt, ft), Add(tf, ff));
    AddInterchange(tt, tf, ft, ff);
  }

  /** `s` with its first occurrence of `x` taken out. */
  function Remove(s: seq<string>, x: string): (r: seq<string>)
    requires x in s
    ensures |r| == |s| - 1
    ensures multiset(r) == multiset(s) - multiset{x}
  {
    if s[0] == x then
      assert s == [s[0]] + s[1..];
      s[1..]
    else
      assert s == [s[0]] + s[1..];
      [s[0]] + Remove(s[1..], x)
  }

  /** Enumerating `x` first, and the rest in their order, gives the same counts. */
  lemma {:induction false} MoveToFront(s: seq<string>, x: string, model: Model, kb: Val, alpha: Val)
    requires x in s
    ensures CheckAll(s, model, kb, alpha) == CheckAll([x] + Remove(s, x), model, kb, alpha)
  {
    if s[0] == x {
      assert s == [x] + s[1..];
    } else {
      var s0, tail := s[0], s[1..];
      var r := Remove(tail, x);
      var front := [x] + r;
      var mt, mf := model + [(s0, true)], model + [(s0, false)];
      assert CheckAll(s, model, kb, alpha) == Add(CheckAll(tail, mt, kb, alpha), CheckAll(tail, mf, kb, alpha));
      MoveToFront(tail, x, mt, kb, alpha);
      MoveToFront(tail, x, mf, kb, alpha);
      assert ([s0] + front)[1..] == front;
      StepsUnfold([s0] + front, model, kb, alpha);
      assert CheckAll(s, model, kb, alpha) == CheckAll([s0] + front, model, kb, alpha);
      SwapFront(s0, x, r, model, kb, alpha);
      assert [s0] + front == [s0, x] + r;
      assert [x, s0] + r == [x] + Remove(s, x);
    }
  }

  /** Any reordering of the symbol list, duplicates included, gives the same counts:
      this is why the unspecified order of `list(set)` does not matter. */
  lemma {:induction false} CountsIgnoreSymbolOrder(s: seq<string>, t: seq<string>, model: Model, kb: Val, alpha: Val)
    requires multiset(s) == multiset(t)
    ensures CheckAll(s, model, kb, alpha) == CheckAll(t, model, kb, alpha)
    decreases |s|
  {
    assert |s| == |multiset(s)| == |t|;
    if |s| > 0 {
      var x := t[0];
      assert x in multiset(t);
      var r := Remove(s, x);
      MoveToFront(s, x, model, kb, alpha);
      assert t == [x] + t[1..];
      assert multiset(r) == multiset(t[1..]);
      CountsIgnoreSymbolOrder(r, t[1..], model + [(x, true)], kb, alpha);
      CountsIgnoreSymbolOrder(r, t[1..], model + [(x, false)], kb, alpha);
      assert ([x] + r)[1..] == r;
    }
  }

  // ---------------------------------------------------------------------------
  // The leaves: every assignment of the symbol list, each visited once.

  /** The leaf models `tt_check_all` reaches, in the order it reaches them. */
  function Leaves(symbols: seq<string>, model: Model): (ls: seq<Model>)
    ensures |ls| == Pow2(|symbols|)
    decreases |symbols|
  {
    if |symbols| == 0 then [model]
    else Leaves(symbols[1..], model + [(symbols[0], true)]) + Leaves(symbols[1..], model + [(symbols[0], false)])
  }

  /** The bindings of `symbols` to `values`, in order. */
  function Bind(symbols: seq<string>, values: seq<bool>): (m: Model)
    requires |values| == |symbols|
    ensures |m| == |symbols|
  {
    seq(|symbols|, i requires 0 <= i < |symbols| => (symbols[i], values[i]))
  }

  /** Position, among the leaves, of the assignment `values` (true is visited first). */
  function LeafIndex(values: seq<bool>): (n: nat)
    ensures n < Pow2(|values|)
  {
    if |values| == 0 then 0
    else (if values[0] then 0 else Pow2(|values| - 1)) + LeafIndex(values[1..])
  }

  /** The assignment at leaf position `i`. */
  function Assignment(k: nat, i: nat): (values: seq<bool>)
    requires i < Pow2(k)
    ensures |values| == k
  {
    if k == 0 then []
    else if i < Pow2(k - 1) then [true] + Assignment(k - 1, i)
    else [false] + Assignment(k - 1, i - Pow2(k - 1))
  }

  /** `LeafIndex` and `Assignment` are inverse: leaf positions and assignments correspond one to one. */
  lemma {:induction false} LeafIndexOfAssignment(k: nat, i: nat)
    requires i < Pow2(k)
    ensures LeafIndex(Assignment(k, i)) == i
  {
    if k > 0 {
      if i < Pow2(k - 1) {
        LeafIndexOfAssignment(k - 1, i);
        assert Assignment(k, i)[1..] == Assignment(k - 1, i);
      } else {
        LeafIndexOfAssignment(k - 1, i - Pow2(k - 1));
        assert Assignment(k, i)[1..] == Assignment(k - 1, i - Pow2(k - 1));
      }
    }
  }

  lemma {:induction false} AssignmentOfLeafIndex(values: seq<bool>)
    ensures Assignment(|values|, LeafIndex(values)) == values
  {
    if |values| > 0 {
      AssignmentOfLeafIndex(values[1..]);
      assert values == [values[0]] + values[1..];
    }
  }

  lemma BindCons(symbols: seq<string>, values: seq<bool>)
    requires |values| == |symbols| > 0
    ensures Bind(symbols, values) == [(symbols[0], values[0])] + Bind(symbols[1..], values[1..])
  {
  }

  /** Leaf number `i` is the starting model extended by the `i`-th assignment of the symbols. */
  lemma {:induction false} LeafIsAssignment(symbols: seq<string>, model: Model, i: nat)
    requires i < Pow2(|symbols|)
    ensures Leaves(symbols, model)[i] == model + Bind(symbols, Assignment(|symbols|, i))
    decreases |symbols|
  {
    var k := |symbols|;
    if k > 0 {
      var values := Assignment(k, i);
      BindCons(symbols, values);
      var half := Pow2(k - 1);
      if i < half {
        LeafIsAssignment(symbols[1..], model + [(symbols[0], true)], i);
        assert values[1..] == Assignment(k - 1, i);
      } else {
        LeafIsAssignment(symbols[1..], model + [(symbols[0], false)], i - half);
        assert values[1..] == Assignment(k - 1, i - half);
      }
    }
  }

  /** Every assignment of the symbols is visited, at position `LeafIndex(values)`. */
  lemma EveryAssignmentIsVisited(symbols: seq<string>, model: Model, values: seq<bool>)
    requires |values| == |symbols|
    ensures LeafIndex(values) < |Leaves(symbols, model)|
    ensures Leaves(symbols, model)[LeafIndex(values)] == model + Bind(symbols, values)
  {
    LeafIsAssignment(symbols, model, LeafIndex(values));
    AssignmentOfLeafIndex(values);
  }

  /** The counts of a list of leaf models, summed left to right. */
  function Tally(leaves: seq<Model>, kb: Val, alpha: Val): Option<Counts>
  {
    if |leaves| == 0 then Some(Counts(0, 0))
    else Add(Leaf(leaves[0], kb, alpha), Tally(leaves[1..], kb, alpha))
  }

  lemma {:induction false} TallyConcat(a: seq<Model>, b: seq<Model>, kb: Val, alpha: Val)
    ensures Tally(a + b, kb, alpha) == Add(Tally(a, kb, alpha), Tally(b, kb, alpha))
  {
    if |a| > 0 {
      assert (a + b)[1..] == a[1..] + b;
      TallyConcat(a[1..], b, kb, alpha);
    } else {
      assert a + b == b;
    }
  }

  /** The recursive sum equals the sum over the leaves it visits. */
  lemma {:induction false} CheckAllTalliesLeaves(symbols: seq<string>, model: Model, kb: Val, alpha: Val)
    ensures CheckAll(symbols, model, kb, alpha) == Tally(Leaves(symbols, model), kb, alpha)
    decreases |symbols|
  {
    if |symbols| == 0 {
      assert Leaves(symbols, model)[1..] == [];
    } else {
      var left := Leaves(symbols[1..], model + [(symbols[0], true)]);
      var right := Leaves(symbols[1..], model + [(symbols[0], false)]);
      CheckAllTalliesLeaves(symbols[1..], model + [(symbols[0], true)], kb, alpha);
      CheckAllTalliesLeaves(symbols[1..], model + [(symbols[0], false)], kb, alpha);
      TallyConcat(left, right, kb, alpha);
    }
  }

  /** The number of leaves where kb holds. */
  function KbModels(leaves: seq<Model>, kb: Val): nat
  {
    if |leaves| == 0 then 0
    else (if IsTrue(kb, leaves[0]) == Some(true) then 1 else 0) + KbModels(leaves[1..], kb)
  }

  /** The number of leaves where both kb and alpha hold. */
  function BothModels(leaves: seq<Model>, kb: Val, alpha: Val): nat
  {
    if |leaves| == 0 then 0
    else (if IsTrue(kb, leaves[0]) == Some(true) && IsTrue(alpha, leaves[0]) == Some(true) then 1 else 0)
         + BothModels(leaves[1..], kb, alpha)
  }

  /** When no leaf raises, the tally is (leaves where both hold, leaves where kb holds). */
  lemma {:induction false} TallyCountsModels(leaves: seq<Model>, kb: Val, alpha: Val)
    requires forall i :: 0 <= i < |leaves| ==> Leaf(leaves[i], kb, alpha).Some?
    ensures Tally(leaves, kb, alpha) == Some(Counts(BothModels(leaves, kb, alpha), KbModels(leaves, kb)))
  {
    if |leaves| > 0 {
      assert Leaf(leaves[0], kb, alpha).Some?;
      forall i | 0 <= i < |leaves[1..]|
        ensures Leaf(leaves[1..][i], kb, alpha).Some?
      {
        assert leaves[1..][i] == leaves[i + 1];
      }
      TallyCountsModels(leaves[1..], kb, alpha);
    }
  }

  /** For well-formed kb and alpha, `tt_check_all` returns exactly
      (leaves where kb and alpha hold, leaves where kb holds). */
  lemma CheckAllCountsModels(symbols: seq<string>, model: Model, kb: Val, alpha: Val)
    requires WellFormed(kb) && WellFormed(alpha)
    ensures CheckAll(symbols, model, kb, alpha)
         == Some(Counts(BothModels(Leaves(symbols, model), kb, alpha), KbModels(Leaves(symbols, model), kb)))
  {
    var ls := Leaves(symbols, model);
    forall i | 0 <= i < |ls|
      ensures Leaf(ls[i], kb, alpha).Some?
    {
      IsTrueMeansMeaning(kb, ls[i]);
      IsTrueMeansMeaning(alpha, ls[i]);
    }
    CheckAllTalliesLeaves(symbols, model, kb, alpha);
    TallyCountsModels(ls, kb, alpha);
  }

  /** All kb-leaves are alpha-leaves iff the two counts are equal. */
  lemma {:induction false} AllKbModelsSatisfyAlpha(leaves: seq<Model>, kb: Val, alpha: Val)
    ensures BothModels(leaves, kb, alpha) <= KbModels(leaves, kb)
    ensures BothModels(leaves, kb, alpha) == KbModels(leaves, kb)
        <==> forall i :: 0 <= i < |leaves| && IsTrue(kb, leaves[i]) == Some(true) ==> IsTrue(alpha, leaves[i]) == Some(true)
  {
    if |leaves| > 0 {
      AllKbModelsSatisfyAlpha(leaves[1..], kb, alpha);
      forall i | 1 <= i < |leaves|
        ensures leaves[i] == leaves[1..][i - 1]
      {
      }
      if forall i :: 0 <= i < |leaves| && IsTrue(kb, leaves[i]) == Some(true) ==> IsTrue(alpha, leaves[i]) == Some(true) {
        forall j | 0 <= j < |leaves[1..]| && IsTrue(kb, leaves[1..][j]) == Some(true)
          ensures IsTrue(alpha, leaves[1..][j]) == Some(true)
        {
          assert leaves[1..][j] == leaves[j + 1];
        }
      }
    }
  }

  /** No kb-leaf is an alpha-leaf iff the count of both is zero. */
  lemma {:induction false} NoKbModelSatisfiesAlpha(leaves: seq<Model>, kb: Val, alpha: Val)
    ensures BothModels(leaves, kb, alpha) == 0
        <==> forall i :: 0 <= i < |leaves| && IsTrue(kb, leaves[i]) == Some(true) ==> IsTrue(alpha, leaves[i]) != Some(true)
  {
    if |leaves| > 0 {
      NoKbModelSatisfiesAlpha(leaves[1..], kb, alpha);
      forall i | 1 <= i < |leaves|
        ensures leaves[i] == leaves[1..][i - 1]
      {
      }
      if forall i :: 0 <= i < |leaves| && IsTrue(kb, leaves[i]) == Some(true) ==> IsTrue(alpha, leaves[i]) != Some(true) {
        forall j | 0 <= j < |leaves[1..]| && IsTrue(kb, leaves[1..][j]) == Some(true)
          ensures IsTrue(alpha, leaves[1..][j]) != Some(true)
        {
          assert leaves[1..][j] == leaves[j + 1];
        }
      }
    }
  }

  /** With an empty kb (`ask` before any `tell`) the very first leaf raises. */
  lemma {:induction false} EmptyKbRaises(symbols: seq<string>, model: Model, alpha: Val)
    ensures CheckAll(symbols, model, Lst([]), alpha) == None
    decreases |symbols|
  {
    if |symbols| > 0 {
      EmptyKbRaises(symbols[1..], model + [(symbols[0], true)], alpha);
    }
  }

  /** A kb false in every model leaves no kb-model at all. */
  lemma {:induction false} UnsatisfiableKbCountsNothing(symbols: seq<string>, model: Model, kb: Val, alpha: Val)
    requires forall m :: IsTrue(kb, m) == Some(false)
    ensures CheckAll(symbols, model, kb, alpha) == Some(Counts(0, 0))
    decreases |symbols|
  {
    if |symbols| > 0 {
      UnsatisfiableKbCountsNothing(symbols[1..], model + [(symbols[0], true)], kb, alpha);
      UnsatisfiableKbCountsNothing(symbols[1..], model + [(symbols[0], false)], kb, alpha);
    }
  }

  /** When alpha holds wherever kb does (classical entailment of well-formed formulas),
      the two counts are equal. */
  lemma {:induction false} EntailedCountsAgree(symbols: seq<string>, model: Model, kb: Val, alpha: Val)
    requires WellFormed(kb) && WellFormed(alpha)
    requires forall m :: Meaning(kb, m) ==> Meaning(alpha, m)
    ensures CheckAll(symbols, model, kb, alpha).Some?
    ensures CheckAll(symbols, model, kb, alpha).value.hits == CheckAll(symbols, model, kb, alpha).value.total
    decreases |symbols|
  {
    if |symbols| == 0 {
      IsTrueMeansMeaning(kb, model);
      IsTrueMeansMeaning(alpha, model);
    } else {
      EntailedCountsAgree(symbols[1..], model + [(symbols[0], true)], kb, alpha);
      EntailedCountsAgree(symbols[1..], model + [(symbols[0], false)], kb, alpha);
    }
  }

  /** When alpha fails wherever kb holds, no model counts as a hit. */
  lemma {:induction false} RefutedCountsNoHits(symbols: seq<string>, model: Model, kb: Val, alpha: Val)
    requires WellFormed(kb) && WellFormed(alpha)
    requires forall m :: Meaning(kb, m) ==> !Meaning(alpha, m)
    ensures CheckAll(symbols, model, kb, alpha).Some?
    ensures CheckAll(symbols, model, kb, alpha).value.hits == 0
    decreases |symbols|
  {
    if |symbols| == 0 {
      IsTrueMeansMeaning(kb, model);
      IsTrueMeansMeaning(alpha, model);
    } else {
      RefutedCountsNoHits(symbols[1..], model + [(symbols[0], true)], kb, alpha);
      RefutedCountsNoHits(symbols[1..], model + [(symbols[0], false)], kb, alpha);
    }
  }

  /** `true_counts / total_counts`, or 0 when no model satisfies the kb. */
  function Ratio(c: Counts): real
  {
    if c.total == 0 then 0.0 else c.hits as real / c.total as real
  }

  /** The ratio lies in [0, 1] when hits <= total; it is 1 exactly when every
      kb-model is an alpha-model, and 0 exactly when none is or there are none. */
  lemma RatioProperties(c: Counts)
    ensures c.total == 0 ==> Ratio(c) == 0.0
    ensures c.hits <= c.total ==> 0.0 <= Ratio(c) <= 1.0
    ensures 0 < c.total ==> (Ratio(c) == 1.0 <==> c.hits == c.total)
    ensures 0 < c.total ==> (Ratio(c) == 0.0 <==> c.hits == 0)
  {
    if 0 < c.total {
      var t, n := c.hits as real, c.total as real;
      var r := Ratio(c);
      assert r == t / n;
      assert r * n == t;
      if c.hits == c.total {
        assert r == 1.0;
      }
      if r == 1.0 {
        assert t == n;
      }
      if c.hits <= c.total {
        assert r * n <= 1.0 * n;
      }
    }
  }
}

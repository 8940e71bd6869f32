/** The `KnowledgeBase` class: clauses are told one at a time and nested into one
    aggregate list; `ask` enumerates every assignment of the kb's cached symbols
    followed by the query's symbols and returns the share of kb-models in which
    the query also holds. */
module KnowledgeBases {
  import opened Wrappers
  import opened Logic
  import opened Enumeration

  /** No value occurs twice. */
  predicate Distinct<T(==)>(xs: seq<T>)
  {
    forall i, j :: 0 <= i < j < |xs| ==> xs[i] != xs[j]
  }

  predicate AllWellFormed(cs: seq<Val>)
  {
    forall i :: 0 <= i < |cs| ==> WellFormed(cs[i])
  }

  /** The `kb` list that the `tell`s of the distinct clauses `seen` build, oldest first:
      the first clause is wrapped as `[c]`, every later one becomes the left operand
      of `[c, "and", previous]`. */
  function Aggregate(seen: seq<Val>): (kb: seq<Val>)
    ensures |kb| == 0 <==> |seen| == 0
  {
    if |seen| == 0 then []
    else if |seen| == 1 then [seen[0]]
    else [seen[|seen| - 1], Str("and"), Lst(Aggregate(seen[..|seen| - 1]))]
  }

  lemma AggregateAppend(seen: seq<Val>, clause: Val)
    ensures Aggregate(seen + [clause])
         == if seen == [] then [clause] else [clause, Str("and"), Lst(Aggregate(seen))]
  {
    assert (seen + [clause])[..|seen|] == seen;
  }

  /** The aggregate mentions exactly the symbols of the clauses told. */
  lemma {:induction false} AggregateSymbols(seen: seq<Val>)
    ensures Syms(Lst(Aggregate(seen))) == SymsOfAll(seen)
  {
    var n := |seen|;
    if n == 1 {
      assert [seen[0]][..0] == [];
      assert seen[..0] == [];
    } else if n > 1 {
      var kb := Aggregate(seen);
      AggregateSymbols(seen[..n - 1]);
      SymsOfThree(seen[n - 1], Str("and"), Lst(Aggregate(seen[..n - 1])));
      assert Syms(Str("and")) == {};
    }
  }

  lemma SymsOfThree(a: Val, b: Val, c: Val)
    ensures SymsOfAll([a, b, c]) == Syms(a) + Syms(b) + Syms(c)
  {
    assert SymsOfAll([a]) == Syms(a) by {
      assert [a][..0] == [];
    }
    assert SymsOfAll([a, b]) == Syms(a) + Syms(b) by {
      assert [a, b][..1] == [a];
    }
    assert [a, b, c][..2] == [a, b];
  }

  /** For well-formed clauses the aggregate is true in a model iff every clause told is. */
  lemma {:induction false} AggregateIsConjunction(seen: seq<Val>, model: Model)
    requires seen != [] && AllWellFormed(seen)
    ensures IsTrue(Lst(Aggregate(seen)), model) == Some(AllHold(seen, model))
  {
    var n := |seen|;
    IsTrueMeansMeaning(seen[n - 1], model);
    if n > 1 {
      var older := seen[..n - 1];
      AggregateIsConjunction(older, model);
      assert seen[n - 1] != Str("not");
      assert AllHold(seen, model) == (AllHold(older, model) && IsTrue(seen[n - 1], model) == Some(true)) by {
        forall i | 0 <= i < n - 1
          ensures older[i] == seen[i]
        {
        }
      }
    }
  }

  /** The aggregate of well-formed clauses is itself well-formed. */
  lemma {:induction false} AggregateWellFormed(seen: seq<Val>)
    requires seen != [] && AllWellFormed(seen)
    ensures WellFormed(Lst(Aggregate(seen)))
  {
    var n := |seen|;
    if n > 1 {
      AggregateWellFormed(seen[..n - 1]);
      assert seen[..n - 1][0] == seen[0];
    }
  }

  /** The elements `for x in iterable` yields: a list's items, or a string's one-character strings. */
  function Iterate(iterable: Val): seq<Val>
  {
    match iterable
    case Lst(items) => items
    case Str(s) => seq(|s|, i requires 0 <= i < |s| => Str([s[i]]))
  }

  /** The seen-clause list after `tell(clause)`: unchanged when the clause was told before. */
  function Told(seen: seq<Val>, clause: Val): seq<Val>
  {
    if clause in seen then seen else seen + [clause]
  }

  /** The seen-clause list after telling `clauses` one after the other. */
  function ToldAll(seen: seq<Val>, clauses: seq<Val>): seq<Val>
  {
    if |clauses| == 0 then seen
    else Told(ToldAll(seen, clauses[..|clauses| - 1]), clauses[|clauses| - 1])
  }

  /** Telling keeps what was seen, in order, and adds exactly the new clauses, once
      each: the result holds the earlier clauses and the told ones and nothing else. */
  lemma {:induction false} ToldAllRecords(seen: seq<Val>, clauses: seq<Val>)
    requires Distinct(seen)
    ensures Distinct(ToldAll(seen, clauses))
    ensures seen <= ToldAll(seen, clauses)
    ensures forall c :: c in ToldAll(seen, clauses) <==> c in seen || c in clauses
  {
    if |clauses| > 0 {
      var n := |clauses| - 1;
      ToldAllRecords(seen, clauses[..n]);
      assert clauses == clauses[..n] + [clauses[n]];
      var before := ToldAll(seen, clauses[..n]);
      if clauses[n] !in before {
        forall i, j | 0 <= i < j < |before| + 1
          ensures (before + [clauses[n]])[i] != (before + [clauses[n]])[j]
        {
          if j == |before| {
            assert before[i] in before;
          }
        }
      }
    }
  }

  /** Telling in two batches is telling the concatenation. */
  lemma {:induction false} ToldAllConcat(seen: seq<Val>, a: seq<Val>, b: seq<Val>)
    ensures ToldAll(seen, a + b) == ToldAll(ToldAll(seen, a), b)
  {
    if |b| > 0 {
      var n := |b| - 1;
      assert (a + b)[..|a + b| - 1] == a + b[..n];
      ToldAllConcat(seen, a, b[..n]);
    } else {
      assert a + b == a;
    }
  }

  /** A bare string handed to `get_symbols` is split into its characters. */
  lemma BareStringSplits(s: string, x: string)
    ensures x in SymsOfAll(Iterate(Str(s))) <==> |x| == 1 && x[0] in s
  {
    var parts := Iterate(Str(s));
    SymsOfAllReachable(parts, x);
    if |x| == 1 && x[0] in s {
      var i :| 0 <= i < |s| && s[i] == x[0];
      assert parts[i] == Str(x);
    }
  }

  /** Some duplicate-free listing of a set; the order `list(set)` uses is not specified. */
  ghost function SetToSeq(s: set<string>): (xs: seq<string>)
    ensures Distinct(xs) && |xs| == |s|
    ensures forall x :: x in xs <==> x in s
  {
    ListingExists(s);
    var xs :| Distinct(xs) && forall x :: x in xs <==> x in s;
    ListingLength(xs, s);
    xs
  }

  /** Every finite set has a duplicate-free listing. */
  lemma ListingExists(s: set<string>)
    ensures exists xs :: Distinct(xs) && forall x :: x in xs <==> x in s
    decreases s
  {
    if s != {} {
      var x :| x in s;
      ListingExists(s - {x});
      var ys :| Distinct(ys) && forall y :: y in ys <==> y in s - {x};
      var xs := [x] + ys;
      assert forall i :: 0 < i < |xs| ==> xs[i] == ys[i - 1];
      assert Distinct(xs);
      assert forall y :: y in xs <==> y in s;
    } else {
      var e: seq<string> := [];
      assert Distinct(e) && forall y :: y in e <==> y in s;
    }
  }

  lemma {:induction false} DistinctMultiplicity(xs: seq<string>, x: string)
    requires Distinct(xs)
    ensures multiset(xs)[x] == if x in xs then 1 else 0
  {
    if |xs| > 0 {
      assert xs == [xs[0]] + xs[1..];
      DistinctMultiplicity(xs[1..], x);
    }
  }

  /** Two duplicate-free lists with the same elements are reorderings of each other. */
  lemma SameElementsSameMultiset(xs: seq<string>, ys: seq<string>)
    requires Distinct(xs) && Distinct(ys)
    requires forall x :: x in xs <==> x in ys
    ensures multiset(xs) == multiset(ys)
  {
    forall x
      ensures multiset(xs)[x] == multiset(ys)[x]
    {
      DistinctMultiplicity(xs, x);
      DistinctMultiplicity(ys, x);
    }
  }

  /** Enumerating the cached symbols followed by any duplicate-free listing of a set
      gives the same counts as following them by `SetToSeq` of that set. */
  lemma ListingsAgree(cached: seq<string>, listing: seq<string>, s: set<string>, kb: Val, alpha: Val)
    requires Distinct(listing)
    requires forall x :: x in listing <==> x in s
    ensures |listing| == |s|
    ensures CheckAll(cached + listing, [], kb, alpha) == CheckAll(cached + SetToSeq(s), [], kb, alpha)
  {
    var canonical := SetToSeq(s);
    SameElementsSameMultiset(listing, canonical);
    ListingLength(listing, s);
    assert multiset(cached + listing) == multiset(cached + canonical);
    CountsIgnoreSymbolOrder(cached + listing, cached + canonical, [], kb, alpha);
  }

  /** A duplicate-free listing of a set is as long as the set is large. */
  lemma {:induction false} ListingLength(listing: seq<string>, s: set<string>)
    requires Distinct(listing)
    requires forall x :: x in listing <==> x in s
    ensures |listing| == |s|
  {
    if |listing| > 0 {
      var n := |listing| - 1;
      var x := listing[n];
      var front := listing[..n];
      assert x !in front;
      assert forall y :: y in front <==> y in s - {x} by {
        forall y
          ensures y in front <==> y in s - {x}
        {
          if y in listing && y != x {
            var i :| 0 <= i < |listing| && listing[i] == y;
            assert i < n && front[i] == y;
          }
        }
      }
      ListingLength(front, s - {x});
    } else {
      assert s == {};
    }
  }

  /** The enumeration of `cached + listing` makes `2^(|cached| + n) - 1` non-leaf
      calls when it completes, and no more when it raises. */
  lemma StepsOfListing(cached: seq<string>, listing: seq<string>, n: nat, kb: Val, alpha: Val)
    requires |listing| == n
    ensures Steps(cached + listing, [], kb, alpha) <= Pow2(|cached| + n) - 1
    ensures CheckAll(cached + listing, [], kb, alpha).Some? ==>
              Steps(cached + listing, [], kb, alpha) == Pow2(|cached| + n) - 1
  {
    var given := cached + listing;
    assert |given| == |cached| + n;
    StepsBound(given, [], kb, alpha);
  }

  /** What `tt_entails(kb, alpha)` returns once its symbol list is fixed:
      `None` when evaluation raises, otherwise the ratio of the counts. */
  function Entails(symbols: seq<string>, kb: Val, alpha: Val): (r: Option<real>)
    ensures r.Some? ==> 0.0 <= r.value <= 1.0
  {
    CountsBound(symbols, [], kb, alpha);
    match CheckAll(symbols, [], kb, alpha)
    case None => None
    case Some(c) => RatioProperties(c); Some(Ratio(c))
  }

  /** Classical entailment of a satisfiable kb gives the score 1. */
  lemma EntailedScoresOne(symbols: seq<string>, kb: Val, alpha: Val)
    requires WellFormed(kb) && WellFormed(alpha)
    requires forall m :: Meaning(kb, m) ==> Meaning(alpha, m)
    requires exists i :: 0 <= i < |Leaves(symbols, [])| && Meaning(kb, Leaves(symbols, [])[i])
    ensures Entails(symbols, kb, alpha) == Some(1.0)
  {
    var ls := Leaves(symbols, []);
    EntailedCountsAgree(symbols, [], kb, alpha);
    CheckAllCountsModels(symbols, [], kb, alpha);
    var i :| 0 <= i < |ls| && Meaning(kb, ls[i]);
    IsTrueMeansMeaning(kb, ls[i]);
    KbModelWitness(ls, kb, i);
    var c := CheckAll(symbols, [], kb, alpha).value;
    assert c.hits == c.total && 0 < c.total;
    RatioProperties(c);
  }

  lemma {:induction false} KbModelWitness(leaves: seq<Model>, kb: Val, i: nat)
    requires i < |leaves| && IsTrue(kb, leaves[i]) == Some(true)
    ensures KbModels(leaves, kb) > 0
  {
    if i > 0 {
      assert leaves[1..][i - 1] == leaves[i];
      KbModelWitness(leaves[1..], kb, i - 1);
    }
  }

  /** A kb that no model satisfies gives the score 0, whatever is asked. */
  lemma UnsatisfiableScoresZero(symbols: seq<string>, kb: Val, alpha: Val)
    requires forall m :: IsTrue(kb, m) == Some(false)
    ensures Entails(symbols, kb, alpha) == Some(0.0)
  {
    UnsatisfiableKbCountsNothing(symbols, [], kb, alpha);
    RatioProperties(Counts(0, 0));
  }

  /** A query false in every kb-model of well-formed formulas gives the score 0. */
  lemma RefutedScoresZero(symbols: seq<string>, kb: Val, alpha: Val)
    requires WellFormed(kb) && WellFormed(alpha)
    requires forall m :: Meaning(kb, m) ==> !Meaning(alpha, m)
    ensures Entails(symbols, kb, alpha) == Some(0.0)
  {
    RefutedCountsNoHits(symbols, [], kb, alpha);
    var c := CheckAll(symbols, [], kb, alpha).value;
    RatioProperties(c);
  }

  /** What `ask` can return for the kb built from `seen`. */
  lemma AskOutcome(seen: seq<Val>, symbols: seq<string>, alpha: Val)
    ensures seen == [] ==> Entails(symbols, Lst(Aggregate(seen)), alpha) == None
    ensures seen != [] && AllWellFormed(seen) && WellFormed(alpha) ==> Entails(symbols, Lst(Aggregate(seen)), alpha).Some?
  {
    if seen == [] {
      EmptyKbCannotBeAsked(symbols, alpha);
    } else if AllWellFormed(seen) && WellFormed(alpha) {
      WellFormedAskSucceeds(seen, symbols, alpha);
    }
  }

  /** Asking a well-formed query of a non-empty kb of well-formed clauses never raises. */
  lemma WellFormedAskSucceeds(seen: seq<Val>, symbols: seq<string>, alpha: Val)
    requires seen != [] && AllWellFormed(seen) && WellFormed(alpha)
    ensures Entails(symbols, Lst(Aggregate(seen)), alpha).Some?
  {
    AggregateWellFormed(seen);
    CheckAllCountsModels(symbols, [], Lst(Aggregate(seen)), alpha);
  }

  /** Asking before any `tell` raises: `is_true` is applied to the empty kb list. */
  lemma EmptyKbCannotBeAsked(symbols: seq<string>, alpha: Val)
    ensures Entails(symbols, Lst([]), alpha) == None
  {
    EmptyKbRaises(symbols, [], alpha);
  }

  /** The clauses told in the example session of knowledge_base.py, in order:
      no wumpus in 21, a wumpus in 21, 32 or 41, and no wumpus in 32. */
  function SessionClauses(): seq<Val>
  {
    [Not("w21"), Lst([Str("w21"), Str("or"), Lst([Str("w32"), Str("or"), Str("w41")])]), Not("w32")]
  }

  /** The session's kb holds in a model where `w41` is true and `w21`, `w32` are not. */
  lemma SessionKbHolds(m: Model)
    requires "w41" in TrueSymbols(m) && "w21" !in TrueSymbols(m) && "w32" !in TrueSymbols(m)
    ensures IsTrue(Lst(Aggregate(SessionClauses())), m) == Some(true)
  {
    var seen := SessionClauses();
    BindingInTrueSymbols(m, "w21");
    BindingInTrueSymbols(m, "w32");
    BindingInTrueSymbols(m, "w41");
    assert seen[..2][..1] == [seen[0]];
    assert Aggregate(seen[..2]) == [seen[1], Str("and"), Lst([seen[0]])];
    assert Aggregate(seen) == [seen[2], Str("and"), Lst(Aggregate(seen[..2]))];
    assert IsTrue(Lst([Str("w32"), Str("or"), Str("w41")]), m) == Some(true);
    assert IsTrue(seen[1], m) == Some(true);
    assert IsTrue(seen[0], m) == Some(true) && IsTrue(seen[2], m) == Some(true);
    assert IsTrue(Lst([seen[0]]), m) == Some(true);
    assert IsTrue(Lst(Aggregate(seen[..2])), m) == Some(true);
  }

  /** `w41` is one of the session kb's symbols. */
  lemma SessionMentionsW41()
    ensures "w41" in Syms(Lst(Aggregate(SessionClauses())))
  {
    var seen := SessionClauses();
    AggregateSymbols(seen);
    var inner := Lst([Str("w32"), Str("or"), Str("w41")]);
    SymsOfThree(Str("w32"), Str("or"), Str("w41"));
    assert Syms(inner) == {"w32", "w41"};
    SymsOfThree(Str("w21"), Str("or"), inner);
    assert "w41" in Syms(seen[1]);
    assert SymsOfAll(seen[..2]) == SymsOfAll(seen[..2][..1]) + Syms(seen[1]);
  }

  /** Binding `x` to true and every other symbol of the list to false makes `x` the only true symbol. */
  lemma OnlyTrue(symbols: seq<string>, x: string)
    requires x in symbols
    ensures var values := seq(|symbols|, i requires 0 <= i < |symbols| => symbols[i] == x);
            TrueSymbols(Bind(symbols, values)) == {x}
  {
    var values := seq(|symbols|, i requires 0 <= i < |symbols| => symbols[i] == x);
    var m := Bind(symbols, values);
    var i :| 0 <= i < |symbols| && symbols[i] == x;
    assert m[i] == (x, true);
    forall s | s in TrueSymbols(m)
      ensures s == x
    {
      var j :| 0 <= j < |m| && m[j].1 && m[j].0 == s;
    }
  }

  /** The example session scores "no wumpus in 32" as 1, for every symbol listing
      that includes `w41` (the kb has a model only when `w41` can be true). */
  lemma SessionScoresOne(symbols: seq<string>)
    requires "w41" in symbols
    ensures Entails(symbols, Lst(Aggregate(SessionClauses())), Not("w32")) == Some(1.0)
  {
    var seen := SessionClauses();
    var kb := Lst(Aggregate(seen));
    var alpha := Not("w32");
    assert "or" in Operators[1..];
    assert AllWellFormed(seen);
    AggregateWellFormed(seen);
    forall m | Meaning(kb, m)
      ensures Meaning(alpha, m)
    {
      AggregateIsConjunction(seen, m);
      IsTrueMeansMeaning(kb, m);
      IsTrueMeansMeaning(alpha, m);
      assert IsTrue(seen[2], m) == Some(true);
    }
    var values := seq(|symbols|, i requires 0 <= i < |symbols| => symbols[i] == "w41");
    EveryAssignmentIsVisited(symbols, [], values);
    OnlyTrue(symbols, "w41");
    var leaf := Leaves(symbols, [])[LeafIndex(values)];
    assert leaf == Bind(symbols, values);
    SessionKbHolds(leaf);
    IsTrueMeansMeaning(kb, leaf);
    EntailedScoresOne(symbols, kb, alpha);
  }

  class KnowledgeBase {
    /** The aggregate list `self.kb`. */
    var kb: seq<Val>
    /** `self.seen_clauses`, oldest first. */
    var seenClauses: seq<Val>
    /** `self.cached_symobls`: the symbols of `kb`, in the order `list(set)` gave them. */
    var cachedSymbols: seq<string>
    /** `self.progress_bar`: the number of non-leaf enumeration calls of the last `ask`. */
    var progressBar: nat

    ghost predicate Valid()
      reads this`kb, this`seenClauses, this`cachedSymbols
    {
      kb == Aggregate(seenClauses) &&
      Distinct(seenClauses) &&
      Distinct(cachedSymbols) &&
      (forall x :: x in cachedSymbols <==> x in Syms(Lst(kb)))
    }

    constructor ()
      ensures Valid()
      ensures kb == [] && seenClauses == [] && cachedSymbols == [] && progressBar == 0
    {
      kb := [];
      seenClauses := [];
      cachedSymbols := [];
      progressBar := 0;
    }

    /** `tell`: a clause already seen (by value) changes nothing; a new one is recorded
        and nested into the aggregate, and the symbol cache is recomputed. */
    method Tell(clause: Val)
      requires Valid()
      modifies this
      ensures Valid()
      ensures progressBar == old(progressBar)
      ensures seenClauses == Told(old(seenClauses), clause)
      ensures clause in old(seenClauses) ==>
        kb == old(kb) && seenClauses == old(seenClauses) && cachedSymbols == old(cachedSymbols)
      ensures clause !in old(seenClauses) ==>
        seenClauses == old(seenClauses) + [clause] &&
        kb == (if old(kb) == [] then [clause] else [clause, Str("and"), Lst(old(kb))])
      ensures forall x :: x in cachedSymbols <==> Occurs(x, Lst(kb)) && x !in Operators
    {
      if clause in seenClauses {
        forall x
          ensures x in cachedSymbols <==> Occurs(x, Lst(kb)) && x !in Operators
        {
          SymsAreReachableNonOperators(Lst(kb), x);
        }
        return;
      }
      AggregateAppend(seenClauses, clause);
      seenClauses := seenClauses + [clause];
      if kb == [] {
        kb := kb + [clause];
      } else {
        kb := [clause, Str("and")] + [Lst(kb)];
      }
      cachedSymbols := GetSymbols(Lst(kb));
      forall x
        ensures x in cachedSymbols <==> Occurs(x, Lst(kb)) && x !in Operators
      {
        SymsAreReachableNonOperators(Lst(kb), x);
      }
    }

    /** `get_symbols`: the distinct symbols of every element of `clauses`, listed once each. */
    method GetSymbols(clauses: Val) returns (symbols: seq<string>)
      ensures Distinct(symbols)
      ensures forall x :: x in symbols <==> x in SymsOfAll(Iterate(clauses))
    {
      var found: set<string> := {};
      var parts := Iterate(clauses);
      for i := 0 to |parts|
        invariant found == SymsOfAll(parts[..i])
      {
        found := ExtractSymbols(parts[i], found);
        assert parts[..i + 1][..i] == parts[..i];
      }
      assert parts[..|parts|] == parts;
      symbols := [];
      var rest := found;
      while rest != {}
        invariant Distinct(symbols)
        invariant forall x :: x in symbols ==> x !in rest
        invariant forall x :: x in found <==> x in symbols || x in rest
        decreases rest
      {
        var x :| x in rest;
        symbols := symbols + [x];
        rest := rest - {x};
      }
    }

    /** `extract_symbols`: add the symbols of `clause` to the accumulator. */
    method ExtractSymbols(clause: Val, symbols: set<string>) returns (result: set<string>)
      ensures result == symbols + Syms(clause)
      decreases clause
    {
      if clause.Str? && !IsOperator(clause) {
        result := symbols + {clause.s};
      } else if clause.Lst? {
        var parts := clause.items;
        result := symbols;
        for i := 0 to |parts|
          invariant result == symbols + SymsOfAll(parts[..i])
        {
          result := ExtractSymbols(parts[i], result);
          assert parts[..i + 1][..i] == parts[..i];
        }
        assert parts[..|parts|] == parts;
      } else {
        result := symbols;
      }
    }

    /** `tt_check_all`: branch on every symbol, counting one progress step per non-leaf call. */
    method TtCheckAll(symbols: seq<string>, model: Model, kb: Val, alpha: Val) returns (r: Option<Counts>)
      modifies this`progressBar
      ensures r == CheckAll(symbols, model, kb, alpha)
      ensures progressBar == old(progressBar) + Steps(symbols, model, kb, alpha)
      decreases |symbols|
    {
      if |symbols| == 0 {
        r := Leaf(model, kb, alpha);
        assert CheckAll(symbols, model, kb, alpha) == Leaf(model, kb, alpha);
        return;
      }
      var p := symbols[0];
      var rest := symbols[1..];
      ghost var before := progressBar;
      ghost var stepsWhenTrue := Steps(rest, model + [(p, true)], kb, alpha);
      ghost var stepsWhenFalse := Steps(rest, model + [(p, false)], kb, alpha);
      StepsUnfold(symbols, model, kb, alpha);
      progressBar := progressBar + 1;
      var first := TtCheckAll(rest, model + [(p, true)], kb, alpha);
      assert progressBar == before + 1 + stepsWhenTrue;
      if first.None? {
        return None;
      }
      var second := TtCheckAll(rest, model + [(p, false)], kb, alpha);
      assert progressBar == before + 1 + stepsWhenTrue + stepsWhenFalse;
      if second.None? {
        return None;
      }
      r := Some(Counts(first.value.hits + second.value.hits, first.value.total + second.value.total));
      assert r == Add(first, second);
    }

    /** The symbol list `ask` enumerates, as far as it is determined: the cached kb
        symbols followed by some listing of the query's symbols. */
    ghost function AskSymbols(alpha: Val): seq<string>
      reads this`cachedSymbols
    {
      cachedSymbols + SetToSeq(SymsOfAll(Iterate(alpha)))
    }

    /** The number of non-leaf calls a complete enumeration of `AskSymbols(alpha)` makes. */
    ghost function FullProgress(alpha: Val): nat
      reads this`cachedSymbols
    {
      Pow2(|cachedSymbols| + |SymsOfAll(Iterate(alpha))|) - 1
    }

    /** `tt_entails`: enumerate the cached symbols concatenated with the query's
        (a symbol in both is enumerated twice) and return the ratio of the counts. */
    method TtEntails(kb: Val, alpha: Val) returns (r: Option<real>)
      modifies this`progressBar
      ensures r == Entails(AskSymbols(alpha), kb, alpha)
      ensures progressBar <= old(progressBar) + FullProgress(alpha)
      ensures r.Some? ==> progressBar == old(progressBar) + FullProgress(alpha)
    {
      var alphaSymbols := GetSymbols(alpha);
      var symbols := cachedSymbols + alphaSymbols;
      ghost var before := progressBar;
      var counts := TtCheckAll(symbols, [], kb, alpha);
      ghost var n := |SymsOfAll(Iterate(alpha))|;
      ListingLength(alphaSymbols, SymsOfAll(Iterate(alpha)));
      StepsOfListing(cachedSymbols, alphaSymbols, n, kb, alpha);
      assert progressBar - before <= FullProgress(alpha);
      assert counts.Some? ==> progressBar - before == FullProgress(alpha);
      ListingsAgree(cachedSymbols, alphaSymbols, SymsOfAll(Iterate(alpha)), kb, alpha);
      if counts.None? {
        return None;
      }
      if counts.value.total == 0 {
        return Some(0.0);
      }
      r := Some(counts.value.hits as real / counts.value.total as real);
    }

    /** `ask`: reset the progress counter and score the query against the kb. */
    method Ask(alpha: Val) returns (r: Option<real>)
      requires Valid()
      modifies this`progressBar
      ensures Valid()
      ensures r == Entails(AskSymbols(alpha), Lst(kb), alpha)
      ensures r.Some? ==> 0.0 <= r.value <= 1.0
      ensures kb == [] ==> r == None
      ensures AllWellFormed(seenClauses) && kb != [] && WellFormed(alpha) ==> r.Some?
      ensures progressBar <= FullProgress(alpha)
      ensures r.Some? ==> progressBar == FullProgress(alpha)
    {
      progressBar := 0;
      r := TtEntails(Lst(kb), alpha);
      AskOutcome(seenClauses, AskSymbols(alpha), alpha);
    }
  }

  /** The example session of knowledge_base.py: three `tell`s and one `ask`, which returns 1. */
  method ExampleSession() returns (r: Option<real>)
    ensures r == Some(1.0)
  {
    var base := new KnowledgeBase();
    var clauses := SessionClauses();
    base.Tell(clauses[0]);
    base.Tell(clauses[1]);
    base.Tell(clauses[2]);
    assert base.seenClauses == clauses;
    var alpha := Not("w32");
    r := base.Ask(alpha);
    SessionMentionsW41();
    assert "w41" in base.AskSymbols(alpha);
    SessionScoresOne(base.AskSymbols(alpha));
  }
}

/** Propositional formulas as the knowledge base stores them: raw Python values,
    where a string is a symbol (or an operator token) and a list is a node.
    This module holds their evaluation in a model (`is_true`), the symbols they
    mention (`extract_symbols`), and a reference semantics for the well-formed ones. */
module Logic {
  import opened Wrappers

  /** A Python value as the knowledge base sees it: a `str` or a `list`. */
  datatype Val = Str(s: string) | Lst(items: seq<Val>)

  /** A model: the (symbol, truth value) pairs appended during enumeration. */
  type Model = seq<(string, bool)>

  /** The operator tokens of `is_operator`. */
  const Operators: seq<string> := ["not", "and", "or", "implies", "iff"]

  /** `is_operator`: the item is one of the operator tokens (a list never is). */
  predicate IsOperator(item: Val)
  {
    item.Str? && item.s in Operators
  }

  /** `is_true`. `None` means that Python raises `IndexError`: on an empty list
      (`prop[0]`), or when a binary node has no third element and the
      short-circuit evaluation reaches `prop[2]`. Any other unrecognised shape is false.
      A symbol holds iff the pair `(s, True)` occurs in the model. */
  function IsTrue(prop: Val, model: Model): (r: Option<bool>)
    ensures prop.Lst? && prop.items == [] ==> r == None
  {
    match prop
    case Str(s) => Some((s, true) in model)
    case Lst(items) =>
      if |items| == 1 then IsTrue(items[0], model)
      else if |items| == 0 then None
      else if items[0] == Str("not") then
        (match IsTrue(items[1], model)
         case None => None
         case Some(a) => Some(!a))
      else
        var left := IsTrue(items[0], model);
        var right := if |items| < 3 then None else IsTrue(items[2], model);
        if items[1] == Str("and") then
          (match left
           case None => None
           case Some(a) => if a then right else Some(false))
        else if items[1] == Str("or") then
          (match left
           case None => None
           case Some(a) => if a then Some(true) else right)
        else if items[1] == Str("implies") then
          (match left
           case None => None
           case Some(a) => if !a then Some(true) else right)
        else if items[1] == Str("iff") then
          (match left
           case None => None
           case Some(a) =>
             match right
             case None => None
             case Some(b) => Some((!a || b) && (!b || a)))
        else
          Some(false)
  }

  /** The clause `["not", symbol]`. */
  function Not(symbol: string): Val
  {
    Lst([Str("not"), Str(symbol)])
  }

  /** Worked evaluations: negation, implication and `iff` by their truth tables, an
      atom true through any one of its bindings and false when unbound, an unknown
      connective false, and a binary node without its right operand raising. */
  lemma EvaluationExamples()
    ensures IsTrue(Not("x"), [("x", true)]) == Some(false)
    ensures IsTrue(Lst([Str("x"), Str("implies"), Str("y")]), [("x", false), ("y", false)]) == Some(true)
    ensures IsTrue(Lst([Str("x"), Str("iff"), Str("y")]), [("x", true), ("y", false)]) == Some(false)
    ensures IsTrue(Str("x"), [("x", false), ("x", true)]) == Some(true)
    ensures IsTrue(Str("x"), []) == Some(false)
    ensures IsTrue(Lst([Str("x"), Str("xor"), Str("y")]), [("x", true)]) == Some(false)
    ensures IsTrue(Lst([Str("x"), Str("and")]), [("x", true)]) == None
  {
  }

  /** Every clause of `cs` evaluates to true in `model`. */
  predicate AllHold(cs: seq<Val>, model: Model)
  {
    forall i :: 0 <= i < |cs| ==> IsTrue(cs[i], model) == Some(true)
  }

  /** The set `extract_symbols` adds for `clause`: operator tokens are skipped,
      other strings are added, lists are walked element by element. */
  function Syms(clause: Val): set<string>
  {
    match clause
    case Str(s) => if IsOperator(clause) then {} else {s}
    case Lst(items) => SymsOfAll(items)
  }

  /** The symbols of every element of `parts`, as the `for part in clause` loop adds them. */
  function SymsOfAll(parts: seq<Val>): set<string>
  {
    if |parts| == 0 then {} else SymsOfAll(parts[..|parts| - 1]) + Syms(parts[|parts| - 1])
  }

  /** The string `x` occurs somewhere in `v`, at any depth of list nesting. */
  predicate Occurs(x: string, v: Val)
  {
    match v
    case Str(s) => s == x
    case Lst(items) => exists i :: 0 <= i < |items| && Occurs(x, items[i])
  }

  /** The symbols of `v` are exactly the strings reachable in it that are not operator tokens. */
  lemma {:induction false} SymsAreReachableNonOperators(v: Val, x: string)
    ensures x in Syms(v) <==> Occurs(x, v) && x !in Operators
  {
    match v
    case Str(s) =>
    case Lst(items) =>
      SymsOfAllReachable(items, x);
  }

  lemma {:induction false} SymsOfAllReachable(parts: seq<Val>, x: string)
    ensures x in SymsOfAll(parts) <==> (exists i :: 0 <= i < |parts| && Occurs(x, parts[i])) && x !in Operators
  {
    if |parts| > 0 {
      var n := |parts| - 1;
      SymsOfAllReachable(parts[..n], x);
      SymsAreReachableNonOperators(parts[n], x);
      if exists i :: 0 <= i < |parts| && Occurs(x, parts[i]) {
        var i :| 0 <= i < |parts| && Occurs(x, parts[i]);
        if i < n {
          assert parts[..n][i] == parts[i];
        }
      }
      if exists i :: 0 <= i < n && Occurs(x, parts[..n][i]) {
        var i :| 0 <= i < n && Occurs(x, parts[..n][i]);
        assert parts[i] == parts[..n][i];
      }
    }
  }

  /** The symbols bound to true somewhere in a model. */
  function TrueSymbols(model: Model): set<string>
  {
    set i | 0 <= i < |model| && model[i].1 :: model[i].0
  }

  lemma BindingInTrueSymbols(model: Model, s: string)
    ensures (s, true) in model <==> s in TrueSymbols(model)
  {
    if s in TrueSymbols(model) {
      var i :| 0 <= i < |model| && model[i].1 && model[i].0 == s;
      assert model[i] == (s, true);
    }
  }

  /** Extending a model by one binding adds the symbol to the true set iff it is bound to true. */
  lemma {:induction false} TrueSymbolsExtend(model: Model, p: string, b: bool)
    ensures TrueSymbols(model + [(p, b)]) == TrueSymbols(model) + (if b then {p} else {})
  {
    var ext := model + [(p, b)];
    forall s
      ensures s in TrueSymbols(ext) <==> s in TrueSymbols(model) + (if b then {p} else {})
    {
      BindingInTrueSymbols(ext, s);
      BindingInTrueSymbols(model, s);
      assert (s, true) in ext <==> (s, true) in model || (s, true) == (p, b);
    }
  }

  /** `is_true` looks at a model only through the set of symbols bound to true:
      an atom holds iff some binding for it is `True`, whatever else is bound. */
  lemma {:induction false} TruthDependsOnlyOnTrueSymbols(prop: Val, m1: Model, m2: Model)
    requires TrueSymbols(m1) == TrueSymbols(m2)
    ensures IsTrue(prop, m1) == IsTrue(prop, m2)
  {
    match prop
    case Str(s) =>
      BindingInTrueSymbols(m1, s);
      BindingInTrueSymbols(m2, s);
    case Lst(items) =>
      if |items| >= 1 {
        TruthDependsOnlyOnTrueSymbols(items[0], m1, m2);
      }
      if |items| >= 2 {
        TruthDependsOnlyOnTrueSymbols(items[1], m1, m2);
      }
      if |items| >= 3 {
        TruthDependsOnlyOnTrueSymbols(items[2], m1, m2);
      }
  }

  /** The well-formed shapes: a symbol, a one-element wrapper list, `["not", e]`, and
      `[l, op, r]` with `op` a binary connective. */
  predicate WellFormed(v: Val)
  {
    match v
    case Str(s) => !IsOperator(v)
    case Lst(items) =>
      (|items| == 1 && WellFormed(items[0])) ||
      (|items| == 2 && items[0] == Str("not") && WellFormed(items[1])) ||
      (|items| == 3 && items[1].Str? && items[1].s in Operators[1..] &&
       WellFormed(items[0]) && WellFormed(items[2]))
  }

  /** Textbook semantics of a well-formed formula: negation, conjunction,
      disjunction, material implication, and `iff` as equality of truth values. */
  function Meaning(v: Val, model: Model): bool
    requires WellFormed(v)
  {
    match v
    case Str(s) => s in TrueSymbols(model)
    case Lst(items) =>
      if |items| == 1 then Meaning(items[0], model)
      else if |items| == 2 then !Meaning(items[1], model)
      else
        var a, b := Meaning(items[0], model), Meaning(items[2], model);
        match items[1].s
        case "and" => a && b
        case "or" => a || b
        case "implies" => a ==> b
        case _ => a == b
  }

  /** On well-formed formulas `is_true` never raises and agrees with the reference semantics. */
  lemma {:induction false} IsTrueMeansMeaning(v: Val, model: Model)
    requires WellFormed(v)
    ensures IsTrue(v, model) == Some(Meaning(v, model))
  {
    match v
    case Str(s) =>
      BindingInTrueSymbols(model, s);
    case Lst(items) =>
      if |items| == 1 {
        IsTrueMeansMeaning(items[0], model);
      } else if |items| == 2 {
        IsTrueMeansMeaning(items[1], model);
      } else {
        IsTrueMeansMeaning(items[0], model);
        IsTrueMeansMeaning(items[2], model);
        assert items[0] != Str("not");
      }
  }
}

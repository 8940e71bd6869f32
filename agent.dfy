/** The `WWAgent` class: it records percepts in a map of the world, tells its
    knowledge base what they imply about the neighbouring cells, and picks a
    neighbour the knowledge base scores as free of wumpus and pit, turning left
    until it faces it and then moving. */
module Agents {
  import opened Wrappers
  import opened Logic
  import opened Enumeration
  import opened KnowledgeBases
  import opened Grid

  /** A percept tuple (stench, breeze, glitter, bump, scream): each slot is `None` or a word. */
  type Percept = seq<Option<string>>

  /** The percept tuple before anything was sensed. */
  const NoPercept: Percept := [None, None, None, None, None]

  /** The query `[["not", "w" + d], "and", ["not", "p" + d]]`: neither wumpus nor pit in `d`. */
  function SafetyQuery(dir: string): Val
  {
    Lst([Not("w" + dir), Str("and"), Not("p" + dir)])
  }

  /** Symbols made of a `w` or `p` prefix and a cell name are never operator tokens. */
  lemma PrefixedSymbol(prefix: string, name: string)
    requires prefix == "w" || prefix == "p"
    ensures prefix + name !in Operators
    ensures !IsOperator(Str(prefix + name))
  {
    assert (prefix + name)[0] == prefix[0];
  }

  /** The safety query is a well-formed conjunction of two negated symbols. */
  lemma SafetyQueryWellFormed(dir: string)
    ensures WellFormed(SafetyQuery(dir))
  {
    PrefixedSymbol("w", dir);
    PrefixedSymbol("p", dir);
    assert "and" in Operators[1..];
  }

  // ---------------------------------------------------------------------------
  // The stench and breeze clauses

  /** A Python list object seen as a row of items: a string, or a reference to another list. */
  datatype Item = Atom(s: string) | Ref(id: nat)

  /** The list objects the stench (prefix `w`) or breeze (prefix `p`) branch of `update`
      builds, as written: object 0 is `clause`; the first direction is appended as a
      string; each later one appends `[prefix + d, "or", W]` where `W` is a new list
      `[clause]` holding `clause` itself. */
  function BuildAsWritten(prefix: string, dirs: seq<string>): (objects: seq<seq<Item>>)
    ensures |objects| >= 1
  {
    if |dirs| == 0 then [[]]
    else
      var objects := BuildAsWritten(prefix, dirs[..|dirs| - 1]);
      var d := dirs[|dirs| - 1];
      if objects[0] == [] then objects[0 := [Atom(prefix + d)]]
      else
        var wrapper, node := |objects|, |objects| + 1;
        (objects + [[Ref(0)], [Atom(prefix + d), Atom("or"), Ref(wrapper)]])[0 := objects[0] + [Ref(node)]]
  }

  /** The finite value `v` is what list object `id` holds, item by item, all the way down. */
  predicate Represents(v: Val, objects: seq<seq<Item>>, id: nat)
    decreases v
  {
    id < |objects| && v.Lst? && |v.items| == |objects[id]| &&
    forall k :: 0 <= k < |v.items| ==>
      match objects[id][k]
      case Atom(s) => v.items[k] == Str(s)
      case Ref(j) => Represents(v.items[k], objects, j)
  }

  /** From the second direction on, `clause[1][2][0]` is `clause` itself. */
  lemma {:induction false} AsWrittenCycle(prefix: string, dirs: seq<string>)
    requires |dirs| >= 2
    ensures |BuildAsWritten(prefix, dirs)| >= 3
    ensures |BuildAsWritten(prefix, dirs)[0]| >= 2 && BuildAsWritten(prefix, dirs)[0][1] == Ref(2)
    ensures BuildAsWritten(prefix, dirs)[2] == [Atom(prefix + dirs[1]), Atom("or"), Ref(1)]
    ensures BuildAsWritten(prefix, dirs)[1] == [Ref(0)]
  {
    var n := |dirs| - 1;
    if |dirs| == 2 {
      assert dirs[..1][..0] == [];
      assert BuildAsWritten(prefix, dirs[..1]) == [[Atom(prefix + dirs[0])]];
    } else {
      assert dirs[..n][1] == dirs[1];
      AsWrittenCycle(prefix, dirs[..n]);
    }
  }

  /** No finite formula is the list object that contains itself. */
  lemma {:induction false} NoFiniteCycle(v: Val, objects: seq<seq<Item>>, prefix: string, d: string)
    requires |objects| >= 3
    requires |objects[0]| >= 2 && objects[0][1] == Ref(2)
    requires objects[2] == [Atom(prefix + d), Atom("or"), Ref(1)]
    requires objects[1] == [Ref(0)]
    ensures !Represents(v, objects, 0)
    decreases v
  {
    if Represents(v, objects, 0) {
      var node := v.items[1];
      assert Represents(node, objects, 2);
      var wrapper := node.items[2];
      assert Represents(wrapper, objects, 1);
      var inner := wrapper.items[0];
      assert Represents(inner, objects, 0);
      NoFiniteCycle(inner, objects, prefix, d);
    }
  }

  /** As written, from two neighbours on the stench (or breeze) clause contains itself,
      so no finite formula is that clause: `extract_symbols` (and `==`, and `is_true`)
      keeps descending into it until Python raises `RecursionError`. In a world at
      least two cells wide every cell has two neighbours, so every stench or breeze
      percept sends `update` into this. */
  lemma AsWrittenClauseIsCyclic(prefix: string, c: Cell, size: int)
    requires size >= 2 && InBounds(c, size)
    ensures forall v :: !Represents(v, BuildAsWritten(prefix, Directions(c, size)), 0)
  {
    var dirs := Directions(c, size);
    AtLeastTwoNeighbours(c, size);
    AsWrittenCycle(prefix, dirs);
    forall v
      ensures !Represents(v, BuildAsWritten(prefix, dirs), 0)
    {
      NoFiniteCycle(v, BuildAsWritten(prefix, dirs), prefix, dirs[1]);
    }
  }

  /** The clause the branch evidently means to build: the first direction `[prefix + d]`,
      then each later one wraps the clause so far as `[prefix + d, "or", [clause]]`.
      With no direction at all the clause stays the empty list. */
  function Disjunction(prefix: string, dirs: seq<string>): Val
  {
    if |dirs| == 0 then Lst([])
    else if |dirs| == 1 then Lst([Str(prefix + dirs[0])])
    else Lst([Str(prefix + dirs[|dirs| - 1]), Str("or"), Lst([Disjunction(prefix, dirs[..|dirs| - 1])])])
  }

  /** With at most one direction the list as written holds no reference and is exactly
      the intended clause. */
  lemma AsWrittenAgreesWhenAcyclic(prefix: string, dirs: seq<string>)
    requires |dirs| <= 1
    ensures Represents(Disjunction(prefix, dirs), BuildAsWritten(prefix, dirs), 0)
  {
    if |dirs| == 1 {
      assert dirs[..0] == [];
    }
  }

  /** The intended clause is a well-formed formula that holds exactly when some listed
      neighbour carries the symbol: "a wumpus (or a pit) is next to here". */
  lemma {:induction false} DisjunctionMeansSomeNeighbour(prefix: string, dirs: seq<string>, m: Model)
    requires prefix == "w" || prefix == "p"
    requires |dirs| >= 1
    ensures WellFormed(Disjunction(prefix, dirs))
    ensures IsTrue(Disjunction(prefix, dirs), m) ==
              Some(exists i :: 0 <= i < |dirs| && prefix + dirs[i] in TrueSymbols(m))
  {
    var n := |dirs| - 1;
    PrefixedSymbol(prefix, dirs[n]);
    BindingInTrueSymbols(m, prefix + dirs[n]);
    if n > 0 {
      var front := dirs[..n];
      DisjunctionMeansSomeNeighbour(prefix, front, m);
      var d := Disjunction(prefix, dirs);
      IsTrueMeansMeaning(Disjunction(prefix, front), m);
      assert d.items[0] != Str("not");
      assert "or" in Operators[1..];
      assert WellFormed(Lst([Disjunction(prefix, front)]));
      if exists i :: 0 <= i < |dirs| && prefix + dirs[i] in TrueSymbols(m) {
        var i :| 0 <= i < |dirs| && prefix + dirs[i] in TrueSymbols(m);
        if i < n {
          assert front[i] == dirs[i];
        }
      }
      if exists i :: 0 <= i < |front| && prefix + front[i] in TrueSymbols(m) {
        var i :| 0 <= i < |front| && prefix + front[i] in TrueSymbols(m);
        assert dirs[i] == front[i];
      }
    }
  }

  /** The loop of the stench and breeze branches, building the intended clause:
      `clause` starts empty, an empty clause takes the first symbol, a non-empty one
      is wrapped into a disjunction with the next. */
  method BuildDisjunction(prefix: string, dirs: seq<string>) returns (clause: Val)
    ensures clause == Disjunction(prefix, dirs)
  {
    clause := Lst([]);
    for i := 0 to |dirs|
      invariant clause == Disjunction(prefix, dirs[..i])
    {
      assert dirs[..i + 1][..i] == dirs[..i];
      if clause == Lst([]) {
        assert i == 0;
        clause := Lst([Str(prefix + dirs[i])]);
      } else {
        clause := Lst([Str(prefix + dirs[i]), Str("or"), Lst([clause])]);
      }
    }
    assert dirs[..|dirs|] == dirs;
  }

  // ---------------------------------------------------------------------------
  // What update tells

  /** `["not", prefix + d]` for every direction `d`, in order. */
  function Nots(prefix: string, dirs: seq<string>): (clauses: seq<Val>)
    ensures |clauses| == |dirs|
  {
    seq(|dirs|, i requires 0 <= i < |dirs| => Not(prefix + dirs[i]))
  }

  /** What `update` tells about one hazard: the clause for a sensed stench (breeze),
      or "none here" for every neighbour otherwise. */
  function HazardClauses(sensed: bool, prefix: string, dirs: seq<string>): seq<Val>
  {
    if sensed then [Disjunction(prefix, dirs)] else Nots(prefix, dirs)
  }

  /** The clauses `update` tells for a percept sensed at `pos`, in order: a stench
      clause or "no wumpus" for every neighbour, a breeze clause or "no pit" for every
      neighbour, and finally "no wumpus" and "no pit" in the cell itself. */
  function UpdateClauses(percept: Percept, pos: Cell, size: int): seq<Val>
    requires pos.0 >= 0 && pos.1 >= 0
  {
    var dirs := Directions(pos, size);
    HazardClauses(Some("stench") in percept, "w", dirs) +
    HazardClauses(Some("breeze") in percept, "p", dirs) +
    [Not("w" + Name(pos)), Not("p" + Name(pos))]
  }

  /** The clauses `update` tells about one hazard around a cell with a neighbour are
      well-formed, whether or not the hazard was sensed. */
  lemma HazardClausesWellFormed(sensed: bool, prefix: string, dirs: seq<string>)
    requires prefix == "w" || prefix == "p"
    requires |dirs| >= 1
    ensures AllWellFormed(HazardClauses(sensed, prefix, dirs))
  {
    if sensed {
      DisjunctionMeansSomeNeighbour(prefix, dirs, []);
    } else {
      forall i | 0 <= i < |dirs|
        ensures WellFormed(Nots(prefix, dirs)[i])
      {
        PrefixedSymbol(prefix, dirs[i]);
      }
    }
  }

  /** Concatenating lists of well-formed clauses gives one. */
  lemma AllWellFormedConcat(xs: seq<Val>, ys: seq<Val>)
    requires AllWellFormed(xs) && AllWellFormed(ys)
    ensures AllWellFormed(xs + ys)
  {
    forall i | 0 <= i < |xs + ys|
      ensures WellFormed((xs + ys)[i])
    {
      if i >= |xs| {
        assert (xs + ys)[i] == ys[i - |xs|];
      }
    }
  }

  /** Once there is a neighbour, every clause `update` tells is well-formed. */
  lemma UpdateClausesWellFormed(percept: Percept, pos: Cell, size: int)
    requires pos.0 >= 0 && pos.1 >= 0
    requires |Directions(pos, size)| >= 1
    ensures AllWellFormed(UpdateClauses(percept, pos, size))
  {
    var dirs := Directions(pos, size);
    var ws := HazardClauses(Some("stench") in percept, "w", dirs);
    var ps := HazardClauses(Some("breeze") in percept, "p", dirs);
    var here := [Not("w" + Name(pos)), Not("p" + Name(pos))];
    HazardClausesWellFormed(Some("stench") in percept, "w", dirs);
    HazardClausesWellFormed(Some("breeze") in percept, "p", dirs);
    PrefixedSymbol("w", Name(pos));
    PrefixedSymbol("p", Name(pos));
    assert AllWellFormed(here);
    AllWellFormedConcat(ws, ps);
    AllWellFormedConcat(ws + ps, here);
  }

  /** Telling three lists one after the other, the last clause by clause, tells their
      concatenation. */
  lemma ToldInSequence(seen: seq<Val>, ws: seq<Val>, ps: seq<Val>, here: seq<Val>)
    requires |here| == 2
    ensures ToldAll(ToldAll(ToldAll(ToldAll(seen, ws), ps), [here[0]]), [here[1]])
         == ToldAll(seen, ws + ps + here)
  {
    ToldAllConcat(seen, ws, ps);
    ToldAllConcat(ToldAll(seen, ws + ps), [here[0]], [here[1]]);
    assert [here[0]] + [here[1]] == here;
    ToldAllConcat(seen, ws + ps, here);
  }

  /** Telling well-formed clauses keeps a kb of well-formed clauses. */
  lemma {:induction false} ToldAllWellFormed(seen: seq<Val>, clauses: seq<Val>)
    requires AllWellFormed(seen) && AllWellFormed(clauses)
    ensures AllWellFormed(ToldAll(seen, clauses))
  {
    if |clauses| > 0 {
      var n := |clauses| - 1;
      assert AllWellFormed(clauses[..n]) by {
        forall i | 0 <= i < n
          ensures WellFormed(clauses[..n][i])
        {
          assert clauses[..n][i] == clauses[i];
        }
      }
      ToldAllWellFormed(seen, clauses[..n]);
    }
  }

  /** A kb that has been told "no wumpus and no pit in `d`" agrees with the safety
      query about `d` in every model it has: every kb-model is an alpha-model. */
  lemma ToldSafeIsEntailed(seen: seq<Val>, symbols: seq<string>, d: string)
    requires seen != [] && AllWellFormed(seen)
    requires Not("w" + d) in seen && Not("p" + d) in seen
    ensures CheckAll(symbols, [], Lst(Aggregate(seen)), SafetyQuery(d)).Some?
    ensures CheckAll(symbols, [], Lst(Aggregate(seen)), SafetyQuery(d)).value.hits ==
            CheckAll(symbols, [], Lst(Aggregate(seen)), SafetyQuery(d)).value.total
  {
    var kb := Lst(Aggregate(seen));
    var q := SafetyQuery(d);
    PrefixedSymbol("w", d);
    PrefixedSymbol("p", d);
    AggregateWellFormed(seen);
    forall m | Meaning(kb, m)
      ensures Meaning(q, m)
    {
      AggregateIsConjunction(seen, m);
      IsTrueMeansMeaning(kb, m);
      IsTrueMeansMeaning(q, m);
      var i :| 0 <= i < |seen| && seen[i] == Not("w" + d);
      var j :| 0 <= j < |seen| && seen[j] == Not("p" + d);
      assert IsTrue(seen[i], m) == Some(true) && IsTrue(seen[j], m) == Some(true);
    }
    EntailedCountsAgree(symbols, [], kb, q);
  }

  // ---------------------------------------------------------------------------
  // Choosing a destination in action

  /** The two symbols of the safety query about `dir`. */
  function SafetySymbols(dir: string): seq<string>
  {
    ["w" + dir, "p" + dir]
  }

  /** The safety query mentions exactly its two symbols, and they differ. */
  lemma SafetySymbolsListQuery(dir: string)
    ensures Distinct(SafetySymbols(dir))
    ensures forall x :: x in SafetySymbols(dir) <==> x in SymsOfAll(Iterate(SafetyQuery(dir)))
  {
    PrefixedSymbol("w", dir);
    PrefixedSymbol("p", dir);
    assert ("w" + dir)[0] != ("p" + dir)[0];
    NegationSymbols("w" + dir);
    NegationSymbols("p" + dir);
    assert IsOperator(Str("and"));
    SymsOfThree(Not("w" + dir), Str("and"), Not("p" + dir));
  }

  /** A negated non-operator symbol mentions just that symbol. */
  lemma NegationSymbols(name: string)
    requires !IsOperator(Str(name))
    ensures Syms(Not(name)) == {name}
  {
    var items := [Str("not"), Str(name)];
    assert IsOperator(Str("not"));
    assert items[..1] == [Str("not")] && items[..1][..0] == [];
    assert SymsOfAll(items[..1]) == {};
    assert SymsOfAll(items) == SymsOfAll(items[..1]) + Syms(Str(name));
  }

  /** The score `ask(SafetyQuery(dir))` returns for a kb list and a symbol cache: the
      query's two symbols are enumerated after the cached ones. */
  function Score(kbList: seq<Val>, cached: seq<string>, dir: string): Option<real>
  {
    Entails(cached + SafetySymbols(dir), Lst(kbList), SafetyQuery(dir))
  }

  /** Whatever order `list(set)` gives the query's symbols in, `ask` returns `Score`. */
  lemma AskScoresSafety(kbList: seq<Val>, cached: seq<string>, dir: string)
    ensures Entails(cached + SetToSeq(SymsOfAll(Iterate(SafetyQuery(dir)))), Lst(kbList), SafetyQuery(dir))
         == Score(kbList, cached, dir)
  {
    var q := SafetyQuery(dir);
    SafetySymbolsListQuery(dir);
    ListingsAgree(cached, SafetySymbols(dir), SymsOfAll(Iterate(q)), Lst(kbList), q);
  }

  /** The scores of the safety queries about `dirs`, in order. */
  function Scores(kbList: seq<Val>, cached: seq<string>, dirs: seq<string>): (r: seq<Option<real>>)
    ensures |r| == |dirs|
  {
    seq(|dirs|, i requires 0 <= i < |dirs| => Score(kbList, cached, dirs[i]))
  }

  /** `possible_moves` for directions with the given scores: those whose score is
      truthy (non-zero), in order; `None` when some `ask` raised. */
  function SafeAmong(dirs: seq<string>, scores: seq<Option<real>>): Option<seq<string>>
    requires |scores| == |dirs|
  {
    if |dirs| == 0 then Some([])
    else
      var n := |dirs| - 1;
      match SafeAmong(dirs[..n], scores[..n])
      case None => None
      case Some(moves) =>
        match scores[n]
        case None => None
        case Some(v) => Some(if v != 0.0 then moves + [dirs[n]] else moves)
  }

  /** A direction is truthy-safe at some position of the list. */
  predicate SafeAt(dirs: seq<string>, scores: seq<Option<real>>, d: string)
    requires |scores| == |dirs|
  {
    exists i :: 0 <= i < |dirs| && dirs[i] == d && scores[i].Some? && scores[i].value != 0.0
  }

  /** The filter raises iff some query raises, and otherwise keeps exactly the
      directions with a non-zero score. */
  lemma {:induction false} SafeAmongSelects(dirs: seq<string>, scores: seq<Option<real>>)
    requires |scores| == |dirs|
    ensures SafeAmong(dirs, scores).None? <==> exists i :: 0 <= i < |dirs| && scores[i].None?
    ensures SafeAmong(dirs, scores).Some? ==>
              forall d :: d in SafeAmong(dirs, scores).value <==> SafeAt(dirs, scores, d)
  {
    if |dirs| > 0 {
      var n := |dirs| - 1;
      var front, frontScores := dirs[..n], scores[..n];
      SafeAmongSelects(front, frontScores);
      if exists i :: 0 <= i < n && frontScores[i].None? {
        var i :| 0 <= i < n && frontScores[i].None?;
        assert scores[i] == frontScores[i];
      }
      if exists i :: 0 <= i < |dirs| && scores[i].None? {
        var i :| 0 <= i < |dirs| && scores[i].None?;
        if i < n {
          assert frontScores[i] == scores[i];
        }
      }
      if SafeAmong(dirs, scores).Some? {
        forall d
          ensures d in SafeAmong(dirs, scores).value <==> SafeAt(dirs, scores, d)
        {
          if SafeAt(front, frontScores, d) {
            var i :| 0 <= i < n && front[i] == d && frontScores[i].Some? && frontScores[i].value != 0.0;
            assert dirs[i] == front[i] && scores[i] == frontScores[i];
          }
          if SafeAt(dirs, scores, d) {
            var i :| 0 <= i < |dirs| && dirs[i] == d && scores[i].Some? && scores[i].value != 0.0;
            if i < n {
              assert front[i] == dirs[i] && frontScores[i] == scores[i];
            }
          }
        }
      }
    }
  }

  /** Each chosen move is a listed direction with a truthy score. */
  lemma SafeMovesAreDirections(dirs: seq<string>, scores: seq<Option<real>>, j: nat)
    requires |scores| == |dirs|
    requires SafeAmong(dirs, scores).Some? && j < |SafeAmong(dirs, scores).value|
    ensures SafeAt(dirs, scores, SafeAmong(dirs, scores).value[j])
  {
    SafeAmongSelects(dirs, scores);
    assert SafeAmong(dirs, scores).value[j] in SafeAmong(dirs, scores).value;
  }

  /** How the planning step of `action` ends. */
  datatype PlanResult = NoDirections | AskRaised | NoSafeMove | Destination(cell: Cell)

  /** The planning step for position `pos`: no neighbour at all, some `ask` raised, no
      neighbour scored safe, or the safe move at position `choice` (modulo their
      number) read back as a cell. */
  ghost function Planning(kbList: seq<Val>, cached: seq<string>, pos: Cell, size: int, choice: nat): PlanResult
  {
    var dirs := Directions(pos, size);
    if |dirs| == 0 then NoDirections
    else
      var scores := Scores(kbList, cached, dirs);
      match SafeAmong(dirs, scores)
      case None => AskRaised
      case Some(moves) =>
        if |moves| == 0 then NoSafeMove
        else
          SafeMovesAreDirections(dirs, scores, choice % |moves|);
          Destination(CellOf(moves[choice % |moves|]))
  }

  /** In a world at most ten cells wide a planned destination is an in-bounds
      neighbour whose safety score was truthy. */
  lemma PlannedDestinationIsSafeNeighbour(kbList: seq<Val>, cached: seq<string>, pos: Cell, size: int, choice: nat)
    requires size <= 10
    requires Planning(kbList, cached, pos, size, choice).Destination?
    ensures var dest := Planning(kbList, cached, pos, size, choice).cell;
            InBounds(dest, size) && Distance(pos, dest) == 1 &&
            Score(kbList, cached, Name(dest)).Some? && Score(kbList, cached, Name(dest)).value != 0.0
  {
    var dirs := Directions(pos, size);
    var scores := Scores(kbList, cached, dirs);
    var moves := SafeAmong(dirs, scores).value;
    var move := moves[choice % |moves|];
    SafeMovesAreDirections(dirs, scores, choice % |moves|);
    var i :| 0 <= i < |dirs| && dirs[i] == move && scores[i].Some? && scores[i].value != 0.0;
    DirectionsNameNeighbours(pos, size, i);
    var dest := NeighbourCells(pos, size)[i];
    NeighbourCellsAreAdjacent(pos, size, dest);
    NameRoundTrip(dest);
    assert Name(dest) == move;
  }

  /** In a kb of well-formed clauses that has been told something, no query raises. */
  lemma WellFormedKbPlans(seen: seq<Val>, cached: seq<string>, pos: Cell, size: int, choice: nat)
    requires seen != [] && AllWellFormed(seen)
    ensures Planning(Aggregate(seen), cached, pos, size, choice) != AskRaised
  {
    var dirs := Directions(pos, size);
    forall i | 0 <= i < |dirs|
      ensures Score(Aggregate(seen), cached, dirs[i]).Some?
    {
      var q := SafetyQuery(dirs[i]);
      SafetyQueryWellFormed(dirs[i]);
      WellFormedAskSucceeds(seen, cached + SafetySymbols(dirs[i]), q);
    }
    SafeAmongSelects(dirs, Scores(Aggregate(seen), cached, dirs));
  }

  // ---------------------------------------------------------------------------
  // The agent

  /** What `action` returns: an action word, nothing (Python `None`), or an exception
      raised by `ask`. */
  datatype Reply = Act(word: string) | NoAction | Raised

  class WWAgent {
    /** `self.max`: the side of the square world. */
    const max: int
    /** `self.map`: the last percept sensed in each cell, indexed `[x, y]`. */
    const worldMap: array2<Percept>
    /** `self.kb`. */
    const kb: KnowledgeBase
    var stopTheAgent: bool
    var position: Cell
    var facing: Facing
    var arrow: int
    var percepts: Percept
    var plannedDestination: Option<Cell>

    /** The agent stays inside the world, the map covers the world, the kb is
        consistent, and in a world at least two wide the kb holds only well-formed clauses. */
    ghost predicate Valid()
      reads this, kb`kb, kb`seenClauses, kb`cachedSymbols
    {
      max >= 1 &&
      worldMap.Length0 == max && worldMap.Length1 == max &&
      InBounds(position, max) &&
      kb.Valid() &&
      (max >= 2 ==> AllWellFormed(kb.seenClauses))
    }

    constructor ()
      ensures Valid()
      ensures max == 4 && !stopTheAgent && position == (0, 3) && facing == Right && arrow == 1
      ensures percepts == NoPercept && plannedDestination == None
      ensures fresh(worldMap) && fresh(kb)
      ensures forall i, j :: 0 <= i < 4 && 0 <= j < 4 ==> worldMap[i, j] == NoPercept
      ensures kb.seenClauses == [] && kb.kb == []
    {
      max := 4;
      stopTheAgent := false;
      position := (0, 3);
      facing := Right;
      arrow := 1;
      percepts := NoPercept;
      worldMap := new Percept[4, 4]((i, j) => NoPercept);
      kb := new KnowledgeBase();
      plannedDestination := None;
    }

    /** `get_directions`: the names of the in-bounds neighbours, in candidate order. */
    method GetDirections() returns (surroundings: seq<string>)
      ensures surroundings == Directions(position, max)
    {
      var dirs := Offsets;
      surroundings := [];
      for k := 0 to 4
        invariant surroundings == DirectionsUpTo(position, max, k)
      {
        var newX := position.0 + dirs[k];
        var newY := position.1 + dirs[k + 1];
        DirectionsUpToStep(position, max, k);
        if newX >= 0 && newX < max && newY >= 0 && newY < max {
          surroundings := surroundings + [NatToString(newX) + NatToString(newY)];
        }
      }
    }

    /** `calculateNextPosition`: one clamped step along the current heading. */
    method CalculateNextPosition() returns (p: Cell)
      requires Valid()
      modifies this`position
      ensures Valid()
      ensures position == NextPosition(old(position), facing, max) && p == position
    {
      NextPositionSteps(position, facing, max);
      match facing {
        case Up => position := (position.0, if 0 > position.1 - 1 then 0 else position.1 - 1);
        case Down => position := (position.0, if max - 1 < position.1 + 1 then max - 1 else position.1 + 1);
        case Right => position := (if max - 1 < position.0 + 1 then max - 1 else position.0 + 1, position.1);
        case Left => position := (if 0 > position.0 - 1 then 0 else position.0 - 1, position.1);
      }
      p := position;
    }

    /** `calculateNextDirection`: turn left on `"left"`, right on anything else. */
    method CalculateNextDirection(action: string)
      modifies this`facing
      ensures facing == NextFacing(old(facing), action)
    {
      match facing
      case Up => facing := if action == "left" then Left else Right;
      case Down => facing := if action == "left" then Right else Left;
      case Right => facing := if action == "left" then Up else Down;
      case Left => facing := if action == "left" then Down else Up;
    }

    /** Tell `["not", prefix + d]` for every direction `d`, as the no-stench and
        no-breeze branches do. */
    method TellNots(prefix: string, dirs: seq<string>)
      requires Valid()
      requires prefix == "w" || prefix == "p"
      modifies kb
      ensures Valid()
      ensures kb.seenClauses == ToldAll(old(kb.seenClauses), Nots(prefix, dirs))
      ensures kb.progressBar == old(kb.progressBar)
    {
      ghost var seen0 := kb.seenClauses;
      for i := 0 to |dirs|
        invariant Valid()
        invariant kb.seenClauses == ToldAll(seen0, Nots(prefix, dirs[..i]))
        invariant kb.progressBar == old(kb.progressBar)
      {
        ghost var before := kb.seenClauses;
        PrefixedSymbol(prefix, dirs[i]);
        TellClause(Not(prefix + dirs[i]));
        assert [Not(prefix + dirs[i])][..0] == [];
        ghost var ns := Nots(prefix, dirs[..i + 1]);
        assert ns[..i] == Nots(prefix, dirs[..i]) && ns[i] == Not(prefix + dirs[i]);
      }
      assert dirs[..|dirs|] == dirs;
    }

    /** Tell one clause, keeping the agent consistent. */
    method TellClause(clause: Val)
      requires Valid()
      requires max >= 2 ==> WellFormed(clause)
      modifies kb
      ensures Valid()
      ensures kb.seenClauses == ToldAll(old(kb.seenClauses), [clause])
      ensures kb.progressBar == old(kb.progressBar)
    {
      ghost var before := kb.seenClauses;
      kb.Tell(clause);
      assert [clause][..0] == [];
      if max >= 2 {
        ToldAllWellFormed(before, [clause]);
      }
    }

    /** The part of `update` that tells the kb about one kind of hazard: the clause for a
        sensed stench (breeze), or "none here" for each neighbour otherwise. */
    method TellHazard(sensed: bool, prefix: string)
      requires Valid()
      requires prefix == "w" || prefix == "p"
      modifies kb
      ensures Valid()
      ensures kb.seenClauses == ToldAll(old(kb.seenClauses), HazardClauses(sensed, prefix, Directions(position, max)))
      ensures kb.progressBar == old(kb.progressBar)
    {
      if sensed {
        var dirs := GetDirections();
        var clause := BuildDisjunction(prefix, dirs);
        if max >= 2 {
          AtLeastTwoNeighbours(position, max);
          DisjunctionMeansSomeNeighbour(prefix, dirs, []);
        }
        TellClause(clause);
      } else {
        var dirs := GetDirections();
        TellNots(prefix, dirs);
      }
    }

    /** `update`: remember the percept, write it into the map at the current cell,
        and tell the kb the clauses `UpdateClauses` lists. */
    method Update(percept: Percept)
      requires Valid()
      modifies this`percepts, worldMap, kb
      ensures Valid()
      ensures percepts == percept
      ensures forall i, j :: 0 <= i < max && 0 <= j < max ==>
                worldMap[i, j] == if (i, j) == position then percept else old(worldMap[i, j])
      ensures kb.seenClauses == ToldAll(old(kb.seenClauses), UpdateClauses(percept, position, max))
      ensures kb.progressBar == old(kb.progressBar)
    {
      percepts := percept;
      if 0 <= position.0 < max && 0 <= position.1 < max {
        worldMap[position.0, position.1] := percepts;
      }
      assert forall i, j :: 0 <= i < max && 0 <= j < max ==>
        worldMap[i, j] == if (i, j) == position then percept else old(worldMap[i, j]);
      label written:
      TellPercept(percept);
      assert unchanged@written(worldMap);
    }

    /** The telling part of `update`: the stench branch, the breeze branch, and the
        two "not dead" clauses for the current cell. */
    method TellPercept(percept: Percept)
      requires Valid()
      modifies kb
      ensures Valid()
      ensures kb.seenClauses == ToldAll(old(kb.seenClauses), UpdateClauses(percept, position, max))
      ensures kb.progressBar == old(kb.progressBar)
    {
      ghost var seen0 := kb.seenClauses;
      ghost var dirs := Directions(position, max);
      ghost var ws := HazardClauses(Some("stench") in percept, "w", dirs);
      ghost var ps := HazardClauses(Some("breeze") in percept, "p", dirs);
      ghost var here := [Not("w" + Name(position)), Not("p" + Name(position))];
      TellHazard(Some("stench") in percept, "w");
      TellHazard(Some("breeze") in percept, "p");
      PrefixedSymbol("w", Name(position));
      PrefixedSymbol("p", Name(position));
      TellClause(Not("w" + Name(position)));
      TellClause(Not("p" + Name(position)));
      ToldInSequence(seen0, ws, ps, here);
    }

    /** The planning step of `action`: list the neighbours, ask the kb whether each is
        free of wumpus and pit, and pick one of the truthy ones with `choice`. */
    method ChooseDestination(choice: nat) returns (plan: PlanResult)
      requires Valid()
      modifies kb`progressBar
      ensures Valid()
      ensures plan == Planning(kb.kb, kb.cachedSymbols, position, max, choice)
    {
      var possibleDirs := GetDirections();
      if |possibleDirs| == 0 {
        return NoDirections;
      }
      var dirs := GetDirections();
      var safe := SafeMoves(dirs);
      if safe.None? {
        return AskRaised;
      }
      var possibleMoves := safe.value;
      if |possibleMoves| == 0 {
        return NoSafeMove;
      }
      var move := possibleMoves[choice % |possibleMoves|];
      SafeMovesAreDirections(dirs, Scores(kb.kb, kb.cachedSymbols, dirs), choice % |possibleMoves|);
      plan := Destination((DigitValue(move[0]), DigitValue(move[1])));
    }

    /** `self.kb.ask(...)` on the safety query of one direction. */
    method AskSafety(dir: string) returns (score: Option<real>)
      requires kb.Valid()
      modifies kb`progressBar
      ensures kb.Valid()
      ensures score == Score(kb.kb, kb.cachedSymbols, dir)
    {
      score := kb.Ask(SafetyQuery(dir));
      AskScoresSafety(kb.kb, kb.cachedSymbols, dir);
    }

    /** The loop of the planning step: ask the safety query of each direction in turn,
        keep the truthy ones, and stop with `None` at the first `ask` that raises. */
    method SafeMoves(dirs: seq<string>) returns (safe: Option<seq<string>>)
      requires kb.Valid()
      modifies kb`progressBar
      ensures safe == SafeAmong(dirs, Scores(kb.kb, kb.cachedSymbols, dirs))
    {
      ghost var scores := Scores(kb.kb, kb.cachedSymbols, dirs);
      var possibleMoves: seq<string> := [];
      for i := 0 to |dirs|
        invariant kb.Valid()
        invariant SafeAmong(dirs[..i], scores[..i]) == Some(possibleMoves)
      {
        var score := AskSafety(dirs[i]);
        assert score == scores[i];
        if score.None? {
          SafeAmongStep(dirs, scores, i);
          SafeAmongRaisesOnPrefix(dirs, scores, i + 1);
          assert dirs[..|dirs|] == dirs && scores[..|dirs|] == scores;
          return None;
        }
        SafeAmongStep(dirs, scores, i);
        if score.value != 0.0 {
          possibleMoves := possibleMoves + [dirs[i]];
        }
      }
      assert dirs[..|dirs|] == dirs && scores[..|dirs|] == scores;
      safe := Some(possibleMoves);
    }

    /** The steering step of `action`: move when facing the destination's heading,
        otherwise turn left. */
    method MoveTowards(dest: Cell) returns (reply: Reply)
      requires Valid()
      modifies this`position, this`facing
      ensures Valid()
      ensures Pose(position, facing) == Steer(Pose(old(position), old(facing)), dest, max)
      ensures reply == if GoalFacing(old(position), dest) == old(facing) then Act("move") else Act("left")
    {
      var goalFace: Facing;
      if dest.0 == position.0 {
        if dest.1 < position.1 {
          goalFace := Up;
        } else {
          goalFace := Down;
        }
      } else {
        if dest.0 > position.0 {
          goalFace := Right;
        } else {
          goalFace := Left;
        }
      }
      if goalFace == facing {
        reply := Act("move");
        var _ := CalculateNextPosition();
      } else {
        reply := Act("left");
        CalculateNextDirection("left");
      }
    }

    /** `action`: exit once the gold is grabbed, grab on glitter, re-plan when there is
        no destination or it has been reached, then steer towards the destination. */
    method Action(choice: nat) returns (reply: Reply)
      requires Valid()
      modifies this`stopTheAgent, this`plannedDestination, this`position, this`facing, kb`progressBar
      ensures Valid()
      ensures old(stopTheAgent) ==>
        reply == Act("exit") && stopTheAgent && plannedDestination == old(plannedDestination) &&
        position == old(position) && facing == old(facing)
      ensures !old(stopTheAgent) && Some("glitter") in percepts ==>
        reply == Act("grab") && stopTheAgent && plannedDestination == old(plannedDestination) &&
        position == old(position) && facing == old(facing)
      ensures !old(stopTheAgent) && Some("glitter") !in percepts ==> !stopTheAgent
      ensures !old(stopTheAgent) && Some("glitter") !in percepts &&
              (old(plannedDestination).None? || old(plannedDestination) == Some(old(position))) ==>
        var plan := Planning(kb.kb, kb.cachedSymbols, old(position), max, choice);
        (plan == NoDirections || plan == NoSafeMove ==>
           reply == NoAction && plannedDestination == old(plannedDestination) &&
           position == old(position) && facing == old(facing)) &&
        (plan == AskRaised ==>
           reply == Raised && plannedDestination == old(plannedDestination) &&
           position == old(position) && facing == old(facing)) &&
        (plan.Destination? ==>
           plannedDestination == Some(plan.cell) &&
           Pose(position, facing) == Steer(Pose(old(position), old(facing)), plan.cell, max) &&
           reply == if GoalFacing(old(position), plan.cell) == old(facing) then Act("move") else Act("left"))
      ensures !old(stopTheAgent) && Some("glitter") !in percepts &&
              old(plannedDestination).Some? && old(plannedDestination) != Some(old(position)) ==>
        plannedDestination == old(plannedDestination) &&
        Pose(position, facing) == Steer(Pose(old(position), old(facing)), old(plannedDestination).value, max) &&
        reply == if GoalFacing(old(position), old(plannedDestination).value) == old(facing) then Act("move") else Act("left")
    {
      if stopTheAgent {
        return Act("exit");
      }
      if Some("glitter") in percepts {
        stopTheAgent := true;
        return Act("grab");
      }
      if plannedDestination.None? || plannedDestination == Some(position) {
        var plan := ChooseDestination(choice);
        match plan
        case NoDirections => return NoAction;
        case NoSafeMove => return NoAction;
        case AskRaised => return Raised;
        case Destination(cell) => plannedDestination := Some(cell);
      }
      reply := MoveTowards(plannedDestination.value);
    }
  }

  /** One round of the filter loop: the next score decides whether the next direction
      is kept, or makes the filter raise. */
  lemma SafeAmongStep(dirs: seq<string>, scores: seq<Option<real>>, i: nat)
    requires |scores| == |dirs| && i < |dirs|
    requires SafeAmong(dirs[..i], scores[..i]).Some?
    ensures scores[i].None? ==> SafeAmong(dirs[..i + 1], scores[..i + 1]).None?
    ensures scores[i].Some? ==>
      SafeAmong(dirs[..i + 1], scores[..i + 1]) ==
      Some(if scores[i].value != 0.0 then SafeAmong(dirs[..i], scores[..i]).value + [dirs[i]]
           else SafeAmong(dirs[..i], scores[..i]).value)
  {
    assert dirs[..i + 1][..i] == dirs[..i] && scores[..i + 1][..i] == scores[..i];
  }

  /** Once `SafeAmong` raises on a prefix it raises on the whole list. */
  lemma {:induction false} SafeAmongRaisesOnPrefix(dirs: seq<string>, scores: seq<Option<real>>, k: nat)
    requires |scores| == |dirs| && k <= |dirs|
    requires SafeAmong(dirs[..k], scores[..k]).None?
    ensures SafeAmong(dirs, scores).None?
    decreases |dirs| - k
  {
    if k < |dirs| {
      assert dirs[..k + 1][..k] == dirs[..k] && scores[..k + 1][..k] == scores[..k];
      SafeAmongRaisesOnPrefix(dirs, scores, k + 1);
    } else {
      assert dirs[..k] == dirs && scores[..k] == scores;
    }
  }

  /** After `update` at a cell the kb holds "no wumpus" and "no pit" there. */
  lemma UpdateRecordsCurrentCell(seen: seq<Val>, percept: Percept, pos: Cell, size: int)
    requires Distinct(seen) && pos.0 >= 0 && pos.1 >= 0
    ensures Not("w" + Name(pos)) in ToldAll(seen, UpdateClauses(percept, pos, size))
    ensures Not("p" + Name(pos)) in ToldAll(seen, UpdateClauses(percept, pos, size))
    ensures seen <= ToldAll(seen, UpdateClauses(percept, pos, size))
  {
    var cs := UpdateClauses(percept, pos, size);
    ToldAllRecords(seen, cs);
    assert cs[|cs| - 2] == Not("w" + Name(pos));
    assert cs[|cs| - 1] == Not("p" + Name(pos));
  }
}

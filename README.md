# Wumpus agent: knowledge base and grid bookkeeping

This project models two parts of a Wumpus World agent and proves their properties.

The first part is the propositional knowledge base (`KnowledgeBase` in knowledge_base.py):
- Formulas are raw nested lists of strings.
- `tell` records each clause once and nests it into a single aggregate conjunction.
- `ask` enumerates every truth assignment of the cached kb symbols followed by the query's symbols.
- `ask` returns the share of kb-models in which the query also holds, or 0 when the kb has no model.
- A `progress_bar` counter counts the non-leaf enumeration calls.

The second part is the agent's own bookkeeping (`WWAgent` in wwagent.py):
- its in-bounds neighbour listing, with each cell named `"xy"`;
- its clamped one-cell move and its four-way turning machine;
- the `update` step, which writes the percept into the map and tells the kb what the percept implies;
- the `action` step: exit, grab, re-plan through safety queries to the kb, then steer towards the planned cell.

Modules:
- `Wrappers` holds `Option`.
- `Logic` holds values, `is_true`, the symbols of a formula, and a reference semantics for well-formed formulas.
- `Enumeration` holds `tt_check_all` as functions: counts, progress steps, leaves, and order independence.
- `KnowledgeBases` holds the `KnowledgeBase` class and the facts about `tell` and `ask`.
- `Grid` holds neighbours, cell names, movement, turning and steering.
- `Agents` holds the update clauses, the planning step and the `WWAgent` class.

Python exceptions are modelled as values:
- `None` from `IsTrue`, `CheckAll`, `Entails` and `Ask` means Python raises `IndexError`.
- `Raised` from `Action` means the same.

The random pick `randint(0, len(possible_moves) - 1)` becomes a parameter `choice`. The move taken is `possible_moves[choice % len(possible_moves)]`.

The model keeps the code's behaviour in these places:
- An atom without a binding is false. It is not an error.
- An unrecognised shape is false. It is not an error.
- A one-element list is unwrapped.
- The symbol list of `tt_entails` is the cached symbols concatenated with the query's. It is not a union, so a shared symbol is enumerated twice.

## Model

| member | source | states |
|---|---|---|
| Logic.IsTrue | knowledge_base.py:77-95 | Evaluating the empty list raises (the `prop[0]` access). |
| Logic.IsOperator | knowledge_base.py:112-114 | `is_operator`: the item is one of the five connective tokens, and a list never is. SymsAreReachableNonOperators states how it filters the symbols. |
| Logic.Syms | knowledge_base.py:104-110 | `extract_symbols` on one clause: the strings it adds to the set. SymsAreReachableNonOperators states which strings these are. |
| Logic.SymsOfAll | knowledge_base.py:104-110 | The `for part in clause` loop over a list of parts. SymsOfAllReachable states which strings it collects. |
| Logic.EvaluationExamples | knowledge_base.py:79-95 | Worked cases. `not x` with x true is false. `x implies y` with both false is true. `x iff y` with x true and y false is false. An atom is true through any one of its bindings and false when unbound. An unknown connective is false. `[x, "and"]` raises. |
| Logic.IsTrueMeansMeaning | knowledge_base.py:77-95 | On a well-formed formula, `is_true` never raises and equals the textbook meaning of not / and / or / implies / iff. |
| Logic.BindingInTrueSymbols | knowledge_base.py:79-80 | `(s, True)` is in the model iff `s` is among the symbols bound to true. |
| Logic.TrueSymbolsExtend | knowledge_base.py:73-74 | Extending a model by `(p, b)` adds `p` to the true symbols exactly when `b` is true. |
| Logic.TruthDependsOnlyOnTrueSymbols | knowledge_base.py:77-95 | `is_true` depends only on which symbols have some `True` binding. Duplicates and `False` bindings are irrelevant. |
| Logic.SymsAreReachableNonOperators | knowledge_base.py:104-114 | `extract_symbols` collects exactly the strings reachable in the nested lists that are not operator tokens. |
| Logic.SymsOfAllReachable | knowledge_base.py:97-110 | The same fact for the `for` loop over a list of parts. |
| Enumeration.Leaf | knowledge_base.py:57-66 | The leaf case: (1, 1), (0, 1) or (0, 0). Alpha is evaluated only when kb holds, and a raising `is_true` raises. TallyCountsModels states what the leaf cases add up to. |
| Enumeration.CheckAll | knowledge_base.py:54-75 | `tt_check_all`: the true branch before the false one, counts added, stopping at the first exception. CountsBound, CheckAllCountsModels and CountsIgnoreSymbolOrder state its properties. |
| Enumeration.Steps | knowledge_base.py:56-75 | The `progress_bar += 1` at line 71, once per non-leaf call reached, none after an exception. StepsBound states how far it rises. |
| Enumeration.CountsBound | knowledge_base.py:54-75 | Over k symbols the result `(t, n)` satisfies 0 <= t <= n <= 2^k. |
| Enumeration.Add | knowledge_base.py:75 | `true1 + true2, total1 + total2`, raising when either branch raised. CountsBound states the bound the sums keep. |
| Enumeration.StepsBound | knowledge_base.py:67-75 | The progress counter rises by at most 2^k - 1, and by exactly 2^k - 1 when the enumeration completes. |
| Enumeration.CheckAllDependsOnlyOnTrueSymbols | knowledge_base.py:54-80 | Two starting models with the same true symbols give the same counts. |
| Enumeration.SwapFront | knowledge_base.py:68-75 | Exchanging the first two symbols does not change the counts. |
| Enumeration.MoveToFront | knowledge_base.py:68-75 | Enumerating any listed symbol first, and the rest in their order, gives the same counts. |
| Enumeration.CountsIgnoreSymbolOrder | knowledge_base.py:45-49 | Any reordering of the symbol list gives the same `(t, n)`, duplicates included. So the order of `list(set)` cannot matter. |
| Enumeration.Leaves | knowledge_base.py:54-75 | The enumeration visits 2^k leaf models. |
| Enumeration.LeafIndexOfAssignment | knowledge_base.py:73-74 | Leaf positions and assignments correspond one to one (position → assignment → position). |
| Enumeration.AssignmentOfLeafIndex | knowledge_base.py:73-74 | The other direction of that correspondence (assignment → position → assignment). |
| Enumeration.LeafIsAssignment | knowledge_base.py:54-75 | Leaf i is the starting model followed by the i-th assignment of the symbols. |
| Enumeration.EveryAssignmentIsVisited | knowledge_base.py:54-75 | Every assignment of the symbols is some leaf. |
| Enumeration.CheckAllTalliesLeaves | knowledge_base.py:57-75 | The recursive sum equals the left-to-right sum of the leaf cases over the visited leaves. |
| Enumeration.TallyCountsModels | knowledge_base.py:57-66 | When no leaf raises, the sum is (leaves where kb and alpha hold, leaves where kb holds). |
| Enumeration.CheckAllCountsModels | knowledge_base.py:54-75 | For well-formed kb and alpha, `tt_check_all` returns exactly that pair of leaf counts. |
| Enumeration.AllKbModelsSatisfyAlpha | knowledge_base.py:57-66 | t <= n, and t == n iff alpha holds at every leaf where kb holds. |
| Enumeration.NoKbModelSatisfiesAlpha | knowledge_base.py:57-66 | t == 0 iff alpha holds at no leaf where kb holds. |
| Enumeration.EmptyKbRaises | knowledge_base.py:58 | With the empty kb list the first leaf raises, so the whole enumeration does. |
| Enumeration.UnsatisfiableKbCountsNothing | knowledge_base.py:64-66 | A kb false in every model gives (0, 0). |
| Enumeration.EntailedCountsAgree | knowledge_base.py:57-66 | If alpha classically follows from kb, the enumeration succeeds with t == n. |
| Enumeration.RefutedCountsNoHits | knowledge_base.py:57-66 | If alpha fails in every kb-model, the enumeration succeeds with t == 0. |
| Enumeration.Ratio | knowledge_base.py:50-52 | The score `true_counts / total_counts`, and 0 when nothing was counted. RatioProperties states its range and when it is 0 or 1. |
| Enumeration.RatioProperties | knowledge_base.py:50-52 | `t / n` is 0 when n == 0 and lies in [0, 1]. It is 1 iff t == n, and 0 iff t == 0. |
| KnowledgeBases.Aggregate | knowledge_base.py:29-32 | The aggregate is empty iff nothing was told. |
| KnowledgeBases.AggregateSymbols | knowledge_base.py:33 | The aggregate mentions exactly the symbols of the clauses told. |
| KnowledgeBases.AggregateIsConjunction | knowledge_base.py:29-32 | For well-formed clauses, `is_true(kb)` is the conjunction of `is_true(c)` over all seen clauses. |
| KnowledgeBases.AggregateWellFormed | knowledge_base.py:29-32 | The aggregate of well-formed clauses is well-formed. |
| KnowledgeBases.Told | knowledge_base.py:23-28 | The seen-clause list after one `tell`: unchanged for a clause seen before, appended otherwise. ToldAllRecords states what it keeps. |
| KnowledgeBases.ToldAll | knowledge_base.py:23-28 | The seen-clause list after a sequence of `tell`s. ToldAllRecords and ToldAllConcat state its properties. |
| KnowledgeBases.ToldAllRecords | knowledge_base.py:23-28 | A sequence of `tell`s keeps the seen clauses duplicate-free and keeps the old ones as a prefix. The result holds exactly the old and the told clauses. |
| KnowledgeBases.ToldAllConcat | knowledge_base.py:23-28 | Telling two batches in turn is telling their concatenation. |
| KnowledgeBases.BareStringSplits | knowledge_base.py:97-101 | `get_symbols` on a bare string yields its one-character strings. |
| KnowledgeBases.Iterate | knowledge_base.py:99-100 | The elements `for clause in clauses` visits: a list's items, or a bare string's one-character strings. BareStringSplits states the string case. |
| KnowledgeBases.SetToSeq | knowledge_base.py:102 | `list(set)` is some duplicate-free listing of exactly the set. |
| KnowledgeBases.ListingLength | knowledge_base.py:102 | Every duplicate-free listing of a set is as long as the set. |
| KnowledgeBases.ListingExists | knowledge_base.py:102 | Every finite set has a duplicate-free listing, so `list(set)` always has a value to give. |
| KnowledgeBases.ListingsAgree | knowledge_base.py:45 | Whichever listing `list(set)` gives, the counts of `cached + listing` are the same. |
| KnowledgeBases.StepsOfListing | knowledge_base.py:45-49 | The enumeration of `cached + listing` performs at most 2^(len(cached) + n) - 1 steps, and exactly that many when it completes. |
| KnowledgeBases.Entails | knowledge_base.py:43-52 | The score is in [0, 1] whenever evaluation does not raise. |
| KnowledgeBases.EntailedScoresOne | knowledge_base.py:43-52 | Classical entailment by a kb with at least one model scores 1. |
| KnowledgeBases.UnsatisfiableScoresZero | knowledge_base.py:50-51 | An unsatisfiable kb scores 0 for any query. |
| KnowledgeBases.RefutedScoresZero | knowledge_base.py:43-52 | A query false in every kb-model scores 0. |
| KnowledgeBases.AskOutcome | knowledge_base.py:35-52 | Asking an empty kb raises. A non-empty kb of well-formed clauses never raises on a well-formed query. |
| KnowledgeBases.WellFormedAskSucceeds | knowledge_base.py:43-52 | A non-empty well-formed kb and query never raise. |
| KnowledgeBases.EmptyKbCannotBeAsked | knowledge_base.py:35-39 | `ask` before any `tell` raises. |
| KnowledgeBases.SessionKbHolds | knowledge_base.py:149-155 | The example session's kb holds where w41 is true and w21, w32 are false. |
| KnowledgeBases.SessionMentionsW41 | knowledge_base.py:149-155 | `w41` is one of the example session kb's symbols. |
| KnowledgeBases.SessionScoresOne | knowledge_base.py:145-158 | The example session scores "not w32" as 1, for every symbol listing containing w41. |
| KnowledgeBases.ExampleSession | knowledge_base.py:145-158 | Telling ¬w21, w21∨(w32∨w41) and ¬w32 to a fresh kb, then asking ¬w32, returns 1. |
| KnowledgeBases.KnowledgeBase.constructor | knowledge_base.py:10-20 | A fresh kb is empty, with no seen clauses, no cached symbols and progress 0. |
| KnowledgeBases.KnowledgeBase.Tell | knowledge_base.py:23-33 | A clause already seen (by value) changes nothing. A new clause is appended to the seen clauses and nested as `[clause]` or `[clause, "and", old_kb]`. The cache then holds every non-operator string reachable in the kb, once each, and the counter is untouched. |
| KnowledgeBases.KnowledgeBase.GetSymbols | knowledge_base.py:97-102 | The result is duplicate-free and holds exactly the symbols of the elements iterated. |
| KnowledgeBases.KnowledgeBase.ExtractSymbols | knowledge_base.py:104-110 | The accumulator gains exactly the clause's symbols. |
| KnowledgeBases.KnowledgeBase.TtCheckAll | knowledge_base.py:54-75 | Returns the recursive counts, and raises the counter by one per non-leaf call reached. |
| KnowledgeBases.KnowledgeBase.TtEntails | knowledge_base.py:43-52 | Returns the score over `cached + list(set(alpha symbols))`, or 0 when no model satisfies the kb. The counter rises by exactly 2^(number of cached and query symbols) - 1 when no evaluation raises. |
| KnowledgeBases.KnowledgeBase.Ask | knowledge_base.py:35-41 | Resets the counter and returns a score in [0, 1]. It raises on an empty kb and never raises for well-formed clauses and query. The counter ends at 2^(number of symbols enumerated) - 1 when no evaluation raises, and at most that many otherwise. |
| Grid.CandidatesUpTo | wwagent.py:195-199 | Every listed candidate is in bounds. |
| Grid.Candidate | wwagent.py:193-197 | Candidate k is the position offset by `dirs[k]`, `dirs[k + 1]` of the offset list `Offsets` = [0, 1, 0, -1, 0]. NeighbourCellsAreAdjacent states that the in-bounds candidates are exactly the cells at distance 1. |
| Grid.NeighbourCells | wwagent.py:192-200 | Every listed neighbour is in bounds. |
| Grid.NatToString | wwagent.py:199 | The decimal rendering of a coordinate is a non-empty string of digits. |
| Grid.Name | wwagent.py:199 | The name `f"{new_x}{new_y}"`: the two coordinates' decimal spellings, one after the other. NameRoundTrip states that it decodes back to the cell. |
| Grid.CellOf | wwagent.py:166 | `(int(move[0]), int(move[1]))`: one digit read per coordinate. NameRoundTrip states that it inverts `Name` for coordinates below 10. |
| Grid.Directions | wwagent.py:192-200 | Every cell name has at least two characters. |
| Grid.NeighbourCellsAreAdjacent | wwagent.py:192-200 | A cell is listed iff it is in bounds and at Manhattan distance 1. |
| Grid.NeighbourCellsDistinct | wwagent.py:192-200 | At most four neighbours, no one listed twice. |
| Grid.AtLeastTwoNeighbours | wwagent.py:192-200 | In a world at least two wide, every cell has at least two neighbours. |
| Grid.NameRoundTrip | wwagent.py:166 | For coordinates below 10, `(int(move[0]), int(move[1]))` of the name `"xy"` gives back the cell. |
| Grid.DirectionsNameNeighbours | wwagent.py:166 | In a world at most ten wide, decoding the i-th direction gives the i-th neighbour. |
| Grid.NextPosition | wwagent.py:94-103 | The clamped one-cell move in the facing direction. NextPositionSteps states where it lands. |
| Grid.NextPositionSteps | wwagent.py:94-103 | The move is one step in the facing direction, with up meaning y - 1, or no move at a wall. The agent stays in bounds. |
| Grid.NextFacing | wwagent.py:109-129 | The turning machine of `calculateNextDirection`. TurnsRotateKey, TurnsCancel and LeftTurnsReach state its properties. |
| Grid.TurnsRotateKey | wwagent.py:109-129 | "left" turns counter-clockwise in the key up, right, down, left. Any other action turns clockwise. |
| Grid.TurnsCancel | wwagent.py:109-129 | A left turn followed by a right turn, or four left turns, restore the facing. |
| Grid.LeftTurnsReach | wwagent.py:109-129 | Any facing is reached from any other by at most three left turns. |
| Grid.GoalFacing | wwagent.py:170-180 | The heading `action` wants: vertical when x agrees, else horizontal. GoalFacingPointsAtNeighbour states that it points at an adjacent destination. |
| Grid.GoalFacingPointsAtNeighbour | wwagent.py:170-180 | For an adjacent destination, one step along the goal facing lands on it. |
| Grid.Steer | wwagent.py:169-187 | One steering step: "move" when facing the goal heading, else a left turn. SteeringArrives states that repeated steering reaches an adjacent destination. |
| Grid.SteeringArrives | wwagent.py:169-187 | Steering at an adjacent destination turns left at most three times without moving, then one move lands on it. |
| Agents.SafetyQueryWellFormed | wwagent.py:155 | The safety query `[["not", wd], "and", ["not", pd]]` is well-formed. |
| Agents.SafetyQuery | wwagent.py:155 | The query `[["not", f"w{dir}"], "and", ["not", f"p{dir}"]]`. SafetyQueryWellFormed and SafetySymbolsListQuery state its shape and symbols, and AskScoresSafety what `ask` returns for it. |
| Agents.BuildAsWritten | wwagent.py:55-60 | The clause loop as written, on a heap of list cells where `clause` is appended to itself. AsWrittenCycle and AsWrittenClauseIsCyclic state its shape. |
| Agents.AsWrittenCycle | wwagent.py:55-60 | As written, from the second direction on, `clause[1][2][0]` is `clause` itself. |
| Agents.NoFiniteCycle | wwagent.py:60 | No finite value is a list that contains itself this way. |
| Agents.AsWrittenClauseIsCyclic | wwagent.py:51-61 | In a world at least two wide, the stench (and breeze) clause as written is no finite formula. |
| Agents.AsWrittenAgreesWhenAcyclic | wwagent.py:55-60 | With at most one direction, the list as written is exactly the intended clause. |
| Agents.Disjunction | wwagent.py:55-60 | The intended clause, with the wrapping reassigned rather than appended. DisjunctionMeansSomeNeighbour states what it means. |
| Agents.DisjunctionMeansSomeNeighbour | wwagent.py:55-60 | The intended clause is well-formed and holds iff some neighbour carries the symbol. |
| Agents.BuildDisjunction | wwagent.py:55-60 | The clause-building loop (with the wrapping reassigned, not appended) yields that clause. |
| Agents.Nots | wwagent.py:66-67 | One `["not", prefix + d]` per direction. |
| Agents.HazardClauses | wwagent.py:51-84 | One hazard's clauses: the sensed clause, or one "none here" clause per neighbour. HazardClausesWellFormed states that they are well-formed. |
| Agents.HazardClausesWellFormed | wwagent.py:51-84 | With a neighbour, one hazard's clauses are well-formed whether or not it was sensed. |
| Agents.UpdateClauses | wwagent.py:51-88 | The clause list `update` tells, in order. UpdateClausesWellFormed and UpdateRecordsCurrentCell state its properties. |
| Agents.UpdateClausesWellFormed | wwagent.py:51-88 | Once there is a neighbour, every clause `update` tells is well-formed. |
| Agents.ToldAllWellFormed | wwagent.py:61-88 | Telling well-formed clauses keeps the kb well-formed. |
| Agents.ToldSafeIsEntailed | wwagent.py:66-67 | Once told ¬w_d and ¬p_d, the kb's enumeration of the safety query about d succeeds with t == n. |
| Agents.SafetySymbolsListQuery | wwagent.py:155 | The safety query about d mentions exactly `wd` and `pd`, and they differ. |
| Agents.Score | wwagent.py:155 | The score of one safety query, with `wd`, `pd` enumerated after the cached symbols. AskScoresSafety states it is what `ask` returns. |
| Agents.AskScoresSafety | knowledge_base.py:43-52 | Whatever order `list(set)` gives the query's two symbols, `ask` returns `Score`. |
| Agents.SafeAmong | wwagent.py:154-156 | The filter loop over the directions, ending at the first raising `ask`. SafeAmongSelects states what it keeps. |
| Agents.SafeAmongSelects | wwagent.py:154-156 | The filter raises iff some `ask` raises. Otherwise it keeps exactly the directions with a non-zero (truthy) score. |
| Agents.SafeMovesAreDirections | wwagent.py:154-165 | Every chosen move is a listed direction with a truthy score. |
| Agents.SafeAmongStep | wwagent.py:154-156 | One loop round: a raising `ask` raises, a truthy score appends the direction, a zero score keeps the list. |
| Agents.SafeAmongRaisesOnPrefix | wwagent.py:154-156 | An `ask` that raises part way ends the whole planning step with the exception. |
| Agents.Planning | wwagent.py:148-166 | The planning step's outcome. PlannedDestinationIsSafeNeighbour and WellFormedKbPlans state its properties. |
| Agents.PlannedDestinationIsSafeNeighbour | wwagent.py:148-166 | In a world at most ten wide, a planned destination is an in-bounds neighbour with a truthy safety score. |
| Agents.WellFormedKbPlans | wwagent.py:148-162 | Planning against a told kb of well-formed clauses never raises. |
| Agents.UpdateRecordsCurrentCell | wwagent.py:86-88 | After `update`, the kb holds "no wumpus" and "no pit" for the current cell, and all earlier clauses. |
| Agents.WWAgent.constructor | wwagent.py:25-35 | Creates a 4×4 world starting at (0, 3) facing right, with one arrow. The percepts and every map cell are five Nones, there is no plan, and the kb is empty. |
| Agents.WWAgent.GetDirections | wwagent.py:192-200 | Returns the names of the in-bounds neighbours, in the candidate order (x, y+1), (x+1, y), (x, y-1), (x-1, y). |
| Agents.WWAgent.CalculateNextPosition | wwagent.py:94-103 | Changes only `position`, to the clamped step, and returns it. |
| Agents.WWAgent.CalculateNextDirection | wwagent.py:109-129 | Changes only `facing`, by the turning machine. |
| Agents.WWAgent.TellNots | wwagent.py:66-67 | Tells `["not", prefix + d]` for every direction, in order. |
| Agents.WWAgent.TellClause | wwagent.py:61 | Tells one clause and keeps the agent consistent. |
| Agents.WWAgent.TellHazard | wwagent.py:51-84 | Tells the sensed-hazard clause, or "none here" for each neighbour. |
| Agents.WWAgent.Update | wwagent.py:43-88 | Stores the percept and writes it into the map at the current cell only. It tells, in order: the stench or no-wumpus clauses, the breeze or no-pit clauses, then "no wumpus" and "no pit" here. |
| Agents.WWAgent.TellPercept | wwagent.py:50-88 | The telling part of `update`, clause list as above. |
| Agents.WWAgent.ChooseDestination | wwagent.py:148-167 | The planning step. It gives no neighbour, a raising `ask`, no safe move, or the `choice`-th safe move decoded as a cell. |
| Agents.WWAgent.AskSafety | wwagent.py:155 | Returns the kb's score for the safety query of one direction. |
| Agents.WWAgent.SafeMoves | wwagent.py:149-156 | The directions whose safety score is truthy, in order, or the exception of the first raising `ask`. |
| Agents.WWAgent.MoveTowards | wwagent.py:169-187 | Returns "move" and steps when facing the goal heading. Otherwise it returns "left" and turns. |
| Agents.WWAgent.Action | wwagent.py:136-190 | Checks in this order. A set stop flag gives "exit". Glitter gives "grab" and sets the flag. Without a plan, or at the planned cell, it re-plans: None when there is no neighbour or no safe move. Finally it steers towards the planned cell. |

## Left out

- `update_progress_bar` (knowledge_base.py:116-130) and `expected_maximum_checks` are not modelled. They only print a bar; the integer `progress_bar` is kept.
- `tt_enumerate` (knowledge_base.py:132-142) is not modelled. It is a debugging print routine with no result.
- All console prints are left out.
- `randint` at wwagent.py:165 is not modelled. It is replaced by the `choice` parameter of `Action`.
- The simulator that calls `update` and `action` is not part of this model.
- The `directions` list field of `WWAgent` is not modelled. The source never reads it.
- The `action` argument of `calculateNextPosition` is not modelled. The source never reads it.
- `facing` is a four-value datatype rather than a string. The source only ever stores the four words.
- Python's `RecursionError` on a self-containing clause is not modelled as an exception. The agent model tells the intended clause instead; see Findings.
- `RecursionError` on deep but finite nesting, memory, and performance are not modelled.
- KnowledgeBases.KnowledgeBase.TtEntails: returns the real `0.0` where Python returns the integer `0`. The two are equal and equally falsy, which is all `action` uses.
- Enumeration.Ratio: the score is an exact rational where Python computes a float.
- KnowledgeBases.KnowledgeBase.Ask: the order of `list(set)` is fixed by `SetToSeq`. `ListingsAgree` and `CountsIgnoreSymbolOrder` prove the count is the same for every order `GetSymbols` may produce.
- Agents.WWAgent.Action: does not state the value of the kb's progress counter afterwards.
- Agents.PlannedDestinationIsSafeNeighbour: holds only in worlds at most ten wide. `int(move[0]), int(move[1])` reads one character per coordinate, and the source's world is 4 wide.
- Agents.WWAgent.Update: tells the intended (acyclic) stench and breeze clauses, not the self-containing list the source builds; see Findings.
- Agents.WWAgent.TellHazard: tells (or lists) the intended acyclic stench and breeze clause in place of the self-containing list the source builds; see Findings.
- Agents.WWAgent.TellPercept: tells (or lists) the intended acyclic stench and breeze clause in place of the self-containing list the source builds; see Findings.
- Agents.HazardClauses: tells (or lists) the intended acyclic stench and breeze clause in place of the self-containing list the source builds; see Findings.
- Agents.UpdateClauses: tells (or lists) the intended acyclic stench and breeze clause in place of the self-containing list the source builds; see Findings.
- Agents.WWAgent.Valid: requires the well-formed-clause invariant only in worlds at least two wide. In a one-cell world the stench clause is the empty list, which is told as is, and a later `ask` raises.

## Findings

| source | as written | input that shows it | evidently intended | confidence | as-written member | corrected member |
|---|---|---|---|---|---|---|
| wwagent.py:55-61 and 72-78 | From the second neighbour on, `clause.append([f"w{dir}", "or", [clause]])` puts `clause` inside itself, so `tell` recurses until Python raises `RecursionError` in `get_symbols` | a stench (or breeze) percept at the start cell (0, 3) of the 4×4 world: neighbours "02" and "13" | `clause = [f"w{dir}", "or", [clause]]`: the disjunction "a wumpus (pit) is in some neighbour" | high; not executed | Agents.AsWrittenClauseIsCyclic | Agents.DisjunctionMeansSomeNeighbour |

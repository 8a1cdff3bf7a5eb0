# Formal languages toolkit, modelled in Dafny

This project models the algorithmic core of a small formal-languages toolkit
written in JavaScript. The toolkit works with regular grammars, finite automata
and context-free grammars. The model covers:

- **Finite automata** (`FiniteAutomata`, automaton.dfy):
  - the single-pass word acceptance walk of `lab4/FiniteAutomaton.js` and `lab1/FiniteAutomaton.js`, with its fixed branch rule;
  - the automaton-to-grammar conversion;
  - the determinism check.
- **Grammars** (`Grammars`, grammar.dfy): the Chomsky classification and the grammar-to-automaton bridge of `lab2/Grammar.js`.
- **Regular grammars** (`RegularGrammars`, lab1.dfy): the earlier bridge of `lab1/Grammar.js`. Its sink row holds empty objects rather than empty lists.
- **Determinization** (`Determinization`, `StateKeys`; converter.dfy, keys.dfy): the subset-construction class `NFAtoDFAConverter` of `lab5/Converter.js`. Each state set is named by its sorted, comma-joined members.
- **Chomsky normal form** (`ChomskyNormalForm` with `CnfRules`, `EpsilonRemoval`, `Renaming`, `RenamingCycle`, `Pruning`, `CnfForm`): the class `CNF` of `lab5/CNF.js`. Its five stages rewrite the rules dictionary in place:
  - epsilon elimination;
  - renaming (unit production) elimination;
  - removal of inaccessible symbols;
  - removal of non-productive symbols;
  - the final form, with fresh letters A–Z.
- **Lexer** (`Lexing`, lexer.dfy): the class `Lexer` of `lab6/lexer.js`.

Shared pieces:

- `Formal` (formal.dfy) holds the grammar and automaton records.
- `ProductionRules` (rules.dfy) walks a productions object in key order.
- common.dfy holds `Wrappers`, `Seqs` and `Dicts`.

How JavaScript values are modelled:

- A JavaScript `Set` whose iteration order is observed becomes a duplicate-free
  sequence in insertion order. `[...new Set(xs)]` is `Seqs.Dedup`.
- A plain object whose key order matters (grammar productions, CNF rules) is a
  `Dicts.Dict`: the keys in insertion order plus a map.
- A grammar symbol is a one-character string.
- A thrown `Error` or `TypeError` becomes an `Err`, `Fail` or `Stop` value that
  carries the message.
- The language of a grammar is read the way both conversions read it
  (`Formal.Derives`). A rule `a` ends a derivation. A rule `aB` emits the terminal
  `a` and continues from the nonterminal `B`.

Each fixed-point loop of the source (`while (changes)`) is a method with loop
invariants. The method is proved equal to a pass function iterated by a
terminating fixed-point function. Lemmas then state what that fixed point is:
for example the least set closed under the construction's rules. The one
exception is the loop of `eliminateRenaming`, which as written does not always
end: its passes are modelled as written, and its method computes the corrected
elimination instead (see "## Findings").

## Model

| member | source | states |
|---|---|---|
| Formal.NewFiniteAutomaton | lab4/FiniteAutomaton.js:4-10 | states and alphabet become duplicate-free sequences with the same members (unchanged when already duplicate-free); transitions, initial state and final states are stored as given |
| Formal.NewGrammar | lab2/Grammar.js:4-10 | nonterminals and terminals become duplicate-free sequences with the same members; productions, start symbol and final states are stored as given |
| FiniteAutomata.Accepts | lab4/FiniteAutomaton.js:12-34 | the empty word is accepted iff the initial state is final |
| FiniteAutomata.StringBelongToLanguage | lab4/FiniteAutomaton.js:12-34 | the loop returns exactly the verdict of the walk `Accepts`: alphabet check, missing-entry check, branch rule, and membership of the last state in the final states; lab1/FiniteAutomaton.js:10-32 is the same code, so this member models both |
| FiniteAutomata.RejectsOutsideAlphabet | lab4/FiniteAutomaton.js:16 | a character outside the alphabet anywhere in the word makes the word rejected (also lab1/FiniteAutomaton.js:14) |
| FiniteAutomata.RejectsMissingTransition | lab4/FiniteAutomaton.js:17-18 | reaching a state with no entry for the next character rejects the word (also lab1/FiniteAutomaton.js:15-16) |
| FiniteAutomata.WalkIsSound | lab4/FiniteAutomaton.js:19-27 | on automata whose multi-target lists have a second element and contain the sink "F", every word the walk accepts has an accepting path in the nondeterministic automaton |
| FiniteAutomata.EdgeProductions | lab4/FiniteAutomaton.js:46-51 | one edge list emits exactly `a + t` for each target `t`, and `a` when `t` is final |
| FiniteAutomata.StateProductionsExactly | lab4/FiniteAutomaton.js:41-53 | a production is listed under state `q` iff it is `a + t` for an edge `q --a--> t`, or `a` for such an edge into a final state |
| FiniteAutomata.BuildStateProductions | lab4/FiniteAutomaton.js:42-53 | the inner loops build the production list of one state, alphabet symbol by symbol |
| FiniteAutomata.AppendEdgeProductions | lab4/FiniteAutomaton.js:46-51 | the loop over the targets of one edge list appends exactly `EdgeProductions` to the list |
| FiniteAutomata.ToGrammar | lab4/FiniteAutomaton.js:36-56 | the loop over the states builds the grammar `GrammarOf`, one production list per state; the language of that grammar is stated by `FiniteAutomata.GrammarOfLanguage` and `FiniteAutomata.EmptyWordLost` |
| FiniteAutomata.GrammarOfShape | lab4/FiniteAutomaton.js:36-55 | the grammar has the states as nonterminals, the alphabet as terminals and the initial state as start symbol; it has one production list per state, keyed in state order |
| FiniteAutomata.NoEmptyProduction | lab4/FiniteAutomaton.js:46-51 | with one-character symbols, every production `toGrammar` emits is non-empty |
| FiniteAutomata.PairProduction | lab4/FiniteAutomaton.js:46-47 | for a state `m`, the production `c + m` is listed under `q` iff `q` has an edge on `c` into `m` |
| FiniteAutomata.LastProduction | lab4/FiniteAutomaton.js:48-50 | the one-character production `c` is listed under `q` iff `q` has an edge on `c` into a final state |
| FiniteAutomata.DerivesAsRuns | lab4/FiniteAutomaton.js:36-56 | reading each production `a + p` as terminal `a` followed by state `p`, a state derives a non-empty suffix of a word in the built grammar iff some path of the automaton spells it from that state into a final state |
| FiniteAutomata.GrammarOfLanguage | lab4/FiniteAutomaton.js:36-56 | when the symbols are single characters, no state is named "" and every target is a state, the built grammar generates a non-empty word iff the automaton accepts it |
| FiniteAutomata.EmptyWordLost | lab4/FiniteAutomaton.js:41-53 | an automaton whose initial state is final accepts the empty word, but no production is empty, so the built grammar does not generate it |
| FiniteAutomata.NonFinalCount | lab4/FiniteAutomaton.js:62-67 | the count of non-final targets is at most the list length, and is zero iff every target is final |
| FiniteAutomata.CountNonFinal | lab4/FiniteAutomaton.js:62-67 | the counting loop returns `NonFinalCount` of the target list |
| FiniteAutomata.IsDeterministic | lab4/FiniteAutomaton.js:58-75 | the method returns false iff the first state that is not clean has a symbol with more than one non-final target; it throws iff that state has no transition entry; it returns true iff every state is clean |
| Grammars.NonTerminalCount | lab2/Grammar.js:93 | the number of nonterminal characters of a right side is at most its length |
| Grammars.ClassifyGrammar | lab2/Grammar.js:70-129 | the flag-clearing loops return `Classification`: "Type 3" if the regular test holds, else "Type 2" if every left side has one character, else "Type 1" if the non-contracting test holds, else "Type 0" |
| Grammars.CheckRights | lab2/Grammar.js:78-115 | the loop over the right sides of one left side keeps `type1` iff every right side is non-contracting, and keeps `type3` iff every right side passes the regular test and the side is not mixed |
| Grammars.RegularIsContextFree | lab2/Grammar.js:74-77 | a "Type 3" verdict implies that every left side has one character |
| Grammars.RegularNeedNotBeNonContracting | lab2/Grammar.js:81-89 | an empty right side under a non-start symbol clears only `type1`, so a "Type 3" grammar can fail the type-1 test |
| Grammars.ScriptGrammarIsRegular | lab2/script.js:7-15 | the grammar of the driver script is classified "Type 3" |
| Grammars.ScriptGrammarRightLinear | lab2/script.js:7-15 | the grammar of the driver script is right-linear and its start symbol is a nonterminal |
| Grammars.ScriptGrammarLanguage | lab2/script.js:7-15 | the automaton converted from the driver script's grammar accepts exactly the words that grammar generates |
| Grammars.ToFiniteAutomaton | lab2/Grammar.js:30-68 | the nested loops return `AutomatonOf`: the automaton, or the TypeError thrown on a missing row; for right-linear grammars its language is stated by `Grammars.AutomatonLanguage` |
| Grammars.ApplyRule | lab2/Grammar.js:39-62 | the body for one rule computes `AddRule`: it resets the sink cell of a non-pair rule, appends the target to the addressed cell, and throws on a missing one-character row |
| Grammars.AddRulesThrows | lab2/Grammar.js:49-61 | the loops throw iff some rule with a one-character left side has no row yet; otherwise the rows are the initial ones plus the rows that longer left sides create |
| Grammars.AddRulesCells | lab2/Grammar.js:41-62 | every cell outside the sink row lists the targets of the rules that address it, in rule order, duplicates kept, and exists iff some rule addresses it |
| Grammars.SinkStartLast | lab2/Grammar.js:43-46 | `SinkStart` is the position of the last rule that empties the sink cell under a label (a rule that is not two characters long and equals the label), and 0 when there is none |
| Grammars.AddRulesSinkCell | lab2/Grammar.js:41-62 | for any rules, including rules under a nonterminal "F" or a left side "FY": the sink cell under y exists iff some rule empties it or appends to it, and it lists, in rule order, the targets appended to it from the last emptying rule on, that rule's own target included |
| Grammars.AddRulesSink | lab2/Grammar.js:41-62 | the whole sink row for any rules, as in `AddRulesSinkCell`; when no rule addresses the sink it holds an empty list under every rule that is not two characters long, and nothing else |
| Grammars.AutomatonOfFails | lab2/Grammar.js:37-64 | the conversion fails iff some one-character left side is neither a nonterminal, nor "F", nor a row created by an earlier longer left side |
| Grammars.AutomatonOfBuilds | lab2/Grammar.js:31-67 | states are the nonterminals plus "F"; the alphabet is the terminals; the initial state is the start symbol and the finals are the constructor's; the rows and cells, the sink row included, are as stated above |
| ProductionRules.RuleIndex | lab2/Grammar.js:37-38 | every right side listed under a key is visited by the rule loop, at some position of the rule sequence |
| Grammars.RightLinearRule | lab2/Grammar.js:37-56 | in a right-linear grammar every visited rule sits under a one-character nonterminal, so it addresses its own left side's row under its first character |
| Grammars.RightLinearConverts | lab2/Grammar.js:37-64 | a right-linear grammar converts without throwing |
| Grammars.BuiltLabels | lab2/Grammar.js:31-67 | the automaton's alphabet is the terminals, its initial state is the start symbol and its finals are the grammar's |
| Grammars.BuiltCell | lab2/Grammar.js:41-62 | every cell outside the sink row lists the targets of the rules that address it |
| Grammars.RightLinearCell | lab2/Grammar.js:41-62 | in a right-linear grammar, `t` is a target of nonterminal `n` on `c` iff `n` has the rule `c` and `t` is "F", or `t` is a nonterminal and `n` has the rule `c + t` |
| Grammars.RightLinearSink | lab2/Grammar.js:41-46 | in a right-linear grammar every cell of the sink "F" is empty |
| Grammars.AutomatonReads | lab2/Grammar.js:30-68 | the automaton of a right-linear grammar reads its rules: alphabet = terminals, "F" final and no nonterminal final, no edge out of "F", and the edges out of each nonterminal are exactly its rules |
| Grammars.ReadsAsDerives | lab2/Grammar.js:37-62 | for any automaton that reads right-linear rules in that way, a path from a nonterminal spells a non-empty suffix into a final state iff the nonterminal derives that suffix |
| Grammars.AutomatonLanguage | lab2/Grammar.js:30-68 | a right-linear grammar whose start symbol is a nonterminal converts, and its automaton accepts a word iff the grammar generates it |
| RegularGrammars.NewRegularGrammar | lab1/Grammar.js:4-9 | nonterminals and terminals are duplicate-free with the same members; productions and start symbol are stored as given |
| RegularGrammars.ToFiniteAutomaton | lab1/Grammar.js:32-59 | the nested loops return `AutomatonOf`: the automaton, or the TypeError thrown on a missing row or a push onto `{}`; for right-linear grammars its language is stated by `RegularGrammars.AutomatonLanguage` |
| RegularGrammars.ApplyRule | lab1/Grammar.js:41-53 | the body for one rule computes `Step`: it sets the sink cell of a non-pair rule to `{}`, appends the target to the addressed cell, and throws on a missing row or a push onto `{}` |
| RegularGrammars.StepMissingRow | lab1/Grammar.js:49 | a rule under a left side that has no row throws |
| RegularGrammars.StepAppends | lab1/Grammar.js:41-53 | a rule under a state other than the sink appends its target to its own cell, resets the sink cell of a non-pair rule to `{}`, and leaves every other row alone |
| RegularGrammars.StepSinkRule | lab1/Grammar.js:41-53 | a rule under "F" that goes through changes only the sink row |
| RegularGrammars.StepsKeep | lab1/Grammar.js:39-56 | whatever the rules, rules under "F" included, a conversion that goes through adds no row and leaves `{}` only in the sink row |
| RegularGrammars.StepThrows | lab1/Grammar.js:41-53 | one rule throws iff its left side has no row, or it is under "F" and is not two characters long, or it is under "F" and its label's sink cell holds `{}`; otherwise a rule not two characters long adds its label to the `{}` cells of the sink |
| RegularGrammars.StepsFail | lab1/Grammar.js:39-56 | for any rules, the conversion throws iff some rule throws given the rules before it (`Throws`): its left side is not a state, or it is under "F" and either is not two characters long or has a label that an earlier rule not two characters long put `{}` under; when it goes through, the sink's `{}` cells are exactly those labels |
| RegularGrammars.NoSinkFails | lab1/Grammar.js:39-56 | without rules under "F", the conversion throws iff some left side is not a state |
| RegularGrammars.StepsCell | lab1/Grammar.js:49-53 | for any rules, each row other than the sink lists the targets of the rules, label by label, in rule order, without deduplication |
| RegularGrammars.StepSinkCell | lab1/Grammar.js:44-53 | one rule resets the sink cell of its own label to `{}` when it is not two characters long, appends its target to its label's sink cell when it is under "F", and leaves the other sink cells alone |
| RegularGrammars.StepsSink | lab1/Grammar.js:44-53 | for any rules, the sink row holds `{}` under exactly the labels of the rules not two characters long, and under every other label the targets of the rules under "F" with that label, in rule order |
| RegularGrammars.AutomatonOfFails | lab1/Grammar.js:39-56 | the conversion throws iff some rule throws given the rules before it; with no rules under "F", iff a left side with rules is not a nonterminal |
| RegularGrammars.AutomatonOfBuilds | lab1/Grammar.js:33-58 | states are the nonterminals plus "F", the alphabet is the terminals without repeats, the initial state is the start symbol, the final states are {"F"}, every state has a row; the sink row reads as `[]` under the labels of the rules not two characters long and as the targets of the rules under "F" elsewhere, so only empty lists when no rule is under "F" |
| RegularGrammars.AutomatonOfEdges | lab1/Grammar.js:49-53 | for any grammar, every edge out of a nonterminal lists exactly the targets of its rules with that label, in rule order |
| RegularGrammars.RightLinearConverts | lab1/Grammar.js:39-56 | a right-linear grammar converts without throwing |
| RegularGrammars.BuiltLabels | lab1/Grammar.js:33-58 | the automaton's alphabet is the terminals, its initial state is the start symbol and its only final state is "F" |
| RegularGrammars.RightLinearSink | lab1/Grammar.js:44-53 | in a right-linear grammar every cell of the sink "F" is empty |
| RegularGrammars.RightLinearCell | lab1/Grammar.js:41-53 | in a right-linear grammar, `t` is a target of nonterminal `n` on `c` iff `n` has the rule `c` and `t` is "F", or `t` is a nonterminal and `n` has the rule `c + t` |
| RegularGrammars.AutomatonReads | lab1/Grammar.js:32-59 | the automaton of a right-linear grammar reads its rules as `Grammars.AutomatonReads` states for lab2 |
| RegularGrammars.AutomatonLanguage | lab1/Grammar.js:32-59 | a right-linear grammar whose start symbol is a nonterminal converts, and its automaton accepts a word iff the start symbol derives it |
| RegularGrammars.ScriptGrammarAutomaton | lab1/script.js:3-14 | the driver script's grammar converts to the given seven-edge automaton |
| RegularGrammars.ScriptGrammarWords | lab1/script.js:23 | on the converted automaton the walk accepts "bb", "bbb" and "babcb" and rejects "ba", "abc" and "bba", words of the script's test list |
| RegularGrammars.ScriptGrammarRightLinear | lab1/script.js:3-14 | the grammar of the driver script is right-linear and its start symbol is a nonterminal |
| RegularGrammars.ScriptGrammarLanguage | lab1/script.js:3-14 | the automaton converted from the driver script's grammar accepts exactly the words that grammar derives from its start symbol |
| RegularGrammars.SinkRuleThrows | lab1/Grammar.js:46-50 | a one-symbol rule listed under "F" throws, because its sink cell was just reset to `{}` |
| Determinization.EpsilonClosure | lab5/Converter.js:45-47 | the closure is a duplicate-free copy of its argument, unchanged when the argument is a set |
| Determinization.MoveSetMembers | lab5/Converter.js:49-57 | `move(S, a)` holds each state once and is exactly the union of the target lists of the members of `S`; missing rows or entries contribute nothing |
| Determinization.Known | lab5/Converter.js:26 | true iff some discovered state has the given name |
| Determinization.DeterminizedEdges | lab5/Converter.js:22-35 | every recorded edge is on an alphabet symbol, has exactly one target, and that target has a row |
| Determinization.StatesBound | lab5/Converter.js:13-29 | the discovered states are distinct non-empty subsets of the candidate states (the initial state plus every transition target, reachable or not), so there are at most 2^n of them, n being the number of candidates, and the worklist loop ends |
| Determinization.NFAtoDFAConverter.constructor | lab5/Converter.js:2-10 | the constructor runs the construction: the first state is {initialState}; states are non-empty and distinct by name; each row is the moves of its state; a state is final iff it holds a final state of the input; when no state name contains a comma, the result accepts exactly the words the input accepts |
| StateKeys.KeyDeterminesMembers | lab5/Converter.js:59-61 | when no member contains a comma, two non-empty sets with the same name have the same members |
| StateKeys.SingletonKey | lab5/Converter.js:59-61 | the name of {q} is q, so the stored `initialState` is the key of the first state |
| Determinization.RunsAgree | lab5/Converter.js:17-42 | from the key of any discovered state, the result accepts the rest of a word iff some member of that state accepts it in the input automaton |
| Determinization.DeterminizedLanguage | lab5/Converter.js:12-43 | when no state name contains a comma, the walk of the result from `initialState` ends in a final key iff some path of the input automaton spells the word |
| Determinization.CommaCollision | lab5/Converter.js:24-34 | with states named "a,b", "a" and "b", the subsets {"a,b"} and {"a","b"} share a key: the result treats "x" and "y" alike, while the input accepts "y" and rejects "x" |
| Determinization.NFAtoDFAConverter.Move | lab5/Converter.js:49-57 | the loop computes `MoveSet` |
| Determinization.NFAtoDFAConverter.Expand | lab5/Converter.js:22-36 | the symbol loop for a popped state records one edge per non-empty move, and registers and queues each new state |
| Determinization.NFAtoDFAConverter.Convert | lab5/Converter.js:12-43 | the worklist loop leaves the fields holding a determinized automaton as described for the constructor |
| Determinization.NFAtoDFAConverter.Explore | lab5/Converter.js:12-43 | the worklist loop, run on local copies of the fields, ends with a determinized automaton: the first state is {initialState}; the states are distinct by name, non-empty, and closed under non-empty moves; each row is the moves of its state; a state is final iff it holds a final state of the input |
| StateKeys.SortSorted | lab5/Converter.js:60 | the default sort of a set of names is ascending in string order, with the same members and length |
| StateKeys.AscendingUnique | lab5/Converter.js:60 | two ascending sequences with the same members are equal |
| StateKeys.KeyIgnoresOrder | lab5/Converter.js:59-61 | two sets with the same members get the same name, whatever their insertion order |
| ChomskyNormalForm.CNF.constructor | lab5/CNF.js:4-9 | the four fields are stored as given |
| ChomskyNormalForm.CNF.IsCNF | lab5/CNF.js:17-32 | true iff every production is one terminal, or two characters of which none is a terminal |
| ChomskyNormalForm.CNF.EpsilonMarkers | lab5/CNF.js:36-45 | the first loop collects the nonterminals that list an "ε" production |
| ChomskyNormalForm.CNF.NullablePass | lab5/CNF.js:47-61 | one pass of the `while (changes)` loop; `changes` is true iff the set grew |
| ChomskyNormalForm.CNF.NullableSymbols | lab5/CNF.js:36-62 | the two loops compute the fixed point `Nullable` |
| EpsilonRemoval.NullableLeast | lab5/CNF.js:36-62 | the nullable set is closed under the two rules (an "ε" production; a production of nullable symbols), and it is contained in every set closed under them |
| ChomskyNormalForm.CNF.ExpandNullableProd | lab5/CNF.js:78-95 | the loop returns every keep-or-drop expansion of the production other than "" |
| EpsilonRemoval.ExpandNullableMembers | lab5/CNF.js:78-95 | a string is an expansion iff it is non-empty and is the production with some nullable symbols deleted, the rest kept in order; the production itself is one when it is non-empty |
| ChomskyNormalForm.CNF.EliminateEpsilonProductions | lab5/CNF.js:35-75 | the rules become `EpsilonFree` of the old rules and their nullable set; the other fields are unchanged |
| EpsilonRemoval.EpsilonFreeFacts | lab5/CNF.js:64-74 | the keys keep their order; every list is duplicate-free; a production is listed iff it is a non-empty expansion of an old production other than "ε"; when "ε" occurs only as a whole production, no list contains it |
| Renaming.RenamingPass | lab5/CNF.js:99-115 | one pass of the loop as written keeps the keys and their order |
| Renaming.PassKeepsKeys | lab5/CNF.js:97-116 | any number of passes of the loop as written keeps the keys and their order |
| RenamingCycle.RenamingNeverSettles | lab5/CNF.js:98-115 | on a six-nonterminal grammar, the pass after any number of passes sets `changes` again, so the loop as written never ends |
| ChomskyNormalForm.CNF.ResolveUnits | lab5/CNF.js:101-114 | the corrected inner loop computes the unit-free list of one nonterminal, expanding each unit at most once |
| ChomskyNormalForm.CNF.EliminateRenaming | lab5/CNF.js:97-116 | the rules become `Renamed`: every left side in `nonTerminals` that has rules gets its unit-free list |
| Renaming.ResolveFacts | lab5/CNF.js:101-114 | expanding units keeps the list sound (only right sides of expanded nonterminals) and complete (every such right side is listed or is an expanded unit); it ends with no unit with rules in the list and the expanded set closed under units |
| Renaming.UnitFreeListReach | lab5/CNF.js:101-114 | the nonterminals expanded for `nt` are the least set that holds `nt` and is closed under unit productions |
| Renaming.UnitFreeListProds | lab5/CNF.js:101-114 | the unit-free list of `nt` holds exactly the right sides, other than units with rules, of the nonterminals expanded for it |
| Renaming.UnitFreeListNoDup | lab5/CNF.js:108-110 | a list from which a unit was eliminated, or that was duplicate-free, ends duplicate-free |
| Renaming.RenamedFacts | lab5/CNF.js:97-116 | keys and their order are kept; each nonterminal key gets its unit-free list, which holds no unit with rules; other keys keep their lists |
| ChomskyNormalForm.CNF.AccessiblePass | lab5/CNF.js:123-134 | one pass over the snapshot `[...accessible]`; `changes` is true iff the set grew |
| ChomskyNormalForm.CNF.EliminateInaccessibleSymbols | lab5/CNF.js:119-138 | `nonTerminals` becomes `Accessible`, and only its keys stay in the rules |
| Pruning.AccessibleFacts | lab5/CNF.js:119-138 | the accessible symbols start with the start symbol and are duplicate-free; they are the least set that holds the start symbol and is closed under references to nonterminals |
| ChomskyNormalForm.CNF.ProductivePass | lab5/CNF.js:144-158 | one pass over `nonTerminals`; `changes` is true iff the set grew |
| ChomskyNormalForm.CNF.EliminateNonProductiveSymbols | lab5/CNF.js:141-163 | `nonTerminals` becomes `Productive`, and only its keys stay in the rules |
| Pruning.ProductiveFacts | lab5/CNF.js:141-163 | the productive symbols start with the start symbol, which is kept whatever its rules, and are duplicate-free; they are the least set holding it in which every nonterminal with a production of terminals and members is a member |
| ChomskyNormalForm.CNF.CreateNewNonTerminal | lab5/CNF.js:166-175 | returns and pushes the first free letter A–Z; throws "No available non-terminal symbols." when every letter is taken |
| CnfForm.FreshLetterFacts | lab5/CNF.js:166-175 | no letter is found iff all 26 are nonterminals; a found letter is the first one not yet a nonterminal |
| ChomskyNormalForm.CNF.MapProduction | lab5/CNF.js:184-198 | the symbol loop replaces each terminal by its shared letter, creating the letter and its rule on first use |
| ChomskyNormalForm.CNF.Shorten | lab5/CNF.js:200-207 | the shortening loop replaces the first two symbols by a new letter with that pair as its only rule, until two symbols are left |
| ChomskyNormalForm.CNF.ConvertOne | lab5/CNF.js:183-210 | the body for one right side: map the symbols, shorten, and join |
| ChomskyNormalForm.CNF.GetCNFform | lab5/CNF.js:177-214 | the rules become those `CNFForm` builds and the nonterminals gain the letters it pushes; when it throws, the rules stay and the letters pushed so far remain |
| CnfForm.CNFFormFails | lab5/CNF.js:177-214 | the final-form stage throws only once every letter A–Z is a nonterminal |
| CnfForm.CNFFormLetters | lab5/CNF.js:166-175 | the nonterminals grow only by new letters that were not nonterminals before |
| CnfForm.CNFFormShort | lab5/CNF.js:200-209 | every right side of the new rules has at most two symbols |
| CnfForm.CNFFormTerminals | lab5/CNF.js:186-198 | each terminal met in a right side gets one shared new letter whose only rule is that terminal |
| CnfForm.CNFFormNewRules | lab5/CNF.js:177-214 | each new left side is a new letter with exactly one right side: a pair, or the terminal it stands for |
| CnfForm.CNFFormKeys | lab5/CNF.js:181-211 | every old left side is still a left side, with as many right sides as before |
| CnfForm.CNFFormPairs | lab5/CNF.js:186-207 | when no letter A–Z is a terminal, no two-symbol right side contains a terminal |
| CnfMeaning.MeaningsDom | lab5/CNF.js:166-175 | only new letters get a meaning: a letter with a meaning is a key of the rules and never an old left side |
| CnfMeaning.ReadBackFlatten | lab5/CNF.js:209 | joining a word of one-character symbols with `join('')` keeps its symbols, and it reads back as the word does |
| CnfMeaning.PairReadsBack | lab5/CNF.js:200-207 | replacing the first two symbols by a letter that means them does not change how the word reads back |
| CnfMeaning.ConvertProductionMeans | lab5/CNF.js:183-210 | one right side is appended to its left side's list, keeps every earlier letter's meaning, and, when its capital letters are all terminals or nonterminals, reads back as the right side it was made from |
| CnfMeaning.ConvertKeyMeans | lab5/CNF.js:181-211 | one old left side goes after the earlier old left sides, with as many right sides as before, each reading back as before under the same condition |
| CnfMeaning.ConvertKeysMeans | lab5/CNF.js:181-211 | after the first `n` keys, the old left sides among the keys are exactly those `n`, in order, and each one's right sides read back as before under the same condition |
| CnfMeaning.CNFFormReadsBack | lab5/CNF.js:177-214 | the old left sides keep their order among the new letters; each keeps as many right sides, and each right side read back through the letters' meanings equals the right side it was made from, whenever its capital letters are all terminals or nonterminals |
| CnfMeaning.CNFFormNoTerminal | lab5/CNF.js:183-209 | when no letter A–Z is a terminal, no right side of an old left side is a terminal or holds one, whatever its length: `A -> b` becomes `A -> X` |
| CnfMeaning.CNFFormCollision | lab5/CNF.js:166-175 | a capital letter that is neither a terminal nor a nonterminal can be chosen as a fresh letter: `S -> Aa` becomes `S -> AA`, `A -> a`, which reads back as `aa` |
| ChomskyNormalForm.ToCNFReadsBack | lab5/CNF.js:217-239 | when the rules are not already in normal form, `toCNF` goes through iff the final-form stage does, and its result relates to the cleaned rules as `CNFFormReadsBack` and `CNFFormNoTerminal` state |
| ChomskyNormalForm.CleanedFacts | lab5/CNF.js:220-232 | after the four clean-up stages the rules are well formed, the start symbol is the first nonterminal, and every left side is a nonterminal |
| ChomskyNormalForm.ToCNFFacts | lab5/CNF.js:217-239 | rules already in normal form are left alone; a throw leaves every letter taken; otherwise the start symbol is still first, every right side has at most two symbols, and (with no letter A–Z a terminal) no pair holds a terminal |
| ChomskyNormalForm.CNF.ToCNF | lab5/CNF.js:217-239 | no change when `isCNF` holds; otherwise the five stages in order, ending in their outcome `ToCNFResult` |
| Lexing.SkipSpaces | lab6/lexer.js:46-50 | the first position at or after the start that is the end or not a blank; everything skipped is a blank |
| Lexing.WordEnd | lab6/lexer.js:66-68 | the end of the maximal `[a-zA-Z0-9]` run |
| Lexing.DigitsEnd | lab6/lexer.js:95-97 | the end of the maximal digit run |
| Lexing.StringEnd | lab6/lexer.js:105-110 | the scan stops at a quote, or at or just past the end of the input |
| Lexing.WordToken | lab6/lexer.js:70-90 | the token holds the word, and is a keyword iff the word is one of the fourteen keywords, else an identifier |
| Lexing.Scan | lab6/lexer.js:31-41 | a token read at a non-blank position ends strictly after it and inside the input |
| Lexing.LexSkip | lab6/lexer.js:27-29 | skipping blanks first changes nothing |
| Lexing.WhitespaceNoToken | lab6/lexer.js:27-29 | a blank produces no token: lexing from it equals lexing from the next position |
| Lexing.BlankInput | lab6/lexer.js:26-44 | an input of blanks yields no token and no error, and ends at the end of the input |
| Lexing.ScanWord | lab6/lexer.js:64-91 | a token starting with a letter is the maximal `[a-zA-Z0-9]` run, of type KEYWORD_TOKEN iff it is a keyword |
| Lexing.ScanNumber | lab6/lexer.js:93-100 | a token starting with a digit is a NUMBER_TOKEN holding the maximal digit run |
| Lexing.StringEndBody | lab6/lexer.js:105-110 | where the scan stops at a quote, the text passed over is a well-formed body |
| Lexing.BodyStringEnd | lab6/lexer.js:105-110 | a well-formed body followed by a quote is exactly where the scan stops |
| Lexing.ScanString | lab6/lexer.js:102-117 | at a quote, a STRING_TOKEN with the raw text up to the closing quote is emitted iff such a quote exists after a well-formed body; otherwise "Unterminated string literal" is thrown |
| Lexing.StringRoundTrip | lab6/lexer.js:102-117 | any well-formed body between quotes comes back as the value of one string token, and lexing resumes after the closing quote |
| Lexing.ScanSymbol | lab6/lexer.js:119-146 | `>=`, `<=` and `==` are two-character operators; `+ > < =` are one-character operators; `( ) { } ; ,` are punctuation; any other character throws "Unexpected character: " followed by it |
| Lexing.LexAppends | lab6/lexer.js:26-44 | tokens are only appended: the result is the old tokens followed by the new ones in input order, and the position and error do not depend on the old tokens |
| Lexing.Lexer.constructor | lab6/lexer.js:2-6 | the lexer starts at position 0 with no tokens |
| Lexing.Lexer.Advance | lab6/lexer.js:22-24 | returns the character at the position and moves one step on |
| Lexing.Lexer.Tokenize | lab6/lexer.js:26-44 | the loop leaves the tokens and position that `Lex` gives; it returns the tokens, or the error a token reader throws |
| Lexing.Lexer.SkipWhitespace | lab6/lexer.js:46-50 | moves the position to `SkipSpaces` |
| Lexing.Lexer.TokenizeIdentifierOrKeyword | lab6/lexer.js:64-91 | pushes `WordToken` of the run up to `WordEnd` and moves there |
| Lexing.Lexer.TokenizeNumber | lab6/lexer.js:93-100 | pushes a NUMBER_TOKEN of the run up to `DigitsEnd` and moves there |
| Lexing.Lexer.TokenizeString | lab6/lexer.js:102-117 | pushes the string token and moves past the closing quote, or throws where the scan stopped |
| Lexing.Lexer.TokenizeSymbol | lab6/lexer.js:119-146 | pushes the operator or punctuation token and moves past it, or throws on any other character |

## Left out

- Console output is not modelled: `printRules`, the `printSteps` messages of `toCNF`, and the `console.log` calls in `classifyGrammar`.
- `expandSymbol` and `generatateStrings` in both Grammar files are not modelled: they choose at random with `Math.random`, and they do not terminate on cyclic grammars.
- Drawing, DOM wiring, the pattern generators and the parser are outside the core. The driver scripts appear only as the example grammars of `Grammars.ScriptGrammar` and `RegularGrammars.ScriptGrammar`. The automaton of lab2/script.js and the CNF input of lab5/script.js are not modelled.
- lab4/Grammar.js is not part of this model. The grammar that `toGrammar` builds uses the lab2 grammar record.
- Properties inherited from JavaScript's object prototype are ignored. They matter only for keys such as `constructor`.
- `Dicts.Dict` lists keys in insertion order. JavaScript lists integer-like keys first, in ascending order, so a grammar with digits as symbols would visit its rules, and assign fresh letters, in another order than the model.
- Strings are sequences of characters. JavaScript's UTF-16 code units, surrogate pairs included, are not distinguished from code points.
- FiniteAutomata.ToGrammar: the built grammar never generates the empty word, because `toGrammar` emits no empty production. An automaton whose initial state is final therefore loses "" (`FiniteAutomata.EmptyWordLost`). Equality for non-empty words (`FiniteAutomata.GrammarOfLanguage`) is proved for automata with one-character symbols, no state named "", the initial state among the states, and every transition target a state. Otherwise a production `a + p` cannot be split back into its symbol and state.
- Grammars.ToFiniteAutomaton: its language is proved equal to the grammar's (`Grammars.AutomatonLanguage`) for right-linear grammars only. In such a grammar every rule is a terminal or a terminal followed by a nonterminal, every nonterminal has one character, no nonterminal is "F" or a final state, "F" is a final state, and the start symbol is a nonterminal. Other grammars get no language statement, for example those with two-character left sides.
- RegularGrammars.ToFiniteAutomaton: its language is proved equal to the grammar's (`RegularGrammars.AutomatonLanguage`) under the same hypotheses, minus the ones about final states, because lab1 always makes "F" the only final state.
- FiniteAutomata.WalkIsSound: only soundness is proved. The walk follows one branch, so it can reject a word that some path of the automaton accepts.
- ChomskyNormalForm.ToCNFFacts does not claim that `isCNF` holds after `toCNF`. The final-form stage also replaces a lone terminal, so `A -> b` becomes the unit production `A -> X` (proved by `CnfMeaning.CNFFormNoTerminal`). How the final rules relate to the cleaned rules is stated by `ChomskyNormalForm.ToCNFReadsBack`.
- CNFFormReadsBack: the read-back equality is stated only for right sides whose capital letters are all terminals or nonterminals. A capital letter that is neither (for example a pruned nonterminal still named in a right side) can be picked as a fresh letter, and the read-back then differs, as `CnfMeaning.CNFFormCollision` shows.
- Pruning.ProductiveFacts keeps the start symbol even when it is not productive, as the source does. Rules that mention pruned nonterminals are not cleaned, in either pruning stage.
- ChomskyNormalForm.CNF.EliminateRenaming models the corrected elimination, not the loop as written, because the loop as written does not always terminate (see "## Findings"). The loop as written is modelled by `Renaming.RenamingPass`.
- `peekAhead` of the lexer is never called and is not modelled.
- Lexing.Lexer.TokenizeString and Lexing.Lexer.TokenizeSymbol require a character at the current position. Their only caller, `tokenize`, guarantees this.
- After a string ending in a lone backslash, the source throws with the position one past the end. The model keeps that position.
- Determinization.NFAtoDFAConverter.constructor requires an alphabet without repeated symbols. The source takes it from a `Set`.
- Determinization.DeterminizedLanguage: the result is proved to accept the input's language only when no state name contains a comma. Otherwise `stateToString` can give two different subsets the same key, the second is never registered, and the languages can differ, as `Determinization.CommaCollision` shows.
- The `Converter` fields are written once, at the end of `convert`. The source fills `this.transitions[key]` in place while the loop runs; the final state of the fields is the same.

## Findings

| source | as written | input that shows it | evidently intended | confidence | as-written member | corrected member |
|---|---|---|---|---|---|---|
| lab5/CNF.js:97-116 | `eliminateRenaming` repeats passes while any unit with rules was seen. Each unit is replaced by the current list of its nonterminal, and a nonterminal's own name is read from its list being rebuilt, so units can reappear forever | rules A: A,B,C,E; B: E,F,A; C: B,C,E; D: E,A,B; E: E,F,A,B; F: B,C,E with nonTerminals A–F: the passes cycle among three rule sets, and every pass sets `changes` | every left side ends with the right sides it reaches through unit productions, minus the units, and the loop ends | high; not executed | RenamingCycle.RenamingNeverSettles | Renaming.RenamedFacts |

/**
 * Chomsky classification and the grammar-to-automaton conversion of
 * lab2/Grammar.js.
 */
module Grammars {
  import opened Wrappers
  import opened Seqs
  import opened Dicts
  import opened Formal
  import opened ProductionRules
  import FiniteAutomata

  /*
   * -------------------------------------------------------- classifyGrammar
   */

  /** The right-hand sides listed under `left` (an absent key has none). */
  function Rights(g: Grammar, left: string): seq<string> {
    RightSides(g.productions, left)
  }

  /** `nonTerminals.has(right[0])`; `right[0]` of "" is `undefined`, never a member. */
  predicate StartsWithNonTerminal(g: Grammar, right: string) {
    |right| > 0 && [right[0]] in g.nonTerminals
  }

  predicate EndsWithNonTerminal(g: Grammar, right: string) {
    |right| > 0 && [right[|right| - 1]] in g.nonTerminals
  }

  /** How many characters of `right` are nonterminals. */
  function NonTerminalCount(g: Grammar, right: string): (n: nat)
    ensures n <= |right|
  {
    if |right| == 0 then 0 else
      NonTerminalCount(g, right[..|right| - 1]) + (if [right[|right| - 1]] in g.nonTerminals then 1 else 0)
  }

  /** The per-production test for type 3: a lone terminal, or exactly one nonterminal at one end. */
  predicate RegularRight(g: Grammar, right: string) {
    right != "" ==>
      if |right| == 1 then right in g.terminals
      else (StartsWithNonTerminal(g, right) || EndsWithNonTerminal(g, right)) && NonTerminalCount(g, right) == 1
  }

  /** Under one left side, some right side starts with a nonterminal and another only ends with one. */
  predicate MixesSides(g: Grammar, left: string) {
    (exists r :: r in Rights(g, left) && StartsWithNonTerminal(g, r)) &&
    (exists r :: r in Rights(g, left) && !StartsWithNonTerminal(g, r) && EndsWithNonTerminal(g, r))
  }

  /** No left side is longer than one character. */
  predicate SingleLeftSides(g: Grammar) {
    forall left :: left in g.productions.keys ==> |left| <= 1
  }

  /** What keeps `type3` set. */
  predicate Regular(g: Grammar) {
    SingleLeftSides(g) &&
    forall left :: left in g.productions.keys ==>
      (forall r :: r in Rights(g, left) ==> RegularRight(g, r)) && !MixesSides(g, left)
  }

  /** The per-production test for type 1. */
  predicate NonContractingRule(g: Grammar, left: string, right: string) {
    (right != "" ==> |right| >= |left|) && (right == "" ==> left == g.startSymbol)
  }

  /** What keeps `type1` set. */
  predicate NonContracting(g: Grammar) {
    forall left, r :: left in g.productions.keys && r in Rights(g, left) ==> NonContractingRule(g, left, r)
  }

  /** The first flag still set, in the order 3, 2, 1; otherwise type 0. */
  function Classification(g: Grammar): string {
    if Regular(g) then "Type 3"
    else if SingleLeftSides(g) then "Type 2"
    else if NonContracting(g) then "Type 1"
    else "Type 0"
  }

  /** `classifyGrammar()`. */
  method ClassifyGrammar(g: Grammar) returns (kind: string)
    ensures kind == Classification(g)
  {
    var keys := g.productions.keys;
    var type1, type3, type2 := true, true, true;
    for i := 0 to |keys|
      invariant type2 == forall k :: 0 <= k < i ==> |keys[k]| <= 1
      invariant type1 == forall k, r :: 0 <= k < i && r in Rights(g, keys[k]) ==> NonContractingRule(g, keys[k], r)
      invariant type3 == forall k :: 0 <= k < i ==>
        |keys[k]| <= 1 && (forall r :: r in Rights(g, keys[k]) ==> RegularRight(g, r)) && !MixesSides(g, keys[k])
    {
      var left := keys[i];
      if |left| > 1 {
        type3 := false;
        type2 := false;
      }
      var nonContracting, regular := CheckRights(g, left);
      type1 := type1 && nonContracting;
      type3 := type3 && regular;
    }
    assert forall left :: left in g.productions.keys ==> exists k :: 0 <= k < |keys| && keys[k] == left;
    if type3 {
      kind := "Type 3";
    } else if type2 {
      kind := "Type 2";
    } else if type1 {
      kind := "Type 1";
    } else {
      kind := "Type 0";
    }
  }

  /**
   * The inner loop of `classifyGrammar` over the right sides of `left`: whether
   * it leaves `type1` and `type3` set.
   */
  method CheckRights(g: Grammar, left: string) returns (nonContracting: bool, regular: bool)
    ensures nonContracting == forall r :: r in Rights(g, left) ==> NonContractingRule(g, left, r)
    ensures regular == ((forall r :: r in Rights(g, left) ==> RegularRight(g, r)) && !MixesSides(g, left))
  {
    var rights := Rights(g, left);
    nonContracting, regular := true, true;
    var startedWithNonTerminal, endedWithNonTerminal := false, false;
    for j := 0 to |rights|
      invariant nonContracting == forall m :: 0 <= m < j ==> NonContractingRule(g, left, rights[m])
      invariant startedWithNonTerminal == exists m :: 0 <= m < j && StartsWithNonTerminal(g, rights[m])
      invariant endedWithNonTerminal ==
        exists m :: 0 <= m < j && !StartsWithNonTerminal(g, rights[m]) && EndsWithNonTerminal(g, rights[m])
      invariant regular == ((forall m :: 0 <= m < j ==> RegularRight(g, rights[m])) &&
                            !(startedWithNonTerminal && endedWithNonTerminal))
    {
      var right := rights[j];
      if right != "" && |right| < |left| {
        nonContracting := false;
      }
      if right == "" && left != g.startSymbol {
        nonContracting := false;
      }
      var startsWithNonTerminal := StartsWithNonTerminal(g, right);
      var endsWithNonTerminal := EndsWithNonTerminal(g, right);
      var nonTerminalCount := NonTerminalCount(g, right);
      if right == "" {
        continue;
      }
      if |right| == 1 {
        if right !in g.terminals {
          regular := false;
        }
      } else if !((startsWithNonTerminal || endsWithNonTerminal) && nonTerminalCount == 1) {
        regular := false;
      }
      if startsWithNonTerminal {
        startedWithNonTerminal := true;
      } else if endsWithNonTerminal {
        endedWithNonTerminal := true;
      }
      if startedWithNonTerminal && endedWithNonTerminal {
        regular := false;
      }
    }
    assert MixesSides(g, left) <==> startedWithNonTerminal && endedWithNonTerminal;
  }

  /** A "Type 3" verdict implies the type-2 test passed: regular grammars have one-character left sides. */
  lemma RegularIsContextFree(g: Grammar)
    ensures Classification(g) == "Type 3" ==> SingleLeftSides(g)
  {
  }

  /*
   * ---------------------------------------------------- toFiniteAutomaton
   */

  /** The edge label of a rule: its first character for a two-character rule, else the whole rule. */
  function RuleSymbol(rule: string): string {
    if |rule| == 2 then [rule[0]] else rule
  }

  /** The edge target of a rule: its second character for a two-character rule, else the sink "F". */
  function RuleTarget(rule: string): string {
    if |rule| == 2 then [rule[1]] else "F"
  }

  /** The (state, label) cell a rule under `left` is appended to; a longer left side `XY...` uses `X`, `Y`. */
  function RuleCell(left: string, rule: string): (string, string) {
    if |left| > 1 then ([left[0]], [left[1]]) else (left, RuleSymbol(rule))
  }

  /** `transitions[x]`, `{}` when absent. */
  function Row(t: Transitions, x: string): map<string, seq<string>> {
    if x in t then t[x] else map[]
  }

  /** `transitions[x][y]`, `[]` when absent. */
  function Cell(t: Transitions, x: string, y: string): seq<string> {
    if x in t && y in t[x] then t[x][y] else []
  }

  /** One iteration of the inner loop, or the TypeError of `transitions[left][symbol]` on a missing row. */
  function AddRule(t: Transitions, left: string, rule: string): Result<Transitions> {
    var t1 := if |rule| == 2 then t else t["F" := Row(t, "F")[rule := []]];
    var (x, y) := RuleCell(left, rule);
    if |left| <= 1 && left !in t1 then Err("TypeError: Cannot read properties of undefined")
    else Ok(t1[x := Row(t1, x)[y := Cell(t1, x, y) + [RuleTarget(rule)]]])
  }

  function AddRulePair(t: Transitions, rule: Rule): Result<Transitions> {
    AddRule(t, rule.0, rule.1)
  }

  /** The transitions after applying `rules` in order to `t`. */
  function AddRules(t: Transitions, rules: seq<Rule>): Result<Transitions> {
    Fold(AddRulePair, t, rules)
  }

  lemma AddRulesLast(t: Transitions, rules: seq<Rule>)
    requires |rules| > 0
    ensures AddRules(t, rules) ==
      match AddRules(t, rules[..|rules| - 1])
      case Err(e) => Err(e)
      case Ok(t') => AddRule(t', rules[|rules| - 1].0, rules[|rules| - 1].1)
  {
  }

  /** `Q = new Set([...nonTerminals, "F"])`. */
  function AutomatonStates(g: Grammar): seq<string> {
    Dedup(g.nonTerminals + ["F"])
  }

  /** Every state starts with an empty row. */
  function EmptyRows(states: seq<string>): Transitions {
    map q | q in states :: map[]
  }

  /** The automaton `toFiniteAutomaton` returns, or the error it throws. */
  function AutomatonOf(g: Grammar): Result<FiniteAutomaton> {
    match AddRules(EmptyRows(AutomatonStates(g)), RulesOf(g.productions, g.productions.keys))
    case Err(e) => Err(e)
    case Ok(t) => Ok(NewFiniteAutomaton(AutomatonStates(g), g.terminals, t, g.startSymbol, g.finalStates))
  }

  /** `toFiniteAutomaton()`. */
  method ToFiniteAutomaton(g: Grammar) returns (r: Result<FiniteAutomaton>)
    ensures r == AutomatonOf(g)
  {
    var q := AutomatonStates(g);
    var t0 := EmptyRows(q);
    var transitions := t0;
    var keys := g.productions.keys;
    assert AddRules(t0, RulesOf(g.productions, keys[..0])) == Ok(transitions);
    hide Fold, RulesOf, RulesUnder, Dedup, AutomatonStates, EmptyRows, NewFiniteAutomaton, AddRule;
    for i := 0 to |keys|
      invariant AddRules(t0, RulesOf(g.productions, keys[..i])) == Ok(transitions)
    {
      var left := keys[i];
      var rules := Rights(g, left);
      RulesOfNext(g.productions, keys, i);
      for j := 0 to |rules|
        invariant AddRules(t0, RulesOf(g.productions, keys[..i]) + RulesUnder(g.productions, left)[..j]) == Ok(transitions)
      {
        var next := ApplyRule(transitions, left, rules[j]);
        if next.Err? {
          FoldFails(AddRulePair, g.productions, t0, keys, i, j, transitions);
          return Err(next.error);
        }
        FoldStep(AddRulePair, g.productions, t0, keys, i, j, transitions, next.value);
        transitions := next.value;
      }
    }
    assert keys[..|keys|] == keys;
    r := Ok(NewFiniteAutomaton(q, g.terminals, transitions, g.startSymbol, g.finalStates));
  }

  /** The body of the inner loop of `toFiniteAutomaton` for one rule under `left`. */
  method ApplyRule(transitions: Transitions, left: string, rule: string) returns (r: Result<Transitions>)
    ensures r == AddRule(transitions, left, rule)
  {
    var t := transitions;
    var symbol, nextState;
    if |rule| == 2 {
      symbol, nextState := [rule[0]], [rule[1]];
    } else {
      symbol, nextState := rule, "F";
      t := t["F" := Row(t, "F")[rule := []]];
    }
    if |left| > 1 {
      var x, y := [left[0]], [left[1]];
      t := t[x := Row(t, x)[y := Cell(t, x, y) + [nextState]]];
    } else {
      if left !in t {
        return Err("TypeError: Cannot read properties of undefined");
      }
      t := t[left := t[left][symbol := Cell(t, left, symbol) + [nextState]]];
    }
    return Ok(t);
  }

  /*
   * ----------------------------------------------- what the fold builds
   */

  /** The targets the rules append to cell (`x`, `y`), in order. */
  function CellTargets(rules: seq<Rule>, x: string, y: string): (ts: seq<string>)
    ensures forall q :: q in ts <==>
      exists k :: 0 <= k < |rules| && RuleCell(rules[k].0, rules[k].1) == (x, y) && RuleTarget(rules[k].1) == q
  {
    if |rules| == 0 then [] else
      var front := rules[..|rules| - 1];
      var (l, r) := rules[|rules| - 1];
      assert forall k :: 0 <= k < |front| ==> front[k] == rules[k];
      CellTargets(front, x, y) + (if RuleCell(l, r) == (x, y) then [RuleTarget(r)] else [])
  }

  /** The rows a left side of two or more characters creates. */
  function NewRows(rules: seq<Rule>): (rows: set<string>)
    ensures forall x :: x in rows <==> exists k :: 0 <= k < |rules| && |rules[k].0| > 1 && [rules[k].0[0]] == x
  {
    if |rules| == 0 then {} else
      var front := rules[..|rules| - 1];
      var l := rules[|rules| - 1].0;
      assert forall k :: 0 <= k < |front| ==> front[k] == rules[k];
      NewRows(front) + (if |l| > 1 then {[l[0]]} else {})
  }

  /** The labels of the sink row "F": every rule that is not two characters long. */
  function SinkLabels(rules: seq<Rule>): (labels: set<string>)
    ensures forall y :: y in labels <==> exists k :: 0 <= k < |rules| && |rules[k].1| != 2 && rules[k].1 == y
  {
    if |rules| == 0 then {} else
      var front := rules[..|rules| - 1];
      var r := rules[|rules| - 1].1;
      assert forall k :: 0 <= k < |front| ==> front[k] == rules[k];
      SinkLabels(front) + (if |r| != 2 then {r} else {})
  }

  /** Rule `k` is the first to throw: a one-character left side that is neither a state nor a created row. */
  predicate Throws(t0: Transitions, rules: seq<Rule>, k: int) {
    0 <= k < |rules| && |rules[k].0| <= 1 && rules[k].0 !in t0 && rules[k].0 !in NewRows(rules[..k])
  }

  /** The table the conversion starts from: every state has an empty row, and the sink is a state. */
  predicate FreshTable(t0: Transitions) {
    "F" in t0 && forall q :: q in t0 ==> t0[q] == map[]
  }

  /** The conversion throws exactly when some rule's one-character left side has no row yet. */
  lemma {:induction false} AddRulesThrows(t0: Transitions, rules: seq<Rule>)
    requires FreshTable(t0)
    ensures AddRules(t0, rules).Err? <==> exists k :: Throws(t0, rules, k)
    ensures AddRules(t0, rules).Ok? ==> AddRules(t0, rules).value.Keys == t0.Keys + NewRows(rules)
    decreases |rules|
  {
    if |rules| > 0 {
      var front := rules[..|rules| - 1];
      AddRulesThrows(t0, front);
      AddRulesThrowsStep(t0, rules, front);
    }
  }

  /** The step of `AddRulesThrows`: from the front of the rules to all of them. */
  lemma AddRulesThrowsStep(t0: Transitions, rules: seq<Rule>, front: seq<Rule>)
    requires FreshTable(t0) && |rules| > 0 && front == rules[..|rules| - 1]
    requires AddRules(t0, front).Err? <==> exists k :: Throws(t0, front, k)
    requires AddRules(t0, front).Ok? ==> AddRules(t0, front).value.Keys == t0.Keys + NewRows(front)
    ensures AddRules(t0, rules).Err? <==> exists k :: Throws(t0, rules, k)
    ensures AddRules(t0, rules).Ok? ==> AddRules(t0, rules).value.Keys == t0.Keys + NewRows(rules)
  {
    AddRulesLast(t0, rules);
    ThrowsFront(t0, rules);
    hide AddRule, AddRules, Fold, Throws, NewRows, FreshTable;
    if AddRules(t0, front).Err? {
      var k :| Throws(t0, front, k);
      assert Throws(t0, rules, k);
    } else {
      LastRuleThrows(t0, rules, front, AddRules(t0, front).value);
    }
  }

  /** The step of `AddRulesThrows` when the front went through. */
  lemma LastRuleThrows(t0: Transitions, rules: seq<Rule>, front: seq<Rule>, t: Transitions)
    requires |rules| > 0 && front == rules[..|rules| - 1] && "F" in t0
    requires AddRules(t0, front) == Ok(t)
    requires t.Keys == t0.Keys + NewRows(front)
    requires !exists k :: Throws(t0, front, k)
    requires AddRules(t0, rules) == AddRule(t, rules[|front|].0, rules[|front|].1)
    requires forall k :: Throws(t0, rules, k) ==> 0 <= k <= |front|
    requires forall k :: 0 <= k < |front| ==> (Throws(t0, rules, k) <==> Throws(t0, front, k))
    requires var l := rules[|front|].0;
      && (Throws(t0, rules, |front|) <==> |l| <= 1 && l !in t0 && l !in NewRows(front))
      && NewRows(rules) == NewRows(front) + (if |l| > 1 then {[l[0]]} else {})
    ensures AddRules(t0, rules).Err? <==> exists k :: Throws(t0, rules, k)
    ensures AddRules(t0, rules).Ok? ==> AddRules(t0, rules).value.Keys == t0.Keys + NewRows(rules)
  {
    hide AddRule, AddRules, Fold, Throws, NewRows;
    var l := rules[|front|].0;
    AddRuleKeys(t, l, rules[|front|].1);
    if exists k :: Throws(t0, rules, k) {
      var k :| Throws(t0, rules, k);
      if k < |front| {
        assert false;
      }
    }
  }

  /** Rule `k` of the front throws in the longer list exactly when it throws in the front. */
  lemma ThrowsFront(t0: Transitions, rules: seq<Rule>)
    requires |rules| > 0 && FreshTable(t0)
    ensures var front := rules[..|rules| - 1];
      && "F" in t0
      && (forall k :: Throws(t0, rules, k) ==> 0 <= k <= |front|)
      && (forall k :: Throws(t0, front, k) ==> 0 <= k < |front|)
      && (forall k :: 0 <= k < |front| ==> (Throws(t0, rules, k) <==> Throws(t0, front, k)))
      && (Throws(t0, rules, |front|) <==>
            |rules[|front|].0| <= 1 && rules[|front|].0 !in t0 && rules[|front|].0 !in NewRows(front))
      && NewRows(rules) == NewRows(front) + (if |rules[|front|].0| > 1 then {[rules[|front|].0[0]]} else {})
  {
    var front := rules[..|rules| - 1];
    forall k | 0 <= k < |front|
      ensures Throws(t0, rules, k) <==> Throws(t0, front, k)
    {
      assert rules[..k] == front[..k];
    }
    assert rules[..|front|] == front;
  }

  /** One rule throws exactly on a missing one-character row, and otherwise adds the row its cell names. */
  lemma AddRuleKeys(t: Transitions, l: string, r: string)
    requires "F" in t
    ensures AddRule(t, l, r).Err? <==> |l| <= 1 && l !in t
    ensures AddRule(t, l, r).Ok? ==> AddRule(t, l, r).value.Keys == t.Keys + (if |l| > 1 then {[l[0]]} else {})
  {
  }

  /** Every cell outside the sink row lists the targets of the rules that address it, in rule order. */
  lemma {:induction false} AddRulesCells(t0: Transitions, rules: seq<Rule>, x: string, y: string)
    requires FreshTable(t0) && x != "F"
    requires AddRules(t0, rules).Ok?
    ensures Cell(AddRules(t0, rules).value, x, y) == CellTargets(rules, x, y)
    ensures x in AddRules(t0, rules).value ==>
      (y in AddRules(t0, rules).value[x] <==> CellTargets(rules, x, y) != [])
    decreases |rules|
  {
    if |rules| > 0 {
      var front := rules[..|rules| - 1];
      AddRulesLast(t0, rules);
      AddRulesCells(t0, front, x, y);
    }
  }

  /** A rule that is not two characters long empties the sink cell under its own text first. */
  predicate Resets(rule: Rule, y: string) {
    |rule.1| != 2 && rule.1 == y
  }

  /** Where the sink cell under `y` was last emptied: the last rule that `Resets` it, or 0 when none does. */
  function SinkStart(rules: seq<Rule>, y: string): (s: nat)
    ensures s <= |rules|
  {
    if |rules| == 0 then 0
    else if Resets(rules[|rules| - 1], y) then |rules| - 1
    else SinkStart(rules[..|rules| - 1], y)
  }

  /** `SinkStart` is the last resetting rule, and 0 when there is none. */
  lemma {:induction false} SinkStartLast(rules: seq<Rule>, y: string)
    ensures forall k :: SinkStart(rules, y) < k < |rules| ==> !Resets(rules[k], y)
    ensures (exists k :: 0 <= k < |rules| && Resets(rules[k], y)) ==> Resets(rules[SinkStart(rules, y)], y)
    ensures (forall k :: 0 <= k < |rules| ==> !Resets(rules[k], y)) ==> SinkStart(rules, y) == 0
    decreases |rules|
  {
    if |rules| > 0 && !Resets(rules[|rules| - 1], y) {
      var front := rules[..|rules| - 1];
      SinkStartLast(front, y);
      assert forall k :: 0 <= k < |front| ==> front[k] == rules[k];
    }
  }

  /**
   * The sink row "F" for any rules: the cell under `y` exists iff some rule
   * empties it or appends to it, and it lists the targets appended to it
   * since it was last emptied, in rule order; the emptying rule's own target
   * counts when that rule addresses the cell.
   */
  lemma {:induction false} AddRulesSinkCell(t0: Transitions, rules: seq<Rule>, y: string)
    requires FreshTable(t0)
    requires AddRules(t0, rules).Ok?
    ensures "F" in AddRules(t0, rules).value
    ensures y in AddRules(t0, rules).value["F"] <==> y in SinkLabels(rules) || CellTargets(rules, "F", y) != []
    ensures Cell(AddRules(t0, rules).value, "F", y) == CellTargets(rules[SinkStart(rules, y)..], "F", y)
    decreases |rules|
  {
    AddRulesThrows(t0, rules);
    if |rules| > 0 {
      var front, last := rules[..|rules| - 1], rules[|rules| - 1];
      AddRulesLast(t0, rules);
      AddRulesThrows(t0, front);
      AddRulesSinkCell(t0, front, y);
      SinkCellStep(rules, y);
      AddRuleSinkCell(AddRules(t0, front).value, last.0, last.1, y);
      hide AddRule, AddRules, Fold, AddRulePair;
      assert CellTargets(rules, "F", y) == CellTargets(front, "F", y) +
        (if RuleCell(last.0, last.1) == ("F", y) then [RuleTarget(last.1)] else []);
      assert SinkLabels(rules) == SinkLabels(front) + (if |last.1| != 2 then {last.1} else {});
    }
  }

  /** One rule's effect on the sink cell under `y`: emptied when the rule `Resets` it, then appended to when addressed. */
  lemma AddRuleSinkCell(t: Transitions, l: string, r: string, y: string)
    requires "F" in t && AddRule(t, l, r).Ok?
    ensures var t' := AddRule(t, l, r).value;
      && "F" in t'
      && (y in t'["F"] <==> Resets((l, r), y) || y in t["F"] || RuleCell(l, r) == ("F", y))
      && Cell(t', "F", y) ==
           (if Resets((l, r), y) then [] else Cell(t, "F", y)) + (if RuleCell(l, r) == ("F", y) then [RuleTarget(r)] else [])
  {
  }

  /** The cells' targets since the last reset, one rule further. */
  lemma SinkCellStep(rules: seq<Rule>, y: string)
    requires |rules| > 0
    ensures var front, last := rules[..|rules| - 1], rules[|rules| - 1];
      var pushed := if RuleCell(last.0, last.1) == ("F", y) then [RuleTarget(last.1)] else [];
      CellTargets(rules[SinkStart(rules, y)..], "F", y) ==
        (if Resets(last, y) then [] else CellTargets(front[SinkStart(front, y)..], "F", y)) + pushed
  {
    var front, last := rules[..|rules| - 1], rules[|rules| - 1];
    if Resets(last, y) {
      assert rules[SinkStart(rules, y)..] == [last];
      assert [last][..0] == [];
    } else {
      var s := SinkStart(front, y);
      assert rules[s..] == front[s..] + [last];
      assert (front[s..] + [last])[..|rules| - s - 1] == front[s..];
    }
  }

  /**
   * The special case where no rule addresses the sink row: it holds an empty
   * list for every label of a one-symbol or empty rule.
   */
  lemma AddRulesSink(t0: Transitions, rules: seq<Rule>)
    requires FreshTable(t0)
    requires AddRules(t0, rules).Ok?
    ensures "F" in AddRules(t0, rules).value
    ensures forall y :: y in AddRules(t0, rules).value["F"] <==> y in SinkLabels(rules) || CellTargets(rules, "F", y) != []
    ensures forall y :: Cell(AddRules(t0, rules).value, "F", y) == CellTargets(rules[SinkStart(rules, y)..], "F", y)
    ensures (forall k :: 0 <= k < |rules| ==> RuleCell(rules[k].0, rules[k].1).0 != "F") ==>
      AddRules(t0, rules).value["F"] == map y | y in SinkLabels(rules) :: []
  {
    AddRulesThrows(t0, rules);
    var t := AddRules(t0, rules).value;
    hide AddRules, Fold, AddRulePair, CellTargets, SinkStart, SinkLabels;
    forall y ensures y in t["F"] <==> y in SinkLabels(rules) || CellTargets(rules, "F", y) != []
      ensures Cell(t, "F", y) == CellTargets(rules[SinkStart(rules, y)..], "F", y)
    {
      AddRulesSinkCell(t0, rules, y);
    }
    if forall k :: 0 <= k < |rules| ==> RuleCell(rules[k].0, rules[k].1).0 != "F" {
      forall y ensures CellTargets(rules, "F", y) == [] && CellTargets(rules[SinkStart(rules, y)..], "F", y) == [] {
        NoSinkAddress(rules, y);
        SuffixNoSinkAddress(rules, y);
      }
      EmptyRow(t["F"], SinkLabels(rules));
    }
  }

  lemma EmptyRow(row: map<string, seq<string>>, labels: set<string>)
    requires forall y :: y in row <==> y in labels
    requires forall y :: y in row ==> row[y] == []
    ensures row == map y | y in labels :: []
  {
    var target: map<string, seq<string>> := map y | y in labels :: [];
    assert row.Keys == target.Keys;
  }

  /** With no rule addressing the sink row, nothing is appended to it after its last reset. */
  lemma SuffixNoSinkAddress(rules: seq<Rule>, y: string)
    requires forall k :: 0 <= k < |rules| ==> RuleCell(rules[k].0, rules[k].1).0 != "F"
    ensures CellTargets(rules[SinkStart(rules, y)..], "F", y) == []
  {
    hide CellTargets, SinkStart;
    var start := SinkStart(rules, y);
    var tail := rules[start..];
    forall k | 0 <= k < |tail| ensures RuleCell(tail[k].0, tail[k].1).0 != "F" {
      assert tail[k] == rules[start + k];
    }
    NoSinkAddress(tail, y);
  }

  /** With no rule addressing the sink row, no target is ever appended to it. */
  lemma {:induction false} NoSinkAddress(rules: seq<Rule>, y: string)
    requires forall k :: 0 <= k < |rules| ==> RuleCell(rules[k].0, rules[k].1).0 != "F"
    ensures CellTargets(rules, "F", y) == []
    decreases |rules|
  {
    if |rules| > 0 {
      NoSinkAddress(rules[..|rules| - 1], y);
    }
  }

  /** The rules of the grammar, in the order the conversion visits them. */
  function Rules(g: Grammar): seq<Rule> {
    RulesOf(g.productions, g.productions.keys)
  }

  /** `toFiniteAutomaton` throws exactly when a one-character left side is neither a state nor a row made earlier. */
  lemma AutomatonOfFails(g: Grammar)
    ensures AutomatonOf(g).Err? <==>
      exists k :: 0 <= k < |Rules(g)| && |Rules(g)[k].0| <= 1 && Rules(g)[k].0 !in g.nonTerminals &&
                  Rules(g)[k].0 != "F" && Rules(g)[k].0 !in NewRows(Rules(g)[..k])
  {
    var rules := Rules(g);
    var t0 := EmptyRows(AutomatonStates(g));
    assert forall q :: q in t0 <==> q in g.nonTerminals + ["F"];
    AddRulesThrows(t0, rules);
    if AutomatonOf(g).Err? {
      var k :| Throws(t0, rules, k);
      assert rules[k].0 !in g.nonTerminals + ["F"];
    } else if k :| 0 <= k < |rules| && |rules[k].0| <= 1 && rules[k].0 !in g.nonTerminals &&
                   rules[k].0 != "F" && rules[k].0 !in NewRows(rules[..k]) {
      assert Throws(t0, rules, k);
    }
  }

  /** The automaton `toFiniteAutomaton` returns: its states, its rows and its transition lists. */
  lemma AutomatonOfBuilds(g: Grammar)
    requires AutomatonOf(g).Ok?
    ensures forall q :: q in AutomatonOf(g).value.states <==> q in g.nonTerminals || q == "F"
    ensures AutomatonOf(g).value.alphabet == Dedup(g.terminals)
    ensures AutomatonOf(g).value.initialState == g.startSymbol && AutomatonOf(g).value.finalStates == g.finalStates
    ensures forall x :: x in AutomatonOf(g).value.transitions <==>
      x in g.nonTerminals || x == "F" || x in NewRows(Rules(g))
    ensures forall x, y :: x != "F" ==> Cell(AutomatonOf(g).value.transitions, x, y) == CellTargets(Rules(g), x, y)
    ensures forall y :: Cell(AutomatonOf(g).value.transitions, "F", y) == CellTargets(Rules(g)[SinkStart(Rules(g), y)..], "F", y)
  {
    var rules := Rules(g);
    var t0 := EmptyRows(AutomatonStates(g));
    assert forall q :: q in t0 <==> q in g.nonTerminals + ["F"];
    AddRulesThrows(t0, rules);
    forall x, y | x != "F" ensures Cell(AutomatonOf(g).value.transitions, x, y) == CellTargets(rules, x, y) {
      AddRulesCells(t0, rules, x, y);
    }
    AddRulesSink(t0, rules);
  }

  /*
   * ------------------------------------------- the language of the automaton
   */

  /**
   * A right-linear grammar in the shape the conversion reads: nonterminals of
   * one character, none of them "F" or final; "F" final; every left side a
   * nonterminal; every rule a terminal `a`, or a terminal and a nonterminal `aB`.
   */
  ghost predicate RightLinear(g: Grammar) {
    && g.productions.Valid()
    && (forall n :: n in g.nonTerminals ==> |n| == 1 && n != "F" && n !in g.finalStates)
    && "F" in g.finalStates
    && (forall left :: left in g.productions.entries ==> left in g.nonTerminals)
    && (forall left, r :: left in g.productions.entries && r in g.productions.entries[left] ==>
          (|r| == 1 || |r| == 2) && [r[0]] in g.terminals && (|r| == 2 ==> [r[1]] in g.nonTerminals))
  }

  /** Every rule is a terminal, or a terminal followed by a nonterminal: the last conjunct of `RightLinear`. */
  ghost predicate ShapedRules(g: Grammar) {
    forall left, r :: left in g.productions.entries && r in g.productions.entries[left] ==>
      (|r| == 1 || |r| == 2) && [r[0]] in g.terminals && (|r| == 2 ==> [r[1]] in g.nonTerminals)
  }

  /** Assembles `RightLinear` from its parts. */
  lemma RightLinearFromParts(g: Grammar)
    requires g.productions.Valid()
    requires forall n :: n in g.nonTerminals ==> |n| == 1 && n != "F" && n !in g.finalStates
    requires "F" in g.finalStates
    requires forall left :: left in g.productions.entries ==> left in g.nonTerminals
    requires ShapedRules(g)
    ensures RightLinear(g)
  {
  }

  /** A rule of a right-linear grammar sits under a nonterminal and has the rule shape. */
  lemma RightLinearRule(g: Grammar, k: nat)
    requires RightLinear(g) && k < |Rules(g)|
    ensures Rules(g)[k].0 in g.nonTerminals && Rules(g)[k].0 in g.productions.entries
    ensures Rules(g)[k].1 in g.productions.entries[Rules(g)[k].0]
    ensures RuleCell(Rules(g)[k].0, Rules(g)[k].1) == (Rules(g)[k].0, RuleSymbol(Rules(g)[k].1))
  {
    RuleOfKey(g.productions, g.productions.keys, k);
  }

  /** A right-linear grammar converts without throwing. */
  lemma RightLinearConverts(g: Grammar)
    requires RightLinear(g)
    ensures AutomatonOf(g).Ok?
  {
    AutomatonOfFails(g);
    forall k | 0 <= k < |Rules(g)| ensures Rules(g)[k].0 in g.nonTerminals {
      RightLinearRule(g, k);
    }
  }

  /** A rule `c` or `cB` read as an edge: `c` goes to the sink, `cB` goes to `B`. */
  lemma RuleEdge(nonTerminals: seq<string>, r: string, c: char, t: string)
    requires (|r| == 1 || |r| == 2) && (|r| == 2 ==> [r[1]] in nonTerminals)
    requires RuleSymbol(r) == [c] && RuleTarget(r) == t
    ensures (r == [c] && t == "F") || (t in nonTerminals && r == [c] + t)
  {
    if |r| == 2 {
      assert r == [r[0]] + [r[1]];
    }
  }

  /** An edge read back as a rule: its symbol and its target. */
  lemma EdgeRule(r: string, c: char, t: string)
    requires (r == [c] && t == "F") || (|t| == 1 && r == [c] + t)
    ensures RuleSymbol(r) == [c] && RuleTarget(r) == t
  {
    if r != [c] {
      assert r[0] == c && r[1..] == t;
    }
  }

  /** A symbol is in the automaton's alphabet iff it is a terminal; the final states are the grammar's. */
  lemma BuiltLabels(g: Grammar, fa: FiniteAutomaton, a: string)
    requires AutomatonOf(g) == Ok(fa)
    ensures a in fa.alphabet <==> a in g.terminals
    ensures fa.initialState == g.startSymbol && fa.finalStates == g.finalStates
  {
  }

  /** One cell out of a state other than the sink. */
  lemma BuiltCell(g: Grammar, x: string, y: string)
    requires AutomatonOf(g).Ok? && x != "F"
    ensures Cell(AutomatonOf(g).value.transitions, x, y) == CellTargets(Rules(g), x, y)
  {
    AutomatonOfBuilds(g);
  }

  /**
   * The edges out of a nonterminal: `n --c--> F` for a rule `c`, and
   * `n --c--> B` for a rule `cB`.
   */
  lemma RightLinearCell(g: Grammar, n: string, c: char, t: string)
    requires RightLinear(g) && n in g.nonTerminals
    ensures AutomatonOf(g).Ok?
    ensures t in Cell(AutomatonOf(g).value.transitions, n, [c]) <==>
      n in g.productions.entries &&
      (([c] in g.productions.entries[n] && t == "F") || (t in g.nonTerminals && [c] + t in g.productions.entries[n]))
  {
    RightLinearConverts(g);
    BuiltCell(g, n, [c]);
    var rules := Rules(g);
    var cell := Cell(AutomatonOf(g).value.transitions, n, [c]);
    assert rules == RulesOf(g.productions, g.productions.keys);
    assert cell == CellTargets(rules, n, [c]);
    hide AutomatonOf, Rules, RulesOf, CellTargets, Cell;
    if t in cell {
      var k :| 0 <= k < |rules| && RuleCell(rules[k].0, rules[k].1) == (n, [c]) && RuleTarget(rules[k].1) == t;
      RightLinearRule(g, k);
      RuleEdge(g.nonTerminals, rules[k].1, c, t);
    }
    if n in g.productions.entries && [c] in g.productions.entries[n] && t == "F" {
      var k := RuleIndex(g.productions, g.productions.keys, n, [c]);
      EdgeRule([c], c, t);
      assert RuleCell(rules[k].0, rules[k].1) == (n, [c]) && RuleTarget(rules[k].1) == t;
    }
    if n in g.productions.entries && t in g.nonTerminals && [c] + t in g.productions.entries[n] {
      var k := RuleIndex(g.productions, g.productions.keys, n, [c] + t);
      EdgeRule([c] + t, c, t);
      assert RuleCell(rules[k].0, rules[k].1) == (n, [c]) && RuleTarget(rules[k].1) == t;
    }
  }

  /** The sink has no edges: no rule of a right-linear grammar sits under "F". */
  lemma RightLinearSink(g: Grammar, y: string)
    requires RightLinear(g)
    ensures AutomatonOf(g).Ok?
    ensures Cell(AutomatonOf(g).value.transitions, "F", y) == []
  {
    RightLinearConverts(g);
    AutomatonOfBuilds(g);
    forall k | 0 <= k < |Rules(g)| ensures RuleCell(Rules(g)[k].0, Rules(g)[k].1).0 != "F" {
      RightLinearRule(g, k);
    }
    SuffixNoSinkAddress(Rules(g), y);
  }

  /** The rules under `n` call for an edge `n --c--> t`: a rule `c` with `t` the sink, or a rule `ct`. */
  predicate RuleForEdge(productions: Dict<seq<string>>, nonTerminals: seq<string>, n: string, c: char, t: string) {
    n in productions.entries &&
    (([c] in productions.entries[n] && t == "F") || (t in nonTerminals && [c] + t in productions.entries[n]))
  }

  /**
   * An automaton that reads the right-linear productions `productions` over
   * `nonTerminals` and `terminals`: its alphabet is the terminals, the sink "F"
   * is final and has no edges, no nonterminal is final, and the edges out of a
   * nonterminal are exactly those its rules call for.
   */
  ghost predicate ReadsRightLinear(fa: FiniteAutomaton, productions: Dict<seq<string>>,
                                   nonTerminals: seq<string>, terminals: seq<string>) {
    && (forall a :: a in fa.alphabet <==> a in terminals)
    && "F" in fa.finalStates
    && (forall n :: n in nonTerminals ==> n !in fa.finalStates)
    && (forall y :: Cell(fa.transitions, "F", y) == [])
    && (forall n, c: char, t :: n in nonTerminals ==>
          (t in Cell(fa.transitions, n, [c]) <==> RuleForEdge(productions, nonTerminals, n, c, t)))
  }

  lemma ReadsFromParts(fa: FiniteAutomaton, productions: Dict<seq<string>>,
                       nonTerminals: seq<string>, terminals: seq<string>)
    requires forall a :: a in fa.alphabet <==> a in terminals
    requires "F" in fa.finalStates
    requires forall n :: n in nonTerminals ==> n !in fa.finalStates
    requires forall y :: Cell(fa.transitions, "F", y) == []
    requires forall n, c: char, t :: n in nonTerminals ==>
      (t in Cell(fa.transitions, n, [c]) <==> RuleForEdge(productions, nonTerminals, n, c, t))
    ensures ReadsRightLinear(fa, productions, nonTerminals, terminals)
  {
  }

  /** The last character: an edge into a final state is a rule `c`. */
  lemma ReadLast(fa: FiniteAutomaton, productions: Dict<seq<string>>, nonTerminals: seq<string>,
                 terminals: seq<string>, w: string, q: string)
    requires ReadsRightLinear(fa, productions, nonTerminals, terminals) && q in nonTerminals && |w| > 0
    ensures FiniteAutomata.NfaRun(fa, w, |w| - 1, q) <==> Derives(productions, nonTerminals, terminals, q, w, |w| - 1)
  {
    var i := |w| - 1;
    var c := w[i];
    DerivesLast(productions, nonTerminals, terminals, q, w);
    hide Derives;
    if FiniteAutomata.NfaRun(fa, w, i, q) {
      var t := FiniteAutomata.RunLeaves(fa, w, i, q);
      assert t in Cell(fa.transitions, q, [c]) && t !in nonTerminals;
    }
    if Derives(productions, nonTerminals, terminals, q, w, i) {
      assert "F" in Cell(fa.transitions, q, [c]);
      FiniteAutomata.RunEnters(fa, w, i, q, "F");
    }
  }

  /** An earlier character: an edge into a nonterminal is a rule `cB`, and the sink has no way on. */
  lemma ReadMiddle(fa: FiniteAutomaton, productions: Dict<seq<string>>, nonTerminals: seq<string>,
                   terminals: seq<string>, w: string, i: nat, q: string)
    requires ReadsRightLinear(fa, productions, nonTerminals, terminals) && q in nonTerminals && i < |w| - 1
    requires forall m :: m in nonTerminals ==>
      (FiniteAutomata.NfaRun(fa, w, i + 1, m) <==> Derives(productions, nonTerminals, terminals, m, w, i + 1))
    ensures FiniteAutomata.NfaRun(fa, w, i, q) <==> Derives(productions, nonTerminals, terminals, q, w, i)
  {
    var c := w[i];
    if FiniteAutomata.NfaRun(fa, w, i, q) {
      var t := FiniteAutomata.RunLeaves(fa, w, i, q);
      assert t in Cell(fa.transitions, q, [c]);
      assert Cell(fa.transitions, "F", [w[i + 1]]) == [];
      assert t in nonTerminals && [c] + t in productions.entries[q];
    }
    if Derives(productions, nonTerminals, terminals, q, w, i) {
      var m :| m in nonTerminals && [c] + m in productions.entries[q] &&
               Derives(productions, nonTerminals, terminals, m, w, i + 1);
      assert m in Cell(fa.transitions, q, [c]);
      FiniteAutomata.RunEnters(fa, w, i, q, m);
    }
  }

  /**
   * From a nonterminal, such an automaton has a path spelling the rest of a
   * non-empty word to a final state exactly when the productions derive it.
   */
  lemma {:induction false} ReadsAsDerives(fa: FiniteAutomaton, productions: Dict<seq<string>>,
                                          nonTerminals: seq<string>, terminals: seq<string>,
                                          w: string, i: nat, q: string)
    requires ReadsRightLinear(fa, productions, nonTerminals, terminals) && q in nonTerminals && i < |w|
    ensures FiniteAutomata.NfaRun(fa, w, i, q) <==> Derives(productions, nonTerminals, terminals, q, w, i)
    decreases |w| - i
  {
    if i == |w| - 1 {
      ReadLast(fa, productions, nonTerminals, terminals, w, q);
    } else {
      forall m | m in nonTerminals
        ensures FiniteAutomata.NfaRun(fa, w, i + 1, m) <==> Derives(productions, nonTerminals, terminals, m, w, i + 1)
      {
        ReadsAsDerives(fa, productions, nonTerminals, terminals, w, i + 1, m);
      }
      ReadMiddle(fa, productions, nonTerminals, terminals, w, i, q);
    }
  }

  /** The automaton `toFiniteAutomaton` builds from a right-linear grammar reads its productions. */
  lemma AutomatonReads(g: Grammar, fa: FiniteAutomaton)
    requires RightLinear(g) && AutomatonOf(g) == Ok(fa)
    ensures ReadsRightLinear(fa, g.productions, g.nonTerminals, g.terminals)
  {
    hide AutomatonOf;
    BuiltLabels(g, fa, "F");
    assert "F" in g.finalStates && forall n :: n in g.nonTerminals ==> n !in g.finalStates;
    forall a ensures a in fa.alphabet <==> a in g.terminals {
      BuiltLabels(g, fa, a);
    }
    hide RightLinear;
    forall y ensures Cell(fa.transitions, "F", y) == [] {
      RightLinearSink(g, y);
    }
    forall n, c: char, t | n in g.nonTerminals
      ensures t in Cell(fa.transitions, n, [c]) <==> RuleForEdge(g.productions, g.nonTerminals, n, c, t)
    {
      RightLinearCell(g, n, c, t);
    }
    ReadsFromParts(fa, g.productions, g.nonTerminals, g.terminals);
  }

  /**
   * For a right-linear grammar whose start symbol is a nonterminal, the automaton
   * `toFiniteAutomaton` builds accepts exactly the words the grammar generates;
   * the empty word is in neither language.
   */
  lemma AutomatonLanguage(g: Grammar, w: string)
    requires RightLinear(g) && g.startSymbol in g.nonTerminals
    ensures AutomatonOf(g).Ok?
    ensures FiniteAutomata.NfaAccepts(AutomatonOf(g).value, w) <==> Generates(g, w)
  {
    RightLinearConverts(g);
    AutomatonReads(g, AutomatonOf(g).value);
    BuiltLabels(g, AutomatonOf(g).value, "");
    if |w| > 0 {
      ReadsAsDerives(AutomatonOf(g).value, g.productions, g.nonTerminals, g.terminals, w, 0, g.startSymbol);
    }
  }

  /** The regular grammar of lab2/script.js:7-15. */
  function ScriptGrammar(): Grammar {
    Grammar(["S", "A", "B", "C"], ["a", "b", "c"],
               Dict(["S", "A", "B", "C"], map["S" := ["bA"], "A" := ["b", "aB", "bA"], "B" := ["bC", "aB"], "C" := ["cA"]]),
               "S", {"F", ""})
  }

  lemma ScriptGrammarIsRegular()
    ensures Classification(ScriptGrammar()) == "Type 3"
  {
    var g := ScriptGrammar();
    assert NonTerminalCount(g, "bA") == 1 && NonTerminalCount(g, "aB") == 1;
    assert NonTerminalCount(g, "bC") == 1 && NonTerminalCount(g, "cA") == 1;
    forall left | left in g.productions.keys
      ensures (forall r :: r in Rights(g, left) ==> RegularRight(g, r)) && !MixesSides(g, left)
    {
    }
  }

  /** The script's grammar has the right-linear shape, so its automaton accepts exactly the words it generates. */
  lemma ScriptGrammarRightLinear()
    ensures RightLinear(ScriptGrammar()) && ScriptGrammar().startSymbol in ScriptGrammar().nonTerminals
  {
    var g := ScriptGrammar();
    ScriptRulesShaped(g);
    RightLinearFromParts(g);
  }

  /** The script's automaton accepts exactly the words its grammar derives from "S". */
  lemma ScriptGrammarLanguage()
    ensures AutomatonOf(ScriptGrammar()).Ok?
    ensures forall w :: FiniteAutomata.NfaAccepts(AutomatonOf(ScriptGrammar()).value, w) <==>
      Generates(ScriptGrammar(), w)
  {
    ScriptGrammarRightLinear();
    hide *;
    AutomatonLanguage(ScriptGrammar(), "");
    forall w
      ensures FiniteAutomata.NfaAccepts(AutomatonOf(ScriptGrammar()).value, w) <==>
        Generates(ScriptGrammar(), w)
    {
      AutomatonLanguage(ScriptGrammar(), w);
    }
  }

  /** The rules of the script's grammar have the right-linear shape. */
  lemma ScriptRulesShaped(g: Grammar)
    requires g == ScriptGrammar()
    ensures ShapedRules(g)
  {
    forall left, r | left in g.productions.entries && r in g.productions.entries[left]
      ensures (|r| == 1 || |r| == 2) && [r[0]] in g.terminals && (|r| == 2 ==> [r[1]] in g.nonTerminals)
    {
      assert left == "S" || left == "A" || left == "B" || left == "C";
      ScriptRuleShape(r);
    }
  }

  /** Each right side of the script's grammar is a terminal, or a terminal followed by a nonterminal. */
  lemma ScriptRuleShape(r: string)
    requires r in ["bA", "b", "aB", "bC", "cA"]
    ensures (|r| == 1 || |r| == 2) && [r[0]] in ["a", "b", "c"] && (|r| == 2 ==> [r[1]] in ["S", "A", "B", "C"])
  {
  }

  /** A regular verdict does not imply the type-1 test passed: an empty rule under a non-start symbol. */
  lemma RegularNeedNotBeNonContracting()
    ensures var g := Grammar(["S", "A"], ["a"], Dict(["S", "A"], map["S" := ["aA"], "A" := [""]]), "S", {});
      Classification(g) == "Type 3" && !NonContracting(g)
  {
    var g := Grammar(["S", "A"], ["a"], Dict(["S", "A"], map["S" := ["aA"], "A" := [""]]), "S", {});
    assert NonTerminalCount(g, "aA") == 1;
    assert Rights(g, "A") == [""];
    assert !NonContractingRule(g, "A", "");
  }
}

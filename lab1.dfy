/**
 * The first grammar-to-automaton conversion, lab1/Grammar.js. Unlike the
 * later one it keeps no final-state set (the automaton's is always {"F"}),
 * it has no case for longer left sides, and it stores `{}` rather than `[]`
 * for a rule without a successor, so a later push onto that cell throws.
 */
module RegularGrammars {
  import opened Wrappers
  import opened Seqs
  import opened Dicts
  import opened Formal
  import opened ProductionRules
  import Grammars
  import FiniteAutomata

  datatype RegularGrammar = RegularGrammar(
    nonTerminals: seq<string>,   // a `Set`, in insertion order
    terminals: seq<string>,      // a `Set`, in insertion order
    productions: Dict<seq<string>>,
    startSymbol: string)

  /** `new Grammar(nonTerminals, terminals, productions, startSymbol)`. */
  function NewRegularGrammar(nonTerminals: seq<string>, terminals: seq<string>, productions: Dict<seq<string>>,
                             startSymbol: string): (g: RegularGrammar)
    ensures NoDup(g.nonTerminals) && forall n :: n in g.nonTerminals <==> n in nonTerminals
    ensures NoDup(g.terminals) && forall t :: t in g.terminals <==> t in terminals
    ensures NoDup(nonTerminals) ==> g.nonTerminals == nonTerminals
    ensures NoDup(terminals) ==> g.terminals == terminals
    ensures g.productions == productions && g.startSymbol == startSymbol
  {
    RegularGrammar(Dedup(nonTerminals), Dedup(terminals), productions, startSymbol)
  }

  /** A cell of the table under construction: a target list, or the empty object `{}`. */
  datatype Entry = List(targets: seq<string>) | EmptyObject

  type Table = map<string, map<string, Entry>>

  const PushOnObject := "TypeError: transitions[left][symbol].push is not a function"
  const MissingRow := "TypeError: Cannot read properties of undefined"

  /** One iteration of the inner loop. */
  function Step(t: Table, rule: Rule): Result<Table> {
    var (left, r) := rule;
    var t1 := if |r| == 2 then t else t["F" := (if "F" in t then t["F"] else map[])[r := EmptyObject]];
    var symbol := Grammars.RuleSymbol(r);
    var next := Grammars.RuleTarget(r);
    if left !in t1 then Err(MissingRow)
    else if symbol !in t1[left] then Ok(t1[left := t1[left][symbol := List([next])]])
    else match t1[left][symbol]
      case EmptyObject => Err(PushOnObject)
      case List(ts) => Ok(t1[left := t1[left][symbol := List(ts + [next])]])
  }

  function States(g: RegularGrammar): seq<string> {
    Dedup(g.nonTerminals + ["F"])
  }

  function EmptyTable(states: seq<string>): Table {
    map q | q in states :: map[]
  }

  /** The automaton reads a cell by its length and its elements; `{}` reads like `[]`. */
  function Lists(t: Table): Transitions {
    map x | x in t :: map y | y in t[x] :: if t[x][y].List? then t[x][y].targets else []
  }

  /** The automaton `toFiniteAutomaton` returns, or the error it throws. */
  function AutomatonOf(g: RegularGrammar): Result<FiniteAutomaton> {
    match Fold(Step, EmptyTable(States(g)), RulesOf(g.productions, g.productions.keys))
    case Err(e) => Err(e)
    case Ok(t) => Ok(NewFiniteAutomaton(States(g), g.terminals, Lists(t), g.startSymbol, {"F"}))
  }

  /** `toFiniteAutomaton()`. */
  method ToFiniteAutomaton(g: RegularGrammar) returns (r: Result<FiniteAutomaton>)
    ensures r == AutomatonOf(g)
  {
    var q := States(g);
    var t0 := EmptyTable(q);
    var transitions := t0;
    var keys := g.productions.keys;
    assert Fold(Step, t0, RulesOf(g.productions, keys[..0])) == Ok(transitions);
    hide Fold, RulesOf, RulesUnder, Dedup, States, EmptyTable, Lists, NewFiniteAutomaton, Step;
    for i := 0 to |keys|
      invariant Fold(Step, t0, RulesOf(g.productions, keys[..i])) == Ok(transitions)
    {
      var left := keys[i];
      var rules := RightSides(g.productions, left);
      RulesOfNext(g.productions, keys, i);
      for j := 0 to |rules|
        invariant Fold(Step, t0, RulesOf(g.productions, keys[..i]) + RulesUnder(g.productions, left)[..j]) == Ok(transitions)
      {
        var next := ApplyRule(transitions, left, rules[j]);
        if next.Err? {
          FoldFails(Step, g.productions, t0, keys, i, j, transitions);
          return Err(next.error);
        }
        FoldStep(Step, g.productions, t0, keys, i, j, transitions, next.value);
        transitions := next.value;
      }
    }
    assert keys[..|keys|] == keys;
    r := Ok(NewFiniteAutomaton(q, g.terminals, Lists(transitions), g.startSymbol, {"F"}));
  }

  /** The body of the inner loop of `toFiniteAutomaton` for one rule under `left`. */
  method ApplyRule(transitions: Table, left: string, rule: string) returns (r: Result<Table>)
    ensures r == Step(transitions, (left, rule))
  {
    var t := transitions;
    var symbol, nextState;
    if |rule| == 2 {
      symbol, nextState := [rule[0]], [rule[1]];
    } else {
      symbol, nextState := rule, "F";
      var sink := if "F" in t then t["F"] else map[];
      t := t["F" := sink[rule := EmptyObject]];
    }
    if left !in t {
      return Err(MissingRow);
    }
    if symbol in t[left] {
      match t[left][symbol]
      case EmptyObject =>
        return Err(PushOnObject);
      case List(ts) =>
        t := t[left := t[left][symbol := List(ts + [nextState])]];
    } else {
      t := t[left := t[left][symbol := List([nextState])]];
    }
    return Ok(t);
  }

  /*
   * ------------------------------------------------- what the fold builds
   */

  /** The targets the rules append to cell (`x`, `y`), in order. */
  function Targets(rules: seq<Rule>, x: string, y: string): (ts: seq<string>)
    ensures forall q :: q in ts <==>
      (exists k :: 0 <= k < |rules| && rules[k].0 == x &&
                   Grammars.RuleSymbol(rules[k].1) == y && Grammars.RuleTarget(rules[k].1) == q)
  {
    if |rules| == 0 then [] else
      var front := rules[..|rules| - 1];
      var (l, r) := rules[|rules| - 1];
      assert forall k :: 0 <= k < |front| ==> front[k] == rules[k];
      Targets(front, x, y) + (if l == x && Grammars.RuleSymbol(r) == y then [Grammars.RuleTarget(r)] else [])
  }

  lemma StepsLast(t: Table, rules: seq<Rule>)
    requires |rules| > 0
    ensures Fold(Step, t, rules) ==
      match Fold(Step, t, rules[..|rules| - 1]) case Err(e) => Err(e) case Ok(t') => Step(t', rules[|rules| - 1])
  {
  }

  /** No rule is listed under the sink "F". */
  predicate NoSinkRules(rules: seq<Rule>) {
    forall k :: 0 <= k < |rules| ==> rules[k].0 != "F"
  }

  /** The rows the conversion starts from: every state has an empty row, and the sink is a state. */
  predicate FreshTable(t0: Table) {
    "F" in t0 && forall q :: q in t0 ==> t0[q] == map[]
  }

  /** `{}` only ever sits in the sink row. */
  predicate ObjectsInSink(t: Table) {
    "F" in t && forall x, y :: x in t && x != "F" && y in t[x] ==> t[x][y].List?
  }

  /** The target list in cell (`x`, `y`), empty when absent. */
  function ListAt(t: Table, x: string, y: string): seq<string> {
    if x in t && y in t[x] && t[x][y].List? then t[x][y].targets else []
  }

  /** A rule under a left side that is not a row throws. */
  lemma StepMissingRow(t: Table, rule: Rule)
    requires ObjectsInSink(t) && rule.0 !in t
    ensures Step(t, rule) == Err(MissingRow)
  {
  }

  /** A rule under a state other than the sink appends its target to its cell and resets the sink cell of its label. */
  lemma StepAppends(t: Table, rule: Rule)
    requires ObjectsInSink(t) && rule.0 != "F" && rule.0 in t
    ensures Step(t, rule).Ok?
    ensures ObjectsInSink(Step(t, rule).value) && Step(t, rule).value.Keys == t.Keys
    ensures Step(t, rule).value["F"] == if |rule.1| == 2 then t["F"] else t["F"][rule.1 := EmptyObject]
    ensures Step(t, rule).value[rule.0] ==
      t[rule.0][Grammars.RuleSymbol(rule.1) := List(ListAt(t, rule.0, Grammars.RuleSymbol(rule.1)) + [Grammars.RuleTarget(rule.1)])]
    ensures forall x :: x in t && x != "F" && x != rule.0 ==> Step(t, rule).value[x] == t[x]
  {
    var (left, r) := rule;
    var symbol := Grammars.RuleSymbol(r);
    if symbol !in t[left] {
      assert ListAt(t, left, symbol) + [Grammars.RuleTarget(r)] == [Grammars.RuleTarget(r)];
    }
  }

  lemma StepKeeps(t: Table, rule: Rule)
    requires ObjectsInSink(t) && rule.0 != "F" && rule.0 in t
    ensures Step(t, rule).Ok? && ObjectsInSink(Step(t, rule).value) && Step(t, rule).value.Keys == t.Keys
  {
    StepAppends(t, rule);
  }

  /** A rule under the sink that goes through changes the sink row only. */
  lemma StepSinkRule(t: Table, rule: Rule)
    requires ObjectsInSink(t) && rule.0 == "F"
    requires Step(t, rule).Ok?
    ensures ObjectsInSink(Step(t, rule).value) && Step(t, rule).value.Keys == t.Keys
    ensures forall x :: x in t && x != "F" ==> Step(t, rule).value[x] == t[x]
  {
  }

  /** Whatever rules are listed, even under "F", a conversion that goes through keeps the rows it started from and `{}` only in the sink row. */
  lemma {:induction false} StepsKeep(t0: Table, rules: seq<Rule>)
    requires FreshTable(t0) && Fold(Step, t0, rules).Ok?
    ensures ObjectsInSink(Fold(Step, t0, rules).value) && Fold(Step, t0, rules).value.Keys == t0.Keys
    decreases |rules|
  {
    if |rules| > 0 {
      var front := rules[..|rules| - 1];
      var last := rules[|rules| - 1];
      StepsLast(t0, rules);
      StepsKeep(t0, front);
      var t := Fold(Step, t0, front).value;
      if last.0 == "F" {
        StepSinkRule(t, last);
      } else if last.0 in t {
        StepKeeps(t, last);
      } else {
        StepMissingRow(t, last);
      }
    }
  }

  /**
   * The rule at `k` throws when the rules before it went through: its left
   * side is not a row, or it sits under the sink and its label's cell there
   * holds `{}` by then (always so for a rule that is not two characters long,
   * which writes `{}` under its own label first).
   */
  predicate Throws(rows: set<string>, rules: seq<Rule>, k: int)
    requires 0 <= k < |rules|
  {
    || rules[k].0 !in rows
    || (rules[k].0 == "F" &&
        (|rules[k].1| != 2 || Grammars.RuleSymbol(rules[k].1) in Grammars.SinkLabels(rules[..k])))
  }

  /** The labels whose sink cell holds `{}`. */
  ghost predicate SinkObjects(t: Table, labels: set<string>) {
    "F" in t && forall y :: (y in t["F"] && t["F"][y] == EmptyObject) <==> y in labels
  }

  /** One rule throws exactly as `Throws` says, and otherwise writes `{}` under its label when it is not two characters long. */
  lemma StepThrows(t: Table, rule: Rule, labels: set<string>)
    requires ObjectsInSink(t) && SinkObjects(t, labels)
    ensures Step(t, rule).Err? <==>
      rule.0 !in t || (rule.0 == "F" && (|rule.1| != 2 || Grammars.RuleSymbol(rule.1) in labels))
    ensures Step(t, rule).Ok? ==>
      SinkObjects(Step(t, rule).value, if |rule.1| != 2 then labels + {rule.1} else labels)
  {
    if rule.0 == "F" && |rule.1| == 2 && Step(t, rule).Ok? {
      var t' := Step(t, rule).value;
      var c := Grammars.RuleSymbol(rule.1);
      assert c !in labels;
      forall y ensures (y in t'["F"] && t'["F"][y] == EmptyObject) <==> y in labels {
        if y != c {
          assert (y in t'["F"] && t'["F"][y] == EmptyObject) <==> (y in t["F"] && t["F"][y] == EmptyObject);
        }
      }
    }
  }

  /**
   * The conversion throws exactly when some rule throws given the rules
   * before it, rules under "F" included; when it goes through, the sink row
   * holds `{}` under exactly the labels of the rules that are not two
   * characters long.
   */
  lemma {:induction false} StepsFail(t0: Table, rules: seq<Rule>)
    requires FreshTable(t0)
    ensures Fold(Step, t0, rules).Err? <==> exists k :: 0 <= k < |rules| && Throws(t0.Keys, rules, k)
    ensures Fold(Step, t0, rules).Ok? ==> SinkObjects(Fold(Step, t0, rules).value, Grammars.SinkLabels(rules))
    decreases |rules|
  {
    if |rules| > 0 {
      var front := rules[..|rules| - 1];
      StepsLast(t0, rules);
      StepsFail(t0, front);
      StepsFailStep(t0, rules, front);
    }
  }

  /** The step of `StepsFail`: from the front of the rules to all of them. */
  lemma StepsFailStep(t0: Table, rules: seq<Rule>, front: seq<Rule>)
    requires FreshTable(t0) && |rules| > 0 && front == rules[..|rules| - 1]
    requires Fold(Step, t0, rules) ==
      match Fold(Step, t0, front) case Err(e) => Err(e) case Ok(t') => Step(t', rules[|rules| - 1])
    requires Fold(Step, t0, front).Err? <==> exists k :: 0 <= k < |front| && Throws(t0.Keys, front, k)
    requires Fold(Step, t0, front).Ok? ==> SinkObjects(Fold(Step, t0, front).value, Grammars.SinkLabels(front))
    ensures Fold(Step, t0, rules).Err? <==> exists k :: 0 <= k < |rules| && Throws(t0.Keys, rules, k)
    ensures Fold(Step, t0, rules).Ok? ==> SinkObjects(Fold(Step, t0, rules).value, Grammars.SinkLabels(rules))
  {
    hide Step, Fold, SinkObjects;
    ThrowsFront(t0.Keys, rules, front);
    if Fold(Step, t0, front).Ok? {
      var t := Fold(Step, t0, front).value;
      var last := rules[|rules| - 1];
      StepsKeep(t0, front);
      StepThrows(t, last, Grammars.SinkLabels(front));
      assert rules[..|front|] == front;
      assert Throws(t0.Keys, rules, |front|) <==> Step(t, last).Err?;
      assert Grammars.SinkLabels(rules) ==
        if |last.1| != 2 then Grammars.SinkLabels(front) + {last.1} else Grammars.SinkLabels(front);
    }
  }

  /** A rule of the front throws in the front exactly when it throws in the whole. */
  lemma ThrowsFront(rows: set<string>, rules: seq<Rule>, front: seq<Rule>)
    requires |rules| > 0 && front == rules[..|rules| - 1]
    ensures forall k :: 0 <= k < |front| ==> (Throws(rows, front, k) <==> Throws(rows, rules, k))
  {
    forall k | 0 <= k < |front| ensures Throws(rows, front, k) <==> Throws(rows, rules, k) {
      assert front[..k] == rules[..k];
    }
  }

  /** Without rules under "F", the conversion throws exactly when some left side is not a state. */
  lemma NoSinkFails(t0: Table, rules: seq<Rule>)
    requires FreshTable(t0) && NoSinkRules(rules)
    ensures Fold(Step, t0, rules).Err? <==> exists k :: 0 <= k < |rules| && rules[k].0 !in t0
  {
    hide Step, Fold;
    StepsFail(t0, rules);
    forall k | 0 <= k < |rules| ensures Throws(t0.Keys, rules, k) <==> rules[k].0 !in t0 {
    }
  }

  /**
   * Every state's row other than the sink lists the rules' targets label by
   * label, in rule order; rules under "F" leave these rows alone.
   */
  lemma {:induction false} StepsCell(t0: Table, rules: seq<Rule>, x: string, y: string)
    requires FreshTable(t0) && x != "F" && x in t0
    requires Fold(Step, t0, rules).Ok?
    ensures ListAt(Fold(Step, t0, rules).value, x, y) == Targets(rules, x, y)
    ensures x in Fold(Step, t0, rules).value && (y in Fold(Step, t0, rules).value[x] <==> Targets(rules, x, y) != [])
    decreases |rules|
  {
    StepsKeep(t0, rules);
    if |rules| > 0 {
      var front := rules[..|rules| - 1];
      var last := rules[|rules| - 1];
      StepsLast(t0, rules);
      StepsKeep(t0, front);
      StepsCell(t0, front, x, y);
      var t := Fold(Step, t0, front).value;
      if last.0 == "F" {
        StepSinkRule(t, last);
      } else if last.0 in t {
        StepAppends(t, last);
      } else {
        StepMissingRow(t, last);
      }
    }
  }

  /**
   * One rule's effect on the sink cell of label `y`: a rule that is not two
   * characters long resets the cell of its own label to `{}`, and a rule
   * under "F" appends its target to the cell of its label.
   */
  lemma StepSinkCell(t: Table, rule: Rule, y: string)
    requires ObjectsInSink(t) && Step(t, rule).Ok?
    ensures "F" in Step(t, rule).value
    ensures y in Step(t, rule).value["F"] <==>
      y in t["F"] || (|rule.1| != 2 && y == rule.1) || (rule.0 == "F" && y == Grammars.RuleSymbol(rule.1))
    ensures ListAt(Step(t, rule).value, "F", y) ==
      if |rule.1| != 2 && y == rule.1 then []
      else if rule.0 == "F" && y == Grammars.RuleSymbol(rule.1) then ListAt(t, "F", y) + [Grammars.RuleTarget(rule.1)]
      else ListAt(t, "F", y)
  {
    if rule.0 != "F" {
      StepAppends(t, rule);
    }
  }

  /**
   * The sink row: `{}` under every label of a rule that is not two
   * characters long, and under any other label the targets of the rules
   * under "F" with that label, in rule order.
   */
  lemma {:induction false} StepsSink(t0: Table, rules: seq<Rule>, y: string)
    requires FreshTable(t0)
    requires Fold(Step, t0, rules).Ok?
    ensures "F" in Fold(Step, t0, rules).value
    ensures y in Fold(Step, t0, rules).value["F"] <==> y in Grammars.SinkLabels(rules) || Targets(rules, "F", y) != []
    ensures y in Grammars.SinkLabels(rules) ==> Fold(Step, t0, rules).value["F"][y] == EmptyObject
    ensures ListAt(Fold(Step, t0, rules).value, "F", y) ==
      if y in Grammars.SinkLabels(rules) then [] else Targets(rules, "F", y)
    decreases |rules|
  {
    StepsFail(t0, rules);
    if |rules| > 0 {
      var front := rules[..|rules| - 1];
      StepsLast(t0, rules);
      StepsSink(t0, front, y);
      StepsSinkStep(t0, rules, front, y);
    }
  }

  /** The step of `StepsSink`: from the front of the rules to all of them. */
  lemma StepsSinkStep(t0: Table, rules: seq<Rule>, front: seq<Rule>, y: string)
    requires FreshTable(t0) && |rules| > 0 && front == rules[..|rules| - 1]
    requires Fold(Step, t0, front).Ok? && Fold(Step, t0, rules) == Step(Fold(Step, t0, front).value, rules[|rules| - 1])
    requires Fold(Step, t0, rules).Ok?
    requires "F" in Fold(Step, t0, front).value
    requires y in Fold(Step, t0, front).value["F"] <==> y in Grammars.SinkLabels(front) || Targets(front, "F", y) != []
    requires ListAt(Fold(Step, t0, front).value, "F", y) ==
      if y in Grammars.SinkLabels(front) then [] else Targets(front, "F", y)
    ensures "F" in Fold(Step, t0, rules).value
    ensures y in Fold(Step, t0, rules).value["F"] <==> y in Grammars.SinkLabels(rules) || Targets(rules, "F", y) != []
    ensures ListAt(Fold(Step, t0, rules).value, "F", y) ==
      if y in Grammars.SinkLabels(rules) then [] else Targets(rules, "F", y)
  {
    var last := rules[|rules| - 1];
    var t := Fold(Step, t0, front).value;
    hide Step, Fold;
    StepsKeep(t0, front);
    StepsFail(t0, front);
    StepThrows(t, last, Grammars.SinkLabels(front));
    StepSinkCell(t, last, y);
  }

  /** The rows the conversion starts from: the nonterminals and the sink. */
  function Rows(g: RegularGrammar): set<string> {
    (set q | q in g.nonTerminals) + {"F"}
  }

  function Rules(g: RegularGrammar): seq<Rule> {
    RulesOf(g.productions, g.productions.keys)
  }

  lemma RulesAvoidSink(g: RegularGrammar)
    requires "F" !in g.productions.keys
    ensures NoSinkRules(Rules(g))
  {
    forall k | 0 <= k < |Rules(g)| ensures Rules(g)[k].0 != "F" {
      RuleOfKey(g.productions, g.productions.keys, k);
    }
  }

  /**
   * `toFiniteAutomaton` throws exactly when some rule throws given the rules
   * before it; with no rules under "F", exactly when a left side with rules
   * is not a nonterminal.
   */
  lemma AutomatonOfFails(g: RegularGrammar)
    ensures AutomatonOf(g).Err? <==>
      exists k :: 0 <= k < |Rules(g)| && Throws(Rows(g), Rules(g), k)
    ensures "F" !in g.productions.keys ==> (AutomatonOf(g).Err? <==>
      exists left :: left in g.productions.keys && RightSides(g.productions, left) != [] && left !in g.nonTerminals)
  {
    var rules := Rules(g);
    var t0 := EmptyTable(States(g));
    assert forall q :: q in t0 <==> q in g.nonTerminals + ["F"];
    assert t0.Keys == Rows(g);
    StepsFail(t0, rules);
    if "F" in g.productions.keys {
    } else if AutomatonOf(g).Err? {
      RulesAvoidSink(g);
      NoSinkFails(t0, rules);
      var k :| 0 <= k < |rules| && rules[k].0 !in t0;
      RuleOfKey(g.productions, g.productions.keys, k);
      assert rules[k].0 in g.productions.keys && RightSides(g.productions, rules[k].0) != [];
    } else if left :| left in g.productions.keys && RightSides(g.productions, left) != [] && left !in g.nonTerminals {
      RulesAvoidSink(g);
      NoSinkFails(t0, rules);
      var k := KeyRule(g.productions, g.productions.keys, left);
    }
  }

  /** The automaton's view of one cell of the table. */
  lemma ListsCell(t: Table, x: string, y: string)
    requires x in t && x != "F" && ObjectsInSink(t)
    ensures x in Lists(t)
    ensures y in Lists(t)[x] <==> y in t[x]
    ensures y in t[x] ==> Lists(t)[x][y] == ListAt(t, x, y)
  {
  }

  /**
   * The automaton: its states, alphabet, finals and rows; with no rules
   * under "F", also its sink row.
   */
  lemma AutomatonOfBuilds(g: RegularGrammar)
    requires AutomatonOf(g).Ok?
    ensures forall q :: q in AutomatonOf(g).value.states <==> q in g.nonTerminals || q == "F"
    ensures AutomatonOf(g).value.alphabet == Dedup(g.terminals)
    ensures AutomatonOf(g).value.initialState == g.startSymbol && AutomatonOf(g).value.finalStates == {"F"}
    ensures forall x :: x in AutomatonOf(g).value.transitions <==> x in g.nonTerminals || x == "F"
    ensures forall y :: y in AutomatonOf(g).value.transitions["F"] <==>
      y in Grammars.SinkLabels(Rules(g)) || Targets(Rules(g), "F", y) != []
    ensures forall y :: y in AutomatonOf(g).value.transitions["F"] ==>
      AutomatonOf(g).value.transitions["F"][y] == if y in Grammars.SinkLabels(Rules(g)) then [] else Targets(Rules(g), "F", y)
    ensures "F" !in g.productions.keys ==>
      AutomatonOf(g).value.transitions["F"] == map y | y in Grammars.SinkLabels(Rules(g)) :: []
  {
    var rules := Rules(g);
    var t0 := EmptyTable(States(g));
    assert forall q :: q in t0 <==> q in g.nonTerminals + ["F"];
    StepsKeep(t0, rules);
    var t := Fold(Step, t0, rules).value;
    assert AutomatonOf(g).value.transitions == Lists(t);
    ListsSinkRow(t0, rules);
    if "F" !in g.productions.keys {
      RulesAvoidSink(g);
      NoSinkRow(rules, Lists(t)["F"]);
    }
  }

  /** The automaton's view of the sink row. */
  lemma ListsSinkRow(t0: Table, rules: seq<Rule>)
    requires FreshTable(t0) && Fold(Step, t0, rules).Ok?
    ensures "F" in Lists(Fold(Step, t0, rules).value)
    ensures forall y :: y in Lists(Fold(Step, t0, rules).value)["F"] <==>
      y in Grammars.SinkLabels(rules) || Targets(rules, "F", y) != []
    ensures forall y :: y in Lists(Fold(Step, t0, rules).value)["F"] ==>
      Lists(Fold(Step, t0, rules).value)["F"][y] == if y in Grammars.SinkLabels(rules) then [] else Targets(rules, "F", y)
  {
    var t := Fold(Step, t0, rules).value;
    hide Fold, Step;
    forall y ensures y in Lists(t)["F"] <==> y in Grammars.SinkLabels(rules) || Targets(rules, "F", y) != []
      ensures y in Lists(t)["F"] ==> Lists(t)["F"][y] == if y in Grammars.SinkLabels(rules) then [] else Targets(rules, "F", y)
    {
      StepsSink(t0, rules, y);
    }
  }

  /** With no rules under "F", the sink row holds `[]` under exactly the labels of the rules not two characters long. */
  lemma NoSinkRow(rules: seq<Rule>, row: map<string, seq<string>>)
    requires NoSinkRules(rules)
    requires forall y :: y in row <==> y in Grammars.SinkLabels(rules) || Targets(rules, "F", y) != []
    requires forall y :: y in row ==> row[y] == if y in Grammars.SinkLabels(rules) then [] else Targets(rules, "F", y)
    ensures row == map y | y in Grammars.SinkLabels(rules) :: []
  {
    forall y ensures Targets(rules, "F", y) == [] {
      NoSinkTargets(rules, y);
    }
  }

  lemma {:induction false} NoSinkTargets(rules: seq<Rule>, y: string)
    requires NoSinkRules(rules)
    ensures Targets(rules, "F", y) == []
  {
    if |rules| > 0 {
      var front := rules[..|rules| - 1];
      assert NoSinkRules(front) by {
        forall k | 0 <= k < |front| ensures front[k].0 != "F" { assert front[k] == rules[k]; }
      }
      NoSinkTargets(front, y);
    }
  }

  /** The target list behind every edge out of a nonterminal. */
  lemma AutomatonOfEdges(g: RegularGrammar, x: string, y: string)
    requires AutomatonOf(g).Ok?
    requires x in g.nonTerminals && x != "F"
    ensures x in AutomatonOf(g).value.transitions
    ensures y in AutomatonOf(g).value.transitions[x] <==> Targets(Rules(g), x, y) != []
    ensures y in AutomatonOf(g).value.transitions[x] ==> AutomatonOf(g).value.transitions[x][y] == Targets(Rules(g), x, y)
  {
    var rules := Rules(g);
    var t0 := EmptyTable(States(g));
    assert x in t0 by {
      assert x in g.nonTerminals + ["F"];
    }
    assert FreshTable(t0) by {
      assert "F" in g.nonTerminals + ["F"];
    }
    StepsKeep(t0, rules);
    var t := Fold(Step, t0, rules).value;
    StepsCell(t0, rules, x, y);
    ListsCell(t, x, y);
  }

  /*
   * ------------------------------------------- the language of the automaton
   */

  /**
   * A right-linear grammar in the shape the conversion reads: nonterminals of
   * one character, none of them the sink "F"; every left side a nonterminal;
   * every rule a terminal `a`, or a terminal and a nonterminal `aB`.
   */
  ghost predicate RightLinear(g: RegularGrammar) {
    && g.productions.Valid()
    && (forall n :: n in g.nonTerminals ==> |n| == 1 && n != "F")
    && (forall left :: left in g.productions.entries ==> left in g.nonTerminals)
    && (forall left, r :: left in g.productions.entries && r in g.productions.entries[left] ==>
          (|r| == 1 || |r| == 2) && [r[0]] in g.terminals && (|r| == 2 ==> [r[1]] in g.nonTerminals))
  }

  /** Every rule is a terminal, or a terminal followed by a nonterminal: the last conjunct of `RightLinear`. */
  ghost predicate ShapedRules(g: RegularGrammar) {
    forall left, r :: left in g.productions.entries && r in g.productions.entries[left] ==>
      (|r| == 1 || |r| == 2) && [r[0]] in g.terminals && (|r| == 2 ==> [r[1]] in g.nonTerminals)
  }

  /** Assembles `RightLinear` from its parts. */
  lemma RightLinearFromParts(g: RegularGrammar)
    requires g.productions.Valid()
    requires forall n :: n in g.nonTerminals ==> |n| == 1 && n != "F"
    requires forall left :: left in g.productions.entries ==> left in g.nonTerminals
    requires ShapedRules(g)
    ensures RightLinear(g)
  {
  }

  /** A right-linear grammar converts without throwing. */
  lemma RightLinearConverts(g: RegularGrammar)
    requires RightLinear(g)
    ensures AutomatonOf(g).Ok?
  {
    assert "F" !in g.productions.keys;
    AutomatonOfFails(g);
  }

  /** A symbol is in the automaton's alphabet iff it is a terminal; "F" is the one final state. */
  lemma BuiltLabels(g: RegularGrammar, fa: FiniteAutomaton, a: string)
    requires AutomatonOf(g) == Ok(fa)
    ensures a in fa.alphabet <==> a in g.terminals
    ensures fa.initialState == g.startSymbol && fa.finalStates == {"F"}
  {
  }

  /** The sink has no edges. */
  lemma RightLinearSink(g: RegularGrammar, y: string)
    requires RightLinear(g)
    ensures AutomatonOf(g).Ok?
    ensures Grammars.Cell(AutomatonOf(g).value.transitions, "F", y) == []
  {
    RightLinearConverts(g);
    assert "F" !in g.productions.keys;
    AutomatonOfBuilds(g);
  }

  /**
   * The edges out of a nonterminal: `n --c--> F` for a rule `c`, and
   * `n --c--> B` for a rule `cB`.
   */
  lemma RightLinearCell(g: RegularGrammar, n: string, c: char, t: string)
    requires RightLinear(g) && n in g.nonTerminals
    ensures AutomatonOf(g).Ok?
    ensures t in Grammars.Cell(AutomatonOf(g).value.transitions, n, [c]) <==>
      n in g.productions.entries &&
      (([c] in g.productions.entries[n] && t == "F") || (t in g.nonTerminals && [c] + t in g.productions.entries[n]))
  {
    RightLinearConverts(g);
    AutomatonOfEdges(g, n, [c]);
    var rules := Rules(g);
    var cell := Grammars.Cell(AutomatonOf(g).value.transitions, n, [c]);
    assert t in cell <==> t in Targets(rules, n, [c]);
    assert rules == RulesOf(g.productions, g.productions.keys);
    hide AutomatonOf, Rules, RulesOf, Targets, Grammars.Cell;
    if t in cell {
      var k :| 0 <= k < |rules| && rules[k].0 == n &&
               Grammars.RuleSymbol(rules[k].1) == [c] && Grammars.RuleTarget(rules[k].1) == t;
      RuleOfKey(g.productions, g.productions.keys, k);
      Grammars.RuleEdge(g.nonTerminals, rules[k].1, c, t);
    }
    if n in g.productions.entries && [c] in g.productions.entries[n] && t == "F" {
      var k := RuleIndex(g.productions, g.productions.keys, n, [c]);
      Grammars.EdgeRule([c], c, t);
      assert rules[k].0 == n && Grammars.RuleSymbol(rules[k].1) == [c] && Grammars.RuleTarget(rules[k].1) == t;
    }
    if n in g.productions.entries && t in g.nonTerminals && [c] + t in g.productions.entries[n] {
      var k := RuleIndex(g.productions, g.productions.keys, n, [c] + t);
      Grammars.EdgeRule([c] + t, c, t);
      assert rules[k].0 == n && Grammars.RuleSymbol(rules[k].1) == [c] && Grammars.RuleTarget(rules[k].1) == t;
    }
  }

  /** The automaton `toFiniteAutomaton` builds from a right-linear grammar reads its productions. */
  lemma AutomatonReads(g: RegularGrammar, fa: FiniteAutomaton)
    requires RightLinear(g) && AutomatonOf(g) == Ok(fa)
    ensures Grammars.ReadsRightLinear(fa, g.productions, g.nonTerminals, g.terminals)
  {
    hide AutomatonOf;
    BuiltLabels(g, fa, "F");
    assert forall n :: n in g.nonTerminals ==> n != "F";
    forall a ensures a in fa.alphabet <==> a in g.terminals {
      BuiltLabels(g, fa, a);
    }
    hide RightLinear;
    forall y ensures Grammars.Cell(fa.transitions, "F", y) == [] {
      RightLinearSink(g, y);
    }
    forall n, c: char, t | n in g.nonTerminals
      ensures t in Grammars.Cell(fa.transitions, n, [c]) <==> Grammars.RuleForEdge(g.productions, g.nonTerminals, n, c, t)
    {
      RightLinearCell(g, n, c, t);
    }
    Grammars.ReadsFromParts(fa, g.productions, g.nonTerminals, g.terminals);
  }

  /**
   * For a right-linear grammar whose start symbol is a nonterminal, the automaton
   * `toFiniteAutomaton` builds accepts exactly the words the grammar derives
   * from its start symbol; the empty word is in neither language.
   */
  lemma AutomatonLanguage(g: RegularGrammar, w: string)
    requires RightLinear(g) && g.startSymbol in g.nonTerminals
    ensures AutomatonOf(g).Ok?
    ensures FiniteAutomata.NfaAccepts(AutomatonOf(g).value, w) <==>
      Derives(g.productions, g.nonTerminals, g.terminals, g.startSymbol, w, 0)
  {
    RightLinearConverts(g);
    AutomatonReads(g, AutomatonOf(g).value);
    BuiltLabels(g, AutomatonOf(g).value, "");
    if |w| > 0 {
      Grammars.ReadsAsDerives(AutomatonOf(g).value, g.productions, g.nonTerminals, g.terminals, w, 0, g.startSymbol);
    }
  }

  /** The grammar of lab1/script.js:3-13. */
  function ScriptGrammar(): RegularGrammar {
    RegularGrammar(["S", "A", "B", "C"], ["a", "b", "c"],
                   Dict(["S", "A", "B", "C"], map["S" := ["bA"], "A" := ["b", "aB", "bA"], "B" := ["bC", "aB"], "C" := ["cA"]]),
                   "S")
  }

  function ScriptRules(): seq<Rule> {
    [("S", "bA"), ("A", "b"), ("A", "aB"), ("A", "bA"), ("B", "bC"), ("B", "aB"), ("C", "cA")]
  }

  lemma ScriptGrammarRules()
    ensures Rules(ScriptGrammar()) == ScriptRules()
  {
    var p := ScriptGrammar().productions;
    var rules := ScriptRules();
    assert RulesUnder(p, "S") == rules[..1];
    assert RulesUnder(p, "A") == rules[1..4];
    assert RulesUnder(p, "B") == rules[4..6];
    assert RulesUnder(p, "C") == rules[6..];
    var keys := ["S", "A", "B", "C"];
    assert keys[..1][..0] == [] && keys[..2][..1] == keys[..1] && keys[..3][..2] == keys[..2];
    assert keys[..|keys| - 1] == keys[..3];
    assert RulesOf(p, keys[..1]) == rules[..1];
    assert RulesOf(p, keys[..2]) == rules[..4];
    assert RulesOf(p, keys[..3]) == rules[..6];
    assert Rules(ScriptGrammar()) == rules;
  }

  /** The tables the script's grammar passes through, rule by rule. */
  function ScriptTables(): seq<Table> {
    var m: map<string, Entry> := map[];
    var t0 := map["S" := m, "A" := m, "B" := m, "C" := m, "F" := m];
    var t1 := t0["S" := map["b" := List(["A"])]];
    var t2 := t1["F" := map["b" := EmptyObject]]["A" := map["b" := List(["F"])]];
    var t3 := t2["A" := map["b" := List(["F"]), "a" := List(["B"])]];
    var t4 := t3["A" := map["b" := List(["F", "A"]), "a" := List(["B"])]];
    var t5 := t4["B" := map["b" := List(["C"])]];
    var t6 := t5["B" := map["b" := List(["C"]), "a" := List(["B"])]];
    var t7 := t6["C" := map["c" := List(["A"])]];
    [t0, t1, t2, t3, t4, t5, t6, t7]
  }

  lemma ScriptSteps()
    ensures forall k :: 0 <= k < 7 ==> Step(ScriptTables()[k], ScriptRules()[k]) == Ok(ScriptTables()[k + 1])
  {
    ScriptStepsFirst();
    ScriptStepsLast();
  }

  lemma ScriptStepsFirst()
    ensures forall k :: 0 <= k < 3 ==> Step(ScriptTables()[k], ScriptRules()[k]) == Ok(ScriptTables()[k + 1])
  {
    var ts := ScriptTables();
    var rules := ScriptRules();
    assert Step(ts[0], rules[0]) == Ok(ts[1]);
    assert Step(ts[1], rules[1]) == Ok(ts[2]);
    assert Step(ts[2], rules[2]) == Ok(ts[3]);
  }

  lemma ScriptStepsLast()
    ensures forall k :: 3 <= k < 7 ==> Step(ScriptTables()[k], ScriptRules()[k]) == Ok(ScriptTables()[k + 1])
  {
    var ts := ScriptTables();
    var rules := ScriptRules();
    assert ["F"] + ["A"] == ["F", "A"];
    assert ts[3]["A"]["b" := List(["F", "A"])] == ts[4]["A"];
    assert Step(ts[3], rules[3]) == Ok(ts[4]);
    assert Step(ts[4], rules[4]) == Ok(ts[5]);
    assert Step(ts[5], rules[5]) == Ok(ts[6]);
    assert Step(ts[6], rules[6]) == Ok(ts[7]);
  }

  /** The table the script's grammar builds. */
  lemma ScriptGrammarTable()
    ensures Fold(Step, EmptyTable(States(ScriptGrammar())), Rules(ScriptGrammar())) == Ok(ScriptTables()[7])
  {
    var ts := ScriptTables();
    var rules := ScriptRules();
    ScriptGrammarRules();
    assert States(ScriptGrammar()) == ["S", "A", "B", "C", "F"];
    assert EmptyTable(States(ScriptGrammar())) == ts[0];
    ScriptSteps();
    FoldChain(Step, ts, rules);
  }

  /** The last of the script's tables. */
  function ScriptTable(): Table {
    map["S" := map["b" := List(["A"])],
        "A" := map["b" := List(["F", "A"]), "a" := List(["B"])],
        "B" := map["b" := List(["C"]), "a" := List(["B"])],
        "C" := map["c" := List(["A"])],
        "F" := map["b" := EmptyObject]]
  }

  lemma ScriptTableIs()
    ensures ScriptTables()[7] == ScriptTable()
  {
  }

  /** The transitions of the automaton the script's grammar converts to. */
  function ScriptTransitions(): Transitions {
    map["S" := map["b" := ["A"]],
        "A" := map["b" := ["F", "A"], "a" := ["B"]],
        "B" := map["b" := ["C"], "a" := ["B"]],
        "C" := map["c" := ["A"]],
        "F" := map["b" := []]]
  }

  /** The automaton the script's grammar converts to. */
  function ScriptAutomaton(): FiniteAutomaton {
    FiniteAutomaton(["S", "A", "B", "C", "F"], ["a", "b", "c"], ScriptTransitions(), "S", {"F"})
  }

  lemma ScriptGrammarAutomaton()
    ensures AutomatonOf(ScriptGrammar()) == Ok(ScriptAutomaton())
  {
    ScriptGrammarTable();
    ScriptLists();
    ScriptStates();
    hide Fold, Step, Lists, ScriptTables, States, EmptyTable, Dedup, NoDup, ScriptTransitions, RulesOf;
  }

  lemma ScriptStates()
    ensures States(ScriptGrammar()) == ["S", "A", "B", "C", "F"]
    ensures NoDup(["S", "A", "B", "C", "F"]) && NoDup(["a", "b", "c"])
  {
    ScriptNoDup();
    assert ScriptGrammar().nonTerminals + ["F"] == ["S", "A", "B", "C", "F"];
  }

  lemma ScriptNoDup()
    ensures NoDup(["S", "A", "B", "C", "F"]) && NoDup(["a", "b", "c"])
  {
    var s := ["S", "A", "B", "C", "F"];
    assert s[0][0] == 'S' && s[1][0] == 'A' && s[2][0] == 'B' && s[3][0] == 'C' && s[4][0] == 'F';
  }

  lemma ScriptLists()
    ensures Lists(ScriptTables()[7]) == ScriptAutomaton().transitions
  {
    ScriptTableIs();
    ScriptListsRows();
    hide Lists, ScriptTable, ScriptTransitions, ScriptTables;
    ListsKeys(ScriptTable());
    ScriptKeys();
  }

  lemma ScriptKeys()
    ensures ScriptTable().Keys == {"S", "A", "B", "C", "F"}
    ensures ScriptTransitions().Keys == {"S", "A", "B", "C", "F"}
  {
  }

  lemma ScriptListsRows()
    ensures Lists(ScriptTable())["S"] == ScriptTransitions()["S"]
    ensures Lists(ScriptTable())["A"] == ScriptTransitions()["A"]
    ensures Lists(ScriptTable())["B"] == ScriptTransitions()["B"]
    ensures Lists(ScriptTable())["C"] == ScriptTransitions()["C"]
    ensures Lists(ScriptTable())["F"] == ScriptTransitions()["F"]
  {
    var t, want := ScriptTable(), ScriptTransitions();
    hide Lists;
    ListsRow(t, "S", want["S"]);
    ListsRow(t, "A", want["A"]);
    ListsRow(t, "B", want["B"]);
    ListsRow(t, "C", want["C"]);
    ListsRow(t, "F", want["F"]);
  }

  lemma ListsKeys(t: Table)
    ensures Lists(t).Keys == t.Keys
  {
  }

  /** One row of the automaton's view of a table. */
  lemma ListsRow(t: Table, x: string, row: map<string, seq<string>>)
    requires x in t && t[x].Keys == row.Keys
    requires forall y :: y in row ==> row[y] == if t[x][y].List? then t[x][y].targets else []
    ensures Lists(t)[x] == row
  {
  }

  /** The automaton of the script's grammar on words from its test list. */
  lemma ScriptGrammarWords()
    ensures var fa := ScriptAutomaton();
      FiniteAutomata.Accepts(fa, "bb") && FiniteAutomata.Accepts(fa, "bbb") && FiniteAutomata.Accepts(fa, "babcb") &&
      !FiniteAutomata.Accepts(fa, "ba") && !FiniteAutomata.Accepts(fa, "abc") && !FiniteAutomata.Accepts(fa, "bba")
  {
  }

  /** The script's grammar has the right-linear shape, so its automaton accepts exactly the words it derives. */
  lemma ScriptGrammarRightLinear()
    ensures RightLinear(ScriptGrammar()) && ScriptGrammar().startSymbol in ScriptGrammar().nonTerminals
  {
    var g := ScriptGrammar();
    ScriptRulesShaped(g);
    RightLinearFromParts(g);
  }

  /** The script's automaton accepts exactly the words its grammar derives from "S". */
  lemma ScriptGrammarLanguage()
    ensures AutomatonOf(ScriptGrammar()).Ok?
    ensures forall w :: FiniteAutomata.NfaAccepts(AutomatonOf(ScriptGrammar()).value, w) <==>
      Derives(ScriptGrammar().productions, ScriptGrammar().nonTerminals, ScriptGrammar().terminals, ScriptGrammar().startSymbol, w, 0)
  {
    ScriptGrammarRightLinear();
    hide *;
    AutomatonLanguage(ScriptGrammar(), "");
    forall w
      ensures FiniteAutomata.NfaAccepts(AutomatonOf(ScriptGrammar()).value, w) <==>
        Derives(ScriptGrammar().productions, ScriptGrammar().nonTerminals, ScriptGrammar().terminals, ScriptGrammar().startSymbol, w, 0)
    {
      AutomatonLanguage(ScriptGrammar(), w);
    }
  }

  /** The rules of the script's grammar have the right-linear shape. */
  lemma ScriptRulesShaped(g: RegularGrammar)
    requires g == ScriptGrammar()
    ensures ShapedRules(g)
  {
    forall left, r | left in g.productions.entries && r in g.productions.entries[left]
      ensures (|r| == 1 || |r| == 2) && [r[0]] in g.terminals && (|r| == 2 ==> [r[1]] in g.nonTerminals)
    {
      assert left == "S" || left == "A" || left == "B" || left == "C";
      ScriptRuleShape(r);
    }
  }

  /** Each right side of the script's grammar is a terminal, or a terminal followed by a nonterminal. */
  lemma ScriptRuleShape(r: string)
    requires r in ["bA", "b", "aB", "bC", "cA"]
    ensures (|r| == 1 || |r| == 2) && [r[0]] in ["a", "b", "c"] && (|r| == 2 ==> [r[1]] in ["S", "A", "B", "C"])
  {
  }

  /** A one-symbol rule listed under "F" throws: its sink cell was just reset to `{}`. */
  lemma SinkRuleThrows()
    ensures AutomatonOf(RegularGrammar(["S"], ["a"], Dict(["S", "F"], map["S" := ["a"], "F" := ["a"]]), "S")) ==
      Err(PushOnObject)
  {
    var g := RegularGrammar(["S"], ["a"], Dict(["S", "F"], map["S" := ["a"], "F" := ["a"]]), "S");
    var p := g.productions;
    var rules := [("S", "a"), ("F", "a")];
    assert RulesUnder(p, "S") == rules[..1];
    assert RulesUnder(p, "F") == rules[1..];
    assert ["S", "F"][..1] == ["S"] && ["S"][..0] == [];
    assert Rules(g) == rules;
    assert States(g) == ["S", "F"];
    var m: map<string, Entry> := map[];
    var t0 := map["S" := m, "F" := m];
    var t1 := map["S" := map["a" := List(["F"])], "F" := map["a" := EmptyObject]];
    assert EmptyTable(States(g)) == t0;
    assert Grammars.RuleSymbol("a") == "a" && Grammars.RuleTarget("a") == "F";
    assert t0["F" := m["a" := EmptyObject]]["S" := m["a" := List(["F"])]] == t1;
    assert Step(t0, rules[0]) == Ok(t1);
    assert Step(t1, rules[1]) == Err(PushOnObject);
    StepsLast(t0, rules);
    assert rules[..1][..0] == [];
    StepsLast(t0, rules[..1]);
  }
}

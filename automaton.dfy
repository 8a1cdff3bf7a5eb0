/**
 * Word acceptance, automaton-to-grammar conversion and the determinism check
 * of lab4/FiniteAutomaton.js. The acceptance walk of lab1/FiniteAutomaton.js is
 * the same code and is modelled by the same members.
 */
module FiniteAutomata {
  import opened Wrappers
  import opened Seqs
  import opened Dicts
  import opened Formal

  /*
   * ---------------------------------------------------------------- acceptance
   */

  /**
   * The walk's current state: a state name, or JavaScript's `undefined`, which
   * `list[1]` yields on a target list shorter than two.
   */
  type Current = Option<string>

  /** `this.transitions[currentState] || {}`; `undefined` is looked up under the key "undefined". */
  function Outgoing(fa: FiniteAutomaton, current: Current): map<string, seq<string>> {
    var key := if current.Some? then current.value else "undefined";
    if key in fa.transitions then fa.transitions[key] else map[]
  }

  /** `targets[i]`, `undefined` past the end. */
  function At(targets: seq<string>, i: nat): Current {
    if i < |targets| then Some(targets[i]) else None
  }

  /**
   * The fixed branch rule: a one-element list moves to its element; any other
   * list moves to "F" on the last input character and to element 1 before it.
   */
  function Next(targets: seq<string>, isLast: bool): Current {
    if |targets| != 1 then (if isLast then Some("F") else At(targets, 1)) else Some(targets[0])
  }

  /** `finalStates.has(currentState)`; `undefined` is never a member. */
  predicate IsFinal(fa: FiniteAutomaton, current: Current) {
    current.Some? && current.value in fa.finalStates
  }

  /** The verdict of the walk that is at position `i` of `word` in state `current`. */
  function Run(fa: FiniteAutomaton, word: string, i: nat, current: Current): bool
    requires i <= |word|
    decreases |word| - i
  {
    if i == |word| then IsFinal(fa, current)
    else
      var ch := [word[i]];
      var out := Outgoing(fa, current);
      if ch !in fa.alphabet || ch !in out then false
      else Run(fa, word, i + 1, Next(out[ch], i == |word| - 1))
  }

  /** The language of the walk: start in the initial state at position 0. */
  function Accepts(fa: FiniteAutomaton, word: string): (r: bool)
    ensures |word| == 0 ==> (r <==> fa.initialState in fa.finalStates)
  {
    Run(fa, word, 0, Some(fa.initialState))
  }

  /** `stringBelongToLanguage(inputString)`. */
  method StringBelongToLanguage(fa: FiniteAutomaton, input: string) returns (accepted: bool)
    ensures accepted == Accepts(fa, input)
  {
    var current: Current := Some(fa.initialState);
    for i := 0 to |input|
      invariant Run(fa, input, i, current) == Accepts(fa, input)
    {
      var ch := [input[i]];
      if ch !in fa.alphabet {
        return false;
      }
      var stateTransitions := Outgoing(fa, current);
      if ch !in stateTransitions {
        return false;
      }
      if |stateTransitions[ch]| != 1 {
        if i == |input| - 1 {
          current := Some("F");
        } else {
          current := At(stateTransitions[ch], 1);
        }
      } else {
        current := Some(stateTransitions[ch][0]);
      }
    }
    accepted := IsFinal(fa, current);
  }

  /** A character outside the alphabet anywhere in the word makes the walk reject. */
  lemma {:induction false} RejectsOutsideAlphabet(fa: FiniteAutomaton, word: string, k: nat)
    requires k < |word| && [word[k]] !in fa.alphabet
    ensures !Accepts(fa, word)
  {
    RunRejectsBefore(fa, word, k, 0, Some(fa.initialState));
  }

  lemma {:induction false} RunRejectsBefore(fa: FiniteAutomaton, word: string, k: nat, i: nat, current: Current)
    requires i <= k < |word| && [word[k]] !in fa.alphabet
    ensures !Run(fa, word, i, current)
    decreases k - i
  {
    if i < k {
      var ch := [word[i]];
      var out := Outgoing(fa, current);
      if ch in fa.alphabet && ch in out {
        RunRejectsBefore(fa, word, k, i + 1, Next(out[ch], i == |word| - 1));
      }
    }
  }

  /** Reaching a state that has no entry for the next character rejects the word. */
  lemma RejectsMissingTransition(fa: FiniteAutomaton, word: string, i: nat, current: Current)
    requires i < |word| && [word[i]] !in Outgoing(fa, current)
    ensures !Run(fa, word, i, current)
  {
  }

  /*
   * The walk against the automaton's real nondeterministic language.
   */

  /** Is some path labelled `word[i..]` from `q` to a final state? */
  predicate NfaRun(fa: FiniteAutomaton, word: string, i: nat, q: string)
    requires i <= |word|
    decreases |word| - i
  {
    if i == |word| then q in fa.finalStates
    else
      var ch := [word[i]];
      ch in fa.alphabet && q in fa.transitions && ch in fa.transitions[q] &&
      exists t :: t in fa.transitions[q][ch] && NfaRun(fa, word, i + 1, t)
  }

  /** The nondeterministic language: some path from the initial state spells the word. */
  predicate NfaAccepts(fa: FiniteAutomaton, word: string) {
    NfaRun(fa, word, 0, fa.initialState)
  }

  /** A path spelling `word[i..]` leaves `q` by an edge labelled `word[i]`. */
  lemma RunLeaves(fa: FiniteAutomaton, word: string, i: nat, q: string) returns (t: string)
    requires i < |word| && NfaRun(fa, word, i, q)
    ensures Edge(fa, q, [word[i]], t) && NfaRun(fa, word, i + 1, t)
  {
    t :| t in fa.transitions[q][[word[i]]] && NfaRun(fa, word, i + 1, t);
  }

  /** An edge labelled `word[i]` followed by a path spelling `word[i + 1..]`. */
  lemma RunEnters(fa: FiniteAutomaton, word: string, i: nat, q: string, t: string)
    requires i < |word| && Edge(fa, q, [word[i]], t) && NfaRun(fa, word, i + 1, t)
    ensures NfaRun(fa, word, i, q)
  {
  }

  /**
   * The shape the branch rule relies on: every target list that does not have
   * exactly one element has a second element and contains the sink "F".
   */
  predicate BranchesHaveSink(fa: FiniteAutomaton) {
    forall q, a :: q in fa.transitions && a in fa.transitions[q] && |fa.transitions[q][a]| != 1 ==>
      |fa.transitions[q][a]| >= 2 && "F" in fa.transitions[q][a]
  }

  /**
   * On automata of that shape the walk is sound: every word it accepts is in the
   * automaton's nondeterministic language. (The converse fails: the walk tries
   * one branch only.)
   */
  lemma WalkIsSound(fa: FiniteAutomaton, word: string)
    requires BranchesHaveSink(fa)
    ensures Accepts(fa, word) ==> NfaAccepts(fa, word)
  {
    if Accepts(fa, word) {
      RunIsSound(fa, word, 0, fa.initialState);
    }
  }

  lemma {:induction false} RunIsSound(fa: FiniteAutomaton, word: string, i: nat, q: string)
    requires BranchesHaveSink(fa) && i <= |word|
    requires Run(fa, word, i, Some(q))
    ensures NfaRun(fa, word, i, q)
    decreases |word| - i
  {
    if i < |word| {
      var ch := [word[i]];
      var out := Outgoing(fa, Some(q));
      var next := Next(out[ch], i == |word| - 1);
      assert next.Some? && next.value in out[ch];
      RunIsSound(fa, word, i + 1, next.value);
    }
  }

  /*
   * ------------------------------------------------------------- toGrammar
   */

  /** The productions one edge list emits: `a + p` for each target `p`, then `a` when `p` is final. */
  function EdgeProductions(fa: FiniteAutomaton, a: string, targets: seq<string>): (ps: seq<string>)
    ensures forall p :: p in ps <==> exists t :: t in targets && (p == a + t || (p == a && t in fa.finalStates))
  {
    if |targets| == 0 then [] else
      var t := targets[|targets| - 1];
      var rest := EdgeProductions(fa, a, targets[..|targets| - 1]);
      assert forall u :: u in targets <==> u in targets[..|targets| - 1] || u == t;
      rest + [a + t] + (if t in fa.finalStates then [a] else [])
  }

  /** The production list built for `state`, one alphabet symbol after the other. */
  function StateProductions(fa: FiniteAutomaton, state: string, symbols: seq<string>): seq<string> {
    if |symbols| == 0 then [] else
      var a := symbols[|symbols| - 1];
      StateProductions(fa, state, symbols[..|symbols| - 1]) +
        (if state in fa.transitions && a in fa.transitions[state]
         then EdgeProductions(fa, a, fa.transitions[state][a]) else [])
  }

  /** An edge `q --a--> t` of the automaton, with `a` in the alphabet. */
  predicate Edge(fa: FiniteAutomaton, q: string, a: string, t: string) {
    a in fa.alphabet && q in fa.transitions && a in fa.transitions[q] && t in fa.transitions[q][a]
  }

  /**
   * What `toGrammar` puts under a state: exactly the productions `a + t` for its
   * edges `q --a--> t`, and `a` for the edges that end in a final state.
   */
  lemma {:induction false} StateProductionsExactly(fa: FiniteAutomaton, q: string, p: string)
    ensures p in StateProductions(fa, q, fa.alphabet) <==>
      exists a, t :: Edge(fa, q, a, t) && (p == a + t || (p == a && t in fa.finalStates))
  {
    StateProductionsPrefix(fa, q, p, |fa.alphabet|);
    assert fa.alphabet[..|fa.alphabet|] == fa.alphabet;
  }

  lemma {:induction false} StateProductionsPrefix(fa: FiniteAutomaton, q: string, p: string, n: nat)
    requires n <= |fa.alphabet|
    ensures p in StateProductions(fa, q, fa.alphabet[..n]) <==>
      exists a, t :: a in fa.alphabet[..n] && Edge(fa, q, a, t) && (p == a + t || (p == a && t in fa.finalStates))
  {
    if n > 0 {
      var a := fa.alphabet[n - 1];
      assert fa.alphabet[..n][..n - 1] == fa.alphabet[..n - 1];
      assert p in StateProductions(fa, q, fa.alphabet[..n]) <==>
        p in StateProductions(fa, q, fa.alphabet[..n - 1]) ||
        (q in fa.transitions && a in fa.transitions[q] && p in EdgeProductions(fa, a, fa.transitions[q][a]));
      hide StateProductions, EdgeProductions;
      StateProductionsPrefix(fa, q, p, n - 1);
      assert forall b :: b in fa.alphabet[..n] <==> b in fa.alphabet[..n - 1] || b == a;
    }
  }

  /** The grammar `toGrammar` returns. */
  function GrammarOf(fa: FiniteAutomaton): Grammar {
    NewGrammar(fa.states, fa.alphabet,
               Dict(Dedup(fa.states), map q | q in fa.states :: StateProductions(fa, q, fa.alphabet)),
               fa.initialState, fa.finalStates)
  }

  /** The loop body of `toGrammar` for one state: it fills `productions[state]`. */
  method BuildStateProductions(fa: FiniteAutomaton, state: string) returns (list: seq<string>)
    ensures list == StateProductions(fa, state, fa.alphabet)
  {
    list := [];
    for k := 0 to |fa.alphabet|
      invariant list == StateProductions(fa, state, fa.alphabet[..k])
    {
      var symbol := fa.alphabet[k];
      assert fa.alphabet[..k + 1][..k] == fa.alphabet[..k];
      if state in fa.transitions && symbol in fa.transitions[state] {
        list := AppendEdgeProductions(fa, symbol, fa.transitions[state][symbol], list);
      }
    }
    assert fa.alphabet[..|fa.alphabet|] == fa.alphabet;
  }

  /** The inner loop of `toGrammar`: the productions of one edge list, appended to `list`. */
  method AppendEdgeProductions(fa: FiniteAutomaton, symbol: string, nextStates: seq<string>, list0: seq<string>)
    returns (list: seq<string>)
    ensures list == list0 + EdgeProductions(fa, symbol, nextStates)
  {
    list := list0;
    for j := 0 to |nextStates|
      invariant list == list0 + EdgeProductions(fa, symbol, nextStates[..j])
    {
      var nextState := nextStates[j];
      assert nextStates[..j + 1][..j] == nextStates[..j];
      list := list + [symbol + nextState];
      if nextState in fa.finalStates {
        list := list + [symbol];
      }
    }
    assert nextStates[..|nextStates|] == nextStates;
  }

  /** The productions object after the first `n` states have been processed. */
  function ProductionsUpTo(fa: FiniteAutomaton, n: nat): Dict<seq<string>>
    requires n <= |fa.states|
  {
    Dict(Dedup(fa.states[..n]), map q | q in fa.states[..n] :: StateProductions(fa, q, fa.alphabet))
  }

  lemma ProductionsUpToStep(fa: FiniteAutomaton, i: nat)
    requires i < |fa.states|
    ensures ProductionsUpTo(fa, i).Put(fa.states[i], StateProductions(fa, fa.states[i], fa.alphabet))
         == ProductionsUpTo(fa, i + 1)
  {
    UpToKeys(fa, i);
    UpToEntries(fa, i);
  }

  lemma UpToKeys(fa: FiniteAutomaton, i: nat)
    requires i < |fa.states|
    ensures ProductionsUpTo(fa, i).Put(fa.states[i], StateProductions(fa, fa.states[i], fa.alphabet)).keys
         == ProductionsUpTo(fa, i + 1).keys
  {
    var q := fa.states[i];
    PrefixSnoc(fa.states, i);
    DedupSnoc(fa.states[..i], q);
    assert q in ProductionsUpTo(fa, i).entries <==> q in Dedup(fa.states[..i]);
  }

  lemma UpToEntries(fa: FiniteAutomaton, i: nat)
    requires i < |fa.states|
    ensures ProductionsUpTo(fa, i).Put(fa.states[i], StateProductions(fa, fa.states[i], fa.alphabet)).entries
         == ProductionsUpTo(fa, i + 1).entries
  {
    hide Dedup;
    PrefixSnoc(fa.states, i);
  }

  /** `toGrammar()`: one production list per state, keyed in the order of the states. */
  method ToGrammar(fa: FiniteAutomaton) returns (g: Grammar)
    ensures g == GrammarOf(fa)
  {
    var productions: Dict<seq<string>> := Empty();
    for i := 0 to |fa.states|
      invariant productions == ProductionsUpTo(fa, i)
    {
      var state := fa.states[i];
      var list := BuildStateProductions(fa, state);
      ProductionsUpToStep(fa, i);
      productions := productions.Put(state, list);
    }
    assert fa.states[..|fa.states|] == fa.states;
    g := NewGrammar(fa.states, fa.alphabet, productions, fa.initialState, fa.finalStates);
  }

  /**
   * The grammar `toGrammar` returns has the automaton's states as nonterminals,
   * its alphabet as terminals, its initial state as start symbol, and one
   * production list per state, in the order of the states.
   */
  lemma GrammarOfShape(fa: FiniteAutomaton)
    ensures var g := GrammarOf(fa);
      && g.productions.Valid()
      && g.productions.keys == Dedup(fa.states)
      && (forall q :: q in g.productions.entries <==> q in fa.states)
      && (forall q :: q in fa.states ==> g.productions.entries[q] == StateProductions(fa, q, fa.alphabet))
      && (forall n :: n in g.nonTerminals <==> n in fa.states)
      && (forall a :: a in g.terminals <==> a in fa.alphabet)
      && g.startSymbol == fa.initialState
  {
  }

  /**
   * The conditions under which the grammar reads back as the automaton: every
   * symbol is one character, no state is named "", and the initial state and
   * every edge target are states. A production `c + m` is then read unambiguously
   * as the terminal `c` followed by the state `m`.
   */
  ghost predicate Spelled(fa: FiniteAutomaton) {
    && (forall a :: a in fa.alphabet ==> |a| == 1)
    && "" !in fa.states
    && fa.initialState in fa.states
    && (forall q, a, t :: Edge(fa, q, a, t) ==> t in fa.states)
  }

  /** Every production `toGrammar` emits starts with its symbol, so none is empty. */
  lemma NoEmptyProduction(fa: FiniteAutomaton, q: string, p: string)
    requires forall a :: a in fa.alphabet ==> |a| == 1
    requires p in StateProductions(fa, q, fa.alphabet)
    ensures |p| > 0
  {
    StateProductionsExactly(fa, q, p);
  }

  /** A production `c + m`, with `m` a state, is exactly an edge `q --c--> m`. */
  lemma PairProduction(fa: FiniteAutomaton, q: string, c: char, m: string)
    requires Spelled(fa) && m in fa.states
    ensures [c] + m in StateProductions(fa, q, fa.alphabet) <==> Edge(fa, q, [c], m)
  {
    StateProductionsExactly(fa, q, [c] + m);
    if [c] + m in StateProductions(fa, q, fa.alphabet) {
      var a, t :| Edge(fa, q, a, t) && ([c] + m == a + t || ([c] + m == a && t in fa.finalStates));
      assert |a| == 1 && |m| > 0;
      assert a + t == [c] + m;
      assert a == (a + t)[..1] && t == (a + t)[1..];
      assert [c] == ([c] + m)[..1] && m == ([c] + m)[1..];
    } else {
      assert !(Edge(fa, q, [c], m) && [c] + m == [c] + m);
    }
  }

  /** A production `c` is exactly an edge `q --c--> t` into a final state. */
  lemma LastProduction(fa: FiniteAutomaton, q: string, c: char)
    requires Spelled(fa)
    ensures [c] in StateProductions(fa, q, fa.alphabet) <==> exists t :: Edge(fa, q, [c], t) && t in fa.finalStates
  {
    StateProductionsExactly(fa, q, [c]);
    if [c] in StateProductions(fa, q, fa.alphabet) {
      var a, t :| Edge(fa, q, a, t) && ([c] == a + t || ([c] == a && t in fa.finalStates));
      assert t in fa.states;
      assert |a + t| > 1;
    }
  }

  /**
   * From a state, the grammar derives the rest of a non-empty word exactly when
   * the automaton has a path spelling it to a final state.
   */
  lemma {:induction false} DerivesAsRuns(fa: FiniteAutomaton, w: string, i: nat, q: string)
    requires Spelled(fa) && q in fa.states && i < |w|
    ensures var g := GrammarOf(fa);
      Derives(g.productions, g.nonTerminals, g.terminals, q, w, i) <==> NfaRun(fa, w, i, q)
    decreases |w| - i
  {
    var g := GrammarOf(fa);
    GrammarOfShape(fa);
    hide GrammarOf, StateProductions, Dedup;
    var c := w[i];
    assert g.productions.entries[q] == StateProductions(fa, q, fa.alphabet);
    if i == |w| - 1 {
      LastProduction(fa, q, c);
    } else {
      forall m | m in fa.states
        ensures [c] + m in g.productions.entries[q] <==> Edge(fa, q, [c], m)
        ensures Derives(g.productions, g.nonTerminals, g.terminals, m, w, i + 1) <==> NfaRun(fa, w, i + 1, m)
      {
        PairProduction(fa, q, c, m);
        DerivesAsRuns(fa, w, i + 1, m);
      }
      if Derives(g.productions, g.nonTerminals, g.terminals, q, w, i) {
        var m :| m in g.nonTerminals && [c] + m in g.productions.entries[q] &&
                 Derives(g.productions, g.nonTerminals, g.terminals, m, w, i + 1);
        assert m in fa.transitions[q][[c]] && NfaRun(fa, w, i + 1, m);
      }
      if NfaRun(fa, w, i, q) {
        var t :| t in fa.transitions[q][[c]] && NfaRun(fa, w, i + 1, t);
        assert Edge(fa, q, [c], t);
        assert t in g.nonTerminals && [c] + t in g.productions.entries[q];
      }
    }
  }

  /**
   * The grammar `toGrammar` returns generates a non-empty word exactly when the
   * automaton accepts it.
   */
  lemma GrammarOfLanguage(fa: FiniteAutomaton, w: string)
    requires Spelled(fa) && |w| > 0
    ensures Generates(GrammarOf(fa), w) <==> NfaAccepts(fa, w)
  {
    GrammarOfShape(fa);
    DerivesAsRuns(fa, w, 0, fa.initialState);
  }

  /**
   * The empty word is lost: an automaton whose initial state is final accepts
   * "", but the grammar has no empty production to generate it.
   */
  lemma EmptyWordLost()
    ensures var fa := FiniteAutomaton(["q0"], ["a"], map[], "q0", {"q0"});
      && Spelled(fa) && NfaAccepts(fa, "")
      && (forall q, p :: q in GrammarOf(fa).productions.entries && p in GrammarOf(fa).productions.entries[q] ==> |p| > 0)
      && !Generates(GrammarOf(fa), "")
  {
    var fa := FiniteAutomaton(["q0"], ["a"], map[], "q0", {"q0"});
    GrammarOfShape(fa);
    hide GrammarOf, StateProductions;
    forall q, p | q in GrammarOf(fa).productions.entries && p in GrammarOf(fa).productions.entries[q]
      ensures |p| > 0
    {
      NoEmptyProduction(fa, q, p);
    }
  }

  /*
   * ------------------------------------------------------- isDeterministic
   */

  /** How many of `targets` are not final states. */
  function NonFinalCount(fa: FiniteAutomaton, targets: seq<string>): (n: nat)
    ensures n <= |targets|
    ensures n == 0 <==> forall t :: t in targets ==> t in fa.finalStates
  {
    if |targets| == 0 then 0 else
      assert forall t :: t in targets <==> t in targets[..|targets| - 1] || t == targets[|targets| - 1];
      NonFinalCount(fa, targets[..|targets| - 1]) + (if targets[|targets| - 1] in fa.finalStates then 0 else 1)
  }

  /** `this.transitions[state][symbol]` throws on a state without an entry, once the alphabet is not empty. */
  predicate MissingRow(fa: FiniteAutomaton, q: string) {
    q !in fa.transitions && |fa.alphabet| > 0
  }

  /** Some alphabet symbol leads from `q` to more than one non-final target. */
  predicate Branches(fa: FiniteAutomaton, q: string) {
    q in fa.transitions &&
    exists a :: a in fa.alphabet && a in fa.transitions[q] && NonFinalCount(fa, fa.transitions[q][a]) > 1
  }

  /** The first `i` states neither throw nor branch. */
  predicate CleanBefore(fa: FiniteAutomaton, i: nat)
    requires i <= |fa.states|
  {
    forall j :: 0 <= j < i ==> !MissingRow(fa, fa.states[j]) && !Branches(fa, fa.states[j])
  }

  /**
   * `isDeterministic()`: states are examined in order; the first that branches
   * gives `false`, the first without a transition entry throws a TypeError.
   */
  method IsDeterministic(fa: FiniteAutomaton) returns (r: Result<bool>)
    ensures r.Err? <==> exists i :: 0 <= i < |fa.states| && MissingRow(fa, fa.states[i]) && CleanBefore(fa, i)
    ensures r == Ok(false) <==>
      exists i :: 0 <= i < |fa.states| && Branches(fa, fa.states[i]) && CleanBefore(fa, i)
    ensures r == Ok(true) <==> CleanBefore(fa, |fa.states|)
  {
    for i := 0 to |fa.states|
      invariant CleanBefore(fa, i)
    {
      var state := fa.states[i];
      for k := 0 to |fa.alphabet|
        invariant k > 0 ==> state in fa.transitions
        invariant state in fa.transitions ==> forall m :: 0 <= m < k ==>
          !(fa.alphabet[m] in fa.transitions[state] && NonFinalCount(fa, fa.transitions[state][fa.alphabet[m]]) > 1)
      {
        var symbol := fa.alphabet[k];
        if state !in fa.transitions {
          assert MissingRow(fa, state);
          return Err("TypeError: Cannot read properties of undefined");
        }
        if symbol in fa.transitions[state] {
          var count := CountNonFinal(fa, fa.transitions[state][symbol]);
          if count > 1 {
            assert Branches(fa, state);
            return Ok(false);
          }
        }
      }
      assert !Branches(fa, state);
    }
    return Ok(true);
  }

  /** The count loop of `isDeterministic`: the targets that are not final states. */
  method CountNonFinal(fa: FiniteAutomaton, targets: seq<string>) returns (count: nat)
    ensures count == NonFinalCount(fa, targets)
  {
    count := 0;
    for t := 0 to |targets|
      invariant count == NonFinalCount(fa, targets[..t])
    {
      assert targets[..t + 1][..t] == targets[..t];
      if targets[t] !in fa.finalStates {
        count := count + 1;
      }
    }
    assert targets[..|targets|] == targets;
  }
}

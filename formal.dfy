/**
 * The two value types the toolkit converts between. Both are plain records in
 * the source: they are built once by their constructor and never changed.
 * Symbols and states are JavaScript strings; a grammar symbol inside a
 * right-hand side is one character `c`, compared against these sets as `[c]`.
 */
module Formal {
  import opened Seqs
  import opened Dicts

  /** `transitions[state][symbol]`: an ordered list of target states. */
  type Transitions = map<string, map<string, seq<string>>>

  datatype FiniteAutomaton = FiniteAutomaton(
    states: seq<string>,        // a `Set`, in insertion order
    alphabet: seq<string>,      // a `Set`, in insertion order
    transitions: Transitions,
    initialState: string,
    finalStates: set<string>)   // only ever queried with `has`

  /** The grammar of lab2/Grammar.js (the lab4 conversion builds the same shape). */
  datatype Grammar = Grammar(
    nonTerminals: seq<string>,  // a `Set`, in insertion order
    terminals: seq<string>,     // a `Set`, in insertion order
    productions: Dict<seq<string>>,
    startSymbol: string,
    finalStates: set<string>)

  /** `new FiniteAutomaton(states, alphabet, transitions, initialState, finalStates)`. */
  function NewFiniteAutomaton(states: seq<string>, alphabet: seq<string>, transitions: Transitions,
                              initialState: string, finalStates: set<string>): (fa: FiniteAutomaton)
    ensures NoDup(fa.states) && forall q :: q in fa.states <==> q in states
    ensures NoDup(fa.alphabet) && forall a :: a in fa.alphabet <==> a in alphabet
    ensures NoDup(states) ==> fa.states == states
    ensures NoDup(alphabet) ==> fa.alphabet == alphabet
    ensures fa.transitions == transitions && fa.initialState == initialState
    ensures fa.finalStates == finalStates
  {
    FiniteAutomaton(Dedup(states), Dedup(alphabet), transitions, initialState, finalStates)
  }

  /** `new Grammar(nonTerminals, terminals, productions, startSymbol, finalStates)`. */
  function NewGrammar(nonTerminals: seq<string>, terminals: seq<string>, productions: Dict<seq<string>>,
                      startSymbol: string, finalStates: set<string>): (g: Grammar)
    ensures NoDup(g.nonTerminals) && forall n :: n in g.nonTerminals <==> n in nonTerminals
    ensures NoDup(g.terminals) && forall t :: t in g.terminals <==> t in terminals
    ensures NoDup(nonTerminals) ==> g.nonTerminals == nonTerminals
    ensures NoDup(terminals) ==> g.terminals == terminals
    ensures g.productions == productions && g.startSymbol == startSymbol && g.finalStates == finalStates
  {
    Grammar(Dedup(nonTerminals), Dedup(terminals), productions, startSymbol, finalStates)
  }
  /**
   * Right-linear derivation, the reading the conversions give a grammar: the
   * nonterminal `n` derives `w[i..]` when it has the production `c` for the
   * last character `c`, or a production `c + m` with `c == w[i]` and `m` a
   * nonterminal that derives `w[i + 1..]`; `c` is always a terminal. No
   * production is empty, so nothing derives the empty rest of a word.
   */
  ghost predicate Derives(productions: Dict<seq<string>>, nonTerminals: seq<string>, terminals: seq<string>,
                          n: string, w: string, i: nat)
    requires i <= |w|
    decreases |w| - i
  {
    i < |w| && [w[i]] in terminals && n in productions.entries &&
    ((i == |w| - 1 && [w[i]] in productions.entries[n]) ||
     exists m :: m in nonTerminals && [w[i]] + m in productions.entries[n] &&
                 Derives(productions, nonTerminals, terminals, m, w, i + 1))
  }

  /** The last character of a word is derived only by a one-character production. */
  lemma DerivesLast(productions: Dict<seq<string>>, nonTerminals: seq<string>, terminals: seq<string>,
                    n: string, w: string)
    requires |w| > 0
    ensures Derives(productions, nonTerminals, terminals, n, w, |w| - 1) <==>
      [w[|w| - 1]] in terminals && n in productions.entries && [w[|w| - 1]] in productions.entries[n]
  {
  }

  /** The words a grammar generates from its start symbol. */
  ghost predicate Generates(g: Grammar, w: string) {
    Derives(g.productions, g.nonTerminals, g.terminals, g.startSymbol, w, 0)
  }
}

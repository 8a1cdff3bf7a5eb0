/**
 * The subset construction of lab5/Converter.js. A state of the deterministic
 * automaton is a set of states of the nondeterministic one, named by
 * `StateToString`; the converter discovers them from `{initialState}` with a
 * worklist and records one edge per state and symbol whose move is not empty.
 * There are no epsilon moves, so the closure is the identity.
 */
module Determinization {
  import opened Seqs
  import opened Formal
  import opened StateKeys
  import FiniteAutomata

  /** `nfa.transitions[q][a]`; a missing row or entry contributes nothing. */
  function Targets(nfa: FiniteAutomaton, q: string, a: string): seq<string> {
    if q in nfa.transitions && a in nfa.transitions[q] then nfa.transitions[q][a] else []
  }

  /**
   * The set `move(S, a)` builds: the target lists of the members of `S` added
   * in turn, each state where it is first added.
   */
  function MoveSet(nfa: FiniteAutomaton, S: seq<string>, a: string): seq<string> {
    if |S| == 0 then [] else AddAll(MoveSet(nfa, S[..|S| - 1], a), Targets(nfa, S[|S| - 1], a))
  }

  /** The move is the union of the members' target lists, each state once. */
  lemma {:induction false} MoveSetMembers(nfa: FiniteAutomaton, S: seq<string>, a: string)
    ensures NoDup(MoveSet(nfa, S, a))
    ensures forall t :: t in MoveSet(nfa, S, a) <==> exists q :: q in S && t in Targets(nfa, q, a)
    decreases |S|
  {
    if |S| > 0 {
      var front := S[..|S| - 1];
      var last := S[|S| - 1];
      MoveSetMembers(nfa, front, a);
      AddAllMembers(MoveSet(nfa, front, a), Targets(nfa, last, a));
      assert S == front + [last];
    }
  }

  lemma MoveSetNext(nfa: FiniteAutomaton, S: seq<string>, a: string, i: nat)
    requires i < |S|
    ensures MoveSet(nfa, S[..i + 1], a) == AddAll(MoveSet(nfa, S[..i], a), Targets(nfa, S[i], a))
  {
    assert S[..i + 1][..i] == S[..i];
  }

  /** `epsilonClosure(states)`: a copy of the set. */
  function EpsilonClosure(states: seq<string>): (r: seq<string>)
    ensures NoDup(r) && forall q :: q in r <==> q in states
    ensures NoDup(states) ==> r == states
  {
    Dedup(states)
  }

  /** `[...S].some(q => nfa.finalStates.has(q))`. */
  predicate HasFinal(nfa: FiniteAutomaton, S: seq<string>) {
    exists q :: q in S && q in nfa.finalStates
  }

  /** `states.some(s => stateToString(s) === key)`. */
  function Known(states: seq<seq<string>>, key: string): (r: bool)
    ensures r <==> exists i :: 0 <= i < |states| && StateToString(states[i]) == key
  {
    if |states| == 0 then false
    else if StateToString(states[|states| - 1]) == key then true
    else
      assert forall i :: 0 <= i < |states| - 1 ==> states[..|states| - 1][i] == states[i];
      Known(states[..|states| - 1], key)
  }

  /** The names of the discovered states. */
  function Names(states: seq<seq<string>>): set<string> {
    if |states| == 0 then {} else Names(states[..|states| - 1]) + {StateToString(states[|states| - 1])}
  }

  lemma {:induction false} NameOf(states: seq<seq<string>>, i: nat)
    requires i < |states|
    ensures StateToString(states[i]) in Names(states)
    decreases |states|
  {
    if i < |states| - 1 {
      NameOf(states[..|states| - 1], i);
    }
  }

  lemma {:induction false} NamedAt(states: seq<seq<string>>, k: string) returns (i: nat)
    requires k in Names(states)
    ensures i < |states| && StateToString(states[i]) == k
    decreases |states|
  {
    if k == StateToString(states[|states| - 1]) {
      i := |states| - 1;
    } else {
      i := NamedAt(states[..|states| - 1], k);
    }
  }

  lemma {:induction false} NotNamed(states: seq<seq<string>>, k: string)
    requires !Known(states, k)
    ensures k !in Names(states)
    decreases |states|
  {
    if |states| > 0 {
      NotNamed(states[..|states| - 1], k);
    }
  }

  lemma NamesSnoc(states: seq<seq<string>>, s: seq<string>)
    ensures Names(states + [s]) == Names(states) + {StateToString(s)}
  {
    assert (states + [s])[..|states|] == states;
  }

  /** The edges recorded for `S` after the symbols `symbols`: one target per non-empty move. */
  function RowOver(nfa: FiniteAutomaton, S: seq<string>, symbols: seq<string>): map<string, seq<string>> {
    map a | a in symbols && |MoveSet(nfa, S, a)| > 0 :: [StateToString(MoveSet(nfa, S, a))]
  }

  /**
   * Every state that a move of the input automaton can reach, and its initial
   * state: the subsets of these are the candidate states of the result.
   */
  function Universe(nfa: FiniteAutomaton): set<string> {
    {nfa.initialState} + set q, a, t | q in nfa.transitions && a in nfa.transitions[q] && t in nfa.transitions[q][a] :: t
  }

  lemma MoveInUniverse(nfa: FiniteAutomaton, S: seq<string>, a: string)
    ensures forall t :: t in MoveSet(nfa, S, a) ==> t in Universe(nfa)
  {
    MoveSetMembers(nfa, S, a);
    forall t | t in MoveSet(nfa, S, a) ensures t in Universe(nfa) {
      var q :| q in S && t in Targets(nfa, q, a);
      assert q in nfa.transitions && a in nfa.transitions[q];
    }
  }

  /**
   * The discovered states: the first is `{initialState}`, each is a non-empty
   * set of candidate states, and no two have the same name.
   */
  ghost predicate Discovered(nfa: FiniteAutomaton, states: seq<seq<string>>) {
    && |states| > 0
    && states[0] == [nfa.initialState]
    && (forall i :: 0 <= i < |states| ==> NoDup(states[i]) && |states[i]| > 0)
    && (forall i, q :: 0 <= i < |states| && q in states[i] ==> q in Universe(nfa))
    && (forall i, j :: 0 <= i < j < |states| ==> StateToString(states[i]) != StateToString(states[j]))
  }

  /** The row of a processed state and its finality are those of the construction. */
  ghost predicate ProcessedRight(nfa: FiniteAutomaton, alphabet: seq<string>, states: seq<seq<string>>,
                                 transitions: Transitions, finalStates: set<string>) {
    && (forall k :: k in transitions ==> k in Names(states))
    && finalStates <= transitions.Keys
    && (forall i :: 0 <= i < |states| && StateToString(states[i]) in transitions ==>
          transitions[StateToString(states[i])] == RowOver(nfa, states[i], alphabet))
    && (forall i :: 0 <= i < |states| && StateToString(states[i]) in transitions ==>
          (StateToString(states[i]) in finalStates <==> HasFinal(nfa, states[i])))
    && (forall i, a ::
          (0 <= i < |states| && StateToString(states[i]) in transitions && a in alphabet && |MoveSet(nfa, states[i], a)| > 0)
          ==> StateToString(MoveSet(nfa, states[i], a)) in Names(states))
  }

  /** The worklist holds discovered states not yet processed, each name once. */
  ghost predicate Pending(states: seq<seq<string>>, transitions: Transitions, work: seq<seq<string>>) {
    && (forall k :: 0 <= k < |work| ==> work[k] in states && StateToString(work[k]) !in transitions)
    && (forall k, l :: 0 <= k < l < |work| ==> StateToString(work[k]) != StateToString(work[l]))
  }

  /** The outcome of `convert()`. */
  ghost predicate Determinized(nfa: FiniteAutomaton, alphabet: seq<string>, states: seq<seq<string>>,
                               transitions: Transitions, finalStates: set<string>) {
    && Discovered(nfa, states)
    && ProcessedRight(nfa, alphabet, states, transitions, finalStates)
    && transitions.Keys == Names(states)
  }

  /** Every discovered state is processed or waiting. */
  ghost predicate Covered(states: seq<seq<string>>, transitions: Transitions, work: seq<seq<string>>) {
    forall i :: 0 <= i < |states| ==> StateToString(states[i]) in transitions || states[i] in work
  }

  /** Registering a state whose name is new keeps the discovered states well formed. */
  lemma DiscoveredSnoc(nfa: FiniteAutomaton, states: seq<seq<string>>, next: seq<string>)
    requires Discovered(nfa, states)
    requires NoDup(next) && |next| > 0 && forall q :: q in next ==> q in Universe(nfa)
    requires !Known(states, StateToString(next))
    ensures Discovered(nfa, states + [next])
  {
    var all := states + [next];
    assert forall i :: 0 <= i < |states| ==> all[i] == states[i];
  }

  /** Registering a state changes nothing about the processed ones. */
  lemma ProcessedSnoc(nfa: FiniteAutomaton, alphabet: seq<string>, states: seq<seq<string>>,
                      transitions: Transitions, finalStates: set<string>, next: seq<string>)
    requires ProcessedRight(nfa, alphabet, states, transitions, finalStates)
    requires !Known(states, StateToString(next))
    ensures ProcessedRight(nfa, alphabet, states + [next], transitions, finalStates)
  {
    var all := states + [next];
    NamesSnoc(states, next);
    assert forall i :: 0 <= i < |states| ==> all[i] == states[i];
    NotNamed(states, StateToString(next));
  }

  /** A state whose name is new joins the worklist. */
  lemma PendingSnoc(states: seq<seq<string>>, transitions: Transitions, work: seq<seq<string>>, next: seq<string>)
    requires Pending(states, transitions, work) && Covered(states, transitions, work)
    requires forall k :: k in transitions ==> k in Names(states)
    requires !Known(states, StateToString(next))
    ensures Pending(states + [next], transitions, work + [next])
    ensures Covered(states + [next], transitions, work + [next])
  {
    var all := states + [next];
    assert forall i :: 0 <= i < |states| ==> all[i] == states[i];
    forall k | 0 <= k < |work| ensures StateToString(work[k]) != StateToString(next) {
      var i :| 0 <= i < |states| && states[i] == work[k];
    }
    NotNamed(states, StateToString(next));
  }

  /** Popping the last waiting state and giving it an empty row. */
  lemma PopState(states: seq<seq<string>>, transitions: Transitions, work: seq<seq<string>>) returns (c: nat)
    requires |work| > 0 && Pending(states, transitions, work) && Covered(states, transitions, work)
    ensures c < |states| && states[c] == work[|work| - 1] && StateToString(work[|work| - 1]) !in transitions
    ensures Pending(states, transitions[StateToString(work[|work| - 1]) := map[]], work[..|work| - 1])
    ensures Covered(states, transitions[StateToString(work[|work| - 1]) := map[]], work[..|work| - 1])
  {
    var rest := work[..|work| - 1];
    var cur := work[|work| - 1];
    assert work == rest + [cur];
    forall i | 0 <= i < |states| && states[i] in work && states[i] != cur ensures states[i] in rest {
    }
    c :| c < |states| && states[c] == cur;
  }

  /** Only the keys of the table matter to the worklist. */
  lemma SameKeys(states: seq<seq<string>>, t1: Transitions, t2: Transitions, work: seq<seq<string>>)
    requires t1.Keys == t2.Keys && Pending(states, t1, work) && Covered(states, t1, work)
    ensures Pending(states, t2, work) && Covered(states, t2, work)
  {
  }

  lemma RowOverNone(nfa: FiniteAutomaton, S: seq<string>)
    ensures RowOver(nfa, S, []) == map[]
  {
  }

  /** With the alphabet listing each symbol once, the row grows by one edge or none. */
  lemma RowOverNext(nfa: FiniteAutomaton, S: seq<string>, alphabet: seq<string>, j: nat)
    requires NoDup(alphabet) && j < |alphabet|
    ensures alphabet[j] !in RowOver(nfa, S, alphabet[..j])
    ensures RowOver(nfa, S, alphabet[..j + 1]) ==
      if |MoveSet(nfa, S, alphabet[j])| > 0
      then RowOver(nfa, S, alphabet[..j])[alphabet[j] := [StateToString(MoveSet(nfa, S, alphabet[j]))]]
      else RowOver(nfa, S, alphabet[..j])
  {
    assert alphabet[..j + 1] == alphabet[..j] + [alphabet[j]];
    assert alphabet[j] !in alphabet[..j];
    RowOverSnoc(nfa, S, alphabet[..j], alphabet[j]);
  }

  /** One more symbol adds its edge when its move is not empty. */
  lemma RowOverSnoc(nfa: FiniteAutomaton, S: seq<string>, symbols: seq<string>, a: string)
    ensures RowOver(nfa, S, symbols + [a]) ==
      if |MoveSet(nfa, S, a)| > 0
      then RowOver(nfa, S, symbols)[a := [StateToString(MoveSet(nfa, S, a))]]
      else RowOver(nfa, S, symbols)
  {
    if |MoveSet(nfa, S, a)| > 0 {
      RowOverSnocEdge(nfa, S, symbols, a);
    } else {
      RowOverSnocNone(nfa, S, symbols, a);
    }
  }

  lemma RowOverSnocEdge(nfa: FiniteAutomaton, S: seq<string>, symbols: seq<string>, a: string)
    requires |MoveSet(nfa, S, a)| > 0
    ensures RowOver(nfa, S, symbols + [a]) == RowOver(nfa, S, symbols)[a := [StateToString(MoveSet(nfa, S, a))]]
  {
    var longer := RowOver(nfa, S, symbols + [a]);
    var updated := RowOver(nfa, S, symbols)[a := [StateToString(MoveSet(nfa, S, a))]];
    assert longer.Keys == updated.Keys;
    forall k | k in longer ensures longer[k] == updated[k] {
    }
  }

  lemma RowOverSnocNone(nfa: FiniteAutomaton, S: seq<string>, symbols: seq<string>, a: string)
    requires |MoveSet(nfa, S, a)| == 0
    ensures RowOver(nfa, S, symbols + [a]) == RowOver(nfa, S, symbols)
  {
    var longer, shorter := RowOver(nfa, S, symbols + [a]), RowOver(nfa, S, symbols);
    assert longer.Keys == shorter.Keys;
    forall k | k in longer ensures longer[k] == shorter[k] {
    }
  }



  /** Once its last symbol is done, the current state counts as processed. */
  lemma ProcessFinish(nfa: FiniteAutomaton, alphabet: seq<string>, states: seq<seq<string>>,
                      transitions: Transitions, finalStates: set<string>, c: nat)
    requires Discovered(nfa, states) && c < |states|
    requires ProcessedRight(nfa, alphabet, states, transitions, finalStates)
    requires StateToString(states[c]) !in transitions
    requires forall a :: a in alphabet && |MoveSet(nfa, states[c], a)| > 0 ==>
      StateToString(MoveSet(nfa, states[c], a)) in Names(states)
    ensures ProcessedRight(nfa, alphabet, states,
      transitions[StateToString(states[c]) := RowOver(nfa, states[c], alphabet)],
      if HasFinal(nfa, states[c]) then finalStates + {StateToString(states[c])} else finalStates)
  {
    var key := StateToString(states[c]);
    var t := transitions[key := RowOver(nfa, states[c], alphabet)];
    var f := if HasFinal(nfa, states[c]) then finalStates + {key} else finalStates;
    NameOf(states, c);
    assert forall i :: 0 <= i < |states| && StateToString(states[i]) == key ==> i == c;
    forall i | 0 <= i < |states| && StateToString(states[i]) in t
      ensures t[StateToString(states[i])] == RowOver(nfa, states[i], alphabet)
      ensures StateToString(states[i]) in f <==> HasFinal(nfa, states[i])
    {
      if i != c {
        assert StateToString(states[i]) in transitions;
      }
    }
  }

  /** An empty worklist means every discovered state has its row. */
  lemma AllProcessed(nfa: FiniteAutomaton, alphabet: seq<string>, states: seq<seq<string>>,
                     transitions: Transitions, finalStates: set<string>)
    requires Discovered(nfa, states) && ProcessedRight(nfa, alphabet, states, transitions, finalStates)
    requires Covered(states, transitions, [])
    ensures Determinized(nfa, alphabet, states, transitions, finalStates)
  {
    forall k | k in Names(states) ensures k in transitions {
      var i := NamedAt(states, k);
    }
  }

  /**
   * The result is deterministic and closed: every recorded edge is on a symbol
   * of the alphabet, lists exactly one target, and that target has a row.
   */
  lemma DeterminizedEdges(nfa: FiniteAutomaton, alphabet: seq<string>, states: seq<seq<string>>,
                          transitions: Transitions, finalStates: set<string>, k: string, a: string)
    requires Determinized(nfa, alphabet, states, transitions, finalStates)
    requires k in transitions && a in transitions[k]
    ensures a in alphabet && |transitions[k][a]| == 1 && transitions[k][a][0] in transitions
  {
    var i := NamedAt(states, k);
    assert transitions[k] == RowOver(nfa, states[i], alphabet);
  }

  /** What holds before each pass of the worklist loop. */
  ghost predicate Worklist(nfa: FiniteAutomaton, alphabet: seq<string>, states: seq<seq<string>>,
                           transitions: Transitions, finalStates: set<string>, work: seq<seq<string>>) {
    && NoDup(alphabet)
    && Discovered(nfa, states)
    && ProcessedRight(nfa, alphabet, states, transitions, finalStates)
    && Pending(states, transitions, work)
    && Covered(states, transitions, work)
  }

  /**
   * What holds while `states[c]`, popped off the worklist, gets its row:
   * `before` is the table as it was when it was popped, and the table now
   * has an entry for `states[c]`.
   */
  ghost predicate Popped(nfa: FiniteAutomaton, alphabet: seq<string>, states: seq<seq<string>>,
                         before: Transitions, finalStates: set<string>, work: seq<seq<string>>, c: nat) {
    && NoDup(alphabet)
    && Discovered(nfa, states)
    && c < |states| && StateToString(states[c]) !in before
    && ProcessedRight(nfa, alphabet, states, before, finalStates)
    && Pending(states, before[StateToString(states[c]) := map[]], work)
    && Covered(states, before[StateToString(states[c]) := map[]], work)
  }

  /** Every non-empty move of `states[c]` on the first `j` symbols leads to a discovered state. */
  ghost predicate Reached(nfa: FiniteAutomaton, alphabet: seq<string>, j: nat, states: seq<seq<string>>, c: nat)
    requires j <= |alphabet| && c < |states|
  {
    forall k :: 0 <= k < j && |MoveSet(nfa, states[c], alphabet[k])| > 0 ==>
      StateToString(MoveSet(nfa, states[c], alphabet[k])) in Names(states)
  }

  /** What holds before the symbol `alphabet[j]`: `row` has the edges of the symbols before it. */
  ghost predicate Expanding(nfa: FiniteAutomaton, alphabet: seq<string>, states: seq<seq<string>>,
                            before: Transitions, finalStates: set<string>, work: seq<seq<string>>,
                            c: nat, j: nat, row: map<string, seq<string>>) {
    && Popped(nfa, alphabet, states, before, finalStates, work, c)
    && j <= |alphabet|
    && row == RowOver(nfa, states[c], alphabet[..j])
    && Reached(nfa, alphabet, j, states, c)
  }

  /** The loop starts with `{initialState}` discovered and waiting. */
  lemma StartWorklist(nfa: FiniteAutomaton, alphabet: seq<string>)
    requires NoDup(alphabet)
    ensures Worklist(nfa, alphabet, [[nfa.initialState]], map[], {}, [[nfa.initialState]])
  {
  }

  /** Popping the last waiting state and giving it an empty row. */
  lemma StartExpanding(nfa: FiniteAutomaton, alphabet: seq<string>, states: seq<seq<string>>,
                       transitions: Transitions, finalStates: set<string>, work: seq<seq<string>>) returns (c: nat)
    requires Worklist(nfa, alphabet, states, transitions, finalStates, work) && |work| > 0
    ensures c < |states| && states[c] == work[|work| - 1]
    ensures Expanding(nfa, alphabet, states, transitions, finalStates, work[..|work| - 1], c, 0, map[])
  {
    c := PopState(states, transitions, work);
    assert alphabet[..0] == [];
    RowOverNone(nfa, states[c]);
  }

  /** A symbol whose move is empty records nothing. */
  lemma ExpandEmpty(nfa: FiniteAutomaton, alphabet: seq<string>, states: seq<seq<string>>,
                    before: Transitions, finalStates: set<string>, work: seq<seq<string>>,
                    c: nat, j: nat, row: map<string, seq<string>>)
    requires Expanding(nfa, alphabet, states, before, finalStates, work, c, j, row) && j < |alphabet|
    requires |MoveSet(nfa, states[c], alphabet[j])| == 0
    ensures Expanding(nfa, alphabet, states, before, finalStates, work, c, j + 1, row)
  {
    RowOverNext(nfa, states[c], alphabet, j);
  }

  /** A move to a state already discovered records one edge. */
  lemma ExpandKnown(nfa: FiniteAutomaton, alphabet: seq<string>, states: seq<seq<string>>,
                    before: Transitions, finalStates: set<string>, work: seq<seq<string>>,
                    c: nat, j: nat, row: map<string, seq<string>>)
    requires Expanding(nfa, alphabet, states, before, finalStates, work, c, j, row) && j < |alphabet|
    requires |MoveSet(nfa, states[c], alphabet[j])| > 0
    requires Known(states, StateToString(MoveSet(nfa, states[c], alphabet[j])))
    ensures alphabet[j] !in row
    ensures Expanding(nfa, alphabet, states, before, finalStates, work, c, j + 1,
                      row[alphabet[j] := [StateToString(MoveSet(nfa, states[c], alphabet[j]))]])
  {
    var a, next := alphabet[j], MoveSet(nfa, states[c], alphabet[j]);
    RowOverNext(nfa, states[c], alphabet, j);
    var i :| 0 <= i < |states| && StateToString(states[i]) == StateToString(next);
    NameOf(states, i);
  }

  /** Registering a state whose name is new, and queueing it. */
  lemma PoppedSnoc(nfa: FiniteAutomaton, alphabet: seq<string>, states: seq<seq<string>>,
                   before: Transitions, finalStates: set<string>, work: seq<seq<string>>,
                   c: nat, next: seq<string>)
    requires Popped(nfa, alphabet, states, before, finalStates, work, c)
    requires NoDup(next) && |next| > 0 && forall q :: q in next ==> q in Universe(nfa)
    requires !Known(states, StateToString(next))
    ensures Popped(nfa, alphabet, states + [next], before, finalStates, work + [next], c)
  {
    var all := states + [next];
    assert all[c] == states[c];
    DiscoveredSnoc(nfa, states, next);
    ProcessedSnoc(nfa, alphabet, states, before, finalStates, next);
    NamesSnoc(states, next);
    NameOf(states, c);
    PendingSnoc(states, before[StateToString(states[c]) := map[]], work, next);
  }

  /** A move to a new state registers it, queues it and records one edge. */
  lemma ExpandNew(nfa: FiniteAutomaton, alphabet: seq<string>, states: seq<seq<string>>,
                  before: Transitions, finalStates: set<string>, work: seq<seq<string>>,
                  c: nat, j: nat, row: map<string, seq<string>>)
    requires Expanding(nfa, alphabet, states, before, finalStates, work, c, j, row) && j < |alphabet|
    requires |MoveSet(nfa, states[c], alphabet[j])| > 0
    requires !Known(states, StateToString(MoveSet(nfa, states[c], alphabet[j])))
    ensures alphabet[j] !in row
    ensures Expanding(nfa, alphabet, states + [MoveSet(nfa, states[c], alphabet[j])], before, finalStates,
                      work + [MoveSet(nfa, states[c], alphabet[j])], c, j + 1,
                      row[alphabet[j] := [StateToString(MoveSet(nfa, states[c], alphabet[j]))]])
  {
    var a, next := alphabet[j], MoveSet(nfa, states[c], alphabet[j]);
    var all := states + [next];
    RowOverNext(nfa, states[c], alphabet, j);
    MoveSetMembers(nfa, states[c], a);
    MoveInUniverse(nfa, states[c], a);
    PoppedSnoc(nfa, alphabet, states, before, finalStates, work, c, next);
    NamesSnoc(states, next);
    assert all[c] == states[c];
  }

  /** One symbol of the popped state, whatever its move: the three cases above. */
  lemma ExpandStep(nfa: FiniteAutomaton, alphabet: seq<string>, states: seq<seq<string>>,
                   before: Transitions, finalStates: set<string>, work: seq<seq<string>>,
                   c: nat, j: nat, row: map<string, seq<string>>,
                   states': seq<seq<string>>, work': seq<seq<string>>, row': map<string, seq<string>>)
    requires Expanding(nfa, alphabet, states, before, finalStates, work, c, j, row) && j < |alphabet|
    requires var a, next := alphabet[j], MoveSet(nfa, states[c], alphabet[j]);
      if |next| == 0 then states' == states && work' == work && row' == row
      else
        && (if Known(states, StateToString(next)) then states' == states && work' == work
            else states' == states + [next] && work' == work + [next])
        && row' == row[a := (if a in row then row[a] else []) + [StateToString(next)]]
    ensures Expanding(nfa, alphabet, states', before, finalStates, work', c, j + 1, row')
    ensures |states| <= |states'| && states'[c] == states[c] && |work'| - |work| == |states'| - |states|
  {
    var next := MoveSet(nfa, states[c], alphabet[j]);
    if |next| == 0 {
      ExpandEmpty(nfa, alphabet, states, before, finalStates, work, c, j, row);
    } else if Known(states, StateToString(next)) {
      ExpandKnown(nfa, alphabet, states, before, finalStates, work, c, j, row);
      assert [] + [StateToString(next)] == [StateToString(next)];
    } else {
      ExpandNew(nfa, alphabet, states, before, finalStates, work, c, j, row);
      assert [] + [StateToString(next)] == [StateToString(next)];
      assert states'[c] == states[c];
    }
  }

  /** After the last symbol the popped state is processed. */
  lemma FinishExpanding(nfa: FiniteAutomaton, alphabet: seq<string>, states: seq<seq<string>>,
                        before: Transitions, finalStates: set<string>, work: seq<seq<string>>,
                        c: nat, row: map<string, seq<string>>)
    requires Expanding(nfa, alphabet, states, before, finalStates, work, c, |alphabet|, row)
    ensures Worklist(nfa, alphabet, states, before[StateToString(states[c]) := row],
      if HasFinal(nfa, states[c]) then finalStates + {StateToString(states[c])} else finalStates, work)
  {
    assert alphabet[..|alphabet|] == alphabet;
    forall a | a in alphabet && |MoveSet(nfa, states[c], a)| > 0
      ensures StateToString(MoveSet(nfa, states[c], a)) in Names(states)
    {
      var k :| 0 <= k < |alphabet| && alphabet[k] == a;
    }
    ProcessFinish(nfa, alphabet, states, before, finalStates, c);
    SameKeys(states, before[StateToString(states[c]) := map[]], before[StateToString(states[c]) := row], work);
  }

  /** Storing the finished row and the finality of `states[c]` restores the loop invariant. */
  lemma StoreRow(nfa: FiniteAutomaton, alphabet: seq<string>, states: seq<seq<string>>,
                 before: Transitions, finalStates: set<string>, work: seq<seq<string>>,
                 c: nat, row: map<string, seq<string>>, after: Transitions, finalStates': set<string>)
    requires Expanding(nfa, alphabet, states, before, finalStates, work, c, |alphabet|, row)
    requires after == before[StateToString(states[c]) := row]
    requires finalStates' == if HasFinal(nfa, states[c]) then finalStates + {StateToString(states[c])} else finalStates
    ensures Worklist(nfa, alphabet, states, after, finalStates', work)
    ensures |states| <= Pow2(|Universe(nfa)|)
  {
    FinishExpanding(nfa, alphabet, states, before, finalStates, work, c, row);
    StatesBound(nfa, states);
  }

  /** `2^n`. */
  function Pow2(n: nat): (r: nat)
    ensures r >= 1
  {
    if n == 0 then 1 else 2 * Pow2(n - 1)
  }

  /** A family of subsets of `U` has at most `2^|U|` members. */
  lemma {:induction false} SubsetsBound(C: set<set<string>>, U: set<string>)
    requires forall s :: s in C ==> s <= U
    ensures |C| <= Pow2(|U|)
    decreases |U|
  {
    if U == {} {
      assert forall s :: s in C ==> s == {};
      assert C <= {{}};
      SubsetCard(C, {{}});
    } else {
      var u :| u in U;
      var without := set s | s in C && u !in s;
      var with := set s | s in C && u in s;
      var shrunk := set s | s in with :: s - {u};
      RemoveCard(with, u);
      SubsetsBound(without, U - {u});
      SubsetsBound(shrunk, U - {u});
      assert C == without + with && without * with == {};
    }
  }

  /** Removing `u` from sets that hold it is one-to-one. */
  lemma {:induction false} RemoveCard(P: set<set<string>>, u: string)
    requires forall s :: s in P ==> u in s
    ensures |set s | s in P :: s - {u}| == |P|
    decreases |P|
  {
    if P != {} {
      var x :| x in P;
      var R := P - {x};
      RemoveCard(R, u);
      var image := set s | s in R :: s - {u};
      assert (set s | s in P :: s - {u}) == image + {x - {u}};
      forall s | s in R ensures s - {u} != x - {u} {
        assert s == (s - {u}) + {u} && x == (x - {u}) + {u};
      }
    }
  }

  /** Distinct sequences of distinct member sets give that many member sets. */
  lemma {:induction false} MemberSetsCard(states: seq<seq<string>>)
    requires forall i, j :: 0 <= i < j < |states| ==> Members(states[i]) != Members(states[j])
    ensures |set i | 0 <= i < |states| :: Members(states[i])| == |states|
    decreases |states|
  {
    if |states| > 0 {
      var front := states[..|states| - 1];
      MemberSetsCard(front);
      var before := set i | 0 <= i < |front| :: Members(front[i]);
      assert (set i | 0 <= i < |states| :: Members(states[i])) == before + {Members(states[|states| - 1])};
    }
  }

  /** Same members means same name, so distinct names mean distinct member sets. */
  lemma DistinctMembers(states: seq<seq<string>>)
    requires forall i :: 0 <= i < |states| ==> NoDup(states[i])
    requires forall i, j :: 0 <= i < j < |states| ==> StateToString(states[i]) != StateToString(states[j])
    ensures forall i, j :: 0 <= i < j < |states| ==> Members(states[i]) != Members(states[j])
  {
    forall i, j | 0 <= i < j < |states| ensures Members(states[i]) != Members(states[j]) {
      if Members(states[i]) == Members(states[j]) {
        assert forall q :: q in states[i] <==> q in Members(states[i]);
        KeyIgnoresOrder(states[i], states[j]);
      }
    }
  }

  /** At most `2^|Universe|` states are discovered, so the worklist loop ends. */
  lemma StatesBound(nfa: FiniteAutomaton, states: seq<seq<string>>)
    requires Discovered(nfa, states)
    ensures |states| <= Pow2(|Universe(nfa)|)
  {
    DistinctMembers(states);
    MemberSetsCard(states);
    var all := set i | 0 <= i < |states| :: Members(states[i]);
    SubsetsBound(all, Universe(nfa));
  }

  lemma SubsetCard(A: set<set<string>>, B: set<set<string>>)
    requires A <= B
    ensures |A| <= |B|
  {
    assert B == A + (B - A);
  }

  /*
   * The language of the result.
   */

  /**
   * No candidate state's name contains the separator of `stateToString`, so
   * a key names exactly one set of states.
   */
  predicate CommaFreeNames(nfa: FiniteAutomaton) {
    forall q :: q in Universe(nfa) ==> ',' !in q
  }

  /**
   * The walk of the result from the key `k` over `word[i..]`: it follows the
   * one target each recorded edge lists, and accepts iff it reads the whole
   * word and stops at a final key.
   */
  predicate DfaRun(transitions: Transitions, finalStates: set<string>, word: string, i: nat, k: string)
    requires i <= |word|
    decreases |word| - i
  {
    if i == |word| then k in finalStates
    else
      var ch := [word[i]];
      k in transitions && ch in transitions[k] && |transitions[k][ch]| > 0 &&
      DfaRun(transitions, finalStates, word, i + 1, transitions[k][ch][0])
  }

  /** The result accepts `word`: the walk from its initial state. */
  predicate DfaAccepts(initialState: string, transitions: Transitions, finalStates: set<string>, word: string) {
    DfaRun(transitions, finalStates, word, 0, initialState)
  }

  /** Some member of `S` accepts `word[p..]` iff some state of its move on `word[p]` accepts the rest. */
  lemma NfaStep(nfa: FiniteAutomaton, S: seq<string>, word: string, p: nat)
    requires p < |word|
    ensures (exists q :: q in S && FiniteAutomata.NfaRun(nfa, word, p, q)) <==>
      [word[p]] in nfa.alphabet &&
      exists t :: t in MoveSet(nfa, S, [word[p]]) && FiniteAutomata.NfaRun(nfa, word, p + 1, t)
  {
    var ch := [word[p]];
    MoveSetMembers(nfa, S, ch);
    if q :| q in S && FiniteAutomata.NfaRun(nfa, word, p, q) {
      var t :| t in nfa.transitions[q][ch] && FiniteAutomata.NfaRun(nfa, word, p + 1, t);
      assert t in Targets(nfa, q, ch);
      assert t in MoveSet(nfa, S, ch);
    }
    if ch in nfa.alphabet && exists t :: t in MoveSet(nfa, S, ch) && FiniteAutomata.NfaRun(nfa, word, p + 1, t) {
      var t :| t in MoveSet(nfa, S, ch) && FiniteAutomata.NfaRun(nfa, word, p + 1, t);
      var q :| q in S && t in Targets(nfa, q, ch);
      assert FiniteAutomata.NfaRun(nfa, word, p, q);
    }
  }

  /**
   * From the key of a discovered state, the result accepts the rest of the
   * word iff some member of that state does in the input automaton.
   */
  lemma {:induction false} RunsAgree(nfa: FiniteAutomaton, states: seq<seq<string>>, transitions: Transitions,
                                     finalStates: set<string>, word: string, p: nat, i: nat)
    requires Determinized(nfa, nfa.alphabet, states, transitions, finalStates) && CommaFreeNames(nfa)
    requires p <= |word| && i < |states|
    ensures DfaRun(transitions, finalStates, word, p, StateToString(states[i])) <==>
      exists q :: q in states[i] && FiniteAutomata.NfaRun(nfa, word, p, q)
    decreases |word| - p
  {
    var key := StateToString(states[i]);
    NameOf(states, i);
    if p < |word| {
      var ch := [word[p]];
      var moved := MoveSet(nfa, states[i], ch);
      assert transitions[key] == RowOver(nfa, states[i], nfa.alphabet);
      NfaStep(nfa, states[i], word, p);
      if ch in nfa.alphabet && |moved| > 0 {
        var j := NamedAt(states, StateToString(moved));
        MoveSetMembers(nfa, states[i], ch);
        MoveInUniverse(nfa, states[i], ch);
        KeyDeterminesMembers(states[j], moved);
        RunsAgree(nfa, states, transitions, finalStates, word, p + 1, j);
      }
    }
  }

  /**
   * The result accepts exactly the words the input automaton accepts, when no
   * state name contains a comma: the walk from `initialState` ends at a final
   * key iff some path of the input automaton spells the word.
   */
  lemma DeterminizedLanguage(nfa: FiniteAutomaton, states: seq<seq<string>>, transitions: Transitions,
                             finalStates: set<string>, word: string)
    requires Determinized(nfa, nfa.alphabet, states, transitions, finalStates) && CommaFreeNames(nfa)
    ensures DfaAccepts(nfa.initialState, transitions, finalStates, word) <==> FiniteAutomata.NfaAccepts(nfa, word)
  {
    SingletonKey(nfa.initialState);
    RunsAgree(nfa, states, transitions, finalStates, word, 0, 0);
    assert states[0] == [nfa.initialState];
    assert StateToString(states[0]) == nfa.initialState;
    if FiniteAutomata.NfaAccepts(nfa, word) {
      assert nfa.initialState in states[0];
    }
  }

  /** `s -x-> {"a,b"}` and `s -y-> {"a", "b"}`, with `b` final: two subsets whose keys are both "a,b". */
  function CollidingAutomaton(): FiniteAutomaton {
    FiniteAutomaton(["s", "a,b", "a", "b"], ["x", "y"], map["s" := map["x" := ["a,b"], "y" := ["a", "b"]]], "s", {"b"})
  }

  /**
   * A state name with a comma breaks the equivalence: whichever of the two
   * subsets is discovered first, "x" and "y" lead to the same key, so the
   * result accepts both or neither, while the input accepts only "y".
   */
  lemma CommaCollision(states: seq<seq<string>>, transitions: Transitions, finalStates: set<string>)
    requires Determinized(CollidingAutomaton(), ["x", "y"], states, transitions, finalStates)
    ensures FiniteAutomata.NfaAccepts(CollidingAutomaton(), "y") && !FiniteAutomata.NfaAccepts(CollidingAutomaton(), "x")
    ensures DfaAccepts("s", transitions, finalStates, "x") == DfaAccepts("s", transitions, finalStates, "y")
  {
    CollidingLanguage();
    CollidingRow();
    SingletonKey("s");
    hide StateToString, RowOver, FiniteAutomata.NfaRun;
    NameOf(states, 0);
    assert transitions["s"] == RowOver(CollidingAutomaton(), ["s"], ["x", "y"]);
  }

  lemma CollidingLanguage()
    ensures FiniteAutomata.NfaAccepts(CollidingAutomaton(), "y") && !FiniteAutomata.NfaAccepts(CollidingAutomaton(), "x")
  {
    var nfa := CollidingAutomaton();
    assert FiniteAutomata.NfaRun(nfa, "y", 1, "b");
    assert ["y"[0]] == "y" && "b" in nfa.transitions["s"]["y"];
    assert FiniteAutomata.NfaRun(nfa, "y", 0, "s");
    assert !FiniteAutomata.NfaRun(nfa, "x", 1, "a,b");
    assert ["x"[0]] == "x" && nfa.transitions["s"]["x"] == ["a,b"];
  }

  /** Both moves of `s` are recorded under the key "a,b". */
  lemma CollidingRow()
    ensures RowOver(CollidingAutomaton(), ["s"], ["x", "y"]) == map["x" := ["a,b"], "y" := ["a,b"]]
  {
    var nfa := CollidingAutomaton();
    assert Sort(["a", "b"]) == Insert(Sort(["a"]), "b") == Insert(["a"], "b") == ["a", "b"];
    assert StateToString(["a", "b"]) == "a,b";
    SingletonKey("a,b");
    assert MoveSet(nfa, ["s"], "x") == ["a,b"];
    assert MoveSet(nfa, ["s"], "y") == ["a", "b"];
  }

  class NFAtoDFAConverter {
    const nfa: FiniteAutomaton
    var alphabet: seq<string>
    var states: seq<seq<string>>
    var transitions: Transitions
    var finalStates: set<string>
    var initialState: string

    /**
     * `new NFAtoDFAConverter(nfa)`: runs the construction. The automaton's
     * alphabet is a `Set`, so it lists no symbol twice.
     */
    constructor(nfa: FiniteAutomaton)
      requires NoDup(nfa.alphabet)
      ensures this.nfa == nfa && alphabet == nfa.alphabet && initialState == nfa.initialState
      ensures Determinized(nfa, alphabet, states, transitions, finalStates)
      ensures CommaFreeNames(nfa) ==> forall w :: DfaAccepts(initialState, transitions, finalStates, w) <==> FiniteAutomata.NfaAccepts(nfa, w)
    {
      this.nfa := nfa;
      alphabet := nfa.alphabet;
      states := [];
      transitions := map[];
      finalStates := {};
      new;
      Convert();
      ghost var found, edges, finals := states, transitions, finalStates;
      initialState := nfa.initialState;
      assert states == found && transitions == edges && finalStates == finals;
      forall w | CommaFreeNames(nfa)
        ensures DfaAccepts(initialState, transitions, finalStates, w) <==> FiniteAutomata.NfaAccepts(nfa, w)
      {
        DeterminizedLanguage(nfa, states, transitions, finalStates, w);
      }
    }

    /** `move(states, symbol)`. */
    method Move(S: seq<string>, symbol: string) returns (result: seq<string>)
      ensures result == MoveSet(nfa, S, symbol)
    {
      result := [];
      for i := 0 to |S|
        invariant result == MoveSet(nfa, S[..i], symbol)
      {
        var targets := Targets(nfa, S[i], symbol);
        ghost var done := MoveSet(nfa, S[..i], symbol);
        assert targets[..0] == [];
        for k := 0 to |targets|
          invariant result == AddAll(done, targets[..k])
        {
          AddAllNext(done, targets, k);
          result := Add(result, targets[k]);
        }
        assert targets[..|targets|] == targets;
        MoveSetNext(nfa, S, symbol, i);
      }
      assert S[..|S|] == S;
    }

    /**
     * The body of `convert()`'s loop for the popped state `states[c]`: one move
     * per symbol, each new target state registered and queued, each non-empty
     * move recorded in the state's row.
     */
    method Expand(currentState: seq<string>, found: seq<seq<string>>, work: seq<seq<string>>,
                  ghost before: Transitions, ghost finals: set<string>, ghost c: nat)
      returns (found': seq<seq<string>>, work': seq<seq<string>>, row: map<string, seq<string>>)
      requires Expanding(nfa, alphabet, found, before, finals, work, c, 0, map[]) && found[c] == currentState
      ensures Expanding(nfa, alphabet, found', before, finals, work', c, |alphabet|, row)
      ensures found'[c] == currentState
      ensures |found| <= |found'| && |work'| - |work| == |found'| - |found|
    {
      found', work', row := found, work, map[];
      for j := 0 to |alphabet|
        invariant Expanding(nfa, alphabet, found', before, finals, work', c, j, row)
        invariant found'[c] == currentState
        invariant |found| <= |found'| && |work'| - |work| == |found'| - |found|
      {
        var symbol := alphabet[j];
        var moved := Move(currentState, symbol);
        var nextState := EpsilonClosure(moved);
        MoveSetMembers(nfa, currentState, symbol);
        ghost var found0, work0, row0 := found', work', row;
        if |nextState| > 0 {
          var nextStateKey := StateToString(nextState);
          if !Known(found', nextStateKey) {
            found' := found' + [nextState];
            work' := work' + [nextState];
          }
          var list := if symbol in row then row[symbol] else [];
          row := row[symbol := list + [nextStateKey]];
        }
        ExpandStep(nfa, alphabet, found0, before, finals, work0, c, j, row0, found', work', row);
      }
    }

    /**
     * `convert()`: the worklist loop. The discovered states, the table and the
     * final states are built in locals and stored in the fields at the end.
     */
    method Convert()
      requires alphabet == nfa.alphabet && NoDup(alphabet)
      requires states == [] && transitions == map[] && finalStates == {}
      modifies this
      ensures alphabet == old(alphabet) && initialState == old(initialState)
      ensures Determinized(nfa, alphabet, states, transitions, finalStates)
    {
      var found, edges, finals := Explore();
      states, transitions, finalStates := found, edges, finals;
    }

    /**
     * The worklist loop of `convert()`, on local copies of the three fields,
     * which it starts empty and which `Convert` stores when it ends.
     */
    method Explore() returns (found: seq<seq<string>>, edges: Transitions, finals: set<string>)
      requires NoDup(alphabet)
      ensures Determinized(nfa, alphabet, found, edges, finals)
    {
      var initialDFAState := EpsilonClosure([nfa.initialState]);
      found := [initialDFAState];
      edges, finals := map[], {};
      var unprocessedStates := [initialDFAState];
      StartWorklist(nfa, alphabet);
      StatesBound(nfa, found);
      while |unprocessedStates| > 0
        invariant Worklist(nfa, alphabet, found, edges, finals, unprocessedStates)
        invariant |found| <= Pow2(|Universe(nfa)|)
        decreases Pow2(|Universe(nfa)|) - |found|, |unprocessedStates|
      {
        ghost var c := StartExpanding(nfa, alphabet, found, edges, finals, unprocessedStates);
        var currentState := unprocessedStates[|unprocessedStates| - 1];
        unprocessedStates := unprocessedStates[..|unprocessedStates| - 1];
        var stateKey := StateToString(currentState);
        ghost var before, finals0 := edges, finals;
        var row;
        found, unprocessedStates, row := Expand(currentState, found, unprocessedStates, before, finals, c);
        edges := edges[stateKey := row];
        if HasFinal(nfa, currentState) {
          finals := finals + {stateKey};
        }
        StoreRow(nfa, alphabet, found, before, finals0, unprocessedStates, c, row, edges, finals);
      }
      AllProcessed(nfa, alphabet, found, edges, finals);
    }
  }
}

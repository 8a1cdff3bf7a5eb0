/**
 * The vocabulary of lab5/CNF.js: a rules dictionary maps a non-terminal to its
 * right sides, each a string with one character per symbol, `"ε"` standing
 * for the empty right side.
 */
module CnfRules {
  import opened Seqs
  import opened Dicts

  /** The marker of an empty production. */
  const EPSILON: string := "ε"

  /** `this.rules`: left side to right sides, keys in insertion order. */
  type Rules = Dict<seq<string>>

  /** The symbol at position `k`: iterating a string yields one-character strings. */
  function Sym(p: string, k: nat): string
    requires k < |p|
  {
    [p[k]]
  }

  /** `[...production].every(symbol => X.has(symbol))`. */
  predicate AllIn(p: string, X: set<string>) {
    forall k :: 0 <= k < |p| ==> Sym(p, k) in X
  }

  /** Some production in `prods` consists of symbols of `X` only. */
  predicate SomeAllIn(prods: seq<string>, X: set<string>) {
    exists p :: p in prods && AllIn(p, X)
  }

  /** `this.rules[left]`, read as no productions when it is `undefined`. */
  function Listed(rules: Rules, left: string): seq<string> {
    if left in rules.entries then rules.entries[left] else []
  }

  /** A production `isCNF` accepts: one terminal, or two symbols none of which is a terminal. */
  predicate CNFProduction(p: string, terminals: seq<string>) {
    || (|p| == 1 && p in terminals)
    || (|p| == 2 && Sym(p, 0) !in terminals && Sym(p, 1) !in terminals)
  }

  /** Every production of every left side is in Chomsky normal form. */
  predicate InCNF(rules: Rules, terminals: seq<string>) {
    forall k, p :: k in rules.entries && p in rules.entries[k] ==> CNFProduction(p, terminals)
  }
}

/**
 * `eliminateEpsilonProductions` and `_expandNullableProd` of lab5/CNF.js: the
 * nullable non-terminals as a fixed point of passes over `nonTerminals`, every
 * production replaced by its non-empty expansions, each list deduplicated.
 */
module EpsilonRemoval {
  import opened Seqs
  import opened Dicts
  import opened CnfRules

  /** The first loop: the non-terminals among `nts` listing an `"ε"` production. */
  function NullInit(rules: Rules, nts: seq<string>): set<string> {
    if |nts| == 0 then {} else
      var X := NullInit(rules, nts[..|nts| - 1]);
      var nt := nts[|nts| - 1];
      if nt in rules.entries && EPSILON in rules.entries[nt] then X + {nt} else X
  }

  /**
   * One pass of the `while (changes)` loop, starting from `X`: each non-terminal
   * in turn joins if one of its productions is made of symbols already found,
   * those found earlier in the same pass included.
   */
  function NullPass(rules: Rules, nts: seq<string>, X: set<string>): set<string> {
    if |nts| == 0 then X else
      var Y := NullPass(rules, nts[..|nts| - 1], X);
      var nt := nts[|nts| - 1];
      if nt in rules.entries && nt !in Y && SomeAllIn(rules.entries[nt], Y) then Y + {nt} else Y
  }

  lemma NullPassSnoc(rules: Rules, nts: seq<string>, X: set<string>, i: nat)
    requires i < |nts|
    ensures NullPass(rules, nts[..i + 1], X) ==
      var Y := NullPass(rules, nts[..i], X);
      if nts[i] in rules.entries && nts[i] !in Y && SomeAllIn(rules.entries[nts[i]], Y) then Y + {nts[i]} else Y
  {
    assert nts[..i + 1][..i] == nts[..i];
  }

  /** A pass only adds non-terminals of `nts`. */
  lemma {:induction false} NullPassBounds(rules: Rules, nts: seq<string>, X: set<string>)
    ensures X <= NullPass(rules, nts, X) <= X + Members(nts)
    decreases |nts|
  {
    if |nts| > 0 {
      NullPassBounds(rules, nts[..|nts| - 1], X);
    }
  }

  /** A pass that adds nothing leaves no rule unapplied. */
  lemma {:induction false} NullPassStable(rules: Rules, nts: seq<string>, X: set<string>)
    requires NullPass(rules, nts, X) == X
    ensures forall nt, p :: nt in nts && nt in rules.entries && p in rules.entries[nt] && AllIn(p, X) ==> nt in X
    decreases |nts|
  {
    if |nts| > 0 {
      var front := nts[..|nts| - 1];
      NullPassBounds(rules, front, X);
      NullPassStable(rules, front, X);
      assert nts == front + [nts[|nts| - 1]];
    }
  }

  /** A pass from inside a set closed under the second rule stays inside it. */
  lemma {:induction false} NullPassWithin(rules: Rules, nts: seq<string>, X: set<string>, Z: set<string>)
    requires X <= Z
    requires forall nt, p :: nt in nts && nt in rules.entries && p in rules.entries[nt] && AllIn(p, Z) ==> nt in Z
    ensures NullPass(rules, nts, X) <= Z
    decreases |nts|
  {
    if |nts| > 0 {
      var front := nts[..|nts| - 1];
      var nt := nts[|nts| - 1];
      NullPassWithin(rules, front, X, Z);
      var Y := NullPass(rules, front, X);
      if nt in rules.entries && nt !in Y && SomeAllIn(rules.entries[nt], Y) {
        var p :| p in rules.entries[nt] && AllIn(p, Y);
        assert AllIn(p, Z);
      }
    }
  }

  lemma {:induction false} NullInitMembers(rules: Rules, nts: seq<string>)
    ensures forall nt :: nt in NullInit(rules, nts) <==> nt in nts && nt in rules.entries && EPSILON in rules.entries[nt]
    decreases |nts|
  {
    if |nts| > 0 {
      NullInitMembers(rules, nts[..|nts| - 1]);
      assert nts == nts[..|nts| - 1] + [nts[|nts| - 1]];
    }
  }

  lemma NullInitSnoc(rules: Rules, nts: seq<string>, i: nat)
    requires i < |nts|
    ensures NullInit(rules, nts[..i + 1]) ==
      if nts[i] in rules.entries && EPSILON in rules.entries[nts[i]] then NullInit(rules, nts[..i]) + {nts[i]}
      else NullInit(rules, nts[..i])
  {
    assert nts[..i + 1][..i] == nts[..i];
  }

  lemma NullInitBound(rules: Rules, nts: seq<string>)
    ensures NullInit(rules, nts) <= Members(nts)
  {
    NullInitMembers(rules, nts);
  }

  /** Passes repeated until one adds nothing: the `while (changes)` loop. */
  function NullFix(rules: Rules, nts: seq<string>, X: set<string>): set<string>
    requires X <= Members(nts)
    decreases |Members(nts) - X|
  {
    var Y := NullPass(rules, nts, X);
    NullPassBounds(rules, nts, X);
    if Y == X then X else
      CardLess(Members(nts), X, Y);
      NullFix(rules, nts, Y)
  }

  /** The `nullable` set the two loops compute. */
  function Nullable(rules: Rules, nts: seq<string>): set<string> {
    NullInitBound(rules, nts);
    NullFix(rules, nts, NullInit(rules, nts))
  }

  /** `nullable` is closed under both rules of the construction. */
  predicate NullClosed(rules: Rules, nts: seq<string>, Z: set<string>) {
    && (forall nt :: nt in nts && nt in rules.entries && EPSILON in rules.entries[nt] ==> nt in Z)
    && (forall nt, p :: nt in nts && nt in rules.entries && p in rules.entries[nt] && AllIn(p, Z) ==> nt in Z)
  }

  lemma {:induction false} NullFixFacts(rules: Rules, nts: seq<string>, X: set<string>)
    requires X <= Members(nts)
    ensures X <= NullFix(rules, nts, X)
    ensures NullPass(rules, nts, NullFix(rules, nts, X)) == NullFix(rules, nts, X)
    ensures forall Z :: X <= Z && NullClosed(rules, nts, Z) ==> NullFix(rules, nts, X) <= Z
    decreases |Members(nts) - X|
  {
    var Y := NullPass(rules, nts, X);
    NullPassBounds(rules, nts, X);
    forall Z | X <= Z && NullClosed(rules, nts, Z) ensures Y <= Z {
      NullPassWithin(rules, nts, X, Z);
    }
    if Y != X {
      CardLess(Members(nts), X, Y);
      NullFixFacts(rules, nts, Y);
    }
  }

  /**
   * The computed set is the least one closed under the two rules: it holds
   * every non-terminal with an `"ε"` production and every one with a
   * production of nullable symbols, and nothing else.
   */
  lemma NullableLeast(rules: Rules, nts: seq<string>)
    ensures NullClosed(rules, nts, Nullable(rules, nts))
    ensures forall Z :: NullClosed(rules, nts, Z) ==> Nullable(rules, nts) <= Z
  {
    var X := NullInit(rules, nts);
    NullInitBound(rules, nts);
    NullInitMembers(rules, nts);
    NullFixFacts(rules, nts, X);
    NullPassStable(rules, nts, Nullable(rules, nts));
  }

  /** `e + symbol` for every `e`, followed by `e` itself when the symbol is nullable. */
  function Extend(exps: seq<string>, c: char, isNullable: bool): seq<string> {
    if |exps| == 0 then [] else
      var e := exps[|exps| - 1];
      Extend(exps[..|exps| - 1], c, isNullable) + (if isNullable then [e + [c], e] else [e + [c]])
  }

  lemma ExtendSnoc(exps: seq<string>, c: char, isNullable: bool, m: nat)
    requires m < |exps|
    ensures Extend(exps[..m + 1], c, isNullable) ==
      Extend(exps[..m], c, isNullable) + (if isNullable then [exps[m] + [c], exps[m]] else [exps[m] + [c]])
  {
    assert exps[..m + 1][..m] == exps[..m];
  }

  /** The `expansions` array after the symbols of `p`. */
  function Expansions(p: string, nullable: set<string>): seq<string> {
    if |p| == 0 then [""] else
      Extend(Expansions(p[..|p| - 1], nullable), p[|p| - 1], Sym(p, |p| - 1) in nullable)
  }

  lemma ExpansionsSnoc(p: string, nullable: set<string>, k: nat)
    requires k < |p|
    ensures Expansions(p[..k + 1], nullable) == Extend(Expansions(p[..k], nullable), p[k], Sym(p, k) in nullable)
  {
    assert p[..k + 1][..k] == p[..k];
  }

  /** `e` is `p` with some occurrences of nullable symbols deleted, the rest kept in order. */
  predicate Drops(p: string, e: string, nullable: set<string>)
    decreases |p|
  {
    if |p| == 0 then |e| == 0
    else
      || (|e| > 0 && e[|e| - 1] == p[|p| - 1] && Drops(p[..|p| - 1], e[..|e| - 1], nullable))
      || (Sym(p, |p| - 1) in nullable && Drops(p[..|p| - 1], e, nullable))
  }

  lemma {:induction false} ExtendMembers(exps: seq<string>, c: char, isNullable: bool, e: string)
    ensures e in Extend(exps, c, isNullable) <==>
      (|e| > 0 && e[|e| - 1] == c && e[..|e| - 1] in exps) || (isNullable && e in exps)
    decreases |exps|
  {
    if |exps| > 0 {
      var front, x := exps[..|exps| - 1], exps[|exps| - 1];
      ExtendMembers(front, c, isNullable, e);
      assert exps == front + [x];
      if |e| > 0 && e[|e| - 1] == c && e[..|e| - 1] == x {
        assert e == x + [c];
      }
      if e == x + [c] {
        assert e[..|e| - 1] == x;
      }
    }
  }

  /** The expansions are exactly the ways of deleting nullable symbols. */
  lemma {:induction false} ExpansionsDrops(p: string, nullable: set<string>, e: string)
    ensures e in Expansions(p, nullable) <==> Drops(p, e, nullable)
    decreases |p|
  {
    if |p| > 0 {
      var front := p[..|p| - 1];
      ExtendMembers(Expansions(front, nullable), p[|p| - 1], Sym(p, |p| - 1) in nullable, e);
      ExpansionsDrops(front, nullable, e);
      if |e| > 0 {
        ExpansionsDrops(front, nullable, e[..|e| - 1]);
      }
    }
  }

  /** Deleting nothing is one of the ways. */
  lemma {:induction false} DropsNothing(p: string, nullable: set<string>)
    ensures Drops(p, p, nullable)
    decreases |p|
  {
    if |p| > 0 {
      DropsNothing(p[..|p| - 1], nullable);
    }
  }

  /** What deletion leaves are characters of the production. */
  lemma {:induction false} DropsChars(p: string, e: string, nullable: set<string>)
    requires Drops(p, e, nullable)
    ensures |e| <= |p| && forall i :: 0 <= i < |e| ==> e[i] in p
    decreases |p|
  {
    if |p| > 0 {
      var front := p[..|p| - 1];
      if |e| > 0 && e[|e| - 1] == p[|p| - 1] && Drops(front, e[..|e| - 1], nullable) {
        DropsChars(front, e[..|e| - 1], nullable);
        forall i | 0 <= i < |e| ensures e[i] in p {
          if i < |e| - 1 {
            assert e[i] == e[..|e| - 1][i];
            assert e[i] in front;
          }
        }
      } else {
        DropsChars(front, e, nullable);
      }
    }
  }

  /** A character missing from the production is missing from what deletion leaves. */
  lemma DropsKeepsOut(p: string, e: string, nullable: set<string>, c: char)
    requires c !in p
    ensures Drops(p, e, nullable) ==> c !in e
  {
    if Drops(p, e, nullable) {
      DropsChars(p, e, nullable);
    }
  }

  /**
   * `_expandNullableProd(production, nullable)`: all non-empty results of
   * deleting nullable symbols, the production itself included when it is not
   * empty, and never `""`.
   */
  lemma ExpandNullableMembers(p: string, nullable: set<string>, e: string)
    ensures e in Without(Expansions(p, nullable), "") <==> e != "" && Drops(p, e, nullable)
    ensures p != "" ==> p in Without(Expansions(p, nullable), "")
  {
    ExpansionsDrops(p, nullable, e);
    ExpansionsDrops(p, nullable, p);
    DropsNothing(p, nullable);
  }

  /** The new productions of one left side: the expansions of each production other than `"ε"`, in order. */
  function ExpandAll(prods: seq<string>, nullable: set<string>): seq<string> {
    if |prods| == 0 then [] else
      var p := prods[|prods| - 1];
      ExpandAll(prods[..|prods| - 1], nullable) + (if p != EPSILON then Without(Expansions(p, nullable), "") else [])
  }

  lemma ExpandAllSnoc(prods: seq<string>, nullable: set<string>, j: nat)
    requires j < |prods|
    ensures ExpandAll(prods[..j + 1], nullable) ==
      ExpandAll(prods[..j], nullable) + (if prods[j] != EPSILON then Without(Expansions(prods[j], nullable), "") else [])
  {
    assert prods[..j + 1][..j] == prods[..j];
  }

  /** The productions `_expandNullableProd` gives for `p`, none for `"ε"`. */
  function ExpandOne(p: string, nullable: set<string>): seq<string> {
    if p != EPSILON then Without(Expansions(p, nullable), "") else []
  }

  lemma {:induction false} ExpandAllFrom(prods: seq<string>, nullable: set<string>, e: string)
    ensures e in ExpandAll(prods, nullable) <==> exists p :: p in prods && e in ExpandOne(p, nullable)
    decreases |prods|
  {
    if |prods| > 0 {
      var front, last := prods[..|prods| - 1], prods[|prods| - 1];
      assert e in ExpandAll(prods, nullable) <==> e in ExpandAll(front, nullable) || e in ExpandOne(last, nullable);
      assert e in ExpandAll(front, nullable) <==> exists p :: p in front && e in ExpandOne(p, nullable) by {
        ExpandAllFrom(front, nullable, e);
      }
      LastSplit(prods);
    }
  }

  /** A new production of a left side comes from one of its old productions other than `"ε"` by deletion. */
  lemma ExpandAllMembers(prods: seq<string>, nullable: set<string>, e: string)
    ensures e in ExpandAll(prods, nullable) <==>
      exists p :: p in prods && p != EPSILON && e != "" && Drops(p, e, nullable)
  {
    ExpandAllFrom(prods, nullable, e);
    forall p | p in prods
      ensures e in ExpandOne(p, nullable) <==> p != EPSILON && e != "" && Drops(p, e, nullable)
    {
      ExpandNullableMembers(p, nullable, e);
    }
  }

  /** `newRules`, key by key in the order of `keys`. */
  function EpsFold(rules: Rules, keys: seq<string>, nullable: set<string>): Rules {
    if |keys| == 0 then Empty() else
      var k := keys[|keys| - 1];
      EpsFold(rules, keys[..|keys| - 1], nullable).Put(k, Dedup(ExpandAll(Listed(rules, k), nullable)))
  }

  lemma EpsFoldSnoc(rules: Rules, keys: seq<string>, nullable: set<string>, i: nat)
    requires i < |keys|
    ensures EpsFold(rules, keys[..i + 1], nullable) ==
      EpsFold(rules, keys[..i], nullable).Put(keys[i], Dedup(ExpandAll(Listed(rules, keys[i]), nullable)))
  {
    assert keys[..i + 1][..i] == keys[..i];
  }

  lemma {:induction false} EpsFoldShape(rules: Rules, keys: seq<string>, nullable: set<string>)
    requires NoDup(keys)
    ensures EpsFold(rules, keys, nullable).Valid() && EpsFold(rules, keys, nullable).keys == keys
    ensures forall k :: k in keys ==> EpsFold(rules, keys, nullable).entries[k] == Dedup(ExpandAll(Listed(rules, k), nullable))
    decreases |keys|
  {
    if |keys| > 0 {
      var front, k := keys[..|keys| - 1], keys[|keys| - 1];
      LastSplit(keys);
      assert NoDup(front) && k !in front;
      EpsFoldShape(rules, front, nullable);
      assert EpsFold(rules, keys, nullable) == EpsFold(rules, front, nullable).Put(k, Dedup(ExpandAll(Listed(rules, k), nullable)));
    }
  }

  /** The rebuilt dictionary lists each key once. */
  lemma {:induction false} EpsFoldValid(rules: Rules, keys: seq<string>, nullable: set<string>)
    ensures EpsFold(rules, keys, nullable).Valid()
    decreases |keys|
  {
    if |keys| > 0 {
      EpsFoldValid(rules, keys[..|keys| - 1], nullable);
    }
  }

  /** The rules after epsilon elimination. */
  function EpsilonFree(rules: Rules, nullable: set<string>): Rules {
    EpsFold(rules, rules.keys, nullable)
  }

  /** `"ε"` occurs only as a whole production. */
  predicate EpsilonMarked(rules: Rules) {
    forall k, p :: k in rules.entries && p in rules.entries[k] && EPSILON[0] in p ==> p == EPSILON
  }

  /**
   * The keys and their order are unchanged, every list is duplicate-free, a
   * production is listed iff it comes from an old one other than `"ε"` by
   * deleting nullable symbols and is not empty, and no list holds `"ε"` when
   * `"ε"` only ever stood alone.
   */
  lemma EpsilonFreeFacts(rules: Rules, nullable: set<string>)
    requires rules.Valid()
    ensures EpsilonFree(rules, nullable).Valid() && EpsilonFree(rules, nullable).keys == rules.keys
    ensures forall k :: k in rules.entries ==> NoDup(EpsilonFree(rules, nullable).entries[k])
    ensures forall k, e :: k in rules.entries ==>
      (e in EpsilonFree(rules, nullable).entries[k] <==>
        exists p :: p in rules.entries[k] && p != EPSILON && e != "" && Drops(p, e, nullable))
    ensures EpsilonMarked(rules) ==>
      forall k :: k in rules.entries ==> EPSILON !in EpsilonFree(rules, nullable).entries[k]
  {
    var r := EpsilonFree(rules, nullable);
    EpsFoldShape(rules, rules.keys, nullable);
    forall k, e | k in rules.entries
      ensures e in r.entries[k] <==> exists p :: p in rules.entries[k] && p != EPSILON && e != "" && Drops(p, e, nullable)
    {
      ExpandAllMembers(rules.entries[k], nullable, e);
    }
    if EpsilonMarked(rules) {
      forall k, p | k in rules.entries && p in rules.entries[k] && p != EPSILON
        ensures !Drops(p, EPSILON, nullable)
      {
        DropsKeepsOut(p, EPSILON, nullable, EPSILON[0]);
      }
    }
  }
}

/**
 * The class `CNF` of lab5/CNF.js, whose methods rewrite `this.rules` and
 * `this.nonTerminals` in place, one stage after the other. Each method is
 * proved to leave the object in the state the stage functions of the other
 * modules describe; what those states satisfy is proved there.
 */
module ChomskyNormalForm {
  import opened Wrappers
  import opened Seqs
  import opened Dicts
  import opened CnfRules
  import opened EpsilonRemoval
  import opened Renaming
  import opened Pruning
  import opened CnfForm
  import opened CnfMeaning

  /** Every production of `k`, if `k` has any, is in Chomsky normal form. */
  predicate KeyInCNF(rules: Rules, terminals: seq<string>, k: string) {
    k in rules.entries ==> forall p :: p in rules.entries[k] ==> CNFProduction(p, terminals)
  }

  /** What `toCNF` leaves behind: its outcome, the rules and the non-terminals. */
  datatype Stage = Stage(outcome: Outcome, rules: Rules, nts: seq<string>)

  /** The rules and non-terminals after the four clean-up stages of `toCNF`, one after the other. */
  function Cleaned(rules: Rules, terminals: seq<string>, nts: seq<string>, start: string): Stage {
    var r1 := EpsilonFree(rules, Nullable(rules, nts));
    var r2 := Renamed(r1, nts);
    var n3 := Accessible(r2, nts, start);
    var r3 := r2.Restrict(Members(n3));
    var n4 := Productive(r3, terminals, n3, start);
    Stage(Pass, r3.Restrict(Members(n4)), n4)
  }

  /** `toCNF`: nothing when the rules are already in normal form, else the five stages. */
  function ToCNFResult(rules: Rules, terminals: seq<string>, nts: seq<string>, start: string): Stage {
    if InCNF(rules, terminals) then Stage(Pass, rules, nts) else
      var c := Cleaned(rules, terminals, nts, start);
      match CNFForm(c.rules, terminals, c.nts)
      case Building(r, _, n) => Stage(Pass, r, n)
      case Stuck(n) => Stage(Fail(NoLetterLeft), c.rules, n)
  }

  /** After the clean-up stages the start symbol comes first and every left side is a non-terminal. */
  lemma CleanedFacts(rules: Rules, terminals: seq<string>, nts: seq<string>, start: string)
    requires rules.Valid()
    ensures var c := Cleaned(rules, terminals, nts, start);
      c.rules.Valid() && |c.nts| > 0 && c.nts[0] == start && forall k :: k in c.rules.entries ==> k in c.nts
  {
    var r1 := EpsilonFree(rules, Nullable(rules, nts));
    EpsilonFreeFacts(rules, Nullable(rules, nts));
    var r2 := Renamed(r1, nts);
    RenamedFacts(r1, nts);
    var n3 := Accessible(r2, nts, start);
    var r3 := r2.Restrict(Members(n3));
    ProductiveFacts(r3, terminals, n3, start);
  }

  /**
   * What `toCNF` achieves: ready rules are left alone; otherwise, when it
   * does not throw, the start symbol is still the first non-terminal, every
   * right side has at most two symbols, and (when no letter A–Z is a
   * terminal) no pair holds a terminal; it throws only when A–Z are all taken.
   */
  lemma ToCNFFacts(rules: Rules, terminals: seq<string>, nts: seq<string>, start: string)
    requires rules.Valid()
    ensures var s := ToCNFResult(rules, terminals, nts, start);
      && (InCNF(rules, terminals) ==> s == Stage(Pass, rules, nts))
      && (s.outcome.Fail? ==> s.outcome == Fail(NoLetterLeft) && AllTaken(s.nts))
      && (s.outcome.Pass? && !InCNF(rules, terminals) ==>
            s.rules.Valid() && |s.nts| > 0 && s.nts[0] == start &&
            (forall k, p :: k in s.rules.entries && p in s.rules.entries[k] ==> |p| <= 2) &&
            ((forall i :: 0 <= i < |Alphabet| ==> [Alphabet[i]] !in terminals) ==> PairsFree(s.rules, terminals)))
  {
    if !InCNF(rules, terminals) {
      var c := Cleaned(rules, terminals, nts, start);
      CleanedFacts(rules, terminals, nts, start);
      CNFFormFails(c.rules, terminals, c.nts);
      CNFFormLetters(c.rules, terminals, c.nts);
      CNFFormShort(c.rules, terminals, c.nts);
      if forall i :: 0 <= i < |Alphabet| ==> [Alphabet[i]] !in terminals {
        CNFFormPairs(c.rules, terminals, c.nts);
      }
    }
  }

  /**
   * What the final-form stage of `toCNF` makes of the cleaned rules `c`: it
   * goes through exactly when `toCNF` does; the cleaned left sides keep their
   * order; each of their right sides, read back through the meanings of the
   * new letters, is the cleaned right side it was made from (for right sides
   * whose every capital letter is a terminal or a non-terminal); and, when no
   * letter A–Z is a terminal, none of their symbols is a terminal.
   */
  lemma ToCNFReadsBack(rules: Rules, terminals: seq<string>, nts: seq<string>, start: string)
    requires rules.Valid()
    ensures var c := Cleaned(rules, terminals, nts, start);
      var g := CNFForm(c.rules, terminals, c.nts);
      var s := ToCNFResult(rules, terminals, nts, start);
      !InCNF(rules, terminals) ==>
        && (g.Building? <==> s.outcome.Pass?)
        && (g.Building? ==>
          && KeepIn(s.rules.keys, c.rules.entries.Keys) == c.rules.keys
          && (forall k :: k in c.rules.entries ==>
                k in s.rules.entries && |s.rules.entries[k]| == |c.rules.entries[k]| &&
                forall i :: 0 <= i < |c.rules.entries[k]| && PlainText(c.rules.entries[k][i], terminals, c.nts) ==>
                  ReadBack(Means(g, c.rules.entries.Keys), s.rules.entries[k][i]) == c.rules.entries[k][i])
          && ((forall i :: 0 <= i < |Alphabet| ==> [Alphabet[i]] !in terminals) ==>
                forall k, q :: k in c.rules.entries && k in s.rules.entries && q in s.rules.entries[k] ==>
                  (|q| == 1 ==> q !in terminals) && forall j :: 0 <= j < |q| ==> Sym(q, j) !in terminals))
  {
    if !InCNF(rules, terminals) {
      var c := Cleaned(rules, terminals, nts, start);
      CleanedFacts(rules, terminals, nts, start);
      CNFFormReadsBack(c.rules, terminals, c.nts);
      if forall i :: 0 <= i < |Alphabet| ==> [Alphabet[i]] !in terminals {
        CNFFormNoTerminal(c.rules, terminals, c.nts);
      }
    }
  }

  class CNF {
    var nonTerminals: seq<string>
    var terminals: seq<string>
    var rules: Rules
    var start: string

    /** The rules dictionary lists each key once. */
    ghost predicate Valid()
      reads this
    {
      rules.Valid()
    }

    constructor(nonTerminals: seq<string>, terminals: seq<string>, rules: Rules, start: string)
      ensures this.nonTerminals == nonTerminals && this.terminals == terminals
      ensures this.rules == rules && this.start == start
    {
      this.nonTerminals := nonTerminals;
      this.terminals := terminals;
      this.rules := rules;
      this.start := start;
    }

    /** `isCNF`: true exactly when every production is one terminal or two non-terminal symbols. */
    method IsCNF() returns (r: bool)
      requires Valid()
      ensures r == InCNF(rules, terminals)
    {
      for i := 0 to |rules.keys|
        invariant forall j :: 0 <= j < i ==> KeyInCNF(rules, terminals, rules.keys[j])
      {
        var k := rules.keys[i];
        var prods := rules.entries[k];
        for m := 0 to |prods|
          invariant forall n :: 0 <= n < m ==> CNFProduction(prods[n], terminals)
        {
          var p := prods[m];
          if |p| == 0 || |p| > 2 {
            assert !CNFProduction(p, terminals);
            return false;
          }
          if |p| == 1 && p !in terminals {
            assert !CNFProduction(p, terminals);
            return false;
          }
          if |p| == 2 && (Sym(p, 0) in terminals || Sym(p, 1) in terminals) {
            assert !CNFProduction(p, terminals);
            return false;
          }
        }
      }
      forall k, p | k in rules.entries && p in rules.entries[k]
        ensures CNFProduction(p, terminals)
      {
        var j :| 0 <= j < |rules.keys| && rules.keys[j] == k;
        assert KeyInCNF(rules, terminals, rules.keys[j]);
      }
      return true;
    }

    /** The two loops at the head of `eliminateEpsilonProductions`: the `nullable` set. */
    method NullableSymbols() returns (nullable: set<string>)
      ensures nullable == Nullable(rules, nonTerminals)
    {
      nullable := EpsilonMarkers();
      NullInitBound(rules, nonTerminals);
      var changes := true;
      while changes
        invariant nullable <= Members(nonTerminals)
        invariant NullFix(rules, nonTerminals, nullable) == Nullable(rules, nonTerminals)
        invariant !changes ==> NullPass(rules, nonTerminals, nullable) == nullable
        decreases |Members(nonTerminals) - nullable| + (if changes then 1 else 0)
      {
        ghost var before := nullable;
        nullable, changes := NullablePass(nullable);
        NullPassBounds(rules, nonTerminals, before);
        if changes {
          CardLess(Members(nonTerminals), before, nullable);
        }
      }
    }

    /** The first loop: every non-terminal with an `"ε"` production. */
    method EpsilonMarkers() returns (nullable: set<string>)
      ensures nullable == NullInit(rules, nonTerminals)
    {
      nullable := {};
      for i := 0 to |nonTerminals|
        invariant nullable == NullInit(rules, nonTerminals[..i])
      {
        NullInitSnoc(rules, nonTerminals, i);
        var nt := nonTerminals[i];
        if nt in rules.entries {
          var prods := rules.entries[nt];
          for j := 0 to |prods|
            invariant nullable == NullInit(rules, nonTerminals[..i]) + (if EPSILON in prods[..j] then {nt} else {})
          {
            assert prods[..j + 1] == prods[..j] + [prods[j]];
            if prods[j] == EPSILON {
              nullable := nullable + {nt};
            }
          }
          assert prods[..|prods|] == prods;
        }
      }
      assert nonTerminals[..|nonTerminals|] == nonTerminals;
    }

    /** One pass of the `while (changes)` loop. */
    method NullablePass(before: set<string>) returns (nullable: set<string>, changes: bool)
      ensures nullable == NullPass(rules, nonTerminals, before)
      ensures changes <==> nullable != before
    {
      nullable, changes := before, false;
      for i := 0 to |nonTerminals|
        invariant nullable == NullPass(rules, nonTerminals[..i], before)
        invariant changes <==> nullable != before
        invariant before <= nullable
      {
        NullPassSnoc(rules, nonTerminals, before, i);
        var nt := nonTerminals[i];
        if nt in rules.entries && nt !in nullable {
          var found := SomeProductionIn(rules.entries[nt], nullable);
          if found {
            nullable := nullable + {nt};
            changes := true;
          }
        }
      }
      assert nonTerminals[..|nonTerminals|] == nonTerminals;
    }

    /** `_expandNullableProd`: every way of keeping or dropping each nullable symbol, the empty one left out. */
    method ExpandNullableProd(production: string, nullable: set<string>) returns (r: seq<string>)
      ensures r == Without(Expansions(production, nullable), "")
    {
      var expansions := [""];
      for k := 0 to |production|
        invariant expansions == Expansions(production[..k], nullable)
      {
        ExpansionsSnoc(production, nullable, k);
        var c := production[k];
        var isNullable := Sym(production, k) in nullable;
        var newExpansions := [];
        for m := 0 to |expansions|
          invariant newExpansions == Extend(expansions[..m], c, isNullable)
        {
          ExtendSnoc(expansions, c, isNullable, m);
          if isNullable {
            newExpansions := newExpansions + [expansions[m] + [c], expansions[m]];
          } else {
            newExpansions := newExpansions + [expansions[m] + [c]];
          }
        }
        assert expansions[..|expansions|] == expansions;
        expansions := newExpansions;
      }
      assert production[..|production|] == production;
      r := Without(expansions, "");
    }

    /**
     * `eliminateEpsilonProductions`: each key keeps its place and gets the
     * deduplicated expansions of its productions other than `"ε"`.
     */
    method EliminateEpsilonProductions()
      requires Valid()
      modifies this
      ensures Valid()
      ensures rules == EpsilonFree(old(rules), Nullable(old(rules), old(nonTerminals)))
      ensures nonTerminals == old(nonTerminals) && terminals == old(terminals) && start == old(start)
    {
      var nullable := NullableSymbols();
      var current := rules;
      var newRules := Empty();
      for i := 0 to |current.keys|
        invariant unchanged(this)
        invariant newRules == EpsFold(current, current.keys[..i], nullable)
      {
        EpsFoldSnoc(current, current.keys, nullable, i);
        var nt := current.keys[i];
        var newProds := ExpandProductions(Listed(current, nt), nullable);
        newRules := newRules.Put(nt, Dedup(newProds));
      }
      assert current.keys[..|current.keys|] == current.keys;
      EpsFoldValid(current, current.keys, nullable);
      rules := newRules;
    }

    /** The loop over the productions of one left side: the expansions of each one other than `"ε"`. */
    method ExpandProductions(prods: seq<string>, nullable: set<string>) returns (newProds: seq<string>)
      ensures newProds == ExpandAll(prods, nullable)
    {
      newProds := [];
      for j := 0 to |prods|
        invariant newProds == ExpandAll(prods[..j], nullable)
      {
        ExpandAllSnoc(prods, nullable, j);
        if prods[j] != EPSILON {
          var expanded := ExpandNullableProd(prods[j], nullable);
          newProds := newProds + expanded;
        }
      }
      assert prods[..|prods|] == prods;
    }

    /** The `for (const production ...)` loop that breaks at the first production made of `X` only. */
    method SomeProductionIn(prods: seq<string>, X: set<string>) returns (found: bool)
      ensures found == SomeAllIn(prods, X)
    {
      found := false;
      var j := 0;
      while j < |prods| && !found
        invariant 0 <= j <= |prods|
        invariant found ==> SomeAllIn(prods, X)
        invariant !found ==> forall n :: 0 <= n < j ==> !AllIn(prods[n], X)
      {
        if AllIn(prods[j], X) {
          found := true;
        }
        j := j + 1;
      }
    }
 
    /**
     * `eliminateRenaming`, corrected so that it terminates: each left side of
     * `nonTerminals` that has rules gets its unit-free list, computed from the
     * rules as they stood before the elimination.
     */
    method EliminateRenaming()
      requires Valid()
      modifies this
      ensures Valid()
      ensures rules == Renamed(old(rules), nonTerminals)
      ensures nonTerminals == old(nonTerminals) && terminals == old(terminals) && start == old(start)
    {
      var snapshot := rules;
      var newRules := rules;
      for i := 0 to |nonTerminals|
        invariant unchanged(this)
        invariant newRules == RenamedAlong(snapshot, nonTerminals, nonTerminals[..i])
      {
        RenamedAlongSnoc(snapshot, nonTerminals, nonTerminals, i);
        var nt := nonTerminals[i];
        if nt in snapshot.entries {
          var prods := ResolveUnits(snapshot, nt);
          newRules := newRules.Put(nt, prods);
        }
      }
      assert nonTerminals[..|nonTerminals|] == nonTerminals;
      RenamedFacts(snapshot, nonTerminals);
      rules := newRules;
    }

    /** The unit-free list of `nt`: units are expanded from `snapshot`, each at most once. */
    method ResolveUnits(snapshot: Rules, nt: string) returns (prods: seq<string>)
      ensures prods == UnitFreeList(snapshot, nonTerminals, nt).prods
    {
      var seen := {nt};
      var list := Listed(snapshot, nt);
      while true
        invariant Resolve(snapshot, nonTerminals, seen, list) == UnitFreeList(snapshot, nonTerminals, nt)
        decreases |Members(nonTerminals) - seen|, |list|
      {
        var units := KeepIn(list, UnitNames(snapshot, nonTerminals));
        if |units| == 0 {
          break;
        }
        var u := units[0];
        assert u in list && u in Members(nonTerminals) && u in snapshot.entries;
        if u in seen {
          list := Dedup(Without(list, u));
        } else {
          assert Members(nonTerminals) - (seen + {u}) == (Members(nonTerminals) - seen) - {u};
          seen := seen + {u};
          list := Dedup(Without(list + snapshot.entries[u], u));
        }
      }
      prods := list;
    }

    /**
     * `eliminateInaccessibleSymbols`: `nonTerminals` becomes the accessible
     * symbols and only their keys stay in the rules.
     */
    method EliminateInaccessibleSymbols()
      requires Valid()
      modifies this
      ensures Valid()
      ensures nonTerminals == Accessible(old(rules), old(nonTerminals), start)
      ensures rules == old(rules).Restrict(Members(nonTerminals))
      ensures terminals == old(terminals) && start == old(start)
    {
      var accessible := [start];
      var changes := true;
      while changes
        invariant Members(accessible) <= Candidates(nonTerminals, start)
        invariant AccFix(rules, nonTerminals, start, accessible) == Accessible(rules, nonTerminals, start)
        invariant !changes ==> |AccPass(rules, nonTerminals, accessible, accessible)| == |accessible|
        invariant unchanged(this)
        decreases |Candidates(nonTerminals, start) - Members(accessible)| + (if changes then 1 else 0)
      {
        var before := accessible;
        accessible, changes := AccessiblePass(before);
        AccPassFacts(rules, nonTerminals, before, before);
        if changes {
          ExtendsStrictly(before, accessible, nonTerminals, start);
          CardLess(Candidates(nonTerminals, start), Members(before), Members(accessible));
        } else {
          assert accessible == before;
        }
      }
      nonTerminals := accessible;
      rules := rules.Restrict(Members(accessible));
    }

    /** One pass of the accessibility loop over the snapshot `[...accessible]`. */
    method AccessiblePass(before: seq<string>) returns (accessible: seq<string>, changes: bool)
      ensures accessible == AccPass(rules, nonTerminals, before, before)
      ensures changes <==> |accessible| != |before|
    {
      accessible, changes := before, false;
      for i := 0 to |before|
        invariant accessible == AccPass(rules, nonTerminals, before[..i], before)
        invariant changes <==> |accessible| != |before|
        invariant |before| <= |accessible|
      {
        AccPassSnoc(rules, nonTerminals, before, before, i);
        var nt := before[i];
        if nt in rules.entries {
          var prods := rules.entries[nt];
          for j := 0 to |prods|
            invariant accessible == AddRefsAll(AccPass(rules, nonTerminals, before[..i], before), prods[..j], nonTerminals)
            invariant changes <==> |accessible| != |before|
            invariant |before| <= |accessible|
          {
            AddRefsAllSnoc(AccPass(rules, nonTerminals, before[..i], before), prods, nonTerminals, j);
            var p := prods[j];
            ghost var a := accessible;
            for k := 0 to |p|
              invariant accessible == AddRefs(a, p[..k], nonTerminals)
              invariant changes <==> |accessible| != |before|
              invariant |before| <= |accessible|
            {
              AddRefsSnoc(a, p, nonTerminals, k);
              var symbol := Sym(p, k);
              if symbol in nonTerminals && symbol !in accessible {
                accessible := accessible + [symbol];
                changes := true;
              }
            }
            assert p[..|p|] == p;
          }
          assert prods[..|prods|] == prods;
        }
      }
      assert before[..|before|] == before;
    }

    /**
     * `eliminateNonProductiveSymbols`: `nonTerminals` becomes the productive
     * symbols, the start symbol always among them, and only their keys stay.
     */
    method EliminateNonProductiveSymbols()
      requires Valid()
      modifies this
      ensures Valid()
      ensures nonTerminals == Productive(old(rules), terminals, old(nonTerminals), start)
      ensures rules == old(rules).Restrict(Members(nonTerminals))
      ensures terminals == old(terminals) && start == old(start)
    {
      var productive := [start];
      var changes := true;
      while changes
        invariant Members(productive) <= Candidates(nonTerminals, start)
        invariant ProdFix(rules, terminals, nonTerminals, start, productive) == Productive(rules, terminals, nonTerminals, start)
        invariant !changes ==> |ProdPass(rules, terminals, nonTerminals, productive)| == |productive|
        invariant unchanged(this)
        decreases |Candidates(nonTerminals, start) - Members(productive)| + (if changes then 1 else 0)
      {
        var before := productive;
        productive, changes := ProductivePass(before);
        ProdPassGrows(rules, terminals, nonTerminals, before);
        if changes {
          ExtendsStrictly(before, productive, nonTerminals, start);
          CardLess(Candidates(nonTerminals, start), Members(before), Members(productive));
        } else {
          assert productive == before;
        }
      }
      nonTerminals := productive;
      rules := rules.Restrict(Members(productive));
    }

    /** One pass of the productivity loop over `nonTerminals`. */
    method ProductivePass(before: seq<string>) returns (productive: seq<string>, changes: bool)
      ensures productive == ProdPass(rules, terminals, nonTerminals, before)
      ensures changes <==> |productive| != |before|
    {
      productive, changes := before, false;
      for i := 0 to |nonTerminals|
        invariant productive == ProdPass(rules, terminals, nonTerminals[..i], before)
        invariant changes <==> |productive| != |before|
        invariant |before| <= |productive|
      {
        ProdPassSnoc(rules, terminals, nonTerminals, before, i);
        var nt := nonTerminals[i];
        if nt in rules.entries && nt !in productive {
          var found := SomeProductionIn(rules.entries[nt], Members(terminals) + Members(productive));
          if found {
            productive := productive + [nt];
            changes := true;
          }
        }
      }
      assert nonTerminals[..|nonTerminals|] == nonTerminals;
    }
 
    /** `_createNewNonTerminal`: the first letter A–Z not yet a non-terminal, pushed; it throws when there is none. */
    method CreateNewNonTerminal() returns (r: Result<string>)
      modifies this
      ensures FreshLetter(old(nonTerminals)).Some? ==>
        r == Ok(FreshLetter(old(nonTerminals)).value) && nonTerminals == old(nonTerminals) + [r.value]
      ensures FreshLetter(old(nonTerminals)).None? ==> r == Err(NoLetterLeft) && nonTerminals == old(nonTerminals)
      ensures rules == old(rules) && terminals == old(terminals) && start == old(start)
    {
      for i := 0 to |Alphabet|
        invariant unchanged(this)
        invariant FreshFrom(nonTerminals, i) == FreshLetter(nonTerminals)
      {
        var letter := [Alphabet[i]];
        if letter !in nonTerminals {
          nonTerminals := nonTerminals + [letter];
          return Ok(letter);
        }
      }
      return Err(NoLetterLeft);
    }

    /**
     * `getCNFform`: the rules become those `CNFForm` builds and the
     * non-terminals get every letter it pushes; when it throws, the rules
     * stay and the letters pushed until then remain.
     */
    method GetCNFform() returns (r: Outcome)
      modifies this
      ensures var g := CNFForm(old(rules), terminals, old(nonTerminals));
        && (g.Building? ==> r == Pass && rules == g.rules && nonTerminals == g.nts)
        && (g.Stuck? ==> r == Fail(NoLetterLeft) && rules == old(rules) && nonTerminals == g.nts)
      ensures terminals == old(terminals) && start == old(start)
    {
      var current := rules;
      ghost var base := nonTerminals;
      ghost var f0 := Building(Empty(), map[], base);
      var newRules := Empty();
      var terminalMap := map[];
      for i := 0 to |current.keys|
        invariant rules == current && terminals == old(terminals) && start == old(start)
        invariant ConvertKeys(f0, terminals, current, i) == Building(newRules, terminalMap, nonTerminals)
      {
        var nt := current.keys[i];
        var prods := Listed(current, nt);
        newRules := newRules.Put(nt, []);
        ghost var f1 := Building(newRules, terminalMap, nonTerminals);
        for j := 0 to |prods|
          invariant rules == current && terminals == old(terminals) && start == old(start)
          invariant ConvertProductions(f1, terminals, nt, prods, j) == Building(newRules, terminalMap, nonTerminals)
        {
          var ok;
          newRules, terminalMap, ok := ConvertOne(newRules, terminalMap, nt, prods[j]);
          if !ok {
            StuckLifts(current, terminals, base, i, j);
            return Fail(NoLetterLeft);
          }
        }
        KeysStep1(f0, terminals, current, i);
      }
      assert CNFForm(current, terminals, base) == Building(newRules, terminalMap, nonTerminals);
      rules := newRules;
      return Pass;
    }

    /** The body of `getCNFform`'s loop over the right sides, for one right side `production` of `nt`. */
    method ConvertOne(newRules: Rules, terminalMap: map<string, string>, nt: string, production: string)
      returns (newRules': Rules, terminalMap': map<string, string>, ok: bool)
      modifies this
      ensures var g := ConvertProduction(Building(newRules, terminalMap, old(nonTerminals)), terminals, nt, production);
        if ok then g == Building(newRules', terminalMap', nonTerminals) else g == Stuck(nonTerminals)
      ensures rules == old(rules) && terminals == old(terminals) && start == old(start)
    {
      ghost var f := Building(newRules, terminalMap, nonTerminals);
      var word;
      newRules', terminalMap', word, ok := MapProduction(newRules, terminalMap, production);
      if !ok {
        return;
      }
      newRules', word, ok := Shorten(newRules', terminalMap', word);
      if ok {
        newRules' := newRules'.Put(nt, Listed(newRules', nt) + [Flatten(word)]);
      }
    }

    /** The `for (const symbol of production)` loop: terminals replaced by their letters. */
    method MapProduction(newRules: Rules, terminalMap: map<string, string>, production: string)
      returns (newRules': Rules, terminalMap': map<string, string>, newProduction: seq<string>, ok: bool)
      modifies this
      ensures var w := MapSymbols(Building(newRules, terminalMap, old(nonTerminals)), terminals, production, |production|);
        if ok then w == Word(Building(newRules', terminalMap', nonTerminals), newProduction)
        else w.form == Stuck(nonTerminals)
      ensures rules == old(rules) && terminals == old(terminals) && start == old(start)
    {
      ghost var f := Building(newRules, terminalMap, nonTerminals);
      newRules', terminalMap', newProduction := newRules, terminalMap, [];
      for k := 0 to |production|
        invariant rules == old(rules) && terminals == old(terminals) && start == old(start)
        invariant MapSymbols(f, terminals, production, k) == Word(Building(newRules', terminalMap', nonTerminals), newProduction)
      {
        var symbol := Sym(production, k);
        ghost var m := MapSymbol(Building(newRules', terminalMap', nonTerminals), terminals, symbol);
        ghost var before := newProduction;
        if symbol in terminals {
          if symbol !in terminalMap' {
            ghost var nts0 := nonTerminals;
            var x := CreateNewNonTerminal();
            if x.Err? {
              MapSymbolsStuck(f, terminals, production, k + 1, |production|);
              return newRules', terminalMap', newProduction, false;
            }
            assert FreshLetter(nts0) == Some(x.value);
            terminalMap' := terminalMap'[symbol := x.value];
            nonTerminals := nonTerminals + [x.value];
            newRules' := newRules'.Put(x.value, [symbol]);
            assert nonTerminals == nts0 + [x.value, x.value];
          }
          newProduction := newProduction + [terminalMap'[symbol]];
        } else {
          newProduction := newProduction + [symbol];
        }
        assert m == Mapped(Building(newRules', terminalMap', nonTerminals), newProduction[|newProduction| - 1]);
        assert newProduction == before + [m.symbol];
      }
      ok := true;
    }

    /** The `while (newProduction.length > 2)` loop: the first two symbols become a new letter. */
    method Shorten(newRules: Rules, terminalMap: map<string, string>, newProduction: seq<string>)
      returns (newRules': Rules, newProduction': seq<string>, ok: bool)
      modifies this
      ensures var b := Binarise(Building(newRules, terminalMap, old(nonTerminals)), newProduction);
        if ok then b == Word(Building(newRules', terminalMap, nonTerminals), newProduction')
        else b.form == Stuck(nonTerminals)
      ensures rules == old(rules) && terminals == old(terminals) && start == old(start)
    {
      ghost var f := Building(newRules, terminalMap, nonTerminals);
      newRules', newProduction' := newRules, newProduction;
      while |newProduction'| > 2
        invariant rules == old(rules) && terminals == old(terminals) && start == old(start)
        invariant Binarise(f, newProduction) == Binarise(Building(newRules', terminalMap, nonTerminals), newProduction')
        decreases |newProduction'|
      {
        var first, second := newProduction'[0], newProduction'[1];
        var rest := newProduction'[2..];
        ghost var cur := Building(newRules', terminalMap, nonTerminals);
        ghost var word := newProduction';
        var y := CreateNewNonTerminal();
        if y.Err? {
          BinariseNone(cur, word);
          return newRules', newProduction', false;
        }
        BinariseStep(cur, word, y.value);
        nonTerminals := nonTerminals + [y.value];
        newRules' := newRules'.Put(y.value, [first + second]);
        newProduction' := [y.value] + rest;
        assert nonTerminals == cur.nts + [y.value, y.value];
        assert Binarise(cur, word) == Binarise(Building(newRules', terminalMap, nonTerminals), newProduction');
      }
      ok := true;
    }

    /** `toCNF`: no change when `isCNF` holds, otherwise the five stages in order. */
    method ToCNF() returns (r: Outcome)
      requires Valid()
      modifies this
      ensures var s := ToCNFResult(old(rules), terminals, old(nonTerminals), start);
        r == s.outcome && rules == s.rules && nonTerminals == s.nts
      ensures terminals == old(terminals) && start == old(start)
    {
      var ready := IsCNF();
      if ready {
        return Pass;
      }
      EliminateEpsilonProductions();
      EliminateRenaming();
      EliminateInaccessibleSymbols();
      EliminateNonProductiveSymbols();
      r := GetCNFform();
    }
  }
}

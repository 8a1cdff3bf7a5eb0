/**
 * `eliminateInaccessibleSymbols` and `eliminateNonProductiveSymbols` of
 * lab5/CNF.js: two fixed points of passes, each an insertion-ordered set
 * seeded with the start symbol, which then become `nonTerminals` and decide
 * which rule keys survive.
 */
module Pruning {
  import opened Seqs
  import opened Dicts
  import opened CnfRules

  /** Each symbol of `p` that is a non-terminal and not yet present, appended to `acc` in turn. */
  function AddRefs(acc: seq<string>, p: string, nts: seq<string>): seq<string>
    decreases |p|
  {
    if |p| == 0 then acc else
      var a := AddRefs(acc, p[..|p| - 1], nts);
      var s := Sym(p, |p| - 1);
      if s in nts && s !in a then a + [s] else a
  }

  /** `AddRefs` for each production of `prods` in turn. */
  function AddRefsAll(acc: seq<string>, prods: seq<string>, nts: seq<string>): seq<string>
    decreases |prods|
  {
    if |prods| == 0 then acc else AddRefs(AddRefsAll(acc, prods[..|prods| - 1], nts), prods[|prods| - 1], nts)
  }

  /** One pass of the accessibility loop over the snapshot `S` of `accessible`. */
  function AccPass(rules: Rules, nts: seq<string>, S: seq<string>, acc: seq<string>): seq<string>
    decreases |S|
  {
    if |S| == 0 then acc else
      var a := AccPass(rules, nts, S[..|S| - 1], acc);
      var nt := S[|S| - 1];
      if nt in rules.entries then AddRefsAll(a, rules.entries[nt], nts) else a
  }

  lemma AddRefsSnoc(acc: seq<string>, p: string, nts: seq<string>, k: nat)
    requires k < |p|
    ensures AddRefs(acc, p[..k + 1], nts) ==
      var a := AddRefs(acc, p[..k], nts); if Sym(p, k) in nts && Sym(p, k) !in a then a + [Sym(p, k)] else a
  {
    assert p[..k + 1][..k] == p[..k];
  }

  lemma AddRefsAllSnoc(acc: seq<string>, prods: seq<string>, nts: seq<string>, j: nat)
    requires j < |prods|
    ensures AddRefsAll(acc, prods[..j + 1], nts) == AddRefs(AddRefsAll(acc, prods[..j], nts), prods[j], nts)
  {
    assert prods[..j + 1][..j] == prods[..j];
  }

  lemma AccPassSnoc(rules: Rules, nts: seq<string>, S: seq<string>, acc: seq<string>, i: nat)
    requires i < |S|
    ensures AccPass(rules, nts, S[..i + 1], acc) ==
      if S[i] in rules.entries then AddRefsAll(AccPass(rules, nts, S[..i], acc), rules.entries[S[i]], nts)
      else AccPass(rules, nts, S[..i], acc)
  {
    assert S[..i + 1][..i] == S[..i];
  }

  /** Some symbol of `p` is `y`. */
  predicate Mentions(p: string, y: string) {
    exists k :: 0 <= k < |p| && Sym(p, k) == y
  }

  /** Some production of `prods` mentions `y`. */
  predicate SomeMentions(prods: seq<string>, y: string) {
    exists q :: q in prods && Mentions(q, y)
  }

  /** `nt` has a rule that mentions `y`. */
  predicate RefersTo(rules: Rules, nt: string, y: string) {
    nt in rules.entries && SomeMentions(rules.entries[nt], y)
  }

  /** `acc` only grows at its end, by new non-terminals, each once. */
  predicate Extends(acc: seq<string>, a: seq<string>, nts: seq<string>) {
    && acc <= a
    && (NoDup(acc) ==> NoDup(a))
    && (forall i :: |acc| <= i < |a| ==> a[i] in nts && a[i] !in acc)
  }

  lemma {:induction false} AddRefsFacts(acc: seq<string>, p: string, nts: seq<string>)
    ensures Extends(acc, AddRefs(acc, p, nts), nts)
    ensures forall y :: y in AddRefs(acc, p, nts) <==>
      y in acc || (y in nts && Mentions(p, y))
    decreases |p|
  {
    if |p| > 0 {
      var front := p[..|p| - 1];
      AddRefsFacts(acc, front, nts);
      forall y ensures Mentions(p, y) <==> Mentions(front, y) || Sym(p, |p| - 1) == y {
        if Mentions(p, y) {
          var k :| 0 <= k < |p| && Sym(p, k) == y;
          if k < |front| {
            assert Sym(front, k) == y;
          }
        }
        if Mentions(front, y) {
          var k :| 0 <= k < |front| && Sym(front, k) == y;
          assert Sym(p, k) == y;
        }
      }
    }
  }

  lemma ExtendsTrans(a: seq<string>, b: seq<string>, c: seq<string>, nts: seq<string>)
    requires Extends(a, b, nts) && Extends(b, c, nts)
    ensures Extends(a, c, nts)
  {
    forall i | |a| <= i < |c| ensures c[i] in nts && c[i] !in a {
      if i < |b| {
        assert c[i] == b[i];
      }
    }
  }

  lemma {:induction false} AddRefsAllFacts(acc: seq<string>, prods: seq<string>, nts: seq<string>)
    ensures Extends(acc, AddRefsAll(acc, prods, nts), nts)
    ensures forall y :: y in AddRefsAll(acc, prods, nts) <==>
      y in acc || (y in nts && SomeMentions(prods, y))
    decreases |prods|
  {
    if |prods| > 0 {
      var front, last := prods[..|prods| - 1], prods[|prods| - 1];
      AddRefsAllFacts(acc, front, nts);
      AddRefsFacts(AddRefsAll(acc, front, nts), last, nts);
      ExtendsTrans(acc, AddRefsAll(acc, front, nts), AddRefsAll(acc, prods, nts), nts);
      assert prods == front + [last];
      forall y ensures SomeMentions(prods, y) <==> SomeMentions(front, y) || Mentions(last, y) {
        if SomeMentions(prods, y) {
          var q :| q in prods && Mentions(q, y);
        }
      }
    }
  }

  lemma {:induction false} AccPassFacts(rules: Rules, nts: seq<string>, S: seq<string>, acc: seq<string>)
    ensures Extends(acc, AccPass(rules, nts, S, acc), nts)
    ensures forall y :: y in AccPass(rules, nts, S, acc) <==>
      y in acc || (y in nts && exists nt :: nt in S && RefersTo(rules, nt, y))
    decreases |S|
  {
    if |S| > 0 {
      var front, nt := S[..|S| - 1], S[|S| - 1];
      var a := AccPass(rules, nts, front, acc);
      AccPassFacts(rules, nts, front, acc);
      assert S == front + [nt];
      if nt in rules.entries {
        AddRefsAllFacts(a, rules.entries[nt], nts);
        ExtendsTrans(acc, a, AccPass(rules, nts, S, acc), nts);
      }
      forall y ensures (exists n :: n in S && RefersTo(rules, n, y)) <==>
        (exists n :: n in front && RefersTo(rules, n, y)) || RefersTo(rules, nt, y)
      {
        if exists n :: n in S && RefersTo(rules, n, y) {
          var n :| n in S && RefersTo(rules, n, y);
          if n != nt {
            assert n in front;
          }
        }
      }
    }
  }

  /** The candidates: the start symbol and the non-terminals. */
  function Candidates(nts: seq<string>, start: string): set<string> {
    Members(nts) + {start}
  }

  /** A pass that appends something adds a new candidate. */
  lemma ExtendsStrictly(acc: seq<string>, a: seq<string>, nts: seq<string>, start: string)
    requires Extends(acc, a, nts) && |a| > |acc| && Members(acc) <= Candidates(nts, start)
    ensures Members(acc) < Members(a) <= Candidates(nts, start)
  {
    assert a[|acc|] in Members(a) - Members(acc);
    forall y | y in Members(a) ensures y in Candidates(nts, start) {
      var i :| 0 <= i < |a| && a[i] == y;
      if i < |acc| {
        assert a[i] == acc[i];
      }
    }
  }

  /** Passes over `[...accessible]` until one adds nothing. */
  function AccFix(rules: Rules, nts: seq<string>, start: string, acc: seq<string>): seq<string>
    requires Members(acc) <= Candidates(nts, start)
    decreases |Candidates(nts, start) - Members(acc)|
  {
    var a := AccPass(rules, nts, acc, acc);
    if |a| == |acc| then acc else
      AccPassFacts(rules, nts, acc, acc);
      ExtendsStrictly(acc, a, nts, start);
      CardLess(Candidates(nts, start), Members(acc), Members(a));
      AccFix(rules, nts, start, a)
  }

  /** `accessible` after the loop. */
  function Accessible(rules: Rules, nts: seq<string>, start: string): seq<string> {
    AccFix(rules, nts, start, [start])
  }

  /** Every non-terminal a member refers to is a member. */
  predicate ReachClosed(rules: Rules, nts: seq<string>, Z: set<string>) {
    forall nt, y :: nt in Z && y in nts && RefersTo(rules, nt, y) ==> y in Z
  }

  lemma {:induction false} AccFixFacts(rules: Rules, nts: seq<string>, start: string, acc: seq<string>)
    requires Members(acc) <= Candidates(nts, start)
    ensures Extends(acc, AccFix(rules, nts, start, acc), nts)
    ensures ReachClosed(rules, nts, Members(AccFix(rules, nts, start, acc)))
    ensures forall Z :: Members(acc) <= Z && ReachClosed(rules, nts, Z) ==> Members(AccFix(rules, nts, start, acc)) <= Z
    decreases |Candidates(nts, start) - Members(acc)|
  {
    var a := AccPass(rules, nts, acc, acc);
    AccPassFacts(rules, nts, acc, acc);
    if |a| == |acc| {
      assert a == acc;
    } else {
      ExtendsStrictly(acc, a, nts, start);
      CardLess(Candidates(nts, start), Members(acc), Members(a));
      AccFixFacts(rules, nts, start, a);
      ExtendsTrans(acc, a, AccFix(rules, nts, start, acc), nts);
      forall Z | Members(acc) <= Z && ReachClosed(rules, nts, Z) ensures Members(a) <= Z {
      }
    }
  }

  /**
   * The accessible symbols start with the start symbol, hold each symbol once,
   * and are exactly the start symbol and what it reaches through references to
   * non-terminals: closed under references, and inside every closed set that
   * holds the start symbol.
   */
  lemma AccessibleFacts(rules: Rules, nts: seq<string>, start: string)
    ensures |Accessible(rules, nts, start)| > 0 && Accessible(rules, nts, start)[0] == start
    ensures NoDup(Accessible(rules, nts, start))
    ensures Members(Accessible(rules, nts, start)) <= Candidates(nts, start)
    ensures ReachClosed(rules, nts, Members(Accessible(rules, nts, start)))
    ensures forall Z :: start in Z && ReachClosed(rules, nts, Z) ==> Members(Accessible(rules, nts, start)) <= Z
  {
    var r := Accessible(rules, nts, start);
    AccFixFacts(rules, nts, start, [start]);
    assert [start] <= r;
    forall y | y in Members(r) ensures y in Candidates(nts, start) {
      var i :| 0 <= i < |r| && r[i] == y;
    }
  }

  /** One pass of the productivity loop over `nonTerminals`. */
  function ProdPass(rules: Rules, terminals: seq<string>, nts: seq<string>, prod: seq<string>): seq<string>
    decreases |nts|
  {
    if |nts| == 0 then prod else
      var a := ProdPass(rules, terminals, nts[..|nts| - 1], prod);
      var nt := nts[|nts| - 1];
      if nt in rules.entries && nt !in a && SomeAllIn(rules.entries[nt], Members(terminals) + Members(a))
      then a + [nt] else a
  }

  lemma ProdPassSnoc(rules: Rules, terminals: seq<string>, nts: seq<string>, prod: seq<string>, i: nat)
    requires i < |nts|
    ensures ProdPass(rules, terminals, nts[..i + 1], prod) ==
      var a := ProdPass(rules, terminals, nts[..i], prod);
      if nts[i] in rules.entries && nts[i] !in a && SomeAllIn(rules.entries[nts[i]], Members(terminals) + Members(a))
      then a + [nts[i]] else a
  {
    assert nts[..i + 1][..i] == nts[..i];
  }

  lemma {:induction false} ProdPassGrows(rules: Rules, terminals: seq<string>, nts: seq<string>, prod: seq<string>)
    ensures Extends(prod, ProdPass(rules, terminals, nts, prod), nts)
    decreases |nts|
  {
    if |nts| > 0 {
      var front := nts[..|nts| - 1];
      ProdPassGrows(rules, terminals, front, prod);
      var a := ProdPass(rules, terminals, front, prod);
      assert Extends(a, ProdPass(rules, terminals, nts, prod), nts);
      ExtendsTrans(prod, a, ProdPass(rules, terminals, nts, prod), nts);
    }
  }

  /** Every non-terminal with a production of terminals and members is a member. */
  predicate ProdClosed(rules: Rules, terminals: seq<string>, nts: seq<string>, Z: set<string>) {
    forall nt, p :: nt in nts && nt in rules.entries && p in rules.entries[nt] && AllIn(p, Members(terminals) + Z) ==> nt in Z
  }

  lemma {:induction false} ProdPassStable(rules: Rules, terminals: seq<string>, nts: seq<string>, prod: seq<string>)
    requires ProdPass(rules, terminals, nts, prod) == prod
    ensures ProdClosed(rules, terminals, nts, Members(prod))
    decreases |nts|
  {
    if |nts| > 0 {
      var front := nts[..|nts| - 1];
      ProdPassGrows(rules, terminals, front, prod);
      var a := ProdPass(rules, terminals, front, prod);
      assert Extends(a, ProdPass(rules, terminals, nts, prod), nts);
      assert a == prod;
      ProdPassStable(rules, terminals, front, prod);
      assert nts == front + [nts[|nts| - 1]];
    }
  }

  lemma {:induction false} ProdPassWithin(rules: Rules, terminals: seq<string>, nts: seq<string>, prod: seq<string>, Z: set<string>)
    requires Members(prod) <= Z && ProdClosed(rules, terminals, nts, Z)
    ensures Members(ProdPass(rules, terminals, nts, prod)) <= Z
    decreases |nts|
  {
    if |nts| > 0 {
      var front, nt := nts[..|nts| - 1], nts[|nts| - 1];
      ProdPassWithin(rules, terminals, front, prod, Z);
      var a := ProdPass(rules, terminals, front, prod);
      if nt in rules.entries && nt !in a && SomeAllIn(rules.entries[nt], Members(terminals) + Members(a)) {
        var p :| p in rules.entries[nt] && AllIn(p, Members(terminals) + Members(a));
        assert AllIn(p, Members(terminals) + Z);
      }
    }
  }

  /** Passes over `nonTerminals` until one adds nothing. */
  function ProdFix(rules: Rules, terminals: seq<string>, nts: seq<string>, start: string, prod: seq<string>): seq<string>
    requires Members(prod) <= Candidates(nts, start)
    decreases |Candidates(nts, start) - Members(prod)|
  {
    var a := ProdPass(rules, terminals, nts, prod);
    if |a| == |prod| then prod else
      ProdPassGrows(rules, terminals, nts, prod);
      ExtendsStrictly(prod, a, nts, start);
      CardLess(Candidates(nts, start), Members(prod), Members(a));
      ProdFix(rules, terminals, nts, start, a)
  }

  /** `productive` after the loop. */
  function Productive(rules: Rules, terminals: seq<string>, nts: seq<string>, start: string): seq<string> {
    ProdFix(rules, terminals, nts, start, [start])
  }

  lemma {:induction false} ProdFixFacts(rules: Rules, terminals: seq<string>, nts: seq<string>, start: string, prod: seq<string>)
    requires Members(prod) <= Candidates(nts, start)
    ensures Extends(prod, ProdFix(rules, terminals, nts, start, prod), nts)
    ensures ProdClosed(rules, terminals, nts, Members(ProdFix(rules, terminals, nts, start, prod)))
    ensures forall Z :: Members(prod) <= Z && ProdClosed(rules, terminals, nts, Z) ==>
      Members(ProdFix(rules, terminals, nts, start, prod)) <= Z
    decreases |Candidates(nts, start) - Members(prod)|
  {
    var a := ProdPass(rules, terminals, nts, prod);
    ProdPassGrows(rules, terminals, nts, prod);
    if |a| == |prod| {
      assert a == prod;
      ProdPassStable(rules, terminals, nts, prod);
    } else {
      ExtendsStrictly(prod, a, nts, start);
      CardLess(Candidates(nts, start), Members(prod), Members(a));
      ProdFixFacts(rules, terminals, nts, start, a);
      ExtendsTrans(prod, a, ProdFix(rules, terminals, nts, start, prod), nts);
      forall Z | Members(prod) <= Z && ProdClosed(rules, terminals, nts, Z) ensures Members(a) <= Z {
        ProdPassWithin(rules, terminals, nts, prod, Z);
      }
    }
  }

  /**
   * The productive symbols start with the start symbol, kept whatever its
   * rules, hold each symbol once, and are exactly the least set holding it in
   * which every non-terminal with a production of terminals and members is a
   * member.
   */
  lemma ProductiveFacts(rules: Rules, terminals: seq<string>, nts: seq<string>, start: string)
    ensures |Productive(rules, terminals, nts, start)| > 0 && Productive(rules, terminals, nts, start)[0] == start
    ensures NoDup(Productive(rules, terminals, nts, start))
    ensures Members(Productive(rules, terminals, nts, start)) <= Candidates(nts, start)
    ensures ProdClosed(rules, terminals, nts, Members(Productive(rules, terminals, nts, start)))
    ensures forall Z :: start in Z && ProdClosed(rules, terminals, nts, Z) ==>
      Members(Productive(rules, terminals, nts, start)) <= Z
  {
    var r := Productive(rules, terminals, nts, start);
    ProdFixFacts(rules, terminals, nts, start, [start]);
    assert [start] <= r;
    forall y | y in Members(r) ensures y in Candidates(nts, start) {
      var i :| 0 <= i < |r| && r[i] == y;
    }
  }
}

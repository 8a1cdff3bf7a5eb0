/**
 * The last stage of lab5/CNF.js, `getCNFform`, and the fresh-letter supply
 * `_createNewNonTerminal` it draws on.
 *
 * Every terminal occurrence is replaced by one shared letter `X` with the rule
 * `X -> terminal`; a right side longer than two symbols is shortened from the
 * left, the first two symbols becoming a new letter `Y` with the single rule
 * `Y -> first second`. The fresh letter is pushed onto the non-terminals twice:
 * once by `_createNewNonTerminal` and once by `getCNFform` itself. When the
 * alphabet runs out the stage throws; the non-terminals then keep what was
 * pushed so far and the rules are left as they were.
 */
module CnfForm {
  import opened Wrappers
  import opened Seqs
  import opened Dicts
  import opened CnfRules

  /** The letters `_createNewNonTerminal` tries, in order. */
  const Alphabet: string := "ABCDEFGHIJKLMNOPQRSTUVWXYZ"

  const NoLetterLeft: string := "No available non-terminal symbols."

  /** The first letter from position `i` of the alphabet on that is not in `nts`. */
  function FreshFrom(nts: seq<string>, i: nat): Option<string>
    decreases |Alphabet| - i
  {
    if i >= |Alphabet| then None
    else if [Alphabet[i]] !in nts then Some([Alphabet[i]])
    else FreshFrom(nts, i + 1)
  }

  /** What `_createNewNonTerminal` returns; `None` when it throws. */
  function FreshLetter(nts: seq<string>): Option<string> {
    FreshFrom(nts, 0)
  }

  predicate IsLetter(s: string) {
    |s| == 1 && s[0] in Alphabet
  }

  /** Every letter of the alphabet is already a non-terminal. */
  predicate AllTaken(nts: seq<string>) {
    forall i :: 0 <= i < |Alphabet| ==> [Alphabet[i]] in nts
  }

  lemma {:induction false} FreshFromFacts(nts: seq<string>, i: nat)
    requires i <= |Alphabet|
    ensures FreshFrom(nts, i).None? <==> forall j :: i <= j < |Alphabet| ==> [Alphabet[j]] in nts
    ensures FreshFrom(nts, i).Some? ==>
      exists j :: i <= j < |Alphabet| && FreshFrom(nts, i).value == [Alphabet[j]] && [Alphabet[j]] !in nts &&
        forall l :: i <= l < j ==> [Alphabet[l]] in nts
    decreases |Alphabet| - i
  {
    if i < |Alphabet| {
      if [Alphabet[i]] in nts {
        FreshFromFacts(nts, i + 1);
        if FreshFrom(nts, i + 1).Some? {
          var j :| i + 1 <= j < |Alphabet| && FreshFrom(nts, i + 1).value == [Alphabet[j]] &&
            [Alphabet[j]] !in nts && forall l :: i + 1 <= l < j ==> [Alphabet[l]] in nts;
          assert forall l :: i <= l < j ==> [Alphabet[l]] in nts;
        }
      } else {
        assert FreshFrom(nts, i).value == [Alphabet[i]];
      }
    }
  }

  /**
   * `_createNewNonTerminal` takes the first letter of the alphabet that is not
   * yet a non-terminal, and throws exactly when there is none.
   */
  lemma FreshLetterFacts(nts: seq<string>)
    ensures FreshLetter(nts).None? <==> AllTaken(nts)
    ensures FreshLetter(nts).Some? ==>
      exists j :: 0 <= j < |Alphabet| && FreshLetter(nts).value == [Alphabet[j]] && [Alphabet[j]] !in nts &&
        forall l :: 0 <= l < j ==> [Alphabet[l]] in nts
  {
    FreshFromFacts(nts, 0);
  }

  lemma FreshLetterIs(nts: seq<string>)
    ensures FreshLetter(nts).Some? ==> IsLetter(FreshLetter(nts).value) && FreshLetter(nts).value !in nts
    ensures FreshLetter(nts).None? ==> AllTaken(nts)
  {
    FreshLetterFacts(nts);
  }

  /**
   * The state of `getCNFform` between two steps: the rules built so far, the
   * letter chosen for each terminal, and `this.nonTerminals`; or the
   * non-terminals at the moment the alphabet ran out.
   */
  datatype Form =
    | Building(rules: Rules, terminalMap: map<string, string>, nts: seq<string>)
    | Stuck(nts: seq<string>)

  datatype Mapped = Mapped(form: Form, symbol: string)

  datatype Word = Word(form: Form, word: seq<string>)

  /** One symbol of a right side: a terminal becomes its letter, created on first sight. */
  function MapSymbol(f: Form, terminals: seq<string>, symbol: string): Mapped {
    if f.Stuck? || symbol !in terminals then Mapped(f, symbol)
    else if symbol in f.terminalMap then Mapped(f, f.terminalMap[symbol])
    else match FreshLetter(f.nts)
      case None => Mapped(Stuck(f.nts), symbol)
      case Some(x) => Mapped(Building(f.rules.Put(x, [symbol]), f.terminalMap[symbol := x], f.nts + [x, x]), x)
  }

  /** The first `n` symbols of `p`, mapped one after the other. */
  function MapSymbols(f: Form, terminals: seq<string>, p: string, n: nat): Word
    requires n <= |p|
  {
    if n == 0 then Word(f, []) else
      var w := MapSymbols(f, terminals, p, n - 1);
      var m := MapSymbol(w.form, terminals, Sym(p, n - 1));
      Word(m.form, w.word + [m.symbol])
  }

  /** The `while (newProduction.length > 2)` loop. */
  function Binarise(f: Form, word: seq<string>): Word
    decreases |word|
  {
    if f.Stuck? || |word| <= 2 then Word(f, word)
    else match FreshLetter(f.nts)
      case None => Word(Stuck(f.nts), word)
      case Some(y) =>
        Binarise(Building(f.rules.Put(y, [word[0] + word[1]]), f.terminalMap, f.nts + [y, y]), [y] + word[2..])
  }

  /** One shortening step: the first two symbols become a fresh letter `y`. */
  lemma BinariseStep(f: Form, word: seq<string>, y: string)
    requires f.Building? && |word| > 2 && FreshLetter(f.nts) == Some(y)
    ensures Binarise(f, word)
      == Binarise(Building(f.rules.Put(y, [word[0] + word[1]]), f.terminalMap, f.nts + [y, y]), [y] + word[2..])
  {
  }

  /** Shortening gets stuck when a long word meets a full alphabet. */
  lemma BinariseNone(f: Form, word: seq<string>)
    requires f.Building? && |word| > 2 && FreshLetter(f.nts) == None
    ensures Binarise(f, word).form == Stuck(f.nts)
  {
  }

  /** One right side `p` of `nt`: mapped, shortened, joined and appended to `newRules[nt]`. */
  function ConvertProduction(f: Form, terminals: seq<string>, nt: string, p: string): Form {
    if f.Stuck? then f else
      var b := Binarise(MapSymbols(f, terminals, p, |p|).form, MapSymbols(f, terminals, p, |p|).word);
      match b.form
      case Stuck(_) => b.form
      case Building(r, tm, n) => Building(r.Put(nt, Listed(r, nt) + [Flatten(b.word)]), tm, n)
  }

  /** The first `n` right sides in `prods`. */
  function ConvertProductions(f: Form, terminals: seq<string>, nt: string, prods: seq<string>, n: nat): Form
    requires n <= |prods|
  {
    if n == 0 then f else ConvertProduction(ConvertProductions(f, terminals, nt, prods, n - 1), terminals, nt, prods[n - 1])
  }

  /** `newRules[nt] = []` followed by every right side of `nt` in `rules`. */
  function ConvertKey(f: Form, terminals: seq<string>, rules: Rules, nt: string): Form {
    if f.Stuck? then f else
      ConvertProductions(Building(f.rules.Put(nt, []), f.terminalMap, f.nts), terminals, nt,
        Listed(rules, nt), |Listed(rules, nt)|)
  }

  /** The first `n` keys of `rules`, in order. */
  function ConvertKeys(f: Form, terminals: seq<string>, rules: Rules, n: nat): Form
    requires n <= |rules.keys|
  {
    if n == 0 then f else ConvertKey(ConvertKeys(f, terminals, rules, n - 1), terminals, rules, rules.keys[n - 1])
  }

  /** `getCNFform` on the rules, terminals and non-terminals it starts from. */
  function CNFForm(rules: Rules, terminals: seq<string>, nts: seq<string>): Form {
    ConvertKeys(Building(Empty(), map[], nts), terminals, rules, |rules.keys|)
  }

  // ---------------------------------------------------------------------------
  // Failure propagates: once the alphabet has run out, nothing changes.

  lemma {:induction false} MapSymbolsStuck(f: Form, terminals: seq<string>, p: string, m: nat, n: nat)
    requires m <= n <= |p| && MapSymbols(f, terminals, p, m).form.Stuck?
    ensures MapSymbols(f, terminals, p, n).form == MapSymbols(f, terminals, p, m).form
    decreases n
  {
    if n > m {
      MapSymbolsStuck(f, terminals, p, m, n - 1);
    }
  }

  lemma {:induction false} ProductionsStuck(f: Form, terminals: seq<string>, nt: string, prods: seq<string>, m: nat, n: nat)
    requires m <= n <= |prods| && ConvertProductions(f, terminals, nt, prods, m).Stuck?
    ensures ConvertProductions(f, terminals, nt, prods, n) == ConvertProductions(f, terminals, nt, prods, m)
    decreases n
  {
    hide MapSymbols, Binarise, FreshLetter;
    if n > m {
      ProductionsStuck(f, terminals, nt, prods, m, n - 1);
    }
  }

  lemma {:induction false} KeysStuck(f: Form, terminals: seq<string>, rules: Rules, m: nat, n: nat)
    requires m <= n <= |rules.keys| && ConvertKeys(f, terminals, rules, m).Stuck?
    ensures ConvertKeys(f, terminals, rules, n) == ConvertKeys(f, terminals, rules, m)
    decreases n
  {
    if n > m {
      KeysStuck(f, terminals, rules, m, n - 1);
    }
  }

  /** A letter missing while mapping the `k`-th symbol of `p` leaves `p`'s conversion stuck there. */
  lemma SymbolStuck(f: Form, terminals: seq<string>, nt: string, p: string, k: nat)
    requires f.Building? && k < |p| && MapSymbols(f, terminals, p, k + 1).form.Stuck?
    ensures ConvertProduction(f, terminals, nt, p) == MapSymbols(f, terminals, p, k + 1).form
  {
    MapSymbolsStuck(f, terminals, p, k + 1, |p|);
  }

  /** Getting stuck at the `j`-th right side of the `i`-th key is getting stuck for good. */
  lemma StuckLifts(rules: Rules, terminals: seq<string>, base: seq<string>, i: nat, j: nat)
    requires i < |rules.keys|
    requires var g := ConvertKeys(Building(Empty(), map[], base), terminals, rules, i);
      g.Building? && j < |Listed(rules, rules.keys[i])| &&
      ConvertProductions(Building(g.rules.Put(rules.keys[i], []), g.terminalMap, g.nts), terminals,
        rules.keys[i], Listed(rules, rules.keys[i]), j + 1).Stuck?
    ensures var g := ConvertKeys(Building(Empty(), map[], base), terminals, rules, i);
      CNFForm(rules, terminals, base) ==
      ConvertProductions(Building(g.rules.Put(rules.keys[i], []), g.terminalMap, g.nts), terminals,
        rules.keys[i], Listed(rules, rules.keys[i]), j + 1)
  {
    hide ConvertKeys, ConvertKey, ConvertProductions, ConvertProduction, MapSymbols, MapSymbol, Binarise, FreshLetter;
    var f0 := Building(Empty(), map[], base);
    var g := ConvertKeys(f0, terminals, rules, i);
    var nt := rules.keys[i];
    var f1 := Building(g.rules.Put(nt, []), g.terminalMap, g.nts);
    var s := ConvertProductions(f1, terminals, nt, Listed(rules, nt), j + 1);
    KeyIsStuck(f0, g, f1, s, terminals, rules, i, j);
    KeysStuck(f0, terminals, rules, i + 1, |rules.keys|);
  }

  /** Getting stuck at the `j`-th right side of the `i`-th key leaves the first `i + 1` keys stuck there. */
  lemma KeyIsStuck(f0: Form, g: Form, f1: Form, s: Form, terminals: seq<string>, rules: Rules, i: nat, j: nat)
    requires i < |rules.keys| && g == ConvertKeys(f0, terminals, rules, i) && g.Building?
    requires f1 == Building(g.rules.Put(rules.keys[i], []), g.terminalMap, g.nts)
    requires j < |Listed(rules, rules.keys[i])|
    requires s == ConvertProductions(f1, terminals, rules.keys[i], Listed(rules, rules.keys[i]), j + 1) && s.Stuck?
    ensures ConvertKeys(f0, terminals, rules, i + 1) == s
  {
    hide *;
    var nt := rules.keys[i];
    ProductionsStuck(f1, terminals, nt, Listed(rules, nt), j + 1, |Listed(rules, nt)|);
    KeyStuck(g, f1, s, terminals, rules, nt);
    KeysStep1(f0, terminals, rules, i);
  }

  lemma KeyStuck(g: Form, f1: Form, s: Form, terminals: seq<string>, rules: Rules, nt: string)
    requires g.Building? && f1 == Building(g.rules.Put(nt, []), g.terminalMap, g.nts)
    requires ConvertProductions(f1, terminals, nt, Listed(rules, nt), |Listed(rules, nt)|) == s
    ensures ConvertKey(g, terminals, rules, nt) == s
  {
  }

  lemma KeysStep1(f0: Form, terminals: seq<string>, rules: Rules, i: nat)
    requires i < |rules.keys|
    ensures ConvertKeys(f0, terminals, rules, i + 1) == ConvertKey(ConvertKeys(f0, terminals, rules, i), terminals, rules, rules.keys[i])
  {
  }

  // ---------------------------------------------------------------------------
  // What holds of every intermediate state.

  lemma PrefixIn(a: seq<string>, b: seq<string>)
    requires a <= b
    ensures forall x :: x in a ==> x in b
  {
    forall x | x in a
      ensures x in b
    {
      var i :| 0 <= i < |a| && a[i] == x;
      assert b[i] == x;
    }
  }

  /** The non-terminals are `base` followed by fresh letters only. */
  predicate Extended(nts: seq<string>, base: seq<string>) {
    base <= nts && forall i :: |base| <= i < |nts| ==> IsLetter(nts[i]) && nts[i] !in base
  }

  /** A symbol of a new right side: one character, and a terminal only if it is one of the new letters. */
  predicate Clean(s: string, nts: seq<string>, terminals: seq<string>, base: seq<string>) {
    |s| == 1 && (s in terminals ==> s in nts && s !in base)
  }

  predicate Short(r: Rules) {
    forall k, p :: k in r.entries && p in r.entries[k] ==> |p| <= 2
  }

  predicate PairsClean(r: Rules, nts: seq<string>, terminals: seq<string>, base: seq<string>) {
    forall k, p :: k in r.entries && p in r.entries[k] && |p| == 2 ==>
      Clean(Sym(p, 0), nts, terminals, base) && Clean(Sym(p, 1), nts, terminals, base)
  }

  /** Every terminal seen so far has a new letter whose only right side is that terminal. */
  predicate LettersRule(r: Rules, tm: map<string, string>, nts: seq<string>, terminals: seq<string>, base: seq<string>) {
    forall t :: t in tm ==>
      t in terminals && IsLetter(tm[t]) && tm[t] in nts && tm[t] !in base &&
      tm[t] in r.entries && r.entries[tm[t]] == [t]
  }

  /** A left side that `rules` does not have is a new letter with one right side: a pair or its terminal. */
  predicate NewKeysRule(r: Rules, tm: map<string, string>, nts: seq<string>, rules: Rules, base: seq<string>) {
    forall k :: k in r.entries && k !in rules.entries ==>
      k in nts && k !in base && |r.entries[k]| == 1 &&
      (|r.entries[k][0]| == 2 || (r.entries[k][0] in tm && tm[r.entries[k][0]] == k))
  }

  ghost predicate Good(f: Form, rules: Rules, terminals: seq<string>, base: seq<string>) {
    match f
    case Stuck(n) => AllTaken(n) && Extended(n, base)
    case Building(r, tm, n) =>
      && r.Valid() && Extended(n, base) && Short(r)
      && PairsClean(r, n, terminals, base)
      && LettersRule(r, tm, n, terminals, base)
      && NewKeysRule(r, tm, n, rules, base)
  }

  /** From `f` to `g` the non-terminals only grow, and nothing known is changed except the keys in `except`. */
  predicate Keeps(f: Form, g: Form, except: set<string>) {
    f.nts <= g.nts &&
    (f.Building? && g.Building? ==>
      (forall k :: k in f.nts && k !in except ==> (k in g.rules.entries <==> k in f.rules.entries)) &&
      (forall k :: k in f.nts && k !in except && k in f.rules.entries ==> g.rules.entries[k] == f.rules.entries[k]) &&
      (forall t :: t in f.terminalMap ==> t in g.terminalMap && g.terminalMap[t] == f.terminalMap[t]))
  }

  lemma KeepsTrans(f: Form, g: Form, h: Form, except: set<string>)
    requires Keeps(f, g, except) && Keeps(g, h, except)
    requires g.Stuck? ==> h.Stuck?
    ensures Keeps(f, h, except)
  {
    PrefixIn(f.nts, g.nts);
  }

  /** Every terminal occurrence of `p` has a letter. */
  predicate Covered(p: string, terminals: seq<string>, tm: map<string, string>) {
    forall j :: 0 <= j < |p| && Sym(p, j) in terminals ==> Sym(p, j) in tm
  }

  lemma CleanGrows(s: string, n: seq<string>, m: seq<string>, terminals: seq<string>, base: seq<string>)
    requires Clean(s, n, terminals, base) && n <= m
    ensures Clean(s, m, terminals, base)
  {
    PrefixIn(n, m);
  }

  /** `f.nts + [x, x]` for a fresh letter `x`, with one rule added. */
  lemma GrowBy(r: Rules, nts: seq<string>, x: string, terminals: seq<string>, base: seq<string>)
    requires Extended(nts, base) && PairsClean(r, nts, terminals, base)
    requires IsLetter(x) && x !in nts
    ensures Extended(nts + [x, x], base)
    ensures PairsClean(r, nts + [x, x], terminals, base)
    ensures x !in base
  {
    PrefixIn(base, nts);
    var n := nts + [x, x];
    assert base <= n;
    forall k, p | k in r.entries && p in r.entries[k] && |p| == 2
      ensures Clean(Sym(p, 0), n, terminals, base) && Clean(Sym(p, 1), n, terminals, base)
    {
      CleanGrows(Sym(p, 0), nts, n, terminals, base);
      CleanGrows(Sym(p, 1), nts, n, terminals, base);
    }
  }

  lemma MapSymbolGood(f: Form, rules: Rules, terminals: seq<string>, base: seq<string>, symbol: string)
    requires Good(f, rules, terminals, base) && |symbol| == 1
    requires forall k :: k in rules.entries ==> k in base
    ensures var m := MapSymbol(f, terminals, symbol);
      && Good(m.form, rules, terminals, base) && Keeps(f, m.form, {}) && (f.Stuck? ==> m.form == f)
      && (m.form.Building? ==>
        Clean(m.symbol, m.form.nts, terminals, base) &&
        (symbol in terminals ==> symbol in m.form.terminalMap))
  {
    if f.Building? && symbol in terminals && symbol !in f.terminalMap {
      FreshLetterIs(f.nts);
      PrefixIn(base, f.nts);
      if FreshLetter(f.nts).Some? {
        var x := FreshLetter(f.nts).value;
        AddLetterGood(f.rules, f.terminalMap, f.nts, x, symbol, rules, terminals, base);
      }
    }
  }

  /** The state after a terminal `t` first seen gets the fresh letter `x`. */
  lemma AddLetterGood(r: Rules, tm: map<string, string>, nts: seq<string>, x: string, t: string,
                      rules: Rules, terminals: seq<string>, base: seq<string>)
    requires Good(Building(r, tm, nts), rules, terminals, base) && |t| == 1 && t in terminals && t !in tm
    requires forall k :: k in rules.entries ==> k in base
    requires IsLetter(x) && x !in nts
    ensures Good(Building(r.Put(x, [t]), tm[t := x], nts + [x, x]), rules, terminals, base)
  {
    GrowBy(r, nts, x, terminals, base);
    PrefixIn(base, nts);
    assert x !in r.entries;
    AddLetterPairs(r, nts, x, t, terminals, base);
    AddLetterLetters(r, tm, nts, x, t, terminals, base);
    AddLetterNewKeys(r, tm, nts, x, t, rules, base);
  }

  lemma AddLetterPairs(r: Rules, nts: seq<string>, x: string, t: string, terminals: seq<string>, base: seq<string>)
    requires Short(r) && PairsClean(r, nts + [x, x], terminals, base) && |t| == 1 && x !in r.entries
    ensures Short(r.Put(x, [t])) && PairsClean(r.Put(x, [t]), nts + [x, x], terminals, base)
  {
    var r2, n2 := r.Put(x, [t]), nts + [x, x];
    forall k, p | k in r2.entries && p in r2.entries[k] && |p| == 2
      ensures Clean(Sym(p, 0), n2, terminals, base) && Clean(Sym(p, 1), n2, terminals, base)
    {
      assert k != x;
      assert p in r.entries[k];
    }
  }

  lemma AddLetterLetters(r: Rules, tm: map<string, string>, nts: seq<string>, x: string, t: string,
                         terminals: seq<string>, base: seq<string>)
    requires LettersRule(r, tm, nts, terminals, base) && t in terminals
    requires IsLetter(x) && x !in nts && x !in base
    ensures LettersRule(r.Put(x, [t]), tm[t := x], nts + [x, x], terminals, base)
  {
    var r2, tm2, n2 := r.Put(x, [t]), tm[t := x], nts + [x, x];
    forall u | u in tm2
      ensures u in terminals && IsLetter(tm2[u]) && tm2[u] in n2 && tm2[u] !in base &&
        tm2[u] in r2.entries && r2.entries[tm2[u]] == [u]
    {
      if u != t {
        assert tm2[u] == tm[u] && tm[u] in nts;
      }
    }
  }

  lemma AddLetterNewKeys(r: Rules, tm: map<string, string>, nts: seq<string>, x: string, t: string,
                         rules: Rules, base: seq<string>)
    requires NewKeysRule(r, tm, nts, rules, base)
    requires t !in tm && x !in base && x !in r.entries
    ensures NewKeysRule(r.Put(x, [t]), tm[t := x], nts + [x, x], rules, base)
  {
    var r2, tm2, n2 := r.Put(x, [t]), tm[t := x], nts + [x, x];
    forall k | k in r2.entries && k !in rules.entries
      ensures k in n2 && k !in base && |r2.entries[k]| == 1 &&
        (|r2.entries[k][0]| == 2 || (r2.entries[k][0] in tm2 && tm2[r2.entries[k][0]] == k))
    {
      if k != x {
        var q := r.entries[k][0];
        assert |q| == 2 || (q in tm && tm[q] == k);
        if |q| != 2 {
          assert q != t;
        }
      }
    }
  }

  /** What `MapSymbols` promises about the first `n` symbols of `p`. */
  ghost predicate MappedWell(f: Form, w: Word, rules: Rules, terminals: seq<string>, base: seq<string>, p: string, n: nat)
    requires n <= |p|
  {
    && Good(w.form, rules, terminals, base) && Keeps(f, w.form, {}) && (f.Stuck? ==> w.form == f)
    && (w.form.Building? ==>
      |w.word| == n && WordClean(w.word, w.form.nts, terminals, base) &&
      (forall j :: 0 <= j < n && Sym(p, j) in terminals ==> Sym(p, j) in w.form.terminalMap))
  }

  lemma {:induction false} MapSymbolsGood(f: Form, rules: Rules, terminals: seq<string>, base: seq<string>, p: string, n: nat)
    requires Good(f, rules, terminals, base) && n <= |p|
    requires forall k :: k in rules.entries ==> k in base
    ensures MappedWell(f, MapSymbols(f, terminals, p, n), rules, terminals, base, p, n)
    decreases n
  {
    if n > 0 {
      hide MapSymbol, MappedWell, FreshLetter;
      MapSymbolsGood(f, rules, terminals, base, p, n - 1);
      MapSymbolNext(f, MapSymbols(f, terminals, p, n - 1), rules, terminals, base, p, n);
    }
  }

  /** The `n`-th symbol keeps what the first `n - 1` established. */
  lemma MapSymbolNext(f: Form, w: Word, rules: Rules, terminals: seq<string>, base: seq<string>, p: string, n: nat)
    requires 0 < n <= |p| && MappedWell(f, w, rules, terminals, base, p, n - 1)
    requires forall k :: k in rules.entries ==> k in base
    ensures var m := MapSymbol(w.form, terminals, Sym(p, n - 1));
      MappedWell(f, Word(m.form, w.word + [m.symbol]), rules, terminals, base, p, n)
  {
    var m := MapSymbol(w.form, terminals, Sym(p, n - 1));
    MapSymbolGood(w.form, rules, terminals, base, Sym(p, n - 1));
    MapSymbolsStep(f, w, m, rules, terminals, base, p, n);
  }

  lemma MapSymbolsStep(f: Form, w: Word, m: Mapped, rules: Rules, terminals: seq<string>, base: seq<string>, p: string, n: nat)
    requires 0 < n <= |p| && MappedWell(f, w, rules, terminals, base, p, n - 1)
    requires Good(m.form, rules, terminals, base) && Keeps(w.form, m.form, {}) && (w.form.Stuck? ==> m.form == w.form)
    requires m.form.Building? ==>
      Clean(m.symbol, m.form.nts, terminals, base) && (Sym(p, n - 1) in terminals ==> Sym(p, n - 1) in m.form.terminalMap)
    ensures MappedWell(f, Word(m.form, w.word + [m.symbol]), rules, terminals, base, p, n)
  {
    hide Good;
    KeepsTrans(f, w.form, m.form, {});
    if m.form.Building? {
      assert w.form.Building?;
      WordCleanGrows(w.word, w.form.nts, m.form.nts, terminals, base);
    }
  }

  /** The state after the fresh letter `y` gets the single right side `a b`. */
  lemma AddPairGood(r: Rules, tm: map<string, string>, nts: seq<string>, y: string, a: string, b: string,
                    rules: Rules, terminals: seq<string>, base: seq<string>)
    requires Good(Building(r, tm, nts), rules, terminals, base)
    requires Clean(a, nts, terminals, base) && Clean(b, nts, terminals, base)
    requires forall k :: k in rules.entries ==> k in base
    requires IsLetter(y) && y !in nts
    ensures Good(Building(r.Put(y, [a + b]), tm, nts + [y, y]), rules, terminals, base)
  {
    GrowBy(r, nts, y, terminals, base);
    PrefixIn(base, nts);
    assert y !in r.entries;
    CleanGrows(a, nts, nts + [y, y], terminals, base);
    CleanGrows(b, nts, nts + [y, y], terminals, base);
    AddPairPairs(r, nts + [y, y], y, a, b, terminals, base);
    AddPairLetters(r, tm, nts, y, a + b, terminals, base);
    AddPairNewKeys(r, tm, nts, y, a + b, rules, base);
  }

  lemma AddPairPairs(r: Rules, n2: seq<string>, y: string, a: string, b: string, terminals: seq<string>, base: seq<string>)
    requires Short(r) && PairsClean(r, n2, terminals, base) && y !in r.entries
    requires Clean(a, n2, terminals, base) && Clean(b, n2, terminals, base)
    ensures Short(r.Put(y, [a + b])) && PairsClean(r.Put(y, [a + b]), n2, terminals, base)
  {
    var r2 := r.Put(y, [a + b]);
    assert Sym(a + b, 0) == a && Sym(a + b, 1) == b;
    forall k, p | k in r2.entries && p in r2.entries[k] && |p| == 2
      ensures Clean(Sym(p, 0), n2, terminals, base) && Clean(Sym(p, 1), n2, terminals, base)
    {
      if k != y {
        assert p in r.entries[k];
      }
    }
  }

  lemma AddPairLetters(r: Rules, tm: map<string, string>, nts: seq<string>, y: string, q: string,
                       terminals: seq<string>, base: seq<string>)
    requires LettersRule(r, tm, nts, terminals, base) && y !in nts
    ensures LettersRule(r.Put(y, [q]), tm, nts + [y, y], terminals, base)
  {
  }

  lemma AddPairNewKeys(r: Rules, tm: map<string, string>, nts: seq<string>, y: string, q: string,
                       rules: Rules, base: seq<string>)
    requires NewKeysRule(r, tm, nts, rules, base) && |q| == 2 && y !in base && y !in r.entries
    ensures NewKeysRule(r.Put(y, [q]), tm, nts + [y, y], rules, base)
  {
  }

  /** What `Binarise` promises about the word `b` it ends with. */
  ghost predicate BinarisedWell(f: Form, b: Word, rules: Rules, terminals: seq<string>, base: seq<string>) {
    && Good(b.form, rules, terminals, base) && Keeps(f, b.form, {}) && (f.Stuck? ==> b.form == f)
    && (b.form.Building? ==> |b.word| <= 2 && WordClean(b.word, b.form.nts, terminals, base))
  }

  lemma {:induction false} BinariseGood(f: Form, rules: Rules, terminals: seq<string>, base: seq<string>, word: seq<string>)
    requires Good(f, rules, terminals, base)
    requires forall k :: k in rules.entries ==> k in base
    requires f.Building? ==> WordClean(word, f.nts, terminals, base)
    ensures BinarisedWell(f, Binarise(f, word), rules, terminals, base)
    decreases |word|
  {
    if f.Building? && |word| > 2 {
      FreshLetterIs(f.nts);
      if FreshLetter(f.nts).Some? {
        var y := FreshLetter(f.nts).value;
        var g := Building(f.rules.Put(y, [word[0] + word[1]]), f.terminalMap, f.nts + [y, y]);
        var rest := [y] + word[2..];
        PairGood(f, rules, terminals, base, word, y);
        BinariseGood(g, rules, terminals, base, rest);
        BinariseNext(f, g, Binarise(g, rest), rules, terminals, base);
        BinariseStep(f, word, y);
      }
    }
  }

  /** The first shortening step, from `f` to `g`, keeps what `Binarise` promises. */
  lemma PairGood(f: Form, rules: Rules, terminals: seq<string>, base: seq<string>, word: seq<string>, y: string)
    requires Good(f, rules, terminals, base) && f.Building? && |word| > 2
    requires forall k :: k in rules.entries ==> k in base
    requires WordClean(word, f.nts, terminals, base)
    requires IsLetter(y) && y !in f.nts
    ensures var g := Building(f.rules.Put(y, [word[0] + word[1]]), f.terminalMap, f.nts + [y, y]);
      Good(g, rules, terminals, base) && Keeps(f, g, {}) && WordClean([y] + word[2..], g.nts, terminals, base)
  {
    AddPairGood(f.rules, f.terminalMap, f.nts, y, word[0], word[1], rules, terminals, base);
    var g := Building(f.rules.Put(y, [word[0] + word[1]]), f.terminalMap, f.nts + [y, y]);
    var rest := [y] + word[2..];
    GrowBy(f.rules, f.nts, y, terminals, base);
    WordCleanGrows(word, f.nts, g.nts, terminals, base);
    forall i | 0 <= i < |rest|
      ensures Clean(rest[i], g.nts, terminals, base)
    {
      if i > 0 {
        assert rest[i] == word[i + 1];
      }
    }
  }

  lemma BinariseNext(f: Form, g: Form, b: Word, rules: Rules, terminals: seq<string>, base: seq<string>)
    requires f.Building? && g.Building? && Keeps(f, g, {}) && BinarisedWell(g, b, rules, terminals, base)
    ensures BinarisedWell(f, b, rules, terminals, base)
  {
    KeepsTrans(f, g, b.form, {});
  }

  predicate WordClean(word: seq<string>, nts: seq<string>, terminals: seq<string>, base: seq<string>) {
    forall i :: 0 <= i < |word| ==> Clean(word[i], nts, terminals, base)
  }

  lemma WordCleanGrows(word: seq<string>, n: seq<string>, m: seq<string>, terminals: seq<string>, base: seq<string>)
    requires WordClean(word, n, terminals, base) && n <= m
    ensures WordClean(word, m, terminals, base)
  {
    PrefixIn(n, m);
  }

  lemma FlattenShort(word: seq<string>)
    requires |word| <= 2 && forall i :: 0 <= i < |word| ==> |word[i]| == 1
    ensures |Flatten(word)| == |word|
    ensures |word| == 2 ==> Sym(Flatten(word), 0) == word[0] && Sym(Flatten(word), 1) == word[1]
  {
    if |word| == 1 {
      assert word == [] + [word[0]];
      FlattenSnoc([], word[0]);
    } else if |word| == 2 {
      assert word == [word[0]] + [word[1]];
      FlattenSnoc([word[0]], word[1]);
      assert [word[0]] == [] + [word[0]];
      FlattenSnoc([], word[0]);
    }
  }

  /** The state after the shortened right side `word` is appended to `newRules[nt]`. */
  lemma AppendGood(r: Rules, tm: map<string, string>, nts: seq<string>, nt: string, word: seq<string>,
                   rules: Rules, terminals: seq<string>, base: seq<string>)
    requires Good(Building(r, tm, nts), rules, terminals, base) && nt in rules.entries
    requires forall k :: k in rules.entries ==> k in base
    requires |word| <= 2 && WordClean(word, nts, terminals, base)
    ensures Good(Building(r.Put(nt, Listed(r, nt) + [Flatten(word)]), tm, nts), rules, terminals, base)
  {
    FlattenShort(word);
    AppendPairs(r, nts, nt, Flatten(word), terminals, base);
    AppendLetters(r, tm, nts, nt, Listed(r, nt) + [Flatten(word)], terminals, base);
  }

  lemma AppendPairs(r: Rules, nts: seq<string>, nt: string, q: string, terminals: seq<string>, base: seq<string>)
    requires Short(r) && PairsClean(r, nts, terminals, base)
    requires |q| <= 2 && (|q| == 2 ==> Clean(Sym(q, 0), nts, terminals, base) && Clean(Sym(q, 1), nts, terminals, base))
    ensures var r2 := r.Put(nt, Listed(r, nt) + [q]);
      Short(r2) && PairsClean(r2, nts, terminals, base)
  {
    var r2 := r.Put(nt, Listed(r, nt) + [q]);
    forall k, p | k in r2.entries && p in r2.entries[k]
      ensures |p| <= 2
      ensures |p| == 2 ==> Clean(Sym(p, 0), nts, terminals, base) && Clean(Sym(p, 1), nts, terminals, base)
    {
      if k != nt || p != q {
        assert p in r.entries[k];
      }
    }
  }

  lemma AppendLetters(r: Rules, tm: map<string, string>, nts: seq<string>, nt: string, list: seq<string>,
                      terminals: seq<string>, base: seq<string>)
    requires LettersRule(r, tm, nts, terminals, base) && nt in base
    ensures LettersRule(r.Put(nt, list), tm, nts, terminals, base)
  {
  }

  lemma ConvertProductionGood(f: Form, rules: Rules, terminals: seq<string>, base: seq<string>, nt: string, p: string)
    requires Good(f, rules, terminals, base) && nt in rules.entries
    requires forall k :: k in rules.entries ==> k in base
    ensures var g := ConvertProduction(f, terminals, nt, p);
      && Good(g, rules, terminals, base) && Keeps(f, g, {nt}) && (f.Stuck? ==> g == f)
      && (g.Building? ==>
        nt in g.rules.entries && |g.rules.entries[nt]| == |Listed(f.rules, nt)| + 1 &&
        Covered(p, terminals, g.terminalMap))
  {
    if f.Building? {
      var w := MapSymbols(f, terminals, p, |p|);
      MapSymbolsGood(f, rules, terminals, base, p, |p|);
      assert MappedWell(f, w, rules, terminals, base, p, |p|);
      var b := Binarise(w.form, w.word);
      BinariseGood(w.form, rules, terminals, base, w.word);
      KeepsTrans(f, w.form, b.form, {});
      if b.form.Building? {
        AppendGood(b.form.rules, b.form.terminalMap, b.form.nts, nt, b.word, rules, terminals, base);
        PrefixIn(base, f.nts);
        assert Listed(b.form.rules, nt) == Listed(f.rules, nt);
      }
    }
  }

  lemma CoveredGrows(p: string, terminals: seq<string>, tm: map<string, string>, tm2: map<string, string>)
    requires Covered(p, terminals, tm) && forall t :: t in tm ==> t in tm2
    ensures Covered(p, terminals, tm2)
  {
  }

  /** What `ConvertProductions` promises about the first `n` right sides of `nt`. */
  ghost predicate ProductionsWell(f: Form, g: Form, rules: Rules, terminals: seq<string>, base: seq<string>,
                                  nt: string, prods: seq<string>, n: nat)
    requires n <= |prods|
  {
    && Good(g, rules, terminals, base) && Keeps(f, g, {nt}) && (f.Stuck? ==> g == f)
    && (g.Building? ==>
      nt in g.rules.entries && |g.rules.entries[nt]| == |Listed(f.rules, nt)| + n &&
      forall i :: 0 <= i < n ==> Covered(prods[i], terminals, g.terminalMap))
  }

  lemma {:induction false} ConvertProductionsGood(f: Form, rules: Rules, terminals: seq<string>, base: seq<string>,
                                                  nt: string, prods: seq<string>, n: nat)
    requires Good(f, rules, terminals, base) && nt in rules.entries && n <= |prods|
    requires forall k :: k in rules.entries ==> k in base
    requires f.Building? ==> nt in f.rules.entries
    ensures ProductionsWell(f, ConvertProductions(f, terminals, nt, prods, n), rules, terminals, base, nt, prods, n)
    decreases n
  {
    hide ConvertProduction, ProductionsWell, Good, Keeps;
    if n == 0 {
      ProductionsStart(f, rules, terminals, base, nt, prods);
    } else {
      ConvertProductionsGood(f, rules, terminals, base, nt, prods, n - 1);
      ProductionGood(f, ConvertProductions(f, terminals, nt, prods, n - 1), rules, terminals, base, nt, prods, n);
    }
  }

  lemma ProductionsStart(f: Form, rules: Rules, terminals: seq<string>, base: seq<string>, nt: string, prods: seq<string>)
    requires Good(f, rules, terminals, base) && (f.Building? ==> nt in f.rules.entries)
    ensures ProductionsWell(f, f, rules, terminals, base, nt, prods, 0)
  {
  }

  /** The `n`-th right side keeps what the first `n - 1` established. */
  lemma ProductionGood(f: Form, g: Form, rules: Rules, terminals: seq<string>, base: seq<string>,
                       nt: string, prods: seq<string>, n: nat)
    requires 0 < n <= |prods| && ProductionsWell(f, g, rules, terminals, base, nt, prods, n - 1)
    requires nt in rules.entries && forall k :: k in rules.entries ==> k in base
    ensures ProductionsWell(f, ConvertProduction(g, terminals, nt, prods[n - 1]), rules, terminals, base, nt, prods, n)
  {
    ConvertProductionGood(g, rules, terminals, base, nt, prods[n - 1]);
    ProductionsStep(f, g, ConvertProduction(g, terminals, nt, prods[n - 1]), rules, terminals, base, nt, prods, n);
  }

  lemma ProductionsStep(f: Form, g: Form, h: Form, rules: Rules, terminals: seq<string>, base: seq<string>,
                        nt: string, prods: seq<string>, n: nat)
    requires 0 < n <= |prods| && ProductionsWell(f, g, rules, terminals, base, nt, prods, n - 1)
    requires Good(h, rules, terminals, base) && Keeps(g, h, {nt}) && (g.Stuck? ==> h == g)
    requires h.Building? ==>
      nt in h.rules.entries && |h.rules.entries[nt]| == |Listed(g.rules, nt)| + 1 &&
      Covered(prods[n - 1], terminals, h.terminalMap)
    ensures ProductionsWell(f, h, rules, terminals, base, nt, prods, n)
  {
    KeepsTrans(f, g, h, {nt});
    if h.Building? {
      assert g.Building?;
      forall i | 0 <= i < n - 1
        ensures Covered(prods[i], terminals, h.terminalMap)
      {
        CoveredGrows(prods[i], terminals, g.terminalMap, h.terminalMap);
      }
    }
  }

  /** `nt` has as many right sides as in `rules`, and each of their terminals has a letter. */
  predicate Done(g: Form, rules: Rules, terminals: seq<string>, nt: string)
    requires g.Building?
  {
    nt in rules.entries && nt in g.rules.entries && |g.rules.entries[nt]| == |rules.entries[nt]| &&
    forall p :: p in rules.entries[nt] ==> Covered(p, terminals, g.terminalMap)
  }

  lemma ClearGood(r: Rules, tm: map<string, string>, nts: seq<string>, nt: string,
                  rules: Rules, terminals: seq<string>, base: seq<string>)
    requires Good(Building(r, tm, nts), rules, terminals, base) && nt in rules.entries
    requires forall k :: k in rules.entries ==> k in base
    ensures Good(Building(r.Put(nt, []), tm, nts), rules, terminals, base)
    ensures Keeps(Building(r, tm, nts), Building(r.Put(nt, []), tm, nts), {nt})
  {
    AppendLetters(r, tm, nts, nt, [], terminals, base);
    ClearPairs(r, nts, nt, terminals, base);
  }

  lemma ClearPairs(r: Rules, nts: seq<string>, nt: string, terminals: seq<string>, base: seq<string>)
    requires Short(r) && PairsClean(r, nts, terminals, base)
    ensures Short(r.Put(nt, [])) && PairsClean(r.Put(nt, []), nts, terminals, base)
  {
    var r2 := r.Put(nt, []);
    forall k, p | k in r2.entries && p in r2.entries[k]
      ensures |p| <= 2
      ensures |p| == 2 ==> Clean(Sym(p, 0), nts, terminals, base) && Clean(Sym(p, 1), nts, terminals, base)
    {
      assert k != nt;
      assert p in r.entries[k];
    }
  }

  lemma ConvertKeyGood(f: Form, rules: Rules, terminals: seq<string>, base: seq<string>, nt: string)
    requires Good(f, rules, terminals, base) && nt in rules.entries
    requires forall k :: k in rules.entries ==> k in base
    ensures var g := ConvertKey(f, terminals, rules, nt);
      && Good(g, rules, terminals, base) && Keeps(f, g, {nt}) && (f.Stuck? ==> g == f)
      && (g.Building? ==> Done(g, rules, terminals, nt))
  {
    if f.Building? {
      var f1 := Building(f.rules.Put(nt, []), f.terminalMap, f.nts);
      ClearGood(f.rules, f.terminalMap, f.nts, nt, rules, terminals, base);
      var prods := rules.entries[nt];
      ConvertProductionsGood(f1, rules, terminals, base, nt, prods, |prods|);
      var g := ConvertProductions(f1, terminals, nt, prods, |prods|);
      assert ProductionsWell(f1, g, rules, terminals, base, nt, prods, |prods|);
      KeepsTrans(f, f1, g, {nt});
      if g.Building? {
        forall p | p in prods
          ensures Covered(p, terminals, g.terminalMap)
        {
          var i :| 0 <= i < |prods| && prods[i] == p;
        }
      }
    }
  }

  lemma DoneKeeps(g: Form, h: Form, rules: Rules, terminals: seq<string>, nt: string, k: string)
    requires g.Building? && h.Building? && Done(g, rules, terminals, k)
    requires Keeps(g, h, {nt}) && k != nt && k in g.nts
    ensures Done(h, rules, terminals, k)
  {
    forall p | p in rules.entries[k]
      ensures Covered(p, terminals, h.terminalMap)
    {
      CoveredGrows(p, terminals, g.terminalMap, h.terminalMap);
    }
  }

  /** What `ConvertKeys` promises about the first `n` keys. */
  ghost predicate KeysWell(g: Form, rules: Rules, terminals: seq<string>, base: seq<string>, n: nat)
    requires n <= |rules.keys|
  {
    Good(g, rules, terminals, base) &&
    (g.Building? ==> forall i :: 0 <= i < n ==> Done(g, rules, terminals, rules.keys[i]))
  }

  lemma {:induction false} ConvertKeysGood(rules: Rules, terminals: seq<string>, base: seq<string>, n: nat)
    requires rules.Valid() && n <= |rules.keys|
    requires forall k :: k in rules.entries ==> k in base
    ensures KeysWell(ConvertKeys(Building(Empty(), map[], base), terminals, rules, n), rules, terminals, base, n)
    decreases n
  {
    if n == 0 {
      InitGood(rules, terminals, base);
    } else {
      ConvertKeysGood(rules, terminals, base, n - 1);
      KeyGood(ConvertKeys(Building(Empty(), map[], base), terminals, rules, n - 1), rules, terminals, base, n);
    }
  }

  /** The `n`-th key keeps what the first `n - 1` established. */
  lemma KeyGood(g: Form, rules: Rules, terminals: seq<string>, base: seq<string>, n: nat)
    requires rules.Valid() && 0 < n <= |rules.keys| && KeysWell(g, rules, terminals, base, n - 1)
    requires forall k :: k in rules.entries ==> k in base
    ensures KeysWell(ConvertKey(g, terminals, rules, rules.keys[n - 1]), rules, terminals, base, n)
  {
    var nt := rules.keys[n - 1];
    ConvertKeyGood(g, rules, terminals, base, nt);
    KeysStep(g, ConvertKey(g, terminals, rules, nt), rules, terminals, base, n);
  }

  lemma InitGood(rules: Rules, terminals: seq<string>, base: seq<string>)
    ensures Good(Building(Empty(), map[], base), rules, terminals, base)
  {
  }

  lemma KeysStep(g: Form, h: Form, rules: Rules, terminals: seq<string>, base: seq<string>, n: nat)
    requires rules.Valid() && 0 < n <= |rules.keys| && KeysWell(g, rules, terminals, base, n - 1)
    requires forall k :: k in rules.entries ==> k in base
    requires Good(h, rules, terminals, base) && Keeps(g, h, {rules.keys[n - 1]}) && (g.Stuck? ==> h == g)
    requires h.Building? ==> Done(h, rules, terminals, rules.keys[n - 1])
    ensures KeysWell(h, rules, terminals, base, n)
  {
    hide Good, Done, Keeps, NoDup;
    if h.Building? {
      GoodExtended(g, rules, terminals, base);
      EarlierKeys(rules, base, g.nts, n - 1);
      KeysDoneKeep(g, h, rules, terminals, base, n - 1);
    }
  }

  lemma GoodExtended(f: Form, rules: Rules, terminals: seq<string>, base: seq<string>)
    requires Good(f, rules, terminals, base)
    ensures base <= f.nts
  {
  }

  /** The keys before the `n`-th differ from it and are among `nts`. */
  lemma EarlierKeys(rules: Rules, base: seq<string>, nts: seq<string>, n: nat)
    requires rules.Valid() && n < |rules.keys| && base <= nts
    requires forall k :: k in rules.entries ==> k in base
    ensures forall i :: 0 <= i < n ==> rules.keys[i] != rules.keys[n] && rules.keys[i] in nts
  {
    PrefixIn(base, nts);
    forall i | 0 <= i < n
      ensures rules.keys[i] != rules.keys[n] && rules.keys[i] in nts
    {
      assert rules.keys[i] in rules.entries;
    }
  }

  lemma KeysDoneKeep(g: Form, h: Form, rules: Rules, terminals: seq<string>, base: seq<string>, n: nat)
    requires g.Building? && h.Building? && n < |rules.keys| && Keeps(g, h, {rules.keys[n]})
    requires KeysWell(g, rules, terminals, base, n)
    requires forall i :: 0 <= i < n ==> rules.keys[i] != rules.keys[n] && rules.keys[i] in g.nts
    ensures forall i :: 0 <= i < n ==> Done(h, rules, terminals, rules.keys[i])
  {
    hide Good, Keeps;
    forall i | 0 <= i < n
      ensures Done(h, rules, terminals, rules.keys[i])
    {
      DoneKeeps(g, h, rules, terminals, rules.keys[n], rules.keys[i]);
    }
  }

  /** Everything `getCNFform` establishes, when the keys of `rules` are among the non-terminals. */
  lemma CNFFormGood(rules: Rules, terminals: seq<string>, nts: seq<string>)
    requires rules.Valid() && forall k :: k in rules.entries ==> k in nts
    ensures Good(CNFForm(rules, terminals, nts), rules, terminals, nts)
    ensures CNFForm(rules, terminals, nts).Building? ==>
      forall k :: k in rules.entries ==> Done(CNFForm(rules, terminals, nts), rules, terminals, k)
  {
    ConvertKeysGood(rules, terminals, nts, |rules.keys|);
    var g := CNFForm(rules, terminals, nts);
    assert KeysWell(g, rules, terminals, nts, |rules.keys|);
    if g.Building? {
      forall k | k in rules.entries
        ensures Done(g, rules, terminals, k)
      {
        var i :| 0 <= i < |rules.keys| && rules.keys[i] == k;
      }
    }
  }

  // ---------------------------------------------------------------------------
  // The properties of `getCNFform`, for rules whose keys are non-terminals.

  /** It throws only once every letter A–Z is a non-terminal; what was pushed stays pushed. */
  lemma CNFFormFails(rules: Rules, terminals: seq<string>, nts: seq<string>)
    requires rules.Valid() && forall k :: k in rules.entries ==> k in nts
    ensures var g := CNFForm(rules, terminals, nts);
      g.Stuck? ==> AllTaken(g.nts) && Extended(g.nts, nts)
  {
    CNFFormGood(rules, terminals, nts);
  }

  /** The non-terminals grow by new letters only, none of which was a non-terminal before. */
  lemma CNFFormLetters(rules: Rules, terminals: seq<string>, nts: seq<string>)
    requires rules.Valid() && forall k :: k in rules.entries ==> k in nts
    ensures var g := CNFForm(rules, terminals, nts);
      g.Building? ==> nts <= g.nts && forall i :: |nts| <= i < |g.nts| ==> IsLetter(g.nts[i]) && g.nts[i] !in nts
  {
    CNFFormGood(rules, terminals, nts);
  }

  /** Every right side of the new rules has at most two symbols. */
  lemma CNFFormShort(rules: Rules, terminals: seq<string>, nts: seq<string>)
    requires rules.Valid() && forall k :: k in rules.entries ==> k in nts
    ensures var g := CNFForm(rules, terminals, nts);
      g.Building? ==> g.rules.Valid() && forall k, p :: k in g.rules.entries && p in g.rules.entries[k] ==> |p| <= 2
  {
    CNFFormGood(rules, terminals, nts);
  }

  /**
   * Each terminal met in a right side gets one shared new letter `X`, whose
   * only right side is that terminal.
   */
  lemma CNFFormTerminals(rules: Rules, terminals: seq<string>, nts: seq<string>)
    requires rules.Valid() && forall k :: k in rules.entries ==> k in nts
    ensures var g := CNFForm(rules, terminals, nts);
      g.Building? ==>
        (forall t :: t in g.terminalMap ==>
          t in terminals && IsLetter(g.terminalMap[t]) && g.terminalMap[t] !in nts &&
          g.terminalMap[t] in g.nts && g.terminalMap[t] in g.rules.entries &&
          g.rules.entries[g.terminalMap[t]] == [t]) &&
        (forall k, p, j :: k in rules.entries && p in rules.entries[k] && 0 <= j < |p| && Sym(p, j) in terminals ==>
          Sym(p, j) in g.terminalMap)
  {
    CNFFormGood(rules, terminals, nts);
    var g := CNFForm(rules, terminals, nts);
    if g.Building? {
      forall k, p, j | k in rules.entries && p in rules.entries[k] && 0 <= j < |p| && Sym(p, j) in terminals
        ensures Sym(p, j) in g.terminalMap
      {
        assert Done(g, rules, terminals, k);
        assert Covered(p, terminals, g.terminalMap);
      }
    }
  }

  /**
   * A left side that was not there before is a new letter with exactly one
   * right side: two symbols (a shortened pair) or the terminal it stands for.
   */
  lemma CNFFormNewRules(rules: Rules, terminals: seq<string>, nts: seq<string>)
    requires rules.Valid() && forall k :: k in rules.entries ==> k in nts
    ensures var g := CNFForm(rules, terminals, nts);
      g.Building? ==> forall k :: k in g.rules.entries && k !in rules.entries ==>
        k in g.nts && k !in nts && |g.rules.entries[k]| == 1 &&
        (|g.rules.entries[k][0]| == 2 ||
         (g.rules.entries[k][0] in g.terminalMap && g.terminalMap[g.rules.entries[k][0]] == k))
  {
    CNFFormGood(rules, terminals, nts);
  }

  /** Every old left side is still a left side, with as many right sides as before. */
  lemma CNFFormKeys(rules: Rules, terminals: seq<string>, nts: seq<string>)
    requires rules.Valid() && forall k :: k in rules.entries ==> k in nts
    ensures var g := CNFForm(rules, terminals, nts);
      g.Building? ==> forall k :: k in rules.entries ==> k in g.rules.entries && |g.rules.entries[k]| == |rules.entries[k]|
  {
    CNFFormGood(rules, terminals, nts);
    var g := CNFForm(rules, terminals, nts);
    if g.Building? {
      forall k | k in rules.entries
        ensures k in g.rules.entries && |g.rules.entries[k]| == |rules.entries[k]|
      {
        assert Done(g, rules, terminals, k);
      }
    }
  }

  /** When no letter A–Z is a terminal, no two-symbol right side contains a terminal. */
  lemma CNFFormPairs(rules: Rules, terminals: seq<string>, nts: seq<string>)
    requires rules.Valid() && forall k :: k in rules.entries ==> k in nts
    requires forall i :: 0 <= i < |Alphabet| ==> [Alphabet[i]] !in terminals
    ensures var g := CNFForm(rules, terminals, nts);
      g.Building? ==> PairsFree(g.rules, terminals)
  {
    CNFFormGood(rules, terminals, nts);
    var g := CNFForm(rules, terminals, nts);
    if g.Building? {
      assert PairsClean(g.rules, g.nts, terminals, nts) && Extended(g.nts, nts);
      PairsNoTerminal(g.rules, g.nts, terminals, nts);
    }
  }

  /** No right side of two symbols contains a terminal. */
  predicate PairsFree(r: Rules, terminals: seq<string>) {
    forall k, p :: k in r.entries && p in r.entries[k] && |p| == 2 ==>
      Sym(p, 0) !in terminals && Sym(p, 1) !in terminals
  }

  lemma PairsNoTerminal(r: Rules, n: seq<string>, terminals: seq<string>, base: seq<string>)
    requires PairsClean(r, n, terminals, base) && Extended(n, base)
    requires forall i :: 0 <= i < |Alphabet| ==> [Alphabet[i]] !in terminals
    ensures PairsFree(r, terminals)
  {
    forall k, p | k in r.entries && p in r.entries[k] && |p| == 2
      ensures Sym(p, 0) !in terminals && Sym(p, 1) !in terminals
    {
      if Sym(p, 0) in terminals {
        NewLetterIn(n, base, Sym(p, 0));
      }
      if Sym(p, 1) in terminals {
        NewLetterIn(n, base, Sym(p, 1));
      }
    }
  }

  lemma NewLetterIn(n: seq<string>, base: seq<string>, s: string)
    requires Extended(n, base) && s in n && s !in base
    ensures exists i :: 0 <= i < |Alphabet| && s == [Alphabet[i]]
  {
    var j :| 0 <= j < |n| && n[j] == s;
    assert j >= |base|;
    assert IsLetter(s);
    var i :| 0 <= i < |Alphabet| && Alphabet[i] == s[0];
    assert s == [Alphabet[i]];
  }
}

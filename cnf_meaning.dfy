/**
 * What `getCNFform` (lab5/CNF.js) keeps of the grammar it rewrites.
 *
 * Every new letter stands for some text: a letter made for a terminal stands
 * for that terminal, a letter made for a pair `a b` for what `a` and `b` stand
 * for, one after the other. Reading each symbol of a new right side back as
 * what it stands for gives the old right side again, and the old left sides
 * keep their order among the new ones.
 */
module CnfMeaning {
  import opened Wrappers
  import opened Seqs
  import opened Dicts
  import opened CnfRules
  import opened CnfForm

  /** One symbol read back: a new letter becomes what it stands for, any other symbol stays. */
  function Exp(m: map<string, string>, s: string): string {
    if s in m then m[s] else s
  }

  /** A right side read back symbol by symbol. */
  function ReadBack(m: map<string, string>, q: string): string
    decreases |q|
  {
    if |q| == 0 then "" else ReadBack(m, q[..|q| - 1]) + Exp(m, Sym(q, |q| - 1))
  }

  /** A word being shortened, read back symbol by symbol. */
  function ReadWord(m: map<string, string>, word: seq<string>): string
    decreases |word|
  {
    if |word| == 0 then "" else ReadWord(m, word[..|word| - 1]) + Exp(m, word[|word| - 1])
  }

  /** What a new letter whose one right side is `q` stands for: a pair is read back, a terminal stays. */
  function Unfold(m: map<string, string>, q: string): string {
    if |q| == 2 then ReadBack(m, q) else q
  }

  /**
   * What the new letters among `keys` stand for, taken in the order they were
   * created; `lefts` are the left sides of the rules before the rewriting.
   */
  function Meanings(r: Rules, keys: seq<string>, lefts: set<string>): map<string, string>
    decreases |keys|
  {
    if |keys| == 0 then map[] else
      var m := Meanings(r, keys[..|keys| - 1], lefts);
      var k := keys[|keys| - 1];
      if k in lefts || k !in r.entries || |r.entries[k]| != 1 then m
      else m[k := Unfold(m, r.entries[k][0])]
  }

  /** What the new letters of a state stand for. */
  function Means(f: Form, lefts: set<string>): map<string, string>
    requires f.Building?
  {
    Meanings(f.rules, f.rules.keys, lefts)
  }

  /**
   * A symbol no fresh letter can collide with: a terminal, a non-terminal, or
   * not a capital letter at all.
   */
  predicate Plain(s: string, terminals: seq<string>, nts: seq<string>) {
    s in terminals || s in nts || !IsLetter(s)
  }

  predicate PlainText(p: string, terminals: seq<string>, nts: seq<string>) {
    forall j :: 0 <= j < |p| ==> Plain(Sym(p, j), terminals, nts)
  }

  /** A symbol that no letter created from now on can be. */
  predicate Safe(s: string, nts: seq<string>) {
    s in nts || !IsLetter(s)
  }

  predicate SafeWord(word: seq<string>, nts: seq<string>) {
    forall j :: 0 <= j < |word| ==> Safe(word[j], nts)
  }

  predicate SafeText(q: string, nts: seq<string>) {
    forall j :: 0 <= j < |q| ==> Safe(Sym(q, j), nts)
  }

  // ---------------------------------------------------------------------------
  // Reading back.

  lemma ReadWordSnoc(m: map<string, string>, w: seq<string>, s: string)
    ensures ReadWord(m, w + [s]) == ReadWord(m, w) + Exp(m, s)
  {
    assert (w + [s])[..|w|] == w;
  }

  lemma {:induction false} ReadWordAppend(m: map<string, string>, a: seq<string>, b: seq<string>)
    ensures ReadWord(m, a + b) == ReadWord(m, a) + ReadWord(m, b)
    decreases |b|
  {
    if |b| > 0 {
      var b0, s := b[..|b| - 1], b[|b| - 1];
      ReadWordAppend(m, a, b0);
      assert a + b == (a + b0) + [s];
      ReadWordSnoc(m, a + b0, s);
    } else {
      assert a + b == a;
    }
  }

  lemma {:induction false} ReadWordSame(m1: map<string, string>, m2: map<string, string>, word: seq<string>)
    requires forall j :: 0 <= j < |word| ==> Exp(m1, word[j]) == Exp(m2, word[j])
    ensures ReadWord(m1, word) == ReadWord(m2, word)
    decreases |word|
  {
    if |word| > 0 {
      ReadWordSame(m1, m2, word[..|word| - 1]);
    }
  }

  lemma {:induction false} ReadBackSame(m1: map<string, string>, m2: map<string, string>, q: string)
    requires forall j :: 0 <= j < |q| ==> Exp(m1, Sym(q, j)) == Exp(m2, Sym(q, j))
    ensures ReadBack(m1, q) == ReadBack(m2, q)
    decreases |q|
  {
    if |q| > 0 {
      var q0 := q[..|q| - 1];
      forall j | 0 <= j < |q0|
        ensures Exp(m1, Sym(q0, j)) == Exp(m2, Sym(q0, j))
      {
        assert Sym(q0, j) == Sym(q, j);
      }
      ReadBackSame(m1, m2, q0);
    }
  }

  /** Joining a word of one-character symbols keeps its symbols and how it reads back. */
  lemma {:induction false} ReadBackFlatten(m: map<string, string>, word: seq<string>)
    requires forall j :: 0 <= j < |word| ==> |word[j]| == 1
    ensures |Flatten(word)| == |word|
    ensures forall j :: 0 <= j < |word| ==> Sym(Flatten(word), j) == word[j]
    ensures ReadBack(m, Flatten(word)) == ReadWord(m, word)
    decreases |word|
  {
    if |word| > 0 {
      var w0, s := word[..|word| - 1], word[|word| - 1];
      ReadBackFlatten(m, w0);
      assert word == w0 + [s];
      FlattenSnoc(w0, s);
      var q := Flatten(word);
      assert q == Flatten(w0) + s;
      assert q[..|q| - 1] == Flatten(w0);
      assert Sym(q, |q| - 1) == s;
      forall j | 0 <= j < |word|
        ensures Sym(q, j) == word[j]
      {
        if j < |w0| {
          assert Sym(q, j) == Sym(Flatten(w0), j);
        }
      }
    }
  }

  lemma ReadBackPair(m: map<string, string>, a: string, b: string)
    requires |a| == 1 && |b| == 1
    ensures ReadBack(m, a + b) == Exp(m, a) + Exp(m, b)
  {
    var q := a + b;
    assert q[..1] == a && Sym(q, 1) == b;
    assert a[..0] == "" && Sym(a, 0) == a;
    assert ReadBack(m, a) == Exp(m, a);
    assert ReadBack(m, q) == ReadBack(m, a) + Exp(m, b);
  }

  lemma ReadWordPair(m: map<string, string>, a: string, b: string)
    ensures ReadWord(m, [a, b]) == Exp(m, a) + Exp(m, b)
  {
    assert [a, b][..1] == [a];
    assert [a][..0] == [];
    assert ReadWord(m, [a]) == Exp(m, a);
  }

  // ---------------------------------------------------------------------------
  // What the letters stand for, as the rules grow.

  lemma {:induction false} MeaningsDom(r: Rules, keys: seq<string>, lefts: set<string>)
    ensures forall y :: y in Meanings(r, keys, lefts) ==> y in keys && y !in lefts && y in r.entries
    decreases |keys|
  {
    if |keys| > 0 {
      LastSplit(keys);
      MeaningsDom(r, keys[..|keys| - 1], lefts);
    }
  }

  lemma {:induction false} MeaningsAgree(r: Rules, r2: Rules, keys: seq<string>, lefts: set<string>)
    requires forall k :: k in keys && k !in lefts ==>
      (k in r.entries <==> k in r2.entries) && (k in r.entries ==> r.entries[k] == r2.entries[k])
    ensures Meanings(r, keys, lefts) == Meanings(r2, keys, lefts)
    decreases |keys|
  {
    if |keys| > 0 {
      LastSplit(keys);
      MeaningsAgree(r, r2, keys[..|keys| - 1], lefts);
    }
  }

  /** Writing to an old left side changes what no letter stands for. */
  lemma MeaningsPutOld(r: Rules, k: string, v: seq<string>, lefts: set<string>)
    requires r.Valid() && k in lefts
    ensures Meanings(r.Put(k, v), r.Put(k, v).keys, lefts) == Meanings(r, r.keys, lefts)
  {
    var r2 := r.Put(k, v);
    if k !in r.entries {
      assert (r.keys + [k])[..|r.keys|] == r.keys;
    }
    MeaningsAgree(r, r2, r.keys, lefts);
  }

  /** A new letter `y` with the single right side `q` stands for `q` unfolded. */
  lemma MeaningsPutNew(r: Rules, y: string, q: string, lefts: set<string>)
    requires r.Valid() && y !in r.entries && y !in lefts
    ensures Meanings(r.Put(y, [q]), r.Put(y, [q]).keys, lefts)
      == Meanings(r, r.keys, lefts)[y := Unfold(Meanings(r, r.keys, lefts), q)]
  {
    var r2 := r.Put(y, [q]);
    assert (r.keys + [y])[..|r.keys|] == r.keys;
    MeaningsAgree(r, r2, r.keys, lefts);
  }

  /** A letter whose one right side is a single terminal stands for that terminal. */
  lemma {:induction false} MeaningsSingle(r: Rules, keys: seq<string>, lefts: set<string>, k: string, q: string)
    requires k in keys && k !in lefts && k in r.entries && r.entries[k] == [q] && |q| != 2
    ensures k in Meanings(r, keys, lefts) && Meanings(r, keys, lefts)[k] == q
    decreases |keys|
  {
    LastSplit(keys);
    if keys[|keys| - 1] != k {
      MeaningsSingle(r, keys[..|keys| - 1], lefts, k, q);
    }
  }

  lemma KeepInSnoc(s: seq<string>, x: string, keep: set<string>)
    ensures KeepIn(s + [x], keep) == if x in keep then KeepIn(s, keep) + [x] else KeepIn(s, keep)
  {
    assert (s + [x])[..|s|] == s;
  }

  /**
   * From `f` to `g` the non-terminals only grow, every letter keeps what it
   * stands for, and a letter that gains a meaning was not a non-terminal in `f`.
   */
  ghost predicate Grows(f: Form, g: Form, lefts: set<string>)
    requires f.Building? && g.Building?
  {
    && f.nts <= g.nts
    && (forall y :: y in Means(f, lefts) ==> y in Means(g, lefts) && Means(g, lefts)[y] == Means(f, lefts)[y])
    && (forall y :: y in Means(g, lefts) && y !in Means(f, lefts) ==> y !in f.nts && IsLetter(y))
  }

  /** `Grows`, and the old left sides keep their order. */
  ghost predicate Steady(f: Form, g: Form, lefts: set<string>)
    requires f.Building? && g.Building?
  {
    Grows(f, g, lefts) && KeepIn(g.rules.keys, lefts) == KeepIn(f.rules.keys, lefts)
  }

  lemma GrowsTrans(f: Form, g: Form, h: Form, lefts: set<string>)
    requires f.Building? && g.Building? && h.Building?
    requires Grows(f, g, lefts) && Grows(g, h, lefts)
    ensures Grows(f, h, lefts)
  {
    PrefixIn(f.nts, g.nts);
  }

  lemma SteadyTrans(f: Form, g: Form, h: Form, lefts: set<string>)
    requires f.Building? && g.Building? && h.Building?
    requires Steady(f, g, lefts) && Steady(g, h, lefts)
    ensures Steady(f, h, lefts)
  {
    GrowsTrans(f, g, h, lefts);
  }

  lemma ExpGrows(f: Form, g: Form, lefts: set<string>, s: string)
    requires f.Building? && g.Building? && Grows(f, g, lefts) && Safe(s, f.nts)
    ensures Exp(Means(g, lefts), s) == Exp(Means(f, lefts), s)
  {
  }

  lemma ReadWordGrows(f: Form, g: Form, lefts: set<string>, word: seq<string>)
    requires f.Building? && g.Building? && Grows(f, g, lefts) && SafeWord(word, f.nts)
    ensures ReadWord(Means(g, lefts), word) == ReadWord(Means(f, lefts), word)
  {
    forall j | 0 <= j < |word|
      ensures Exp(Means(f, lefts), word[j]) == Exp(Means(g, lefts), word[j])
    {
      ExpGrows(f, g, lefts, word[j]);
    }
    ReadWordSame(Means(f, lefts), Means(g, lefts), word);
  }

  lemma ReadBackGrows(f: Form, g: Form, lefts: set<string>, q: string)
    requires f.Building? && g.Building? && Grows(f, g, lefts) && SafeText(q, f.nts)
    ensures ReadBack(Means(g, lefts), q) == ReadBack(Means(f, lefts), q)
  {
    forall j | 0 <= j < |q|
      ensures Exp(Means(f, lefts), Sym(q, j)) == Exp(Means(g, lefts), Sym(q, j))
    {
      ExpGrows(f, g, lefts, Sym(q, j));
    }
    ReadBackSame(Means(f, lefts), Means(g, lefts), q);
  }

  lemma SafeGrows(s: string, n: seq<string>, m: seq<string>)
    requires Safe(s, n) && n <= m
    ensures Safe(s, m)
  {
    PrefixIn(n, m);
  }

  lemma ExtendedLetter(nts: seq<string>, base: seq<string>, y: string)
    requires Extended(nts, base) && y in nts && y !in base
    ensures IsLetter(y)
  {
  }

  /** Only new letters stand for something, and every left side is a non-terminal. */
  lemma MeansDom(f: Form, rules: Rules, terminals: seq<string>, base: seq<string>)
    requires Good(f, rules, terminals, base) && f.Building?
    requires forall k :: k in rules.entries ==> k in base
    ensures forall y :: y in Means(f, rules.entries.Keys) ==> y in f.nts && y !in base && IsLetter(y)
    ensures forall k :: k in f.rules.entries ==> k in f.nts
    ensures forall k :: k in rules.entries ==> k in f.nts
    ensures f.rules.Valid()
  {
    PrefixIn(base, f.nts);
    MeaningsDom(f.rules, f.rules.keys, rules.entries.Keys);
    forall y | y in Means(f, rules.entries.Keys)
      ensures y in f.nts && y !in base && IsLetter(y)
    {
      ExtendedLetter(f.nts, base, y);
    }
  }

  // ---------------------------------------------------------------------------
  // Mapping the symbols of one right side.

  lemma MapSymbolMeans(f: Form, rules: Rules, terminals: seq<string>, base: seq<string>, symbol: string)
    requires Good(f, rules, terminals, base) && f.Building? && |symbol| == 1
    requires forall k :: k in rules.entries ==> k in base
    ensures var m := MapSymbol(f, terminals, symbol);
      m.form.Building? ==>
        Steady(f, m.form, rules.entries.Keys) &&
        (Plain(symbol, terminals, base) ==>
          Safe(m.symbol, m.form.nts) && Exp(Means(m.form, rules.entries.Keys), m.symbol) == symbol)
  {
    hide Meanings, Steady, Good;
    var lefts := rules.entries.Keys;
    GoodExtended(f, rules, terminals, base);
    PrefixIn(base, f.nts);
    MeansDom(f, rules, terminals, base);
    if symbol !in terminals || symbol in f.terminalMap {
      SteadyRefl(f, lefts);
      if symbol in terminals {
        TerminalLetterMeans(f, rules, terminals, base, symbol);
      }
    } else {
      FreshLetterIs(f.nts);
      if FreshLetter(f.nts).Some? {
        var x := FreshLetter(f.nts).value;
        PutNewSteady(f, Building(f.rules.Put(x, [symbol]), f.terminalMap[symbol := x], f.nts + [x, x]), lefts, x, symbol);
      }
    }
  }

  /** The letter already standing for a terminal means that terminal. */
  lemma TerminalLetterMeans(f: Form, rules: Rules, terminals: seq<string>, base: seq<string>, symbol: string)
    requires Good(f, rules, terminals, base) && f.Building? && |symbol| == 1 && symbol in f.terminalMap
    requires forall k :: k in rules.entries ==> k in base
    ensures f.terminalMap[symbol] in f.nts
    ensures Exp(Means(f, rules.entries.Keys), f.terminalMap[symbol]) == symbol
  {
    hide Meanings;
    var x := f.terminalMap[symbol];
    MeansDom(f, rules, terminals, base);
    MeaningsSingle(f.rules, f.rules.keys, rules.entries.Keys, x, symbol);
  }

  lemma SteadyRefl(f: Form, lefts: set<string>)
    requires f.Building?
    ensures Steady(f, f, lefts)
  {
  }

  /** A fresh letter `x` with the single right side `q`. */
  lemma PutNewSteady(f: Form, g: Form, lefts: set<string>, x: string, q: string)
    requires f.Building? && g.Building? && f.rules.Valid()
    requires forall k :: k in f.rules.entries ==> k in f.nts
    requires forall k :: k in lefts ==> k in f.nts
    requires IsLetter(x) && x !in f.nts
    requires g.rules == f.rules.Put(x, [q]) && g.nts == f.nts + [x, x]
    ensures Steady(f, g, lefts)
    ensures Means(g, lefts) == Means(f, lefts)[x := Unfold(Means(f, lefts), q)]
  {
    hide Meanings;
    var mf, mg := Means(f, lefts), Means(g, lefts);
    MeaningsDom(f.rules, f.rules.keys, lefts);
    MeaningsPutNew(f.rules, x, q, lefts);
    assert mg == mf[x := Unfold(mf, q)];
    assert x !in mf;
    assert f.rules.keys + [x] == g.rules.keys;
    KeepInSnoc(f.rules.keys, x, lefts);
    assert x !in lefts;
    NewLetterGrows(f, g, lefts, x, Unfold(mf, q));
  }

  /** Giving a meaning to one letter that was not a non-terminal keeps the earlier meanings. */
  lemma NewLetterGrows(f: Form, g: Form, lefts: set<string>, x: string, v: string)
    requires f.Building? && g.Building? && f.nts <= g.nts
    requires IsLetter(x) && x !in f.nts && x !in Means(f, lefts)
    requires Means(g, lefts) == Means(f, lefts)[x := v]
    ensures Grows(f, g, lefts)
  {
    hide Meanings;
  }

  /** Writing to an old left side that is already there. */
  lemma PutOldSteady(f: Form, g: Form, lefts: set<string>, k: string, v: seq<string>)
    requires f.Building? && g.Building? && f.rules.Valid() && k in lefts && k in f.rules.entries
    requires g.rules == f.rules.Put(k, v) && g.nts == f.nts
    ensures Steady(f, g, lefts) && Means(g, lefts) == Means(f, lefts)
  {
    hide Meanings;
    MeaningsPutOld(f.rules, k, v, lefts);
  }

  lemma SymSnoc(p: string, n: nat)
    requires 0 < n <= |p|
    ensures p[..n] == p[..n - 1] + Sym(p, n - 1)
  {
  }

  /** What `MapSymbols` promises about the first `n` symbols of `p` when read back. */
  ghost predicate MappedMeans(f: Form, w: Word, lefts: set<string>, terminals: seq<string>, base: seq<string>,
                              p: string, n: nat)
    requires f.Building? && n <= |p|
  {
    w.form.Building? ==>
      Steady(f, w.form, lefts) &&
      (PlainText(p, terminals, base) ==>
        ReadWord(Means(w.form, lefts), w.word) == p[..n] && SafeWord(w.word, w.form.nts))
  }

  lemma {:induction false} MapSymbolsMeans(f: Form, rules: Rules, terminals: seq<string>, base: seq<string>,
                                           p: string, n: nat)
    requires Good(f, rules, terminals, base) && f.Building? && n <= |p|
    requires forall k :: k in rules.entries ==> k in base
    ensures MappedMeans(f, MapSymbols(f, terminals, p, n), rules.entries.Keys, terminals, base, p, n)
    decreases n
  {
    hide Meanings;
    if n > 0 {
      MapSymbolsMeans(f, rules, terminals, base, p, n - 1);
      MapSymbolsGood(f, rules, terminals, base, p, n - 1);
      MapSymbolMeansNext(f, MapSymbols(f, terminals, p, n - 1), rules, terminals, base, p, n);
    }
  }

  /** The `n`-th symbol keeps what the first `n - 1` established. */
  lemma MapSymbolMeansNext(f: Form, w: Word, rules: Rules, terminals: seq<string>, base: seq<string>, p: string, n: nat)
    requires f.Building? && 0 < n <= |p| && forall k :: k in rules.entries ==> k in base
    requires MappedWell(f, w, rules, terminals, base, p, n - 1)
    requires MappedMeans(f, w, rules.entries.Keys, terminals, base, p, n - 1)
    ensures var m := MapSymbol(w.form, terminals, Sym(p, n - 1));
      MappedMeans(f, Word(m.form, w.word + [m.symbol]), rules.entries.Keys, terminals, base, p, n)
  {
    hide Meanings;
    var lefts := rules.entries.Keys;
    if w.form.Building? {
      var m := MapSymbol(w.form, terminals, Sym(p, n - 1));
      MapSymbolMeans(w.form, rules, terminals, base, Sym(p, n - 1));
      if m.form.Building? {
        SteadyTrans(f, w.form, m.form, lefts);
        if PlainText(p, terminals, base) {
          assert Plain(Sym(p, n - 1), terminals, base);
          ReadWordGrows(w.form, m.form, lefts, w.word);
          ReadWordSnoc(Means(m.form, lefts), w.word, m.symbol);
          SymSnoc(p, n);
          forall j | 0 <= j < |w.word| + 1
            ensures Safe((w.word + [m.symbol])[j], m.form.nts)
          {
            if j < |w.word| {
              SafeGrows(w.word[j], w.form.nts, m.form.nts);
            }
          }
        }
      }
    }
  }

  // ---------------------------------------------------------------------------
  // Shortening one right side.

  /** The first shortening step, from `f` to `g`, reads back as before. */
  lemma PairMeans(f: Form, rules: Rules, terminals: seq<string>, base: seq<string>, word: seq<string>, y: string)
    requires Good(f, rules, terminals, base) && f.Building? && |word| > 2
    requires forall k :: k in rules.entries ==> k in base
    requires WordClean(word, f.nts, terminals, base)
    requires IsLetter(y) && y !in f.nts
    ensures var g := Building(f.rules.Put(y, [word[0] + word[1]]), f.terminalMap, f.nts + [y, y]);
      Steady(f, g, rules.entries.Keys) &&
      (SafeWord(word, f.nts) ==>
        SafeWord([y] + word[2..], g.nts) &&
        ReadWord(Means(g, rules.entries.Keys), [y] + word[2..]) == ReadWord(Means(f, rules.entries.Keys), word))
  {
    hide Meanings, Steady, Good;
    var lefts := rules.entries.Keys;
    var g := Building(f.rules.Put(y, [word[0] + word[1]]), f.terminalMap, f.nts + [y, y]);
    MeansDom(f, rules, terminals, base);
    PutNewSteady(f, g, lefts, y, word[0] + word[1]);
    if SafeWord(word, f.nts) {
      var rest := [y] + word[2..];
      forall j | 0 <= j < |rest|
        ensures Safe(rest[j], g.nts)
      {
        if j > 0 {
          assert rest[j] == word[j + 1];
          SafeGrows(word[j + 1], f.nts, g.nts);
        }
      }
      assert word[0] == word[..2][0] && word[1] == word[..2][1];
      PairReadsBack(Means(f, lefts), Means(g, lefts), y, word);
    }
  }

  /** Reading back `[y] + word[2..]`, with `y` standing for the first two symbols, reads back `word`. */
  lemma PairReadsBack(mf: map<string, string>, mg: map<string, string>, y: string, word: seq<string>)
    requires |word| > 2 && |word[0]| == 1 && |word[1]| == 1
    requires mg == mf[y := Unfold(mf, word[0] + word[1])]
    requires forall j :: 2 <= j < |word| ==> word[j] != y
    ensures ReadWord(mg, [y] + word[2..]) == ReadWord(mf, word)
  {
    var tail := word[2..];
    forall j | 0 <= j < |tail|
      ensures Exp(mg, tail[j]) == Exp(mf, tail[j])
    {
      assert tail[j] == word[j + 2];
    }
    ReadWordSame(mg, mf, tail);
    ReadWordAppend(mg, [y], tail);
    ReadWordAppend(mf, [word[0], word[1]], tail);
    ReadBackPair(mf, word[0], word[1]);
    ReadWordPair(mf, word[0], word[1]);
    assert ReadWord(mg, [y]) == mg[y] by {
      assert [y][..0] == [];
    }
    assert word == [word[0], word[1]] + tail;
  }

  lemma {:induction false} BinariseMeans(f: Form, rules: Rules, terminals: seq<string>, base: seq<string>, word: seq<string>)
    requires Good(f, rules, terminals, base) && f.Building?
    requires forall k :: k in rules.entries ==> k in base
    requires WordClean(word, f.nts, terminals, base)
    ensures var b := Binarise(f, word);
      b.form.Building? ==>
        Steady(f, b.form, rules.entries.Keys) &&
        (SafeWord(word, f.nts) ==>
          ReadWord(Means(b.form, rules.entries.Keys), b.word) == ReadWord(Means(f, rules.entries.Keys), word) &&
          SafeWord(b.word, b.form.nts))
    decreases |word|
  {
    hide Meanings;
    if |word| > 2 {
      FreshLetterIs(f.nts);
      if FreshLetter(f.nts).Some? {
        var y := FreshLetter(f.nts).value;
        var g := Building(f.rules.Put(y, [word[0] + word[1]]), f.terminalMap, f.nts + [y, y]);
        var rest := [y] + word[2..];
        PairGood(f, rules, terminals, base, word, y);
        PairMeans(f, rules, terminals, base, word, y);
        BinariseMeans(g, rules, terminals, base, rest);
        BinariseStep(f, word, y);
        var b := Binarise(g, rest);
        if b.form.Building? {
          SteadyTrans(f, g, b.form, rules.entries.Keys);
        }
      }
    }
  }

  // ---------------------------------------------------------------------------
  // One right side, all right sides of one left side, all left sides.

  /** What the new right side `q` promises about the old right side `p` it was made from. */
  ghost predicate Emitted(q: string, g: Form, lefts: set<string>, p: string, terminals: seq<string>, base: seq<string>)
    requires g.Building?
  {
    (forall j :: 0 <= j < |q| ==> Clean(Sym(q, j), g.nts, terminals, base)) &&
    (PlainText(p, terminals, base) ==> SafeText(q, g.nts) && ReadBack(Means(g, lefts), q) == p)
  }

  lemma EmittedGrows(q: string, g: Form, h: Form, lefts: set<string>, p: string, terminals: seq<string>, base: seq<string>)
    requires g.Building? && h.Building? && Grows(g, h, lefts) && Emitted(q, g, lefts, p, terminals, base)
    ensures Emitted(q, h, lefts, p, terminals, base)
  {
    hide Meanings;
    forall j | 0 <= j < |q|
      ensures Clean(Sym(q, j), h.nts, terminals, base)
    {
      CleanGrows(Sym(q, j), g.nts, h.nts, terminals, base);
    }
    if PlainText(p, terminals, base) {
      ReadBackGrows(g, h, lefts, q);
      forall j | 0 <= j < |q|
        ensures Safe(Sym(q, j), h.nts)
      {
        SafeGrows(Sym(q, j), g.nts, h.nts);
      }
    }
  }

  lemma ConvertProductionMeans(f: Form, rules: Rules, terminals: seq<string>, base: seq<string>, nt: string, p: string)
    returns (q: string)
    requires Good(f, rules, terminals, base) && f.Building? && nt in rules.entries && nt in f.rules.entries
    requires forall k :: k in rules.entries ==> k in base
    ensures var g := ConvertProduction(f, terminals, nt, p);
      g.Building? ==>
        Steady(f, g, rules.entries.Keys) && nt in g.rules.entries &&
        g.rules.entries[nt] == f.rules.entries[nt] + [q] && Emitted(q, g, rules.entries.Keys, p, terminals, base)
  {
    hide Meanings, Steady, Good, Emitted;
    q := "";
    var lefts := rules.entries.Keys;
    var w := MapSymbols(f, terminals, p, |p|);
    MapSymbolsGood(f, rules, terminals, base, p, |p|);
    MapSymbolsMeans(f, rules, terminals, base, p, |p|);
    if w.form.Building? {
      var b := Binarise(w.form, w.word);
      BinariseGood(w.form, rules, terminals, base, w.word);
      BinariseMeans(w.form, rules, terminals, base, w.word);
      if b.form.Building? {
        q := Flatten(b.word);
        GoodExtended(f, rules, terminals, base);
        PrefixIn(base, f.nts);
        KeepsTrans(f, w.form, b.form, {});
        SteadyTrans(f, w.form, b.form, lefts);
        assert p[..|p|] == p;
        AppendMeans(f, b, rules, terminals, base, nt, p);
      }
    }
  }

  /** Appending the shortened word `b.word`, joined, to `newRules[nt]`. */
  lemma AppendMeans(f: Form, b: Word, rules: Rules, terminals: seq<string>, base: seq<string>, nt: string, p: string)
    requires f.Building? && b.form.Building? && Good(b.form, rules, terminals, base)
    requires forall k :: k in rules.entries ==> k in base
    requires nt in rules.entries && nt in f.rules.entries && nt in b.form.rules.entries
    requires b.form.rules.entries[nt] == f.rules.entries[nt]
    requires Steady(f, b.form, rules.entries.Keys) && |b.word| <= 2 && WordClean(b.word, b.form.nts, terminals, base)
    requires PlainText(p, terminals, base) ==>
      ReadWord(Means(b.form, rules.entries.Keys), b.word) == p && SafeWord(b.word, b.form.nts)
    ensures var r := b.form.rules;
      var g := Building(r.Put(nt, Listed(r, nt) + [Flatten(b.word)]), b.form.terminalMap, b.form.nts);
      Steady(f, g, rules.entries.Keys) && nt in g.rules.entries &&
      g.rules.entries[nt] == f.rules.entries[nt] + [Flatten(b.word)] &&
      Emitted(Flatten(b.word), g, rules.entries.Keys, p, terminals, base)
  {
    hide Meanings, Steady, Good;
    var lefts := rules.entries.Keys;
    var r := b.form.rules;
    var q := Flatten(b.word);
    var g := Building(r.Put(nt, Listed(r, nt) + [q]), b.form.terminalMap, b.form.nts);
    MeansDom(b.form, rules, terminals, base);
    PutOldSteady(b.form, g, lefts, nt, Listed(r, nt) + [q]);
    SteadyTrans(f, b.form, g, lefts);
    ReadBackFlatten(Means(g, lefts), b.word);
  }

  /** What `ConvertProductions` promises about the first `n` right sides of `nt`, read back. */
  ghost predicate ProductionsMean(f: Form, g: Form, lefts: set<string>, terminals: seq<string>, base: seq<string>,
                                  nt: string, prods: seq<string>, n: nat)
    requires f.Building? && n <= |prods|
  {
    g.Building? ==>
      Steady(f, g, lefts) && nt in g.rules.entries && |g.rules.entries[nt]| == n &&
      forall i :: 0 <= i < n ==> Emitted(g.rules.entries[nt][i], g, lefts, prods[i], terminals, base)
  }

  lemma {:induction false} ConvertProductionsMeans(f: Form, rules: Rules, terminals: seq<string>, base: seq<string>,
                                                   nt: string, prods: seq<string>, n: nat)
    requires Good(f, rules, terminals, base) && f.Building? && nt in rules.entries && n <= |prods|
    requires forall k :: k in rules.entries ==> k in base
    requires nt in f.rules.entries && f.rules.entries[nt] == []
    ensures ProductionsMean(f, ConvertProductions(f, terminals, nt, prods, n), rules.entries.Keys, terminals, base, nt, prods, n)
    decreases n
  {
    hide Meanings, Good, Steady, Emitted, ProductionsMean, ConvertProduction;
    if n > 0 {
      ConvertProductionsMeans(f, rules, terminals, base, nt, prods, n - 1);
      ConvertProductionsGood(f, rules, terminals, base, nt, prods, n - 1);
      ProductionMeansNext(f, ConvertProductions(f, terminals, nt, prods, n - 1), rules, terminals, base, nt, prods, n);
    } else {
      ProductionsMeanStart(f, rules.entries.Keys, terminals, base, nt, prods);
    }
  }

  lemma ProductionsMeanStart(f: Form, lefts: set<string>, terminals: seq<string>, base: seq<string>,
                             nt: string, prods: seq<string>)
    requires f.Building? && nt in f.rules.entries && f.rules.entries[nt] == []
    ensures ProductionsMean(f, f, lefts, terminals, base, nt, prods, 0)
  {
    SteadyRefl(f, lefts);
  }

  /** The `n`-th right side keeps what the first `n - 1` established. */
  lemma ProductionMeansNext(f: Form, g: Form, rules: Rules, terminals: seq<string>, base: seq<string>,
                            nt: string, prods: seq<string>, n: nat)
    requires f.Building? && 0 < n <= |prods| && nt in rules.entries
    requires forall k :: k in rules.entries ==> k in base
    requires Good(g, rules, terminals, base)
    requires ProductionsMean(f, g, rules.entries.Keys, terminals, base, nt, prods, n - 1)
    ensures ProductionsMean(f, ConvertProduction(g, terminals, nt, prods[n - 1]), rules.entries.Keys, terminals, base, nt, prods, n)
  {
    hide Meanings;
    var lefts := rules.entries.Keys;
    if g.Building? {
      var q := ConvertProductionMeans(g, rules, terminals, base, nt, prods[n - 1]);
      var h := ConvertProduction(g, terminals, nt, prods[n - 1]);
      if h.Building? {
        SteadyTrans(f, g, h, lefts);
        forall i | 0 <= i < n
          ensures Emitted(h.rules.entries[nt][i], h, lefts, prods[i], terminals, base)
        {
          if i < n - 1 {
            assert h.rules.entries[nt][i] == g.rules.entries[nt][i];
            EmittedGrows(g.rules.entries[nt][i], g, h, lefts, prods[i], terminals, base);
          }
        }
      }
    }
  }

  /** The right sides of `nt` in `g` read back as those of `nt` in `rules`. */
  ghost predicate KeyMeans(g: Form, rules: Rules, terminals: seq<string>, base: seq<string>, nt: string)
    requires g.Building?
  {
    nt in rules.entries && nt in g.rules.entries && |g.rules.entries[nt]| == |rules.entries[nt]| &&
    forall i :: 0 <= i < |rules.entries[nt]| ==>
      Emitted(g.rules.entries[nt][i], g, rules.entries.Keys, rules.entries[nt][i], terminals, base)
  }

  lemma ConvertKeyMeans(f: Form, rules: Rules, terminals: seq<string>, base: seq<string>, nt: string)
    requires Good(f, rules, terminals, base) && f.Building? && nt in rules.entries && nt !in f.rules.entries
    requires forall k :: k in rules.entries ==> k in base
    ensures var g := ConvertKey(f, terminals, rules, nt);
      g.Building? ==>
        Grows(f, g, rules.entries.Keys) &&
        KeepIn(g.rules.keys, rules.entries.Keys) == KeepIn(f.rules.keys, rules.entries.Keys) + [nt] &&
        KeyMeans(g, rules, terminals, base, nt)
  {
    hide Meanings, Good;
    var lefts := rules.entries.Keys;
    var f1 := Building(f.rules.Put(nt, []), f.terminalMap, f.nts);
    ClearGood(f.rules, f.terminalMap, f.nts, nt, rules, terminals, base);
    MeansDom(f, rules, terminals, base);
    ClearGrows(f, f1, lefts, nt);
    var prods := rules.entries[nt];
    assert Listed(rules, nt) == prods;
    ConvertProductionsMeans(f1, rules, terminals, base, nt, prods, |prods|);
    var g := ConvertProductions(f1, terminals, nt, prods, |prods|);
    assert ConvertKey(f, terminals, rules, nt) == g;
    if g.Building? {
      GrowsTrans(f, f1, g, lefts);
    }
  }

  /** `newRules[nt] = []` for an old left side not there yet: it goes last, and no letter changes. */
  lemma ClearGrows(f: Form, f1: Form, lefts: set<string>, nt: string)
    requires f.Building? && f1.Building? && f.rules.Valid() && nt in lefts && nt !in f.rules.entries
    requires f1.rules == f.rules.Put(nt, []) && f1.nts == f.nts
    ensures Grows(f, f1, lefts) && Means(f1, lefts) == Means(f, lefts)
    ensures KeepIn(f1.rules.keys, lefts) == KeepIn(f.rules.keys, lefts) + [nt]
  {
    hide Meanings, Grows;
    MeaningsPutOld(f.rules, nt, [], lefts);
    assert Means(f1, lefts) == Means(f, lefts);
    assert f1.rules.keys == f.rules.keys + [nt];
    KeepInSnoc(f.rules.keys, nt, lefts);
    SameMeansGrows(f, f1, lefts);
  }

  lemma SameMeansGrows(f: Form, g: Form, lefts: set<string>)
    requires f.Building? && g.Building? && f.nts <= g.nts && Means(g, lefts) == Means(f, lefts)
    ensures Grows(f, g, lefts)
  {
    hide Meanings;
  }

  /** What `ConvertKeys` promises about the first `n` keys, read back. */
  ghost predicate KeysMean(g: Form, rules: Rules, terminals: seq<string>, base: seq<string>, n: nat)
    requires n <= |rules.keys|
  {
    g.Building? ==>
      KeepIn(g.rules.keys, rules.entries.Keys) == rules.keys[..n] &&
      forall i :: 0 <= i < n ==> KeyMeans(g, rules, terminals, base, rules.keys[i])
  }

  lemma {:induction false} ConvertKeysMeans(rules: Rules, terminals: seq<string>, base: seq<string>, n: nat)
    requires rules.Valid() && n <= |rules.keys|
    requires forall k :: k in rules.entries ==> k in base
    ensures KeysMean(ConvertKeys(Building(Empty(), map[], base), terminals, rules, n), rules, terminals, base, n)
    decreases n
  {
    hide Meanings, KeysMean, KeysWell, ConvertKeys, ConvertKey;
    if n == 0 {
      KeysMeanStart(rules, terminals, base);
    } else {
      ConvertKeysMeans(rules, terminals, base, n - 1);
      ConvertKeysGood(rules, terminals, base, n - 1);
      KeyMeansNext(ConvertKeys(Building(Empty(), map[], base), terminals, rules, n - 1), rules, terminals, base, n);
      KeysStep1(Building(Empty(), map[], base), terminals, rules, n - 1);
    }
  }

  lemma KeysMeanStart(rules: Rules, terminals: seq<string>, base: seq<string>)
    ensures KeysMean(ConvertKeys(Building(Empty(), map[], base), terminals, rules, 0), rules, terminals, base, 0)
  {
    assert rules.keys[..0] == [];
  }

  /** The `n`-th key keeps what the first `n - 1` established. */
  lemma KeyMeansNext(g: Form, rules: Rules, terminals: seq<string>, base: seq<string>, n: nat)
    requires rules.Valid() && 0 < n <= |rules.keys|
    requires forall k :: k in rules.entries ==> k in base
    requires KeysWell(g, rules, terminals, base, n - 1) && KeysMean(g, rules, terminals, base, n - 1)
    ensures KeysMean(ConvertKey(g, terminals, rules, rules.keys[n - 1]), rules, terminals, base, n)
  {
    hide Meanings;
    if g.Building? {
      var nt := rules.keys[n - 1];
      var lefts := rules.entries.Keys;
      KeyAbsent(g, rules, terminals, base, n);
      ConvertKeyMeans(g, rules, terminals, base, nt);
      ConvertKeyGood(g, rules, terminals, base, nt);
      var h := ConvertKey(g, terminals, rules, nt);
      if h.Building? {
        GoodExtended(g, rules, terminals, base);
        EarlierKeys(rules, base, g.nts, n - 1);
        KeysMeanNext(g, h, rules, terminals, base, n);
      }
    }
  }

  /** The step of `KeyMeansNext` once both states are known to be building. */
  lemma KeysMeanNext(g: Form, h: Form, rules: Rules, terminals: seq<string>, base: seq<string>, n: nat)
    requires 0 < n <= |rules.keys| && g.Building? && h.Building?
    requires KeysMean(g, rules, terminals, base, n - 1)
    requires Keeps(g, h, {rules.keys[n - 1]}) && Grows(g, h, rules.entries.Keys)
    requires KeepIn(h.rules.keys, rules.entries.Keys) == KeepIn(g.rules.keys, rules.entries.Keys) + [rules.keys[n - 1]]
    requires KeyMeans(h, rules, terminals, base, rules.keys[n - 1])
    requires forall i :: 0 <= i < n - 1 ==> rules.keys[i] != rules.keys[n - 1] && rules.keys[i] in g.nts
    ensures KeysMean(h, rules, terminals, base, n)
  {
    hide Meanings, Keeps, Grows, KeyMeans;
    var nt := rules.keys[n - 1];
    assert rules.keys[..n] == rules.keys[..n - 1] + [nt];
    forall i | 0 <= i < n
      ensures KeyMeans(h, rules, terminals, base, rules.keys[i])
    {
      if i < n - 1 {
        KeyMeansKeeps(g, h, rules, terminals, base, nt, rules.keys[i]);
      }
    }
  }

  /** The `n`-th key is not yet a left side of the new rules. */
  lemma KeyAbsent(g: Form, rules: Rules, terminals: seq<string>, base: seq<string>, n: nat)
    requires rules.Valid() && 0 < n <= |rules.keys| && g.Building? && Good(g, rules, terminals, base)
    requires KeepIn(g.rules.keys, rules.entries.Keys) == rules.keys[..n - 1]
    ensures rules.keys[n - 1] !in g.rules.entries
  {
  }

  lemma KeyMeansKeeps(g: Form, h: Form, rules: Rules, terminals: seq<string>, base: seq<string>, nt: string, k: string)
    requires g.Building? && h.Building? && KeyMeans(g, rules, terminals, base, k)
    requires Keeps(g, h, {nt}) && Grows(g, h, rules.entries.Keys) && k != nt && k in g.nts
    ensures KeyMeans(h, rules, terminals, base, k)
  {
    hide Meanings;
    forall i | 0 <= i < |rules.entries[k]|
      ensures Emitted(h.rules.entries[k][i], h, rules.entries.Keys, rules.entries[k][i], terminals, base)
    {
      EmittedGrows(g.rules.entries[k][i], g, h, rules.entries.Keys, rules.entries[k][i], terminals, base);
    }
  }

  // ---------------------------------------------------------------------------
  // The properties of `getCNFform`, for rules whose keys are non-terminals.

  /**
   * The old left sides keep their order among the new ones, and each right side
   * of an old left side, read back, is the right side it was made from, as long
   * as no symbol of it is a capital letter that is neither a terminal nor a
   * non-terminal (a fresh letter could then be that very symbol).
   */
  lemma CNFFormReadsBack(rules: Rules, terminals: seq<string>, nts: seq<string>)
    requires rules.Valid() && forall k :: k in rules.entries ==> k in nts
    ensures var g := CNFForm(rules, terminals, nts);
      g.Building? ==>
        && KeepIn(g.rules.keys, rules.entries.Keys) == rules.keys
        && forall k :: k in rules.entries ==>
          k in g.rules.entries && |g.rules.entries[k]| == |rules.entries[k]| &&
          forall i :: 0 <= i < |rules.entries[k]| && PlainText(rules.entries[k][i], terminals, nts) ==>
            ReadBack(Means(g, rules.entries.Keys), g.rules.entries[k][i]) == rules.entries[k][i]
  {
    hide Meanings;
    ConvertKeysMeans(rules, terminals, nts, |rules.keys|);
    var g := CNFForm(rules, terminals, nts);
    if g.Building? {
      assert rules.keys[..|rules.keys|] == rules.keys;
      forall k | k in rules.entries
        ensures KeyMeans(g, rules, terminals, nts, k)
      {
        var j :| 0 <= j < |rules.keys| && rules.keys[j] == k;
      }
    }
  }

  /** When no letter A–Z is a terminal, no symbol of a right side of an old left side is a terminal. */
  lemma CNFFormNoTerminal(rules: Rules, terminals: seq<string>, nts: seq<string>)
    requires rules.Valid() && forall k :: k in rules.entries ==> k in nts
    requires forall i :: 0 <= i < |Alphabet| ==> [Alphabet[i]] !in terminals
    ensures var g := CNFForm(rules, terminals, nts);
      g.Building? ==>
        forall k, q :: k in rules.entries && k in g.rules.entries && q in g.rules.entries[k] ==>
          (|q| == 1 ==> q !in terminals) && forall j :: 0 <= j < |q| ==> Sym(q, j) !in terminals
  {
    hide Meanings, Good, KeyMeans;
    ConvertKeysMeans(rules, terminals, nts, |rules.keys|);
    CNFFormGood(rules, terminals, nts);
    var g := CNFForm(rules, terminals, nts);
    if g.Building? {
      GoodExtended(g, rules, terminals, nts);
      assert rules.keys[..|rules.keys|] == rules.keys;
      forall k, q | k in rules.entries && k in g.rules.entries && q in g.rules.entries[k]
        ensures (|q| == 1 ==> q !in terminals) && forall j :: 0 <= j < |q| ==> Sym(q, j) !in terminals
      {
        var l :| 0 <= l < |rules.keys| && rules.keys[l] == k;
        assert KeyMeans(g, rules, terminals, nts, k);
        KeyNoTerminal(g, rules, terminals, nts, k, q);
      }
    }
  }

  lemma KeyNoTerminal(g: Form, rules: Rules, terminals: seq<string>, base: seq<string>, k: string, q: string)
    requires g.Building? && KeyMeans(g, rules, terminals, base, k) && q in g.rules.entries[k] && Extended(g.nts, base)
    requires forall i :: 0 <= i < |Alphabet| ==> [Alphabet[i]] !in terminals
    ensures (|q| == 1 ==> q !in terminals) && forall j :: 0 <= j < |q| ==> Sym(q, j) !in terminals
  {
    hide Meanings;
    var i :| 0 <= i < |g.rules.entries[k]| && g.rules.entries[k][i] == q;
    assert Emitted(q, g, rules.entries.Keys, rules.entries[k][i], terminals, base);
    forall j | 0 <= j < |q|
      ensures Sym(q, j) !in terminals
    {
      if Sym(q, j) in terminals {
        NewLetterIn(g.nts, base, Sym(q, j));
      }
    }
    if |q| == 1 {
      assert q == Sym(q, 0);
    }
  }

  /**
   * Why `CNFFormReadsBack` asks for plain right sides: in `S -> Aa` with `A`
   * not a non-terminal (a rule left pointing at a removed non-terminal), the
   * letter made for the terminal `a` is `A` itself, and `S -> AA` reads back
   * as `aa`.
   */
  lemma CNFFormCollision()
    ensures var g := CNFForm(Dict(["S"], map["S" := ["Aa"]]), ["a"], ["S"]);
      g.Building? && g.rules.entries["S"] == ["AA"] && g.rules.entries["A"] == ["a"] &&
      ReadBack(Means(g, {"S"}), g.rules.entries["S"][0]) == "aa"
  {
    hide *;
    var f1 := Building(Dict(["S"], map["S" := []]), map[], ["S"]);
    var f2 := Building(Dict(["S", "A"], map["S" := [], "A" := ["a"]]), map["a" := "A"], ["S", "A", "A"]);
    var g := Building(Dict(["S", "A"], map["S" := ["AA"], "A" := ["a"]]), map["a" := "A"], ["S", "A", "A"]);
    CollisionMapped(f1, f2);
    CollisionProduction(f1, f2, g);
    CollisionForm(f1, g);
    CollisionMeans(g);
  }

  lemma CollisionMapped(f1: Form, f2: Form)
    requires f1 == Building(Dict(["S"], map["S" := []]), map[], ["S"])
    requires f2 == Building(Dict(["S", "A"], map["S" := [], "A" := ["a"]]), map["a" := "A"], ["S", "A", "A"])
    ensures MapSymbols(f1, ["a"], "Aa", 2) == Word(f2, ["A", "A"])
  {
    assert FreshLetter(["S"]) == Some("A");
    assert Sym("Aa", 0) == "A" && Sym("Aa", 1) == "a";
    assert MapSymbols(f1, ["a"], "Aa", 1) == Word(f1, ["A"]);
    assert "a" in ["a"] && "A" !in ["a"];
    assert f1.rules.Put("A", ["a"]) == f2.rules by {
      assert ["S"] + ["A"] == ["S", "A"];
    }
    assert ["S"] + ["A", "A"] == ["S", "A", "A"];
    assert MapSymbol(f1, ["a"], "a") == Mapped(f2, "A");
  }

  lemma CollisionProduction(f1: Form, f2: Form, g: Form)
    requires f1.Building? && f2 == Building(Dict(["S", "A"], map["S" := [], "A" := ["a"]]), map["a" := "A"], ["S", "A", "A"])
    requires g == Building(Dict(["S", "A"], map["S" := ["AA"], "A" := ["a"]]), map["a" := "A"], ["S", "A", "A"])
    requires MapSymbols(f1, ["a"], "Aa", 2) == Word(f2, ["A", "A"])
    ensures ConvertProduction(f1, ["a"], "S", "Aa") == g
  {
    hide MapSymbols, MapSymbol, FreshLetter;
    assert |"Aa"| == 2;
    assert Binarise(f2, ["A", "A"]) == Word(f2, ["A", "A"]);
    assert Flatten(["A", "A"]) == "AA" by {
      assert ["A", "A"][..1] == ["A"];
      assert ["A"][..0] == [];
    }
    assert Listed(f2.rules, "S") + ["AA"] == ["AA"];
    assert f2.rules.Put("S", ["AA"]) == g.rules;
  }

  lemma CollisionForm(f1: Form, g: Form)
    requires f1 == Building(Dict(["S"], map["S" := []]), map[], ["S"])
    requires ConvertProduction(f1, ["a"], "S", "Aa") == g
    ensures CNFForm(Dict(["S"], map["S" := ["Aa"]]), ["a"], ["S"]) == g
  {
    var rules := Dict(["S"], map["S" := ["Aa"]]);
    var f0 := Building(Empty(), map[], ["S"]);
    assert Empty<seq<string>>().Put("S", []) == f1.rules by {
      assert [] + ["S"] == ["S"];
    }
    assert ConvertProductions(f1, ["a"], "S", ["Aa"], 1) == g;
    assert ConvertKey(f0, ["a"], rules, "S") == g;
    assert ConvertKeys(f0, ["a"], rules, 1) == g;
  }

  lemma CollisionMeans(g: Form)
    requires g == Building(Dict(["S", "A"], map["S" := ["AA"], "A" := ["a"]]), map["a" := "A"], ["S", "A", "A"])
    ensures ReadBack(Means(g, {"S"}), "AA") == "aa"
  {
    var keys := ["S", "A"];
    assert keys[..1] == ["S"] && ["S"][..0] == [];
    assert Meanings(g.rules, ["S"], {"S"}) == map[];
    var m := Means(g, {"S"});
    assert m == map["A" := "a"];
    assert "AA"[..1] == "A" && "A"[..0] == "";
    assert Sym("AA", 1) == "A" && Sym("A", 0) == "A";
    assert ReadBack(m, "A") == "a";
  }
}

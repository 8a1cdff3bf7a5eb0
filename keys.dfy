/**
 * `[...stateSet].sort().join(',')`: the canonical name of a set of states.
 * JavaScript's default `sort` compares strings character by character.
 */
module StateKeys {
  import opened Seqs

  /** The default `Array.prototype.sort` order on strings: lexicographic, a proper prefix first. */
  predicate Below(a: string, b: string)
    decreases |a|
  {
    if |a| == 0 then |b| > 0
    else if |b| == 0 then false
    else if a[0] != b[0] then a[0] < b[0]
    else Below(a[1..], b[1..])
  }

  lemma {:induction false} BelowIrreflexive(a: string)
    ensures !Below(a, a)
    decreases |a|
  {
    if |a| > 0 {
      BelowIrreflexive(a[1..]);
    }
  }

  lemma {:induction false} BelowTransitive(a: string, b: string, c: string)
    requires Below(a, b) && Below(b, c)
    ensures Below(a, c)
    decreases |a|
  {
    if |a| > 0 && |b| > 0 && |c| > 0 && a[0] == b[0] && b[0] == c[0] {
      BelowTransitive(a[1..], b[1..], c[1..]);
    }
  }

  lemma {:induction false} BelowTotal(a: string, b: string)
    requires a != b
    ensures Below(a, b) || Below(b, a)
    decreases |a|
  {
    if |a| > 0 && |b| > 0 && a[0] == b[0] {
      assert a == [a[0]] + a[1..] && b == [b[0]] + b[1..];
      BelowTotal(a[1..], b[1..]);
    }
  }

  lemma {:induction false} BelowAsymmetric(a: string, b: string)
    requires Below(a, b)
    ensures !Below(b, a)
    decreases |a|
  {
    if |a| > 0 && |b| > 0 && a[0] == b[0] {
      BelowAsymmetric(a[1..], b[1..]);
    }
  }

  /** Strictly increasing in the sort order. */
  predicate Ascending(s: seq<string>) {
    forall i, j :: 0 <= i < j < |s| ==> Below(s[i], s[j])
  }

  /** Insert `x` before the first element it sorts below. */
  function Insert(s: seq<string>, x: string): seq<string> {
    if |s| == 0 then [x]
    else if Below(x, s[0]) then [x] + s
    else [s[0]] + Insert(s[1..], x)
  }

  lemma {:induction false} InsertSorted(s: seq<string>, x: string)
    requires Ascending(s) && x !in s
    ensures Ascending(Insert(s, x))
    ensures forall y :: y in Insert(s, x) <==> y in s || y == x
    ensures |Insert(s, x)| == |s| + 1
    decreases |s|
  {
    if |s| == 0 {
    } else if Below(x, s[0]) {
      forall j | 0 < j < |s| ensures Below(x, s[j]) { BelowTransitive(x, s[0], s[j]); }
    } else {
      BelowTotal(x, s[0]);
      InsertSorted(s[1..], x);
      var rest := Insert(s[1..], x);
      assert forall y :: y in rest ==> Below(s[0], y);
    }
  }

  /** `[...stateSet].sort()`: insertion sort. */
  function Sort(s: seq<string>): seq<string> {
    if |s| == 0 then [] else Insert(Sort(s[..|s| - 1]), s[|s| - 1])
  }

  lemma {:induction false} SortSorted(s: seq<string>)
    requires NoDup(s)
    ensures Ascending(Sort(s))
    ensures forall y :: y in Sort(s) <==> y in s
    ensures |Sort(s)| == |s|
    decreases |s|
  {
    if |s| > 0 {
      var front := s[..|s| - 1];
      assert NoDup(front) && s[|s| - 1] !in front;
      assert s == front + [s[|s| - 1]];
      SortSorted(front);
      InsertSorted(Sort(front), s[|s| - 1]);
    }
  }

  /** An ascending sequence is fixed by its members. */
  lemma {:induction false} AscendingUnique(a: seq<string>, b: seq<string>)
    requires Ascending(a) && Ascending(b)
    requires forall y :: y in a <==> y in b
    ensures a == b
    decreases |a|
  {
    if |a| > 0 && |b| > 0 {
      if a[0] != b[0] {
        assert a[0] in b && b[0] in a;
        var j :| 0 <= j < |b| && b[j] == a[0];
        var i :| 0 <= i < |a| && a[i] == b[0];
        BelowAsymmetric(a[0], b[0]);
        assert false;
      }
      assert a == [a[0]] + a[1..] && b == [b[0]] + b[1..];
      forall y ensures y in a[1..] <==> y in b[1..] {
        if y in a[1..] {
          var i :| 1 <= i < |a| && a[i] == y;
          BelowIrreflexive(a[0]);
          assert y != a[0] && y in b;
        }
        if y in b[1..] {
          var i :| 1 <= i < |b| && b[i] == y;
          BelowIrreflexive(b[0]);
          assert y != b[0] && y in a;
        }
      }
      AscendingUnique(a[1..], b[1..]);
      assert a == [a[0]] + a[1..] && b == [b[0]] + b[1..];
    } else {
      EmptyByMembers(a, b);
    }
  }

  /** Two sequences with the same members are both empty or both not. */
  lemma EmptyByMembers(a: seq<string>, b: seq<string>)
    requires forall y :: y in a <==> y in b
    ensures |a| == 0 <==> |b| == 0
  {
    if |b| > 0 {
      assert b[0] in a;
    }
    if |a| > 0 {
      assert a[0] in b;
    }
  }

  /** `array.join(sep)`. */
  function Join(xs: seq<string>, sep: string): string {
    if |xs| == 0 then "" else if |xs| == 1 then xs[0] else xs[0] + sep + Join(xs[1..], sep)
  }

  /** `stateToString(stateSet)`, the argument being a `Set` in insertion order. */
  function StateToString(stateSet: seq<string>): string {
    Join(Sort(stateSet), ",")
  }

  /** Two sets with the same members get the same key, whatever their insertion order. */
  lemma KeyIgnoresOrder(s1: seq<string>, s2: seq<string>)
    requires NoDup(s1) && NoDup(s2)
    requires forall q :: q in s1 <==> q in s2
    ensures StateToString(s1) == StateToString(s2)
  {
    SortSorted(s1);
    SortSorted(s2);
    AscendingUnique(Sort(s1), Sort(s2));
  }
  /** No member contains the separator. */
  predicate CommaFree(xs: seq<string>) {
    forall k :: 0 <= k < |xs| ==> ',' !in xs[k]
  }

  /** The separator occurs in a join of comma-free members iff there are two or more. */
  lemma {:induction false} CommaInJoin(xs: seq<string>)
    requires |xs| > 0 && CommaFree(xs)
    ensures ',' in Join(xs, ",") <==> |xs| >= 2
    decreases |xs|
  {
    if |xs| >= 2 {
      var j := Join(xs, ",");
      assert j[|xs[0]|] == ',';
    }
  }

  /** In `a + "," + b` with `a` comma-free, the first comma is at `|a|`. */
  lemma FirstComma(a: string, b: string)
    requires ',' !in a
    ensures (a + "," + b)[|a|] == ','
    ensures forall k :: 0 <= k < |a| ==> (a + "," + b)[k] != ','
  {
    forall k | 0 <= k < |a| ensures (a + "," + b)[k] != ',' {
      assert (a + "," + b)[k] == a[k];
    }
  }

  /** A comma-free prefix ends at the first comma. */
  lemma SplitAtComma(a: string, b: string, c: string, d: string)
    requires ',' !in a && ',' !in c && a + "," + b == c + "," + d
    ensures a == c && b == d
  {
    var j := a + "," + b;
    FirstComma(a, b);
    FirstComma(c, d);
    assert a == j[..|a|] && c == j[..|c|];
    assert b == j[|a| + 1..] && d == j[|c| + 1..];
  }

  /** Joining non-empty lists of comma-free members is one-to-one. */
  lemma {:induction false} JoinInjective(xs: seq<string>, ys: seq<string>)
    requires |xs| > 0 && |ys| > 0 && CommaFree(xs) && CommaFree(ys)
    requires Join(xs, ",") == Join(ys, ",")
    ensures xs == ys
    decreases |xs|
  {
    CommaInJoin(xs);
    CommaInJoin(ys);
    if |xs| == 1 {
      assert xs == [xs[0]] && ys == [ys[0]];
    } else {
      assert ',' !in xs[0] && ',' !in ys[0];
      SplitAtComma(xs[0], Join(xs[1..], ","), ys[0], Join(ys[1..], ","));
      assert CommaFree(xs[1..]) && CommaFree(ys[1..]) by {
        assert forall k :: 0 <= k < |xs| - 1 ==> xs[1..][k] == xs[k + 1];
        assert forall k :: 0 <= k < |ys| - 1 ==> ys[1..][k] == ys[k + 1];
      }
      JoinInjective(xs[1..], ys[1..]);
      assert xs == [xs[0]] + xs[1..] && ys == [ys[0]] + ys[1..];
    }
  }

  /**
   * When no member contains a comma, the key of a non-empty set names its
   * members: two sets with the same key have the same members.
   */
  lemma KeyDeterminesMembers(s1: seq<string>, s2: seq<string>)
    requires NoDup(s1) && NoDup(s2) && |s1| > 0 && |s2| > 0
    requires forall q :: q in s1 || q in s2 ==> ',' !in q
    requires StateToString(s1) == StateToString(s2)
    ensures forall q :: q in s1 <==> q in s2
  {
    SortSorted(s1);
    SortSorted(s2);
    assert Sort(s1)[0] in Sort(s1) && Sort(s2)[0] in Sort(s2);
    assert forall k :: 0 <= k < |Sort(s1)| ==> Sort(s1)[k] in s1;
    assert forall k :: 0 <= k < |Sort(s2)| ==> Sort(s2)[k] in s2;
    JoinInjective(Sort(s1), Sort(s2));
  }

  /** The key of `{q}` is `q` itself. */
  lemma SingletonKey(q: string)
    ensures StateToString([q]) == q
  {
    assert [q][..0] == [];
    assert Sort([q]) == Insert([], q) == [q];
  }
}

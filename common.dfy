/** Failure-carrying results: a thrown JavaScript `Error` becomes `Err(message)`. */
module Wrappers {

  datatype Option<T> = None | Some(value: T)

  datatype Result<T> = Ok(value: T) | Err(error: string)

  /** For operations that only change state and return nothing. */
  datatype Outcome = Pass | Fail(error: string)
}

/** Sequences used as JavaScript arrays and as insertion-ordered `Set`s. */
module Seqs {

  /** No element occurs twice: what a JavaScript `Set` guarantees of its iteration order. */
  predicate NoDup<T(==)>(s: seq<T>) {
    forall i, j :: 0 <= i < j < |s| ==> s[i] != s[j]
  }

  /** `set.add(x)` on an insertion-ordered set. */
  function Add<T(==,!new)>(s: seq<T>, x: T): (r: seq<T>)
    ensures NoDup(s) ==> NoDup(r)
    ensures forall y :: y in r <==> y in s || y == x
    ensures x in s ==> r == s
    ensures x !in s ==> r == s + [x]
  {
    if x in s then s else s + [x]
  }

  /** `xs.forEach(x => set.add(x))` on an insertion-ordered set. */
  function AddAll<T(==)>(s: seq<T>, xs: seq<T>): seq<T> {
    if |xs| == 0 then s else
      var r := AddAll(s, xs[..|xs| - 1]);
      var x := xs[|xs| - 1];
      if x in r then r else r + [x]
  }

  lemma {:induction false} AddAllMembers<T>(s: seq<T>, xs: seq<T>)
    ensures NoDup(s) ==> NoDup(AddAll(s, xs))
    ensures forall y :: y in AddAll(s, xs) <==> y in s || y in xs
    decreases |xs|
  {
    if |xs| > 0 {
      var front := xs[..|xs| - 1];
      AddAllMembers(s, front);
      assert xs == front + [xs[|xs| - 1]];
    }
  }

  lemma AddAllNext<T(!new)>(s: seq<T>, xs: seq<T>, k: nat)
    requires k < |xs|
    ensures AddAll(s, xs[..k + 1]) == Add(AddAll(s, xs[..k]), xs[k])
  {
    assert xs[..k + 1][..k] == xs[..k];
  }

  /** `[...new Set(s)]`: the first occurrence of every element, in order. */
  function Dedup<T(==,!new)>(s: seq<T>): (r: seq<T>)
    ensures NoDup(r)
    ensures forall x :: x in r <==> x in s
    ensures |r| <= |s|
    ensures NoDup(s) ==> r == s
  {
    if |s| == 0 then [] else
      assert NoDup(s) ==> NoDup(s[..|s| - 1]) && s[|s| - 1] !in s[..|s| - 1];
      assert s == s[..|s| - 1] + [s[|s| - 1]];
      Add(Dedup(s[..|s| - 1]), s[|s| - 1])
  }

  lemma DedupSnoc<T(!new)>(s: seq<T>, x: T)
    ensures Dedup(s + [x]) == Add(Dedup(s), x)
  {
    assert (s + [x])[..|s|] == s;
  }

  lemma PrefixSnoc<T>(s: seq<T>, i: nat)
    requires i < |s|
    ensures s[..i + 1] == s[..i] + [s[i]]
  {
  }

  /** A non-empty sequence is its front followed by its last element. */
  lemma LastSplit<T>(s: seq<T>)
    requires |s| > 0
    ensures s == s[..|s| - 1] + [s[|s| - 1]]
    ensures forall x :: x in s <==> x in s[..|s| - 1] || x == s[|s| - 1]
  {
  }

  /** The elements of `s` that are in `keep`, in order (`array.filter(x => keep.has(x))`). */
  function KeepIn<T(==,!new)>(s: seq<T>, keep: set<T>): (r: seq<T>)
    ensures forall x :: x in r <==> x in s && x in keep
    ensures NoDup(s) ==> NoDup(r)
  {
    if |s| == 0 then [] else
      var rest := KeepIn(s[..|s| - 1], keep);
      assert NoDup(s) ==> NoDup(s[..|s| - 1]) && s[|s| - 1] !in rest;
      if s[|s| - 1] in keep then rest + [s[|s| - 1]] else rest
  }

  /** `array.filter(x => x !== y)`. */
  function Without<T(==,!new)>(s: seq<T>, y: T): (r: seq<T>)
    ensures forall x :: x in r <==> x in s && x != y
    ensures NoDup(s) ==> NoDup(r)
    ensures |r| <= |s| && (y in s ==> |r| < |s|)
  {
    if |s| == 0 then [] else
      var rest := Without(s[..|s| - 1], y);
      assert NoDup(s) ==> NoDup(s[..|s| - 1]) && s[|s| - 1] !in rest;
      if s[|s| - 1] != y then rest + [s[|s| - 1]] else rest
  }

  /** Filtering keeps a sequence whose elements all pass. */
  lemma {:induction false} KeepInAll<T(!new)>(s: seq<T>, keep: set<T>)
    requires forall x :: x in s ==> x in keep
    ensures KeepIn(s, keep) == s
  {
    if |s| > 0 {
      KeepInAll(s[..|s| - 1], keep);
      assert s == s[..|s| - 1] + [s[|s| - 1]];
    }
  }

  lemma WithoutSnoc<T(!new)>(s: seq<T>, x: T, y: T)
    ensures Without(s + [x], y) == if x != y then Without(s, y) + [x] else Without(s, y)
  {
    assert (s + [x])[..|s|] == s;
  }

  /** The members of a sequence. */
  function Members<T>(s: seq<T>): set<T> {
    set x | x in s
  }

  /** Growing a subset of `U` shrinks what is left of `U`. */
  lemma CardLess<T>(U: set<T>, X: set<T>, Y: set<T>)
    requires X < Y <= U
    ensures |U - Y| < |U - X|
  {
    assert Y == X + (Y - X);
    var y :| y in Y - X;
    assert U - Y <= (U - X) - {y};
    SubsetCardLe(U - Y, (U - X) - {y});
  }

  lemma SubsetCardLe<T>(A: set<T>, B: set<T>)
    requires A <= B
    ensures |A| <= |B|
  {
    assert B == A + (B - A);
  }

  /** Concatenation of a sequence of sequences. */
  function Flatten<T>(ss: seq<seq<T>>): seq<T> {
    if |ss| == 0 then [] else Flatten(ss[..|ss| - 1]) + ss[|ss| - 1]
  }

  lemma FlattenSnoc<T>(ss: seq<seq<T>>, s: seq<T>)
    ensures Flatten(ss + [s]) == Flatten(ss) + s
  {
    assert (ss + [s])[..|ss|] == ss;
  }
}

/**
 * A JavaScript plain object used as a dictionary: string keys in insertion
 * order, and a value for every key.
 */
module Dicts {
  import opened Wrappers
  import opened Seqs

  datatype Dict<V> = Dict(keys: seq<string>, entries: map<string, V>) {

    /** Every key occurs once in the order, and the order lists exactly the keys. */
    ghost predicate Valid() {
      NoDup(keys) && forall k :: k in entries <==> k in keys
    }

    /** `obj[k]`, `undefined` when absent. */
    function Get(k: string): Option<V> {
      if k in entries then Some(entries[k]) else None
    }

    /** `obj[k] = v`: an existing key keeps its place, a new key goes last. */
    function Put(k: string, v: V): (d: Dict<V>)
      ensures Valid() ==> d.Valid()
      ensures d.entries == entries[k := v]
      ensures d.keys == if k in entries then keys else keys + [k]
    {
      if k in entries then Dict(keys, entries[k := v]) else Dict(keys + [k], entries[k := v])
    }

    /** `Object.fromEntries(Object.entries(obj).filter(([k]) => keep.has(k)))`. */
    function Restrict(keep: set<string>): (d: Dict<V>)
      ensures Valid() ==> d.Valid()
      ensures d.keys == KeepIn(keys, keep)
      ensures forall k :: k in d.entries <==> k in entries && k in keep
      ensures forall k :: k in d.entries ==> d.entries[k] == entries[k]
    {
      Dict(KeepIn(keys, keep), map k | k in entries && k in keep :: entries[k])
    }
  }

  function Empty<V>(): (d: Dict<V>)
    ensures d.Valid() && d.keys == [] && d.entries == map[]
  {
    Dict([], map[])
  }
}

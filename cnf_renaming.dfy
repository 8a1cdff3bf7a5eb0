/**
 * `eliminateRenaming` of lab5/CNF.js. A unit (renaming) production is a
 * right side equal to the name of a non-terminal; the source replaces it by
 * the right sides of that non-terminal until a pass changes nothing.
 *
 * Two versions are modelled: the passes as written, with a grammar on which
 * they never settle, and a corrected elimination, which the class uses, that
 * expands each unit at most once per left side.
 */
module Renaming {
  import opened Seqs
  import opened Dicts
  import opened CnfRules

  // ---------------------------------------------------------------------
  // As written
  // ---------------------------------------------------------------------

  /** `this.rules[nt].filter(p => this.nonTerminals.includes(p))`. */
  function UnitsOf(rules: Rules, nts: seq<string>, nt: string): seq<string> {
    KeepIn(Listed(rules, nt), Members(nts))
  }

  /**
   * One unit of the snapshot, applied to the current list `list` of `nt`:
   * when the unit has rules (its own current list when it is `nt` itself),
   * they are appended, every copy of the unit is filtered out and the list is
   * deduplicated; when it has none, nothing happens.
   */
  function UnitStep(rules: Rules, nt: string, list: seq<string>, u: string): seq<string> {
    if u !in rules.entries then list else
      var added := if u == nt then list else rules.entries[u];
      Dedup(Without(list + added, u))
  }

  /** The units of the snapshot, in order. */
  function UnitSteps(rules: Rules, nt: string, list: seq<string>, units: seq<string>): seq<string>
    decreases |units|
  {
    if |units| == 0 then list else UnitSteps(rules, nt, UnitStep(rules, nt, list, units[0]), units[1..])
  }

  /** The rules after one pass, and whether the pass set `changes`. */
  datatype Sweep = Sweep(rules: Rules, changed: bool)

  /** A unit of the snapshot that has rules sets `changes`. */
  predicate Expandable(rules: Rules, units: seq<string>) {
    exists u :: u in units && u in rules.entries
  }

  /**
   * The body of the `while (changes)` loop, from `nonTerminal` onwards in
   * `order`; the list of a left side that has rules is replaced in place.
   */
  function RenamingPass(rules: Rules, nts: seq<string>, order: seq<string>): (r: Sweep)
    ensures rules.Valid() ==> r.rules.Valid() && r.rules.keys == rules.keys
    decreases |order|
  {
    if |order| == 0 then Sweep(rules, false) else
      var nt := order[0];
      if nt !in rules.entries then RenamingPass(rules, nts, order[1..]) else
        var units := UnitsOf(rules, nts, nt);
        var rest := RenamingPass(Dict(rules.keys, rules.entries[nt := UnitSteps(rules, nt, rules.entries[nt], units)]), nts, order[1..]);
        Sweep(rest.rules, rest.changed || Expandable(rules, units))
  }

  /** The rules after `n` passes of the loop as written. */
  function Passes(rules: Rules, nts: seq<string>, n: nat): Rules {
    if n == 0 then rules else RenamingPass(Passes(rules, nts, n - 1), nts, nts).rules
  }

  /** Left sides keep their rules: a pass only replaces the list of a key it visits. */
  lemma {:induction false} PassKeepsKeys(rules: Rules, nts: seq<string>, n: nat)
    requires rules.Valid()
    ensures Passes(rules, nts, n).Valid() && Passes(rules, nts, n).keys == rules.keys
  {
    if n > 0 {
      PassKeepsKeys(rules, nts, n - 1);
    }
  }

  /** The first occurrences in `s[i..]` of elements other than `y`, evaluated front to back. */
  function FirstsWithout(s: seq<string>, y: string, i: nat): seq<string>
    decreases |s| - i
  {
    if i >= |s| then [] else (if s[i] == y || s[i] in s[..i] then [] else [s[i]]) + FirstsWithout(s, y, i + 1)
  }

  lemma {:induction false} FirstsWithoutSnoc(s: seq<string>, x: string, y: string, i: nat)
    requires i <= |s|
    ensures FirstsWithout(s + [x], y, i) == FirstsWithout(s, y, i) + (if x == y || x in s then [] else [x])
    decreases |s| - i
  {
    if i < |s| {
      FirstsWithoutSnoc(s, x, y, i + 1);
      assert (s + [x])[..i] == s[..i];
    } else {
      assert (s + [x])[..i] == s;
    }
  }

  /** `[...new Set(s.filter(p => p !== y))]` computed front to back. */
  lemma {:induction false} DedupWithout(s: seq<string>, y: string)
    ensures Dedup(Without(s, y)) == FirstsWithout(s, y, 0)
    decreases |s|
  {
    if |s| > 0 {
      var front, x := s[..|s| - 1], s[|s| - 1];
      assert s == front + [x];
      DedupWithout(front, y);
      FirstsWithoutSnoc(front, x, y, 0);
      WithoutSnoc(front, x, y);
      if x != y {
        DedupSnoc(Without(front, y), x);
      }
    }
  }

  /** The same scan, carrying the elements already passed as `seen` instead of slicing them off. */
  function FirstsSeen(s: seq<string>, y: string, i: nat, seen: seq<string>): seq<string>
    decreases |s| - i
  {
    if i >= |s| then [] else (if s[i] == y || s[i] in seen then [] else [s[i]]) + FirstsSeen(s, y, i + 1, seen + [s[i]])
  }

  lemma {:induction false} FirstsWithoutSeen(s: seq<string>, y: string, i: nat)
    requires i <= |s|
    ensures FirstsWithout(s, y, i) == FirstsSeen(s, y, i, s[..i])
    decreases |s| - i
  {
    if i < |s| {
      FirstsWithoutSeen(s, y, i + 1);
      assert s[..i] + [s[i]] == s[..i + 1];
    }
  }

  /** One unit step on a concrete list, from the joined list `joined` to the result `v`. */
  lemma UnitStepAt(rules: Rules, nt: string, list: seq<string>, u: string, joined: seq<string>, v: seq<string>)
    requires u in rules.entries && list + (if u == nt then list else rules.entries[u]) == joined
    requires FirstsSeen(joined, u, 0, []) == v
    ensures UnitStep(rules, nt, list, u) == v
  {
    DedupWithout(joined, u);
    FirstsWithoutSeen(joined, u, 0);
    assert joined[..0] == [];
  }

  // ---------------------------------------------------------------------
  // Corrected: each unit is expanded at most once for a left side
  // ---------------------------------------------------------------------

  /** Productions that `filter` treats as units and that have rules. */
  function UnitNames(rules: Rules, nts: seq<string>): set<string> {
    Members(nts) * rules.entries.Keys
  }

  /** The final list of a left side, and the units expanded into it (the left side included). */
  datatype Resolution = Resolution(seen: set<string>, prods: seq<string>)

  /**
   * While `list` holds a unit with rules, take the first: drop it when it has
   * been expanded already, and otherwise replace it by the right sides of that
   * unit as they were before the elimination.
   */
  function Resolve(rules: Rules, nts: seq<string>, seen: set<string>, list: seq<string>): Resolution
    decreases |Members(nts) - seen|, |list|
  {
    var units := KeepIn(list, UnitNames(rules, nts));
    if |units| == 0 then Resolution(seen, list) else
      var u := units[0];
      assert u in list && u in Members(nts) && u in rules.entries;
      if u in seen then Resolve(rules, nts, seen, Dedup(Without(list, u))) else
        assert Members(nts) - (seen + {u}) == (Members(nts) - seen) - {u};
        Resolve(rules, nts, seen + {u}, Dedup(Without(list + rules.entries[u], u)))
  }

  /** The unit-free list of `nt`. */
  function UnitFreeList(rules: Rules, nts: seq<string>, nt: string): Resolution {
    Resolve(rules, nts, {nt}, Listed(rules, nt))
  }

  /** Every production of `list` is a right side of an expanded non-terminal. */
  predicate Sound(rules: Rules, seen: set<string>, list: seq<string>) {
    forall x :: x in list ==> exists b :: b in seen && x in Listed(rules, b)
  }

  /** Every right side of an expanded non-terminal is in `list`, or is a unit already expanded. */
  predicate Complete(rules: Rules, nts: seq<string>, seen: set<string>, list: seq<string>) {
    forall b, x :: b in seen && x in Listed(rules, b) ==> x in list || (x in UnitNames(rules, nts) && x in seen)
  }

  /** Every unit with rules that a member names is a member. */
  predicate UnitClosed(rules: Rules, nts: seq<string>, Z: set<string>) {
    forall b, u :: b in Z && u in Listed(rules, b) && u in UnitNames(rules, nts) ==> u in Z
  }

  /** Dropping a unit keeps every production traceable. */
  lemma DropSound(rules: Rules, seen: set<string>, list: seq<string>, u: string)
    requires Sound(rules, seen, list)
    ensures Sound(rules, seen, Dedup(Without(list, u)))
  {
  }

  /** Dropping a unit already expanded keeps every right side accounted for. */
  lemma DropComplete(rules: Rules, nts: seq<string>, seen: set<string>, list: seq<string>, u: string)
    requires Complete(rules, nts, seen, list)
    requires u in seen && u in UnitNames(rules, nts)
    ensures Complete(rules, nts, seen, Dedup(Without(list, u)))
  {
  }

  /** Expanding a unit keeps every production traceable, with the unit marked as expanded. */
  lemma ExpandSound(rules: Rules, seen: set<string>, list: seq<string>, u: string)
    requires Sound(rules, seen, list) && u in rules.entries
    ensures Sound(rules, seen + {u}, Dedup(Without(list + rules.entries[u], u)))
  {
    var next := Dedup(Without(list + rules.entries[u], u));
    forall x | x in next ensures exists b :: b in seen + {u} && x in Listed(rules, b) {
      if x in list {
        var b :| b in seen && x in Listed(rules, b);
        assert b in seen + {u};
      } else {
        assert x in Listed(rules, u) && u in seen + {u};
      }
    }
  }

  /** Expanding a unit keeps every right side of an expanded non-terminal accounted for. */
  lemma ExpandComplete(rules: Rules, nts: seq<string>, seen: set<string>, list: seq<string>, u: string)
    requires Complete(rules, nts, seen, list) && u in list && u in UnitNames(rules, nts)
    ensures Complete(rules, nts, seen + {u}, Dedup(Without(list + rules.entries[u], u)))
  {
    var next := Dedup(Without(list + rules.entries[u], u));
    forall x | x != u && (x in list || x in rules.entries[u])
      ensures x in next
    {
      KeptAfterExpand(list, rules.entries[u], u, x);
    }
    CompleteAfterExpand(rules, nts, seen, list, u, next);
  }

  /** Any list keeping every right side of `list` and of `u` other than `u` itself is complete once `u` is expanded. */
  lemma CompleteAfterExpand(rules: Rules, nts: seq<string>, seen: set<string>, list: seq<string>, u: string, next: seq<string>)
    requires Complete(rules, nts, seen, list) && u in UnitNames(rules, nts)
    requires forall x :: x != u && (x in list || x in rules.entries[u]) ==> x in next
    ensures Complete(rules, nts, seen + {u}, next)
  {
    var units := UnitNames(rules, nts);
    forall b, x | b in seen + {u} && x in Listed(rules, b)
      ensures x in next || (x in units && x in seen + {u})
    {
      if b != u {
        assert x in list || (x in units && x in seen);
      }
    }
  }

  /** A right side other than `u`, in the list or in the expansion, survives the filter and the deduplication. */
  lemma KeptAfterExpand(list: seq<string>, more: seq<string>, u: string, x: string)
    requires x != u && (x in list || x in more)
    ensures x in Dedup(Without(list + more, u))
  {
    assert x in list + more;
  }

  /** A list without units: the expanded set is closed. */
  lemma StopCloses(rules: Rules, nts: seq<string>, seen: set<string>, list: seq<string>)
    requires Complete(rules, nts, seen, list)
    requires KeepIn(list, UnitNames(rules, nts)) == []
    ensures forall x :: x in list ==> x !in UnitNames(rules, nts)
    ensures UnitClosed(rules, nts, seen)
  {
  }

  lemma {:induction false} ResolveFacts(rules: Rules, nts: seq<string>, seen: set<string>, list: seq<string>)
    requires Sound(rules, seen, list) && Complete(rules, nts, seen, list)
    ensures seen <= Resolve(rules, nts, seen, list).seen
    ensures forall x :: x in Resolve(rules, nts, seen, list).prods ==> x !in UnitNames(rules, nts)
    ensures Sound(rules, Resolve(rules, nts, seen, list).seen, Resolve(rules, nts, seen, list).prods)
    ensures Complete(rules, nts, Resolve(rules, nts, seen, list).seen, Resolve(rules, nts, seen, list).prods)
    ensures UnitClosed(rules, nts, Resolve(rules, nts, seen, list).seen)
    decreases |Members(nts) - seen|, |list|
  {
    var units := KeepIn(list, UnitNames(rules, nts));
    if |units| == 0 {
      StopCloses(rules, nts, seen, list);
    } else {
      var u := units[0];
      assert u in list && u in UnitNames(rules, nts);
      if u in seen {
        DropSound(rules, seen, list, u);
        DropComplete(rules, nts, seen, list, u);
        ResolveFacts(rules, nts, seen, Dedup(Without(list, u)));
      } else {
        assert Members(nts) - (seen + {u}) == (Members(nts) - seen) - {u};
        ExpandSound(rules, seen, list, u);
        ExpandComplete(rules, nts, seen, list, u);
        ResolveFacts(rules, nts, seen + {u}, Dedup(Without(list + rules.entries[u], u)));
      }
    }
  }

  lemma {:induction false} ResolveLeast(rules: Rules, nts: seq<string>, seen: set<string>, list: seq<string>, Z: set<string>)
    requires Sound(rules, seen, list)
    requires seen <= Z && UnitClosed(rules, nts, Z)
    ensures Resolve(rules, nts, seen, list).seen <= Z
    decreases |Members(nts) - seen|, |list|
  {
    var units := KeepIn(list, UnitNames(rules, nts));
    if |units| > 0 {
      var u := units[0];
      assert u in list && u in UnitNames(rules, nts);
      if u in seen {
        DropSound(rules, seen, list, u);
        ResolveLeast(rules, nts, seen, Dedup(Without(list, u)), Z);
      } else {
        assert Members(nts) - (seen + {u}) == (Members(nts) - seen) - {u};
        var b :| b in seen && u in Listed(rules, b);
        assert u in Z;
        ExpandSound(rules, seen, list, u);
        ResolveLeast(rules, nts, seen + {u}, Dedup(Without(list + rules.entries[u], u)), Z);
      }
    }
  }

  lemma {:induction false} ResolveNoDup(rules: Rules, nts: seq<string>, seen: set<string>, list: seq<string>)
    requires NoDup(list) || KeepIn(list, UnitNames(rules, nts)) != []
    ensures NoDup(Resolve(rules, nts, seen, list).prods)
    decreases |Members(nts) - seen|, |list|
  {
    var units := KeepIn(list, UnitNames(rules, nts));
    if |units| > 0 {
      var u := units[0];
      assert u in list && u in UnitNames(rules, nts);
      if u in seen {
        ResolveNoDup(rules, nts, seen, Dedup(Without(list, u)));
      } else {
        assert Members(nts) - (seen + {u}) == (Members(nts) - seen) - {u};
        ResolveNoDup(rules, nts, seen + {u}, Dedup(Without(list + rules.entries[u], u)));
      }
    }
  }

  /** With no unit left, every right side of an expanded non-terminal that is no unit is in the list. */
  lemma SettledComplete(rules: Rules, nts: seq<string>, seen: set<string>, list: seq<string>, x: string)
    requires Complete(rules, nts, seen, list)
    requires x !in UnitNames(rules, nts) && exists b :: b in seen && x in Listed(rules, b)
    ensures x in list
  {
    var b :| b in seen && x in Listed(rules, b);
  }

  /** With no unit left, the invariants say exactly what the list holds. */
  lemma SettledProds(rules: Rules, nts: seq<string>, seen: set<string>, list: seq<string>)
    requires Sound(rules, seen, list) && Complete(rules, nts, seen, list)
    requires forall x :: x in list ==> x !in UnitNames(rules, nts)
    ensures forall x :: x in list <==> x !in UnitNames(rules, nts) && exists b :: b in seen && x in Listed(rules, b)
  {
    forall x | x !in UnitNames(rules, nts) && exists b :: b in seen && x in Listed(rules, b) ensures x in list {
      SettledComplete(rules, nts, seen, list, x);
    }
  }

  lemma StartSound(rules: Rules, nt: string)
    ensures Sound(rules, {nt}, Listed(rules, nt))
  {
    forall x | x in Listed(rules, nt) ensures exists b :: b in {nt} && x in Listed(rules, b) {
      assert nt in {nt};
    }
  }

  /**
   * The units expanded into the corrected list of `nt`: `nt` and every
   * non-terminal it reaches through unit productions, the least set holding
   * `nt` that is closed under units.
   */
  lemma UnitFreeListReach(rules: Rules, nts: seq<string>, nt: string)
    ensures nt in UnitFreeList(rules, nts, nt).seen
    ensures UnitClosed(rules, nts, UnitFreeList(rules, nts, nt).seen)
    ensures forall Z :: nt in Z && UnitClosed(rules, nts, Z) ==> UnitFreeList(rules, nts, nt).seen <= Z
  {
    StartSound(rules, nt);
    ResolveFacts(rules, nts, {nt}, Listed(rules, nt));
    forall Z | nt in Z && UnitClosed(rules, nts, Z) ensures UnitFreeList(rules, nts, nt).seen <= Z {
      ResolveLeast(rules, nts, {nt}, Listed(rules, nt), Z);
    }
  }

  /**
   * The corrected list of `nt` holds exactly the right sides of those
   * non-terminals that are not units with rules.
   */
  lemma UnitFreeListProds(rules: Rules, nts: seq<string>, nt: string)
    ensures forall x :: x in UnitFreeList(rules, nts, nt).prods <==>
      x !in UnitNames(rules, nts) && exists b :: b in UnitFreeList(rules, nts, nt).seen && x in Listed(rules, b)
  {
    StartSound(rules, nt);
    ResolveFacts(rules, nts, {nt}, Listed(rules, nt));
    var r := UnitFreeList(rules, nts, nt);
    SettledProds(rules, nts, r.seen, r.prods);
  }

  /** The corrected list is deduplicated whenever a unit was eliminated from it, or it already was. */
  lemma UnitFreeListNoDup(rules: Rules, nts: seq<string>, nt: string)
    requires NoDup(Listed(rules, nt)) || exists u :: u in Listed(rules, nt) && u in UnitNames(rules, nts)
    ensures NoDup(UnitFreeList(rules, nts, nt).prods)
  {
    if !NoDup(Listed(rules, nt)) {
      var u :| u in Listed(rules, nt) && u in UnitNames(rules, nts);
      assert u in KeepIn(Listed(rules, nt), UnitNames(rules, nts));
    }
    ResolveNoDup(rules, nts, {nt}, Listed(rules, nt));
  }

  /** Every left side in `order` that has rules gets its corrected list. */
  function RenamedAlong(rules: Rules, nts: seq<string>, order: seq<string>): Rules
    decreases |order|
  {
    if |order| == 0 then rules else
      var r := RenamedAlong(rules, nts, order[..|order| - 1]);
      var nt := order[|order| - 1];
      if nt in rules.entries then r.Put(nt, UnitFreeList(rules, nts, nt).prods) else r
  }

  /** `this.rules` after the corrected elimination. */
  function Renamed(rules: Rules, nts: seq<string>): Rules {
    RenamedAlong(rules, nts, nts)
  }

  lemma RenamedAlongSnoc(rules: Rules, nts: seq<string>, order: seq<string>, i: nat)
    requires i < |order|
    ensures RenamedAlong(rules, nts, order[..i + 1]) ==
      if order[i] in rules.entries then RenamedAlong(rules, nts, order[..i]).Put(order[i], UnitFreeList(rules, nts, order[i]).prods)
      else RenamedAlong(rules, nts, order[..i])
  {
    assert order[..i + 1][..i] == order[..i];
  }

  lemma {:induction false} RenamedAlongShape(rules: Rules, nts: seq<string>, order: seq<string>)
    requires rules.Valid()
    ensures RenamedAlong(rules, nts, order).Valid() && RenamedAlong(rules, nts, order).keys == rules.keys
    ensures forall k :: k in rules.entries ==> RenamedAlong(rules, nts, order).entries[k] ==
                                                (if k in order then UnitFreeList(rules, nts, k).prods else rules.entries[k])
    decreases |order|
  {
    if |order| > 0 {
      RenamedAlongShape(rules, nts, order[..|order| - 1]);
      assert order == order[..|order| - 1] + [order[|order| - 1]];
    }
  }

  /**
   * The corrected elimination keeps the left sides and their order; every
   * left side listed in `nonTerminals` ends with the corrected list (no unit
   * with rules, the right sides it reaches through units); the others keep
   * their rules.
   */
  lemma RenamedFacts(rules: Rules, nts: seq<string>)
    requires rules.Valid()
    ensures Renamed(rules, nts).Valid() && Renamed(rules, nts).keys == rules.keys
    ensures forall k :: k in rules.entries && k in nts ==> Renamed(rules, nts).entries[k] == UnitFreeList(rules, nts, k).prods
    ensures forall k :: k in rules.entries && k !in nts ==> Renamed(rules, nts).entries[k] == rules.entries[k]
    ensures forall k, p :: k in nts && k in rules.entries && p in Renamed(rules, nts).entries[k] ==> p !in UnitNames(rules, nts)
  {
    RenamedAlongShape(rules, nts, nts);
    forall k, p | k in nts && k in rules.entries && p in Renamed(rules, nts).entries[k] ensures p !in UnitNames(rules, nts) {
      UnitFreeListProds(rules, nts, k);
    }
  }
}

/**
 * The productions of a grammar as the conversions visit them:
 * `for (let [left, rules] of Object.entries(productions)) for (let rule of rules)`,
 * and a fold of one conversion step over that sequence of (left side, rule) pairs.
 */
module ProductionRules {
  import opened Wrappers
  import opened Dicts

  /** A left side and one of its right sides. */
  type Rule = (string, string)

  /** The right sides listed under `left` (an absent key has none). */
  function RightSides(p: Dict<seq<string>>, left: string): seq<string> {
    if left in p.entries then p.entries[left] else []
  }

  function RulesUnder(p: Dict<seq<string>>, left: string): (rs: seq<Rule>)
    ensures |rs| == |RightSides(p, left)|
  {
    seq(|RightSides(p, left)|, k requires 0 <= k < |RightSides(p, left)| => (left, RightSides(p, left)[k]))
  }

  /** The rules under `keys`, key by key, each key's right sides in order. */
  function RulesOf(p: Dict<seq<string>>, keys: seq<string>): seq<Rule> {
    if |keys| == 0 then [] else
      RulesOf(p, keys[..|keys| - 1]) + RulesUnder(p, keys[|keys| - 1])
  }

  /** Applying `step` to every rule in order; the first failure ends the loop. */
  function Fold<T>(step: (T, Rule) -> Result<T>, t: T, rules: seq<Rule>): Result<T> {
    if |rules| == 0 then Ok(t) else
      match Fold(step, t, rules[..|rules| - 1])
      case Err(e) => Err(e)
      case Ok(t') => step(t', rules[|rules| - 1])
  }

  lemma FoldSnoc<T>(step: (T, Rule) -> Result<T>, t: T, rules: seq<Rule>, rule: Rule)
    ensures Fold(step, t, rules + [rule]) ==
      match Fold(step, t, rules) case Err(e) => Err(e) case Ok(t') => step(t', rule)
  {
    assert (rules + [rule])[..|rules|] == rules;
  }

  /** Once a step fails, the rest of the loop never runs. */
  lemma {:induction false} FoldErrorSticks<T>(step: (T, Rule) -> Result<T>, t: T, done: seq<Rule>, rest: seq<Rule>)
    requires Fold(step, t, done).Err?
    ensures Fold(step, t, done + rest) == Fold(step, t, done)
    decreases |rest|
  {
    if |rest| > 0 {
      var all := done + rest;
      assert all[..|all| - 1] == done + rest[..|rest| - 1];
      FoldErrorSticks(step, t, done, rest[..|rest| - 1]);
    } else {
      assert done + rest == done;
    }
  }

  lemma {:induction false} RulesOfAppend(p: Dict<seq<string>>, front: seq<string>, back: seq<string>)
    ensures RulesOf(p, front + back) == RulesOf(p, front) + RulesOf(p, back)
    decreases |back|
  {
    if |back| == 0 {
      assert front + back == front;
    } else {
      var all := front + back;
      var last := back[|back| - 1];
      assert all[..|all| - 1] == front + back[..|back| - 1];
      assert all[|all| - 1] == last;
      RulesOfAppend(p, front, back[..|back| - 1]);
      calc {
        RulesOf(p, all);
        RulesOf(p, front + back[..|back| - 1]) + RulesUnder(p, last);
        RulesOf(p, front) + RulesOf(p, back[..|back| - 1]) + RulesUnder(p, last);
        RulesOf(p, front) + (RulesOf(p, back[..|back| - 1]) + RulesUnder(p, last));
        RulesOf(p, front) + RulesOf(p, back);
      }
    }
  }

  /** The rules of all keys: those before key `i`, those of key `i`, those after. */
  lemma RulesOfSplit(p: Dict<seq<string>>, keys: seq<string>, i: nat)
    requires i < |keys|
    ensures RulesOf(p, keys) == RulesOf(p, keys[..i]) + RulesUnder(p, keys[i]) + RulesOf(p, keys[i + 1..])
  {
    assert keys == keys[..i] + [keys[i]] + keys[i + 1..];
    RulesOfAppend(p, keys[..i] + [keys[i]], keys[i + 1..]);
    RulesOfAppend(p, keys[..i], [keys[i]]);
    assert [keys[i]][..0] == [];
  }

  /** Entering the inner loop for key `i`, and leaving it. */
  lemma RulesOfNext(p: Dict<seq<string>>, keys: seq<string>, i: nat)
    requires i < |keys|
    ensures RulesOf(p, keys[..i]) + RulesUnder(p, keys[i])[..0] == RulesOf(p, keys[..i])
    ensures RulesOf(p, keys[..i]) + RulesUnder(p, keys[i])[..|RightSides(p, keys[i])|] == RulesOf(p, keys[..i + 1])
  {
    assert keys[..i + 1][..i] == keys[..i];
    assert RulesUnder(p, keys[i])[..|RightSides(p, keys[i])|] == RulesUnder(p, keys[i]);
  }

  /** The inner loop's invariant survives one step: the prefix grows by the rule just applied. */
  lemma FoldStepResult<T>(step: (T, Rule) -> Result<T>, p: Dict<seq<string>>, t0: T, keys: seq<string>,
                          i: nat, j: nat, before: T)
    requires i < |keys| && j < |RightSides(p, keys[i])|
    requires Fold(step, t0, RulesOf(p, keys[..i]) + RulesUnder(p, keys[i])[..j]) == Ok(before)
    ensures Fold(step, t0, RulesOf(p, keys[..i]) + RulesUnder(p, keys[i])[..j + 1]) ==
      step(before, (keys[i], RightSides(p, keys[i])[j]))
  {
    var under := RulesUnder(p, keys[i]);
    var done := RulesOf(p, keys[..i]) + under[..j];
    assert under[..j + 1] == under[..j] + [under[j]];
    assert done + [under[j]] == RulesOf(p, keys[..i]) + under[..j + 1];
    assert under[j] == (keys[i], RightSides(p, keys[i])[j]);
    FoldSnoc(step, t0, done, under[j]);
  }

  lemma FoldStep<T>(step: (T, Rule) -> Result<T>, p: Dict<seq<string>>, t0: T, keys: seq<string>,
                    i: nat, j: nat, before: T, after: T)
    requires i < |keys| && j < |RightSides(p, keys[i])|
    requires Fold(step, t0, RulesOf(p, keys[..i]) + RulesUnder(p, keys[i])[..j]) == Ok(before)
    requires step(before, (keys[i], RightSides(p, keys[i])[j])) == Ok(after)
    ensures Fold(step, t0, RulesOf(p, keys[..i]) + RulesUnder(p, keys[i])[..j + 1]) == Ok(after)
  {
    FoldStepResult(step, p, t0, keys, i, j, before);
  }

  /** All rules: the first `j + 1` under key `i` after those before it, then the rest. */
  lemma RulesOfAround(p: Dict<seq<string>>, keys: seq<string>, i: nat, j: nat)
    requires i < |keys| && j < |RightSides(p, keys[i])|
    ensures RulesOf(p, keys) ==
      (RulesOf(p, keys[..i]) + RulesUnder(p, keys[i])[..j + 1]) + (RulesUnder(p, keys[i])[j + 1..] + RulesOf(p, keys[i + 1..]))
  {
    RulesOfSplit(p, keys, i);
    Regroup(RulesOf(p, keys[..i]), RulesUnder(p, keys[i]), RulesOf(p, keys[i + 1..]), j + 1);
  }

  lemma Regroup<T>(a: seq<T>, u: seq<T>, b: seq<T>, n: nat)
    requires n <= |u|
    ensures a + u + b == (a + u[..n]) + (u[n..] + b)
  {
    assert u == u[..n] + u[n..];
  }

  /** A failing step makes the whole conversion fail with its error. */
  lemma FoldFails<T>(step: (T, Rule) -> Result<T>, p: Dict<seq<string>>, t0: T, keys: seq<string>,
                     i: nat, j: nat, t: T)
    requires i < |keys| && j < |RightSides(p, keys[i])|
    requires Fold(step, t0, RulesOf(p, keys[..i]) + RulesUnder(p, keys[i])[..j]) == Ok(t)
    requires step(t, (keys[i], RightSides(p, keys[i])[j])).Err?
    ensures Fold(step, t0, RulesOf(p, keys)) == step(t, (keys[i], RightSides(p, keys[i])[j]))
  {
    var done := RulesOf(p, keys[..i]) + RulesUnder(p, keys[i])[..j + 1];
    FoldStepResult(step, p, t0, keys, i, j, t);
    FoldErrorSticks(step, t0, done, RulesUnder(p, keys[i])[j + 1..] + RulesOf(p, keys[i + 1..]));
    RulesOfAround(p, keys, i, j);
  }

  /** Every rule is listed under one of the keys. */
  lemma {:induction false} RuleOfKey(p: Dict<seq<string>>, keys: seq<string>, k: nat)
    requires k < |RulesOf(p, keys)|
    ensures RulesOf(p, keys)[k].0 in keys && RulesOf(p, keys)[k].1 in RightSides(p, RulesOf(p, keys)[k].0)
    decreases |keys|
  {
    var front := keys[..|keys| - 1];
    var last := keys[|keys| - 1];
    if k < |RulesOf(p, front)| {
      RuleOfKey(p, front, k);
    } else {
      assert RulesOf(p, keys)[k] == RulesUnder(p, last)[k - |RulesOf(p, front)|];
    }
  }

  /** A key with a right side contributes a rule. */
  lemma {:induction false} KeyRule(p: Dict<seq<string>>, keys: seq<string>, left: string) returns (k: nat)
    requires left in keys && RightSides(p, left) != []
    ensures k < |RulesOf(p, keys)| && RulesOf(p, keys)[k].0 == left
    decreases |keys|
  {
    var front := keys[..|keys| - 1];
    var last := keys[|keys| - 1];
    if left in front {
      k := KeyRule(p, front, left);
    } else {
      assert left == last;
      k := |RulesOf(p, front)|;
      assert RulesOf(p, keys)[k] == RulesUnder(p, last)[0];
    }
  }

  /** Every right side under a key is one of the rules. */
  lemma {:induction false} RuleIndex(p: Dict<seq<string>>, keys: seq<string>, left: string, r: string) returns (k: nat)
    requires left in keys && r in RightSides(p, left)
    ensures k < |RulesOf(p, keys)| && RulesOf(p, keys)[k] == (left, r)
    decreases |keys|
  {
    var front := keys[..|keys| - 1];
    var last := keys[|keys| - 1];
    if left in front {
      k := RuleIndex(p, front, left, r);
      assert RulesOf(p, keys)[k] == RulesOf(p, front)[k];
    } else {
      assert left == last;
      var j :| 0 <= j < |RightSides(p, left)| && RightSides(p, left)[j] == r;
      k := |RulesOf(p, front)| + j;
      assert RulesOf(p, keys)[k] == RulesUnder(p, last)[j];
    }
  }

  /** A fold whose every step is known: from `ts[0]` through `ts[k]` after `k` rules. */
  lemma {:induction false} FoldChain<T>(step: (T, Rule) -> Result<T>, ts: seq<T>, rules: seq<Rule>)
    requires |ts| == |rules| + 1
    requires forall k :: 0 <= k < |rules| ==> step(ts[k], rules[k]) == Ok(ts[k + 1])
    ensures Fold(step, ts[0], rules) == Ok(ts[|rules|])
    decreases |rules|
  {
    if |rules| > 0 {
      var front := rules[..|rules| - 1];
      FoldChain(step, ts[..|rules|], front);
    }
  }
}

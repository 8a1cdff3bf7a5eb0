/**
 * A grammar on which `eliminateRenaming` of lab5/CNF.js, as written, loops
 * for ever: six non-terminals whose productions are all units. Every pass
 * sets `changes`, and three passes give back the grammar they started from.
 *
 * The lemmas below evaluate the passes, one unit step at a time; each
 * `CycleStep` lemma evaluates one `[...new Set(list.filter(...))]`.
 */
module RenamingCycle {
  import opened Seqs
  import opened Dicts
  import opened CnfRules
  import opened Renaming

  const CycleNonTerminals: seq<string> := ["A", "B", "C", "D", "E", "F"]

  /** A grammar of six non-terminals, every production a unit, on which the passes never settle. */
  predicate IsCycleStart(rules: Rules) {
    && "A" in rules.entries && rules.entries["A"] == ["A", "B", "C", "E"]
    && "B" in rules.entries && rules.entries["B"] == ["E", "F", "A"]
    && "C" in rules.entries && rules.entries["C"] == ["B", "C", "E"]
    && "D" in rules.entries && rules.entries["D"] == ["E", "A", "B"]
    && "E" in rules.entries && rules.entries["E"] == ["E", "F", "A", "B"]
    && "F" in rules.entries && rules.entries["F"] == ["B", "C", "E"]
  }

  /** The grammar after one pass. */
  predicate IsCycleSecond(rules: Rules) {
    && "A" in rules.entries && rules.entries["A"] == ["F", "A", "B"]
    && "B" in rules.entries && rules.entries["B"] == ["B", "C", "E", "F"]
    && "C" in rules.entries && rules.entries["C"] == ["F", "A", "B"]
    && "D" in rules.entries && rules.entries["D"] == ["F", "C", "E"]
    && "E" in rules.entries && rules.entries["E"] == ["C", "E", "F"]
    && "F" in rules.entries && rules.entries["F"] == ["F", "A", "B", "C"]
  }

  /** The grammar after two passes. */
  predicate IsCycleThird(rules: Rules) {
    && "A" in rules.entries && rules.entries["A"] == ["C", "E", "F"]
    && "B" in rules.entries && rules.entries["B"] == ["A", "B", "C"]
    && "C" in rules.entries && rules.entries["C"] == ["C", "E", "F", "A"]
    && "D" in rules.entries && rules.entries["D"] == ["A", "B", "F", "C"]
    && "E" in rules.entries && rules.entries["E"] == ["A", "B", "C"]
    && "F" in rules.entries && rules.entries["F"] == ["E", "F", "A"]
  }

  lemma CycleStep1(rules: Rules)
    requires "A" in rules.entries
    ensures UnitStep(rules, "A", ["A", "B", "C", "E"], "A") == ["B", "C", "E"]
  {
    UnitStepAt(rules, "A", ["A", "B", "C", "E"], "A", ["A", "B", "C", "E", "A", "B", "C", "E"], ["B", "C", "E"]);
  }

  lemma CycleStep2(rules: Rules)
    requires "B" in rules.entries && rules.entries["B"] == ["E", "F", "A"]
    ensures UnitStep(rules, "A", ["B", "C", "E"], "B") == ["C", "E", "F", "A"]
  {
    UnitStepAt(rules, "A", ["B", "C", "E"], "B", ["B", "C", "E", "E", "F", "A"], ["C", "E", "F", "A"]);
  }

  lemma CycleStep3(rules: Rules)
    requires "C" in rules.entries && rules.entries["C"] == ["B", "C", "E"]
    ensures UnitStep(rules, "A", ["C", "E", "F", "A"], "C") == ["E", "F", "A", "B"]
  {
    UnitStepAt(rules, "A", ["C", "E", "F", "A"], "C", ["C", "E", "F", "A", "B", "C", "E"], ["E", "F", "A", "B"]);
  }

  lemma CycleStep4(rules: Rules)
    requires "E" in rules.entries && rules.entries["E"] == ["E", "F", "A", "B"]
    ensures UnitStep(rules, "A", ["E", "F", "A", "B"], "E") == ["F", "A", "B"]
  {
    UnitStepAt(rules, "A", ["E", "F", "A", "B"], "E", ["E", "F", "A", "B", "E", "F", "A", "B"], ["F", "A", "B"]);
  }

  lemma CycleStep5(rules: Rules)
    requires "E" in rules.entries && rules.entries["E"] == ["E", "F", "A", "B"]
    ensures UnitStep(rules, "B", ["E", "F", "A"], "E") == ["F", "A", "B"]
  {
    UnitStepAt(rules, "B", ["E", "F", "A"], "E", ["E", "F", "A", "E", "F", "A", "B"], ["F", "A", "B"]);
  }

  lemma CycleStep6(rules: Rules)
    requires "F" in rules.entries && rules.entries["F"] == ["B", "C", "E"]
    ensures UnitStep(rules, "B", ["F", "A", "B"], "F") == ["A", "B", "C", "E"]
  {
    UnitStepAt(rules, "B", ["F", "A", "B"], "F", ["F", "A", "B", "B", "C", "E"], ["A", "B", "C", "E"]);
  }

  lemma CycleStep7(rules: Rules)
    requires "A" in rules.entries && rules.entries["A"] == ["F", "A", "B"]
    ensures UnitStep(rules, "B", ["A", "B", "C", "E"], "A") == ["B", "C", "E", "F"]
  {
    UnitStepAt(rules, "B", ["A", "B", "C", "E"], "A", ["A", "B", "C", "E", "F", "A", "B"], ["B", "C", "E", "F"]);
  }

  lemma CycleStep8(rules: Rules)
    requires "B" in rules.entries && rules.entries["B"] == ["B", "C", "E", "F"]
    ensures UnitStep(rules, "C", ["B", "C", "E"], "B") == ["C", "E", "F"]
  {
    UnitStepAt(rules, "C", ["B", "C", "E"], "B", ["B", "C", "E", "B", "C", "E", "F"], ["C", "E", "F"]);
  }

  lemma CycleStep9(rules: Rules)
    requires "C" in rules.entries
    ensures UnitStep(rules, "C", ["C", "E", "F"], "C") == ["E", "F"]
  {
    UnitStepAt(rules, "C", ["C", "E", "F"], "C", ["C", "E", "F", "C", "E", "F"], ["E", "F"]);
  }

  lemma CycleStep10(rules: Rules)
    requires "E" in rules.entries && rules.entries["E"] == ["E", "F", "A", "B"]
    ensures UnitStep(rules, "C", ["E", "F"], "E") == ["F", "A", "B"]
  {
    UnitStepAt(rules, "C", ["E", "F"], "E", ["E", "F", "E", "F", "A", "B"], ["F", "A", "B"]);
  }

  lemma CycleStep11(rules: Rules)
    requires "E" in rules.entries && rules.entries["E"] == ["E", "F", "A", "B"]
    ensures UnitStep(rules, "D", ["E", "A", "B"], "E") == ["A", "B", "F"]
  {
    UnitStepAt(rules, "D", ["E", "A", "B"], "E", ["E", "A", "B", "E", "F", "A", "B"], ["A", "B", "F"]);
  }

  lemma CycleStep12(rules: Rules)
    requires "A" in rules.entries && rules.entries["A"] == ["F", "A", "B"]
    ensures UnitStep(rules, "D", ["A", "B", "F"], "A") == ["B", "F"]
  {
    UnitStepAt(rules, "D", ["A", "B", "F"], "A", ["A", "B", "F", "F", "A", "B"], ["B", "F"]);
  }

  lemma CycleStep13(rules: Rules)
    requires "B" in rules.entries && rules.entries["B"] == ["B", "C", "E", "F"]
    ensures UnitStep(rules, "D", ["B", "F"], "B") == ["F", "C", "E"]
  {
    UnitStepAt(rules, "D", ["B", "F"], "B", ["B", "F", "B", "C", "E", "F"], ["F", "C", "E"]);
  }

  lemma CycleStep14(rules: Rules)
    requires "E" in rules.entries
    ensures UnitStep(rules, "E", ["E", "F", "A", "B"], "E") == ["F", "A", "B"]
  {
    UnitStepAt(rules, "E", ["E", "F", "A", "B"], "E", ["E", "F", "A", "B", "E", "F", "A", "B"], ["F", "A", "B"]);
  }

  lemma CycleStep15(rules: Rules)
    requires "F" in rules.entries && rules.entries["F"] == ["B", "C", "E"]
    ensures UnitStep(rules, "E", ["F", "A", "B"], "F") == ["A", "B", "C", "E"]
  {
    UnitStepAt(rules, "E", ["F", "A", "B"], "F", ["F", "A", "B", "B", "C", "E"], ["A", "B", "C", "E"]);
  }

  lemma CycleStep16(rules: Rules)
    requires "A" in rules.entries && rules.entries["A"] == ["F", "A", "B"]
    ensures UnitStep(rules, "E", ["A", "B", "C", "E"], "A") == ["B", "C", "E", "F"]
  {
    UnitStepAt(rules, "E", ["A", "B", "C", "E"], "A", ["A", "B", "C", "E", "F", "A", "B"], ["B", "C", "E", "F"]);
  }

  lemma CycleStep17(rules: Rules)
    requires "B" in rules.entries && rules.entries["B"] == ["B", "C", "E", "F"]
    ensures UnitStep(rules, "E", ["B", "C", "E", "F"], "B") == ["C", "E", "F"]
  {
    UnitStepAt(rules, "E", ["B", "C", "E", "F"], "B", ["B", "C", "E", "F", "B", "C", "E", "F"], ["C", "E", "F"]);
  }

  lemma CycleStep18(rules: Rules)
    requires "B" in rules.entries && rules.entries["B"] == ["B", "C", "E", "F"]
    ensures UnitStep(rules, "F", ["B", "C", "E"], "B") == ["C", "E", "F"]
  {
    UnitStepAt(rules, "F", ["B", "C", "E"], "B", ["B", "C", "E", "B", "C", "E", "F"], ["C", "E", "F"]);
  }

  lemma CycleStep19(rules: Rules)
    requires "C" in rules.entries && rules.entries["C"] == ["F", "A", "B"]
    ensures UnitStep(rules, "F", ["C", "E", "F"], "C") == ["E", "F", "A", "B"]
  {
    UnitStepAt(rules, "F", ["C", "E", "F"], "C", ["C", "E", "F", "F", "A", "B"], ["E", "F", "A", "B"]);
  }

  lemma CycleStep20(rules: Rules)
    requires "E" in rules.entries && rules.entries["E"] == ["C", "E", "F"]
    ensures UnitStep(rules, "F", ["E", "F", "A", "B"], "E") == ["F", "A", "B", "C"]
  {
    UnitStepAt(rules, "F", ["E", "F", "A", "B"], "E", ["E", "F", "A", "B", "C", "E", "F"], ["F", "A", "B", "C"]);
  }

  lemma CycleStep21(rules: Rules)
    requires "F" in rules.entries && rules.entries["F"] == ["F", "A", "B", "C"]
    ensures UnitStep(rules, "A", ["F", "A", "B"], "F") == ["A", "B", "C"]
  {
    UnitStepAt(rules, "A", ["F", "A", "B"], "F", ["F", "A", "B", "F", "A", "B", "C"], ["A", "B", "C"]);
  }

  lemma CycleStep22(rules: Rules)
    requires "A" in rules.entries
    ensures UnitStep(rules, "A", ["A", "B", "C"], "A") == ["B", "C"]
  {
    UnitStepAt(rules, "A", ["A", "B", "C"], "A", ["A", "B", "C", "A", "B", "C"], ["B", "C"]);
  }

  lemma CycleStep23(rules: Rules)
    requires "B" in rules.entries && rules.entries["B"] == ["B", "C", "E", "F"]
    ensures UnitStep(rules, "A", ["B", "C"], "B") == ["C", "E", "F"]
  {
    UnitStepAt(rules, "A", ["B", "C"], "B", ["B", "C", "B", "C", "E", "F"], ["C", "E", "F"]);
  }

  lemma CycleStep24(rules: Rules)
    requires "B" in rules.entries
    ensures UnitStep(rules, "B", ["B", "C", "E", "F"], "B") == ["C", "E", "F"]
  {
    UnitStepAt(rules, "B", ["B", "C", "E", "F"], "B", ["B", "C", "E", "F", "B", "C", "E", "F"], ["C", "E", "F"]);
  }

  lemma CycleStep25(rules: Rules)
    requires "C" in rules.entries && rules.entries["C"] == ["F", "A", "B"]
    ensures UnitStep(rules, "B", ["C", "E", "F"], "C") == ["E", "F", "A", "B"]
  {
    UnitStepAt(rules, "B", ["C", "E", "F"], "C", ["C", "E", "F", "F", "A", "B"], ["E", "F", "A", "B"]);
  }

  lemma CycleStep26(rules: Rules)
    requires "E" in rules.entries && rules.entries["E"] == ["C", "E", "F"]
    ensures UnitStep(rules, "B", ["E", "F", "A", "B"], "E") == ["F", "A", "B", "C"]
  {
    UnitStepAt(rules, "B", ["E", "F", "A", "B"], "E", ["E", "F", "A", "B", "C", "E", "F"], ["F", "A", "B", "C"]);
  }

  lemma CycleStep27(rules: Rules)
    requires "F" in rules.entries && rules.entries["F"] == ["F", "A", "B", "C"]
    ensures UnitStep(rules, "B", ["F", "A", "B", "C"], "F") == ["A", "B", "C"]
  {
    UnitStepAt(rules, "B", ["F", "A", "B", "C"], "F", ["F", "A", "B", "C", "F", "A", "B", "C"], ["A", "B", "C"]);
  }

  lemma CycleStep28(rules: Rules)
    requires "F" in rules.entries && rules.entries["F"] == ["F", "A", "B", "C"]
    ensures UnitStep(rules, "C", ["F", "A", "B"], "F") == ["A", "B", "C"]
  {
    UnitStepAt(rules, "C", ["F", "A", "B"], "F", ["F", "A", "B", "F", "A", "B", "C"], ["A", "B", "C"]);
  }

  lemma CycleStep29(rules: Rules)
    requires "A" in rules.entries && rules.entries["A"] == ["C", "E", "F"]
    ensures UnitStep(rules, "C", ["A", "B", "C"], "A") == ["B", "C", "E", "F"]
  {
    UnitStepAt(rules, "C", ["A", "B", "C"], "A", ["A", "B", "C", "C", "E", "F"], ["B", "C", "E", "F"]);
  }

  lemma CycleStep30(rules: Rules)
    requires "B" in rules.entries && rules.entries["B"] == ["A", "B", "C"]
    ensures UnitStep(rules, "C", ["B", "C", "E", "F"], "B") == ["C", "E", "F", "A"]
  {
    UnitStepAt(rules, "C", ["B", "C", "E", "F"], "B", ["B", "C", "E", "F", "A", "B", "C"], ["C", "E", "F", "A"]);
  }

  lemma CycleStep31(rules: Rules)
    requires "F" in rules.entries && rules.entries["F"] == ["F", "A", "B", "C"]
    ensures UnitStep(rules, "D", ["F", "C", "E"], "F") == ["C", "E", "A", "B"]
  {
    UnitStepAt(rules, "D", ["F", "C", "E"], "F", ["F", "C", "E", "F", "A", "B", "C"], ["C", "E", "A", "B"]);
  }

  lemma CycleStep32(rules: Rules)
    requires "C" in rules.entries && rules.entries["C"] == ["C", "E", "F", "A"]
    ensures UnitStep(rules, "D", ["C", "E", "A", "B"], "C") == ["E", "A", "B", "F"]
  {
    UnitStepAt(rules, "D", ["C", "E", "A", "B"], "C", ["C", "E", "A", "B", "C", "E", "F", "A"], ["E", "A", "B", "F"]);
  }

  lemma CycleStep33(rules: Rules)
    requires "E" in rules.entries && rules.entries["E"] == ["C", "E", "F"]
    ensures UnitStep(rules, "D", ["E", "A", "B", "F"], "E") == ["A", "B", "F", "C"]
  {
    UnitStepAt(rules, "D", ["E", "A", "B", "F"], "E", ["E", "A", "B", "F", "C", "E", "F"], ["A", "B", "F", "C"]);
  }

  lemma CycleStep34(rules: Rules)
    requires "C" in rules.entries && rules.entries["C"] == ["C", "E", "F", "A"]
    ensures UnitStep(rules, "E", ["C", "E", "F"], "C") == ["E", "F", "A"]
  {
    UnitStepAt(rules, "E", ["C", "E", "F"], "C", ["C", "E", "F", "C", "E", "F", "A"], ["E", "F", "A"]);
  }

  lemma CycleStep35(rules: Rules)
    requires "E" in rules.entries
    ensures UnitStep(rules, "E", ["E", "F", "A"], "E") == ["F", "A"]
  {
    UnitStepAt(rules, "E", ["E", "F", "A"], "E", ["E", "F", "A", "E", "F", "A"], ["F", "A"]);
  }

  lemma CycleStep36(rules: Rules)
    requires "F" in rules.entries && rules.entries["F"] == ["F", "A", "B", "C"]
    ensures UnitStep(rules, "E", ["F", "A"], "F") == ["A", "B", "C"]
  {
    UnitStepAt(rules, "E", ["F", "A"], "F", ["F", "A", "F", "A", "B", "C"], ["A", "B", "C"]);
  }

  lemma CycleStep37(rules: Rules)
    requires "F" in rules.entries
    ensures UnitStep(rules, "F", ["F", "A", "B", "C"], "F") == ["A", "B", "C"]
  {
    UnitStepAt(rules, "F", ["F", "A", "B", "C"], "F", ["F", "A", "B", "C", "F", "A", "B", "C"], ["A", "B", "C"]);
  }

  lemma CycleStep38(rules: Rules)
    requires "A" in rules.entries && rules.entries["A"] == ["C", "E", "F"]
    ensures UnitStep(rules, "F", ["A", "B", "C"], "A") == ["B", "C", "E", "F"]
  {
    UnitStepAt(rules, "F", ["A", "B", "C"], "A", ["A", "B", "C", "C", "E", "F"], ["B", "C", "E", "F"]);
  }

  lemma CycleStep39(rules: Rules)
    requires "B" in rules.entries && rules.entries["B"] == ["A", "B", "C"]
    ensures UnitStep(rules, "F", ["B", "C", "E", "F"], "B") == ["C", "E", "F", "A"]
  {
    UnitStepAt(rules, "F", ["B", "C", "E", "F"], "B", ["B", "C", "E", "F", "A", "B", "C"], ["C", "E", "F", "A"]);
  }

  lemma CycleStep40(rules: Rules)
    requires "C" in rules.entries && rules.entries["C"] == ["C", "E", "F", "A"]
    ensures UnitStep(rules, "F", ["C", "E", "F", "A"], "C") == ["E", "F", "A"]
  {
    UnitStepAt(rules, "F", ["C", "E", "F", "A"], "C", ["C", "E", "F", "A", "C", "E", "F", "A"], ["E", "F", "A"]);
  }

  lemma CycleStep41(rules: Rules)
    requires "C" in rules.entries && rules.entries["C"] == ["C", "E", "F", "A"]
    ensures UnitStep(rules, "A", ["C", "E", "F"], "C") == ["E", "F", "A"]
  {
    UnitStepAt(rules, "A", ["C", "E", "F"], "C", ["C", "E", "F", "C", "E", "F", "A"], ["E", "F", "A"]);
  }

  lemma CycleStep42(rules: Rules)
    requires "E" in rules.entries && rules.entries["E"] == ["A", "B", "C"]
    ensures UnitStep(rules, "A", ["E", "F", "A"], "E") == ["F", "A", "B", "C"]
  {
    UnitStepAt(rules, "A", ["E", "F", "A"], "E", ["E", "F", "A", "A", "B", "C"], ["F", "A", "B", "C"]);
  }

  lemma CycleStep43(rules: Rules)
    requires "F" in rules.entries && rules.entries["F"] == ["E", "F", "A"]
    ensures UnitStep(rules, "A", ["F", "A", "B", "C"], "F") == ["A", "B", "C", "E"]
  {
    UnitStepAt(rules, "A", ["F", "A", "B", "C"], "F", ["F", "A", "B", "C", "E", "F", "A"], ["A", "B", "C", "E"]);
  }

  lemma CycleStep44(rules: Rules)
    requires "A" in rules.entries && rules.entries["A"] == ["A", "B", "C", "E"]
    ensures UnitStep(rules, "B", ["A", "B", "C"], "A") == ["B", "C", "E"]
  {
    UnitStepAt(rules, "B", ["A", "B", "C"], "A", ["A", "B", "C", "A", "B", "C", "E"], ["B", "C", "E"]);
  }

  lemma CycleStep45(rules: Rules)
    requires "B" in rules.entries
    ensures UnitStep(rules, "B", ["B", "C", "E"], "B") == ["C", "E"]
  {
    UnitStepAt(rules, "B", ["B", "C", "E"], "B", ["B", "C", "E", "B", "C", "E"], ["C", "E"]);
  }

  lemma CycleStep46(rules: Rules)
    requires "C" in rules.entries && rules.entries["C"] == ["C", "E", "F", "A"]
    ensures UnitStep(rules, "B", ["C", "E"], "C") == ["E", "F", "A"]
  {
    UnitStepAt(rules, "B", ["C", "E"], "C", ["C", "E", "C", "E", "F", "A"], ["E", "F", "A"]);
  }

  lemma CycleStep47(rules: Rules)
    requires "C" in rules.entries
    ensures UnitStep(rules, "C", ["C", "E", "F", "A"], "C") == ["E", "F", "A"]
  {
    UnitStepAt(rules, "C", ["C", "E", "F", "A"], "C", ["C", "E", "F", "A", "C", "E", "F", "A"], ["E", "F", "A"]);
  }

  lemma CycleStep48(rules: Rules)
    requires "E" in rules.entries && rules.entries["E"] == ["A", "B", "C"]
    ensures UnitStep(rules, "C", ["E", "F", "A"], "E") == ["F", "A", "B", "C"]
  {
    UnitStepAt(rules, "C", ["E", "F", "A"], "E", ["E", "F", "A", "A", "B", "C"], ["F", "A", "B", "C"]);
  }

  lemma CycleStep49(rules: Rules)
    requires "F" in rules.entries && rules.entries["F"] == ["E", "F", "A"]
    ensures UnitStep(rules, "C", ["F", "A", "B", "C"], "F") == ["A", "B", "C", "E"]
  {
    UnitStepAt(rules, "C", ["F", "A", "B", "C"], "F", ["F", "A", "B", "C", "E", "F", "A"], ["A", "B", "C", "E"]);
  }

  lemma CycleStep50(rules: Rules)
    requires "A" in rules.entries && rules.entries["A"] == ["A", "B", "C", "E"]
    ensures UnitStep(rules, "C", ["A", "B", "C", "E"], "A") == ["B", "C", "E"]
  {
    UnitStepAt(rules, "C", ["A", "B", "C", "E"], "A", ["A", "B", "C", "E", "A", "B", "C", "E"], ["B", "C", "E"]);
  }

  lemma CycleStep51(rules: Rules)
    requires "A" in rules.entries && rules.entries["A"] == ["A", "B", "C", "E"]
    ensures UnitStep(rules, "D", ["A", "B", "F", "C"], "A") == ["B", "F", "C", "E"]
  {
    UnitStepAt(rules, "D", ["A", "B", "F", "C"], "A", ["A", "B", "F", "C", "A", "B", "C", "E"], ["B", "F", "C", "E"]);
  }

  lemma CycleStep52(rules: Rules)
    requires "B" in rules.entries && rules.entries["B"] == ["E", "F", "A"]
    ensures UnitStep(rules, "D", ["B", "F", "C", "E"], "B") == ["F", "C", "E", "A"]
  {
    UnitStepAt(rules, "D", ["B", "F", "C", "E"], "B", ["B", "F", "C", "E", "E", "F", "A"], ["F", "C", "E", "A"]);
  }

  lemma CycleStep53(rules: Rules)
    requires "F" in rules.entries && rules.entries["F"] == ["E", "F", "A"]
    ensures UnitStep(rules, "D", ["F", "C", "E", "A"], "F") == ["C", "E", "A"]
  {
    UnitStepAt(rules, "D", ["F", "C", "E", "A"], "F", ["F", "C", "E", "A", "E", "F", "A"], ["C", "E", "A"]);
  }

  lemma CycleStep54(rules: Rules)
    requires "C" in rules.entries && rules.entries["C"] == ["B", "C", "E"]
    ensures UnitStep(rules, "D", ["C", "E", "A"], "C") == ["E", "A", "B"]
  {
    UnitStepAt(rules, "D", ["C", "E", "A"], "C", ["C", "E", "A", "B", "C", "E"], ["E", "A", "B"]);
  }

  lemma CycleStep55(rules: Rules)
    requires "A" in rules.entries && rules.entries["A"] == ["A", "B", "C", "E"]
    ensures UnitStep(rules, "E", ["A", "B", "C"], "A") == ["B", "C", "E"]
  {
    UnitStepAt(rules, "E", ["A", "B", "C"], "A", ["A", "B", "C", "A", "B", "C", "E"], ["B", "C", "E"]);
  }

  lemma CycleStep56(rules: Rules)
    requires "B" in rules.entries && rules.entries["B"] == ["E", "F", "A"]
    ensures UnitStep(rules, "E", ["B", "C", "E"], "B") == ["C", "E", "F", "A"]
  {
    UnitStepAt(rules, "E", ["B", "C", "E"], "B", ["B", "C", "E", "E", "F", "A"], ["C", "E", "F", "A"]);
  }

  lemma CycleStep57(rules: Rules)
    requires "C" in rules.entries && rules.entries["C"] == ["B", "C", "E"]
    ensures UnitStep(rules, "E", ["C", "E", "F", "A"], "C") == ["E", "F", "A", "B"]
  {
    UnitStepAt(rules, "E", ["C", "E", "F", "A"], "C", ["C", "E", "F", "A", "B", "C", "E"], ["E", "F", "A", "B"]);
  }

  lemma CycleStep58(rules: Rules)
    requires "E" in rules.entries && rules.entries["E"] == ["E", "F", "A", "B"]
    ensures UnitStep(rules, "F", ["E", "F", "A"], "E") == ["F", "A", "B"]
  {
    UnitStepAt(rules, "F", ["E", "F", "A"], "E", ["E", "F", "A", "E", "F", "A", "B"], ["F", "A", "B"]);
  }

  lemma CycleStep59(rules: Rules)
    requires "F" in rules.entries
    ensures UnitStep(rules, "F", ["F", "A", "B"], "F") == ["A", "B"]
  {
    UnitStepAt(rules, "F", ["F", "A", "B"], "F", ["F", "A", "B", "F", "A", "B"], ["A", "B"]);
  }

  lemma CycleStep60(rules: Rules)
    requires "A" in rules.entries && rules.entries["A"] == ["A", "B", "C", "E"]
    ensures UnitStep(rules, "F", ["A", "B"], "A") == ["B", "C", "E"]
  {
    UnitStepAt(rules, "F", ["A", "B"], "A", ["A", "B", "A", "B", "C", "E"], ["B", "C", "E"]);
  }

  lemma CycleStartAUnits(rules: Rules)
    requires "A" in rules.entries && rules.entries["A"] == ["A", "B", "C", "E"]
    requires "B" in rules.entries && rules.entries["B"] == ["E", "F", "A"]
    requires "C" in rules.entries && rules.entries["C"] == ["B", "C", "E"]
    requires "E" in rules.entries && rules.entries["E"] == ["E", "F", "A", "B"]
    ensures UnitsOf(rules, CycleNonTerminals, "A") == ["A", "B", "C", "E"]
    ensures UnitSteps(rules, "A", ["A", "B", "C", "E"], ["A", "B", "C", "E"]) == ["F", "A", "B"]
  {
    KeepInAll(["A", "B", "C", "E"], Members(CycleNonTerminals));
    CycleStep1(rules);
    CycleStep2(rules);
    CycleStep3(rules);
    CycleStep4(rules);
    assert UnitSteps(rules, "A", ["F", "A", "B"], []) == ["F", "A", "B"];
    assert UnitSteps(rules, "A", ["E", "F", "A", "B"], ["E"]) == ["F", "A", "B"];
    assert UnitSteps(rules, "A", ["C", "E", "F", "A"], ["C", "E"]) == ["F", "A", "B"];
    assert UnitSteps(rules, "A", ["B", "C", "E"], ["B", "C", "E"]) == ["F", "A", "B"];
    assert UnitSteps(rules, "A", ["A", "B", "C", "E"], ["A", "B", "C", "E"]) == ["F", "A", "B"];
  }

  /** One pass over `IsCycleStart` gives `IsCycleSecond` and sets `changes`. */
  lemma CycleStartA(rules: Rules)
    requires IsCycleStart(rules)
    ensures IsCycleSecond(RenamingPass(rules, CycleNonTerminals, ["A", "B", "C", "D", "E", "F"]).rules)
    ensures RenamingPass(rules, CycleNonTerminals, ["A", "B", "C", "D", "E", "F"]).changed
  {
    CycleStartAUnits(rules);
    assert "A" in ["A", "B", "C", "E"];
    var next := Dict(rules.keys, rules.entries["A" := ["F", "A", "B"]]);
    CycleStartB(next);
  }

  lemma CycleStartBUnits(rules: Rules)
    requires "A" in rules.entries && rules.entries["A"] == ["F", "A", "B"]
    requires "B" in rules.entries && rules.entries["B"] == ["E", "F", "A"]
    requires "E" in rules.entries && rules.entries["E"] == ["E", "F", "A", "B"]
    requires "F" in rules.entries && rules.entries["F"] == ["B", "C", "E"]
    ensures UnitsOf(rules, CycleNonTerminals, "B") == ["E", "F", "A"]
    ensures UnitSteps(rules, "B", ["E", "F", "A"], ["E", "F", "A"]) == ["B", "C", "E", "F"]
  {
    KeepInAll(["E", "F", "A"], Members(CycleNonTerminals));
    CycleStep5(rules);
    CycleStep6(rules);
    CycleStep7(rules);
    assert UnitSteps(rules, "B", ["B", "C", "E", "F"], []) == ["B", "C", "E", "F"];
    assert UnitSteps(rules, "B", ["A", "B", "C", "E"], ["A"]) == ["B", "C", "E", "F"];
    assert UnitSteps(rules, "B", ["F", "A", "B"], ["F", "A"]) == ["B", "C", "E", "F"];
    assert UnitSteps(rules, "B", ["E", "F", "A"], ["E", "F", "A"]) == ["B", "C", "E", "F"];
  }

  lemma CycleStartB(rules: Rules)
    requires "A" in rules.entries && rules.entries["A"] == ["F", "A", "B"]
    requires "B" in rules.entries && rules.entries["B"] == ["E", "F", "A"]
    requires "C" in rules.entries && rules.entries["C"] == ["B", "C", "E"]
    requires "D" in rules.entries && rules.entries["D"] == ["E", "A", "B"]
    requires "E" in rules.entries && rules.entries["E"] == ["E", "F", "A", "B"]
    requires "F" in rules.entries && rules.entries["F"] == ["B", "C", "E"]
    ensures IsCycleSecond(RenamingPass(rules, CycleNonTerminals, ["B", "C", "D", "E", "F"]).rules)
    ensures RenamingPass(rules, CycleNonTerminals, ["B", "C", "D", "E", "F"]).changed
  {
    CycleStartBUnits(rules);
    assert "E" in ["E", "F", "A"];
    var next := Dict(rules.keys, rules.entries["B" := ["B", "C", "E", "F"]]);
    CycleStartC(next);
  }

  lemma CycleStartCUnits(rules: Rules)
    requires "B" in rules.entries && rules.entries["B"] == ["B", "C", "E", "F"]
    requires "C" in rules.entries && rules.entries["C"] == ["B", "C", "E"]
    requires "E" in rules.entries && rules.entries["E"] == ["E", "F", "A", "B"]
    ensures UnitsOf(rules, CycleNonTerminals, "C") == ["B", "C", "E"]
    ensures UnitSteps(rules, "C", ["B", "C", "E"], ["B", "C", "E"]) == ["F", "A", "B"]
  {
    KeepInAll(["B", "C", "E"], Members(CycleNonTerminals));
    CycleStep8(rules);
    CycleStep9(rules);
    CycleStep10(rules);
    assert UnitSteps(rules, "C", ["F", "A", "B"], []) == ["F", "A", "B"];
    assert UnitSteps(rules, "C", ["E", "F"], ["E"]) == ["F", "A", "B"];
    assert UnitSteps(rules, "C", ["C", "E", "F"], ["C", "E"]) == ["F", "A", "B"];
    assert UnitSteps(rules, "C", ["B", "C", "E"], ["B", "C", "E"]) == ["F", "A", "B"];
  }

  lemma CycleStartC(rules: Rules)
    requires "A" in rules.entries && rules.entries["A"] == ["F", "A", "B"]
    requires "B" in rules.entries && rules.entries["B"] == ["B", "C", "E", "F"]
    requires "C" in rules.entries && rules.entries["C"] == ["B", "C", "E"]
    requires "D" in rules.entries && rules.entries["D"] == ["E", "A", "B"]
    requires "E" in rules.entries && rules.entries["E"] == ["E", "F", "A", "B"]
    requires "F" in rules.entries && rules.entries["F"] == ["B", "C", "E"]
    ensures IsCycleSecond(RenamingPass(rules, CycleNonTerminals, ["C", "D", "E", "F"]).rules)
    ensures RenamingPass(rules, CycleNonTerminals, ["C", "D", "E", "F"]).changed
  {
    CycleStartCUnits(rules);
    assert "B" in ["B", "C", "E"];
    var next := Dict(rules.keys, rules.entries["C" := ["F", "A", "B"]]);
    CycleStartD(next);
  }

  lemma CycleStartDUnits(rules: Rules)
    requires "A" in rules.entries && rules.entries["A"] == ["F", "A", "B"]
    requires "B" in rules.entries && rules.entries["B"] == ["B", "C", "E", "F"]
    requires "D" in rules.entries && rules.entries["D"] == ["E", "A", "B"]
    requires "E" in rules.entries && rules.entries["E"] == ["E", "F", "A", "B"]
    ensures UnitsOf(rules, CycleNonTerminals, "D") == ["E", "A", "B"]
    ensures UnitSteps(rules, "D", ["E", "A", "B"], ["E", "A", "B"]) == ["F", "C", "E"]
  {
    KeepInAll(["E", "A", "B"], Members(CycleNonTerminals));
    CycleStep11(rules);
    CycleStep12(rules);
    CycleStep13(rules);
    assert UnitSteps(rules, "D", ["F", "C", "E"], []) == ["F", "C", "E"];
    assert UnitSteps(rules, "D", ["B", "F"], ["B"]) == ["F", "C", "E"];
    assert UnitSteps(rules, "D", ["A", "B", "F"], ["A", "B"]) == ["F", "C", "E"];
    assert UnitSteps(rules, "D", ["E", "A", "B"], ["E", "A", "B"]) == ["F", "C", "E"];
  }

  lemma CycleStartD(rules: Rules)
    requires "A" in rules.entries && rules.entries["A"] == ["F", "A", "B"]
    requires "B" in rules.entries && rules.entries["B"] == ["B", "C", "E", "F"]
    requires "C" in rules.entries && rules.entries["C"] == ["F", "A", "B"]
    requires "D" in rules.entries && rules.entries["D"] == ["E", "A", "B"]
    requires "E" in rules.entries && rules.entries["E"] == ["E", "F", "A", "B"]
    requires "F" in rules.entries && rules.entries["F"] == ["B", "C", "E"]
    ensures IsCycleSecond(RenamingPass(rules, CycleNonTerminals, ["D", "E", "F"]).rules)
    ensures RenamingPass(rules, CycleNonTerminals, ["D", "E", "F"]).changed
  {
    CycleStartDUnits(rules);
    assert "E" in ["E", "A", "B"];
    var next := Dict(rules.keys, rules.entries["D" := ["F", "C", "E"]]);
    CycleStartE(next);
  }

  lemma CycleStartEUnits(rules: Rules)
    requires "A" in rules.entries && rules.entries["A"] == ["F", "A", "B"]
    requires "B" in rules.entries && rules.entries["B"] == ["B", "C", "E", "F"]
    requires "E" in rules.entries && rules.entries["E"] == ["E", "F", "A", "B"]
    requires "F" in rules.entries && rules.entries["F"] == ["B", "C", "E"]
    ensures UnitsOf(rules, CycleNonTerminals, "E") == ["E", "F", "A", "B"]
    ensures UnitSteps(rules, "E", ["E", "F", "A", "B"], ["E", "F", "A", "B"]) == ["C", "E", "F"]
  {
    KeepInAll(["E", "F", "A", "B"], Members(CycleNonTerminals));
    CycleStep14(rules);
    CycleStep15(rules);
    CycleStep16(rules);
    CycleStep17(rules);
    assert UnitSteps(rules, "E", ["C", "E", "F"], []) == ["C", "E", "F"];
    assert UnitSteps(rules, "E", ["B", "C", "E", "F"], ["B"]) == ["C", "E", "F"];
    assert UnitSteps(rules, "E", ["A", "B", "C", "E"], ["A", "B"]) == ["C", "E", "F"];
    assert UnitSteps(rules, "E", ["F", "A", "B"], ["F", "A", "B"]) == ["C", "E", "F"];
    assert UnitSteps(rules, "E", ["E", "F", "A", "B"], ["E", "F", "A", "B"]) == ["C", "E", "F"];
  }

  lemma CycleStartE(rules: Rules)
    requires "A" in rules.entries && rules.entries["A"] == ["F", "A", "B"]
    requires "B" in rules.entries && rules.entries["B"] == ["B", "C", "E", "F"]
    requires "C" in rules.entries && rules.entries["C"] == ["F", "A", "B"]
    requires "D" in rules.entries && rules.entries["D"] == ["F", "C", "E"]
    requires "E" in rules.entries && rules.entries["E"] == ["E", "F", "A", "B"]
    requires "F" in rules.entries && rules.entries["F"] == ["B", "C", "E"]
    ensures IsCycleSecond(RenamingPass(rules, CycleNonTerminals, ["E", "F"]).rules)
    ensures RenamingPass(rules, CycleNonTerminals, ["E", "F"]).changed
  {
    CycleStartEUnits(rules);
    assert "E" in ["E", "F", "A", "B"];
    var next := Dict(rules.keys, rules.entries["E" := ["C", "E", "F"]]);
    CycleStartF(next);
  }

  lemma CycleStartFUnits(rules: Rules)
    requires "B" in rules.entries && rules.entries["B"] == ["B", "C", "E", "F"]
    requires "C" in rules.entries && rules.entries["C"] == ["F", "A", "B"]
    requires "E" in rules.entries && rules.entries["E"] == ["C", "E", "F"]
    requires "F" in rules.entries && rules.entries["F"] == ["B", "C", "E"]
    ensures UnitsOf(rules, CycleNonTerminals, "F") == ["B", "C", "E"]
    ensures UnitSteps(rules, "F", ["B", "C", "E"], ["B", "C", "E"]) == ["F", "A", "B", "C"]
  {
    KeepInAll(["B", "C", "E"], Members(CycleNonTerminals));
    CycleStep18(rules);
    CycleStep19(rules);
    CycleStep20(rules);
    assert UnitSteps(rules, "F", ["F", "A", "B", "C"], []) == ["F", "A", "B", "C"];
    assert UnitSteps(rules, "F", ["E", "F", "A", "B"], ["E"]) == ["F", "A", "B", "C"];
    assert UnitSteps(rules, "F", ["C", "E", "F"], ["C", "E"]) == ["F", "A", "B", "C"];
    assert UnitSteps(rules, "F", ["B", "C", "E"], ["B", "C", "E"]) == ["F", "A", "B", "C"];
  }

  lemma CycleStartF(rules: Rules)
    requires "A" in rules.entries && rules.entries["A"] == ["F", "A", "B"]
    requires "B" in rules.entries && rules.entries["B"] == ["B", "C", "E", "F"]
    requires "C" in rules.entries && rules.entries["C"] == ["F", "A", "B"]
    requires "D" in rules.entries && rules.entries["D"] == ["F", "C", "E"]
    requires "E" in rules.entries && rules.entries["E"] == ["C", "E", "F"]
    requires "F" in rules.entries && rules.entries["F"] == ["B", "C", "E"]
    ensures IsCycleSecond(RenamingPass(rules, CycleNonTerminals, ["F"]).rules)
    ensures RenamingPass(rules, CycleNonTerminals, ["F"]).changed
  {
    CycleStartFUnits(rules);
    assert "B" in ["B", "C", "E"];
    var next := Dict(rules.keys, rules.entries["F" := ["F", "A", "B", "C"]]);
    assert RenamingPass(next, CycleNonTerminals, []) == Sweep(next, false);
  }

  lemma CycleSecondAUnits(rules: Rules)
    requires "A" in rules.entries && rules.entries["A"] == ["F", "A", "B"]
    requires "B" in rules.entries && rules.entries["B"] == ["B", "C", "E", "F"]
    requires "F" in rules.entries && rules.entries["F"] == ["F", "A", "B", "C"]
    ensures UnitsOf(rules, CycleNonTerminals, "A") == ["F", "A", "B"]
    ensures UnitSteps(rules, "A", ["F", "A", "B"], ["F", "A", "B"]) == ["C", "E", "F"]
  {
    KeepInAll(["F", "A", "B"], Members(CycleNonTerminals));
    CycleStep21(rules);
    CycleStep22(rules);
    CycleStep23(rules);
    assert UnitSteps(rules, "A", ["C", "E", "F"], []) == ["C", "E", "F"];
    assert UnitSteps(rules, "A", ["B", "C"], ["B"]) == ["C", "E", "F"];
    assert UnitSteps(rules, "A", ["A", "B", "C"], ["A", "B"]) == ["C", "E", "F"];
    assert UnitSteps(rules, "A", ["F", "A", "B"], ["F", "A", "B"]) == ["C", "E", "F"];
  }

  /** One pass over `IsCycleSecond` gives `IsCycleThird` and sets `changes`. */
  lemma CycleSecondA(rules: Rules)
    requires IsCycleSecond(rules)
    ensures IsCycleThird(RenamingPass(rules, CycleNonTerminals, ["A", "B", "C", "D", "E", "F"]).rules)
    ensures RenamingPass(rules, CycleNonTerminals, ["A", "B", "C", "D", "E", "F"]).changed
  {
    CycleSecondAUnits(rules);
    assert "F" in ["F", "A", "B"];
    var next := Dict(rules.keys, rules.entries["A" := ["C", "E", "F"]]);
    CycleSecondB(next);
  }

  lemma CycleSecondBUnits(rules: Rules)
    requires "B" in rules.entries && rules.entries["B"] == ["B", "C", "E", "F"]
    requires "C" in rules.entries && rules.entries["C"] == ["F", "A", "B"]
    requires "E" in rules.entries && rules.entries["E"] == ["C", "E", "F"]
    requires "F" in rules.entries && rules.entries["F"] == ["F", "A", "B", "C"]
    ensures UnitsOf(rules, CycleNonTerminals, "B") == ["B", "C", "E", "F"]
    ensures UnitSteps(rules, "B", ["B", "C", "E", "F"], ["B", "C", "E", "F"]) == ["A", "B", "C"]
  {
    KeepInAll(["B", "C", "E", "F"], Members(CycleNonTerminals));
    CycleStep24(rules);
    CycleStep25(rules);
    CycleStep26(rules);
    CycleStep27(rules);
    assert UnitSteps(rules, "B", ["A", "B", "C"], []) == ["A", "B", "C"];
    assert UnitSteps(rules, "B", ["F", "A", "B", "C"], ["F"]) == ["A", "B", "C"];
    assert UnitSteps(rules, "B", ["E", "F", "A", "B"], ["E", "F"]) == ["A", "B", "C"];
    assert UnitSteps(rules, "B", ["C", "E", "F"], ["C", "E", "F"]) == ["A", "B", "C"];
    assert UnitSteps(rules, "B", ["B", "C", "E", "F"], ["B", "C", "E", "F"]) == ["A", "B", "C"];
  }

  lemma CycleSecondB(rules: Rules)
    requires "A" in rules.entries && rules.entries["A"] == ["C", "E", "F"]
    requires "B" in rules.entries && rules.entries["B"] == ["B", "C", "E", "F"]
    requires "C" in rules.entries && rules.entries["C"] == ["F", "A", "B"]
    requires "D" in rules.entries && rules.entries["D"] == ["F", "C", "E"]
    requires "E" in rules.entries && rules.entries["E"] == ["C", "E", "F"]
    requires "F" in rules.entries && rules.entries["F"] == ["F", "A", "B", "C"]
    ensures IsCycleThird(RenamingPass(rules, CycleNonTerminals, ["B", "C", "D", "E", "F"]).rules)
    ensures RenamingPass(rules, CycleNonTerminals, ["B", "C", "D", "E", "F"]).changed
  {
    CycleSecondBUnits(rules);
    assert "B" in ["B", "C", "E", "F"];
    var next := Dict(rules.keys, rules.entries["B" := ["A", "B", "C"]]);
    CycleSecondC(next);
  }

  lemma CycleSecondCUnits(rules: Rules)
    requires "A" in rules.entries && rules.entries["A"] == ["C", "E", "F"]
    requires "B" in rules.entries && rules.entries["B"] == ["A", "B", "C"]
    requires "C" in rules.entries && rules.entries["C"] == ["F", "A", "B"]
    requires "F" in rules.entries && rules.entries["F"] == ["F", "A", "B", "C"]
    ensures UnitsOf(rules, CycleNonTerminals, "C") == ["F", "A", "B"]
    ensures UnitSteps(rules, "C", ["F", "A", "B"], ["F", "A", "B"]) == ["C", "E", "F", "A"]
  {
    KeepInAll(["F", "A", "B"], Members(CycleNonTerminals));
    CycleStep28(rules);
    CycleStep29(rules);
    CycleStep30(rules);
    assert UnitSteps(rules, "C", ["C", "E", "F", "A"], []) == ["C", "E", "F", "A"];
    assert UnitSteps(rules, "C", ["B", "C", "E", "F"], ["B"]) == ["C", "E", "F", "A"];
    assert UnitSteps(rules, "C", ["A", "B", "C"], ["A", "B"]) == ["C", "E", "F", "A"];
    assert UnitSteps(rules, "C", ["F", "A", "B"], ["F", "A", "B"]) == ["C", "E", "F", "A"];
  }

  lemma CycleSecondC(rules: Rules)
    requires "A" in rules.entries && rules.entries["A"] == ["C", "E", "F"]
    requires "B" in rules.entries && rules.entries["B"] == ["A", "B", "C"]
    requires "C" in rules.entries && rules.entries["C"] == ["F", "A", "B"]
    requires "D" in rules.entries && rules.entries["D"] == ["F", "C", "E"]
    requires "E" in rules.entries && rules.entries["E"] == ["C", "E", "F"]
    requires "F" in rules.entries && rules.entries["F"] == ["F", "A", "B", "C"]
    ensures IsCycleThird(RenamingPass(rules, CycleNonTerminals, ["C", "D", "E", "F"]).rules)
    ensures RenamingPass(rules, CycleNonTerminals, ["C", "D", "E", "F"]).changed
  {
    CycleSecondCUnits(rules);
    assert "F" in ["F", "A", "B"];
    var next := Dict(rules.keys, rules.entries["C" := ["C", "E", "F", "A"]]);
    CycleSecondD(next);
  }

  lemma CycleSecondDUnits(rules: Rules)
    requires "C" in rules.entries && rules.entries["C"] == ["C", "E", "F", "A"]
    requires "D" in rules.entries && rules.entries["D"] == ["F", "C", "E"]
    requires "E" in rules.entries && rules.entries["E"] == ["C", "E", "F"]
    requires "F" in rules.entries && rules.entries["F"] == ["F", "A", "B", "C"]
    ensures UnitsOf(rules, CycleNonTerminals, "D") == ["F", "C", "E"]
    ensures UnitSteps(rules, "D", ["F", "C", "E"], ["F", "C", "E"]) == ["A", "B", "F", "C"]
  {
    KeepInAll(["F", "C", "E"], Members(CycleNonTerminals));
    CycleStep31(rules);
    CycleStep32(rules);
    CycleStep33(rules);
    assert UnitSteps(rules, "D", ["A", "B", "F", "C"], []) == ["A", "B", "F", "C"];
    assert UnitSteps(rules, "D", ["E", "A", "B", "F"], ["E"]) == ["A", "B", "F", "C"];
    assert UnitSteps(rules, "D", ["C", "E", "A", "B"], ["C", "E"]) == ["A", "B", "F", "C"];
    assert UnitSteps(rules, "D", ["F", "C", "E"], ["F", "C", "E"]) == ["A", "B", "F", "C"];
  }

  lemma CycleSecondD(rules: Rules)
    requires "A" in rules.entries && rules.entries["A"] == ["C", "E", "F"]
    requires "B" in rules.entries && rules.entries["B"] == ["A", "B", "C"]
    requires "C" in rules.entries && rules.entries["C"] == ["C", "E", "F", "A"]
    requires "D" in rules.entries && rules.entries["D"] == ["F", "C", "E"]
    requires "E" in rules.entries && rules.entries["E"] == ["C", "E", "F"]
    requires "F" in rules.entries && rules.entries["F"] == ["F", "A", "B", "C"]
    ensures IsCycleThird(RenamingPass(rules, CycleNonTerminals, ["D", "E", "F"]).rules)
    ensures RenamingPass(rules, CycleNonTerminals, ["D", "E", "F"]).changed
  {
    CycleSecondDUnits(rules);
    assert "F" in ["F", "C", "E"];
    var next := Dict(rules.keys, rules.entries["D" := ["A", "B", "F", "C"]]);
    CycleSecondE(next);
  }

  lemma CycleSecondEUnits(rules: Rules)
    requires "C" in rules.entries && rules.entries["C"] == ["C", "E", "F", "A"]
    requires "E" in rules.entries && rules.entries["E"] == ["C", "E", "F"]
    requires "F" in rules.entries && rules.entries["F"] == ["F", "A", "B", "C"]
    ensures UnitsOf(rules, CycleNonTerminals, "E") == ["C", "E", "F"]
    ensures UnitSteps(rules, "E", ["C", "E", "F"], ["C", "E", "F"]) == ["A", "B", "C"]
  {
    KeepInAll(["C", "E", "F"], Members(CycleNonTerminals));
    CycleStep34(rules);
    CycleStep35(rules);
    CycleStep36(rules);
    assert UnitSteps(rules, "E", ["A", "B", "C"], []) == ["A", "B", "C"];
    assert UnitSteps(rules, "E", ["F", "A"], ["F"]) == ["A", "B", "C"];
    assert UnitSteps(rules, "E", ["E", "F", "A"], ["E", "F"]) == ["A", "B", "C"];
    assert UnitSteps(rules, "E", ["C", "E", "F"], ["C", "E", "F"]) == ["A", "B", "C"];
  }

  lemma CycleSecondE(rules: Rules)
    requires "A" in rules.entries && rules.entries["A"] == ["C", "E", "F"]
    requires "B" in rules.entries && rules.entries["B"] == ["A", "B", "C"]
    requires "C" in rules.entries && rules.entries["C"] == ["C", "E", "F", "A"]
    requires "D" in rules.entries && rules.entries["D"] == ["A", "B", "F", "C"]
    requires "E" in rules.entries && rules.entries["E"] == ["C", "E", "F"]
    requires "F" in rules.entries && rules.entries["F"] == ["F", "A", "B", "C"]
    ensures IsCycleThird(RenamingPass(rules, CycleNonTerminals, ["E", "F"]).rules)
    ensures RenamingPass(rules, CycleNonTerminals, ["E", "F"]).changed
  {
    CycleSecondEUnits(rules);
    assert "C" in ["C", "E", "F"];
    var next := Dict(rules.keys, rules.entries["E" := ["A", "B", "C"]]);
    CycleSecondF(next);
  }

  lemma CycleSecondFUnits(rules: Rules)
    requires "A" in rules.entries && rules.entries["A"] == ["C", "E", "F"]
    requires "B" in rules.entries && rules.entries["B"] == ["A", "B", "C"]
    requires "C" in rules.entries && rules.entries["C"] == ["C", "E", "F", "A"]
    requires "F" in rules.entries && rules.entries["F"] == ["F", "A", "B", "C"]
    ensures UnitsOf(rules, CycleNonTerminals, "F") == ["F", "A", "B", "C"]
    ensures UnitSteps(rules, "F", ["F", "A", "B", "C"], ["F", "A", "B", "C"]) == ["E", "F", "A"]
  {
    KeepInAll(["F", "A", "B", "C"], Members(CycleNonTerminals));
    CycleStep37(rules);
    CycleStep38(rules);
    CycleStep39(rules);
    CycleStep40(rules);
    assert UnitSteps(rules, "F", ["E", "F", "A"], []) == ["E", "F", "A"];
    assert UnitSteps(rules, "F", ["C", "E", "F", "A"], ["C"]) == ["E", "F", "A"];
    assert UnitSteps(rules, "F", ["B", "C", "E", "F"], ["B", "C"]) == ["E", "F", "A"];
    assert UnitSteps(rules, "F", ["A", "B", "C"], ["A", "B", "C"]) == ["E", "F", "A"];
    assert UnitSteps(rules, "F", ["F", "A", "B", "C"], ["F", "A", "B", "C"]) == ["E", "F", "A"];
  }

  lemma CycleSecondF(rules: Rules)
    requires "A" in rules.entries && rules.entries["A"] == ["C", "E", "F"]
    requires "B" in rules.entries && rules.entries["B"] == ["A", "B", "C"]
    requires "C" in rules.entries && rules.entries["C"] == ["C", "E", "F", "A"]
    requires "D" in rules.entries && rules.entries["D"] == ["A", "B", "F", "C"]
    requires "E" in rules.entries && rules.entries["E"] == ["A", "B", "C"]
    requires "F" in rules.entries && rules.entries["F"] == ["F", "A", "B", "C"]
    ensures IsCycleThird(RenamingPass(rules, CycleNonTerminals, ["F"]).rules)
    ensures RenamingPass(rules, CycleNonTerminals, ["F"]).changed
  {
    CycleSecondFUnits(rules);
    assert "F" in ["F", "A", "B", "C"];
    var next := Dict(rules.keys, rules.entries["F" := ["E", "F", "A"]]);
    assert RenamingPass(next, CycleNonTerminals, []) == Sweep(next, false);
  }

  lemma CycleThirdAUnits(rules: Rules)
    requires "A" in rules.entries && rules.entries["A"] == ["C", "E", "F"]
    requires "C" in rules.entries && rules.entries["C"] == ["C", "E", "F", "A"]
    requires "E" in rules.entries && rules.entries["E"] == ["A", "B", "C"]
    requires "F" in rules.entries && rules.entries["F"] == ["E", "F", "A"]
    ensures UnitsOf(rules, CycleNonTerminals, "A") == ["C", "E", "F"]
    ensures UnitSteps(rules, "A", ["C", "E", "F"], ["C", "E", "F"]) == ["A", "B", "C", "E"]
  {
    KeepInAll(["C", "E", "F"], Members(CycleNonTerminals));
    CycleStep41(rules);
    CycleStep42(rules);
    CycleStep43(rules);
    assert UnitSteps(rules, "A", ["A", "B", "C", "E"], []) == ["A", "B", "C", "E"];
    assert UnitSteps(rules, "A", ["F", "A", "B", "C"], ["F"]) == ["A", "B", "C", "E"];
    assert UnitSteps(rules, "A", ["E", "F", "A"], ["E", "F"]) == ["A", "B", "C", "E"];
    assert UnitSteps(rules, "A", ["C", "E", "F"], ["C", "E", "F"]) == ["A", "B", "C", "E"];
  }

  /** One pass over `IsCycleThird` gives `IsCycleStart` and sets `changes`. */
  lemma CycleThirdA(rules: Rules)
    requires IsCycleThird(rules)
    ensures IsCycleStart(RenamingPass(rules, CycleNonTerminals, ["A", "B", "C", "D", "E", "F"]).rules)
    ensures RenamingPass(rules, CycleNonTerminals, ["A", "B", "C", "D", "E", "F"]).changed
  {
    CycleThirdAUnits(rules);
    assert "C" in ["C", "E", "F"];
    var next := Dict(rules.keys, rules.entries["A" := ["A", "B", "C", "E"]]);
    CycleThirdB(next);
  }

  lemma CycleThirdBUnits(rules: Rules)
    requires "A" in rules.entries && rules.entries["A"] == ["A", "B", "C", "E"]
    requires "B" in rules.entries && rules.entries["B"] == ["A", "B", "C"]
    requires "C" in rules.entries && rules.entries["C"] == ["C", "E", "F", "A"]
    ensures UnitsOf(rules, CycleNonTerminals, "B") == ["A", "B", "C"]
    ensures UnitSteps(rules, "B", ["A", "B", "C"], ["A", "B", "C"]) == ["E", "F", "A"]
  {
    KeepInAll(["A", "B", "C"], Members(CycleNonTerminals));
    CycleStep44(rules);
    CycleStep45(rules);
    CycleStep46(rules);
    assert UnitSteps(rules, "B", ["E", "F", "A"], []) == ["E", "F", "A"];
    assert UnitSteps(rules, "B", ["C", "E"], ["C"]) == ["E", "F", "A"];
    assert UnitSteps(rules, "B", ["B", "C", "E"], ["B", "C"]) == ["E", "F", "A"];
    assert UnitSteps(rules, "B", ["A", "B", "C"], ["A", "B", "C"]) == ["E", "F", "A"];
  }

  lemma CycleThirdB(rules: Rules)
    requires "A" in rules.entries && rules.entries["A"] == ["A", "B", "C", "E"]
    requires "B" in rules.entries && rules.entries["B"] == ["A", "B", "C"]
    requires "C" in rules.entries && rules.entries["C"] == ["C", "E", "F", "A"]
    requires "D" in rules.entries && rules.entries["D"] == ["A", "B", "F", "C"]
    requires "E" in rules.entries && rules.entries["E"] == ["A", "B", "C"]
    requires "F" in rules.entries && rules.entries["F"] == ["E", "F", "A"]
    ensures IsCycleStart(RenamingPass(rules, CycleNonTerminals, ["B", "C", "D", "E", "F"]).rules)
    ensures RenamingPass(rules, CycleNonTerminals, ["B", "C", "D", "E", "F"]).changed
  {
    CycleThirdBUnits(rules);
    assert "A" in ["A", "B", "C"];
    var next := Dict(rules.keys, rules.entries["B" := ["E", "F", "A"]]);
    CycleThirdC(next);
  }

  lemma CycleThirdCUnits(rules: Rules)
    requires "A" in rules.entries && rules.entries["A"] == ["A", "B", "C", "E"]
    requires "C" in rules.entries && rules.entries["C"] == ["C", "E", "F", "A"]
    requires "E" in rules.entries && rules.entries["E"] == ["A", "B", "C"]
    requires "F" in rules.entries && rules.entries["F"] == ["E", "F", "A"]
    ensures UnitsOf(rules, CycleNonTerminals, "C") == ["C", "E", "F", "A"]
    ensures UnitSteps(rules, "C", ["C", "E", "F", "A"], ["C", "E", "F", "A"]) == ["B", "C", "E"]
  {
    KeepInAll(["C", "E", "F", "A"], Members(CycleNonTerminals));
    CycleStep47(rules);
    CycleStep48(rules);
    CycleStep49(rules);
    CycleStep50(rules);
    assert UnitSteps(rules, "C", ["B", "C", "E"], []) == ["B", "C", "E"];
    assert UnitSteps(rules, "C", ["A", "B", "C", "E"], ["A"]) == ["B", "C", "E"];
    assert UnitSteps(rules, "C", ["F", "A", "B", "C"], ["F", "A"]) == ["B", "C", "E"];
    assert UnitSteps(rules, "C", ["E", "F", "A"], ["E", "F", "A"]) == ["B", "C", "E"];
    assert UnitSteps(rules, "C", ["C", "E", "F", "A"], ["C", "E", "F", "A"]) == ["B", "C", "E"];
  }

  lemma CycleThirdC(rules: Rules)
    requires "A" in rules.entries && rules.entries["A"] == ["A", "B", "C", "E"]
    requires "B" in rules.entries && rules.entries["B"] == ["E", "F", "A"]
    requires "C" in rules.entries && rules.entries["C"] == ["C", "E", "F", "A"]
    requires "D" in rules.entries && rules.entries["D"] == ["A", "B", "F", "C"]
    requires "E" in rules.entries && rules.entries["E"] == ["A", "B", "C"]
    requires "F" in rules.entries && rules.entries["F"] == ["E", "F", "A"]
    ensures IsCycleStart(RenamingPass(rules, CycleNonTerminals, ["C", "D", "E", "F"]).rules)
    ensures RenamingPass(rules, CycleNonTerminals, ["C", "D", "E", "F"]).changed
  {
    CycleThirdCUnits(rules);
    assert "C" in ["C", "E", "F", "A"];
    var next := Dict(rules.keys, rules.entries["C" := ["B", "C", "E"]]);
    CycleThirdD(next);
  }

  lemma CycleThirdDUnits(rules: Rules)
    requires "A" in rules.entries && rules.entries["A"] == ["A", "B", "C", "E"]
    requires "B" in rules.entries && rules.entries["B"] == ["E", "F", "A"]
    requires "C" in rules.entries && rules.entries["C"] == ["B", "C", "E"]
    requires "D" in rules.entries && rules.entries["D"] == ["A", "B", "F", "C"]
    requires "F" in rules.entries && rules.entries["F"] == ["E", "F", "A"]
    ensures UnitsOf(rules, CycleNonTerminals, "D") == ["A", "B", "F", "C"]
    ensures UnitSteps(rules, "D", ["A", "B", "F", "C"], ["A", "B", "F", "C"]) == ["E", "A", "B"]
  {
    KeepInAll(["A", "B", "F", "C"], Members(CycleNonTerminals));
    CycleStep51(rules);
    CycleStep52(rules);
    CycleStep53(rules);
    CycleStep54(rules);
    assert UnitSteps(rules, "D", ["E", "A", "B"], []) == ["E", "A", "B"];
    assert UnitSteps(rules, "D", ["C", "E", "A"], ["C"]) == ["E", "A", "B"];
    assert UnitSteps(rules, "D", ["F", "C", "E", "A"], ["F", "C"]) == ["E", "A", "B"];
    assert UnitSteps(rules, "D", ["B", "F", "C", "E"], ["B", "F", "C"]) == ["E", "A", "B"];
    assert UnitSteps(rules, "D", ["A", "B", "F", "C"], ["A", "B", "F", "C"]) == ["E", "A", "B"];
  }

  lemma CycleThirdD(rules: Rules)
    requires "A" in rules.entries && rules.entries["A"] == ["A", "B", "C", "E"]
    requires "B" in rules.entries && rules.entries["B"] == ["E", "F", "A"]
    requires "C" in rules.entries && rules.entries["C"] == ["B", "C", "E"]
    requires "D" in rules.entries && rules.entries["D"] == ["A", "B", "F", "C"]
    requires "E" in rules.entries && rules.entries["E"] == ["A", "B", "C"]
    requires "F" in rules.entries && rules.entries["F"] == ["E", "F", "A"]
    ensures IsCycleStart(RenamingPass(rules, CycleNonTerminals, ["D", "E", "F"]).rules)
    ensures RenamingPass(rules, CycleNonTerminals, ["D", "E", "F"]).changed
  {
    CycleThirdDUnits(rules);
    assert "A" in ["A", "B", "F", "C"];
    var next := Dict(rules.keys, rules.entries["D" := ["E", "A", "B"]]);
    CycleThirdE(next);
  }

  lemma CycleThirdEUnits(rules: Rules)
    requires "A" in rules.entries && rules.entries["A"] == ["A", "B", "C", "E"]
    requires "B" in rules.entries && rules.entries["B"] == ["E", "F", "A"]
    requires "C" in rules.entries && rules.entries["C"] == ["B", "C", "E"]
    requires "E" in rules.entries && rules.entries["E"] == ["A", "B", "C"]
    ensures UnitsOf(rules, CycleNonTerminals, "E") == ["A", "B", "C"]
    ensures UnitSteps(rules, "E", ["A", "B", "C"], ["A", "B", "C"]) == ["E", "F", "A", "B"]
  {
    KeepInAll(["A", "B", "C"], Members(CycleNonTerminals));
    CycleStep55(rules);
    CycleStep56(rules);
    CycleStep57(rules);
    assert UnitSteps(rules, "E", ["E", "F", "A", "B"], []) == ["E", "F", "A", "B"];
    assert UnitSteps(rules, "E", ["C", "E", "F", "A"], ["C"]) == ["E", "F", "A", "B"];
    assert UnitSteps(rules, "E", ["B", "C", "E"], ["B", "C"]) == ["E", "F", "A", "B"];
    assert UnitSteps(rules, "E", ["A", "B", "C"], ["A", "B", "C"]) == ["E", "F", "A", "B"];
  }

  lemma CycleThirdE(rules: Rules)
    requires "A" in rules.entries && rules.entries["A"] == ["A", "B", "C", "E"]
    requires "B" in rules.entries && rules.entries["B"] == ["E", "F", "A"]
    requires "C" in rules.entries && rules.entries["C"] == ["B", "C", "E"]
    requires "D" in rules.entries && rules.entries["D"] == ["E", "A", "B"]
    requires "E" in rules.entries && rules.entries["E"] == ["A", "B", "C"]
    requires "F" in rules.entries && rules.entries["F"] == ["E", "F", "A"]
    ensures IsCycleStart(RenamingPass(rules, CycleNonTerminals, ["E", "F"]).rules)
    ensures RenamingPass(rules, CycleNonTerminals, ["E", "F"]).changed
  {
    CycleThirdEUnits(rules);
    assert "A" in ["A", "B", "C"];
    var next := Dict(rules.keys, rules.entries["E" := ["E", "F", "A", "B"]]);
    CycleThirdF(next);
  }

  lemma CycleThirdFUnits(rules: Rules)
    requires "A" in rules.entries && rules.entries["A"] == ["A", "B", "C", "E"]
    requires "E" in rules.entries && rules.entries["E"] == ["E", "F", "A", "B"]
    requires "F" in rules.entries && rules.entries["F"] == ["E", "F", "A"]
    ensures UnitsOf(rules, CycleNonTerminals, "F") == ["E", "F", "A"]
    ensures UnitSteps(rules, "F", ["E", "F", "A"], ["E", "F", "A"]) == ["B", "C", "E"]
  {
    KeepInAll(["E", "F", "A"], Members(CycleNonTerminals));
    CycleStep58(rules);
    CycleStep59(rules);
    CycleStep60(rules);
    assert UnitSteps(rules, "F", ["B", "C", "E"], []) == ["B", "C", "E"];
    assert UnitSteps(rules, "F", ["A", "B"], ["A"]) == ["B", "C", "E"];
    assert UnitSteps(rules, "F", ["F", "A", "B"], ["F", "A"]) == ["B", "C", "E"];
    assert UnitSteps(rules, "F", ["E", "F", "A"], ["E", "F", "A"]) == ["B", "C", "E"];
  }

  lemma CycleThirdF(rules: Rules)
    requires "A" in rules.entries && rules.entries["A"] == ["A", "B", "C", "E"]
    requires "B" in rules.entries && rules.entries["B"] == ["E", "F", "A"]
    requires "C" in rules.entries && rules.entries["C"] == ["B", "C", "E"]
    requires "D" in rules.entries && rules.entries["D"] == ["E", "A", "B"]
    requires "E" in rules.entries && rules.entries["E"] == ["E", "F", "A", "B"]
    requires "F" in rules.entries && rules.entries["F"] == ["E", "F", "A"]
    ensures IsCycleStart(RenamingPass(rules, CycleNonTerminals, ["F"]).rules)
    ensures RenamingPass(rules, CycleNonTerminals, ["F"]).changed
  {
    CycleThirdFUnits(rules);
    assert "E" in ["E", "F", "A"];
    var next := Dict(rules.keys, rules.entries["F" := ["B", "C", "E"]]);
    assert RenamingPass(next, CycleNonTerminals, []) == Sweep(next, false);
  }

  /** `IsCycleStart` describes a grammar. */
  lemma CycleStartGrammar()
    ensures IsCycleStart(Dict(["A", "B", "C", "D", "E", "F"], map["A" := ["A", "B", "C", "E"], "B" := ["E", "F", "A"], "C" := ["B", "C", "E"], "D" := ["E", "A", "B"], "E" := ["E", "F", "A", "B"], "F" := ["B", "C", "E"]]))
  {
  }

  /** One of the three grammars of the cycle. */
  predicate InCycle(rules: Rules) {
    IsCycleStart(rules) || IsCycleSecond(rules) || IsCycleThird(rules)
  }

  /** A pass from a grammar of the cycle sets `changes` and stays in the cycle. */
  lemma CycleStays(rules: Rules)
    requires InCycle(rules)
    ensures InCycle(RenamingPass(rules, CycleNonTerminals, CycleNonTerminals).rules)
    ensures RenamingPass(rules, CycleNonTerminals, CycleNonTerminals).changed
  {
    if IsCycleStart(rules) {
      CycleStartA(rules);
    } else if IsCycleSecond(rules) {
      CycleSecondA(rules);
    } else {
      CycleThirdA(rules);
    }
  }

  lemma {:induction false} CyclePasses(rules: Rules, n: nat)
    requires IsCycleStart(rules)
    ensures InCycle(Passes(rules, CycleNonTerminals, n))
  {
    if n == 0 {
      assert Passes(rules, CycleNonTerminals, n) == rules;
    } else {
      CyclePasses(rules, n - 1);
      var r := Passes(rules, CycleNonTerminals, n - 1);
      CycleStays(r);
      assert Passes(rules, CycleNonTerminals, n) == RenamingPass(r, CycleNonTerminals, CycleNonTerminals).rules;
    }
  }

  /**
   * `while (changes)` never ends on this grammar: the pass after any number
   * of passes sets `changes` again.
   */
  lemma RenamingNeverSettles(rules: Rules, n: nat)
    requires IsCycleStart(rules)
    ensures RenamingPass(Passes(rules, CycleNonTerminals, n), CycleNonTerminals, CycleNonTerminals).changed
  {
    CyclePasses(rules, n);
    CycleStays(Passes(rules, CycleNonTerminals, n));
  }
}

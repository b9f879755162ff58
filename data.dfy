/** The reference tables of the quiz and the lookup and naming helpers that
    work directly on them (src/utils/data.js). */
module Data {
  import opened JsText

  datatype Option<T> = None | Some(value: T)

  /** A cation or an anion: the charged display symbol ("Fe2+", "SO4 2-"), the
      bare core ("Fe", "SO4"), the English name and the signed charge.
      `multiple` and `alwaysRoman` are false where the record leaves them out. */
  datatype Ion = Ion(symbol: string, core: string, name: string, charge: int,
                     poly: bool, multiple: bool, alwaysRoman: bool)

  /** A nonmetal element. */
  datatype Element = Element(symbol: string, name: string)

  /** A record of the acid or base table. `category` is the record's `type`. */
  datatype Solution = Solution(formula: string, name: string, category: string,
                               elements: seq<string>, state: string, multiple: bool)

  /** A record of the molecular-compound table; an absent `acidForm`, `acidState`,
      `baseForm` or `baseState` is the empty string, which JavaScript's `||`
      treats as absent too. */
  datatype Molecular = Molecular(formula: string, name: string, category: string,
                                 elements: seq<string>, state: string,
                                 acidForm: string, acidState: string,
                                 baseForm: string, baseState: string,
                                 description: string)

  /** One component of a formula. An absent `core` is the empty string; a count
      of 0 stands for an absent or zero count (JavaScript treats both as falsy
      and neither as greater than 1). */
  datatype Part = Part(symbol: string, core: string, count: nat, poly: bool)

  function C(symbol: string, core: string, name: string, charge: int, poly: bool): Ion {
    Ion(symbol, core, name, charge, poly, false, false)
  }

  /** A variable-valence cation: both `multiple` and `alwaysRoman` are set. */
  function V(symbol: string, core: string, name: string, charge: int): Ion {
    Ion(symbol, core, name, charge, false, true, true)
  }

  const Cations: seq<Ion> := [
    C("H+", "H", "hydrogen", 1, false),
    C("Na+", "Na", "sodium", 1, false),
    C("K+", "K", "potassium", 1, false),
    C("Mg2+", "Mg", "magnesium", 2, false),
    C("Ca2+", "Ca", "calcium", 2, false),
    C("Al3+", "Al", "aluminium", 3, false),
    C("NH4+", "NH4", "ammonium", 1, true),
    V("Fe2+", "Fe", "iron", 2),
    V("Fe3+", "Fe", "iron", 3),
    V("Cu+", "Cu", "copper", 1),
    V("Cu2+", "Cu", "copper", 2),
    V("Sn2+", "Sn", "tin", 2),
    V("Sn4+", "Sn", "tin", 4),
    V("Pb2+", "Pb", "lead", 2),
    V("Pb4+", "Pb", "lead", 4),
    C("Ag+", "Ag", "silver", 1, false),
    C("Zn2+", "Zn", "zinc", 2, false)
  ]

  const Anions: seq<Ion> := [
    C("F-", "F", "fluoride", -1, false),
    C("Cl-", "Cl", "chloride", -1, false),
    C("Br-", "Br", "bromide", -1, false),
    C("I-", "I", "iodide", -1, false),
    C("O2-", "O", "oxide", -2, false),
    C("S2-", "S", "sulfide", -2, false),
    C("N3-", "N", "nitride", -3, false),
    C("OH-", "OH", "hydroxide", -1, true),
    C("NO3-", "NO3", "nitrate", -1, true),
    C("NO2-", "NO2", "nitrite", -1, true),
    C("SO4 2-", "SO4", "sulfate", -2, true),
    C("SO3 2-", "SO3", "sulfite", -2, true),
    C("CO3 2-", "CO3", "carbonate", -2, true),
    C("HCO3-", "HCO3", "hydrogencarbonate", -1, true),
    C("PO4 3-", "PO4", "phosphate", -3, true),
    C("CN-", "CN", "cyanide", -1, true),
    C("CH3COO-", "CH3COO", "ethanoate", -1, true)
  ]

  function Acid(formula: string, name: string, category: string, anion: string): Solution {
    Solution(formula, name, category, ["H", anion], "aq", false)
  }

  const Acids: seq<Solution> := [
    Acid("HCl", "hydrochloric acid", "binary", "Cl"),
    Acid("HBr", "hydrobromic acid", "binary", "Br"),
    Acid("HI", "hydroiodic acid", "binary", "I"),
    Acid("HF", "hydrofluoric acid", "binary", "F"),
    Acid("H2S", "hydrosulfuric acid", "binary", "S"),
    Acid("HNO3", "nitric acid", "oxyacid", "NO3"),
    Acid("HNO2", "nitrous acid", "oxyacid", "NO2"),
    Acid("H2SO4", "sulfuric acid", "oxyacid", "SO4"),
    Acid("H2SO3", "sulfurous acid", "oxyacid", "SO3"),
    Acid("H3PO4", "phosphoric acid", "oxyacid", "PO4"),
    Acid("H3PO3", "phosphorous acid", "oxyacid", "PO3"),
    Acid("HClO4", "perchloric acid", "oxyacid", "ClO4"),
    Acid("HClO3", "chloric acid", "oxyacid", "ClO3"),
    Acid("HClO2", "chlorous acid", "oxyacid", "ClO2"),
    Acid("HClO", "hypochlorous acid", "oxyacid", "ClO"),
    Acid("H2CO3", "carbonic acid", "oxyacid", "CO3"),
    Acid("H2CrO4", "chromic acid", "oxyacid", "CrO4"),
    Acid("H2Cr2O7", "dichromic acid", "oxyacid", "Cr2O7")
  ]

  /** A gas that dissolves to an acid. */
  function GasAcid(formula: string, name: string, elements: seq<string>, acidForm: string): Molecular {
    Molecular(formula, name, "molecular", elements, "g", acidForm, "aq", "", "", "Covalent gas molecule")
  }

  const MolecularCompounds: seq<Molecular> := [
    GasAcid("HCl", "hydrogen chloride", ["H", "Cl"], "hydrochloric acid"),
    GasAcid("HBr", "hydrogen bromide", ["H", "Br"], "hydrobromic acid"),
    GasAcid("HI", "hydrogen iodide", ["H", "I"], "hydroiodic acid"),
    GasAcid("HF", "hydrogen fluoride", ["H", "F"], "hydrofluoric acid"),
    GasAcid("H2S", "hydrogen sulfide", ["H", "S"], "hydrosulfuric acid"),
    Molecular("NH3", "ammonia", "molecular", ["N", "H"], "g", "", "", "ammonium hydroxide", "aq",
              "Covalent gas molecule"),
    GasAcid("CO2", "carbon dioxide", ["C", "O"], "carbonic acid"),
    GasAcid("SO2", "sulfur dioxide", ["S", "O"], "sulfurous acid"),
    GasAcid("SO3", "sulfur trioxide", ["S", "O"], "sulfuric acid"),
    GasAcid("NO2", "nitrogen dioxide", ["N", "O"], "nitrous acid"),
    GasAcid("N2O3", "dinitrogen trioxide", ["N", "O"], "nitrous acid"),
    GasAcid("N2O5", "dinitrogen pentoxide", ["N", "O"], "nitric acid")
  ]

  function Hydroxide(formula: string, name: string, metal: string, multiple: bool): Solution {
    Solution(formula, name, "metal hydroxide", [metal, "OH"], "aq", multiple)
  }

  const Bases: seq<Solution> := [
    Hydroxide("NaOH", "sodium hydroxide", "Na", false),
    Hydroxide("KOH", "potassium hydroxide", "K", false),
    Hydroxide("Ca(OH)2", "calcium hydroxide", "Ca", false),
    Hydroxide("Mg(OH)2", "magnesium hydroxide", "Mg", false),
    Hydroxide("Al(OH)3", "aluminium hydroxide", "Al", false),
    Hydroxide("Fe(OH)2", "iron(II) hydroxide", "Fe", true),
    Hydroxide("Fe(OH)3", "iron(III) hydroxide", "Fe", true),
    Hydroxide("Cu(OH)2", "copper(II) hydroxide", "Cu", true),
    Solution("NH4OH", "ammonium hydroxide", "ammonia solution", ["NH4", "OH"], "aq", false)
  ]

  const Nonmetals: seq<Element> := [
    Element("H", "hydrogen"),
    Element("C", "carbon"),
    Element("N", "nitrogen"),
    Element("O", "oxygen"),
    Element("F", "fluorine"),
    Element("P", "phosphorus"),
    Element("S", "sulfur"),
    Element("Cl", "chlorine"),
    Element("Br", "bromine"),
    Element("I", "iodine")
  ]

  /** The Greek numeric prefixes, keyed by count. */
  const Prefixes: map<int, string> := map[
    1 := "mono", 2 := "di", 3 := "tri", 4 := "tetra", 5 := "penta",
    6 := "hexa", 7 := "hepta", 8 := "octa", 9 := "nona", 10 := "deca"
  ]

  /** The consonant stem of each listed element, used before "-ide" and "-ic acid". */
  const RootMap: map<string, string> := map[
    "H" := "hydr", "C" := "carb", "N" := "nitr", "O" := "ox", "F" := "fluor",
    "P" := "phosph", "S" := "sulf", "Cl" := "chlor", "Br" := "brom", "I" := "iod"
  ]

  const TransitionMetals: seq<string> := ["Fe", "Cu", "Sn", "Pb", "Cr", "Mn", "Co", "Ni", "Hg"]

  /* ---------------- Table invariants ---------------- */

  /** The invariants the rest of the core relies on: cations are positive,
      anions negative, a cation that always takes a Roman numeral has several
      charges, and every acid and base is aqueous. */
  lemma TableInvariants()
    ensures forall i :: 0 <= i < |Cations| ==> Cations[i].charge > 0
    ensures forall i :: 0 <= i < |Anions| ==> Anions[i].charge < 0
    ensures forall i :: 0 <= i < |Cations| && Cations[i].alwaysRoman ==> Cations[i].multiple
    ensures forall i :: 0 <= i < |Cations| && Cations[i].multiple ==> Cations[i].alwaysRoman
    ensures forall i :: 0 <= i < |Acids| ==> Acids[i].state == "aq"
    ensures forall i :: 0 <= i < |Bases| ==> Bases[i].state == "aq"
  {
  }

  /* ---------------- Lookups ---------------- */

  /** `s.find(p)`, as the index of the first element that satisfies `p`. */
  function IndexWhere<T>(s: seq<T>, p: T -> bool): (r: Option<nat>)
    ensures r.Some? ==> r.value < |s| && p(s[r.value])
    ensures r.Some? ==> forall j :: 0 <= j < r.value ==> !p(s[j])
    ensures r.None? <==> forall j :: 0 <= j < |s| ==> !p(s[j])
    decreases |s|
  {
    if s == [] then None
    else if p(s[0]) then Some(0)
    else match IndexWhere(s[1..], p)
      case None => None
      case Some(i) => Some(i + 1)
  }

  /** `elementRoot`: the table stem of a listed symbol, the lower-cased symbol otherwise. */
  function ElementRoot(sym: string): (r: string)
    ensures sym in RootMap ==> r == RootMap[sym]
    ensures sym !in RootMap ==> r == Lower(sym)
  {
    if sym in RootMap then RootMap[sym] else Lower(sym)
  }

  predicate IsTransitionMetal(sym: string) {
    sym in TransitionMetals
  }

  /** The text `aliasAccept` builds: each part's core (or, without one, its
      symbol) followed by its count when above 1, then all whitespace removed. */
  function AliasFormula(parts: seq<Part>): string {
    RemoveSpaces(JoinTokens(parts))
  }

  function JoinTokens(parts: seq<Part>): string
    decreases |parts|
  {
    if parts == [] then ""
    else
      var p := parts[0];
      (if p.core != "" then p.core else p.symbol)
      + (if p.count > 1 then NatToString(p.count) else "")
      + JoinTokens(parts[1..])
  }
  /** The tokens are joined part by part, in order. */
  lemma {:induction false} JoinTokensAppend(a: seq<Part>, b: seq<Part>)
    ensures JoinTokens(a + b) == JoinTokens(a) + JoinTokens(b)
    decreases |a|
  {
    if a == [] {
      assert a + b == b;
    } else {
      assert (a + b)[0] == a[0] && (a + b)[1..] == a[1..] + b;
      JoinTokensAppend(a[1..], b);
      var p := a[0];
      var head := (if p.core != "" then p.core else p.symbol) + (if p.count > 1 then NatToString(p.count) else "");
      Assoc(head, JoinTokens(a[1..]), JoinTokens(b));
    }
  }


  const AliasFormulas: set<string> := {"H2O", "NH3", "NO", "N2O"}

  /** `aliasAccept`: the hand-curated alternative names of four formulas. */
  function AliasAccept(primary: string, parts: seq<Part>): (r: seq<string>)
    ensures AliasFormula(parts) !in AliasFormulas <==> r == []
    ensures AliasFormula(parts) == "H2O" ==> r == ["water", "dihydrogen monoxide"]
    ensures AliasFormula(parts) == "NH3" ==> r == ["ammonia", "nitrogen trihydride"]
    ensures AliasFormula(parts) == "NO" ==> r == ["nitrogen monoxide"]
    ensures AliasFormula(parts) == "N2O" ==> r == ["dinitrogen monoxide"]
  {
    var f := AliasFormula(parts);
    (if f == "H2O" then ["water", "dihydrogen monoxide"] else [])
    + (if f == "NH3" then ["ammonia", "nitrogen trihydride"] else [])
    + (if f == "NO" then ["nitrogen monoxide"] else [])
    + (if f == "N2O" then ["dinitrogen monoxide"] else [])
  }

  /* ---------------- Acid and base naming ---------------- */

  /** `nameBinaryAcid`: "hydro" + stem + "ic acid". */
  function NameBinaryAcid(nonmetal: string): (r: string)
    ensures |r| == |ElementRoot(nonmetal)| + 12
    ensures StartsWith(r, "hydro") && EndsWith(r, "ic acid")
    ensures r[5..|r| - 7] == ElementRoot(nonmetal)
  {
    var r := "hydro" + ElementRoot(nonmetal) + "ic acid";
    assert r[..5] == "hydro" && r[5..|r| - 7] == ElementRoot(nonmetal) && r[|r| - 7..] == "ic acid";
    r
  }

  /** `nameOxyacid`: a trailing "ate" becomes "ic acid" (more oxygen) or a
      trailing "ite" becomes "ous acid" (less oxygen); any other name is
      returned as it is. */
  function NameOxyacid(polyatomic: string, hasMoreOxygen: bool): (r: string)
    ensures hasMoreOxygen && EndsWith(polyatomic, "ate") ==>
              EndsWith(r, "ic acid") && r[..|r| - 7] + "ate" == polyatomic
    ensures !hasMoreOxygen && EndsWith(polyatomic, "ite") ==>
              EndsWith(r, "ous acid") && r[..|r| - 8] + "ite" == polyatomic
    ensures (if hasMoreOxygen then !EndsWith(polyatomic, "ate") else !EndsWith(polyatomic, "ite")) ==>
              r == polyatomic
  {
    var n := |polyatomic|;
    if hasMoreOxygen then
      if EndsWith(polyatomic, "ate") then polyatomic[..n - 3] + "ic acid" else polyatomic
    else
      if EndsWith(polyatomic, "ite") then polyatomic[..n - 3] + "ous acid" else polyatomic
  }

  /** `nameBase`: the metal name followed by " hydroxide", whatever the count. */
  function NameBase(metal: string, hydroxideCount: int): (r: string)
    ensures StartsWith(r, metal) && r[|metal|..] == " hydroxide"
  {
    if hydroxideCount == 1 then metal + " hydroxide" else metal + " hydroxide"
  }

  /* ---------------- Lookups by formula ---------------- */

  /** Entry `i` is the first of `table` with this formula. */
  predicate FirstWithFormula(table: seq<Solution>, i: nat, formula: string) {
    i < |table| && table[i].formula == formula && forall j :: 0 <= j < i ==> table[j].formula != formula
  }

  predicate NoneWithFormula(table: seq<Solution>, formula: string) {
    forall j :: 0 <= j < |table| ==> table[j].formula != formula
  }

  /** Entry `i` is the first molecular compound with this formula. */
  predicate FirstMolecularWith(i: nat, formula: string) {
    i < |MolecularCompounds| && MolecularCompounds[i].formula == formula
    && forall j :: 0 <= j < i ==> MolecularCompounds[j].formula != formula
  }

  /** `getCompoundName`: an aqueous formula is looked up among the acids, then
      the bases; any other state only among the molecular compounds; the
      formula itself is the fallback. The lemmas below give the name found. */
  function GetCompoundName(formula: string, state: string): (r: string)
    ensures state == "aq" && NoneWithFormula(Acids, formula) && NoneWithFormula(Bases, formula) ==> r == formula
    ensures state != "aq" && (forall i :: 0 <= i < |MolecularCompounds| ==> MolecularCompounds[i].formula != formula) ==>
              r == formula
  {
    if state == "aq" then
      match FindByFormula(Acids, formula)
      case Some(i) => Acids[i].name
      case None =>
        match FindByFormula(Bases, formula)
        case Some(j) => Bases[j].name
        case None => formula
    else
      match FindMolecular(formula)
      case Some(k) => MolecularCompounds[k].name
      case None => formula
  }

  /** The lookup finds the first entry with the formula. */
  lemma FindByFormulaFirst(table: seq<Solution>, i: nat, formula: string)
    requires FirstWithFormula(table, i, formula)
    ensures FindByFormula(table, formula) == Some(i)
  {
    var r := FindByFormula(table, formula);
    if r.Some? && r.value != i {
      assert false;
    }
  }

  /** An aqueous formula listed among the acids is named after the first such acid. */
  lemma GetCompoundNameAcid(formula: string, i: nat)
    requires FirstWithFormula(Acids, i, formula)
    ensures GetCompoundName(formula, "aq") == Acids[i].name
  {
    FindByFormulaFirst(Acids, i, formula);
  }

  /** An aqueous formula that is no acid but is listed among the bases is
      named after the first such base. */
  lemma GetCompoundNameBase(formula: string, i: nat)
    requires NoneWithFormula(Acids, formula) && FirstWithFormula(Bases, i, formula)
    ensures GetCompoundName(formula, "aq") == Bases[i].name
  {
    FindByFormulaFirst(Bases, i, formula);
  }

  /** In any other state the formula is named after the first molecular
      compound with it. */
  lemma GetCompoundNameMolecular(formula: string, state: string, i: nat)
    requires state != "aq" && FirstMolecularWith(i, formula)
    ensures GetCompoundName(formula, state) == MolecularCompounds[i].name
  {
    var r := FindMolecular(formula);
    if r.Some? && r.value != i {
      assert false;
    }
  }

  /** `table.find(x => x.formula === formula)`, as an index. */
  function FindByFormula(table: seq<Solution>, formula: string): (r: Option<nat>)
    ensures r.Some? ==> FirstWithFormula(table, r.value, formula)
    ensures r.None? ==> NoneWithFormula(table, formula)
  {
    IndexWhere(table, (x: Solution) => x.formula == formula)
  }

  /** `molecularCompounds.find(m => m.formula === formula)`, as an index. */
  function FindMolecular(formula: string): (r: Option<nat>)
    ensures r.Some? ==> FirstMolecularWith(r.value, formula)
    ensures r.None? ==> forall i :: 0 <= i < |MolecularCompounds| ==> MolecularCompounds[i].formula != formula
  {
    IndexWhere(MolecularCompounds, (m: Molecular) => m.formula == formula)
  }

  /** One side of a `compareForms` result. */
  datatype Form = Form(formula: string, name: string, state: string, description: string)

  datatype Comparison = Comparison(molecular: Form, aqueous: Form)

  /** `compareForms`: the gaseous compound next to the solution it forms, or
      nothing (null) for a formula that is not a listed molecular compound. */
  function CompareForms(formula: string): (r: Option<Comparison>)
    ensures r.None? <==> forall i :: 0 <= i < |MolecularCompounds| ==> MolecularCompounds[i].formula != formula
    ensures forall i: nat :: FirstMolecularWith(i, formula) ==>
              var m := MolecularCompounds[i];
              && r.Some?
              && r.value.molecular == Form(m.formula, m.name, m.state, m.description)
              && r.value.aqueous.formula == formula
              && r.value.aqueous.name == (if m.acidForm != "" then m.acidForm else m.baseForm)
              && r.value.aqueous.state == (if m.acidState != "" then m.acidState else m.baseState)
              && (r.value.aqueous.description == "Acidic solution" <==> m.acidForm != "")
  {
    match FindMolecular(formula)
    case None => None
    case Some(i) =>
      var m := MolecularCompounds[i];
      Some(Comparison(
        Form(m.formula, m.name, m.state, m.description),
        Form(m.formula,
             if m.acidForm != "" then m.acidForm else m.baseForm,
             if m.acidState != "" then m.acidState else m.baseState,
             if m.acidForm != "" then "Acidic solution" else "Basic solution")))
  }

  /* ---------------- Compound type heuristic ---------------- */

  datatype CompoundType = AcidType | BaseType | IonicType | CovalentType

  /** The literal the source compares with for ammonia: "NH" followed by the
      three characters that the UTF-8 bytes of a subscript three become when
      read as Windows-1251 text, as they stand in the file. */
  const AmmoniaLiteral: string := "NH\U{0432}\U{201A}\U{0453}"

  /** The index of the first match of `[A-Z][a-z]?`, if any. */
  function FirstCapital(s: string): (r: Option<nat>)
    ensures r.Some? ==> r.value < |s| && IsUpper(s[r.value])
    ensures r.Some? ==> forall j :: 0 <= j < r.value ==> !IsUpper(s[j])
    ensures r.None? <==> forall j :: 0 <= j < |s| ==> !IsUpper(s[j])
  {
    IndexWhere(s, IsUpper)
  }

  /** `s.replace(/[A-Z][a-z]?/, '')`: the first capital and the lower-case
      letter right after it, if there is one, removed. */
  function RemoveFirstElement(s: string): string {
    match FirstCapital(s)
    case None => s
    case Some(i) =>
      var k := if i + 1 < |s| && IsLowerLetter(s[i + 1]) then 2 else 1;
      s[..i] + s[i + k..]
  }

  function CountCapitals(s: string): (n: nat)
    ensures n <= |s|
    decreases |s|
  {
    if s == [] then 0 else (if IsUpper(s[0]) then 1 else 0) + CountCapitals(s[1..])
  }

  /** `getCompoundType`: acid before base before ionic; what is left is covalent.
      The two regular-expression tests of the ionic branch amount to "at least
      two capital letters" or "one capital letter and more than two characters". */
  function GetCompoundType(formula: string, state: string): (r: CompoundType)
    ensures r == AcidType <==> state == "aq" && StartsWith(formula, "H")
    ensures r == BaseType <==>
              !(state == "aq" && StartsWith(formula, "H"))
              && (Contains(formula, "OH") || formula == AmmoniaLiteral)
    ensures r == IonicType <==>
              !(state == "aq" && StartsWith(formula, "H"))
              && !(Contains(formula, "OH") || formula == AmmoniaLiteral)
              && (CountCapitals(formula) >= 2 || (CountCapitals(formula) >= 1 && |formula| > 2))
  {
    if state == "aq" && StartsWith(formula, "H") then AcidType
    else if Contains(formula, "OH") || formula == AmmoniaLiteral then BaseType
    else
      var hasMetal := FirstCapital(formula).Some? && FirstCapital(RemoveFirstElement(formula)).Some?;
      var hasPolyatomic := FirstCapital(formula).Some? && |formula| > 2;
      HasMetalIsTwoCapitals(formula);
      NoCapitalsCount(formula);
      if hasMetal || hasPolyatomic then IonicType else CovalentType
  }

  /** One character counts 1 exactly when it is a capital letter. */
  lemma CountCapitalsChar(c: char)
    ensures CountCapitals([c]) == if IsUpper(c) then 1 else 0
  {
    assert [c][1..] == [];
  }

  lemma {:induction false} CountCapitalsAppend(a: string, b: string)
    ensures CountCapitals(a + b) == CountCapitals(a) + CountCapitals(b)
    decreases |a|
  {
    if a == [] {
      assert a + b == b;
    } else {
      assert (a + b)[0] == a[0] && (a + b)[1..] == a[1..] + b;
      CountCapitalsAppend(a[1..], b);
    }
  }

  lemma {:induction false} NoCapitalsCount(s: string)
    ensures (forall j :: 0 <= j < |s| ==> !IsUpper(s[j])) <==> CountCapitals(s) == 0
    decreases |s|
  {
    if s != [] {
      NoCapitalsCount(s[1..]);
      assert forall j :: 1 <= j < |s| ==> s[j] == s[1..][j - 1];
    }
  }

  /** Removing the first `[A-Z][a-z]?` match removes exactly one capital. */
  lemma RemoveFirstElementCount(s: string)
    requires FirstCapital(s).Some?
    ensures CountCapitals(RemoveFirstElement(s)) + 1 == CountCapitals(s)
  {
    var i := FirstCapital(s).value;
    var k := if i + 1 < |s| && IsLowerLetter(s[i + 1]) then 2 else 1;
    var a, m, b := s[..i], s[i..i + k], s[i + k..];
    assert s == a + m + b;
    assert RemoveFirstElement(s) == a + b;
    assert CountCapitals(m) == 1 by {
      if k == 2 {
        assert m == [s[i]] + [s[i + 1]];
        assert CountCapitals([s[i + 1]]) == 0;
      }
    }
    NoCapitalsCount(a);
    CountCapitalsAppend(a + m, b);
    CountCapitalsAppend(a, m);
    CountCapitalsAppend(a, b);
  }

  /** A capital is left behind after removing the first `[A-Z][a-z]?` match
      exactly when there were two. */
  lemma HasMetalIsTwoCapitals(s: string)
    ensures (FirstCapital(s).Some? && FirstCapital(RemoveFirstElement(s)).Some?) <==> CountCapitals(s) >= 2
  {
    NoCapitalsCount(s);
    if FirstCapital(s).Some? {
      RemoveFirstElementCount(s);
      NoCapitalsCount(RemoveFirstElement(s));
    }
  }
}

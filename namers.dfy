/** The two namers of src/utils/naming.js: ionic names from a cation and an
    anion (with the `gcd` reduction of the charges) and covalent names from
    two nonmetals and their counts. */
module Namers {
  import opened JsText
  import opened Data

  /* ================= Ionic naming ================= */

  /** `d` is a positive divisor of `n`. */
  predicate Divides(d: nat, n: nat) {
    d > 0 && n % d == 0
  }

  /** `gcd`: Euclid's algorithm, `gcd(a, 0) = a`. */
  function Gcd(a: nat, b: nat): (g: nat)
    ensures (a > 0 || b > 0) ==> Divides(g, a) && Divides(g, b)
    ensures a == 0 && b == 0 ==> g == 0
    decreases b
  {
    if b == 0 then a
    else
      var g := Gcd(b, a % b);
      DividesMod(g, a, b);
      g
  }

  /** A divisor of `b` and of `a % b` divides `a`. */
  lemma DividesMod(d: nat, a: nat, b: nat)
    requires b > 0 && Divides(d, b) && Divides(d, a % b)
    ensures Divides(d, a)
  {
    var q, x, y := a / b, b / d, (a % b) / d;
    assert b == d * x && a % b == d * y;
    assert a == b * q + a % b;
    calc {
      a;
      b * q + a % b;
      d * x * q + d * y;
      d * (x * q + y);
    }
    MultipleDivides(d, x * q + y);
  }

  /** Dividing a multiple of `d` by `d` is exact. */
  lemma MultipleDivides(d: nat, k: nat)
    requires d > 0
    ensures (d * k) % d == 0 && (d * k) / d == k
  {
    var m := d * k;
    assert m == d * k + 0;
    assert m / d == k && m % d == 0 by {
      var q, r := m / d, m % d;
      assert m == d * q + r && 0 <= r < d;
      assert d * (k - q) == r;
      if k - q >= 1 {
        assert false;
      } else if k - q <= -1 {
        assert false;
      }
    }
  }

  /** A common divisor of `a` and `b` divides `a % b`. */
  lemma DividesModRight(d: nat, a: nat, b: nat)
    requires b > 0 && Divides(d, a) && Divides(d, b)
    ensures Divides(d, a % b)
  {
    var x, y, q := a / d, b / d, a / b;
    assert a == d * x && b == d * y;
    assert a % b == a - b * q;
    assert b * q == d * (y * q);
    assert a % b == d * (x - y * q);
    MultipleDivides(d, x - y * q);
  }

  /** Every common divisor of `a` and `b` divides their `Gcd`. */
  lemma {:induction false} GcdGreatest(a: nat, b: nat, d: nat)
    requires Divides(d, a) && Divides(d, b)
    ensures Divides(d, Gcd(a, b))
    decreases b
  {
    if b > 0 {
      DividesModRight(d, a, b);
      GcdGreatest(b, a % b, d);
    }
  }

  /** A positive multiple of `d` is at least `d`. */
  lemma DivisorBound(d: nat, n: nat)
    requires Divides(d, n) && n > 0
    ensures d <= n
  {
    var k := n / d;
    assert n == d * k;
    if k == 0 {
      assert false;
    } else {
      assert d * k >= d * 1;
    }
  }

  /** Scaling a number and one of its divisors by `g` keeps the divisibility. */
  lemma ScaledDivides(g: nat, h: nat, n: nat)
    requires g > 0 && Divides(h, n)
    ensures Divides(g * h, g * n)
  {
    var v := n / h;
    assert n == h * v;
    assert g * n == (g * h) * v;
    MultipleDivides(g * h, v);
  }

  /** A factor that does not make `g` larger is 1. */
  lemma UnitFactor(g: nat, h: nat)
    requires g > 0 && h > 0 && g * h <= g
    ensures h == 1
  {
    if h > 1 {
      assert false;
    }
  }

  /** The subscripts `nameIonicFromParts` and `randomChallenge` compute: the
      cation count `|an|/g` and the anion count `|cat|/g`, with `g` the `Gcd` of
      the two magnitudes. They balance the charges and there is always at
      least one cation. */
  function Subscripts(catCharge: int, anCharge: int): (s: (nat, nat))
    requires anCharge != 0
    ensures s.0 > 0 && s.0 * Abs(catCharge) == s.1 * Abs(anCharge)
    ensures catCharge != 0 ==> s.1 > 0
  {
    var a, b := Abs(catCharge), Abs(anCharge);
    var g := Gcd(a, b);
    var x, y := b / g, a / g;
    assert a == g * y && b == g * x;
    assert x * a == x * (g * y) == (g * x) * y == b * y;
    (x, y)
  }

  /** The subscripts are in lowest terms. */
  lemma SubscriptsCoprime(catCharge: int, anCharge: int)
    requires anCharge != 0
    ensures Gcd(Subscripts(catCharge, anCharge).0, Subscripts(catCharge, anCharge).1) == 1
  {
    var a, b := Abs(catCharge), Abs(anCharge);
    var g := Gcd(a, b);
    var s := Subscripts(catCharge, anCharge);
    assert a == g * s.1 && b == g * s.0;
    var h := Gcd(s.0, s.1);
    ScaledDivides(g, h, s.1);
    ScaledDivides(g, h, s.0);
    GcdGreatest(a, b, g * h);
    DivisorBound(g * h, g);
    UnitFactor(g, h);
  }

  /** The oxidation number `nameIonicFromParts` passes to the Roman numeral:
      `aCount * |an| / cCount`, which always comes back to the cation's own
      charge magnitude. */
  function OxidationNumber(catCharge: int, anCharge: int): (ox: nat)
    requires anCharge != 0
    ensures ox == Abs(catCharge)
  {
    var (x, y) := Subscripts(catCharge, anCharge);
    var n := y * Abs(anCharge);
    assert n == x * Abs(catCharge);
    MultipleDivides(x, Abs(catCharge));
    n / x
  }

  /** When a cation's name carries a Roman numeral: it always takes one, or it
      is a transition metal with several charges. */
  predicate NeedsRoman(c: Ion) {
    c.alwaysRoman || (IsTransitionMetal(c.symbol) && c.multiple)
  }

  /** `transitionCationName`: the two guard clauses collapse to `NeedsRoman`. */
  function TransitionCationName(c: Ion, ox: nat, toRoman: nat -> string): (r: string)
    ensures NeedsRoman(c) ==> r == c.name + "(" + toRoman(ox) + ")"
    ensures !NeedsRoman(c) ==> r == c.name
  {
    if !IsTransitionMetal(c.symbol) && !c.alwaysRoman then c.name
    else if !c.multiple && !c.alwaysRoman then c.name
    else c.name + "(" + toRoman(ox) + ")"
  }

  /** `nameIonicFromParts`: the cation name (with the Roman numeral of its own
      charge when it needs one), a space and the anion name. */
  function NameIonic(cat: Ion, an: Ion, toRoman: nat -> string): (r: string)
    requires an.charge != 0
    ensures NeedsRoman(cat) ==> r == cat.name + "(" + toRoman(Abs(cat.charge)) + ") " + an.name
    ensures !NeedsRoman(cat) ==> r == cat.name + " " + an.name
  {
    TransitionCationName(cat, OxidationNumber(cat.charge, an.charge), toRoman) + " " + an.name
  }

  /** A name with a Roman numeral between the cation and the anion still
      starts with the cation and ends with a space and the anion. */
  lemma RomanNameEnds(cation: string, numeral: string, anion: string)
    ensures StartsWith(cation + "(" + numeral + ") " + anion, cation)
    ensures EndsWith(cation + "(" + numeral + ") " + anion, " " + anion)
  {
    var mid := "(" + numeral + ")";
    assert cation + "(" + numeral + ") " + anion == cation + (mid + " " + anion);
    assert cation + (mid + " " + anion) == (cation + mid) + (" " + anion);
    ConcatEnds(cation, mid + " " + anion);
    ConcatEnds(cation + mid, " " + anion);
  }

  /** An ionic name is the cation's name first and the anion's name last. */
  lemma NameIonicEnds(cat: Ion, an: Ion, toRoman: nat -> string)
    requires an.charge != 0
    ensures StartsWith(NameIonic(cat, an, toRoman), cat.name)
    ensures EndsWith(NameIonic(cat, an, toRoman), " " + an.name)
  {
    if NeedsRoman(cat) {
      RomanNameEnds(cat.name, toRoman(Abs(cat.charge)), an.name);
    } else {
      assert cat.name + " " + an.name == cat.name + (" " + an.name);
      ConcatEnds(cat.name, " " + an.name);
    }
  }

  /** `isTransitionMetal` is asked about the charged display symbol ("Fe2+"),
      which never matches the bare symbols of the list, so for every cation
      of the table only `alwaysRoman` decides the numeral. */
  lemma RomanIffAlwaysRoman()
    ensures forall i :: 0 <= i < |Cations| ==> !IsTransitionMetal(Cations[i].symbol)
    ensures forall i :: 0 <= i < |Cations| ==> (NeedsRoman(Cations[i]) <==> Cations[i].alwaysRoman)
  {
    forall i | 0 <= i < |Cations|
      ensures !IsTransitionMetal(Cations[i].symbol)
    {
      var sym := Cations[i].symbol;
      assert EndsWith(sym, "+");
      forall j | 0 <= j < |TransitionMetals|
        ensures sym != TransitionMetals[j]
      {
        assert !EndsWith(TransitionMetals[j], "+");
      }
    }
  }

  /* ================= Covalent naming ================= */

  /** `prefixes[n] || \`${n}-\``: the Greek prefix of a count from 1 to 10,
      the count's digits and a hyphen for any other count. */
  function PrefixText(n: int): (r: string)
    ensures 1 <= n <= 10 ==> r == Prefixes[n]
    ensures !(1 <= n <= 10) ==> r == IntToString(n) + "-"
    ensures |r| >= 2
  {
    if n in Prefixes then Prefixes[n] else IntToString(n) + "-"
  }

  /** The prefix vowel is dropped before a root starting with `o`. */
  predicate Elides(prefix: string, root: string) {
    (EndsWith(prefix, "a") || EndsWith(prefix, "o")) && StartsWith(root, "o")
  }

  /** The second word: the prefix of `n2` (with its final vowel elided before
      an `o`) followed by the element's root and "ide". */
  function SecondWord(n2: int, e2: Element): (r: string)
    ensures EndsWith(r, ElementRoot(e2.symbol) + "ide")
  {
    var p := PrefixText(n2);
    var root := ElementRoot(e2.symbol) + "ide";
    var q := if Elides(p, root) then p[..|p| - 1] else p;
    assert (q + root)[|q|..] == root;
    q + root
  }

  /** The first word: the element's name, with the prefix of `n1` unless `n1` is 1. */
  function FirstWord(e1: Element, n1: int): string {
    if n1 == 1 then e1.name else PrefixText(n1) + e1.name
  }

  /** `nameCovalentFromParts`: the first element's name (with a prefix only
      when its count is not 1), a space, then the second word, which always
      carries a prefix, `mono` included. */
  function NameCovalent(e1: Element, n1: int, e2: Element, n2: int): (r: string)
    ensures n1 == 1 ==> StartsWith(r, e1.name + " ")
    ensures n1 != 1 ==> StartsWith(r, PrefixText(n1) + e1.name + " ")
    ensures EndsWith(r, " " + SecondWord(n2, e2))
    ensures |r| == (if n1 == 1 then 0 else |PrefixText(n1)|) + |e1.name| + 1 + |SecondWord(n2, e2)|
  {
    var first := FirstWord(e1, n1);
    var second := SecondWord(n2, e2);
    assert |first| == (if n1 == 1 then 0 else |PrefixText(n1)|) + |e1.name|;
    Assoc(first, " ", second);
    ConcatEnds(first + " ", second);
    ConcatEnds(first, " " + second);
    first + " " + second
  }

  /** Every Greek prefix except di and tri ends in a vowel that can be elided. */
  lemma PrefixVowel(n: int)
    requires 1 <= n <= 10
    ensures EndsWith(PrefixText(n), "a") || EndsWith(PrefixText(n), "o") <==> n != 2 && n != 3
  {
    var p := PrefixText(n);
    assert p == Prefixes[n];
    assert EndsWith(p, "a") <==> p[|p| - 1] == 'a';
    assert EndsWith(p, "o") <==> p[|p| - 1] == 'o';
    if n == 1 { assert p == "mono"; }
    else if n == 2 { assert p == "di"; }
    else if n == 3 { assert p == "tri"; }
    else if n == 4 { assert p == "tetra"; }
    else if n == 5 { assert p == "penta"; }
    else if n == 6 { assert p == "hexa"; }
    else if n == 7 { assert p == "hepta"; }
    else if n == 8 { assert p == "octa"; }
    else if n == 9 { assert p == "nona"; }
    else { assert p == "deca"; }
  }

  /** Of the nonmetals' "-ide" words only oxygen's ("oxide") starts with `o`. */
  lemma RootStartsWithO(j: nat)
    requires j < |Nonmetals|
    ensures StartsWith(ElementRoot(Nonmetals[j].symbol) + "ide", "o") <==> Nonmetals[j].symbol == "O"
  {
    var sym := Nonmetals[j].symbol;
    assert sym in RootMap;
    var root := RootMap[sym] + "ide";
    assert StartsWith(root, "o") <==> root[0] == 'o';
    assert root[0] == RootMap[sym][0];
  }

  /** Among the nonmetals only oxygen has a root starting with `o`, so the
      prefix vowel is elided exactly for oxygen and a prefix ending in a
      vowel: mono, tetra, penta, hexa, hepta, octa, nona, deca. */
  lemma ElisionOnlyBeforeOxygen(j: nat, n2: int)
    requires j < |Nonmetals| && 1 <= n2 <= 10
    ensures Elides(PrefixText(n2), ElementRoot(Nonmetals[j].symbol) + "ide")
            <==> Nonmetals[j].symbol == "O" && n2 != 2 && n2 != 3
  {
    PrefixVowel(n2);
    RootStartsWithO(j);
  }

  /** The second word of a name whose second element comes from the nonmetal
      table and whose count has a prefix: the full prefix, without its final
      vowel only for oxygen after mono, tetra, penta, hexa, hepta, octa, nona
      and deca, then the root and "ide". */
  lemma SecondWordNonmetal(j: nat, n2: int)
    requires j < |Nonmetals| && 1 <= n2 <= 10
    ensures SecondWord(n2, Nonmetals[j])
      == (if Nonmetals[j].symbol == "O" && n2 != 2 && n2 != 3 then Prefixes[n2][..|Prefixes[n2]| - 1] else Prefixes[n2])
         + (ElementRoot(Nonmetals[j].symbol) + "ide")
  {
    ElisionOnlyBeforeOxygen(j, n2);
  }

  /** A count without a prefix is written as the number and a hyphen, which is
      never elided. */
  lemma SecondWordNumeric(n2: int, e2: Element)
    requires !(1 <= n2 <= 10)
    ensures SecondWord(n2, e2) == IntToString(n2) + "-" + (ElementRoot(e2.symbol) + "ide")
  {
    var p := PrefixText(n2);
    assert p[|p| - 1] == '-';
  }

  /** The table entries the two example names below draw on. */
  lemma ExampleEntries()
    ensures Nonmetals[2] == Element("N", "nitrogen") && Nonmetals[3] == Element("O", "oxygen")
    ensures ElementRoot("O") == "ox"
    ensures PrefixText(1) == "mono" && PrefixText(2) == "di" && PrefixText(5) == "penta"
  {
  }

  /** A name the curriculum uses as an example. */
  lemma NitrogenMonoxide()
    ensures NameCovalent(Nonmetals[2], 1, Nonmetals[3], 1) == "nitrogen monoxide"
  {
    ExampleEntries();
    var root := ElementRoot(Nonmetals[3].symbol) + "ide";
    assert root == "oxide";
    assert Elides("mono", root);
    assert "mono"[..3] + root == "monoxide";
    assert "nitrogen" + " " + "monoxide" == "nitrogen monoxide";
  }

  /** A name the curriculum uses as an example. */
  lemma DinitrogenPentoxide()
    ensures NameCovalent(Nonmetals[2], 2, Nonmetals[3], 5) == "dinitrogen pentoxide"
  {
    ExampleEntries();
    var root := ElementRoot(Nonmetals[3].symbol) + "ide";
    assert root == "oxide";
    assert Elides("penta", root);
    assert "penta"[..4] + root == "pentoxide";
    assert "di" + "nitrogen" + " " + "pentoxide" == "dinitrogen pentoxide";
  }
}

/** Challenge generation and answer checking of src/utils/naming.js: a random
    ionic or covalent compound with its expected name and accepted aliases, and
    the comparison of a learner's answer against it. `Math.random` is the
    parameter `rand` (its k-th call is `rand(k)`), the Roman-numeral helper is
    the parameter `toRoman`, and the random identifier is the parameter `id`. */
module Challenges {
  import opened JsText
  import opened Data
  import opened Namers
  import opened Heuristics
  import opened Normalize

  /* ================= Drawing from a table ================= */

  /** `Math.floor(Math.random() * n)`: the index `pick` chooses for a draw `r`. */
  function Pick(r: real, n: nat): (k: nat)
    requires 0.0 <= r < 1.0 && n > 0
    ensures k < n
  {
    assert r * n as real < n as real;
    (r * n as real).Floor
  }

  /** Whether an ion has the requested sign. */
  predicate HasSign(ion: Ion, positive: bool) {
    if positive then ion.charge > 0 else ion.charge < 0
  }

  /** `ions.filter(x => x.charge > 0)` (for `positive`) or `x.charge < 0`. */
  function FilterCharge(ions: seq<Ion>, positive: bool): (r: seq<Ion>)
    ensures |r| <= |ions|
    ensures forall i :: 0 <= i < |r| ==> HasSign(r[i], positive)
    ensures (forall i :: 0 <= i < |ions| ==> HasSign(ions[i], positive)) ==> r == ions
    decreases |ions|
  {
    if ions == [] then []
    else
      var rest := FilterCharge(ions[1..], positive);
      assert forall i :: 1 <= i < |ions| ==> ions[i] == ions[1..][i - 1];
      if HasSign(ions[0], positive) then [ions[0]] + rest else rest
  }

  /** A single ion is kept exactly when it has the requested sign. */
  lemma FilterChargeSingle(ion: Ion, positive: bool)
    ensures FilterCharge([ion], positive) == if HasSign(ion, positive) then [ion] else []
  {
    assert [ion][1..] == [];
  }

  /** The filter works ion by ion: filtering a concatenation concatenates the
      filtered parts, so the kept ions stay in table order. */
  lemma {:induction false} FilterChargeAppend(a: seq<Ion>, b: seq<Ion>, positive: bool)
    ensures FilterCharge(a + b, positive) == FilterCharge(a, positive) + FilterCharge(b, positive)
    decreases |a|
  {
    if a == [] {
      assert a + b == b;
    } else {
      assert (a + b)[0] == a[0] && (a + b)[1..] == a[1..] + b;
      FilterChargeAppend(a[1..], b, positive);
      Assoc([a[0]], FilterCharge(a[1..], positive), FilterCharge(b, positive));
    }
  }


  /** The two filters in `randomChallenge` keep the whole tables. */
  lemma FiltersKeepTables()
    ensures FilterCharge(Cations, true) == Cations
    ensures FilterCharge(Anions, false) == Anions
  {
    TableInvariants();
  }

  lemma AnionCharged(j: nat)
    requires j < |Anions|
    ensures Anions[j].charge < 0
  {
    TableInvariants();
  }

  /** The nonmetal the k-th draw picks. */
  function DrawNonmetal(rand: nat -> real, k: nat): Element
    requires 0.0 <= rand(k) < 1.0
  {
    Nonmetals[Pick(rand(k), |Nonmetals|)]
  }

  /* ================= Challenges ================= */

  datatype Challenge = Challenge(id: string, kind: Kind, parts: seq<Part>, primary: string, accepted: seq<string>)

  /** The ionic challenge for a cation and an anion: one part per ion with the
      balancing subscripts, the ionic name, and its aliases. */
  function IonicChallenge(id: string, cat: Ion, an: Ion, toRoman: nat -> string): Challenge
    requires an.charge != 0
  {
    var s := Subscripts(cat.charge, an.charge);
    var parts := [Part(cat.symbol, cat.core, s.0, cat.poly), Part(an.symbol, an.core, s.1, an.poly)];
    var primary := NameIonic(cat, an, toRoman);
    Challenge(id, Ionic, parts, primary, AliasAccept(primary, parts))
  }

  /** The covalent challenge for two nonmetals and their counts. */
  function CovalentChallenge(id: string, e1: Element, n1: nat, e2: Element, n2: nat): Challenge {
    var parts := [Part(e1.symbol, "", n1, false), Part(e2.symbol, "", n2, false)];
    var primary := NameCovalent(e1, n1, e2, n2);
    Challenge(id, Covalent, parts, primary, AliasAccept(primary, parts))
  }

  /** The covalent challenge for one nitrogen and one oxygen expects
      "nitrogen monoxide" and accepts the same name as its alias. */
  lemma NitrogenMonoxideChallenge(id: string)
    ensures var c := CovalentChallenge(id, Nonmetals[2], 1, Nonmetals[3], 1);
      c.primary == "nitrogen monoxide" && c.accepted == ["nitrogen monoxide"]
  {
    NitrogenMonoxide();
    ExampleEntries();
    var parts := [Part("N", "", 1, false), Part("O", "", 1, false)];
    assert parts[1..] == [Part("O", "", 1, false)] && parts[1..][1..] == [];
    assert JoinTokens(parts) == "N" + "" + ("O" + "" + "");
    assert JoinTokens(parts) == "NO";
    assert AliasFormula(parts) == "NO";
  }

  lemma OppositeChargesCancel(x: nat, y: nat, a: int, b: int)
    requires a > 0 && b < 0 && x * Abs(a) == y * Abs(b)
    ensures x * a + y * b == 0
  {
    assert Abs(a) == a && Abs(b) == -b;
    assert y * Abs(b) == -(y * b);
  }

  /** Every ionic challenge built from the tables has a positive count of each
      ion, and the counts balance the charges in lowest terms. */
  lemma IonicChallengeBalanced(i: nat, j: nat, id: string, toRoman: nat -> string)
    requires i < |Cations| && j < |Anions|
    ensures var c := IonicChallenge(id, Cations[i], Anions[j], toRoman);
      && c.parts[0].count > 0 && c.parts[1].count > 0
      && c.parts[0].count * Cations[i].charge + c.parts[1].count * Anions[j].charge == 0
      && Gcd(c.parts[0].count, c.parts[1].count) == 1
  {
    TableInvariants();
    var cat, an := Cations[i], Anions[j];
    var s := Subscripts(cat.charge, an.charge);
    SubscriptsCoprime(cat.charge, an.charge);
    OppositeChargesCancel(s.0, s.1, cat.charge, an.charge);
  }

  /** Every ionic challenge built from the tables is classified as ionic. */
  lemma IonicChallengeClassified(i: nat, j: nat, id: string, toRoman: nat -> string)
    requires i < |Cations| && j < |Anions|
    ensures Anions[j].charge != 0
    ensures var c := IonicChallenge(id, Cations[i], Anions[j], toRoman);
      ClassifyFromParts(c.parts) == c.kind == Ionic
  {
    AnionCharged(j);
    var c := IonicChallenge(id, Cations[i], Anions[j], toRoman);
    IonPartIsIonic(c.parts, 0, i);
  }

  /** An ionic challenge is named cation first, anion last. */
  lemma IonicChallengeNamed(cat: Ion, an: Ion, id: string, toRoman: nat -> string)
    requires an.charge != 0
    ensures var c := IonicChallenge(id, cat, an, toRoman);
      StartsWith(c.primary, cat.name) && EndsWith(c.primary, " " + an.name)
  {
    assert IonicChallenge(id, cat, an, toRoman).primary == NameIonic(cat, an, toRoman);
    NameIonicEnds(cat, an, toRoman);
  }

  /** Every covalent challenge built from the nonmetal table is classified as
      covalent and carries the counts it was drawn with. */
  lemma CovalentChallengeSound(j1: nat, j2: nat, n1: nat, n2: nat, id: string)
    requires j1 < |Nonmetals| && j2 < |Nonmetals|
    ensures var c := CovalentChallenge(id, Nonmetals[j1], n1, Nonmetals[j2], n2);
      && ClassifyFromParts(c.parts) == c.kind == Covalent
      && c.parts[0].count == n1 && c.parts[1].count == n2
  {
    var e1, e2 := Nonmetals[j1], Nonmetals[j2];
    var parts := [Part(e1.symbol, "", n1, false), Part(e2.symbol, "", n2, false)];
    var w := [j1, j2];
    forall i | 0 <= i < |parts|
      ensures w[i] < |Nonmetals| && parts[i].symbol == Nonmetals[w[i]].symbol
    {
      if i == 0 {
        assert parts[i].symbol == e1.symbol && w[i] == j1;
      } else {
        assert parts[i].symbol == e2.symbol && w[i] == j2;
      }
    }
    NonmetalsAreCovalent(parts, w);
  }

  /** The second nonmetal of a covalent challenge: draw 2, then draw again
      while its symbol is the first one's, at most five more times. `tries`
      counts the extra draws. */
  method RedrawNonmetal(rand: nat -> real, j1: nat) returns (j2: nat, tries: nat)
    requires forall k :: 0.0 <= rand(k) < 1.0
    requires j1 < |Nonmetals|
    ensures tries <= 5 && j2 == Pick(rand(2 + tries), |Nonmetals|)
    ensures forall k :: 2 <= k < 2 + tries ==> DrawNonmetal(rand, k).symbol == Nonmetals[j1].symbol
    ensures tries < 5 ==> Nonmetals[j2].symbol != Nonmetals[j1].symbol
  {
    j2 := Pick(rand(2), |Nonmetals|);
    tries := 0;
    // The source's `tries++ < 5` also counts the test that ends the loop;
    // that last increment is never read, so only the re-picks are counted.
    while Nonmetals[j2].symbol == Nonmetals[j1].symbol && tries < 5
      invariant 0 <= tries <= 5
      invariant j2 == Pick(rand(2 + tries), |Nonmetals|)
      invariant forall k :: 2 <= k < 2 + tries ==> DrawNonmetal(rand, k).symbol == Nonmetals[j1].symbol
    {
      tries := tries + 1;
      j2 := Pick(rand(2 + tries), |Nonmetals|);
    }
  }

  /** The ionic branch of `randomChallenge`: the cation from draw 1, the anion
      from draw 2. Filtering the tables by the sign of the charge keeps every
      entry (`FiltersKeepTables`), so the draws index the tables themselves. */
  function IonicDraw(rand: nat -> real, toRoman: nat -> string, id: string): (c: Challenge)
    requires 0.0 <= rand(1) < 1.0 && 0.0 <= rand(2) < 1.0
    ensures Anions[Pick(rand(2), |Anions|)].charge != 0
    ensures c == IonicChallenge(id, Cations[Pick(rand(1), |Cations|)], Anions[Pick(rand(2), |Anions|)], toRoman)
    ensures ClassifyFromParts(c.parts) == c.kind == Ionic
  {
    var i, j := Pick(rand(1), |Cations|), Pick(rand(2), |Anions|);
    IonicChallengeClassified(i, j, id, toRoman);
    IonicChallenge(id, Cations[i], Anions[j], toRoman)
  }

  /** What the covalent branch of `randomChallenge` promises when the second
      nonmetal needed `repicks` extra draws: at most five of them, each one a
      collision with the first nonmetal, the last draw distinct unless the
      limit was reached, and the counts from the two draws after it. */
  predicate CovalentOutcome(rand: nat -> real, id: string, c: Challenge, repicks: nat)
    requires forall k :: 0.0 <= rand(k) < 1.0
  {
    && repicks <= 5
    && c == CovalentChallenge(id, DrawNonmetal(rand, 1), 1 + Pick(rand(3 + repicks), 3),
                              DrawNonmetal(rand, 2 + repicks), 1 + Pick(rand(4 + repicks), 5))
    && (forall k :: 2 <= k < 2 + repicks ==> DrawNonmetal(rand, k).symbol == DrawNonmetal(rand, 1).symbol)
    && (repicks < 5 ==> DrawNonmetal(rand, 2 + repicks).symbol != DrawNonmetal(rand, 1).symbol)
  }

  /** A covalent outcome has a first count from 1 to 3, a second from 1 to 5,
      and the aliases of its own name and parts. */
  lemma CovalentOutcomeCounts(rand: nat -> real, id: string, c: Challenge, repicks: nat)
    requires forall k :: 0.0 <= rand(k) < 1.0
    requires CovalentOutcome(rand, id, c, repicks)
    ensures |c.parts| == 2 && 1 <= c.parts[0].count <= 3 && 1 <= c.parts[1].count <= 5
    ensures c.kind == Covalent && c.accepted == AliasAccept(c.primary, c.parts)
  {
    var n1 := 1 + Pick(rand(3 + repicks), 3);
    var n2 := 1 + Pick(rand(4 + repicks), 5);
    assert c.parts[0].count == n1 && c.parts[1].count == n2;
  }

  /** The covalent branch of `randomChallenge`: the first nonmetal from draw 1,
      the second from draw 2 and the re-draws, the counts from the next two
      draws. */
  method RandomCovalent(rand: nat -> real, id: string) returns (c: Challenge, ghost repicks: nat)
    requires forall k :: 0.0 <= rand(k) < 1.0
    ensures CovalentOutcome(rand, id, c, repicks)
    ensures ClassifyFromParts(c.parts) == c.kind == Covalent
  {
    var j1 := Pick(rand(1), |Nonmetals|);
    var j2, tries := RedrawNonmetal(rand, j1);
    var n1 := 1 + Pick(rand(3 + tries), 3);
    var n2 := 1 + Pick(rand(4 + tries), 5);
    c := CovalentChallenge(id, Nonmetals[j1], n1, Nonmetals[j2], n2);
    CovalentChallengeSound(j1, j2, n1, n2, id);
    repicks := tries;
  }

  /** The first draw picks the kind: below 0.7 the challenge is ionic. */
  predicate IonicRoll(rand: nat -> real) {
    rand(0) < 0.7
  }

  /** `randomChallenge`: draw 0 chooses an ionic challenge (below 0.7) or a
      covalent one. `repicks` is the number of extra draws the covalent branch
      made for its second nonmetal. */
  method RandomChallenge(rand: nat -> real, toRoman: nat -> string, id: string)
    returns (c: Challenge, ghost repicks: nat)
    requires forall k :: 0.0 <= rand(k) < 1.0
    ensures c.kind == Ionic <==> IonicRoll(rand)
    ensures IonicRoll(rand) ==> (Anions[Pick(rand(2), |Anions|)].charge != 0 &&
      c == IonicChallenge(id, Cations[Pick(rand(1), |Cations|)], Anions[Pick(rand(2), |Anions|)], toRoman))
    ensures !IonicRoll(rand) ==> CovalentOutcome(rand, id, c, repicks)
    ensures ClassifyFromParts(c.parts) == c.kind
  {
    if IonicRoll(rand) {
      c := IonicDraw(rand, toRoman, id);
      repicks := 0;
    } else {
      c, repicks := RandomCovalent(rand, id);
    }
  }

  /* ================= Checking an answer ================= */

  datatype Verdict = Verdict(okType: bool, okName: bool, expectedPrimary: string, accepted: seq<string>)

  /** The kind names are already lower case. */
  lemma KindNameLower(k: Kind)
    ensures Lower(KindName(k)) == KindName(k)
  {
    LowerFixed(KindName(k));
  }

  /** The kind names are their own lower-cased, trimmed form. */
  lemma KindNameCanonical(k: Kind)
    ensures Trim(Lower(KindName(k))) == KindName(k)
  {
    KindNameLower(k);
    TrimAlnumEnds(KindName(k));
  }

  /** `names.map(normalizeName)`. */
  function NormalizeAll(names: seq<string>): (r: seq<string>)
    ensures |r| == |names| && forall i :: 0 <= i < |names| ==> r[i] == NormalizeName(names[i])
  {
    seq(|names|, i requires 0 <= i < |names| => NormalizeName(names[i]))
  }

  /** `checkAnswer`: the type must match the challenge's kind up to case and
      surrounding whitespace; the name must match the expected name or one of
      the aliases after normalisation. An absent guess is the empty string. */
  function CheckAnswer(q: Challenge, guessedType: string, guessedName: string): (v: Verdict)
    ensures v.okType <==> Trim(Lower(guessedType)) == KindName(q.kind)
    ensures v.okName <==> (NormalizeName(guessedName) == NormalizeName(q.primary)
      || exists i :: 0 <= i < |q.accepted| && NormalizeName(guessedName) == NormalizeName(q.accepted[i]))
    ensures v.expectedPrimary == q.primary && v.accepted == q.accepted
  {
    KindNameLower(q.kind);
    var okType := Trim(Lower(guessedType)) == Lower(KindName(q.kind));
    var norm := NormalizeName(guessedName);
    var okName := norm == NormalizeName(q.primary) || norm in NormalizeAll(q.accepted);
    Verdict(okType, okName, q.primary, q.accepted)
  }

  /** Answering with the challenge's own kind and expected name passes both checks. */
  lemma ExpectedAnswerPasses(q: Challenge)
    ensures CheckAnswer(q, KindName(q.kind), q.primary).okType
    ensures CheckAnswer(q, KindName(q.kind), q.primary).okName
  {
    KindNameCanonical(q.kind);
  }

  /** Every accepted alias passes the name check. */
  lemma AcceptedAliasPasses(q: Challenge, guessedType: string, i: nat)
    requires i < |q.accepted|
    ensures CheckAnswer(q, guessedType, q.accepted[i]).okName
  {
  }

  /** A name without any ASCII letter or digit (the empty answer, say) fails
      the name check when the expected name and every alias have one. */
  lemma BlankNameFails(q: Challenge, guessedType: string, guessedName: string)
    requires AlnumOf(Lower(guessedName)) == []
    requires AlnumOf(Lower(q.primary)) != []
    requires forall i :: 0 <= i < |q.accepted| ==> AlnumOf(Lower(q.accepted[i])) != []
    ensures !CheckAnswer(q, guessedType, guessedName).okName
  {
    NormalizeNameEmpty(guessedName);
    NormalizeNameEmpty(q.primary);
    forall i | 0 <= i < |q.accepted|
      ensures NormalizeName(q.accepted[i]) != []
    {
      NormalizeNameEmpty(q.accepted[i]);
    }
  }
}

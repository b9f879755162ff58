/** The formula markup of the quiz (src/utils/naming.js, display helpers):
    digit runs as subscripts, charges as superscripts, and the neutral formula
    built from a list of parts. */
module Markup {
  import opened JsText
  import opened Data

  /* ================= Display helpers ================= */

  /** The length of the run of digits at the start of `s`. */
  function LeadingDigits(s: string): (k: nat)
    ensures k <= |s|
    ensures s != [] && IsDigit(s[0]) ==> k > 0
    decreases |s|
  {
    if s != [] && IsDigit(s[0]) then 1 + LeadingDigits(s[1..]) else 0
  }

  /** `LeadingDigits` measures a maximal run: digits up to it, none right after. */
  lemma {:induction false} LeadingDigitsRun(s: string)
    ensures forall i :: 0 <= i < LeadingDigits(s) ==> IsDigit(s[i])
    ensures LeadingDigits(s) < |s| ==> !IsDigit(s[LeadingDigits(s)])
    decreases |s|
  {
    if s != [] && IsDigit(s[0]) {
      LeadingDigitsRun(s[1..]);
      assert forall i :: 1 <= i < |s| ==> s[i] == s[1..][i - 1];
    }
  }

  /** `coreToHtml`: every maximal run of digits wrapped in `<sub>` … `</sub>`. */
  function CoreToHtml(core: string): string
    decreases |core|
  {
    if core == [] then []
    else if IsDigit(core[0]) then
      var k := LeadingDigits(core);
      "<sub>" + core[..k] + "</sub>" + CoreToHtml(core[k..])
    else [core[0]] + CoreToHtml(core[1..])
  }

  /** `h` starts with the tag `<sub>`. */
  predicate OpenTagAt(h: string) {
    |h| >= 5 && h[0] == '<' && h[1] == 's' && h[2] == 'u' && h[3] == 'b' && h[4] == '>'
  }

  /** `h` starts with the tag `</sub>`. */
  predicate CloseTagAt(h: string) {
    |h| >= 6 && h[0] == '<' && h[1] == '/' && h[2] == 's' && h[3] == 'u' && h[4] == 'b' && h[5] == '>'
  }

  /** The plain text of a piece of markup: `<sub>` and `</sub>` tags dropped. */
  function Untag(h: string): string
    decreases |h|
  {
    if h == [] then []
    else if OpenTagAt(h) then Untag(h[5..])
    else if CloseTagAt(h) then Untag(h[6..])
    else [h[0]] + Untag(h[1..])
  }

  predicate NoAngle(s: string) {
    forall i :: 0 <= i < |s| ==> s[i] != '<'
  }

  lemma NoAngleSlice(s: string, i: nat, j: nat)
    requires NoAngle(s) && i <= j <= |s|
    ensures NoAngle(s[i..j])
  {
    assert forall k :: 0 <= k < j - i ==> s[i..j][k] == s[i + k];
  }

  lemma UntagOpenTag(t: string)
    ensures Untag("<sub>" + t) == Untag(t)
  {
    var h := "<sub>" + t;
    assert OpenTagAt(h) && h[5..] == t;
  }

  lemma UntagCloseTag(t: string)
    ensures Untag("</sub>" + t) == Untag(t)
  {
    var h := "</sub>" + t;
    assert !OpenTagAt(h) && CloseTagAt(h) && h[6..] == t;
  }

  lemma UntagChar(c: char, t: string)
    requires c != '<'
    ensures Untag([c] + t) == [c] + Untag(t)
  {
    var h := [c] + t;
    assert h[0] == c;
    assert h[1..] == t;
  }

  lemma {:induction false} UntagPlainPrefix(d: string, t: string)
    requires NoAngle(d)
    ensures Untag(d + t) == d + Untag(t)
    decreases |d|
  {
    if d == [] {
      assert d + t == t;
    } else {
      assert d + t == [d[0]] + (d[1..] + t);
      UntagChar(d[0], d[1..] + t);
      UntagPlainPrefix(d[1..], t);
      assert d == [d[0]] + d[1..];
    }
  }

  /** A run of plain text wrapped in a subscript reads as itself. */
  lemma UntagSub(d: string, rest: string)
    requires NoAngle(d)
    ensures Untag("<sub>" + d + "</sub>" + rest) == d + Untag(rest)
  {
    assert "<sub>" + d + "</sub>" + rest == "<sub>" + (d + ("</sub>" + rest));
    UntagOpenTag(d + ("</sub>" + rest));
    UntagPlainPrefix(d, "</sub>" + rest);
    UntagCloseTag(rest);
  }

  /** Reading a plain character in front of markup that reads as `e`. */
  lemma UntagConsChar(c: char, rest: string, e: string, t: string)
    requires c != '<' && Untag(rest + t) == e + Untag(t)
    ensures Untag([c] + rest + t) == [c] + e + Untag(t)
  {
    assert [c] + rest + t == [c] + (rest + t);
    UntagChar(c, rest + t);
  }

  /** Reading a subscripted run of plain text in front of markup that reads as `e`. */
  lemma UntagSubThen(d: string, rest: string, e: string, t: string)
    requires NoAngle(d) && Untag(rest + t) == e + Untag(t)
    ensures Untag("<sub>" + d + "</sub>" + rest + t) == d + e + Untag(t)
  {
    assert "<sub>" + d + "</sub>" + rest + t == "<sub>" + d + "</sub>" + (rest + t);
    UntagSub(d, rest + t);
  }

  /** Markup `h` reading as `x` followed by markup `s` reading as `y` reads as `x + y`. */
  lemma UntagAppendThen(h: string, x: string, s: string, y: string, t: string)
    requires Untag(h + (s + t)) == x + Untag(s + t)
    requires Untag(s + t) == y + Untag(t)
    ensures Untag(h + s + t) == x + y + Untag(t)
  {
    assert h + s + t == h + (s + t);
  }

  /** The markup `coreToHtml` adds is only the subscript tags: removing them
      gives back the core; and since that markup never ends part-way through
      a tag, the plain text of what follows it is read independently. */
  lemma {:induction false} UntagCoreToHtml(core: string, t: string)
    requires NoAngle(core)
    ensures Untag(CoreToHtml(core) + t) == core + Untag(t)
    decreases |core|, 1
  {
    if core == [] {
      assert CoreToHtml(core) + t == t;
    } else if IsDigit(core[0]) {
      UntagCoreDigitRun(core, t);
    } else {
      UntagCorePlainChar(core, t);
    }
  }

  /** The step of `UntagCoreToHtml` for a core that starts with a non-digit. */
  lemma {:induction false} UntagCorePlainChar(core: string, t: string)
    requires NoAngle(core) && core != [] && !IsDigit(core[0])
    ensures Untag(CoreToHtml(core) + t) == core + Untag(t)
    decreases |core|, 0
  {
    var e := core[1..];
    NoAngleSlice(core, 1, |core|);
    var rest := CoreToHtml(e);
    assert CoreToHtml(core) == [core[0]] + rest;
    assert core == [core[0]] + e;
    UntagCoreToHtml(e, t);
    UntagConsChar(core[0], rest, e, t);
  }

  /** The step of `UntagCoreToHtml` for a core that starts with a digit. */
  lemma {:induction false} UntagCoreDigitRun(core: string, t: string)
    requires NoAngle(core) && core != [] && IsDigit(core[0])
    ensures Untag(CoreToHtml(core) + t) == core + Untag(t)
    decreases |core|, 0
  {
    var k := LeadingDigits(core);
    var d, e := core[..k], core[k..];
    NoAngleSlice(core, 0, k);
    NoAngleSlice(core, k, |core|);
    assert core[k..|core|] == e && core[0..k] == d;
    var rest := CoreToHtml(e);
    assert CoreToHtml(core) == "<sub>" + d + "</sub>" + rest;
    assert core == d + e;
    UntagCoreToHtml(e, t);
    UntagSubThen(d, rest, e, t);
  }

  /** No character of `s` is a digit. */
  predicate NoDigits(s: string) {
    forall i :: 0 <= i < |s| ==> !IsDigit(s[i])
  }

  /** Text without digits gets no tags. */
  lemma {:induction false} CoreToHtmlNoDigits(x: string)
    requires NoDigits(x)
    ensures CoreToHtml(x) == x
    decreases |x|
  {
    if x != [] {
      assert NoDigits(x[1..]) by {
        assert forall i :: 0 <= i < |x| - 1 ==> x[1..][i] == x[i + 1];
      }
      CoreToHtmlNoDigits(x[1..]);
    }
  }

  /** A run of digits becomes a single subscript. */
  lemma CoreToHtmlDigitRun(d: string)
    requires d != [] && AllDigits(d)
    ensures CoreToHtml(d) == "<sub>" + d + "</sub>"
  {
    LeadingDigitsRun(d);
    var k := LeadingDigits(d);
    assert k == |d|;
    assert d[..k] == d && d[k..] == [];
  }

  /** `a` and `b` do not meet in the middle of a digit run. */
  predicate NoDigitJunction(a: string, b: string) {
    a == [] || b == [] || !IsDigit(a[|a| - 1]) || !IsDigit(b[0])
  }

  /** What follows `a` does not lengthen the digit run at its start. */
  lemma {:induction false} LeadingDigitsAppend(a: string, b: string)
    requires a != [] && NoDigitJunction(a, b)
    ensures LeadingDigits(a + b) == LeadingDigits(a)
    decreases |a|
  {
    assert (a + b)[0] == a[0] && (a + b)[1..] == a[1..] + b;
    if IsDigit(a[0]) {
      if a[1..] == [] {
        assert a[1..] + b == b;
      } else {
        LeadingDigitsAppend(a[1..], b);
      }
    }
  }

  /** Markup is made piece by piece: two texts that do not meet inside a digit
      run are marked up on their own. */
  lemma {:induction false} CoreToHtmlAppend(a: string, b: string)
    requires NoDigitJunction(a, b)
    ensures CoreToHtml(a + b) == CoreToHtml(a) + CoreToHtml(b)
    decreases |a|
  {
    if a == [] {
      assert a + b == b;
    } else if !IsDigit(a[0]) {
      assert (a + b)[0] == a[0] && (a + b)[1..] == a[1..] + b;
      CoreToHtmlAppend(a[1..], b);
      Assoc([a[0]], CoreToHtml(a[1..]), CoreToHtml(b));
    } else {
      var k := LeadingDigits(a);
      LeadingDigitsAppend(a, b);
      assert (a + b)[..k] == a[..k] && (a + b)[k..] == a[k..] + b;
      CoreToHtmlAppend(a[k..], b);
      Assoc("<sub>" + a[..k] + "</sub>", CoreToHtml(a[k..]), CoreToHtml(b));
    }
  }

  /** Letters followed by one digit run: the run becomes the subscript. */
  lemma CoreToHtmlWordRun(x: string, d: string)
    requires NoDigits(x) && d != [] && AllDigits(d)
    ensures CoreToHtml(x + d) == x + "<sub>" + d + "</sub>"
  {
    CoreToHtmlNoDigits(x);
    CoreToHtmlDigitRun(d);
    CoreToHtmlAppend(x, d);
    Assoc(x, "<sub>" + d, "</sub>");
  }

  /** The subscripts of two cores of the ion table. */
  lemma CoreToHtmlExamples()
    ensures CoreToHtml("SO4") == "SO<sub>4</sub>"
    ensures CoreToHtml("NH4") == "NH<sub>4</sub>"
  {
    MarkupLiterals();
    CoreToHtmlWordRun("SO", "4");
    CoreToHtmlWordRun("NH", "4");
  }

  lemma MarkupLiterals()
    ensures NoDigits("SO") && NoDigits("NH") && AllDigits("4")
    ensures "SO4" == "SO" + "4" && "SO" + "<sub>" + "4" + "</sub>" == "SO<sub>4</sub>"
    ensures "NH4" == "NH" + "4" && "NH" + "<sub>" + "4" + "</sub>" == "NH<sub>4</sub>"
  {
  }

  /** The text inside `<sup>` for a charge: the magnitude (left out when it is 1)
      followed by `+` or the minus sign U+2212. */
  function ChargeText(charge: int): (r: string)
    ensures r != [] && r[|r| - 1] == (if charge > 0 then '+' else '\U{2212}')
    ensures AllDigits(r[..|r| - 1])
    ensures |r| == 1 <==> Abs(charge) == 1
  {
    var digits := if Abs(charge) == 1 then "" else NatToString(Abs(charge));
    var r := digits + [if charge > 0 then '+' else '\U{2212}'];
    assert r[..|r| - 1] == digits;
    r
  }

  /** Reads superscript charge text back as a signed charge. */
  function ParseChargeText(t: string): Option<int> {
    if t == [] || !(t[|t| - 1] == '+' || t[|t| - 1] == '\U{2212}') || !AllDigits(t[..|t| - 1]) then None
    else
      var digits := t[..|t| - 1];
      var mag := if digits == [] then 1 else ParseNat(digits);
      Some(if t[|t| - 1] == '+' then mag else -mag)
  }

  /** The superscript text reads back as the charge it was made from. */
  lemma ChargeTextRoundTrip(charge: int)
    ensures ParseChargeText(ChargeText(charge)) == Some(charge)
  {
    var t := ChargeText(charge);
    var digits := if Abs(charge) == 1 then "" else NatToString(Abs(charge));
    assert t[..|t| - 1] == digits;
    if Abs(charge) != 1 {
      ParseNatToString(Abs(charge));
    }
  }

  /** `ionTokenHtml`: the core with its digit subscripts, then the charge as a
      superscript that reads back as `charge`. */
  function IonTokenHtml(core: string, charge: int): (r: string)
    ensures StartsWith(r, CoreToHtml(core) + "<sup>") && EndsWith(r, "</sup>")
    ensures |r| >= |CoreToHtml(core)| + 11
    ensures ParseChargeText(r[|CoreToHtml(core)| + 5..|r| - 6]) == Some(charge)
  {
    var h := CoreToHtml(core);
    var t := ChargeText(charge);
    var r := h + "<sup>" + t + "</sup>";
    assert r[..|h| + 5] == h + "<sup>" && r[|r| - 6..] == "</sup>";
    assert r[|h| + 5..|r| - 6] == t;
    ChargeTextRoundTrip(charge);
    r
  }

  /** The characters the charge-stripping pattern accepts as a sign. */
  predicate IsSign(c: char) { c == '+' || c == '-' || c == '\U{2212}' }

  /** The length of the run of digits at the end of `u`. */
  function TrailingDigits(u: string): (k: nat)
    ensures k <= |u|
    ensures forall i :: |u| - k <= i < |u| ==> IsDigit(u[i])
    ensures k < |u| ==> !IsDigit(u[|u| - k - 1])
    decreases |u|
  {
    if u != [] && IsDigit(u[|u| - 1]) then 1 + TrailingDigits(u[..|u| - 1]) else 0
  }

  /** The length of the run of whitespace at the end of `u`. */
  function TrailingSpaces(u: string): (k: nat)
    ensures k <= |u|
    ensures forall i :: |u| - k <= i < |u| ==> IsSpace(u[i])
    ensures k < |u| ==> !IsSpace(u[|u| - k - 1])
    decreases |u|
  {
    if u != [] && IsSpace(u[|u| - 1]) then 1 + TrailingSpaces(u[..|u| - 1]) else 0
  }

  /** Some spaces followed by some digits (`\s*[0-9]*`). */
  predicate SpacesThenDigits(y: string) {
    && (forall i :: 0 <= i < |y| ==> IsSpace(y[i]) || IsDigit(y[i]))
    && (forall i, j :: 0 <= i < j < |y| && IsDigit(y[i]) ==> !IsSpace(y[j]))
  }

  /** `x` matches `\s*[0-9]*[+−-]$` as a whole. */
  predicate ChargeTail(x: string) {
    |x| > 0 && IsSign(x[|x| - 1]) && SpacesThenDigits(x[..|x| - 1])
  }

  /** Where the charge notation at the end of `t` begins: `|t|` when `t` does
      not end in a sign, otherwise the start of its spaces, digits and sign. */
  function ChargeStart(t: string): (p: nat)
    ensures p <= |t|
  {
    if t != [] && IsSign(t[|t| - 1]) then
      var u := t[..|t| - 1];
      var d := TrailingDigits(u);
      |u| - d - TrailingSpaces(u[..|u| - d])
    else |t|
  }

  /** `t.replace(/\s*[0-9]*[+−-]$/, '')`: the leftmost (so the longest) suffix
      that is spaces, digits and a final sign is cut off; without a final sign
      nothing is. */
  function StripCharge(t: string): (r: string)
    ensures |r| <= |t| && r == t[..|r|]
    ensures |t| > 0 && IsSign(t[|t| - 1]) ==> ChargeTail(t[|r|..])
    ensures forall q :: 0 <= q < |r| ==> !ChargeTail(t[q..])
    ensures (t == [] || !IsSign(t[|t| - 1])) ==> r == t
  {
    ChargeStartMatches(t);
    ChargeStartLeftmost(t);
    t[..ChargeStart(t)]
  }

  /** A run of spaces followed by a run of digits is what `\s*[0-9]*` matches. */
  lemma SpacesThenDigitsIntro(y: string, m: nat)
    requires m <= |y|
    requires forall i :: 0 <= i < m ==> IsSpace(y[i])
    requires forall i :: m <= i < |y| ==> IsDigit(y[i])
    ensures SpacesThenDigits(y)
  {
    forall i, j | 0 <= i < j < |y| && IsDigit(y[i])
      ensures !IsSpace(y[j])
    {
      if i < m {
        assert false;
      }
    }
  }

  /** Spaces, then digits, then a sign: a charge notation. */
  lemma ChargeTailIntro(x: string, w: nat)
    requires |x| > 0 && IsSign(x[|x| - 1]) && w < |x|
    requires forall i :: 0 <= i < w ==> IsSpace(x[i])
    requires forall i :: w <= i < |x| - 1 ==> IsDigit(x[i])
    ensures ChargeTail(x)
  {
    var y := x[..|x| - 1];
    assert forall i :: 0 <= i < |y| ==> y[i] == x[i];
    SpacesThenDigitsIntro(y, w);
  }

  /** What is cut off after `ChargeStart` is a charge notation. */
  lemma ChargeStartMatches(t: string)
    ensures |t| > 0 && IsSign(t[|t| - 1]) ==> ChargeTail(t[ChargeStart(t)..])
  {
    if |t| > 0 && IsSign(t[|t| - 1]) {
      var u := t[..|t| - 1];
      var d := TrailingDigits(u);
      var v := u[..|u| - d];
      var w := TrailingSpaces(v);
      var p := |u| - d - w;
      assert ChargeStart(t) == p;
      var x := t[p..];
      assert x[|x| - 1] == t[|t| - 1];
      forall i | 0 <= i < w
        ensures IsSpace(x[i])
      {
        assert x[i] == v[p + i];
      }
      forall i | w <= i < |x| - 1
        ensures IsDigit(x[i])
      {
        assert x[i] == u[p + i];
      }
      ChargeTailIntro(x, w);
    }
  }

  /** No charge notation starts before `ChargeStart`: the cut is the leftmost match. */
  lemma ChargeStartLeftmost(t: string)
    ensures forall q :: 0 <= q < ChargeStart(t) ==> !ChargeTail(t[q..])
  {
    var p := ChargeStart(t);
    forall q | 0 <= q < p
      ensures !ChargeTail(t[q..])
    {
      if t != [] && IsSign(t[|t| - 1]) {
        var u := t[..|t| - 1];
        var d := TrailingDigits(u);
        var v := u[..|u| - d];
        var w := TrailingSpaces(v);
        var y := t[q..][..|t| - q - 1];
        assert y == u[q..];
        assert y[p - 1 - q] == v[p - 1];
        if w > 0 {
          assert y[p - q] == v[p];
          assert IsSpace(v[p]);
        } else {
          assert !IsDigit(u[p - 1]);
        }
      } else {
        assert t[q..][|t| - q - 1] == t[|t| - 1];
      }
    }
  }

  /** The display token of a part: the core (or, without one, the symbol) with
      any trailing charge notation cut off and all whitespace removed. */
  function Token(p: Part): string {
    RemoveSpaces(StripCharge(if p.core != "" then p.core else p.symbol))
  }

  /** A count as a subscript. */
  function Sub(n: nat): string {
    "<sub>" + NatToString(n) + "</sub>"
  }

  /** The markup `formatFormula` produces for a display token `tok` counted
      `count` times. */
  function TokenMarkup(tok: string, poly: bool, count: nat): string {
    if poly && count > 1 then "(" + CoreToHtml(tok) + ")" + Sub(count)
    else CoreToHtml(tok) + (if count > 1 then Sub(count) else "")
  }

  /** The plain formula text of a token counted `count` times: the token, in
      parentheses when a polyatomic token is counted more than once, then the
      count when it is above 1. */
  function TokenText(tok: string, poly: bool, count: nat): string {
    (if poly && count > 1 then "(" + tok + ")" else tok)
    + (if count > 1 then NatToString(count) else "")
  }

  /** A count's subscript reads as the count's digits. */
  lemma UntagCount(count: nat, t: string)
    ensures Untag(Sub(count) + t) == NatToString(count) + Untag(t)
  {
    var n := NatToString(count);
    assert NoAngle(n) by {
      forall i | 0 <= i < |n| ensures n[i] != '<' {
        assert IsDigit(n[i]);
      }
    }
    assert Sub(count) + t == "<sub>" + n + "</sub>" + t;
    UntagSub(n, t);
  }

  /** With the tags removed, a token's markup reads as its plain formula text,
      and the markup that follows it is read on its own. */
  lemma UntagTokenMarkup(tok: string, poly: bool, count: nat, t: string)
    requires NoAngle(tok)
    ensures Untag(TokenMarkup(tok, poly, count) + t) == TokenText(tok, poly, count) + Untag(t)
  {
    if count > 1 && poly {
      UntagPolyMarkup(tok, count, t);
    } else if count > 1 {
      UntagCountedMarkup(tok, count, t);
    } else {
      assert TokenMarkup(tok, poly, count) == CoreToHtml(tok);
      assert TokenText(tok, poly, count) == tok;
      UntagCoreToHtml(tok, t);
    }
  }

  /** The case of `UntagTokenMarkup` for a simple token counted more than once. */
  lemma UntagCountedMarkup(tok: string, count: nat, t: string)
    requires NoAngle(tok) && count > 1
    ensures Untag(TokenMarkup(tok, false, count) + t) == TokenText(tok, false, count) + Untag(t)
  {
    var h, n, s := CoreToHtml(tok), NatToString(count), Sub(count);
    assert TokenMarkup(tok, false, count) == h + s;
    assert TokenText(tok, false, count) == tok + n;
    UntagCoreToHtml(tok, s + t);
    UntagCount(count, t);
    UntagAppendThen(h, tok, s, n, t);
  }

  /** The case of `UntagTokenMarkup` for a polyatomic token counted more than once. */
  lemma UntagPolyMarkup(tok: string, count: nat, t: string)
    requires NoAngle(tok) && count > 1
    ensures Untag(TokenMarkup(tok, true, count) + t) == TokenText(tok, true, count) + Untag(t)
  {
    var h, n, s := CoreToHtml(tok), NatToString(count), Sub(count);
    assert TokenMarkup(tok, true, count) == ['('] + (h + ([')'] + s));
    assert TokenText(tok, true, count) == ['('] + (tok + ([')'] + n));
    UntagCount(count, t);
    UntagConsChar(')', s, n, t);
    UntagCoreToHtml(tok, [')'] + s + t);
    UntagAppendThen(h, tok, [')'] + s, [')'] + n, t);
    UntagConsChar('(', h + ([')'] + s), tok + ([')'] + n), t);
  }

  /** The plain formula text of one part. */
  function PartText(p: Part): string {
    TokenText(Token(p), p.poly, p.count)
  }

  /** The markup of one part of `formatFormula`; a token free of `<` reads,
      with the tags removed, as the part's plain formula text. */
  function FormatPart(p: Part): (r: string)
    ensures NoAngle(Token(p)) ==> Untag(r) == PartText(p)
  {
    var r := TokenMarkup(Token(p), p.poly, p.count);
    if NoAngle(Token(p)) then
      UntagTokenMarkup(Token(p), p.poly, p.count, "");
      assert r + "" == r;
      r
    else r
  }

  /** The plain formula text of a list of parts, in input order. */
  function FormulaText(parts: seq<Part>): string
    decreases |parts|
  {
    if parts == [] then "" else PartText(parts[0]) + FormulaText(parts[1..])
  }

  predicate PlainTokens(parts: seq<Part>) {
    forall i :: 0 <= i < |parts| ==> NoAngle(Token(parts[i]))
  }

  /** `formatFormula`: the parts' markup in input order, with no separator;
      with the tags removed it reads as the plain formula text. */
  function FormatFormula(parts: seq<Part>): (r: string)
    ensures PlainTokens(parts) ==> Untag(r) == FormulaText(parts)
    decreases |parts|
  {
    if parts == [] then ""
    else
      var p := parts[0];
      var rest := FormatFormula(parts[1..]);
      var r := TokenMarkup(Token(p), p.poly, p.count) + rest;
      if PlainTokens(parts) then
        assert PlainTokens(parts[1..]) by {
          assert forall i :: 0 <= i < |parts| - 1 ==> parts[1..][i] == parts[i + 1];
        }
        UntagTokenMarkup(Token(p), p.poly, p.count, rest);
        r
      else r
  }

  /** Formatting distributes over concatenation of part lists. */
  lemma {:induction false} FormatFormulaAppend(a: seq<Part>, b: seq<Part>)
    ensures FormatFormula(a + b) == FormatFormula(a) + FormatFormula(b)
    decreases |a|
  {
    if a == [] {
      assert a + b == b;
    } else {
      assert (a + b)[0] == a[0] && (a + b)[1..] == a[1..] + b;
      FormatFormulaAppend(a[1..], b);
    }
  }

  /** A core of letters and digits is its own display token. */
  lemma TokenOfPlainCore(p: Part)
    requires p.core != [] && forall i :: 0 <= i < |p.core| ==> IsAlnum(p.core[i])
    ensures Token(p) == p.core
  {
    assert !IsSign(p.core[|p.core| - 1]);
    assert forall i :: 0 <= i < |p.core| ==> !IsSpace(p.core[i]) by {
      forall i | 0 <= i < |p.core| ensures !IsSpace(p.core[i]) {
        AlnumNotSpace(p.core[i]);
      }
    }
  }

  lemma AlnumNotSpace(c: char)
    requires IsAlnum(c)
    ensures !IsSpace(c)
  {
  }

  /** The markup of a single part, by the three cases of `formatFormula`: a
      polyatomic token counted more than once in parentheses with the count as
      a subscript, another token counted more than once followed by the count
      as a subscript, and a token counted once on its own. */
  lemma FormatFormulaSingle(p: Part)
    ensures p.poly && p.count > 1 ==>
      FormatFormula([p]) == "(" + CoreToHtml(Token(p)) + ")" + Sub(p.count)
    ensures !p.poly && p.count > 1 ==> FormatFormula([p]) == CoreToHtml(Token(p)) + Sub(p.count)
    ensures p.count <= 1 ==> FormatFormula([p]) == CoreToHtml(Token(p))
  {
    assert [p][1..] == [];
    var m := TokenMarkup(Token(p), p.poly, p.count);
    assert FormatFormula([p]) == m + "";
  }

  /** Aluminium sulfate: the polyatomic sulfate in parentheses, each count as
      a subscript. */
  lemma FormatFormulaExample(parts: seq<Part>)
    requires parts == [Part("Al3+", "Al", 2, false), Part("SO4 2-", "SO4", 3, true)]
    ensures FormatFormula(parts) == "Al<sub>2</sub>" + "(SO<sub>4</sub>)<sub>3</sub>"
  {
    var al, so4 := parts[0], parts[1];
    ExampleLiterals();
    TokenOfPlainCore(al);
    TokenOfPlainCore(so4);
    assert parts == [al] + [so4];
    FormatFormulaAppend([al], [so4]);
    FormatFormulaSingle(al);
    FormatFormulaSingle(so4);
    CoreToHtmlNoDigits("Al");
    CoreToHtmlExamples();
    assert NatToString(2) == "2" && NatToString(3) == "3";
  }

  lemma ExampleLiterals()
    ensures NoDigits("Al")
    ensures forall i :: 0 <= i < |"Al"| ==> IsAlnum("Al"[i])
    ensures forall i :: 0 <= i < |"SO4"| ==> IsAlnum("SO4"[i])
    ensures "Al" + ("<sub>" + "2" + "</sub>") == "Al<sub>2</sub>"
    ensures "(" + "SO<sub>4</sub>" + ")" + ("<sub>" + "3" + "</sub>") == "(SO<sub>4</sub>)<sub>3</sub>"
  {
  }
}

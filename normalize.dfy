/** `normalizeName` of src/utils/naming.js: the normal form in which answers
    and expected names are compared. */
module Normalize {
  import opened JsText

  /** The leading characters outside `[a-z0-9]` removed. */
  function DropNonAlnum(s: string): (r: string)
    ensures |r| <= |s|
    ensures r == [] || IsLowerAlnum(r[0])
    decreases |s|
  {
    if s != [] && !IsLowerAlnum(s[0]) then DropNonAlnum(s[1..]) else s
  }

  /** `DropNonAlnum` keeps a suffix and drops only characters outside
      `[a-z0-9]`. */
  lemma {:induction false} DropNonAlnumDropped(s: string)
    ensures DropNonAlnum(s) == s[|s| - |DropNonAlnum(s)|..]
    ensures forall i :: 0 <= i < |s| - |DropNonAlnum(s)| ==> !IsLowerAlnum(s[i])
    decreases |s|
  {
    if s != [] && !IsLowerAlnum(s[0]) {
      DropNonAlnumDropped(s[1..]);
      var r := DropNonAlnum(s[1..]);
      assert s[1..][|s| - 1 - |r|..] == s[|s| - |r|..];
      assert forall i :: 1 <= i < |s| ==> s[i] == s[1..][i - 1];
    }
  }

  /** `replace(/[^a-z0-9]+/g, ' ')`: each maximal run of characters outside
      `[a-z0-9]` becomes a single space. */
  function CollapseNonAlnum(s: string): (r: string)
    ensures s == [] <==> r == []
    ensures s != [] ==> r[0] == if IsLowerAlnum(s[0]) then s[0] else ' '
    decreases |s|
  {
    if s == [] then []
    else if IsLowerAlnum(s[0]) then [s[0]] + CollapseNonAlnum(s[1..])
    else [' '] + CollapseNonAlnum(DropNonAlnum(s[1..]))
  }

  /** Only `[a-z0-9]` and spaces, and never two spaces in a row. */
  predicate WordsAndSpaces(r: string) {
    && (forall i :: 0 <= i < |r| ==> IsLowerAlnum(r[i]) || r[i] == ' ')
    && (forall i :: 0 <= i < |r| - 1 && r[i] == ' ' ==> r[i + 1] != ' ')
  }

  /** The collapsed text is words of `[a-z0-9]` and single spaces. */
  lemma {:induction false} CollapseNonAlnumShape(s: string)
    ensures WordsAndSpaces(CollapseNonAlnum(s))
    decreases |s|
  {
    if s != [] {
      var t := if IsLowerAlnum(s[0]) then s[1..] else DropNonAlnum(s[1..]);
      var rest := CollapseNonAlnum(t);
      CollapseNonAlnumShape(t);
      var r := CollapseNonAlnum(s);
      assert r == [r[0]] + rest;
      assert forall i :: 1 <= i < |r| ==> r[i] == rest[i - 1];
    }
  }

  /** No character of `s` is in `[a-z0-9]`. */
  predicate NoLowerAlnum(s: string) {
    forall i :: 0 <= i < |s| ==> !IsLowerAlnum(s[i])
  }

  /** A gap without letters or digits in front of a text that starts with
      one is dropped entirely. */
  lemma {:induction false} DropNonAlnumGap(g: string, b: string)
    requires NoLowerAlnum(g)
    requires b == [] || IsLowerAlnum(b[0])
    ensures DropNonAlnum(g + b) == b
    decreases |g|
  {
    if g == [] {
      assert g + b == b;
    } else {
      assert (g + b)[0] == g[0] && (g + b)[1..] == g[1..] + b;
      assert NoLowerAlnum(g[1..]) by {
        assert forall i :: 0 <= i < |g| - 1 ==> g[1..][i] == g[i + 1];
      }
      DropNonAlnumGap(g[1..], b);
    }
  }

  /** Once a letter or digit has been reached, the rest is kept as it is. */
  lemma {:induction false} DropNonAlnumAppend(x: string, y: string)
    requires x != [] && IsLowerAlnum(x[|x| - 1])
    ensures DropNonAlnum(x + y) == DropNonAlnum(x) + y
    decreases |x|
  {
    if !IsLowerAlnum(x[0]) {
      assert (x + y)[0] == x[0] && (x + y)[1..] == x[1..] + y;
      DropNonAlnumAppend(x[1..], y);
    } else {
      assert (x + y)[0] == x[0];
    }
  }

  lemma CollapseConsAlnum(c: char, t: string)
    requires IsLowerAlnum(c)
    ensures CollapseNonAlnum([c] + t) == [c] + CollapseNonAlnum(t)
  {
    assert ([c] + t)[0] == c && ([c] + t)[1..] == t;
  }

  lemma CollapseConsGap(c: char, t: string)
    requires !IsLowerAlnum(c)
    ensures CollapseNonAlnum([c] + t) == [' '] + CollapseNonAlnum(DropNonAlnum(t))
  {
    assert ([c] + t)[0] == c && ([c] + t)[1..] == t;
  }

  /** A gap in front of a word (or of nothing) becomes one space. */
  lemma CollapseGapThen(m: string, b: string)
    requires m != [] && NoLowerAlnum(m)
    requires b == [] || IsLowerAlnum(b[0])
    ensures CollapseNonAlnum(m + b) == " " + CollapseNonAlnum(b)
  {
    assert m + b == [m[0]] + (m[1..] + b);
    assert NoLowerAlnum(m[1..]) by {
      assert forall i :: 0 <= i < |m| - 1 ==> m[1..][i] == m[i + 1];
    }
    CollapseConsGap(m[0], m[1..] + b);
    DropNonAlnumGap(m[1..], b);
  }

  lemma Regroup<T>(p: seq<T>, x: seq<T>, q: seq<T>, y: seq<T>)
    ensures p + (x + q + y) == (p + x) + q + y
  {
  }

  /** A run of characters outside `[a-z0-9]` between two words becomes
      exactly one space, and the words on either side are collapsed on their
      own. */
  lemma {:induction false} CollapseSeparator(a: string, m: string, b: string)
    requires a != [] && IsLowerAlnum(a[|a| - 1])
    requires m != [] && NoLowerAlnum(m)
    requires b == [] || IsLowerAlnum(b[0])
    ensures CollapseNonAlnum(a + (m + b)) == CollapseNonAlnum(a) + " " + CollapseNonAlnum(b)
    decreases |a|, 1
  {
    var t := m + b;
    var c, r := a[0], a[1..];
    if IsLowerAlnum(c) {
      assert (a + t)[0] == c && (a + t)[1..] == r + t;
      var x, y := CollapseNonAlnum(r), CollapseNonAlnum(b);
      if r == [] {
        assert r + t == t;
        CollapseGapThen(m, b);
      } else {
        CollapseSeparator(r, m, b);
      }
      calc {
        CollapseNonAlnum(a + t);
        [c] + CollapseNonAlnum(r + t);
        [c] + (x + " " + y);
        { Regroup([c], x, " ", y); }
        ([c] + x) + " " + y;
        CollapseNonAlnum(a) + " " + y;
      }
    } else {
      CollapseSeparatorGap(a, m, b);
    }
  }

  /** `CollapseSeparator` when the first word starts with a gap. */
  lemma {:induction false} CollapseSeparatorGap(a: string, m: string, b: string)
    requires a != [] && IsLowerAlnum(a[|a| - 1]) && !IsLowerAlnum(a[0])
    requires m != [] && NoLowerAlnum(m)
    requires b == [] || IsLowerAlnum(b[0])
    ensures CollapseNonAlnum(a + (m + b)) == CollapseNonAlnum(a) + " " + CollapseNonAlnum(b)
    decreases |a|, 0
  {
    var t := m + b;
    var r := a[1..];
    assert (a + t)[0] == a[0] && (a + t)[1..] == r + t;
    assert r != [] && r[|r| - 1] == a[|a| - 1];
    var d := DropNonAlnum(r);
    DropNonAlnumDropped(r);
    assert d != [] && d[|d| - 1] == r[|r| - 1];
    var x, y := CollapseNonAlnum(d), CollapseNonAlnum(b);
    calc {
      CollapseNonAlnum(a + t);
      " " + CollapseNonAlnum(DropNonAlnum(r + t));
      { DropNonAlnumAppend(r, t); }
      " " + CollapseNonAlnum(d + t);
      { CollapseSeparator(d, m, b); }
      " " + (x + " " + y);
      { Regroup(" ", x, " ", y); }
      (" " + x) + " " + y;
      { assert CollapseNonAlnum(a) == " " + x; }
      CollapseNonAlnum(a) + " " + y;
    }
  }

  /** `normalizeName`: lower case, every run of other characters one space,
      no space at either end. */
  function NormalizeName(s: string): string {
    Trim(CollapseNonAlnum(Lower(s)))
  }

  /** Words of `[a-z0-9]` separated by single spaces. */
  predicate Normalized(s: string) {
    WordsAndSpaces(s) && (s == [] || (s[0] != ' ' && s[|s| - 1] != ' '))
  }

  /** The characters of `[a-z0-9]` in `s`, in order. */
  function AlnumOf(s: string): string
    decreases |s|
  {
    if s == [] then [] else (if IsLowerAlnum(s[0]) then [s[0]] else []) + AlnumOf(s[1..])
  }

  lemma {:induction false} AlnumOfAppend(a: string, b: string)
    ensures AlnumOf(a + b) == AlnumOf(a) + AlnumOf(b)
    decreases |a|
  {
    if a != [] {
      var head := if IsLowerAlnum(a[0]) then [a[0]] else [];
      calc {
        AlnumOf(a + b);
        { assert (a + b)[0] == a[0] && (a + b)[1..] == a[1..] + b; }
        head + AlnumOf(a[1..] + b);
        { AlnumOfAppend(a[1..], b); }
        head + (AlnumOf(a[1..]) + AlnumOf(b));
        AlnumOf(a) + AlnumOf(b);
      }
    } else {
      assert a + b == b;
    }
  }

  lemma AlnumOfThree(a: string, b: string, c: string)
    ensures AlnumOf(a + b + c) == AlnumOf(a) + AlnumOf(b) + AlnumOf(c)
  {
    AlnumOfAppend(a + b, c);
    AlnumOfAppend(a, b);
  }

  lemma {:induction false} AlnumOfNone(s: string)
    ensures AlnumOf(s) == [] <==> forall i :: 0 <= i < |s| ==> !IsLowerAlnum(s[i])
    decreases |s|
  {
    if s != [] {
      AlnumOfNone(s[1..]);
      assert forall i :: 1 <= i < |s| ==> s[i] == s[1..][i - 1];
    }
  }

  lemma {:induction false} AlnumOfCollapse(s: string)
    ensures AlnumOf(CollapseNonAlnum(s)) == AlnumOf(s)
    decreases |s|
  {
    if s != [] {
      if IsLowerAlnum(s[0]) {
        AlnumOfCollapse(s[1..]);
        assert ([s[0]] + CollapseNonAlnum(s[1..]))[1..] == CollapseNonAlnum(s[1..]);
      } else {
        var d := DropNonAlnum(s[1..]);
        AlnumOfCollapse(d);
        assert ([' '] + CollapseNonAlnum(d))[1..] == CollapseNonAlnum(d);
        DropNonAlnumDropped(s[1..]);
        var gap := s[1..][..|s| - 1 - |d|];
        assert s[1..] == gap + d;
        AlnumOfAppend(gap, d);
        AlnumOfNone(gap);
      }
    }
  }

  lemma SpacesHaveNoAlnum(s: string)
    requires forall i :: 0 <= i < |s| ==> IsSpace(s[i])
    ensures AlnumOf(s) == []
  {
    AlnumOfNone(s);
  }

  /** Normalising keeps every letter and digit of the lower-cased text, in order. */
  lemma NormalizeNameKeepsAlnum(s: string)
    ensures AlnumOf(NormalizeName(s)) == AlnumOf(Lower(s))
  {
    AlnumOfTrim(CollapseNonAlnum(Lower(s)));
    AlnumOfCollapse(Lower(s));
  }

  /** Trimming drops only whitespace, which is outside `[a-z0-9]`. */
  lemma AlnumOfTrim(s: string)
    ensures AlnumOf(Trim(s)) == AlnumOf(s)
  {
    var r := Trim(s);
    var lo := TrimIsSlice(s);
    var lead, trail := s[..lo], s[lo + |r|..];
    assert s == lead + r + trail by {
      assert s[..lo + |r|] == lead + r;
      assert s == s[..lo + |r|] + trail;
    }
    SpacesHaveNoAlnum(lead);
    SpacesHaveNoAlnum(trail);
    AlnumOfThree(lead, r, trail);
  }

  lemma LowerAlnumNotSpace(c: char)
    requires IsLowerAlnum(c)
    ensures !IsSpace(c)
  {
  }

  /** A text that starts and ends with a letter or digit is its own trim. */
  lemma TrimAlnumEnds(s: string)
    requires s == [] || (IsLowerAlnum(s[0]) && IsLowerAlnum(s[|s| - 1]))
    ensures Trim(s) == s
  {
  }

  /** Trimming a text made of words and single spaces leaves a normalised one. */
  lemma TrimNormalized(c: string)
    requires WordsAndSpaces(c)
    ensures Normalized(Trim(c))
  {
    var r := Trim(c);
    var lo := TrimIsSlice(c);
    assert forall i :: 0 <= i < |r| ==> r[i] == c[lo + i];
  }

  /** Whatever the input, the result is words separated by single spaces. */
  lemma NormalizeNameNormalized(s: string)
    ensures Normalized(NormalizeName(s))
  {
    var c := CollapseNonAlnum(Lower(s));
    CollapseNonAlnumShape(Lower(s));
    TrimNormalized(c);
  }

  lemma {:induction false} CollapseFixed(s: string)
    requires forall i :: 0 <= i < |s| ==> IsLowerAlnum(s[i]) || s[i] == ' '
    requires forall i :: 0 <= i < |s| - 1 && s[i] == ' ' ==> s[i + 1] != ' '
    ensures CollapseNonAlnum(s) == s
    decreases |s|
  {
    if s != [] {
      assert forall i :: 0 <= i < |s| - 1 ==> s[1..][i] == s[i + 1];
      CollapseFixed(s[1..]);
      if !IsLowerAlnum(s[0]) {
        assert DropNonAlnum(s[1..]) == s[1..];
      }
    }
  }

  /** Lower-casing letters and digits gives `[a-z0-9]`. */
  lemma LowerWord(a: string)
    requires forall i :: 0 <= i < |a| ==> IsAlnum(a[i])
    ensures forall i :: 0 <= i < |a| ==> IsLowerAlnum(Lower(a)[i])
  {
  }

  /** Lower-casing leaves characters outside `[A-Za-z0-9]` outside `[a-z0-9]`. */
  lemma LowerGap(m: string)
    requires forall i :: 0 <= i < |m| ==> !IsAlnum(m[i])
    ensures NoLowerAlnum(Lower(m))
  {
  }

  lemma LowerFour(a: string, m: string, b: string, z: string)
    ensures Lower(a + (m + (b + z))) == Lower(a) + (Lower(m) + (Lower(b) + Lower(z)))
  {
    LowerAppend(b, z);
    LowerAppend(m, b + z);
    LowerAppend(a, m + (b + z));
  }

  /** The collapsing and trimming steps on two lower-case words with a gap
      between them and a gap after them. */
  lemma CollapseTwoWords(a: string, m: string, b: string, z: string)
    requires a != [] && forall i :: 0 <= i < |a| ==> IsLowerAlnum(a[i])
    requires b != [] && forall i :: 0 <= i < |b| ==> IsLowerAlnum(b[i])
    requires m != [] && NoLowerAlnum(m) && NoLowerAlnum(z)
    ensures Trim(CollapseNonAlnum(a + (m + (b + z)))) == a + " " + b
  {
    CollapseFixed(a);
    CollapseFixed(b);
    var w := a + " " + b;
    assert w[0] == a[0] && w[|w| - 1] == b[|b| - 1];
    var c := CollapseNonAlnum(a + (m + (b + z)));
    if z == [] {
      assert b + z == b;
      CollapseSeparator(a, m, b);
      assert c == w;
      TrimAlnumEnds(w);
    } else {
      var cb := CollapseNonAlnum(b + z);
      CollapseSeparator(a, m, b + z);
      assert c == a + " " + cb;
      assert b + z == b + (z + []);
      CollapseSeparator(b, z, []);
      assert cb == b + " ";
      Assoc(a + " ", b, " ");
      assert c == w + " ";
      LowerAlnumNotSpace(w[0]);
      LowerAlnumNotSpace(w[|w| - 1]);
      TrimTrailingSpace(w);
    }
  }

  /** Two words of letters and digits, separated by any run of other
      characters and followed by any such run, normalise to the two
      lower-cased words and one space between them. */
  lemma NormalizeTwoWords(a: string, m: string, b: string, z: string)
    requires a != [] && forall i :: 0 <= i < |a| ==> IsAlnum(a[i])
    requires b != [] && forall i :: 0 <= i < |b| ==> IsAlnum(b[i])
    requires m != [] && forall i :: 0 <= i < |m| ==> !IsAlnum(m[i])
    requires forall i :: 0 <= i < |z| ==> !IsAlnum(z[i])
    ensures NormalizeName(a + m + b + z) == Lower(a) + " " + Lower(b)
  {
    assert a + m + b + z == a + (m + (b + z));
    LowerFour(a, m, b, z);
    LowerWord(a);
    LowerWord(b);
    LowerGap(m);
    LowerGap(z);
    CollapseTwoWords(Lower(a), Lower(m), Lower(b), Lower(z));
  }

  /** The lower-case forms of the example words. */
  lemma ExampleWords()
    ensures Lower("Sodium") == "sodium" && Lower("SODIUM") == "sodium" && Lower("sodium") == "sodium"
    ensures Lower("Chloride") == "chloride" && Lower("CHLORIDE") == "chloride" && Lower("chloride") == "chloride"
  {
  }

  /** Answers that differ from the expected name only in case, punctuation
      and spacing normalise to the same text. */
  lemma NormalizeNameExamples(s: string)
    requires s in ["Sodium   Chloride!", "sodium-chloride", "SODIUM CHLORIDE"]
    ensures NormalizeName(s) == "sodium chloride"
  {
    ExampleSplits();
    ExampleWords();
    if s == "Sodium   Chloride!" {
      SplitExample(s, "Sodium", "   ", "Chloride", "!");
    } else if s == "sodium-chloride" {
      SplitExample(s, "sodium", "-", "chloride", "");
    } else {
      SplitExample(s, "SODIUM", " ", "CHLORIDE", "");
    }
  }

  /** How the example answers divide into words and gaps. */
  lemma ExampleSplits()
    ensures "Sodium   Chloride!" == "Sodium" + "   " + "Chloride" + "!"
    ensures "sodium-chloride" == "sodium" + "-" + "chloride" + ""
    ensures "SODIUM CHLORIDE" == "SODIUM" + " " + "CHLORIDE" + ""
    ensures "sodium" + " " + "chloride" == "sodium chloride"
  {
  }

  /** An answer made of two words, a gap between them and a gap after them. */
  lemma SplitExample(s: string, a: string, m: string, b: string, z: string)
    requires s == a + m + b + z
    requires a != [] && forall i :: 0 <= i < |a| ==> IsAlnum(a[i])
    requires b != [] && forall i :: 0 <= i < |b| ==> IsAlnum(b[i])
    requires m != [] && forall i :: 0 <= i < |m| ==> !IsAlnum(m[i])
    requires forall i :: 0 <= i < |z| ==> !IsAlnum(z[i])
    ensures NormalizeName(s) == Lower(a) + " " + Lower(b)
  {
    NormalizeTwoWords(a, m, b, z);
  }

  lemma LowerFixed(s: string)
    requires forall i :: 0 <= i < |s| ==> !IsUpper(s[i])
    ensures Lower(s) == s
  {
  }

  /** A normalised name is its own normal form, so normalising twice is
      normalising once. */
  lemma NormalizedFixed(s: string)
    requires Normalized(s)
    ensures NormalizeName(s) == s
  {
    calc {
      NormalizeName(s);
      Trim(CollapseNonAlnum(Lower(s)));
      { LowerFixed(s); }
      Trim(CollapseNonAlnum(s));
      { CollapseFixed(s); }
      Trim(s);
      { TrimAlnumEnds(s); }
      s;
    }
  }

  lemma NormalizeNameIdempotent(s: string)
    ensures NormalizeName(NormalizeName(s)) == NormalizeName(s)
  {
    NormalizeNameNormalized(s);
    NormalizedFixed(NormalizeName(s));
  }

  /** The normal form is empty exactly when the text holds no ASCII letter or digit. */
  lemma NormalizeNameEmpty(s: string)
    ensures NormalizeName(s) == [] <==> AlnumOf(Lower(s)) == []
  {
    var r := NormalizeName(s);
    NormalizeNameKeepsAlnum(s);
    NormalizeNameNormalized(s);
    AlnumOfNone(r);
    if r != [] && AlnumOf(r) == [] {
      assert false;
    }
  }
}

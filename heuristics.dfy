/** The classification heuristics of src/utils/naming.js: whether a covalent
    formula is one of the common classroom ratios, and whether a list of parts
    is ionic or covalent. */
module Heuristics {
  import opened JsText
  import opened Data

  /* ================= Common covalent ratios ================= */

  /** The formulas the classroom heuristic treats as common covalent
      compounds, in the order they are listed. */
  const CommonFormulas: seq<string> := [
    "H2O", "NH3", "CO", "CO2", "NO", "NO2", "N2O", "N2O4", "SO2", "SO3", "CH4", "CCl4", "OF2", "SF6",
    "HF", "HCl", "HBr", "HI", "PCl3", "PCl5", "P4", "S8", "O2", "N2", "F2", "Cl2", "Br2", "I2"
  ]

  /** The set built from that list. */
  const CommonCovalent: set<string> := set f | f in CommonFormulas

  /** A symbol and its count, a missing or zero count read as 1. */
  datatype Entry = Entry(sym: string, n: nat)

  function EntryOf(p: Part): (e: Entry)
    ensures e.sym == p.symbol && e.n >= 1
    ensures p.count > 0 ==> e.n == p.count
  {
    Entry(p.symbol, if p.count == 0 then 1 else p.count)
  }

  function Entries(parts: seq<Part>): (es: seq<Entry>)
    ensures |es| == |parts|
    ensures forall i :: 0 <= i < |parts| ==> es[i] == EntryOf(parts[i])
  {
    seq(|parts|, i requires 0 <= i < |parts| => EntryOf(parts[i]))
  }

  /** Ordinal (code-point) order on strings: `a` is a prefix of `b`, or the
      first difference has the smaller character in `a`. */
  predicate StrLe(a: string, b: string)
    decreases |a|
  {
    a == [] || (b != [] && (a[0] < b[0] || (a[0] == b[0] && StrLe(a[1..], b[1..]))))
  }

  lemma {:induction false} StrLeTotal(a: string, b: string)
    ensures StrLe(a, b) || StrLe(b, a)
    decreases |a|
  {
    if a != [] && b != [] && a[0] == b[0] {
      StrLeTotal(a[1..], b[1..]);
    }
  }

  lemma {:induction false} StrLeTrans(a: string, b: string, c: string)
    requires StrLe(a, b) && StrLe(b, c)
    ensures StrLe(a, c)
    decreases |a|
  {
    if a != [] && a[0] == b[0] && b[0] == c[0] {
      StrLeTrans(a[1..], b[1..], c[1..]);
    }
  }

  lemma {:induction false} StrLeAntisym(a: string, b: string)
    requires StrLe(a, b) && StrLe(b, a)
    ensures a == b
    decreases |a|
  {
    if a != [] {
      StrLeAntisym(a[1..], b[1..]);
      assert a == [a[0]] + a[1..] && b == [b[0]] + b[1..];
    }
  }

  /** Inserts `x` after every entry whose symbol is not above its own, as
      one step of a stable insertion sort. */
  function InsertStable(t: seq<Entry>, x: Entry): (r: seq<Entry>)
    ensures |r| == |t| + 1
    ensures multiset(r) == multiset(t) + multiset{x}
    decreases |t|
  {
    if t == [] || StrLe(t[|t| - 1].sym, x.sym) then t + [x]
    else
      var init := t[..|t| - 1];
      assert t == init + [t[|t| - 1]];
      InsertStable(init, x) + [t[|t| - 1]]
  }

  /** `copy.sort((a, b) => a.sym.localeCompare(b.sym))` with ordinal order:
      the stable sort by symbol. */
  function SortBySymbol(s: seq<Entry>): (r: seq<Entry>)
    ensures |r| == |s|
    ensures multiset(r) == multiset(s)
    decreases |s|
  {
    if s == [] then []
    else
      assert s == s[..|s| - 1] + [s[|s| - 1]];
      InsertStable(SortBySymbol(s[..|s| - 1]), s[|s| - 1])
  }

  predicate SortedBySymbol(s: seq<Entry>) {
    forall i, j :: 0 <= i < j < |s| ==> StrLe(s[i].sym, s[j].sym)
  }

  /** Sorting one more entry of `s` is inserting it into the sorted prefix. */
  lemma SortPrefixStep(s: seq<Entry>, i: nat)
    requires i < |s|
    ensures SortBySymbol(s[..i + 1]) == InsertStable(SortBySymbol(s[..i]), s[i])
  {
    assert s[..i + 1][..i] == s[..i];
  }

  /** Sorted with no two equal symbols. */
  predicate StrictlySorted(s: seq<Entry>) {
    forall i, j :: 0 <= i < j < |s| ==> !StrLe(s[j].sym, s[i].sym)
  }

  predicate DistinctSymbols(s: seq<Entry>) {
    forall i, j :: 0 <= i < j < |s| ==> s[i].sym != s[j].sym
  }

  lemma {:induction false} InsertStableSorted(t: seq<Entry>, x: Entry)
    requires SortedBySymbol(t)
    ensures SortedBySymbol(InsertStable(t, x))
    decreases |t|
  {
    var r := InsertStable(t, x);
    if t == [] {
    } else if StrLe(t[|t| - 1].sym, x.sym) {
      forall i | 0 <= i < |t| ensures StrLe(t[i].sym, x.sym) {
        if i < |t| - 1 {
          StrLeTrans(t[i].sym, t[|t| - 1].sym, x.sym);
        }
      }
    } else {
      var init, last := t[..|t| - 1], t[|t| - 1];
      InsertStableSorted(init, x);
      var m := InsertStable(init, x);
      StrLeTotal(last.sym, x.sym);
      forall e: Entry | e in multiset(m) ensures StrLe(e.sym, last.sym) {
        assert e in multiset(init) || e == x;
        if e in multiset(init) {
          var k :| 0 <= k < |init| && init[k] == e;
          assert t[k] == e;
        }
      }
      forall i, j | 0 <= i < j < |r| ensures StrLe(r[i].sym, r[j].sym) {
        if j == |r| - 1 {
          assert r[i] == m[i] && m[i] in multiset(m);
        } else {
          assert r[i] == m[i] && r[j] == m[j];
        }
      }
    }
  }

  lemma {:induction false} SortBySymbolSorted(s: seq<Entry>)
    ensures SortedBySymbol(SortBySymbol(s))
    decreases |s|
  {
    if s != [] {
      SortBySymbolSorted(s[..|s| - 1]);
      InsertStableSorted(SortBySymbol(s[..|s| - 1]), s[|s| - 1]);
    }
  }

  /** Inserting an entry with a new symbol into a strictly sorted sequence
      keeps it strictly sorted. */
  lemma {:induction false} InsertStableStrict(t: seq<Entry>, x: Entry)
    requires StrictlySorted(t)
    requires forall k :: 0 <= k < |t| ==> t[k].sym != x.sym
    ensures StrictlySorted(InsertStable(t, x))
    decreases |t|
  {
    var r := InsertStable(t, x);
    if t == [] {
    } else if StrLe(t[|t| - 1].sym, x.sym) {
      forall i | 0 <= i < |t| ensures !StrLe(x.sym, t[i].sym) {
        if StrLe(x.sym, t[i].sym) {
          if i < |t| - 1 {
            StrLeTotal(t[i].sym, t[|t| - 1].sym);
            StrLeTrans(x.sym, t[i].sym, t[|t| - 1].sym);
          }
          StrLeAntisym(x.sym, t[|t| - 1].sym);
        }
      }
    } else {
      var init, last := t[..|t| - 1], t[|t| - 1];
      InsertStableStrict(init, x);
      var m := InsertStable(init, x);
      forall e: Entry | e in multiset(m) ensures !StrLe(last.sym, e.sym) {
        if e in multiset(init) {
          var k :| 0 <= k < |init| && init[k] == e;
          assert t[k] == e;
        }
      }
      forall i, j | 0 <= i < j < |r| ensures !StrLe(r[j].sym, r[i].sym) {
        if j == |r| - 1 {
          assert r[i] == m[i] && m[i] in multiset(m);
        } else {
          assert r[i] == m[i] && r[j] == m[j];
        }
      }
    }
  }

  /** Sorting entries whose symbols are distinct gives a strictly sorted sequence. */
  lemma {:induction false} SortBySymbolStrict(s: seq<Entry>)
    requires DistinctSymbols(s)
    ensures StrictlySorted(SortBySymbol(s))
    decreases |s|
  {
    if s != [] {
      var init, x := s[..|s| - 1], s[|s| - 1];
      var t := SortBySymbol(init);
      SortBySymbolStrict(init);
      forall k | 0 <= k < |t| ensures t[k].sym != x.sym {
        assert t[k] in multiset(init);
        var p :| 0 <= p < |init| && init[p] == t[k];
        assert s[p] == t[k];
      }
      InsertStableStrict(t, x);
    }
  }

  /** Two strictly sorted sequences holding the same entries start alike. */
  lemma StrictlySortedSameHead(a: seq<Entry>, b: seq<Entry>)
    requires StrictlySorted(a) && StrictlySorted(b) && multiset(a) == multiset(b)
    requires a != []
    ensures b != [] && a[0] == b[0]
  {
    assert a[0] in multiset(b);
    var x, y := a[0], b[0];
    assert y in multiset(a);
    var k :| 0 <= k < |b| && b[k] == x;
    var m :| 0 <= m < |a| && a[m] == y;
    if k > 0 && m > 0 {
      StrLeTotal(x.sym, y.sym);
      assert false;
    }
  }

  /** Two strictly sorted sequences holding the same entries are equal. */
  lemma {:induction false} StrictlySortedUnique(a: seq<Entry>, b: seq<Entry>)
    requires StrictlySorted(a) && StrictlySorted(b) && multiset(a) == multiset(b)
    ensures a == b
    decreases |a|
  {
    if a == [] {
      assert |b| == |multiset(b)| == 0;
    } else {
      StrictlySortedSameHead(a, b);
      var x := a[0];
      assert a == [x] + a[1..] && b == [x] + b[1..];
      assert multiset(a[1..]) == multiset(a) - multiset{x};
      assert multiset(b[1..]) == multiset(b) - multiset{x};
      StrictlySortedTail(a);
      StrictlySortedTail(b);
      StrictlySortedUnique(a[1..], b[1..]);
    }
  }

  lemma StrictlySortedTail(a: seq<Entry>)
    requires StrictlySorted(a) && a != []
    ensures StrictlySorted(a[1..])
  {
    forall i, j | 0 <= i < j < |a| - 1
      ensures !StrLe(a[1..][j].sym, a[1..][i].sym)
    {
      assert a[1..][i] == a[i + 1] && a[1..][j] == a[j + 1];
    }
  }

  lemma EntriesAppend(p: seq<Part>, q: seq<Part>)
    ensures Entries(p + q) == Entries(p) + Entries(q)
  {
  }

  /** The entries of a rearranged part list are the same entries rearranged. */
  lemma {:induction false} EntriesPermutation(p: seq<Part>, q: seq<Part>)
    requires multiset(p) == multiset(q)
    ensures multiset(Entries(p)) == multiset(Entries(q))
    decreases |p|
  {
    if p != [] {
      var init, x := p[..|p| - 1], p[|p| - 1];
      assert p == init + [x];
      assert x in multiset(q);
      var k :| 0 <= k < |q| && q[k] == x;
      var rest := q[..k] + q[k + 1..];
      assert q == q[..k] + [x] + q[k + 1..];
      assert multiset(rest) == multiset(q) - multiset{x};
      assert multiset(init) == multiset(p) - multiset{x};
      EntriesPermutation(init, rest);
      EntriesAppend(init, [x]);
      EntriesAppend(q[..k] + [x], q[k + 1..]);
      EntriesAppend(q[..k], [x]);
      EntriesAppend(q[..k], q[k + 1..]);
    }
  }

  /** The lookup key of a list of entries: each symbol, followed by its count
      when the count is above 1. */
  function SymbolKey(s: seq<Entry>): string
    decreases |s|
  {
    if s == [] then ""
    else s[0].sym + (if s[0].n > 1 then NatToString(s[0].n) else "") + SymbolKey(s[1..])
  }

  /** The key is spelled entry by entry, so the key of a concatenation is the
      concatenation of the keys. */
  lemma {:induction false} SymbolKeyAppend(a: seq<Entry>, b: seq<Entry>)
    ensures SymbolKey(a + b) == SymbolKey(a) + SymbolKey(b)
    decreases |a|
  {
    if a == [] {
      assert a + b == b;
    } else {
      var head := a[0].sym + (if a[0].n > 1 then NatToString(a[0].n) else "");
      calc {
        SymbolKey(a + b);
        { assert (a + b)[0] == a[0] && (a + b)[1..] == a[1..] + b; }
        head + SymbolKey(a[1..] + b);
        { SymbolKeyAppend(a[1..], b); }
        head + (SymbolKey(a[1..]) + SymbolKey(b));
        { Assoc(head, SymbolKey(a[1..]), SymbolKey(b)); }
        head + SymbolKey(a[1..]) + SymbolKey(b);
      }
    }
  }

  /** Adding an entry above `x` at the end of `t` keeps `x`'s position. */
  lemma InsertStablePositionStep(t: seq<Entry>, j: nat, x: Entry)
    requires j < |t| && !StrLe(t[|t| - 1].sym, x.sym)
    requires InsertStable(t[..|t| - 1], x) == t[..j] + [x] + t[j..|t| - 1]
    ensures InsertStable(t, x) == t[..j] + [x] + t[j..]
  {
    calc {
      InsertStable(t, x);
      InsertStable(t[..|t| - 1], x) + [t[|t| - 1]];
      t[..j] + [x] + t[j..|t| - 1] + [t[|t| - 1]];
      t[..j] + [x] + (t[j..|t| - 1] + [t[|t| - 1]]);
      { assert t[j..|t| - 1] + [t[|t| - 1]] == t[j..]; }
      t[..j] + [x] + t[j..];
    }
  }

  /** `x` lands right after the last entry whose symbol is not above its own:
      every entry from `j` on is above it and the one before `j` is not. */
  lemma {:induction false} InsertStablePosition(t: seq<Entry>, j: nat, x: Entry)
    requires j <= |t|
    requires forall k :: j <= k < |t| ==> !StrLe(t[k].sym, x.sym)
    requires j == 0 || StrLe(t[j - 1].sym, x.sym)
    ensures InsertStable(t, x) == t[..j] + [x] + t[j..]
    decreases |t|
  {
    if j < |t| {
      var init := t[..|t| - 1];
      InsertStablePosition(init, j, x);
      assert init[..j] == t[..j] && init[j..] == t[j..|t| - 1];
      InsertStablePositionStep(t, j, x);
    } else {
      assert t[..j] == t && t[j..] == [];
    }
  }

  /** An array prefix holding `t[..j]`, then `x`, then `t[j..]` shifted one place. */
  lemma ShiftedInsert(b: seq<Entry>, t: seq<Entry>, j: nat, x: Entry)
    requires j <= |t| < |b| && b[j] == x
    requires forall k :: 0 <= k < j ==> b[k] == t[k]
    requires forall k :: j < k <= |t| ==> b[k] == t[k - 1]
    ensures b[..|t| + 1] == t[..j] + [x] + t[j..]
  {
  }

  /** The array after one insertion step, pointwise, against its contents `o`
      before it: the prefix up to `i` is the stable insertion and the rest is
      untouched. */
  lemma InsertAtResult(o: seq<Entry>, b: seq<Entry>, i: nat, j: nat)
    requires i < |o| == |b| && j <= i && b[j] == o[i]
    requires forall k :: 0 <= k < j ==> b[k] == o[k]
    requires forall k :: j < k <= i ==> b[k] == o[k - 1]
    requires forall k :: i < k < |b| ==> b[k] == o[k]
    requires forall k :: j <= k < i ==> !StrLe(o[k].sym, o[i].sym)
    requires j == 0 || StrLe(o[j - 1].sym, o[i].sym)
    ensures b[..i + 1] == InsertStable(o[..i], o[i])
    ensures b[i + 1..] == o[i + 1..]
  {
    InsertStablePosition(o[..i], j, o[i]);
    ShiftedInsert(b, o[..i], j, o[i]);
  }

  /** One step of the insertion sort: the entry at `i` moves left past every
      entry of the sorted prefix whose symbol is above its own. */
  method InsertAt(a: array<Entry>, i: nat)
    requires i < a.Length
    modifies a
    ensures a[..i + 1] == InsertStable(old(a[..i]), old(a[i]))
    ensures a[i + 1..] == old(a[i + 1..])
  {
    ghost var o := a[..];
    var x := a[i];
    var j := i;
    while j > 0 && !StrLe(a[j - 1].sym, x.sym)
      invariant 0 <= j <= i && x == o[i]
      invariant forall k :: 0 <= k < j ==> a[k] == o[k]
      invariant forall k :: j < k <= i ==> a[k] == o[k - 1]
      invariant forall k :: i < k < a.Length ==> a[k] == o[k]
      invariant forall k :: j <= k < i ==> !StrLe(o[k].sym, x.sym)
    {
      a[j] := a[j - 1];
      j := j - 1;
    }
    a[j] := x;
    InsertAtResult(o, a[..], i, j);
    assert o[..i] == old(a[..i]) && o[i + 1..] == old(a[i + 1..]);
  }

  /** The in-place stable insertion sort by symbol. */
  method SortInPlace(a: array<Entry>)
    modifies a
    ensures a[..] == SortBySymbol(old(a[..]))
  {
    ghost var es := a[..];
    var i := 0;
    while i < a.Length
      invariant 0 <= i <= a.Length
      invariant a[..i] == SortBySymbol(es[..i])
      invariant a[i..] == es[i..]
    {
      SortPrefixStep(es, i);
      assert a[i] == a[i..][0] == es[i];
      assert a[i + 1..] == a[i..][1..];
      InsertAt(a, i);
      i := i + 1;
    }
    assert a[..a.Length] == a[..] && es[..|es|] == es;
  }

  /** The lookup key `covalentLooksCommon` builds: the entries are copied to an
      array, sorted in place by symbol, and spelled out. */
  method SortedKey(parts: seq<Part>) returns (key: string)
    ensures key == SymbolKey(SortBySymbol(Entries(parts)))
  {
    var es := Entries(parts);
    var a := new Entry[|es|](i requires 0 <= i < |es| => es[i]);
    assert a[..] == es;
    SortInPlace(a);
    key := SymbolKey(a[..]);
  }

  /** `covalentLooksCommon`: the sorted key is looked up among the common
      formulas as they are written. */
  method CovalentLooksCommon(parts: seq<Part>) returns (common: bool)
    ensures common <==> SymbolKey(SortBySymbol(Entries(parts))) in CommonCovalent
  {
    var key := SortedKey(parts);
    common := key in CommonCovalent;
  }

  /** Rearranging parts with distinct symbols does not change the verdict,
      because they are sorted before the key is built. */
  lemma LooksCommonOrderIndependent(p: seq<Part>, q: seq<Part>)
    requires multiset(p) == multiset(q)
    requires DistinctSymbols(Entries(p)) && DistinctSymbols(Entries(q))
    ensures SortBySymbol(Entries(p)) == SortBySymbol(Entries(q))
  {
    EntriesPermutation(p, q);
    SortBySymbolStrict(Entries(p));
    SortBySymbolStrict(Entries(q));
    StrictlySortedUnique(SortBySymbol(Entries(p)), SortBySymbol(Entries(q)));
  }

  /** Ammonia as the builder passes it, nitrogen first: the sorted key is
      "H3N", which is not among the common formulas, although "NH3" is. */
  lemma AmmoniaNotCommon()
    ensures SymbolKey(SortBySymbol([Entry("N", 1), Entry("H", 3)])) == "H3N"
    ensures "H3N" !in CommonCovalent && "NH3" in CommonCovalent
  {
    AmmoniaSorted();
    var h, n := Entry("H", 3), Entry("N", 1);
    assert NatToString(3) == "3";
    assert SymbolKey([n]) == "N";
    assert [h, n][1..] == [n];
    assert SymbolKey([h, n]) == "H" + "3" + "N";
    AmmoniaKeys();
  }

  /** Sorting by symbol puts hydrogen before nitrogen. */
  lemma AmmoniaSorted()
    ensures SortBySymbol([Entry("N", 1), Entry("H", 3)]) == [Entry("H", 3), Entry("N", 1)]
  {
    var n, h := Entry("N", 1), Entry("H", 3);
    assert [n, h][..1] == [n] && [n][..0] == [];
    assert SortBySymbol([n]) == [n];
    assert !StrLe("N", "H");
    assert [n][..0] == [];
    assert InsertStable([n], h) == [h, n];
  }

  lemma AmmoniaKeys()
    ensures "H" + "3" + "N" == "H3N"
    ensures "H3N" !in CommonCovalent && "NH3" in CommonCovalent
  {
  }

  /** The common formulas as lists of entries, in the order they are written. */
  const CommonEntries: seq<seq<Entry>> := [
    [Entry("H", 2), Entry("O", 1)], [Entry("N", 1), Entry("H", 3)], [Entry("C", 1), Entry("O", 1)],
    [Entry("C", 1), Entry("O", 2)], [Entry("N", 1), Entry("O", 1)], [Entry("N", 1), Entry("O", 2)],
    [Entry("N", 2), Entry("O", 1)], [Entry("N", 2), Entry("O", 4)], [Entry("S", 1), Entry("O", 2)],
    [Entry("S", 1), Entry("O", 3)], [Entry("C", 1), Entry("H", 4)], [Entry("C", 1), Entry("Cl", 4)],
    [Entry("O", 1), Entry("F", 2)], [Entry("S", 1), Entry("F", 6)], [Entry("H", 1), Entry("F", 1)],
    [Entry("H", 1), Entry("Cl", 1)], [Entry("H", 1), Entry("Br", 1)], [Entry("H", 1), Entry("I", 1)],
    [Entry("P", 1), Entry("Cl", 3)], [Entry("P", 1), Entry("Cl", 5)], [Entry("P", 4)], [Entry("S", 8)],
    [Entry("O", 2)], [Entry("N", 2)], [Entry("F", 2)], [Entry("Cl", 2)], [Entry("Br", 2)], [Entry("I", 2)]
  ]

  /** Each entry list spells, symbol by symbol and count by count, the formula
      listed at the same position. */
  lemma CommonEntrySpelled(k: nat)
    requires k < |CommonEntries|
    ensures SymbolKey(CommonEntries[k]) == CommonFormulas[k]
  {
    if k < 7 { CommonSpelledA(k); }
    else if k < 14 { CommonSpelledB(k); }
    else if k < 21 { CommonSpelledC(k); }
    else { CommonSpelledD(k); }
  }

  /** Positions 0 to 6 of the list. */
  lemma CommonSpelledA(k: nat)
    requires 0 <= k < 7
    ensures SymbolKey(CommonEntries[k]) == CommonFormulas[k]
  {
    if k == 0 {
      assert CommonEntries[k] == [Entry("H", 2), Entry("O", 1)];
      SpellTwo("H", 2, "O", 1);
      assert CommonFormulas[k] == "H2O" == "H" + "2" + "O";
    } else if k == 1 {
      assert CommonEntries[k] == [Entry("N", 1), Entry("H", 3)];
      SpellTwo("N", 1, "H", 3);
      assert CommonFormulas[k] == "NH3" == "N" + "H" + "3";
    } else if k == 2 {
      assert CommonEntries[k] == [Entry("C", 1), Entry("O", 1)];
      SpellTwo("C", 1, "O", 1);
      assert CommonFormulas[k] == "CO" == "C" + "O";
    } else if k == 3 {
      assert CommonEntries[k] == [Entry("C", 1), Entry("O", 2)];
      SpellTwo("C", 1, "O", 2);
      assert CommonFormulas[k] == "CO2" == "C" + "O" + "2";
    } else if k == 4 {
      assert CommonEntries[k] == [Entry("N", 1), Entry("O", 1)];
      SpellTwo("N", 1, "O", 1);
      assert CommonFormulas[k] == "NO" == "N" + "O";
    } else if k == 5 {
      assert CommonEntries[k] == [Entry("N", 1), Entry("O", 2)];
      SpellTwo("N", 1, "O", 2);
      assert CommonFormulas[k] == "NO2" == "N" + "O" + "2";
    } else if k == 6 {
      assert CommonEntries[k] == [Entry("N", 2), Entry("O", 1)];
      SpellTwo("N", 2, "O", 1);
      assert CommonFormulas[k] == "N2O" == "N" + "2" + "O";
    }
  }

  /** Positions 7 to 13 of the list. */
  lemma CommonSpelledB(k: nat)
    requires 7 <= k < 14
    ensures SymbolKey(CommonEntries[k]) == CommonFormulas[k]
  {
    if k == 7 {
      assert CommonEntries[k] == [Entry("N", 2), Entry("O", 4)];
      SpellTwo("N", 2, "O", 4);
      assert CommonFormulas[k] == "N2O4" == "N" + "2" + "O" + "4";
    } else if k == 8 {
      assert CommonEntries[k] == [Entry("S", 1), Entry("O", 2)];
      SpellTwo("S", 1, "O", 2);
      assert CommonFormulas[k] == "SO2" == "S" + "O" + "2";
    } else if k == 9 {
      assert CommonEntries[k] == [Entry("S", 1), Entry("O", 3)];
      SpellTwo("S", 1, "O", 3);
      assert CommonFormulas[k] == "SO3" == "S" + "O" + "3";
    } else if k == 10 {
      assert CommonEntries[k] == [Entry("C", 1), Entry("H", 4)];
      SpellTwo("C", 1, "H", 4);
      assert CommonFormulas[k] == "CH4" == "C" + "H" + "4";
    } else if k == 11 {
      assert CommonEntries[k] == [Entry("C", 1), Entry("Cl", 4)];
      SpellTwo("C", 1, "Cl", 4);
      assert CommonFormulas[k] == "CCl4" == "C" + "Cl" + "4";
    } else if k == 12 {
      assert CommonEntries[k] == [Entry("O", 1), Entry("F", 2)];
      SpellTwo("O", 1, "F", 2);
      assert CommonFormulas[k] == "OF2" == "O" + "F" + "2";
    } else if k == 13 {
      assert CommonEntries[k] == [Entry("S", 1), Entry("F", 6)];
      SpellTwo("S", 1, "F", 6);
      assert CommonFormulas[k] == "SF6" == "S" + "F" + "6";
    }
  }

  /** Positions 14 to 20 of the list. */
  lemma CommonSpelledC(k: nat)
    requires 14 <= k < 21
    ensures SymbolKey(CommonEntries[k]) == CommonFormulas[k]
  {
    if k == 14 {
      assert CommonEntries[k] == [Entry("H", 1), Entry("F", 1)];
      SpellTwo("H", 1, "F", 1);
      assert CommonFormulas[k] == "HF" == "H" + "F";
    } else if k == 15 {
      assert CommonEntries[k] == [Entry("H", 1), Entry("Cl", 1)];
      SpellTwo("H", 1, "Cl", 1);
      assert CommonFormulas[k] == "HCl" == "H" + "Cl";
    } else if k == 16 {
      assert CommonEntries[k] == [Entry("H", 1), Entry("Br", 1)];
      SpellTwo("H", 1, "Br", 1);
      assert CommonFormulas[k] == "HBr" == "H" + "Br";
    } else if k == 17 {
      assert CommonEntries[k] == [Entry("H", 1), Entry("I", 1)];
      SpellTwo("H", 1, "I", 1);
      assert CommonFormulas[k] == "HI" == "H" + "I";
    } else if k == 18 {
      assert CommonEntries[k] == [Entry("P", 1), Entry("Cl", 3)];
      SpellTwo("P", 1, "Cl", 3);
      assert CommonFormulas[k] == "PCl3" == "P" + "Cl" + "3";
    } else if k == 19 {
      assert CommonEntries[k] == [Entry("P", 1), Entry("Cl", 5)];
      SpellTwo("P", 1, "Cl", 5);
      assert CommonFormulas[k] == "PCl5" == "P" + "Cl" + "5";
    } else if k == 20 {
      assert CommonEntries[k] == [Entry("P", 4)];
      SpellOne("P", 4);
      assert CommonFormulas[k] == "P4" == "P" + "4";
    }
  }

  /** Positions 21 to 27 of the list. */
  lemma CommonSpelledD(k: nat)
    requires 21 <= k < 28
    ensures SymbolKey(CommonEntries[k]) == CommonFormulas[k]
  {
    if k == 21 {
      assert CommonEntries[k] == [Entry("S", 8)];
      SpellOne("S", 8);
      assert CommonFormulas[k] == "S8" == "S" + "8";
    } else if k == 22 {
      assert CommonEntries[k] == [Entry("O", 2)];
      SpellOne("O", 2);
      assert CommonFormulas[k] == "O2" == "O" + "2";
    } else if k == 23 {
      assert CommonEntries[k] == [Entry("N", 2)];
      SpellOne("N", 2);
      assert CommonFormulas[k] == "N2" == "N" + "2";
    } else if k == 24 {
      assert CommonEntries[k] == [Entry("F", 2)];
      SpellOne("F", 2);
      assert CommonFormulas[k] == "F2" == "F" + "2";
    } else if k == 25 {
      assert CommonEntries[k] == [Entry("Cl", 2)];
      SpellOne("Cl", 2);
      assert CommonFormulas[k] == "Cl2" == "Cl" + "2";
    } else if k == 26 {
      assert CommonEntries[k] == [Entry("Br", 2)];
      SpellOne("Br", 2);
      assert CommonFormulas[k] == "Br2" == "Br" + "2";
    } else if k == 27 {
      assert CommonEntries[k] == [Entry("I", 2)];
      SpellOne("I", 2);
      assert CommonFormulas[k] == "I2" == "I" + "2";
    }
  }

  /** The text of a count in a key: nothing for 1, its digit up to 9. */
  function CountKey(n: nat): string
    requires 1 <= n < 10
  {
    if n > 1 then [DigitChar(n)] else ""
  }

  /** The key of one entry with a one-digit count. */
  lemma SpellOne(a: string, m: nat)
    requires 1 <= m < 10
    ensures SymbolKey([Entry(a, m)]) == a + CountKey(m)
  {
    EntryKey(Entry(a, m));
  }

  /** The key of two entries with one-digit counts. */
  lemma SpellTwo(a: string, m: nat, b: string, n: nat)
    requires 1 <= m < 10 && 1 <= n < 10
    ensures SymbolKey([Entry(a, m), Entry(b, n)]) == a + CountKey(m) + (b + CountKey(n))
  {
    PairKey(Entry(a, m), Entry(b, n));
    EntryKey(Entry(a, m));
    EntryKey(Entry(b, n));
  }

  /** The key of one entry: its symbol, then its count when above 1. */
  lemma EntryKey(e: Entry)
    ensures SymbolKey([e]) == e.sym + (if e.n > 1 then NatToString(e.n) else "")
  {
    assert [e][1..] == [];
  }

  /** The key of two entries is the two keys side by side. */
  lemma PairKey(a: Entry, b: Entry)
    ensures SymbolKey([a, b]) == SymbolKey([a]) + SymbolKey([b])
  {
    assert [a, b] == [a] + [b];
    SymbolKeyAppend([a], [b]);
  }

  /** The entry lists spell exactly the set of common formulas. */
  lemma CommonEntriesSpellCommon()
    ensures CommonCovalent == set i | 0 <= i < |CommonEntries| :: SymbolKey(CommonEntries[i])
  {
    var spelled := set i | 0 <= i < |CommonEntries| :: SymbolKey(CommonEntries[i]);
    forall f | f in CommonCovalent ensures f in spelled {
      var k :| 0 <= k < |CommonFormulas| && CommonFormulas[k] == f;
      CommonEntrySpelled(k);
    }
    forall f | f in spelled ensures f in CommonCovalent {
      var k :| 0 <= k < |CommonEntries| && SymbolKey(CommonEntries[k]) == f;
      CommonEntrySpelled(k);
    }
  }

  /** No common formula names an element twice. */
  lemma CommonEntriesDistinct(i: nat)
    requires i < |CommonEntries|
    ensures DistinctSymbols(CommonEntries[i])
  {
  }

  /** The keys of the common formulas once their entries are sorted the same
      way as the parts. */
  const CommonSortedKeys: set<string> :=
    set i | 0 <= i < |CommonEntries| :: SymbolKey(SortBySymbol(CommonEntries[i]))

  /** The heuristic as evidently intended: both sides sorted before they are
      compared. */
  method CovalentLooksCommonSorted(parts: seq<Part>) returns (common: bool)
    ensures common <==> SymbolKey(SortBySymbol(Entries(parts))) in CommonSortedKeys
  {
    var key := SortedKey(parts);
    common := key in CommonSortedKeys;
  }

  /** With both sides sorted, ammonia written nitrogen first is recognised. */
  lemma AmmoniaCommonSorted()
    ensures SymbolKey(SortBySymbol([Entry("N", 1), Entry("H", 3)])) in CommonSortedKeys
  {
    assert CommonEntries[1] == [Entry("N", 1), Entry("H", 3)];
  }

  /** With both sides sorted, every common formula is recognised whatever the
      order of its parts. */
  lemma CommonFormulaRecognised(i: nat, parts: seq<Part>)
    requires i < |CommonEntries|
    requires multiset(Entries(parts)) == multiset(CommonEntries[i])
    requires DistinctSymbols(Entries(parts))
    ensures SymbolKey(SortBySymbol(Entries(parts))) in CommonSortedKeys
  {
    var es, ce := Entries(parts), CommonEntries[i];
    CommonEntriesDistinct(i);
    SortBySymbolStrict(es);
    SortBySymbolStrict(ce);
    StrictlySortedUnique(SortBySymbol(es), SortBySymbol(ce));
  }

  /* ================= Ionic or covalent ================= */

  datatype Kind = Ionic | Covalent

  /** The lower-case text of a kind, as challenges carry it. */
  function KindName(k: Kind): string {
    match k
    case Ionic => "ionic"
    case Covalent => "covalent"
  }

  function Symbols(ions: seq<Ion>): (r: seq<string>)
    ensures |r| == |ions| && forall i :: 0 <= i < |ions| ==> r[i] == ions[i].symbol
  {
    seq(|ions|, i requires 0 <= i < |ions| => ions[i].symbol)
  }

  /** The symbols of every listed cation, then of every listed anion. */
  const IonSymbols: seq<string> := Symbols(Cations) + Symbols(Anions)

  /** `classifyFromParts`: ionic as soon as one part carries an ion's symbol. */
  function ClassifyFromParts(parts: seq<Part>): (k: Kind)
    ensures k == Ionic <==> exists i :: 0 <= i < |parts| && parts[i].symbol in IonSymbols
    decreases |parts|
  {
    if parts == [] then Covalent
    else if parts[0].symbol in IonSymbols then Ionic
    else
      var k := ClassifyFromParts(parts[1..]);
      assert forall i :: 1 <= i < |parts| ==> parts[i] == parts[1..][i - 1];
      k
  }

  predicate IsChargeSign(c: char) { c == '+' || c == '-' }

  /** A symbol that ends in a charge sign. */
  predicate Signed(sym: string) { |sym| > 0 && IsChargeSign(sym[|sym| - 1]) }

  lemma CationSigned(i: nat)
    requires i < |Cations|
    ensures Signed(Cations[i].symbol)
  {
  }

  lemma AnionSigned(i: nat)
    requires i < |Anions|
    ensures Signed(Anions[i].symbol)
  {
  }

  /** Every ion symbol ends in its charge sign. */
  lemma IonSymbolSigned(k: nat)
    requires k < |IonSymbols|
    ensures Signed(IonSymbols[k])
  {
    if k < |Cations| {
      CationSigned(k);
    } else {
      AnionSigned(k - |Cations|);
    }
  }

  /** No element symbol ends in a charge sign, so none is an ion symbol. */
  lemma NonmetalNotIon(j: nat)
    requires j < |Nonmetals|
    ensures Nonmetals[j].symbol !in IonSymbols
  {
    var sym := Nonmetals[j].symbol;
    assert !Signed(sym);
    forall k | 0 <= k < |IonSymbols|
      ensures IonSymbols[k] != sym
    {
      IonSymbolSigned(k);
    }
  }

  /** A formula built from nonmetal symbols alone classifies as covalent;
      `w[i]` names the nonmetal whose symbol part `i` carries. */
  lemma {:induction false} NonmetalsAreCovalent(parts: seq<Part>, w: seq<nat>)
    requires |w| == |parts|
    requires forall i :: 0 <= i < |parts| ==> w[i] < |Nonmetals| && parts[i].symbol == Nonmetals[w[i]].symbol
    ensures ClassifyFromParts(parts) == Covalent
    decreases |parts|
  {
    if parts != [] {
      NonmetalNotIon(w[0]);
      assert forall i :: 0 <= i < |parts| - 1 ==> parts[1..][i] == parts[i + 1] && w[1..][i] == w[i + 1];
      NonmetalsAreCovalent(parts[1..], w[1..]);
    }
  }

  /** A formula holding a listed cation or anion classifies as ionic; `j`
      counts through the cations and then the anions. */
  lemma IonPartIsIonic(parts: seq<Part>, i: nat, j: nat)
    requires i < |parts| && j < |Cations| + |Anions|
    requires parts[i].symbol == if j < |Cations| then Cations[j].symbol else Anions[j - |Cations|].symbol
    ensures ClassifyFromParts(parts) == Ionic
  {
    assert parts[i].symbol == IonSymbols[j];
  }
}

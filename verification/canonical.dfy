/** What `adjlist` writes, seen through `Shapes`: every line it renders is a well-shaped
    line in a fixed layout, `atoms` reads the whole text back as the table it came from,
    and the text is the rendered lines joined by newlines with one newline at the end. */
module Canonical {
  import opened Results
  import opened Text
  import opened Numerals
  import opened AdjList
  import opened Shapes
  import LineEdit

  /** An atom record whose fields survive being written out and read back: a label
      exactly when it carries `*`, single-word element and radical without separators,
      and bond-order tags without blanks or separators. */
  predicate CleanAtom(a: Atom) {
    && (a.atomLabel == NoLabel
        || (IsWord(a.atomLabel) && '*' in a.atomLabel && ',' !in a.atomLabel && '{' !in a.atomLabel))
    && PlainWord(a.element) && PlainWord(a.radical)
    && forall k :: k in a.bonds ==> CleanOrder(a.bonds[k])
  }

  /** A table `adjlist` can write out so that `atoms` reads the same table back:
      non-negative indices (a negative index can outgrow the index column) and clean
      atoms. */
  predicate CleanTable(t: Table) {
    && ValidTable(t)
    && forall k :: k in t.atoms ==> k >= 0 && CleanAtom(t.atoms[k])
  }

  // ---------------------------------------------------------------------------
  // One rendered line as a shaped line

  /** The segments `adjlist` writes for neighbours `ks`: one blank after each token but
      the last. */
  function CanonSegs(ks: seq<int>, bonds: map<int, string>): (r: seq<Seg>)
    requires forall i :: 0 <= i < |ks| ==> ks[i] in bonds
    ensures |r| == |ks|
    decreases |ks|
  {
    if ks == [] then []
    else [Seg(ks[0], bonds[ks[0]], if |ks| == 1 then "" else " ")] + CanonSegs(ks[1..], bonds)
  }

  lemma {:induction false} CanonSegAt(ks: seq<int>, bonds: map<int, string>, i: nat)
    requires forall j :: 0 <= j < |ks| ==> ks[j] in bonds
    requires i < |ks|
    ensures CanonSegs(ks, bonds)[i] == Seg(ks[i], bonds[ks[i]], if i == |ks| - 1 then "" else " ")
    decreases i
  {
    if i > 0 {
      CanonSegAt(ks[1..], bonds, i - 1);
    }
  }

  /** The shaped line of atom `a` at index `k` in an index column of `width`. */
  function CanonShape(k: int, a: Atom, width: int): Shaped
  {
    var idx := IntToString(k);
    var fill := if |idx| < width then Spaces(width - |idx|) else "";
    var ks := SortedKeys(a.bonds.Keys);
    Shaped(k, if a.atomLabel == NoLabel then fill + NoLabel else fill,
           if a.atomLabel == NoLabel then "" else a.atomLabel,
           a.element, a.radical, if ks == [] then "" else " ", CanonSegs(ks, a.bonds))
  }

  /** The bond part of a rendered line is a blank followed by the segments. */
  lemma {:induction false} BondsSegs(ks: seq<int>, bonds: map<int, string>)
    requires |ks| > 0 && forall i :: 0 <= i < |ks| ==> ks[i] in bonds
    ensures BondsText(ks, bonds) == " " + SegsText(CanonSegs(ks, bonds))
    decreases |ks|
  {
    var tok := LineEdit.BondToken(ks[0], bonds[ks[0]]);
    var s0 := Seg(ks[0], bonds[ks[0]], if |ks| == 1 then "" else " ");
    var segs := CanonSegs(ks, bonds);
    assert segs == [s0] + CanonSegs(ks[1..], bonds);
    assert segs[0] == s0 && segs[1..] == CanonSegs(ks[1..], bonds);
    var rest := SegsText(CanonSegs(ks[1..], bonds));
    assert SegsText(segs) == "{" + Piece(s0) + rest;
    SegOpen(s0, rest);
    assert BondsText(ks, bonds) == " " + tok + BondsText(ks[1..], bonds);
    if |ks| == 1 {
      assert rest == "" && BondsText(ks[1..], bonds) == "";
    } else {
      BondsSegs(ks[1..], bonds);
      ConcatAssoc(" ", tok, " " + rest);
    }
  }

  /** The text of a rendered line, regrouped from the right. */
  lemma RenderNested(k: int, a: Atom, width: int)
    ensures var idx := IntToString(k);
      var fill := if |idx| < width then Spaces(width - |idx|) else "";
      RenderLine(k, a, width) == idx + (fill + (a.atomLabel + (" " + (a.element + (" " + (a.radical
        + BondsText(SortedKeys(a.bonds.Keys), a.bonds)))))))
  {
    var idx := IntToString(k);
    var fill := if |idx| < width then Spaces(width - |idx|) else "";
    var x1, x2, x3, x4, x5, x6, x7, x8 :=
      idx, fill, a.atomLabel, " ", a.element, " ", a.radical, BondsText(SortedKeys(a.bonds.Keys), a.bonds);
    assert PadRight(idx, width) == x1 + x2;
    assert RenderLine(k, a, width) == x1 + x2 + x3 + x4 + x5 + x6 + x7 + x8;
    ConcatAssoc(x1 + x2 + x3 + x4 + x5 + x6, x7, x8);
    ConcatAssoc(x1 + x2 + x3 + x4 + x5, x6, x7 + x8);
    ConcatAssoc(x1 + x2 + x3 + x4, x5, x6 + (x7 + x8));
    ConcatAssoc(x1 + x2 + x3, x4, x5 + (x6 + (x7 + x8)));
    ConcatAssoc(x1 + x2, x3, x4 + (x5 + (x6 + (x7 + x8))));
    ConcatAssoc(x1, x2, x3 + (x4 + (x5 + (x6 + (x7 + x8)))));
  }

  /** `RenderLine` writes the text of `CanonShape`. */
  lemma RenderShaped(k: int, a: Atom, width: int)
    ensures RenderLine(k, a, width) == ShapedText(CanonShape(k, a, width))
  {
    var l := CanonShape(k, a, width);
    var idx := IntToString(k);
    var ks := SortedKeys(a.bonds.Keys);
    var fill := if |idx| < width then Spaces(width - |idx|) else "";
    var bt := BondsText(ks, a.bonds);
    if ks != [] {
      BondsSegs(ks, a.bonds);
    }
    assert bt == l.trail + SegsText(l.segs);
    RenderNested(k, a, width);
    TextNested(l);
    var y := " " + (a.element + (" " + (a.radical + bt)));
    assert RenderLine(k, a, width) == idx + (fill + (a.atomLabel + y));
    assert ShapedText(l) == idx + (l.pad + (l.atomLabel + y));
    if a.atomLabel == NoLabel {
      assert l.pad == fill + NoLabel && l.atomLabel == "";
      assert l.atomLabel + y == y;
      ConcatAssoc(fill, NoLabel, y);
    } else {
      assert l.pad == fill && l.atomLabel == a.atomLabel;
    }
  }

  /** The bond tokens of a rendered line (see `RenderShaped`) name each neighbour of the
      atom once, with its tag, in strictly ascending order of neighbour index. */
  lemma RenderedBondsSorted(k: int, a: Atom, width: int, segs: seq<Seg>)
    requires segs == CanonShape(k, a, width).segs
    ensures forall i, j :: 0 <= i < j < |segs| ==> segs[i].nbr < segs[j].nbr
    ensures forall i :: 0 <= i < |segs| ==> segs[i].nbr in a.bonds && segs[i].order == a.bonds[segs[i].nbr]
    ensures forall x :: x in a.bonds ==> exists i :: 0 <= i < |segs| && segs[i].nbr == x
  {
    var ks := SortedKeys(a.bonds.Keys);
    assert segs == CanonSegs(ks, a.bonds);
    SortedKeysOrder(a.bonds.Keys);
    forall i | 0 <= i < |segs| ensures segs[i].nbr == ks[i] && segs[i].order == a.bonds[ks[i]] {
      CanonSegAt(ks, a.bonds, i);
    }
    forall x | x in a.bonds ensures exists i :: 0 <= i < |segs| && segs[i].nbr == x {
      var i :| 0 <= i < |ks| && ks[i] == x;
      assert segs[i].nbr == x;
    }
  }

  /** Rendered segments carry clean tags and single blanks between them. */
  lemma CanonGood(ks: seq<int>, bonds: map<int, string>)
    requires forall i :: 0 <= i < |ks| ==> ks[i] in bonds && CleanOrder(bonds[ks[i]])
    ensures GoodSegs(CanonSegs(ks, bonds))
  {
    var segs := CanonSegs(ks, bonds);
    forall i | 0 <= i < |segs|
      ensures CleanOrder(segs[i].order) && Blank(segs[i].gap)
      ensures i < |segs| - 1 ==> |segs[i].gap| >= 1
    {
      CanonSegAt(ks, bonds, i);
    }
  }

  lemma CanonDistinct(ks: seq<int>, bonds: map<int, string>)
    requires forall i :: 0 <= i < |ks| ==> ks[i] in bonds
    requires Increasing(ks)
    ensures DistinctNbrs(CanonSegs(ks, bonds))
  {
    var segs := CanonSegs(ks, bonds);
    forall i, j | 0 <= i < j < |segs| ensures segs[i].nbr != segs[j].nbr {
      CanonSegAt(ks, bonds, i);
      CanonSegAt(ks, bonds, j);
    }
  }

  /** The blanks of a rendered line: the index column's fill, the empty label's
      blanks, and the one blank before the bonds. */
  lemma CanonBlank(k: int, a: Atom, width: int)
    ensures Blank(CanonShape(k, a, width).pad) && Blank(CanonShape(k, a, width).trail)
  {
    var idx := IntToString(k);
    var fill := if |idx| < width then Spaces(width - |idx|) else "";
    assert Blank(fill);
    assert Blank(NoLabel);
    BlankConcat(fill, NoLabel);
  }

  /** A rendered line is well shaped when the index column is wider than the index. */
  lemma CanonWellShaped(k: int, a: Atom, width: int)
    requires CleanAtom(a) && |IntToString(k)| < width
    ensures WellShaped(CanonShape(k, a, width))
  {
    var l := CanonShape(k, a, width);
    var ks := SortedKeys(a.bonds.Keys);
    SortedKeysOrder(a.bonds.Keys);
    CanonGood(ks, a.bonds);
    CanonDistinct(ks, a.bonds);
    CanonBlank(k, a, width);
    if a.atomLabel == NoLabel {
      assert l.atomLabel == "";
    } else {
      assert l.atomLabel == a.atomLabel && |l.pad| >= 1;
    }
  }

  /** The bonds `atoms` collects from rendered segments: those of the neighbours
      written, on top of what was collected before. */
  lemma {:induction false} CanonBonds(ks: seq<int>, bonds: map<int, string>, acc: map<int, string>)
    requires forall i :: 0 <= i < |ks| ==> ks[i] in bonds
    ensures var m := SegBonds(CanonSegs(ks, bonds), acc);
      && (forall x :: x in m <==> x in acc || x in ks)
      && (forall x :: x in m ==> m[x] == if x in ks then bonds[x] else acc[x])
    decreases |ks|
  {
    if ks != [] {
      var segs := CanonSegs(ks, bonds);
      assert segs[0].nbr == ks[0] && segs[0].order == bonds[ks[0]];
      assert segs[1..] == CanonSegs(ks[1..], bonds);
      var acc' := acc[ks[0] := bonds[ks[0]]];
      CanonBonds(ks[1..], bonds, acc');
      assert forall x :: x in ks <==> x == ks[0] || x in ks[1..];
    }
  }

  lemma MapsEqual<V>(m: map<int, V>, n: map<int, V>)
    requires forall x :: x in m <==> x in n
    requires forall x :: x in m ==> m[x] == n[x]
    ensures m == n
  {
    assert forall x :: x in m.Keys <==> x in n.Keys;
    assert m.Keys == n.Keys;
    assert forall x :: x in m.Keys ==> m[x] == n[x];
  }

  /** `atoms` reads a rendered line back as the atom it was rendered from. */
  lemma CanonAtom(k: int, a: Atom, width: int)
    requires CleanAtom(a)
    ensures AtomOf(CanonShape(k, a, width)) == a
  {
    var ks := SortedKeys(a.bonds.Keys);
    SortedKeysOrder(a.bonds.Keys);
    CanonBonds(ks, a.bonds, map[]);
    var m := SegBonds(CanonSegs(ks, a.bonds), map[]);
    MapsEqual(m, a.bonds);
  }

  /** `atoms` reads what `RenderLine` writes back as the index and the atom. */
  lemma RenderParses(k: int, a: Atom, width: int)
    requires CleanAtom(a) && |IntToString(k)| < width
    ensures ParseLine(RenderLine(k, a, width)) == Ok((k, a))
  {
    RenderShaped(k, a, width);
    CanonWellShaped(k, a, width);
    ShapedParses(CanonShape(k, a, width));
    CanonAtom(k, a, width);
  }

  // ---------------------------------------------------------------------------
  // The whole table

  /** The lines `adjlist` writes for the atoms `ks`, before they are joined. */
  function Rendered(ks: seq<int>, atoms: map<int, Atom>, width: int): (r: seq<string>)
    requires forall i :: 0 <= i < |ks| ==> ks[i] in atoms
    ensures |r| == |ks| && forall i :: 0 <= i < |ks| ==> r[i] == RenderLine(ks[i], atoms[ks[i]], width)
  {
    seq(|ks|, i requires 0 <= i < |ks| => RenderLine(ks[i], atoms[ks[i]], width))
  }

  /** The first rendered line, then the lines of the other keys. */
  lemma RenderedTail(ks: seq<int>, atoms: map<int, Atom>, width: int)
    requires |ks| > 0 && forall i :: 0 <= i < |ks| ==> ks[i] in atoms
    ensures Rendered(ks, atoms, width)[1..] == Rendered(ks[1..], atoms, width)
  {
    var rs, ts := Rendered(ks, atoms, width), Rendered(ks[1..], atoms, width);
    assert forall i :: 0 <= i < |ts| ==> rs[1..][i] == rs[i + 1] && ts[i] == RenderLine(ks[i + 1], atoms[ks[i + 1]], width);
  }

  /** One line per atom, in the table's key order. */
  function Lines(t: Table): (r: seq<string>)
    requires ValidTable(t) && |t.order| > 0
    ensures |r| == |t.order|
  {
    Rendered(t.order, t.atoms, Width(t))
  }

  lemma {:induction false} BodyJoin(ks: seq<int>, atoms: map<int, Atom>, width: int)
    requires |ks| > 0 && forall i :: 0 <= i < |ks| ==> ks[i] in atoms
    ensures Body(ks, atoms, width) == "\n" + Join(Rendered(ks, atoms, width), '\n')
    decreases |ks|
  {
    var rs := Rendered(ks, atoms, width);
    var line := RenderLine(ks[0], atoms[ks[0]], width);
    RenderedTail(ks, atoms, width);
    if |ks| > 1 {
      BodyJoin(ks[1..], atoms, width);
      var j := Join(rs[1..], '\n');
      assert Body(ks, atoms, width) == "\n" + line + ("\n" + j);
      assert Join(rs, '\n') == line + "\n" + j;
      ConcatAssoc("\n" + line, "\n", j);
      ConcatAssoc("\n", line, "\n" + j);
      ConcatAssoc("\n", line + "\n", j);
      ConcatAssoc(line, "\n", j);
    }
  }

  /** Text with a non-blank first and last character. */
  predicate Edged(s: string) {
    |s| > 0 && !IsSpace(s[0]) && !IsSpace(s[|s| - 1])
  }

  lemma {:induction false} JoinEdged(ps: seq<string>, sep: char)
    requires |ps| >= 1 && forall i :: 0 <= i < |ps| ==> Edged(ps[i])
    ensures Edged(Join(ps, sep))
    decreases |ps|
  {
    if |ps| > 1 {
      JoinEdged(ps[1..], sep);
      var j := Join(ps[1..], sep);
      assert Join(ps, sep) == ps[0] + [sep] + j;
    }
  }

  lemma {:induction false} BondsLast(ks: seq<int>, bonds: map<int, string>)
    requires |ks| > 0 && forall i :: 0 <= i < |ks| ==> ks[i] in bonds
    ensures var b := BondsText(ks, bonds); |b| > 0 && b[|b| - 1] == '}'
    decreases |ks|
  {
    var tok := LineEdit.BondToken(ks[0], bonds[ks[0]]);
    assert tok[|tok| - 1] == '}';
    if |ks| > 1 {
      BondsLast(ks[1..], bonds);
    }
  }

  lemma RenderEdged(k: int, a: Atom, width: int)
    requires CleanAtom(a)
    ensures Edged(RenderLine(k, a, width))
  {
    RenderNested(k, a, width);
    var ks := SortedKeys(a.bonds.Keys);
    var bt := BondsText(ks, a.bonds);
    var tail := a.radical + bt;
    if ks != [] {
      BondsLast(ks, a.bonds);
      assert tail[|tail| - 1] == '}';
    } else {
      assert tail == a.radical;
    }
  }

  lemma RenderedEdged(ks: seq<int>, atoms: map<int, Atom>, width: int)
    requires forall i :: 0 <= i < |ks| ==> ks[i] in atoms && CleanAtom(atoms[ks[i]])
    ensures forall i :: 0 <= i < |ks| ==> Edged(Rendered(ks, atoms, width)[i])
  {
    forall i | 0 <= i < |ks| ensures Edged(Rendered(ks, atoms, width)[i]) {
      RenderEdged(ks[i], atoms[ks[i]], width);
    }
  }

  /** `adjlist` of a non-empty table is its lines joined by newlines, plus a final
      newline. */
  lemma SerializeLines(t: Table)
    requires CleanTable(t) && |t.order| > 0
    ensures Serialize(t) == Join(Lines(t), '\n') + "\n"
  {
    var ls := Rendered(t.order, t.atoms, Width(t));
    assert Lines(t) == ls;
    RenderedEdged(t.order, t.atoms, Width(t));
    JoinEdged(ls, '\n');
    var j := Join(ls, '\n');
    assert Edged(j);
    assert Blank("\n");
    StripAfterBlank("\n", j);
    BodyJoin(t.order, t.atoms, Width(t));
    SerializeBody(t);
  }

  /** The table `atoms` builds from entries for `ks`, added one by one. */
  function PutAll(acc: Table, ks: seq<int>, atoms: map<int, Atom>): (r: Table)
    requires ValidTable(acc) && forall i :: 0 <= i < |ks| ==> ks[i] in atoms
    ensures ValidTable(r)
    decreases |ks|
  {
    if ks == [] then acc else PutAll(Put(acc, ks[0], atoms[ks[0]]), ks[1..], atoms)
  }

  lemma {:induction false} ParseRendered(ks: seq<int>, atoms: map<int, Atom>, width: int, acc: Table)
    requires ValidTable(acc)
    requires forall i :: 0 <= i < |ks| ==> ks[i] in atoms && CleanAtom(atoms[ks[i]])
                                           && |IntToString(ks[i])| < width
    ensures ParseFrom(Rendered(ks, atoms, width), acc) == Ok(PutAll(acc, ks, atoms))
    decreases |ks|
  {
    if ks != [] {
      var rs := Rendered(ks, atoms, width);
      RenderedTail(ks, atoms, width);
      var k, tail := ks[0], ks[1..];
      assert rs[0] == RenderLine(k, atoms[k], width);
      RenderParses(k, atoms[k], width);
      var next := Put(acc, k, atoms[k]);
      ParseFromStep(rs, acc, (k, atoms[k]));
      assert forall i :: 0 <= i < |tail| ==> tail[i] == ks[i + 1];
      ParseRendered(tail, atoms, width, next);
    }
  }

  /** Adding entries for distinct new keys appends them to the order. */
  lemma {:induction false} PutAllOrder(acc: Table, ks: seq<int>, atoms: map<int, Atom>)
    requires ValidTable(acc) && forall i :: 0 <= i < |ks| ==> ks[i] in atoms
    requires Distinct(ks) && forall i :: 0 <= i < |ks| ==> ks[i] !in acc.atoms
    ensures PutAll(acc, ks, atoms).order == acc.order + ks
    decreases |ks|
  {
    if ks != [] {
      var k, tail := ks[0], ks[1..];
      var next := Put(acc, k, atoms[k]);
      assert k !in tail;
      assert forall i :: 0 <= i < |tail| ==> tail[i] == ks[i + 1];
      PutAllOrder(next, tail, atoms);
      ConcatAssoc(acc.order, [k], tail);
      assert ks == [k] + tail;
    }
  }

  /** After adding entries, a key is present when it was before or was added, and an
      added key carries the atom it was added with. */
  lemma {:induction false} PutAllAtoms(acc: Table, ks: seq<int>, atoms: map<int, Atom>, x: int)
    requires ValidTable(acc) && forall i :: 0 <= i < |ks| ==> ks[i] in atoms
    ensures x in PutAll(acc, ks, atoms).atoms <==> x in acc.atoms || x in ks
    ensures x in PutAll(acc, ks, atoms).atoms ==>
      PutAll(acc, ks, atoms).atoms[x] == if x in ks then atoms[x] else acc.atoms[x]
    decreases |ks|
  {
    if ks != [] {
      var k, tail := ks[0], ks[1..];
      var next := Put(acc, k, atoms[k]);
      assert forall i :: 0 <= i < |tail| ==> tail[i] == ks[i + 1];
      PutAllAtoms(next, tail, atoms, x);
      assert x in ks <==> x == k || x in tail;
    }
  }

  lemma WidthFits(t: Table, k: int)
    requires CleanTable(t) && |t.order| > 0 && k in t.atoms
    ensures |IntToString(k)| < Width(t)
  {
    var m := MaxOf(t.order);
    assert k in t.order;
    assert 0 <= k <= m;
    NatToStringMonotone(k, m);
  }

  /** `atoms` reads the lines `adjlist` writes for a clean table back as that table:
      the same atoms, in the same order. */
  lemma ParseLines(t: Table)
    requires CleanTable(t) && |t.order| > 0
    ensures Parse(Lines(t)) == Ok(t)
  {
    var empty := Table([], map[]);
    forall i | 0 <= i < |t.order|
      ensures t.order[i] in t.atoms && CleanAtom(t.atoms[t.order[i]]) && |IntToString(t.order[i])| < Width(t)
    {
      WidthFits(t, t.order[i]);
    }
    ParseRendered(t.order, t.atoms, Width(t), empty);
    PutAllRebuilds(t);
  }

  /** Adding a table's entries, in its order, to an empty table rebuilds it. */
  lemma PutAllRebuilds(t: Table)
    requires ValidTable(t)
    ensures PutAll(Table([], map[]), t.order, t.atoms) == t
  {
    var empty := Table([], map[]);
    PutAllOrder(empty, t.order, t.atoms);
    var r := PutAll(empty, t.order, t.atoms);
    forall x ensures (x in r.atoms <==> x in t.atoms) && (x in r.atoms ==> r.atoms[x] == t.atoms[x]) {
      PutAllAtoms(empty, t.order, t.atoms, x);
    }
    MapsEqual(r.atoms, t.atoms);
  }

  lemma {:induction false} BondsOneLine(ks: seq<int>, bonds: map<int, string>)
    requires forall i :: 0 <= i < |ks| ==> ks[i] in bonds && CleanOrder(bonds[ks[i]])
    ensures '\n' !in BondsText(ks, bonds)
    decreases |ks|
  {
    if ks != [] {
      LineEdit.TokenIsWord(ks[0], bonds[ks[0]]);
      BondsOneLine(ks[1..], bonds);
    }
  }

  /** Each rendered line is one line of the text. */
  lemma RenderOneLine(k: int, a: Atom, width: int)
    requires CleanAtom(a)
    ensures '\n' !in RenderLine(k, a, width)
  {
    RenderNested(k, a, width);
    var ks := SortedKeys(a.bonds.Keys);
    BondsOneLine(ks, a.bonds);
    var idx := IntToString(k);
    var fill := if |idx| < width then Spaces(width - |idx|) else "";
    assert '\n' !in idx && '\n' !in fill && '\n' !in a.atomLabel;
    assert '\n' !in a.element && '\n' !in a.radical;
  }

  lemma RenderedOneLine(ks: seq<int>, atoms: map<int, Atom>, width: int, i: nat)
    requires forall j :: 0 <= j < |ks| ==> ks[j] in atoms && CleanAtom(atoms[ks[j]])
    requires i < |ks|
    ensures '\n' !in Rendered(ks, atoms, width)[i]
  {
    RenderOneLine(ks[i], atoms[ks[i]], width);
  }

  /** The whole round trip of the index file: the text `adjlist` writes for a clean,
      non-empty table splits into one line per atom, and `atoms` reads those lines
      back as the table. */
  lemma RoundTrip(t: Table)
    requires CleanTable(t) && |t.order| > 0
    ensures var text := Serialize(t);
      && text == Join(Lines(t), '\n') + "\n"
      && Split(text[..|text| - 1], '\n') == Lines(t)
      && Parse(Split(text[..|text| - 1], '\n')) == Ok(t)
  {
    SerializeLines(t);
    var text := Serialize(t);
    assert text[..|text| - 1] == Join(Lines(t), '\n');
    forall i | 0 <= i < |t.order| ensures '\n' !in Lines(t)[i] {
      RenderedOneLine(t.order, t.atoms, Width(t), i);
    }
    SplitJoin(Lines(t), '\n');
    ParseLines(t);
  }
}

/** `adjlist(atoms(lines))` on well-shaped lines numbered 1, 2, ...: `atoms` reads each
    line as its index and record, and `adjlist` writes every record back in the fixed
    layout, so the text that comes out is each line re-laid out by `CanonShape`.  A
    line already in that layout (`Tidy`) comes out as it went in. */
module Layout {
  import opened Results
  import opened Text
  import opened Numerals
  import opened AdjList
  import opened Shapes
  import opened Canonical
  import opened Reaction

  /** The table `atoms` builds from shaped lines, one `Put` per line. */
  function ShapedTable(ls: seq<Shaped>, acc: Table): (r: Table)
    requires ValidTable(acc)
    ensures ValidTable(r)
    decreases |ls|
  {
    if ls == [] then acc else ShapedTable(ls[1..], Put(acc, ls[0].index, AtomOf(ls[0])))
  }

  lemma {:induction false} ParseShaped(ls: seq<Shaped>, acc: Table)
    requires AllWell(ls) && ValidTable(acc)
    ensures ParseFrom(Texts(ls), acc) == Ok(ShapedTable(ls, acc))
    decreases |ls|
  {
    if ls != [] {
      var ts := Texts(ls);
      assert ts[0] == ShapedText(ls[0]);
      assert ts[1..] == Texts(ls[1..]);
      ShapedParses(ls[0]);
      var next := Put(acc, ls[0].index, AtomOf(ls[0]));
      assert ParseFrom(ts, acc) == ParseFrom(ts[1..], next);
      ParseShaped(ls[1..], next);
    }
  }

  /** The indices `1, 2, ..., n`. */
  function Indices(n: nat): (r: seq<int>)
    ensures |r| == n && forall i :: 0 <= i < n ==> r[i] == i + 1
  {
    seq(n, i => i + 1)
  }

  /** The entry for index `from + 1` is new to a table holding `1, ..., from`, so `Put`
      appends it. */
  lemma PutNext(acc: Table, from: nat, a: Atom)
    requires ValidTable(acc) && acc.order == Indices(from)
    ensures from + 1 !in acc.atoms
    ensures Put(acc, from + 1, a).order == Indices(from + 1)
    ensures Put(acc, from + 1, a).atoms == acc.atoms[from + 1 := a]
  {
  }

  /** Lines numbered from `from + 1` on are appended to the key order. */
  lemma {:induction false} ShapedTableOrder(ls: seq<Shaped>, acc: Table, from: nat)
    requires ValidTable(acc) && acc.order == Indices(from)
    requires forall i :: 0 <= i < |ls| ==> ls[i].index == from + i + 1
    ensures ShapedTable(ls, acc).order == Indices(from + |ls|)
    decreases |ls|
  {
    if ls != [] {
      PutNext(acc, from, AtomOf(ls[0]));
      ShapedTableOrder(ls[1..], Put(acc, ls[0].index, AtomOf(ls[0])), from + 1);
    }
  }

  /** The records `atoms` files from shaped lines, key by key. */
  function ShapedAtoms(ls: seq<Shaped>, m: map<int, Atom>): map<int, Atom>
    decreases |ls|
  {
    if ls == [] then m else ShapedAtoms(ls[1..], m[ls[0].index := AtomOf(ls[0])])
  }

  lemma {:induction false} ShapedTableMap(ls: seq<Shaped>, acc: Table)
    requires ValidTable(acc)
    ensures ShapedTable(ls, acc).atoms == ShapedAtoms(ls, acc.atoms)
    decreases |ls|
  {
    if ls != [] {
      ShapedTableMap(ls[1..], Put(acc, ls[0].index, AtomOf(ls[0])));
    }
  }

  /** A key no later line carries keeps its record. */
  lemma {:induction false} ShapedAtomsKeep(ls: seq<Shaped>, m: map<int, Atom>, k: int)
    requires k in m && forall i :: 0 <= i < |ls| ==> ls[i].index != k
    ensures k in ShapedAtoms(ls, m) && ShapedAtoms(ls, m)[k] == m[k]
    decreases |ls|
  {
    if ls != [] {
      assert ls[0].index != k;
      assert forall i :: 0 <= i < |ls| - 1 ==> ls[1..][i] == ls[i + 1];
      ShapedAtomsKeep(ls[1..], m[ls[0].index := AtomOf(ls[0])], k);
    }
  }

  /** Lines numbered `from + 1` on each land under their own index. */
  lemma {:induction false} ShapedAtomsAt(ls: seq<Shaped>, m: map<int, Atom>, from: int, i: nat)
    requires forall j :: 0 <= j < |ls| ==> ls[j].index == from + j + 1
    requires i < |ls|
    ensures from + i + 1 in ShapedAtoms(ls, m) && ShapedAtoms(ls, m)[from + i + 1] == AtomOf(ls[i])
    decreases i
  {
    var m' := m[ls[0].index := AtomOf(ls[0])];
    var tail := ls[1..];
    assert forall j :: 0 <= j < |tail| ==> tail[j] == ls[j + 1];
    assert ShapedAtoms(ls, m) == ShapedAtoms(tail, m');
    if i == 0 {
      ShapedAtomsKeep(tail, m', from + 1);
    } else {
      ShapedAtomsAt(tail, m', from + 1, i - 1);
    }
  }

  // ---------------------------------------------------------------------------
  // The records of well-shaped lines are clean

  lemma {:induction false} SegBondsClean(segs: seq<Seg>, acc: map<int, string>)
    requires GoodSegs(segs)
    requires forall k :: k in acc ==> CleanOrder(acc[k])
    ensures forall k :: k in SegBonds(segs, acc) ==> CleanOrder(SegBonds(segs, acc)[k])
    decreases |segs|
  {
    if segs != [] {
      assert GoodSegs(segs[1..]) by {
        assert forall i :: 0 <= i < |segs| - 1 ==> segs[1..][i] == segs[i + 1];
      }
      assert CleanOrder(segs[0].order);
      var acc' := acc[segs[0].nbr := segs[0].order];
      assert forall k :: k in acc' ==> CleanOrder(acc'[k]);
      SegBondsClean(segs[1..], acc');
      assert SegBonds(segs, acc) == SegBonds(segs[1..], acc');
    }
  }

  lemma CleanAtomOf(l: Shaped)
    requires WellShaped(l)
    ensures CleanAtom(AtomOf(l))
  {
    var a := AtomOf(l);
    var none: map<int, string> := map[];
    SegBondsClean(l.segs, none);
    var m := SegBonds(l.segs, none);
    assert forall k :: k in m ==> CleanOrder(m[k]);
    assert a.bonds == m;
    assert PlainWord(a.element) && PlainWord(a.radical);
    if l.atomLabel != "" {
      assert a.atomLabel == l.atomLabel;
      assert IsWord(a.atomLabel) && '*' in a.atomLabel && ',' !in a.atomLabel && '{' !in a.atomLabel;
    } else {
      assert a.atomLabel == NoLabel;
    }
  }

  /** The bonds `atoms` collects from segments naming distinct neighbours: each
      segment's neighbour to its tag, on top of what was collected before. */
  lemma {:induction false} SegBondsDistinct(segs: seq<Seg>, acc: map<int, string>)
    requires DistinctNbrs(segs)
    ensures forall x :: x in SegBonds(segs, acc) <==> x in acc || exists i :: 0 <= i < |segs| && segs[i].nbr == x
    ensures forall i :: 0 <= i < |segs| ==>
      segs[i].nbr in SegBonds(segs, acc) && SegBonds(segs, acc)[segs[i].nbr] == segs[i].order
    decreases |segs|
  {
    if segs != [] {
      var rest := segs[1..];
      assert forall i :: 0 <= i < |rest| ==> rest[i] == segs[i + 1];
      var acc' := acc[segs[0].nbr := segs[0].order];
      SegBondsDistinct(rest, acc');
      var m := SegBonds(segs, acc);
      assert m == SegBonds(rest, acc');
      forall x ensures x in m <==> x in acc || exists i :: 0 <= i < |segs| && segs[i].nbr == x {
        if exists i :: 0 <= i < |rest| && rest[i].nbr == x {
          var i :| 0 <= i < |rest| && rest[i].nbr == x;
          assert segs[i + 1].nbr == x;
        }
        if exists i :: 0 <= i < |segs| && segs[i].nbr == x {
          var i :| 0 <= i < |segs| && segs[i].nbr == x;
          if i > 0 {
            assert rest[i - 1].nbr == x;
          }
        }
      }
      forall i | 0 <= i < |segs| ensures segs[i].nbr in m && m[segs[i].nbr] == segs[i].order {
        if i == 0 {
          assert forall j :: 0 <= j < |rest| ==> rest[j].nbr != segs[0].nbr;
          SegBondsKeep(rest, acc', segs[0].nbr);
        } else {
          assert rest[i - 1] == segs[i];
        }
      }
    }
  }

  /** An entry no segment names stays as it was. */
  lemma {:induction false} SegBondsKeep(segs: seq<Seg>, acc: map<int, string>, x: int)
    requires x in acc && forall i :: 0 <= i < |segs| ==> segs[i].nbr != x
    ensures x in SegBonds(segs, acc) && SegBonds(segs, acc)[x] == acc[x]
    decreases |segs|
  {
    if segs != [] {
      assert forall i :: 0 <= i < |segs| - 1 ==> segs[1..][i] == segs[i + 1];
      SegBondsKeep(segs[1..], acc[segs[0].nbr := segs[0].order], x);
    }
  }

  // ---------------------------------------------------------------------------
  // Lines already in the fixed layout

  /** A line exactly as `adjlist` lays it out in an index column of `width`: the index
      padded to the width, `NoLabel` where there is no label, one blank before the
      first bond token and between tokens, and the neighbours ascending. */
  predicate Tidy(l: Shaped, width: int) {
    var idx := IntToString(l.index);
    var fill := if |idx| < width then Spaces(width - |idx|) else "";
    && l.pad == (if l.atomLabel == "" then fill + NoLabel else fill)
    && l.trail == (if l.segs == [] then "" else " ")
    && (forall i :: 0 <= i < |l.segs| ==> l.segs[i].gap == if i == |l.segs| - 1 then "" else " ")
    && (forall i, j :: 0 <= i < j < |l.segs| ==> l.segs[i].nbr < l.segs[j].nbr)
  }

  function Nbrs(segs: seq<Seg>): (r: seq<int>)
    ensures |r| == |segs| && forall i :: 0 <= i < |segs| ==> r[i] == segs[i].nbr
  {
    seq(|segs|, i requires 0 <= i < |segs| => segs[i].nbr)
  }

  /** `sorted` lists a tidy line's neighbours in the order the line has them. */
  lemma TidyKeys(l: Shaped, width: int)
    requires WellShaped(l) && Tidy(l, width)
    ensures SortedKeys(AtomOf(l).bonds.Keys) == Nbrs(l.segs)
  {
    var a := AtomOf(l);
    assert a.bonds == SegBonds(l.segs, map[]);
    var ns := Nbrs(l.segs);
    SegBondsDistinct(l.segs, map[]);
    forall k | k in a.bonds.Keys ensures k in ns {
      var i :| 0 <= i < |l.segs| && l.segs[i].nbr == k;
      assert ns[i] == k;
    }
    assert Increasing(ns);
    SortedKeysUnique(a.bonds.Keys, ns);
  }

  lemma TidySegs(l: Shaped, width: int)
    requires WellShaped(l) && Tidy(l, width)
    ensures forall i :: 0 <= i < |l.segs| ==> l.segs[i].nbr in AtomOf(l).bonds
    ensures CanonSegs(Nbrs(l.segs), AtomOf(l).bonds) == l.segs
  {
    var a := AtomOf(l);
    assert a.bonds == SegBonds(l.segs, map[]);
    var ns := Nbrs(l.segs);
    SegBondsDistinct(l.segs, map[]);
    var c := CanonSegs(ns, a.bonds);
    forall i | 0 <= i < |l.segs| ensures c[i] == l.segs[i] {
      CanonSegAt(ns, a.bonds, i);
    }
  }

  /** A tidy line is what `adjlist` writes for the record `atoms` reads from it. */
  lemma TidyCanon(l: Shaped, width: int)
    requires WellShaped(l) && Tidy(l, width)
    ensures CanonShape(l.index, AtomOf(l), width) == l
  {
    var a := AtomOf(l);
    TidyKeys(l, width);
    TidySegs(l, width);
    var c := CanonShape(l.index, a, width);
    assert c.segs == l.segs;
    assert c.trail == l.trail;
    if l.atomLabel != "" {
      assert '*' in l.atomLabel;
      assert a.atomLabel != NoLabel;
    }
  }

  // ---------------------------------------------------------------------------
  // adjlist(atoms(lines))

  /** Each line as `adjlist` writes it back for an index column of `width`. */
  function Relaid(ls: seq<Shaped>, width: int): (r: seq<Shaped>)
    ensures |r| == |ls| && forall i :: 0 <= i < |ls| ==> r[i] == CanonShape(ls[i].index, AtomOf(ls[i]), width)
  {
    seq(|ls|, i requires 0 <= i < |ls| => CanonShape(ls[i].index, AtomOf(ls[i]), width))
  }

  /** Re-laying out a line that reads as the same record as a tidy line gives that tidy
      line. */
  lemma RelaidAt(ls: seq<Shaped>, width: int, i: nat, p: Shaped)
    requires i < |ls| && WellShaped(p) && Tidy(p, width)
    requires ls[i].index == p.index && AtomOf(ls[i]) == AtomOf(p)
    ensures Relaid(ls, width)[i] == p
  {
    TidyCanon(p, width);
  }

  lemma MaxOfIndices(n: nat)
    requires n > 0
    ensures MaxOf(Indices(n)) == n
  {
    var m := MaxOf(Indices(n));
    assert Indices(n)[n - 1] == n;
  }

  /** Table `t` holds the record of line i under the key i + 1. */
  predicate HoldsLines(ls: seq<Shaped>, t: Table) {
    forall i :: 0 <= i < |ls| ==> i + 1 in t.atoms && t.atoms[i + 1] == AtomOf(ls[i])
  }

  /** The table `atoms` builds from shaped lines. */
  function TableOf(ls: seq<Shaped>): (t: Table)
    ensures ValidTable(t)
  {
    ShapedTable(ls, Table([], map[]))
  }

  /** The table built from lines numbered 1 to n keeps them in that order. */
  lemma TableOfOrder(ls: seq<Shaped>)
    requires Numbered(ls)
    ensures TableOf(ls).order == Indices(|ls|)
  {
    ShapedTableOrder(ls, Table([], map[]), 0);
  }

  /** The table built from lines numbered 1 to n files each line's record under its
      number. */
  lemma TableOfHolds(ls: seq<Shaped>)
    requires Numbered(ls)
    ensures HoldsLines(ls, TableOf(ls))
  {
    var t := TableOf(ls);
    forall k | 1 <= k <= |ls| ensures k in t.atoms && t.atoms[k] == AtomOf(ls[k - 1]) {
      TableOfAt(ls, k - 1);
    }
  }

  lemma TableOfAt(ls: seq<Shaped>, i: nat)
    requires Numbered(ls) && i < |ls|
    ensures i + 1 in TableOf(ls).atoms && TableOf(ls).atoms[i + 1] == AtomOf(ls[i])
  {
    ShapedTableMap(ls, Table([], map[]));
    ShapedAtomsAt(ls, map[], 0, i);
  }

  /** `atoms` reads lines numbered 1 to n as the table of their records, in order. */
  lemma AtomsOfShaped(ls: seq<Shaped>)
    requires AllWell(ls) && Numbered(ls)
    ensures Parse(Texts(ls)) == Ok(TableOf(ls))
    ensures TableOf(ls).order == Indices(|ls|)
    ensures HoldsLines(ls, TableOf(ls))
  {
    ParseShaped(ls, Table([], map[]));
    TableOfOrder(ls);
    TableOfHolds(ls);
  }

  /** The table of well-shaped lines numbered 1 to n is one `adjlist` can write. */
  lemma ShapedClean(ls: seq<Shaped>, t: Table)
    requires AllWell(ls) && ValidTable(t) && t.order == Indices(|ls|)
    requires HoldsLines(ls, t)
    ensures CleanTable(t)
  {
    forall k | k in t.atoms ensures k >= 0 && CleanAtom(t.atoms[k]) {
      assert k in t.order;
      var i :| 0 <= i < |t.order| && t.order[i] == k;
      CleanAtomOf(ls[i]);
    }
  }

  /** The lines `adjlist` renders for such a table are the re-laid-out lines. */
  lemma LinesRelaid(ls: seq<Shaped>, t: Table)
    requires |ls| > 0 && ValidTable(t) && t.order == Indices(|ls|)
    requires HoldsLines(ls, t)
    requires Numbered(ls)
    ensures Width(t) == |IntToString(|ls|)| + 1
    ensures Lines(t) == Texts(Relaid(ls, |IntToString(|ls|)| + 1))
  {
    MaxOfIndices(|ls|);
    var w := |IntToString(|ls|)| + 1;
    var lt, rt := Lines(t), Texts(Relaid(ls, w));
    forall i | 0 <= i < |ls| ensures lt[i] == rt[i] {
      LineRelaid(ls, t, w, i);
    }
  }

  /** Line i of those `adjlist` renders is line i re-laid out. */
  lemma LineRelaid(ls: seq<Shaped>, t: Table, w: int, i: nat)
    requires |ls| > 0 && ValidTable(t) && t.order == Indices(|ls|)
    requires HoldsLines(ls, t) && Numbered(ls) && i < |ls|
    requires Width(t) == w
    ensures Lines(t)[i] == Texts(Relaid(ls, w))[i]
  {
    assert t.order[i] == i + 1 && ls[i].index == i + 1;
    assert t.atoms[i + 1] == AtomOf(ls[i]);
    RenderShaped(i + 1, AtomOf(ls[i]), w);
  }

  /** `adjlist` of a table holding the atoms of well-shaped lines numbered 1 to n. */
  lemma SerializeShaped(ls: seq<Shaped>, t: Table)
    requires AllWell(ls) && Numbered(ls) && |ls| > 0
    requires ValidTable(t) && t.order == Indices(|ls|)
    requires HoldsLines(ls, t)
    ensures Serialize(t) == Join(Texts(Relaid(ls, |IntToString(|ls|)| + 1)), '\n') + "\n"
  {
    ShapedClean(ls, t);
    SerializeLines(t);
    LinesRelaid(ls, t);
  }

  /** `adjlist(atoms(lines))` for well-shaped lines numbered 1 to n: the lines re-laid
      out in an index column one wider than the largest index, joined by newlines, with
      one newline at the end. */
  lemma AdjlistOfAtoms(ls: seq<Shaped>)
    requires AllWell(ls) && Numbered(ls) && |ls| > 0
    ensures Parse(Texts(ls)).Ok?
    ensures Serialize(Parse(Texts(ls)).value) == Join(Texts(Relaid(ls, |IntToString(|ls|)| + 1)), '\n') + "\n"
  {
    AtomsOfShaped(ls);
    SerializeShaped(ls, TableOf(ls));
  }
}

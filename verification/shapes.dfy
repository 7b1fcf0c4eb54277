/** Adjacency-list lines seen through their layout.  A `Shaped` line records every field
    of the text together with the blanks between them, so that the text editors of
    `LineEdit` can be described exactly: forming a bond appends a segment, breaking one
    removes a segment, changing the radical count rewrites one field, and in each case
    the blanks elsewhere stay as they were.  `AtomOf` is what `atoms` reads from such a
    line. */
module Shapes {
  import opened Results
  import opened Text
  import opened Numerals
  import LineEdit
  import AdjList

  /** A bond token `{nbr,order}` followed by the blanks after it. */
  datatype Seg = Seg(nbr: int, order: string, gap: string)

  /** One line: index, blanks, optional label, element, radical count, the blanks before
      the first bond token, and the bond tokens. */
  datatype Shaped = Shaped(index: int, pad: string, atomLabel: string, element: string,
                           radical: string, trail: string, segs: seq<Seg>)

  /** What follows a `{` in the text of a segment. */
  function Piece(s: Seg): string {
    IntToString(s.nbr) + "," + s.order + "}" + s.gap
  }

  function SegsText(segs: seq<Seg>): string
    decreases |segs|
  {
    if segs == [] then "" else "{" + Piece(segs[0]) + SegsText(segs[1..])
  }

  /** The text before the first `{`. */
  function Lead(l: Shaped): string {
    IntToString(l.index) + l.pad + l.atomLabel + " " + l.element + " " + l.radical + l.trail
  }

  function ShapedText(l: Shaped): string {
    Lead(l) + SegsText(l.segs)
  }

  /** A bond-order tag that survives the round trip through the text. */
  predicate CleanOrder(o: string) {
    NoSpace(o) && ',' !in o && '{' !in o && '*' !in o
  }

  /** A field other than the label: one word without separators or a label mark. */
  predicate PlainWord(s: string) {
    IsWord(s) && ',' !in s && '{' !in s && '*' !in s
  }

  predicate GoodSegs(segs: seq<Seg>) {
    && (forall i :: 0 <= i < |segs| ==> CleanOrder(segs[i].order) && Blank(segs[i].gap))
    && (forall i :: 0 <= i < |segs| - 1 ==> |segs[i].gap| >= 1)
  }

  predicate DistinctNbrs(segs: seq<Seg>) {
    forall i, j :: 0 <= i < j < |segs| ==> segs[i].nbr != segs[j].nbr
  }

  /** A line as the serialiser and the editors leave it: fields separated by blanks, a
      label exactly when it carries `*`, and each neighbour named once. */
  predicate WellShaped(l: Shaped) {
    && Blank(l.pad) && Blank(l.trail)
    && (l.atomLabel == "" || (IsWord(l.atomLabel) && '*' in l.atomLabel && ',' !in l.atomLabel
                              && '{' !in l.atomLabel && |l.pad| >= 1))
    && PlainWord(l.element) && PlainWord(l.radical)
    && (l.segs != [] ==> |l.trail| >= 1)
    && GoodSegs(l.segs)
    && DistinctNbrs(l.segs)
  }

  /** The bonds `atoms` collects from the segments, later ones overriding earlier. */
  function SegBonds(segs: seq<Seg>, acc: map<int, string>): map<int, string>
    decreases |segs|
  {
    if segs == [] then acc else SegBonds(segs[1..], acc[segs[0].nbr := segs[0].order])
  }

  /** The record `atoms` builds from the line. */
  function AtomOf(l: Shaped): AdjList.Atom {
    AdjList.Atom(if l.atomLabel == "" then AdjList.NoLabel else l.atomLabel,
                 l.element, l.radical, SegBonds(l.segs, map[]))
  }

  function SegTokens(segs: seq<Seg>): (r: seq<string>)
    ensures |r| == |segs|
    ensures forall i :: 0 <= i < |segs| ==> r[i] == LineEdit.BondToken(segs[i].nbr, segs[i].order)
  {
    seq(|segs|, i requires 0 <= i < |segs| => LineEdit.BondToken(segs[i].nbr, segs[i].order))
  }

  // ---------------------------------------------------------------------------
  // Reading a shaped line word by word

  lemma WordThen(w: string, rest: string)
    requires IsWord(w) && (rest == [] || IsSpace(rest[0]))
    ensures Words(w + rest) == [w] + Words(rest)
  {
    WordsConcat(w, rest);
    WordsOfWord(w);
  }

  lemma BlankThen(b: string, rest: string)
    requires Blank(b)
    ensures Words(b + rest) == Words(rest)
  {
    WordsConcat(b, rest);
    WordsOfBlank(b);
  }

  lemma SegOpen(s: Seg, rest: string)
    ensures "{" + Piece(s) + rest == LineEdit.BondToken(s.nbr, s.order) + (s.gap + rest)
  {
  }

  /** One segment in front of the text of the later ones reads as its bond token
      followed by their words. */
  lemma SegWordsStep(s: Seg, rest: string)
    requires CleanOrder(s.order) && Blank(s.gap) && (s.gap == [] ==> rest == [])
    ensures Words("{" + Piece(s) + rest) == [LineEdit.BondToken(s.nbr, s.order)] + Words(rest)
  {
    SegOpen(s, rest);
    var tok := LineEdit.BondToken(s.nbr, s.order);
    LineEdit.TokenIsWord(s.nbr, s.order);
    assert s.gap + rest == [] || IsSpace((s.gap + rest)[0]) by {
      if |s.gap| != 0 {
        assert (s.gap + rest)[0] == s.gap[0];
      }
    }
    WordThen(tok, s.gap + rest);
    BlankThen(s.gap, rest);
  }

  lemma {:induction false} SegsWords(segs: seq<Seg>)
    requires GoodSegs(segs)
    ensures Words(SegsText(segs)) == SegTokens(segs)
    ensures SegsText(segs) == [] || SegsText(segs)[0] == '{'
    decreases |segs|
  {
    if segs != [] {
      var s := segs[0];
      var rest := SegsText(segs[1..]);
      assert GoodSegs(segs[1..]) by {
        assert forall i :: 0 <= i < |segs| - 1 ==> segs[1..][i] == segs[i + 1];
      }
      SegsWords(segs[1..]);
      assert CleanOrder(s.order) && Blank(s.gap);
      assert s.gap == [] ==> rest == [] by {
        if |segs| > 1 {
          assert |segs[0].gap| >= 1;
        }
      }
      SegWordsStep(s, rest);
      SegTokensTail(segs);
    }
  }

  /** The first segment's token, then the tokens of the others. */
  lemma SegTokensTail(segs: seq<Seg>)
    requires segs != []
    ensures SegTokens(segs) == [LineEdit.BondToken(segs[0].nbr, segs[0].order)] + SegTokens(segs[1..])
  {
    var r, t := SegTokens(segs), SegTokens(segs[1..]);
    var x := [LineEdit.BondToken(segs[0].nbr, segs[0].order)] + t;
    assert |x| == |r|;
    forall i | 0 <= i < |r| ensures r[i] == x[i] {
      if i > 0 {
        assert segs[1..][i - 1] == segs[i];
      }
    }
  }

  /** The label field as `split()` sees it. */
  function LabelWords(l: Shaped): seq<string> {
    if l.atomLabel == "" then [] else [l.atomLabel]
  }

  /** The text of a line, regrouped from the right. */
  lemma TextNested(l: Shaped)
    ensures ShapedText(l) == IntToString(l.index) + (l.pad + (l.atomLabel + (" " + (l.element
      + (" " + (l.radical + (l.trail + SegsText(l.segs))))))))
  {
    var x1, x2, x3, x4, x5, x6, x7, x8, x9 :=
      IntToString(l.index), l.pad, l.atomLabel, " ", l.element, " ", l.radical, l.trail, SegsText(l.segs);
    assert ShapedText(l) == x1 + x2 + x3 + x4 + x5 + x6 + x7 + x8 + x9;
    ConcatAssoc(x1 + x2 + x3 + x4 + x5 + x6 + x7, x8, x9);
    ConcatAssoc(x1 + x2 + x3 + x4 + x5 + x6, x7, x8 + x9);
    ConcatAssoc(x1 + x2 + x3 + x4 + x5, x6, x7 + (x8 + x9));
    ConcatAssoc(x1 + x2 + x3 + x4, x5, x6 + (x7 + (x8 + x9)));
    ConcatAssoc(x1 + x2 + x3, x4, x5 + (x6 + (x7 + (x8 + x9))));
    ConcatAssoc(x1 + x2, x3, x4 + (x5 + (x6 + (x7 + (x8 + x9)))));
    ConcatAssoc(x1, x2, x3 + (x4 + (x5 + (x6 + (x7 + (x8 + x9))))));
  }

  function FromRadical(l: Shaped): string {
    l.radical + (l.trail + SegsText(l.segs))
  }

  function FromElement(l: Shaped): string {
    " " + (l.element + (" " + FromRadical(l)))
  }

  lemma RadicalWords(l: Shaped)
    requires WellShaped(l)
    ensures Words(FromRadical(l)) == [l.radical] + SegTokens(l.segs)
    ensures FromRadical(l)[0] == l.radical[0]
  {
    var segsText := SegsText(l.segs);
    SegsWords(l.segs);
    var t6 := l.trail + segsText;
    BlankThen(l.trail, segsText);
    assert t6 == [] || IsSpace(t6[0]) by {
      if l.trail != [] {
        assert t6[0] == l.trail[0];
      } else {
        assert l.segs == [];
      }
    }
    WordThen(l.radical, t6);
  }

  lemma ElementWords(l: Shaped)
    requires WellShaped(l)
    ensures Words(FromElement(l)) == [l.element, l.radical] + SegTokens(l.segs)
    ensures FromElement(l)[0] == ' '
  {
    var t5 := FromRadical(l);
    var t4 := " " + t5;
    var t3 := l.element + t4;
    assert Words(t4) == [l.radical] + SegTokens(l.segs) by {
      RadicalWords(l);
      BlankThen(" ", t5);
    }
    assert Words(t3) == [l.element] + Words(t4) by {
      assert t4[0] == ' ';
      WordThen(l.element, t4);
    }
    assert Words(" " + t3) == Words(t3) by {
      BlankThen(" ", t3);
    }
    assert FromElement(l) == " " + t3;
  }

  function FromPad(l: Shaped): string {
    l.pad + (l.atomLabel + FromElement(l))
  }

  lemma PadWords(l: Shaped)
    requires WellShaped(l)
    ensures Words(FromPad(l)) == LabelWords(l) + Words(FromElement(l))
    ensures FromPad(l) == [] || IsSpace(FromPad(l)[0])
  {
    var t2 := FromElement(l);
    ElementWords(l);
    var t1 := l.atomLabel + t2;
    if l.atomLabel == "" {
      assert t1 == t2;
    } else {
      WordThen(l.atomLabel, t2);
    }
    BlankThen(l.pad, t1);
    if l.pad != [] {
      assert FromPad(l)[0] == l.pad[0];
    } else {
      assert FromPad(l) == t1;
    }
  }

  lemma ShapedWords(l: Shaped)
    requires WellShaped(l)
    ensures Words(ShapedText(l))
      == [IntToString(l.index)] + (LabelWords(l) + ([l.element, l.radical] + SegTokens(l.segs)))
  {
    var idx := IntToString(l.index);
    PadWords(l);
    ElementWords(l);
    WordThen(idx, FromPad(l));
    TextNested(l);
    assert ShapedText(l) == idx + FromPad(l);
  }

  // ---------------------------------------------------------------------------
  // What `atoms` reads from a shaped line

  lemma ParseToken(n: int, o: string)
    requires CleanOrder(o)
    ensures AdjList.ParseBond(LineEdit.BondToken(n, o)) == Ok((n, o))
  {
    var tok := LineEdit.BondToken(n, o);
    var k := IntToString(n);
    var inner := k + "," + o;
    assert tok == "{" + inner + "}";
    assert tok[1..|tok| - 1] == inner;
    SplitAtSep(k, ',', o);
    assert k + [','] + o == inner;
    SplitNoSep(k, ',');
    SplitNoSep(o, ',');
    ParseIntToString(n);
  }

  lemma {:induction false} ParseSegTokens(segs: seq<Seg>, acc: map<int, string>)
    requires GoodSegs(segs)
    ensures AdjList.ParseBonds(SegTokens(segs), acc) == Ok(SegBonds(segs, acc))
    decreases |segs|
  {
    if segs != [] {
      ParseToken(segs[0].nbr, segs[0].order);
      assert GoodSegs(segs[1..]) by {
        assert forall i :: 0 <= i < |segs| - 1 ==> segs[1..][i] == segs[i + 1];
      }
      assert SegTokens(segs)[1..] == SegTokens(segs[1..]);
      ParseSegTokens(segs[1..], acc[segs[0].nbr := segs[0].order]);
    }
  }

  /** `atoms` on a line whose words are an index, an optional label, element, radical
      and bond tokens. */
  lemma ParseFields(line: string, n: int, labels: seq<string>, el: string, rad: string,
                    toks: seq<string>, bonds: map<int, string>)
    requires Words(line) == ([IntToString(n)] + labels) + ([el, rad] + toks)
    requires labels == [] || (|labels| == 1 && '*' in labels[0])
    requires '*' !in el
    requires AdjList.ParseBonds(toks, map[]) == Ok(bonds)
    ensures AdjList.ParseLine(line)
      == Ok((n, AdjList.Atom(if labels == [] then AdjList.NoLabel else labels[0], el, rad, bonds)))
  {
    ParseIntToString(n);
    var head := [IntToString(n)] + labels;
    var tail := [el, rad] + toks;
    SliceConcatRight(head, tail, |head|);
    SliceConcatRight([el, rad], toks, 2);
  }

  /** `atoms` reads a well-shaped line back as its index and record. */
  lemma ShapedParses(l: Shaped)
    requires WellShaped(l)
    ensures AdjList.ParseLine(ShapedText(l)) == Ok((l.index, AtomOf(l)))
  {
    ShapedWords(l);
    ConcatAssoc([IntToString(l.index)], LabelWords(l), [l.element, l.radical] + SegTokens(l.segs));
    ParseSegTokens(l.segs, map[]);
    ParseFields(ShapedText(l), l.index, LabelWords(l), l.element, l.radical, SegTokens(l.segs),
                SegBonds(l.segs, map[]));
  }

  /** Two tokens naming the same neighbour, as `bondForm` writes them when a bond that
      is already there is formed again: `atoms` keeps only the later token's order. */
  lemma RepeatedNeighbourLastWins()
    ensures AdjList.ParseBonds(["{2,S}", "{2,D}"], map[]) == Ok(map[2 := "D"])
  {
    SmallToString(2);
    var s, d := LineEdit.BondToken(2, "S"), LineEdit.BondToken(2, "D");
    assert s == "{2,S}" && d == "{2,D}";
    ParseToken(2, "S");
    ParseToken(2, "D");
    assert [s, d][1..] == [d];
    assert AdjList.ParseBonds([d], map[2 := "S"]) == AdjList.ParseBonds([], map[2 := "S"][2 := "D"]);
    assert map[2 := "S"][2 := "D"] == map[2 := "D"];
  }

  // ---------------------------------------------------------------------------
  // bondBreak on a shaped line

  function Pieces(segs: seq<Seg>): (r: seq<string>)
    ensures |r| == |segs|
    decreases |segs|
  {
    if segs == [] then [] else [Piece(segs[0])] + Pieces(segs[1..])
  }

  lemma {:induction false} PieceAt(segs: seq<Seg>, i: nat)
    requires i < |segs|
    ensures Pieces(segs)[i] == Piece(segs[i])
    decreases i
  {
    if i > 0 {
      PieceAt(segs[1..], i - 1);
    }
  }

  lemma PieceParts(s: Seg)
    ensures Piece(s) == IntToString(s.nbr) + "," + (s.order + "}" + s.gap)
  {
    var k := IntToString(s.nbr);
    assert Piece(s) == (k + ",") + s.order + "}" + s.gap;
  }

  lemma PieceFacts(s: Seg)
    requires CleanOrder(s.order) && Blank(s.gap)
    ensures '{' !in Piece(s)
    ensures BeforeComma(Piece(s)) == IntToString(s.nbr)
  {
    PieceParts(s);
    BeforeCommaOf(IntToString(s.nbr), s.order + "}" + s.gap);
    assert forall i :: 0 <= i < |s.gap| ==> s.gap[i] != '{';
  }

  lemma {:induction false} SplitSegs(p: string, segs: seq<Seg>)
    requires '{' !in p
    requires forall i :: 0 <= i < |segs| ==> '{' !in Piece(segs[i])
    ensures Split(p + SegsText(segs), '{') == [p] + Pieces(segs)
    decreases |segs|
  {
    if segs == [] {
      assert p + SegsText(segs) == p;
      SplitNoSep(p, '{');
    } else {
      var head := Piece(segs[0]);
      var rest := SegsText(segs[1..]);
      ConcatAssoc("{", head, rest);
      ConcatAssoc(p, "{", head + rest);
      assert p + SegsText(segs) == p + ['{'] + (head + rest);
      SplitAtSep(p, '{', head + rest);
      SplitNoSep(p, '{');
      SplitSegs(head, segs[1..]);
      assert Split(p + SegsText(segs), '{') == [p] + ([head] + Pieces(segs[1..]));
      assert Pieces(segs) == [head] + Pieces(segs[1..]);
    }
  }

  lemma LeadFacts(l: Shaped)
    requires WellShaped(l)
    ensures '{' !in Lead(l)
    ensures BeforeComma(Lead(l)) == Lead(l)
    ensures !NoSpace(Lead(l))
  {
    var idx := IntToString(l.index);
    assert forall i :: 0 <= i < |l.pad| ==> l.pad[i] != '{' && l.pad[i] != ',';
    assert forall i :: 0 <= i < |l.trail| ==> l.trail[i] != '{' && l.trail[i] != ',';
    var n := |idx| + |l.pad| + |l.atomLabel|;
    assert Lead(l)[n] == ' ';
    assert ',' !in Lead(l);
    SplitNoSep(Lead(l), ',');
  }

  lemma SplitShaped(l: Shaped)
    requires WellShaped(l)
    ensures Split(ShapedText(l), '{') == [Lead(l)] + Pieces(l.segs)
  {
    LeadFacts(l);
    forall i | 0 <= i < |l.segs| ensures '{' !in Piece(l.segs[i]) {
      PieceFacts(l.segs[i]);
    }
    SplitSegs(Lead(l), l.segs);
  }

  /** The segments of all neighbours but `k`, in their order. */
  function Without(segs: seq<Seg>, k: int): (r: seq<Seg>)
    ensures |r| <= |segs|
    ensures forall i :: 0 <= i < |r| ==> r[i].nbr != k && r[i] in segs
    decreases |segs|
  {
    if segs == [] then []
    else if segs[0].nbr == k then Without(segs[1..], k)
    else [segs[0]] + Without(segs[1..], k)
  }

  lemma {:induction false} WithoutAbsent(segs: seq<Seg>, k: int)
    requires forall i :: 0 <= i < |segs| ==> segs[i].nbr != k
    ensures Without(segs, k) == segs
    decreases |segs|
  {
    if segs != [] {
      WithoutAbsent(segs[1..], k);
    }
  }

  lemma {:induction false} WithoutAt(segs: seq<Seg>, k: int, j: nat)
    requires j < |segs| && segs[j].nbr == k
    requires forall i :: 0 <= i < |segs| && i != j ==> segs[i].nbr != k
    ensures Without(segs, k) == segs[..j] + segs[j + 1..]
    decreases |segs|
  {
    if j == 0 {
      WithoutAbsent(segs[1..], k);
    } else {
      WithoutAt(segs[1..], k, j - 1);
      assert segs[1..][..j - 1] == segs[1..j];
      assert segs[1..][j..] == segs[j + 1..];
    }
  }

  /** Dropping segments keeps the segment invariants: only the last survivor may lack
      a gap, and the neighbours stay distinct. */
  /** A segment put in front of good segments whose neighbours differ from its own. */
  lemma ConsGood(s: Seg, w: seq<Seg>)
    requires GoodSegs(w) && DistinctNbrs(w)
    requires CleanOrder(s.order) && Blank(s.gap) && (w != [] ==> |s.gap| >= 1)
    requires forall i :: 0 <= i < |w| ==> w[i].nbr != s.nbr
    ensures GoodSegs([s] + w) && DistinctNbrs([s] + w)
  {
    var r := [s] + w;
    assert forall i :: 1 <= i < |r| ==> r[i] == w[i - 1];
  }

  lemma {:induction false} WithoutGood(segs: seq<Seg>, k: int)
    requires GoodSegs(segs) && DistinctNbrs(segs)
    ensures GoodSegs(Without(segs, k)) && DistinctNbrs(Without(segs, k))
    decreases |segs|
  {
    if segs != [] {
      var rest := segs[1..];
      assert GoodSegs(rest) && DistinctNbrs(rest) by {
        assert forall i :: 0 <= i < |rest| ==> rest[i] == segs[i + 1];
      }
      WithoutGood(rest, k);
      if segs[0].nbr != k {
        var w := Without(rest, k);
        forall i | 0 <= i < |w| ensures w[i].nbr != segs[0].nbr {
          var m :| 0 <= m < |rest| && rest[m] == w[i];
          assert segs[m + 1] == w[i];
        }
        assert w != [] ==> |segs[0].gap| >= 1 by {
          if w != [] {
            assert |rest| > 0;
          }
        }
        ConsGood(segs[0], w);
      }
    }
  }

  /** Breaking a bond leaves a well-shaped line well shaped. */
  lemma WithoutWellShaped(l: Shaped, k: int)
    requires WellShaped(l)
    ensures WellShaped(l.(segs := Without(l.segs, k)))
  {
    WithoutGood(l.segs, k);
  }

  lemma SegsTextRoundTrip(p: string, segs: seq<Seg>)
    requires '{' !in p
    requires forall i :: 0 <= i < |segs| ==> CleanOrder(segs[i].order) && Blank(segs[i].gap)
    ensures Join([p] + Pieces(segs), '{') == p + SegsText(segs)
  {
    forall i | 0 <= i < |segs| ensures '{' !in Piece(segs[i]) {
      PieceFacts(segs[i]);
    }
    SplitSegs(p, segs);
    JoinSplit(p + SegsText(segs), '{');
  }

  /** Which pieces of the cut line name neighbour `k`: exactly those of its segments. */
  lemma PiecesNaming(l: Shaped, k: int)
    requires WellShaped(l)
    ensures var ps := Split(ShapedText(l), '{');
      && |ps| == |l.segs| + 1
      && forall i :: 0 <= i < |ps| ==> (BeforeComma(ps[i]) == IntToString(k) <==> i > 0 && l.segs[i - 1].nbr == k)
  {
    var ps := Split(ShapedText(l), '{');
    SplitShaped(l);
    forall i | 0 <= i < |ps| ensures BeforeComma(ps[i]) == IntToString(k) <==> i > 0 && l.segs[i - 1].nbr == k {
      PieceNamingAt(l, k, i);
    }
  }

  /** Piece `i` of the cut line names `k` exactly when segment `i - 1` does; the lead
      piece names no neighbour. */
  lemma PieceNamingAt(l: Shaped, k: int, i: nat)
    requires WellShaped(l) && i <= |l.segs|
    ensures i < |Split(ShapedText(l), '{')|
    ensures BeforeComma(Split(ShapedText(l), '{')[i]) == IntToString(k) <==> i > 0 && l.segs[i - 1].nbr == k
  {
    var ps := Split(ShapedText(l), '{');
    var key := IntToString(k);
    SplitShaped(l);
    if i == 0 {
      LeadFacts(l);
      assert BeforeComma(ps[0]) != key by {
        assert NoSpace(key);
      }
    } else {
      PieceAt(l.segs, i - 1);
      PieceFacts(l.segs[i - 1]);
      IntToStringInjective(l.segs[i - 1].nbr, k);
    }
  }

  lemma BreakShapeAt(l: Shaped, k: int, j: nat)
    requires WellShaped(l) && j < |l.segs| && l.segs[j].nbr == k
    ensures LineEdit.BondBreak(ShapedText(l), k) == Ok(ShapedText(l.(segs := Without(l.segs, k))))
  {
    var line := ShapedText(l);
    var ps := Split(line, '{');
    OnlyPieceNaming(l, k, j);
    LineEdit.BreakRemovesOne(line, k, j + 1);
    WithoutAt(l.segs, k, j);
    var rest := l.segs[..j] + l.segs[j + 1..];
    SplitShaped(l);
    PiecesRemove(l.segs, j);
    DropAfterHead(Lead(l), Pieces(l.segs), j);
    LeadFacts(l);
    SegsTextRoundTrip(Lead(l), rest);
    assert Lead(l.(segs := rest)) == Lead(l);
  }

  lemma OnlyPieceNaming(l: Shaped, k: int, j: nat)
    requires WellShaped(l) && j < |l.segs| && l.segs[j].nbr == k
    ensures var ps := Split(ShapedText(l), '{');
      && j + 1 < |ps| && |ps| > 1
      && BeforeComma(ps[j + 1]) == IntToString(k)
      && forall i :: 0 <= i < |ps| && i != j + 1 ==> BeforeComma(ps[i]) != IntToString(k)
  {
    PiecesNaming(l, k);
  }

  lemma PiecesRemove(segs: seq<Seg>, j: nat)
    requires j < |segs|
    ensures Pieces(segs)[..j] + Pieces(segs)[j + 1..] == Pieces(segs[..j] + segs[j + 1..])
  {
    var a, b := segs[..j], segs[j + 1..];
    AroundIndex(segs, j);
    PiecesConcat(a, [segs[j]] + b);
    SliceConcatRight([segs[j]], b, 1);
    assert Pieces([segs[j]] + b) == [Piece(segs[j])] + Pieces(b);
    PiecesConcat(a, b);
    var pa, pb := Pieces(a), Pieces(b);
    var x := [Piece(segs[j])] + pb;
    assert Pieces(segs) == pa + x;
    SliceConcat(pa, x, j);
    assert pa[..j] == pa;
    SliceConcatRight(pa, x, j + 1);
    SliceConcatRight([Piece(segs[j])], pb, 1);
  }

  lemma DropAfterHead(x: string, ps: seq<string>, j: nat)
    requires j < |ps|
    ensures ([x] + ps)[..j + 1] + ([x] + ps)[j + 2..] == [x] + (ps[..j] + ps[j + 1..])
  {
    assert ([x] + ps)[..j + 1] == [x] + ps[..j];
    assert ([x] + ps)[j + 2..] == ps[j + 1..];
  }

  lemma {:induction false} PiecesConcat(a: seq<Seg>, b: seq<Seg>)
    ensures Pieces(a + b) == Pieces(a) + Pieces(b)
    decreases |a|
  {
    if a == [] {
      assert a + b == b;
    } else {
      assert (a + b)[0] == a[0];
      SliceConcat(a, b, 1);
      PiecesConcat(a[1..], b);
      assert Pieces(a + b) == [Piece(a[0])] + (Pieces(a[1..]) + Pieces(b));
      ConcatAssoc([Piece(a[0])], Pieces(a[1..]), Pieces(b));
    }
  }

  /** `bondBreak` on a well-shaped line drops exactly the segment naming `k`, blanks
      included, and is the identity when there is none. */
  lemma BreakShape(l: Shaped, k: int)
    requires WellShaped(l)
    ensures LineEdit.BondBreak(ShapedText(l), k) == Ok(ShapedText(l.(segs := Without(l.segs, k))))
  {
    if j :| 0 <= j < |l.segs| && l.segs[j].nbr == k {
      BreakShapeAt(l, k, j);
    } else {
      PiecesNaming(l, k);
      WithoutAbsent(l.segs, k);
      assert l.(segs := Without(l.segs, k)) == l;
    }
  }

  // ---------------------------------------------------------------------------
  // bondForm on a shaped line

  /** The segments after `bondForm`: the blank it writes joins the gap of the last
      segment, and the new bond comes last with nothing after it. */
  function Appended(segs: seq<Seg>, k: int, o: string): (r: seq<Seg>)
    requires segs != []
    ensures |r| == |segs| + 1
    ensures forall i :: 0 <= i < |segs| - 1 ==> r[i] == segs[i]
    ensures r[|segs| - 1] == segs[|segs| - 1].(gap := segs[|segs| - 1].gap + " ")
    ensures r[|segs|] == Seg(k, o, "")
    decreases |segs|
  {
    if |segs| == 1 then [segs[0].(gap := segs[0].gap + " "), Seg(k, o, "")]
    else [segs[0]] + Appended(segs[1..], k, o)
  }

  /** The shape of a line after `bondForm(line, k, o)`. */
  function Formed(l: Shaped, k: int, o: string): Shaped {
    if l.segs == [] then l.(trail := l.trail + " ", segs := [Seg(k, o, "")])
    else l.(segs := Appended(l.segs, k, o))
  }

  lemma WidenedGap(s: Seg, x: string)
    ensures "{" + Piece(s.(gap := s.gap + " ")) + x == "{" + Piece(s) + (" " + x)
  {
    SegOpen(s.(gap := s.gap + " "), x);
    SegOpen(s, " " + x);
    ConcatAssoc(s.gap, " ", x);
  }

  lemma NewSegText(k: int, o: string)
    ensures SegsText([Seg(k, o, "")]) == LineEdit.BondToken(k, o)
  {
    SegOpen(Seg(k, o, ""), "");
    assert SegsText([Seg(k, o, "")]) == "{" + Piece(Seg(k, o, "")) + "";
  }

  lemma {:induction false} AppendedText(segs: seq<Seg>, k: int, o: string)
    requires segs != []
    ensures SegsText(Appended(segs, k, o)) == SegsText(segs) + " " + LineEdit.BondToken(k, o)
    decreases |segs|
  {
    var t := LineEdit.BondToken(k, o);
    var r := Appended(segs, k, o);
    var h := "{" + Piece(segs[0]);
    if |segs| == 1 {
      NewSegText(k, o);
      assert r[1..] == [Seg(k, o, "")];
      WidenedGap(segs[0], t);
      assert SegsText(segs) == h + "";
      ConcatAssoc(h, " ", t);
    } else {
      AppendedText(segs[1..], k, o);
      var rest := SegsText(segs[1..]);
      assert r[1..] == Appended(segs[1..], k, o);
      assert SegsText(r) == h + ((rest + " ") + t);
      ConcatAssoc(rest, " ", t);
      ConcatAssoc(h + rest, " ", t);
      ConcatAssoc(h, rest, " " + t);
    }
  }

  lemma LeadWithTrail(l: Shaped, extra: string)
    ensures Lead(l.(trail := l.trail + extra)) == Lead(l) + extra
  {
    var x := IntToString(l.index) + l.pad + l.atomLabel + " " + l.element + " " + l.radical;
    ConcatAssoc(x, l.trail, extra);
  }

  /** `bondForm` on a shaped line appends the new segment and keeps every other field. */
  lemma FormShape(l: Shaped, k: int, o: string)
    ensures LineEdit.BondForm(ShapedText(l), k, o) == ShapedText(Formed(l, k, o))
  {
    var t := LineEdit.BondToken(k, o);
    if l.segs == [] {
      LeadWithTrail(l, " ");
      NewSegText(k, o);
      assert ShapedText(l) == Lead(l);
    } else {
      AppendedText(l.segs, k, o);
      var S := SegsText(l.segs);
      ConcatAssoc(Lead(l), S, " ");
      ConcatAssoc(Lead(l), S + " ", t);
    }
  }

  /** Appending keeps every tag clean and every gap blank, and all but the new last
      segment keep a gap. */
  lemma AppendedGood(segs: seq<Seg>, k: int, o: string)
    requires segs != [] && GoodSegs(segs) && CleanOrder(o)
    ensures GoodSegs(Appended(segs, k, o))
  {
    var f := Appended(segs, k, o);
    var n := |segs|;
    assert Blank(segs[n - 1].gap + " ");
    forall i | 0 <= i < |f| ensures CleanOrder(f[i].order) && Blank(f[i].gap) {
      if i < n - 1 {
        assert f[i] == segs[i];
      }
    }
    forall i | 0 <= i < |f| - 1 ensures |f[i].gap| >= 1 {
      if i < n - 1 {
        assert f[i] == segs[i];
      }
    }
  }

  /** Appending a neighbour not named yet keeps the neighbours distinct. */
  lemma AppendedDistinct(segs: seq<Seg>, k: int, o: string)
    requires segs != [] && DistinctNbrs(segs)
    requires forall i :: 0 <= i < |segs| ==> segs[i].nbr != k
    ensures DistinctNbrs(Appended(segs, k, o))
  {
    var f := Appended(segs, k, o);
    var n := |segs|;
    forall i, j | 0 <= i < j < |f| ensures f[i].nbr != f[j].nbr {
      assert f[i].nbr == segs[i].nbr;
      if j < n {
        assert f[j].nbr == segs[j].nbr;
      }
    }
  }

  lemma FormedWellShaped(l: Shaped, k: int, o: string)
    requires WellShaped(l) && CleanOrder(o)
    requires forall i :: 0 <= i < |l.segs| ==> l.segs[i].nbr != k
    ensures WellShaped(Formed(l, k, o))
  {
    var f := Formed(l, k, o);
    if l.segs == [] {
      assert Blank(f.trail);
    } else {
      AppendedGood(l.segs, k, o);
      AppendedDistinct(l.segs, k, o);
    }
  }

  // ---------------------------------------------------------------------------
  // radChange on a shaped line

  /** The layout `radChange` relies on: index, blanks, label and element take up the
      first seven characters, so the radical count is the single digit at position 8;
      a blank follows it, and the element is not that same digit. */
  predicate RadColumn(l: Shaped) {
    && |IntToString(l.index)| + |l.pad| + |l.atomLabel| + |l.element| == 6
    && |l.radical| == 1 && IsDigit(l.radical[0])
    && l.element != l.radical
    && |l.trail| >= 1 && l.trail[0] == ' '
  }

  /** The first seven characters of a line in the radical-column layout. */
  function Front(l: Shaped): string {
    IntToString(l.index) + (l.pad + (l.atomLabel + (" " + l.element)))
  }

  lemma FrontThen(l: Shaped)
    ensures ShapedText(l) == Front(l) + (" " + (l.radical + (l.trail + SegsText(l.segs))))
  {
    TextNested(l);
    var x := " " + (l.radical + (l.trail + SegsText(l.segs)));
    ConcatAssoc(" ", l.element, x);
    ConcatAssoc(l.atomLabel, " " + l.element, x);
    ConcatAssoc(l.pad, l.atomLabel + (" " + l.element), x);
    ConcatAssoc(IntToString(l.index), l.pad + (l.atomLabel + (" " + l.element)), x);
  }

  /** No blank-digit-blank run of the radical digit starts in the first seven
      characters: a lone character between blanks there would have to be the whole
      label (which carries `*`) or the whole element (which differs from the count). */
  lemma FrontClear(l: Shaped)
    requires WellShaped(l) && RadColumn(l)
    ensures var w := Front(l) + [' ', l.radical[0]];
      forall i :: 0 <= i < 7 ==> !(w[i] == ' ' && w[i + 1] == l.radical[0] && w[i + 2] == ' ')
  {
    var d := l.radical[0];
    var idx := IntToString(l.index);
    var a := |idx|;
    var b := a + |l.pad|;
    var c := b + |l.atomLabel|;
    var w := Front(l) + [' ', d];
    assert |Front(l)| == 7;
    assert forall q :: 0 <= q < a ==> w[q] == idx[q];
    assert forall q :: a <= q < b ==> w[q] == l.pad[q - a];
    assert forall q :: b <= q < c ==> w[q] == l.atomLabel[q - b];
    assert w[c] == ' ';
    assert forall q :: c < q < 7 ==> w[q] == l.element[q - c - 1];
    assert w[7] == ' ' && w[8] == d;
    forall i | 0 <= i < 7 ensures !(w[i] == ' ' && w[i + 1] == d && w[i + 2] == ' ') {
      if i < a {
        assert !IsSpace(w[i]);
      } else if i < b && i + 1 < b {
        assert IsSpace(w[i + 1]);
      } else if i < b {
        if l.atomLabel == "" {
          assert w[i + 1] == ' ';
        } else if |l.atomLabel| >= 2 {
          assert !IsSpace(w[i + 2]);
        } else {
          assert l.atomLabel[0] == '*';
          assert w[i + 1] == '*';
        }
      } else if i < c {
        assert !IsSpace(w[i]);
      } else if i == c {
        if |l.element| >= 2 {
          assert w[i + 2] == l.element[1];
        } else {
          assert l.element == [l.element[0]];
          assert w[i + 1] == l.element[0];
        }
      } else {
        assert !IsSpace(w[i]);
      }
    }
  }

  /** After a blank, text made of blanks and bond tokens continues with a blank or a
      `{`, never with a digit. */
  predicate Settled(s: string) {
    forall j :: 0 <= j < |s| - 1 && IsSpace(s[j]) ==> IsSpace(s[j + 1]) || s[j + 1] == '{'
  }

  lemma SettledConcat(a: string, b: string)
    requires Settled(a) && Settled(b)
    requires a == [] || b == [] || !IsSpace(a[|a| - 1]) || IsSpace(b[0]) || b[0] == '{'
    ensures Settled(a + b)
  {
    var s := a + b;
    forall j | 0 <= j < |s| - 1 && IsSpace(s[j]) ensures IsSpace(s[j + 1]) || s[j + 1] == '{' {
      if j < |a| - 1 {
        assert s[j] == a[j] && s[j + 1] == a[j + 1];
      } else if j == |a| - 1 {
        assert s[j] == a[j] && s[j + 1] == b[0];
      } else {
        assert s[j] == b[j - |a|] && s[j + 1] == b[j + 1 - |a|];
      }
    }
  }

  lemma {:induction false} SegsSettled(segs: seq<Seg>)
    requires GoodSegs(segs)
    ensures Settled(SegsText(segs))
    ensures SegsText(segs) == [] || SegsText(segs)[0] == '{'
    decreases |segs|
  {
    if segs != [] {
      var s := segs[0];
      var rest := SegsText(segs[1..]);
      assert GoodSegs(segs[1..]) by {
        assert forall i :: 0 <= i < |segs| - 1 ==> segs[1..][i] == segs[i + 1];
      }
      SegsSettled(segs[1..]);
      SegOpen(s, rest);
      var tok := LineEdit.BondToken(s.nbr, s.order);
      LineEdit.TokenIsWord(s.nbr, s.order);
      SettledConcat(s.gap, rest);
      SettledConcat(tok, s.gap + rest);
    }
  }

  lemma OccursChars(s: string, d: char, i: int)
    ensures OccursAt(s, LineEdit.RadPattern(d), i)
      <==> 0 <= i && i + 3 <= |s| && s[i] == ' ' && s[i + 1] == d && s[i + 2] == ' '
  {
    if 0 <= i && i + 3 <= |s| {
      var t := s[i..i + 3];
      assert t[0] == s[i] && t[1] == s[i + 1] && t[2] == s[i + 2];
      if s[i] == ' ' && s[i + 1] == d && s[i + 2] == ' ' {
        assert t == LineEdit.RadPattern(d);
      }
    }
  }

  lemma SpliceSpaced(f: string, v: string, t: string)
    requires |t| >= 1 && t[0] == ' '
    ensures f + LineEdit.Spaced(v) + t[1..] == f + (" " + (v + t))
  {
    assert t == " " + t[1..];
    ConcatAssoc(" " + v, " ", t[1..]);
    ConcatAssoc(" ", v, t);
    ConcatAssoc(f, LineEdit.Spaced(v), t[1..]);
  }

  /** A digit between two blanks at position 8, after a seven-character front without
      such a run and before settled text, occurs there and nowhere else. */
  lemma LoneDigit(f: string, d: char, t: string)
    requires |f| == 7 && IsDigit(d) && |t| >= 1 && t[0] == ' ' && Settled(t)
    requires var w := f + [' ', d];
      forall i :: 0 <= i < 7 ==> !(w[i] == ' ' && w[i + 1] == d && w[i + 2] == ' ')
    ensures var line := f + (" " + ([d] + t));
      && |line| > 9 && line[8] == d
      && OccursAt(line, LineEdit.RadPattern(d), 7)
      && forall i :: 0 <= i < |line| && i != 7 ==> !OccursAt(line, LineEdit.RadPattern(d), i)
  {
    var line := f + (" " + ([d] + t));
    var w := f + [' ', d];
    assert line[..9] == w;
    assert forall j :: 0 <= j < |t| ==> line[9 + j] == t[j];
    forall i | 0 <= i < |line| && i != 7 ensures !OccursAt(line, LineEdit.RadPattern(d), i) {
      OccursChars(line, d, i);
      if i < 7 {
        assert line[i] == w[i] && line[i + 1] == w[i + 1];
        if i + 2 < 9 {
          assert line[i + 2] == w[i + 2];
        }
      } else if i == 8 {
        assert line[i] == d;
      } else if i + 2 < |line| && IsSpace(line[i]) {
        assert line[i] == t[i - 9] && line[i + 1] == t[i - 8];
      }
    }
    OccursChars(line, d, 7);
  }

  /** `radChange` on such a text rewrites the digit at position 8 and nothing else. */
  lemma RadSplice(f: string, d: char, t: string, amount: string, decrease: bool, v: int)
    requires |f| == 7 && IsDigit(d) && |t| >= 1 && t[0] == ' ' && Settled(t)
    requires var w := f + [' ', d];
      forall i :: 0 <= i < 7 ==> !(w[i] == ' ' && w[i + 1] == d && w[i + 2] == ' ')
    requires ParseInt(amount).Ok?
    requires v == if decrease then DigitValue(d) as int - ParseInt(amount).value
                  else DigitValue(d) as int + ParseInt(amount).value
    ensures LineEdit.RadChange(f + (" " + ([d] + t)), amount, decrease) == Ok(f + (" " + (IntToString(v) + t)))
  {
    var line := f + (" " + ([d] + t));
    LoneDigit(f, d, t);
    LineEdit.RadChangeOnce(line, amount, decrease, 7);
    assert line[..7] == f;
    assert line[10..] == t[1..];
    SpliceSpaced(f, IntToString(v), t);
  }

  /** The radical count after adding or taking away `amt`. */
  function NewCount(l: Shaped, amt: int, decrease: bool): int
    requires |l.radical| == 1 && IsDigit(l.radical[0])
  {
    var prev := DigitValue(l.radical[0]) as int;
    if decrease then prev - amt else prev + amt
  }

  /** The new radical field after a radical action on a line in the radical-column
      layout. */
  function Recounted(l: Shaped, amount: string, decrease: bool): Shaped
    requires RadColumn(l) && ParseInt(amount).Ok?
  {
    l.(radical := IntToString(NewCount(l, ParseInt(amount).value, decrease)))
  }

  /** `radChange` on a line in the radical-column layout rewrites the radical count
      and nothing else. */
  lemma RadShape(l: Shaped, amount: string, decrease: bool)
    requires WellShaped(l) && RadColumn(l) && ParseInt(amount).Ok?
    ensures LineEdit.RadChange(ShapedText(l), amount, decrease) == Ok(ShapedText(Recounted(l, amount, decrease)))
  {
    var d := l.radical[0];
    var t := l.trail + SegsText(l.segs);
    var prev := DigitValue(d) as int;
    var amt := ParseInt(amount).value;
    var v := NewCount(l, amt, decrease);
    FrontThen(l);
    assert l.radical == [d];
    FrontClear(l);
    SegsSettled(l.segs);
    SettledConcat(l.trail, SegsText(l.segs));
    assert t[0] == ' ';
    RadSplice(Front(l), d, t, amount, decrease, v);
    var l2 := Recounted(l, amount, decrease);
    FrontThen(l2);
    assert Front(l2) == Front(l);
  }
}

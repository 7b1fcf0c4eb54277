/** `matchAtoms` on lines in the adjacency-list layout.  A list of `Shaped` lines
    stands for the reactant; `Step` says what an action does to such a list, field by
    field, whenever the action is one the driver carries out as intended (known labels,
    indices inside the list, a bond formed only where there is none, a radical count
    that stays a single digit).  `StepText` shows that the text driver of `Engine` does
    exactly that to the lines' text. */
module Reaction {
  import opened Results
  import opened Text
  import opened Numerals
  import opened AdjList
  import opened Shapes
  import opened Engine
  import opened PyList
  import LineEdit

  /** The text of each line. */
  function Texts(ls: seq<Shaped>): (r: seq<string>)
    ensures |r| == |ls| && forall i :: 0 <= i < |ls| ==> r[i] == ShapedText(ls[i])
  {
    seq(|ls|, i requires 0 <= i < |ls| => ShapedText(ls[i]))
  }

  /** Line `i` (from 0) describes atom `i + 1`, as the driver's `index - 1` lookups
      assume. */
  predicate Numbered(ls: seq<Shaped>) {
    forall i :: 0 <= i < |ls| ==> ls[i].index == i + 1
  }

  predicate AllWell(ls: seq<Shaped>) {
    forall i :: 0 <= i < |ls| ==> WellShaped(ls[i])
  }

  lemma TextsUpdate(ls: seq<Shaped>, j: nat, x: Shaped)
    requires j < |ls|
    ensures Texts(ls)[j := ShapedText(x)] == Texts(ls[j := x])
  {
  }

  // ---------------------------------------------------------------------------
  // The label map of shaped lines

  lemma {:induction false} SegsNoStar(segs: seq<Seg>)
    requires GoodSegs(segs)
    ensures '*' !in SegsText(segs)
    decreases |segs|
  {
    if segs != [] {
      assert GoodSegs(segs[1..]) by {
        assert forall i :: 0 <= i < |segs| - 1 ==> segs[1..][i] == segs[i + 1];
      }
      SegsNoStar(segs[1..]);
      assert '*' !in Piece(segs[0]);
    }
  }

  /** A well-shaped line contains `*` exactly when it carries a label. */
  lemma StarIffLabel(l: Shaped)
    requires WellShaped(l)
    ensures '*' in ShapedText(l) <==> l.atomLabel != ""
  {
    TextNested(l);
    SegsNoStar(l.segs);
    assert '*' !in l.pad && '*' !in l.trail;
  }

  /** The driver reads a labelled line's label and index. */
  lemma LabelEntryShaped(l: Shaped)
    requires WellShaped(l) && l.atomLabel != ""
    ensures LabelEntry(ShapedText(l)) == Ok((l.atomLabel, l.index))
  {
    ShapedWords(l);
    ParseIntToString(l.index);
  }

  /** The label map of shaped lines: each labelled line's label to its index, a later
      line winning. */
  function ShapedLabels(ls: seq<Shaped>, acc: Labels): Labels
    decreases |ls|
  {
    if ls == [] then acc
    else ShapedLabels(ls[1..], if ls[0].atomLabel != "" then acc[ls[0].atomLabel := ls[0].index] else acc)
  }

  lemma {:induction false} LabelsShaped(ls: seq<Shaped>, acc: Labels)
    requires AllWell(ls)
    ensures LabelsFrom(Texts(ls), acc) == Ok(ShapedLabels(ls, acc))
    decreases |ls|
  {
    if ls != [] {
      var ts := Texts(ls);
      assert ts[1..] == Texts(ls[1..]);
      StarIffLabel(ls[0]);
      if ls[0].atomLabel != "" {
        LabelEntryShaped(ls[0]);
      }
      LabelsShaped(ls[1..], if ls[0].atomLabel != "" then acc[ls[0].atomLabel := ls[0].index] else acc);
    }
  }

  /** A label no line carries keeps whatever entry the accumulator gave it. */
  lemma {:induction false} LabelsKeep(ls: seq<Shaped>, acc: Labels, lab: string)
    requires forall j :: 0 <= j < |ls| ==> ls[j].atomLabel != lab
    ensures lab in ShapedLabels(ls, acc) <==> lab in acc
    ensures lab in acc ==> ShapedLabels(ls, acc)[lab] == acc[lab]
    decreases |ls|
  {
    if ls != [] {
      var next := if ls[0].atomLabel != "" then acc[ls[0].atomLabel := ls[0].index] else acc;
      assert forall j :: 0 <= j < |ls[1..]| ==> ls[1..][j].atomLabel != lab by {
        forall j | 0 <= j < |ls[1..]| ensures ls[1..][j].atomLabel != lab {
          assert ls[1..][j] == ls[j + 1];
        }
      }
      LabelsKeep(ls[1..], next, lab);
    }
  }

  /** The label map sends a label to the index of the last line carrying it. */
  lemma {:induction false} LabelAt(ls: seq<Shaped>, acc: Labels, i: nat)
    requires i < |ls| && ls[i].atomLabel != ""
    requires forall j :: i < j < |ls| ==> ls[j].atomLabel != ls[i].atomLabel
    ensures ls[i].atomLabel in ShapedLabels(ls, acc)
    ensures ShapedLabels(ls, acc)[ls[i].atomLabel] == ls[i].index
    decreases |ls|
  {
    var next := if ls[0].atomLabel != "" then acc[ls[0].atomLabel := ls[0].index] else acc;
    if i == 0 {
      assert forall j :: 0 <= j < |ls[1..]| ==> ls[1..][j].atomLabel != ls[0].atomLabel by {
        forall j | 0 <= j < |ls[1..]| ensures ls[1..][j].atomLabel != ls[0].atomLabel {
          assert ls[1..][j] == ls[j + 1];
        }
      }
      LabelsKeep(ls[1..], next, ls[0].atomLabel);
    } else {
      assert ls[1..][i - 1] == ls[i];
      assert forall j :: i - 1 < j < |ls[1..]| ==> ls[1..][j].atomLabel != ls[i].atomLabel by {
        forall j | i - 1 < j < |ls[1..]| ensures ls[1..][j].atomLabel != ls[i].atomLabel {
          assert ls[1..][j] == ls[j + 1];
        }
      }
      LabelAt(ls[1..], next, i - 1);
    }
  }

  // ---------------------------------------------------------------------------
  // One action on shaped lines

  /** The line `idx` points at, when it is inside the list. */
  predicate InRange(ls: seq<Shaped>, idx: int) {
    1 <= idx <= |ls|
  }

  /** Whether some bond token of the line already names neighbour `k`. */
  function HasNbr(l: Shaped, k: int): bool {
    NbrIn(l.segs, k)
  }

  function NbrIn(segs: seq<Seg>, k: int): bool
    decreases |segs|
  {
    segs != [] && (segs[0].nbr == k || NbrIn(segs[1..], k))
  }

  lemma {:induction false} NbrInIff(segs: seq<Seg>, k: int)
    ensures NbrIn(segs, k) <==> exists i :: 0 <= i < |segs| && segs[i].nbr == k
    decreases |segs|
  {
    if segs != [] {
      NbrInIff(segs[1..], k);
      if NbrIn(segs[1..], k) {
        var i :| 0 <= i < |segs[1..]| && segs[1..][i].nbr == k;
        assert segs[i + 1].nbr == k;
      }
      if exists i :: 0 <= i < |segs| && segs[i].nbr == k {
        var i :| 0 <= i < |segs| && segs[i].nbr == k;
        if i > 0 {
          assert segs[1..][i - 1].nbr == k;
        }
      }
    }
  }

  function Broken(ls: seq<Shaped>, i1: int, i2: int): seq<Shaped>
    requires InRange(ls, i1) && InRange(ls, i2)
  {
    var s1 := ls[i1 - 1 := ls[i1 - 1].(segs := Without(ls[i1 - 1].segs, i2))];
    s1[i2 - 1 := s1[i2 - 1].(segs := Without(s1[i2 - 1].segs, i1))]
  }

  function Bonded(ls: seq<Shaped>, i1: int, i2: int, o: string): seq<Shaped>
    requires InRange(ls, i1) && InRange(ls, i2)
  {
    var s1 := ls[i1 - 1 := Formed(ls[i1 - 1], i2, o)];
    s1[i2 - 1 := Formed(s1[i2 - 1], i1, o)]
  }

  /** Line `i` with its radical count moved by `amount`, the other lines unchanged. */
  function Recharged(ls: seq<Shaped>, i: int, amount: string, decrease: bool): seq<Shaped>
    requires InRange(ls, i) && RadColumn(ls[i - 1]) && ParseInt(amount).Ok?
  {
    ls[i - 1 := Recounted(ls[i - 1], amount, decrease)]
  }

  /** What one action does to shaped lines; `None` for an action outside the intended
      use (an error in the source, or an edit that would not leave lines of this
      shape). */
  function Step(ls: seq<Shaped>, labels: Labels, action: seq<string>): Option<seq<Shaped>> {
    if action == [] then None
    else
      var kind := Lower(action[0]);
      if kind == BreakBond || kind == FormBond then
        if |action| < 4 || action[1] !in labels || action[3] !in labels then None
        else
          var i1 := labels[action[1]];
          var i2 := labels[action[3]];
          if !InRange(ls, i1) || !InRange(ls, i2) then None
          else if kind == BreakBond then Some(Broken(ls, i1, i2))
          else if i1 == i2 || !CleanOrder(action[2]) || HasNbr(ls[i1 - 1], i2) || HasNbr(ls[i2 - 1], i1) then None
          else Some(Bonded(ls, i1, i2, action[2]))
      else if kind == GainRadical || kind == LoseRadical then
        if |action| < 3 || action[1] !in labels then None
        else
          var i := labels[action[1]];
          if !InRange(ls, i) || !RadColumn(ls[i - 1]) || ParseInt(action[2]).Err? then None
          else
            var v := NewCount(ls[i - 1], ParseInt(action[2]).value, kind == LoseRadical);
            if 0 <= v <= 9 then Some(Recharged(ls, i, action[2], kind == LoseRadical)) else None
      else Some(ls)
  }

  /** Unfolds `Step` for a bond action on known labels inside the list: it breaks the
      bond, or forms it when neither line names the other yet. */
  lemma BondStep(ls: seq<Shaped>, labels: Labels, action: seq<string>)
    requires |action| >= 4 && action[1] in labels && action[3] in labels
    requires InRange(ls, labels[action[1]]) && InRange(ls, labels[action[3]])
    ensures Lower(action[0]) == BreakBond ==>
      Step(ls, labels, action) == Some(Broken(ls, labels[action[1]], labels[action[3]]))
    ensures var i1, i2 := labels[action[1]], labels[action[3]];
      Lower(action[0]) == FormBond && i1 != i2 && CleanOrder(action[2])
      && !HasNbr(ls[i1 - 1], i2) && !HasNbr(ls[i2 - 1], i1) ==>
      Step(ls, labels, action) == Some(Bonded(ls, i1, i2, action[2]))
  {
  }

  /** Unfolds `Step` for a radical action on a known label whose line has its count in
      column 8: it rewrites that count when the new one is a single digit. */
  lemma RadicalStep(ls: seq<Shaped>, labels: Labels, action: seq<string>)
    requires |action| >= 3 && action[1] in labels && InRange(ls, labels[action[1]])
    requires Lower(action[0]) == GainRadical || Lower(action[0]) == LoseRadical
    requires RadColumn(ls[labels[action[1]] - 1]) && ParseInt(action[2]).Ok?
    ensures var i, down := labels[action[1]], Lower(action[0]) == LoseRadical;
      0 <= NewCount(ls[i - 1], ParseInt(action[2]).value, down) <= 9 ==>
      Step(ls, labels, action) == Some(Recharged(ls, i, action[2], down))
  {
  }

  // ---------------------------------------------------------------------------
  // The text driver follows the shaped one

  lemma AllWellUpdate(ls: seq<Shaped>, j: nat, x: Shaped)
    requires AllWell(ls) && j < |ls| && WellShaped(x)
    ensures AllWell(ls[j := x])
  {
  }

  /** Editing line `idx` in place through its text. */
  lemma EditShaped(ls: seq<Shaped>, idx: int, op: LineOp, x: Shaped)
    requires InRange(ls, idx)
    requires ApplyOp(ShapedText(ls[idx - 1]), op) == Ok(ShapedText(x))
    ensures EditLine(Texts(ls), idx, op) == Ok(Texts(ls[idx - 1 := x]))
  {
    EditInPlace(Texts(ls), idx, op);
    TextsUpdate(ls, idx - 1, x);
  }

  lemma BreakLine(ls: seq<Shaped>, idx: int, k: int)
    requires AllWell(ls) && InRange(ls, idx)
    ensures var ls' := ls[idx - 1 := ls[idx - 1].(segs := Without(ls[idx - 1].segs, k))];
      EditLine(Texts(ls), idx, Break(k)) == Ok(Texts(ls')) && AllWell(ls')
  {
    var l := ls[idx - 1];
    var x := l.(segs := Without(l.segs, k));
    BreakShape(l, k);
    EditShaped(ls, idx, Break(k), x);
    WithoutWellShaped(l, k);
    AllWellUpdate(ls, idx - 1, x);
  }

  lemma FormLine(ls: seq<Shaped>, idx: int, k: int, o: string)
    requires InRange(ls, idx)
    ensures EditLine(Texts(ls), idx, Form(k, o)) == Ok(Texts(ls[idx - 1 := Formed(ls[idx - 1], k, o)]))
  {
    FormShape(ls[idx - 1], k, o);
    EditShaped(ls, idx, Form(k, o), Formed(ls[idx - 1], k, o));
  }

  lemma StepBreak(ls: seq<Shaped>, i1: int, i2: int)
    requires AllWell(ls) && InRange(ls, i1) && InRange(ls, i2)
    ensures EditBoth(Texts(ls), i1, Break(i2), i2, Break(i1)) == Ok(Texts(Broken(ls, i1, i2)))
    ensures AllWell(Broken(ls, i1, i2))
  {
    var s1 := ls[i1 - 1 := ls[i1 - 1].(segs := Without(ls[i1 - 1].segs, i2))];
    BreakLine(ls, i1, i2);
    BreakLine(s1, i2, i1);
    var e1 := EditLine(Texts(ls), i1, Break(i2));
    assert EditBoth(Texts(ls), i1, Break(i2), i2, Break(i1)) == EditLine(e1.value, i2, Break(i1));
  }

  lemma StepFormText(ls: seq<Shaped>, i1: int, i2: int, o: string)
    requires InRange(ls, i1) && InRange(ls, i2)
    ensures EditBoth(Texts(ls), i1, Form(i2, o), i2, Form(i1, o)) == Ok(Texts(Bonded(ls, i1, i2, o)))
  {
    var s1 := ls[i1 - 1 := Formed(ls[i1 - 1], i2, o)];
    FormLine(ls, i1, i2, o);
    FormLine(s1, i2, i1, o);
    var e1 := EditLine(Texts(ls), i1, Form(i2, o));
    assert EditBoth(Texts(ls), i1, Form(i2, o), i2, Form(i1, o)) == EditLine(e1.value, i2, Form(i1, o));
  }

  lemma StepFormWell(ls: seq<Shaped>, i1: int, i2: int, o: string)
    requires AllWell(ls) && InRange(ls, i1) && InRange(ls, i2) && i1 != i2 && CleanOrder(o)
    requires !HasNbr(ls[i1 - 1], i2) && !HasNbr(ls[i2 - 1], i1)
    ensures AllWell(Bonded(ls, i1, i2, o))
  {
    var x1 := Formed(ls[i1 - 1], i2, o);
    var x2 := Formed(ls[i2 - 1], i1, o);
    NbrInIff(ls[i1 - 1].segs, i2);
    NbrInIff(ls[i2 - 1].segs, i1);
    FormedWellShaped(ls[i1 - 1], i2, o);
    FormedWellShaped(ls[i2 - 1], i1, o);
    var s1 := ls[i1 - 1 := x1];
    assert s1[i2 - 1] == ls[i2 - 1];
    var s2 := s1[i2 - 1 := x2];
    assert Bonded(ls, i1, i2, o) == s2;
    forall j | 0 <= j < |s2| ensures WellShaped(s2[j]) {
      if j != i1 - 1 && j != i2 - 1 {
        assert s2[j] == ls[j];
      }
    }
  }

  lemma StepForm(ls: seq<Shaped>, i1: int, i2: int, o: string)
    requires AllWell(ls) && InRange(ls, i1) && InRange(ls, i2) && i1 != i2 && CleanOrder(o)
    requires !HasNbr(ls[i1 - 1], i2) && !HasNbr(ls[i2 - 1], i1)
    ensures EditBoth(Texts(ls), i1, Form(i2, o), i2, Form(i1, o)) == Ok(Texts(Bonded(ls, i1, i2, o)))
    ensures AllWell(Bonded(ls, i1, i2, o))
  {
    StepFormText(ls, i1, i2, o);
    StepFormWell(ls, i1, i2, o);
  }

  /** Popping a line's text and inserting a replacement's text at the same place
      replaces that line. */
  lemma TextsInPlace(ls: seq<Shaped>, j: nat, x: Shaped)
    requires j < |ls|
    ensures Pop(Texts(ls), j).Ok? && Pop(Texts(ls), j).value.0 == ShapedText(ls[j])
    ensures Insert(Pop(Texts(ls), j).value.1, j, ShapedText(x)) == Texts(ls[j := x])
  {
    PopInsertInPlace(Texts(ls), j, ShapedText(x));
    TextsUpdate(ls, j, x);
  }

  lemma RadWell(ls: seq<Shaped>, i: int, amount: string, decrease: bool)
    requires AllWell(ls) && InRange(ls, i) && RadColumn(ls[i - 1]) && ParseInt(amount).Ok?
    ensures AllWell(Recharged(ls, i, amount, decrease))
  {
    var x := Recounted(ls[i - 1], amount, decrease);
    assert WellShaped(x);
    AllWellUpdate(ls, i - 1, x);
  }

  /** A radical action on a known label whose line pops out and edits cleanly puts the
      edited line back in its place. */
  lemma RadicalAction(lines: seq<string>, labels: Labels, action: seq<string>, i: int, decrease: bool,
                      edited: string)
    requires |action| >= 3 && (Lower(action[0]) == GainRadical || Lower(action[0]) == LoseRadical)
    requires decrease == (Lower(action[0]) == LoseRadical)
    requires action[1] in labels && labels[action[1]] == i && Pop(lines, i - 1).Ok?
    requires LineEdit.RadChange(Pop(lines, i - 1).value.0, action[2], decrease) == Ok(edited)
    ensures ApplyAction(lines, labels, action) == Ok(Insert(Pop(lines, i - 1).value.1, i - 1, edited))
  {
    RadicalName(Lower(action[0]));
    assert Lookup(labels, action, 1) == Ok(i);
    assert At(action, 2) == Ok(action[2]);
  }

  /** GAIN_RADICAL or LOSE_RADICAL on a known label whose line has its count in column
      8: `ApplyAction` rewrites that line's radical field in the text, to the old count
      plus or minus the amount, and the lines stay well shaped. */
  lemma StepRadical(ls: seq<Shaped>, labels: Labels, action: seq<string>, i: int, decrease: bool)
    requires AllWell(ls) && |action| >= 3
    requires Lower(action[0]) == GainRadical || Lower(action[0]) == LoseRadical
    requires decrease == (Lower(action[0]) == LoseRadical)
    requires action[1] in labels && labels[action[1]] == i && InRange(ls, i)
    requires RadColumn(ls[i - 1]) && ParseInt(action[2]).Ok?
    ensures ApplyAction(Texts(ls), labels, action)
      == Ok(Texts(Recharged(ls, i, action[2], decrease)))
    ensures AllWell(Recharged(ls, i, action[2], decrease))
  {
    var x := Recounted(ls[i - 1], action[2], decrease);
    assert WellShaped(ls[i - 1]);
    RadShape(ls[i - 1], action[2], decrease);
    TextsInPlace(ls, i - 1, x);
    RadWell(ls, i, action[2], decrease);
    RadicalAction(Texts(ls), labels, action, i, decrease, ShapedText(x));
  }

  /** A bond breaking on known labels edits both lines of the text. */
  lemma BreakAction(lines: seq<string>, labels: Labels, action: seq<string>)
    requires |action| >= 4 && Lower(action[0]) == BreakBond
    requires action[1] in labels && action[3] in labels
    ensures var i1, i2 := labels[action[1]], labels[action[3]];
      ApplyAction(lines, labels, action) == EditBoth(lines, i1, Break(i2), i2, Break(i1))
  {
    BondName(Lower(action[0]));
    assert Lookup(labels, action, 1) == Ok(labels[action[1]]);
    assert Lookup(labels, action, 3) == Ok(labels[action[3]]);
  }

  /** A bond formation on known labels edits both lines of the text. */
  lemma FormingAction(lines: seq<string>, labels: Labels, action: seq<string>)
    requires |action| >= 4 && Lower(action[0]) == FormBond
    requires action[1] in labels && action[3] in labels
    ensures var i1, i2 := labels[action[1]], labels[action[3]];
      ApplyAction(lines, labels, action) == EditBoth(lines, i1, Form(i2, action[2]), i2, Form(i1, action[2]))
  {
    BondName(Lower(action[0]));
    assert Lower(action[0]) != BreakBond by {
      assert |Lower(action[0])| == 9;
    }
    assert Lookup(labels, action, 1) == Ok(labels[action[1]]);
    assert Lookup(labels, action, 3) == Ok(labels[action[3]]);
  }

  /** The edits change no line's index. */
  lemma StepKeepsIndices(ls: seq<Shaped>, labels: Labels, action: seq<string>)
    requires Step(ls, labels, action).Some?
    ensures var ls' := Step(ls, labels, action).value;
      |ls'| == |ls| && forall i :: 0 <= i < |ls| ==> ls'[i].index == ls[i].index
  {
  }

  /** What `Step` needs to describe a bond formation, and the lines it then gives. */
  lemma StepFormCase(ls: seq<Shaped>, labels: Labels, action: seq<string>)
    requires Step(ls, labels, action).Some?
    requires action != [] && Lower(action[0]) == FormBond
    ensures |action| >= 4 && action[1] in labels && action[3] in labels
    ensures var i1, i2 := labels[action[1]], labels[action[3]];
      && InRange(ls, i1) && InRange(ls, i2) && i1 != i2 && CleanOrder(action[2])
      && !HasNbr(ls[i1 - 1], i2) && !HasNbr(ls[i2 - 1], i1)
      && Step(ls, labels, action).value == Bonded(ls, i1, i2, action[2])
  {
    BondName(Lower(action[0]));
  }

  /** What `Step` needs to describe a bond breaking, and the lines it then gives. */
  lemma StepBreakCase(ls: seq<Shaped>, labels: Labels, action: seq<string>)
    requires Step(ls, labels, action).Some?
    requires action != [] && Lower(action[0]) == BreakBond
    ensures |action| >= 4 && action[1] in labels && action[3] in labels
    ensures var i1, i2 := labels[action[1]], labels[action[3]];
      && InRange(ls, i1) && InRange(ls, i2)
      && Step(ls, labels, action).value == Broken(ls, i1, i2)
  {
    BondName(Lower(action[0]));
  }

  /** What `Step` needs to describe a radical change, and the lines it then gives. */
  lemma StepRadicalCase(ls: seq<Shaped>, labels: Labels, action: seq<string>)
    requires Step(ls, labels, action).Some?
    requires action != [] && (Lower(action[0]) == GainRadical || Lower(action[0]) == LoseRadical)
    ensures |action| >= 3 && action[1] in labels && InRange(ls, labels[action[1]])
    ensures RadColumn(ls[labels[action[1]] - 1]) && ParseInt(action[2]).Ok?
    ensures Step(ls, labels, action).value
      == Recharged(ls, labels[action[1]], action[2], Lower(action[0]) == LoseRadical)
  {
    RadicalName(Lower(action[0]));
  }

  /** The text driver's result and the shape of `Step`'s lines, for one action. */
  predicate Follows(ls: seq<Shaped>, labels: Labels, action: seq<string>)
    requires Step(ls, labels, action).Some?
  {
    var ls' := Step(ls, labels, action).value;
    ApplyAction(Texts(ls), labels, action) == Ok(Texts(ls')) && AllWell(ls')
  }

  /** `Follows` holds once the lines `Step` gives are known to be the text driver's. */
  lemma FollowsFrom(ls: seq<Shaped>, labels: Labels, action: seq<string>, ls': seq<Shaped>)
    requires Step(ls, labels, action).Some? && Step(ls, labels, action).value == ls'
    requires ApplyAction(Texts(ls), labels, action) == Ok(Texts(ls')) && AllWell(ls')
    ensures Follows(ls, labels, action)
  {
  }

  lemma StepTextBreak(ls: seq<Shaped>, labels: Labels, action: seq<string>)
    requires AllWell(ls) && Step(ls, labels, action).Some?
    requires action != [] && Lower(action[0]) == BreakBond
    ensures Follows(ls, labels, action)
  {
    StepBreakCase(ls, labels, action);
    BreakAction(Texts(ls), labels, action);
    StepBreak(ls, labels[action[1]], labels[action[3]]);
  }

  /** BREAK_BOND on known labels whose lines are in the list: `ApplyAction` cuts the
      tokens naming the other atom out of each of the two lines' text, whether or not
      there were any, and the lines stay well shaped. */
  lemma BreakText(ls: seq<Shaped>, labels: Labels, action: seq<string>, i1: int, i2: int)
    requires AllWell(ls) && |action| >= 4 && Lower(action[0]) == BreakBond
    requires action[1] in labels && action[3] in labels
    requires labels[action[1]] == i1 && labels[action[3]] == i2
    requires InRange(ls, i1) && InRange(ls, i2)
    ensures ApplyAction(Texts(ls), labels, action) == Ok(Texts(Broken(ls, i1, i2)))
    ensures AllWell(Broken(ls, i1, i2))
  {
    BreakAction(Texts(ls), labels, action);
    StepBreak(ls, i1, i2);
  }

  /** A bond formation that `Step` describes is what `ApplyAction` does to the text. */
  lemma FormAction(ls: seq<Shaped>, labels: Labels, action: seq<string>, i1: int, i2: int)
    requires AllWell(ls) && |action| >= 4 && Lower(action[0]) == FormBond
    requires action[1] in labels && action[3] in labels
    requires labels[action[1]] == i1 && labels[action[3]] == i2
    requires InRange(ls, i1) && InRange(ls, i2) && i1 != i2 && CleanOrder(action[2])
    requires !HasNbr(ls[i1 - 1], i2) && !HasNbr(ls[i2 - 1], i1)
    ensures ApplyAction(Texts(ls), labels, action) == Ok(Texts(Bonded(ls, i1, i2, action[2])))
    ensures AllWell(Bonded(ls, i1, i2, action[2]))
  {
    FormingAction(Texts(ls), labels, action);
    StepForm(ls, i1, i2, action[2]);
  }

  lemma StepTextForm(ls: seq<Shaped>, labels: Labels, action: seq<string>)
    requires AllWell(ls) && Step(ls, labels, action).Some?
    requires action != [] && Lower(action[0]) == FormBond
    ensures Follows(ls, labels, action)
  {
    StepFormCase(ls, labels, action);
    FormAction(ls, labels, action, labels[action[1]], labels[action[3]]);
  }

  lemma StepTextRadical(ls: seq<Shaped>, labels: Labels, action: seq<string>)
    requires AllWell(ls) && Step(ls, labels, action).Some?
    requires action != [] && (Lower(action[0]) == GainRadical || Lower(action[0]) == LoseRadical)
    ensures Follows(ls, labels, action)
  {
    StepRadicalCase(ls, labels, action);
    StepRadical(ls, labels, action, labels[action[1]], Lower(action[0]) == LoseRadical);
  }

  /** Whenever `Step` describes an action, `ApplyAction` does it to the lines' text,
      and the lines keep their shape and numbering. */
  lemma StepText(ls: seq<Shaped>, labels: Labels, action: seq<string>)
    requires AllWell(ls)
    requires Step(ls, labels, action).Some?
    ensures var ls' := Step(ls, labels, action).value;
      && ApplyAction(Texts(ls), labels, action) == Ok(Texts(ls'))
      && AllWell(ls') && |ls'| == |ls|
      && (Numbered(ls) ==> Numbered(ls'))
  {
    StepKeepsIndices(ls, labels, action);
    var kind := Lower(action[0]);
    if kind == BreakBond {
      StepTextBreak(ls, labels, action);
    } else if kind == FormBond {
      StepTextForm(ls, labels, action);
    } else if kind == GainRadical || kind == LoseRadical {
      StepTextRadical(ls, labels, action);
    }
    assert Follows(ls, labels, action);
  }

  /** A list of actions, one `Step` after another, with the label map fixed. */
  function Steps(ls: seq<Shaped>, labels: Labels, actions: seq<seq<string>>): Option<seq<Shaped>>
    decreases |actions|
  {
    if actions == [] then Some(ls)
    else
      match Step(ls, labels, actions[0])
      case None => None
      case Some(next) => Steps(next, labels, actions[1..])
  }

  /** `RunActions` on the lines' text follows `Steps` action by action. */
  lemma {:induction false} StepsText(ls: seq<Shaped>, labels: Labels, actions: seq<seq<string>>)
    requires AllWell(ls)
    requires Steps(ls, labels, actions).Some?
    ensures var ls' := Steps(ls, labels, actions).value;
      && RunActions(Texts(ls), labels, actions) == Ok(Texts(ls'))
      && AllWell(ls') && |ls'| == |ls|
      && (Numbered(ls) ==> Numbered(ls'))
    decreases |actions|
  {
    if actions != [] {
      StepText(ls, labels, actions[0]);
      var next := Step(ls, labels, actions[0]).value;
      StepsText(next, labels, actions[1..]);
    }
  }

  /** `matchAtoms` on shaped lines: the label map is the labelled lines' labels, and the
      product is what `Steps` gives. */
  lemma MatchShaped(ls: seq<Shaped>, actions: seq<seq<string>>)
    requires AllWell(ls)
    requires Steps(ls, ShapedLabels(ls, map[]), actions).Some?
    ensures MatchAtoms(Texts(ls), actions) == Ok(Texts(Steps(ls, ShapedLabels(ls, map[]), actions).value))
  {
    LabelsShaped(ls, map[]);
    StepsText(ls, ShapedLabels(ls, map[]), actions);
  }
}

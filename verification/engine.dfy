/** `matchAtoms`, the edit driver.  It reads the label-to-index map once from the
    reactant lines, then applies the actions in order; each action finds its lines by
    position `index - 1`, pops the line, edits it with one of the `LineEdit` editors and
    inserts the result back at the same position.  Action names are compared after
    lower-casing, and a name none of the four branches knows leaves the lines as they
    are. */
module Engine {
  import opened Results
  import opened Text
  import opened Numerals
  import opened PyList
  import LineEdit

  /** `rdict`: label text to atom index. */
  type Labels = map<string, int>

  const BreakBond: string := "break_bond"
  const FormBond: string := "form_bond"
  const GainRadical: string := "gain_radical"
  const LoseRadical: string := "lose_radical"

  predicate KnownName(kind: string) {
    kind == BreakBond || kind == FormBond || kind == GainRadical || kind == LoseRadical
  }

  predicate IsBondAction(kind: string) {
    kind == BreakBond || kind == FormBond
  }

  predicate IsRadicalAction(kind: string) {
    kind == GainRadical || kind == LoseRadical
  }

  /** A radical action's name is not a bond action's name. */
  lemma RadicalName(kind: string)
    requires kind == GainRadical || kind == LoseRadical
    ensures kind != BreakBond && kind != FormBond
  {
    assert |kind| == 12;
  }

  /** A bond action's name is not a radical action's name. */
  lemma BondName(kind: string)
    requires kind == BreakBond || kind == FormBond
    ensures kind != GainRadical && kind != LoseRadical
  {
    assert |kind| < 12;
  }

  // ---------------------------------------------------------------------------
  // rdict

  /** `rdict[line.split()[1]] = int(line.split()[0])` for a line containing `*`: the
      right-hand side is evaluated first. */
  function LabelEntry(line: string): (r: Result<(string, int)>)
    ensures r.Ok? ==> |Words(line)| >= 2 && r.value.0 == Words(line)[1]
                      && ParseInt(Words(line)[0]) == Ok(r.value.1)
    ensures r.Err? ==> r.error == IndexError || r.error == ValueError
  {
    var ws := Words(line);
    if |ws| == 0 then Err(IndexError)
    else
      var idx :- ParseInt(ws[0]);
      if |ws| < 2 then Err(IndexError) else Ok((ws[1], idx))
  }

  function LabelsFrom(lines: seq<string>, acc: Labels): Result<Labels>
    decreases |lines|
  {
    if lines == [] then Ok(acc)
    else if '*' in lines[0] then
      var e :- LabelEntry(lines[0]);
      LabelsFrom(lines[1..], acc[e.0 := e.1])
    else LabelsFrom(lines[1..], acc)
  }

  /** The label map of the reactant lines; a later line with the same label wins. */
  function LabelMap(lines: seq<string>): Result<Labels> {
    LabelsFrom(lines, map[])
  }

  /** Lines without `*` contribute nothing to the label map. */
  lemma {:induction false} LabelsFromUnlabelled(lines: seq<string>, acc: Labels)
    requires forall i :: 0 <= i < |lines| ==> '*' !in lines[i]
    ensures LabelsFrom(lines, acc) == Ok(acc)
    decreases |lines|
  {
    if lines != [] {
      LabelsFromUnlabelled(lines[1..], acc);
    }
  }

  // ---------------------------------------------------------------------------
  // One action

  /** `rdict[action[i]]`. */
  function Lookup(labels: Labels, action: seq<string>, i: int): (r: Result<int>)
    ensures r.Ok? <==> At(action, i).Ok? && At(action, i).value in labels
    ensures r.Ok? ==> r.value == labels[At(action, i).value]
    ensures At(action, i).Err? ==> r == Err(IndexError)
    ensures At(action, i).Ok? && At(action, i).value !in labels ==> r == Err(KeyError(At(action, i).value))
  {
    var name :- At(action, i);
    if name in labels then Ok(labels[name]) else Err(KeyError(name))
  }

  /** An edit of one line, as one of the three editors performs it. */
  datatype LineOp = Break(other: int) | Form(other: int, order: string) | Rad(amount: string, decrease: bool)

  function ApplyOp(line: string, op: LineOp): Result<string> {
    match op
    case Break(other) => LineEdit.BondBreak(line, other)
    case Form(other, order) => Ok(LineEdit.BondForm(line, other, order))
    case Rad(amount, decrease) => LineEdit.RadChange(line, amount, decrease)
  }

  /** `edit = lines.pop(idx - 1); edit = op(edit); lines.insert(idx - 1, edit)`. */
  function EditLine(lines: seq<string>, idx: int, op: LineOp): (r: Result<seq<string>>)
    ensures r.Ok? ==> |r.value| == |lines|
    ensures !(-|lines| <= idx - 1 < |lines|) ==> r == Err(IndexError)
  {
    var popped :- Pop(lines, idx - 1);
    var edited :- ApplyOp(popped.0, op);
    Ok(Insert(popped.1, idx - 1, edited))
  }

  /** Edit the line of `idx1` with `op1`, then the line of `idx2` with `op2`. */
  function EditBoth(lines: seq<string>, idx1: int, op1: LineOp, idx2: int, op2: LineOp): (r: Result<seq<string>>)
    ensures r.Ok? ==> |r.value| == |lines|
  {
    var step :- EditLine(lines, idx1, op1);
    EditLine(step, idx2, op2)
  }

  /** One pass of the `for action in actions` loop. */
  function ApplyAction(lines: seq<string>, labels: Labels, action: seq<string>): (r: Result<seq<string>>)
    ensures r.Ok? ==> |r.value| == |lines|
    ensures action == [] ==> r == Err(IndexError)
    ensures action != [] && !KnownName(Lower(action[0])) ==> r == Ok(lines)
    ensures |action| >= 2 && KnownName(Lower(action[0])) && action[1] !in labels
            ==> r == Err(KeyError(action[1]))
    ensures |action| == 1 && KnownName(Lower(action[0])) ==> r == Err(IndexError)
    ensures |action| >= 4 && IsBondAction(Lower(action[0])) && action[1] in labels && action[3] !in labels
            ==> r == Err(KeyError(action[3]))
    ensures 2 <= |action| < 4 && IsBondAction(Lower(action[0])) && action[1] in labels ==> r == Err(IndexError)
    ensures |action| == 2 && IsRadicalAction(Lower(action[0])) && action[1] in labels ==> r == Err(IndexError)
  {
    var name :- At(action, 0);
    var kind := Lower(name);
    if kind == BreakBond then
      var idx1 :- Lookup(labels, action, 1);
      var idx2 :- Lookup(labels, action, 3);
      EditBoth(lines, idx1, Break(idx2), idx2, Break(idx1))
    else if kind == FormBond then
      var idx1 :- Lookup(labels, action, 1);
      var idx2 :- Lookup(labels, action, 3);
      // `action[3]` exists, so `action[2]` does too
      EditBoth(lines, idx1, Form(idx2, action[2]), idx2, Form(idx1, action[2]))
    else if kind == GainRadical || kind == LoseRadical then
      var idx :- Lookup(labels, action, 1);
      var popped :- Pop(lines, idx - 1);
      var amount :- At(action, 2);
      var edited :- LineEdit.RadChange(popped.0, amount, kind == LoseRadical);
      Ok(Insert(popped.1, idx - 1, edited))
    else
      Ok(lines)
  }

  function RunActions(lines: seq<string>, labels: Labels, actions: seq<seq<string>>): (r: Result<seq<string>>)
    ensures r.Ok? ==> |r.value| == |lines|
    decreases |actions|
  {
    if actions == [] then Ok(lines)
    else
      var next :- ApplyAction(lines, labels, actions[0]);
      RunActions(next, labels, actions[1..])
  }

  /** `matchAtoms`: the reactant's lines are passed in (the source obtains them from the
      molecule library), and so are the actions (a module-level list in the source). */
  function MatchAtoms(lines: seq<string>, actions: seq<seq<string>>): (r: Result<seq<string>>)
    ensures r.Ok? ==> |r.value| == |lines|
  {
    var labels :- LabelMap(lines);
    RunActions(lines, labels, actions)
  }

  // ---------------------------------------------------------------------------
  // Properties of the driver

  /** An edit at a position inside the list rewrites that line in place. */
  lemma EditInPlace(lines: seq<string>, idx: int, op: LineOp)
    requires 1 <= idx <= |lines|
    ensures var e := ApplyOp(lines[idx - 1], op);
      EditLine(lines, idx, op) == if e.Ok? then Ok(lines[idx - 1 := e.value]) else Err(e.error)
  {
    var e := ApplyOp(lines[idx - 1], op);
    if e.Ok? {
      PopInsertInPlace(lines, idx - 1, e.value);
    }
  }

  /** Index 0 reaches position -1: the edited last line is put back one place early, so
      the last two lines change places. */
  lemma EditAtZero(lines: seq<string>, op: LineOp)
    requires |lines| >= 2
    ensures ApplyOp(lines[|lines| - 1], op).Ok? ==>
      EditLine(lines, 0, op) == Ok(lines[..|lines| - 2] + [ApplyOp(lines[|lines| - 1], op).value, lines[|lines| - 2]])
    ensures ApplyOp(lines[|lines| - 1], op).Err? ==>
      EditLine(lines, 0, op) == Err(ApplyOp(lines[|lines| - 1], op).error)
  {
    var n := |lines|;
    var p := Pop(lines, -1);
    assert p.Ok? && p.value.0 == lines[n - 1];
    var e := ApplyOp(lines[n - 1], op);
    if e.Ok? {
      PopInsertAtMinusOne(lines, e.value);
    }
  }

  /** A bond action on two distinct lines inside the list edits exactly those two lines,
      each with the other's index and the same bond-order tag, and leaves the rest as it
      was. */
  lemma BothEnds(lines: seq<string>, idx1: int, op1: LineOp, idx2: int, op2: LineOp)
    requires 1 <= idx1 <= |lines| && 1 <= idx2 <= |lines| && idx1 != idx2
    requires ApplyOp(lines[idx1 - 1], op1).Ok? && ApplyOp(lines[idx2 - 1], op2).Ok?
    ensures var r := EditBoth(lines, idx1, op1, idx2, op2);
      && r.Ok?
      && r.value[idx1 - 1] == ApplyOp(lines[idx1 - 1], op1).value
      && r.value[idx2 - 1] == ApplyOp(lines[idx2 - 1], op2).value
      && forall i :: 0 <= i < |lines| && i != idx1 - 1 && i != idx2 - 1 ==> r.value[i] == lines[i]
  {
    var e1 := ApplyOp(lines[idx1 - 1], op1).value;
    EditInPlace(lines, idx1, op1);
    var step := lines[idx1 - 1 := e1];
    assert step[idx2 - 1] == lines[idx2 - 1];
    EditInPlace(step, idx2, op2);
  }

  lemma LowerTwice(s: string)
    ensures Lower(Lower(s)) == Lower(s)
  {
    forall i | 0 <= i < |s| ensures Lower(Lower(s))[i] == Lower(s)[i] {
      var c := s[i];
      assert Lower(s)[i] == LowerChar(c);
    }
  }

  /** Action names are matched without regard to case: only the lower-cased name
      decides what an action does. */
  lemma NameCaseIgnored(lines: seq<string>, labels: Labels, action: seq<string>)
    requires action != []
    ensures ApplyAction(lines, labels, action) == ApplyAction(lines, labels, [Lower(action[0])] + action[1..])
  {
    var other := [Lower(action[0])] + action[1..];
    LowerTwice(action[0]);
    assert other[0] == Lower(action[0]);
    assert forall i :: 1 <= i < |action| ==> other[i] == action[i];
    assert |other| == |action|;
    assert forall i :: -|action| <= i < |action| && i != 0 && i != -|action| ==> At(other, i) == At(action, i);
  }

  /** The label map is read once, from the reactant: running two lists of actions one
      after the other uses the same map for both, whatever the first did to the labels'
      lines. */
  lemma {:induction false} RunActionsAppend(lines: seq<string>, labels: Labels, a: seq<seq<string>>, b: seq<seq<string>>)
    ensures RunActions(lines, labels, a + b)
      == match RunActions(lines, labels, a)
         case Ok(mid) => RunActions(mid, labels, b)
         case Err(e) => Err(e)
    decreases |a|
  {
    if a == [] {
      assert a + b == b;
    } else {
      assert (a + b)[0] == a[0];
      SliceConcat(a, b, 1);
      var next := ApplyAction(lines, labels, a[0]);
      if next.Ok? {
        RunActionsAppend(next.value, labels, a[1..], b);
      }
    }
  }
}

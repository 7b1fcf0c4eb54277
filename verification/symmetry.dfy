/** The bond relation that adjacency-list lines write down, and how the actions of
    `matchAtoms` change it.  Atom `a` is bonded to `b` with order `o` when the line of
    `a` holds a token `{b,o}`; the relation is symmetric when every such token has its
    partner `{a,o}` on the line of `b`.  A bond action changes the relation by exactly
    the one pair it names, in both directions and with the same order, and a radical
    action does not touch it, so `matchAtoms` keeps a symmetric relation symmetric. */
module Symmetry {
  import opened Results
  import opened Text
  import opened Shapes
  import opened Reaction
  import opened Engine

  /** Some token of the segments names neighbour `b` with order `o`. */
  predicate SegsBond(segs: seq<Seg>, b: int, o: string) {
    exists j :: 0 <= j < |segs| && segs[j].nbr == b && segs[j].order == o
  }

  /** The line of atom `a` (counted from 1) holds the token `{b,o}`. */
  predicate Bond(ls: seq<Shaped>, a: int, b: int, o: string) {
    1 <= a <= |ls| && SegsBond(ls[a - 1].segs, b, o)
  }

  /** Every bond token has its partner on the neighbour's line. */
  ghost predicate Symmetric(ls: seq<Shaped>) {
    forall a, b, o :: Bond(ls, a, b, o) ==> Bond(ls, b, a, o)
  }

  lemma SegsBondCons(s: Seg, rest: seq<Seg>, b: int, o: string)
    ensures SegsBond([s] + rest, b, o) <==> (s.nbr == b && s.order == o) || SegsBond(rest, b, o)
  {
    var segs := [s] + rest;
    assert segs[0] == s;
    if SegsBond(rest, b, o) {
      var j :| 0 <= j < |rest| && rest[j].nbr == b && rest[j].order == o;
      assert segs[j + 1] == rest[j];
    }
    if SegsBond(segs, b, o) {
      var j :| 0 <= j < |segs| && segs[j].nbr == b && segs[j].order == o;
      if j > 0 {
        assert rest[j - 1] == segs[j];
      }
    }
  }

  /** `bondBreak` on the segments drops exactly the tokens naming `k`. */
  lemma {:induction false} WithoutBond(segs: seq<Seg>, k: int, b: int, o: string)
    ensures SegsBond(Without(segs, k), b, o) <==> SegsBond(segs, b, o) && b != k
    decreases |segs|
  {
    if segs != [] {
      assert segs == [segs[0]] + segs[1..];
      SegsBondCons(segs[0], segs[1..], b, o);
      WithoutBond(segs[1..], k, b, o);
      if segs[0].nbr != k {
        SegsBondCons(segs[0], Without(segs[1..], k), b, o);
      }
    }
  }

  /** `bondForm` on a line adds exactly the token `{k,o'}` to its bonds. */
  lemma FormedBond(l: Shaped, k: int, o': string, b: int, o: string)
    ensures SegsBond(Formed(l, k, o').segs, b, o) <==> SegsBond(l.segs, b, o) || (b == k && o == o')
  {
    var f := Formed(l, k, o').segs;
    if l.segs == [] {
      assert f[0] == Seg(k, o', "");
    } else {
      var n := |l.segs|;
      if SegsBond(f, b, o) {
        var j :| 0 <= j < |f| && f[j].nbr == b && f[j].order == o;
        if j < n {
          assert l.segs[j].nbr == b && l.segs[j].order == o;
        }
      }
      if SegsBond(l.segs, b, o) {
        var j :| 0 <= j < n && l.segs[j].nbr == b && l.segs[j].order == o;
        assert f[j].nbr == b && f[j].order == o;
      }
      assert f[n] == Seg(k, o', "");
    }
  }

  /** BREAK_BOND between atoms `i1` and `i2` removes that pair from the relation, in
      both directions, and nothing else. */
  lemma BrokenBond(ls: seq<Shaped>, i1: int, i2: int, a: int, b: int, o: string)
    requires InRange(ls, i1) && InRange(ls, i2)
    ensures Bond(Broken(ls, i1, i2), a, b, o)
      <==> Bond(ls, a, b, o) && !(a == i1 && b == i2) && !(a == i2 && b == i1)
  {
    var s1 := ls[i1 - 1 := ls[i1 - 1].(segs := Without(ls[i1 - 1].segs, i2))];
    if 1 <= a <= |ls| {
      WithoutBond(ls[i1 - 1].segs, i2, b, o);
      WithoutBond(s1[i2 - 1].segs, i1, b, o);
    }
  }

  /** FORM_BOND between two different atoms adds that pair to the relation, in both
      directions and with the action's order, and nothing else. */
  lemma BondedBond(ls: seq<Shaped>, i1: int, i2: int, o': string, a: int, b: int, o: string)
    requires InRange(ls, i1) && InRange(ls, i2) && i1 != i2
    ensures Bond(Bonded(ls, i1, i2, o'), a, b, o)
      <==> Bond(ls, a, b, o) || (a == i1 && b == i2 && o == o') || (a == i2 && b == i1 && o == o')
  {
    if 1 <= a <= |ls| {
      FormedBond(ls[i1 - 1], i2, o', b, o);
      FormedBond(ls[i2 - 1], i1, o', b, o);
    }
  }

  /** What one action does to the bond relation: a break removes its pair, a form adds
      its pair with its order, and any other action leaves the relation as it was. */
  lemma StepBonds(ls: seq<Shaped>, labels: Labels, action: seq<string>, a: int, b: int, o: string)
    requires Step(ls, labels, action).Some?
    ensures var r := Step(ls, labels, action).value;
      Lower(action[0]) == BreakBond ==>
        (Bond(r, a, b, o) <==>
          (Bond(ls, a, b, o)
          && !(a == labels[action[1]] && b == labels[action[3]])
          && !(a == labels[action[3]] && b == labels[action[1]])))
    ensures var r := Step(ls, labels, action).value;
      Lower(action[0]) == FormBond ==>
        (Bond(r, a, b, o) <==>
          (Bond(ls, a, b, o)
          || (a == labels[action[1]] && b == labels[action[3]] && o == action[2])
          || (a == labels[action[3]] && b == labels[action[1]] && o == action[2])))
    ensures var r := Step(ls, labels, action).value;
      Lower(action[0]) != BreakBond && Lower(action[0]) != FormBond ==>
        (Bond(r, a, b, o) <==> Bond(ls, a, b, o))
  {
    var kind := Lower(action[0]);
    if kind == BreakBond {
      BrokenBond(ls, labels[action[1]], labels[action[3]], a, b, o);
    } else if kind == FormBond {
      BondedBond(ls, labels[action[1]], labels[action[3]], action[2], a, b, o);
    }
  }

  /** Each action keeps a symmetric bond relation symmetric. */
  lemma StepSymmetric(ls: seq<Shaped>, labels: Labels, action: seq<string>)
    requires Symmetric(ls) && Step(ls, labels, action).Some?
    ensures Symmetric(Step(ls, labels, action).value)
  {
    var r := Step(ls, labels, action).value;
    forall a, b, o | Bond(r, a, b, o) ensures Bond(r, b, a, o) {
      StepBonds(ls, labels, action, a, b, o);
      StepBonds(ls, labels, action, b, a, o);
    }
  }

  /** A whole action list keeps a symmetric bond relation symmetric. */
  lemma {:induction false} StepsSymmetric(ls: seq<Shaped>, labels: Labels, actions: seq<seq<string>>)
    requires Symmetric(ls) && Steps(ls, labels, actions).Some?
    ensures Symmetric(Steps(ls, labels, actions).value)
    decreases |actions|
  {
    if actions != [] {
      StepSymmetric(ls, labels, actions[0]);
      StepsSymmetric(Step(ls, labels, actions[0]).value, labels, actions[1..]);
    }
  }

  /** `matchAtoms` on lines whose bonds are symmetric returns the text of lines whose
      bonds are symmetric. */
  lemma MatchSymmetric(ls: seq<Shaped>, actions: seq<seq<string>>, ls': seq<Shaped>)
    requires AllWell(ls) && Symmetric(ls)
    requires Steps(ls, ShapedLabels(ls, map[]), actions) == Some(ls')
    ensures MatchAtoms(Texts(ls), actions) == Ok(Texts(ls')) && Symmetric(ls')
  {
    MatchShaped(ls, actions);
    StepsSymmetric(ls, ShapedLabels(ls, map[]), actions);
  }
}

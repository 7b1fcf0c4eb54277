/** The record layer: `atoms`, which parses adjacency-list lines into a table of atom
    records keyed by index, and `adjlist`, which writes such a table back as text in a
    fixed column layout with every atom's bonds in ascending neighbour order. */
module AdjList {
  import opened Results
  import opened Text
  import opened Numerals
  import LineEdit

  /** One atom: its label (`"  "` when it carries none), element, radical count kept as
      the raw token, and bonds from neighbour index to bond-order tag. */
  datatype Atom = Atom(atomLabel: string, element: string, radical: string, bonds: map<int, string>)

  /** The dictionary `atoms` returns: keys in insertion order, and the entries. */
  datatype Table = Table(order: seq<int>, atoms: map<int, Atom>)

  /** The label field written for an atom without a reaction-centre label. */
  const NoLabel: string := "  "

  /** No key occurs twice: the first is not among the rest, and so on down the list. */
  predicate Distinct(s: seq<int>)
    decreases |s|
  {
    |s| == 0 || (s[0] !in s[1..] && Distinct(s[1..]))
  }

  /** A key not yet in a list of distinct keys can be appended. */
  lemma {:induction false} DistinctAppend(s: seq<int>, k: int)
    requires Distinct(s) && k !in s
    ensures Distinct(s + [k])
    decreases |s|
  {
    if |s| > 0 {
      var r := s + [k];
      SliceConcat(s, [k], 1);
      DistinctAppend(s[1..], k);
      assert r[0] == s[0] && s[0] != k;
      assert s[0] !in s[1..] + [k];
    }
  }

  /** The dictionary invariant: each key once in the order, and exactly the keys with an
      entry. */
  predicate ValidTable(t: Table) {
    && Distinct(t.order)
    && (forall k :: k in t.atoms ==> k in t.order)
    && (forall i :: 0 <= i < |t.order| ==> t.order[i] in t.atoms)
  }

  /** `atoms[index] = record`: a new key goes to the end, an existing key keeps its
      place and gets the new record. */
  function Put(t: Table, k: int, a: Atom): (r: Table)
    requires ValidTable(t)
    ensures ValidTable(r)
    ensures r.atoms == t.atoms[k := a]
    ensures r.order == if k in t.atoms then t.order else t.order + [k]
  {
    if k in t.atoms then Table(t.order, t.atoms[k := a])
    else
      DistinctAppend(t.order, k);
      Table(t.order + [k], t.atoms[k := a])
  }

  // ---------------------------------------------------------------------------
  // atoms

  /** `token[1:-1]`: the token without its first and last characters (empty when the
      token has fewer than two). */
  function Inner(tok: string): string {
    if |tok| >= 2 then tok[1..|tok| - 1] else ""
  }

  /** `bond = token[1:-1].split(','); bonds[int(bond[0])] = bond[1]`: the right-hand
      side is evaluated first, so a token without a comma raises IndexError before its
      index is read; an index that is not an integer raises ValueError. */
  function ParseBond(tok: string): (r: Result<(int, string)>)
    ensures ',' !in Inner(tok) ==> r == Err(IndexError)
    ensures ',' in Inner(tok) ==> (r.Ok? <==> ParseInt(BeforeComma(Inner(tok))).Ok?)
    ensures ',' in Inner(tok) && ParseInt(BeforeComma(Inner(tok))).Err? ==> r == Err(ValueError)
    ensures r.Ok? ==> ParseInt(BeforeComma(Inner(tok))) == Ok(r.value.0) && ',' !in r.value.1
  {
    var parts := Split(Inner(tok), ',');
    LineEdit.SplitSingle(Inner(tok), ',');
    if |parts| < 2 then Err(IndexError)
    else
      var k :- ParseInt(parts[0]);
      Ok((k, parts[1]))
  }

  /** The `while args:` loop that collects bond tokens.  It succeeds exactly when every
      token parses, and otherwise raises the first bad token's error. */
  function ParseBonds(toks: seq<string>, acc: map<int, string>): (r: Result<map<int, string>>)
    ensures r.Ok? <==> forall j :: 0 <= j < |toks| ==> ParseBond(toks[j]).Ok?
    ensures r.Err? ==> r.error == IndexError || r.error == ValueError
    decreases |toks|
  {
    if toks == [] then Ok(acc)
    else
      var b :- ParseBond(toks[0]);
      assert forall j :: 1 <= j < |toks| ==> toks[1..][j - 1] == toks[j];
      ParseBonds(toks[1..], acc[b.0 := b.1])
  }

  /** Token `j` parses as a bond to neighbour `k`. */
  predicate NamesAt(toks: seq<string>, j: int, k: int) {
    0 <= j < |toks| && ParseBond(toks[j]).Ok? && ParseBond(toks[j]).value.0 == k
  }

  /** A neighbour is among the collected bonds exactly when it was before or some token
      names it; one that no token names keeps the order it had. */
  lemma {:induction false} ParseBondsKeys(toks: seq<string>, acc: map<int, string>, k: int)
    requires ParseBonds(toks, acc).Ok?
    ensures k in ParseBonds(toks, acc).value <==> k in acc || exists j :: NamesAt(toks, j, k)
    ensures (forall j :: !NamesAt(toks, j, k)) && k in acc ==> ParseBonds(toks, acc).value[k] == acc[k]
    decreases |toks|
  {
    if toks != [] {
      var b := ParseBond(toks[0]).value;
      ParseBondsKeys(toks[1..], acc[b.0 := b.1], k);
      if exists j :: NamesAt(toks[1..], j, k) {
        var j :| NamesAt(toks[1..], j, k);
        assert NamesAt(toks, j + 1, k);
      }
      if exists j :: NamesAt(toks, j, k) {
        var j :| NamesAt(toks, j, k);
        if j > 0 {
          assert NamesAt(toks[1..], j - 1, k);
        }
      }
      if forall j :: !NamesAt(toks, j, k) {
        assert !NamesAt(toks, 0, k);
        forall j ensures !NamesAt(toks[1..], j, k) {
          assert !NamesAt(toks, j + 1, k);
        }
      }
    }
  }

  /** No token after position `i` names `k`, seen from the tail of the tokens. */
  lemma NoLaterInTail(toks: seq<string>, k: int, i: int)
    requires |toks| > 0 && 0 <= i
    requires forall j :: i < j < |toks| ==> !NamesAt(toks, j, k)
    ensures forall j :: i - 1 < j ==> !NamesAt(toks[1..], j, k)
  {
    forall j | i - 1 < j ensures !NamesAt(toks[1..], j, k) {
      if 0 <= j < |toks| - 1 {
        assert toks[1..][j] == toks[j + 1];
        assert !NamesAt(toks, j + 1, k);
      }
    }
  }

  /** The last token naming a neighbour decides its order: a later token for the same
      neighbour overwrites an earlier one. */
  lemma {:induction false} ParseBondsLast(toks: seq<string>, acc: map<int, string>, k: int, i: int)
    requires ParseBonds(toks, acc).Ok?
    requires NamesAt(toks, i, k)
    requires forall j :: i < j < |toks| ==> !NamesAt(toks, j, k)
    ensures k in ParseBonds(toks, acc).value
    ensures ParseBonds(toks, acc).value[k] == ParseBond(toks[i]).value.1
    decreases |toks|
  {
    assert ParseBond(toks[0]).Ok?;
    var b := ParseBond(toks[0]).value;
    var acc' := acc[b.0 := b.1];
    assert ParseBonds(toks, acc) == ParseBonds(toks[1..], acc');
    if i == 0 {
      assert forall j :: !NamesAt(toks[1..], j, k) by { NoLaterInTail(toks, k, i); }
      ParseBondsKeys(toks[1..], acc', k);
    } else {
      assert NamesAt(toks[1..], i - 1, k) by { assert toks[1..][i - 1] == toks[i]; }
      assert forall j :: i - 1 < j < |toks[1..]| ==> !NamesAt(toks[1..], j, k) by {
        NoLaterInTail(toks, k, i);
      }
      ParseBondsLast(toks[1..], acc', k, i - 1);
    }
  }

  /** The words after index, label, element and radical: the bond tokens. */
  function BondWords(args: seq<string>): seq<string> {
    if |args| < 2 then []
    else
      var rest := if '*' in args[1] then args[2..] else args[1..];
      if |rest| < 2 then [] else rest[2..]
  }

  /** Enough words for an index, the label if the second word carries `*`, an element
      and a radical. */
  predicate EnoughWords(args: seq<string>) {
    |args| >= 3 && ('*' in args[1] ==> |args| >= 4)
  }

  /** One line of `atoms`: index, then a label exactly when the next word contains
      `*`, then element and radical, then bond tokens collected by `ParseBonds`.  The
      errors come in the source's order: IndexError for a line without words,
      ValueError for an index that is not an integer, IndexError for too few words, then
      the first bad bond token's error. */
  function ParseLine(line: string): (r: Result<(int, Atom)>)
    ensures r.Ok? ==> var args := Words(line);
      && EnoughWords(args)
      && ParseInt(args[0]) == Ok(r.value.0)
      && ('*' in args[1] ==> r.value.1.atomLabel == args[1] && r.value.1.element == args[2]
                              && r.value.1.radical == args[3])
      && ('*' !in args[1] ==> r.value.1.atomLabel == NoLabel && r.value.1.element == args[1]
                               && r.value.1.radical == args[2])
      && ParseBonds(BondWords(args), map[]) == Ok(r.value.1.bonds)
    ensures Words(line) == [] ==> r == Err(IndexError)
    ensures Words(line) != [] && ParseInt(Words(line)[0]).Err? ==> r == Err(ValueError)
    ensures Words(line) != [] && ParseInt(Words(line)[0]).Ok? && !EnoughWords(Words(line))
            ==> r == Err(IndexError)
    ensures Words(line) != [] && ParseInt(Words(line)[0]).Ok? && EnoughWords(Words(line))
            && ParseBonds(BondWords(Words(line)), map[]).Err?
            ==> r == Err(ParseBonds(BondWords(Words(line)), map[]).error)
  {
    var args := Words(line);
    if |args| == 0 then Err(IndexError)
    else
      var index :- ParseInt(args[0]);
      if |args| < 2 then Err(IndexError)
      else
        var labelled := '*' in args[1];
        var rest := if labelled then args[2..] else args[1..];
        if |rest| < 2 then Err(IndexError)
        else
          var bonds :- ParseBonds(rest[2..], map[]);
          Ok((index, Atom(if labelled then args[1] else NoLabel, rest[0], rest[1], bonds)))
  }

  function ParseFrom(lines: seq<string>, acc: Table): (r: Result<Table>)
    requires ValidTable(acc)
    ensures r.Ok? ==> ValidTable(r.value)
    decreases |lines|
  {
    if lines == [] then Ok(acc)
    else
      var e :- ParseLine(lines[0]);
      ParseFrom(lines[1..], Put(acc, e.0, e.1))
  }

  /** A first line that parses adds its entry and the rest is read on from there. */
  lemma ParseFromStep(lines: seq<string>, acc: Table, e: (int, Atom))
    requires ValidTable(acc) && |lines| > 0 && ParseLine(lines[0]) == Ok(e)
    ensures ParseFrom(lines, acc) == ParseFrom(lines[1..], Put(acc, e.0, e.1))
  {
  }

  /** `atoms(mol)`: the table of all lines, or the exception of the first bad line. */
  function Parse(lines: seq<string>): (r: Result<Table>)
    ensures r.Ok? ==> ValidTable(r.value)
  {
    ParseFrom(lines, Table([], map[]))
  }

  // ---------------------------------------------------------------------------
  // sorted(bonds.keys())

  lemma NoMemberEmpty(s: set<int>)
    requires forall x :: x !in s
    ensures s == {}
  {
    assert forall x :: x in s <==> x in {};
  }

  lemma Member(s: set<int>)
    requires s != {}
    ensures exists x :: x in s
  {
    if forall x :: x !in s {
      NoMemberEmpty(s);
      assert false;
    }
  }

  lemma MinOfSet(s: set<int>) returns (m: int)
    requires s != {}
    ensures m in s && forall x :: x in s ==> m <= x
  {
    Member(s);
    var x :| x in s;
    var rest := s - {x};
    if rest == {} {
      m := x;
      forall y | y in s ensures m <= y {
        assert y !in rest;
      }
    } else {
      var m' := MinOfSet(rest);
      m := if x < m' then x else m';
      forall y | y in s ensures m <= y {
        if y != x {
          assert y in rest;
        }
      }
    }
  }

  lemma MinExists(s: set<int>)
    requires s != {}
    ensures exists m :: m in s && forall x :: x in s ==> m <= x
  {
    var m := MinOfSet(s);
  }

  function Least(s: set<int>): (m: int)
    requires s != {}
    ensures m in s && forall x :: x in s ==> m <= x
  {
    MinExists(s);
    var m :| m in s && forall x :: x in s ==> m <= x;
    m
  }

  predicate Increasing(r: seq<int>) {
    forall i, j :: 0 <= i < j < |r| ==> r[i] < r[j]
  }

  /** `sorted(keys)`: the keys of a set in ascending order. */
  function SortedKeys(s: set<int>): (r: seq<int>)
    ensures |r| == |s|
    ensures forall i :: 0 <= i < |r| ==> r[i] in s
    decreases |s|
  {
    if s == {} then []
    else
      var m := Least(s);
      assert |s - {m}| == |s| - 1;
      [m] + SortedKeys(s - {m})
  }

  /** `sorted` lists every key once, strictly ascending. */
  lemma {:induction false} SortedKeysOrder(s: set<int>)
    ensures Increasing(SortedKeys(s))
    ensures forall k :: k in s ==> k in SortedKeys(s)
    decreases |s|
  {
    if s != {} {
      var m := Least(s);
      var t := SortedKeys(s - {m});
      SortedKeysOrder(s - {m});
      ConsSorted(s, m, t);
    }
  }

  /** The least key in front of the others in order enumerates the whole set. */
  lemma ConsSorted(s: set<int>, m: int, t: seq<int>)
    requires m in s && forall x :: x in s ==> m <= x
    requires |t| == |s - {m}| && Increasing(t)
    requires forall i :: 0 <= i < |t| ==> t[i] in s - {m}
    requires forall k :: k in s - {m} ==> k in t
    ensures |[m] + t| == |s| && Increasing([m] + t)
    ensures forall i :: 0 <= i < |[m] + t| ==> ([m] + t)[i] in s
    ensures forall k :: k in s ==> k in [m] + t
  {
    var r := [m] + t;
    assert |s - {m}| == |s| - 1;
    assert forall i :: 0 <= i < |t| ==> m < t[i];
    assert forall i :: 1 <= i < |r| ==> r[i] == t[i - 1];
  }

  /** Only one ascending sequence enumerates a set, so any such sequence is the one
      `sorted` returns. */
  lemma {:induction false} SortedKeysUnique(s: set<int>, r: seq<int>)
    requires Increasing(r)
    requires forall i :: 0 <= i < |r| ==> r[i] in s
    requires forall k :: k in s ==> k in r
    ensures SortedKeys(s) == r
    decreases |r|
  {
    if r == [] {
      NoMemberEmpty(s);
    } else {
      assert r[0] in s;
      var m := Least(s);
      assert SortedKeys(s) == [m] + SortedKeys(s - {m});
      MinIsHead(s, r, m);
      TailEnumerates(s, r);
      SortedKeysUnique(s - {m}, r[1..]);
      HeadTail(r);
    }
  }

  /** A table whose keys arrived in ascending order (lines numbered 1 to n, say) is
      iterated in ascending key order, the order `sorted` gives. */
  lemma InsertionOrderAscending(t: Table)
    requires ValidTable(t) && Increasing(t.order)
    ensures t.order == SortedKeys(t.atoms.Keys)
  {
    SortedKeysUnique(t.atoms.Keys, t.order);
  }

  lemma TailEnumerates(s: set<int>, r: seq<int>)
    requires Increasing(r) && |r| > 0
    requires forall i :: 0 <= i < |r| ==> r[i] in s
    requires forall k :: k in s ==> k in r
    ensures Increasing(r[1..])
    ensures forall i :: 0 <= i < |r| - 1 ==> r[1..][i] in s - {r[0]}
    ensures forall k :: k in s - {r[0]} ==> k in r[1..]
  {
    var t := r[1..];
    forall k | k in s - {r[0]} ensures k in t {
      var i :| 0 <= i < |r| && r[i] == k;
      assert t[i - 1] == k;
    }
    forall i | 0 <= i < |t| ensures t[i] in s - {r[0]} {
      assert t[i] == r[i + 1];
    }
  }

  lemma HeadIsLeast(r: seq<int>, i: int)
    requires Increasing(r) && 0 <= i < |r|
    ensures r[0] <= r[i]
  {
  }

  lemma MinIsHead(s: set<int>, r: seq<int>, m: int)
    requires Increasing(r) && |r| > 0
    requires forall i :: 0 <= i < |r| ==> r[i] in s
    requires m in s && forall x :: x in s ==> m <= x
    requires m in r
    ensures r[0] == m
  {
    var i :| 0 <= i < |r| && r[i] == m;
    assert r[0] in s;
    HeadIsLeast(r, i);
  }

  // ---------------------------------------------------------------------------
  // adjlist

  /** `' {' + '{0},{1}'.format(k, bonds[k]) + '}'` for each key of `ks`, in that order. */
  function BondsText(ks: seq<int>, bonds: map<int, string>): string
    requires forall i :: 0 <= i < |ks| ==> ks[i] in bonds
    decreases |ks|
  {
    if ks == [] then "" else " " + LineEdit.BondToken(ks[0], bonds[ks[0]]) + BondsText(ks[1..], bonds)
  }

  /** One atom's line as `adjlist` writes it: index left-justified in `width`, the label
      field, element, radical, then the bonds in ascending neighbour order. */
  function RenderLine(k: int, a: Atom, width: int): string {
    PadRight(IntToString(k), width) + a.atomLabel + " " + a.element + " " + a.radical
      + BondsText(SortedKeys(a.bonds.Keys), a.bonds)
  }

  function MaxOf(s: seq<int>): (m: int)
    requires |s| > 0
    ensures m in s && forall i :: 0 <= i < |s| ==> s[i] <= m
    decreases |s|
  {
    if |s| == 1 then s[0]
    else
      var m := MaxOf(s[1..]);
      assert forall i :: 1 <= i < |s| ==> s[i] == s[1..][i - 1];
      if s[0] >= m then s[0] else m
  }

  /** The index field width: the length of the largest index written out, plus one. */
  function Width(t: Table): int
    requires |t.order| > 0
  {
    |IntToString(MaxOf(t.order))| + 1
  }

  /** The text accumulated by the loop of `adjlist`: a newline before each line. */
  function Body(ks: seq<int>, atoms: map<int, Atom>, width: int): string
    requires forall i :: 0 <= i < |ks| ==> ks[i] in atoms
    decreases |ks|
  {
    if ks == [] then "" else "\n" + RenderLine(ks[0], atoms[ks[0]], width) + Body(ks[1..], atoms, width)
  }

  /** `adjlist(atoms)`: the body stripped of surrounding whitespace, then one newline.
      For an empty table the loop never runs (so `max` is never reached) and the
      result is a lone newline. */
  function Serialize(t: Table): (r: string)
    requires ValidTable(t)
    ensures |r| >= 1 && r[|r| - 1] == '\n'
    ensures |r| == 1 <==> t.order == []
    ensures |r| > 1 ==> !IsSpace(r[0]) && !IsSpace(r[|r| - 2])
  {
    var body := if t.order == [] then "" else Body(t.order, t.atoms, Width(t));
    if t.order != [] then BodyNotBlank(t.order, t.atoms, Width(t)); Strip(body) + "\n"
    else Strip(body) + "\n"
  }

  /** The text of a non-empty table is its stripped body and a newline. */
  lemma SerializeBody(t: Table)
    requires ValidTable(t) && t.order != []
    ensures Serialize(t) == Strip(Body(t.order, t.atoms, Width(t))) + "\n"
  {
  }

  lemma BodyNotBlank(ks: seq<int>, atoms: map<int, Atom>, width: int)
    requires |ks| > 0 && forall i :: 0 <= i < |ks| ==> ks[i] in atoms
    ensures Strip(Body(ks, atoms, width)) != []
  {
    var b := Body(ks, atoms, width);
    var line := RenderLine(ks[0], atoms[ks[0]], width);
    assert line[0] == IntToString(ks[0])[0];
    assert b[1] == line[0];
    StripKeeps(b, 1);
  }
}

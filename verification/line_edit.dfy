/** The three line editors of the edit driver.  Each works on one line of adjacency-list
    text, `index [label] element radicals {nbr,order} ...`, exactly as the source does:
    by string surgery, not on a parsed record.  `BondForm` appends a bond token,
    `BondBreak` cuts the line at every `{` and drops pieces whose text before the first
    comma is the neighbour's index, and `RadChange` rewrites the radical digit read at
    character 8. */
module LineEdit {
  import opened Results
  import opened Text
  import opened Numerals

  // ---------------------------------------------------------------------------
  // bondForm

  /** The bond token `{nbr,order}` as the source writes it. */
  function BondToken(nbr: int, order: string): string {
    "{" + IntToString(nbr) + "," + order + "}"
  }

  /** `bondForm(fullString, otherIdx, bond)`: the line with ` {otherIdx,bond}` appended.
      No check is made for an existing bond to the same neighbour. */
  function BondForm(line: string, other: int, order: string): (r: string)
    ensures |r| > |line| && r[..|line|] == line
  {
    line + " " + BondToken(other, order)
  }

  /** A bond token is one word when its order tag has no blank. */
  lemma TokenIsWord(n: int, o: string)
    requires NoSpace(o)
    ensures IsWord(BondToken(n, o))
  {
    var tok := BondToken(n, o);
    var k := IntToString(n);
    assert tok == "{" + k + "," + o + "}";
    forall i | 0 <= i < |tok| ensures !IsSpace(tok[i]) {
      if 1 <= i < 1 + |k| {
        assert tok[i] == k[i - 1];
      } else if 2 + |k| <= i < |tok| - 1 {
        assert tok[i] == o[i - 2 - |k|];
      }
    }
  }

  /** Seen word by word, forming a bond adds exactly one token at the end and leaves the
      words already on the line as they were. */
  lemma FormAddsToken(line: string, other: int, order: string)
    requires NoSpace(order)
    ensures Words(BondForm(line, other, order)) == Words(line) + [BondToken(other, order)]
  {
    var tok := BondToken(other, order);
    TokenIsWord(other, order);
    var tail := " " + tok;
    assert BondForm(line, other, order) == line + tail;
    WordsConcat(line, tail);
    WordsConcat(" ", tok);
    WordsOfWord(tok);
    WordsOfBlank(" ");
    assert Words(tail) == [tok];
  }

  // ---------------------------------------------------------------------------
  // bondBreak

  /** Some piece of `ps` has `key` as its text before the first comma. */
  predicate AnyMatch(ps: seq<string>, key: string) {
    exists i :: 0 <= i < |ps| && BeforeComma(ps[i]) == key
  }

  /** `r` arises from `ps` by deleting some pieces, each of which has `key` as its
      text before the first comma; the surviving pieces keep their order. */
  predicate DeletesOnlyMatches(ps: seq<string>, r: seq<string>, key: string)
    decreases |ps|
  {
    if ps == [] then r == []
    else
      || (r != [] && r[0] == ps[0] && DeletesOnlyMatches(ps[1..], r[1..], key))
      || (BeforeComma(ps[0]) == key && DeletesOnlyMatches(ps[1..], r, key))
  }

  /** The `for lineSplit in splits: ... splits.pop(i)` loop of `bondBreak`.  Because the
      list shrinks while it is being iterated, the piece that follows a removed piece
      is never examined and survives whatever its text. */
  function Sweep(ps: seq<string>, key: string): (r: seq<string>)
    ensures |r| <= |ps|
    ensures r == [] <==> (ps == [] || (|ps| == 1 && BeforeComma(ps[0]) == key))
    decreases |ps|
  {
    if ps == [] then []
    else if BeforeComma(ps[0]) == key then
      if |ps| == 1 then [] else [ps[1]] + Sweep(ps[2..], key)
    else
      [ps[0]] + Sweep(ps[1..], key)
  }

  /** Pieces of the loop survive in order, and only pieces naming the key are lost. */
  lemma {:induction false} SweepDeletesOnlyMatches(ps: seq<string>, key: string)
    ensures DeletesOnlyMatches(ps, Sweep(ps, key), key)
    decreases |ps|
  {
    if ps == [] {
    } else if BeforeComma(ps[0]) == key {
      if |ps| > 1 {
        var r := [ps[1]] + Sweep(ps[2..], key);
        SweepDeletesOnlyMatches(ps[2..], key);
        assert ps[1..][1..] == ps[2..];
        assert r[1..] == Sweep(ps[2..], key);
        assert DeletesOnlyMatches(ps[1..], r, key);
      }
    } else {
      var rest := Sweep(ps[1..], key);
      SweepDeletesOnlyMatches(ps[1..], key);
      assert ([ps[0]] + rest)[1..] == rest;
    }
  }

  lemma NoMatchTail(ps: seq<string>, key: string)
    requires ps != [] && !AnyMatch(ps, key)
    ensures BeforeComma(ps[0]) != key && !AnyMatch(ps[1..], key)
  {
    forall i | 0 <= i < |ps[1..]|
      ensures BeforeComma(ps[1..][i]) != key
    {
      assert ps[1..][i] == ps[i + 1];
    }
  }

  /** Without a piece naming the key, the loop removes nothing. */
  lemma {:induction false} SweepNoMatch(ps: seq<string>, key: string)
    requires !AnyMatch(ps, key)
    ensures Sweep(ps, key) == ps
    decreases |ps|
  {
    if ps != [] {
      NoMatchTail(ps, key);
      SweepNoMatch(ps[1..], key);
    }
  }

  /** `bondBreak(fullString, otherIdx)`.  The only failure is the IndexError of
      `splits[0]` when every piece has been removed, which needs a line without `{`
      whose text before the first comma is the neighbour's index. */
  function BondBreak(line: string, other: int): (r: Result<string>)
    ensures r.Err? <==> ('{' !in line && BeforeComma(line) == IntToString(other))
    ensures r.Err? ==> r.error == IndexError
    ensures !AnyMatch(Split(line, '{'), IntToString(other)) ==> r == Ok(line)
  {
    var ps := Split(line, '{');
    var kept := Sweep(ps, IntToString(other));
    SplitSingle(line, '{');
    JoinSplit(line, '{');
    if !AnyMatch(ps, IntToString(other)) then SweepNoMatch(ps, IntToString(other)); Ok(line)
    else if kept == [] then Err(IndexError) else Ok(Join(kept, '{'))
  }

  /** A line splits into a single piece exactly when it holds no separator. */
  lemma SplitSingle(s: string, sep: char)
    ensures |Split(s, sep)| == 1 <==> sep !in s
    ensures sep !in s ==> Split(s, sep) == [s]
  {
    JoinSplit(s, sep);
    if sep !in s {
      SplitNoSep(s, sep);
    }
  }

  lemma {:induction false} SweepUnique(ps: seq<string>, key: string, j: nat)
    requires j < |ps| && BeforeComma(ps[j]) == key
    requires forall i :: 0 <= i < |ps| && i != j ==> BeforeComma(ps[i]) != key
    ensures Sweep(ps, key) == ps[..j] + ps[j + 1..]
    decreases |ps|
  {
    if j == 0 {
      if |ps| > 1 {
        var tail := ps[2..];
        forall i | 0 <= i < |tail|
          ensures BeforeComma(tail[i]) != key
        {
          assert tail[i] == ps[i + 2];
        }
        SweepNoMatch(tail, key);
        assert [ps[1]] + tail == ps[1..];
      }
    } else {
      assert BeforeComma(ps[0]) != key;
      var tail := ps[1..];
      forall i | 0 <= i < |tail| && i != j - 1
        ensures BeforeComma(tail[i]) != key
      {
        assert tail[i] == ps[i + 1];
      }
      SweepUnique(tail, key, j - 1);
      assert ps[..j] == [ps[0]] + tail[..j - 1];
      assert ps[j + 1..] == tail[j..];
    }
  }

  /** When exactly one piece names the neighbour, `bondBreak` removes that piece and
      nothing else: the other pieces are rejoined in their original order. */
  lemma BreakRemovesOne(line: string, other: int, j: nat)
    requires var ps := Split(line, '{');
      && j < |ps| && |ps| > 1
      && BeforeComma(ps[j]) == IntToString(other)
      && forall i :: 0 <= i < |ps| && i != j ==> BeforeComma(ps[i]) != IntToString(other)
    ensures var ps := Split(line, '{');
      BondBreak(line, other) == Ok(Join(ps[..j] + ps[j + 1..], '{'))
  {
    SweepUnique(Split(line, '{'), IntToString(other), j);
  }

  /** The quirk of the shrinking-list loop: of two adjacent pieces that both name the
      neighbour, only the first is removed. */
  lemma SweepSkipsNeighbour(a: string, b: string, rest: seq<string>, key: string)
    requires BeforeComma(a) == key && BeforeComma(b) == key
    ensures Sweep([a, b] + rest, key) == [b] + Sweep(rest, key)
  {
    assert ([a, b] + rest)[2..] == rest;
  }

  // ---------------------------------------------------------------------------
  // bondForm followed by bondBreak

  lemma {:induction false} SplitAppendChar(a: string, c: char, sep: char)
    requires c != sep
    ensures var ps := Split(a, sep); var qs := Split(a + [c], sep);
      |qs| == |ps| && qs[..|ps| - 1] == ps[..|ps| - 1] && qs[|ps| - 1] == ps[|ps| - 1] + [c]
    decreases |a|
  {
    if a == [] {
      assert a + [c] == [c];
      assert Split([c], sep) == [[c] + Split([], sep)[0]] + Split([], sep)[1..];
    } else {
      SliceConcat(a, [c], 1);
      SplitAppendChar(a[1..], c, sep);
      var ps, qs := Split(a[1..], sep), Split(a[1..] + [c], sep);
      assert (a + [c])[0] == a[0];
      if a[0] == sep {
        assert Split(a, sep) == [""] + ps;
        assert Split(a + [c], sep) == [""] + qs;
      } else {
        assert Split(a, sep) == [[a[0]] + ps[0]] + ps[1..];
        assert Split(a + [c], sep) == [[a[0]] + qs[0]] + qs[1..];
      }
    }
  }

  lemma BeforeCommaSpaced(p: string, key: string)
    requires IsWord(key) && BeforeComma(p) != key
    ensures BeforeComma(p + " ") != key
  {
    var q := p + " ";
    SplitAppendChar(p, ' ', ',');
    var ps := Split(p, ',');
    if |ps| == 1 {
      assert BeforeComma(q) == BeforeComma(p) + " ";
      assert !IsSpace(key[|key| - 1]);
    }
  }

  lemma {:induction false} SweepPrefixNoMatch(ps: seq<string>, qs: seq<string>, key: string)
    requires !AnyMatch(ps, key)
    ensures Sweep(ps + qs, key) == ps + Sweep(qs, key)
    decreases |ps|
  {
    if ps == [] {
      assert ps + qs == qs;
    } else {
      NoMatchTail(ps, key);
      assert (ps + qs)[0] == ps[0];
      SliceConcat(ps, qs, 1);
      SweepPrefixNoMatch(ps[1..], qs, key);
    }
  }

  lemma {:induction false} JoinAppend(ps: seq<string>, q: string, sep: char)
    requires |ps| >= 1
    ensures Join(ps + [q], sep) == Join(ps, sep) + [sep] + q
    decreases |ps|
  {
    if |ps| == 1 {
      assert ps + [q] == [ps[0], q];
      assert [ps[0], q][1..] == [q];
    } else {
      assert (ps + [q])[1..] == ps[1..] + [q];
      JoinAppend(ps[1..], q, sep);
    }
  }

  /** The text after the `{` that `bondForm` writes. */
  function FormTail(other: int, order: string): string {
    IntToString(other) + "," + order + "}"
  }

  lemma FormSplit(line: string, other: int, order: string)
    requires '{' !in order
    ensures Split(BondForm(line, other, order), '{') == Split(line + " ", '{') + [FormTail(other, order)]
    ensures BeforeComma(FormTail(other, order)) == IntToString(other)
  {
    var key := IntToString(other);
    var tail := FormTail(other, order);
    assert '{' !in tail by {
      forall i | 0 <= i < |tail| ensures tail[i] != '{' {
        if i < |key| {
          assert tail[i] == key[i];
        } else if |key| < i < |key| + 1 + |order| {
          assert tail[i] == order[i - |key| - 1];
        }
      }
    }
    assert BondForm(line, other, order) == (line + " ") + ['{'] + tail;
    SplitAtSep(line + " ", '{', tail);
    SplitNoSep(tail, '{');
    assert tail == key + "," + (order + "}");
    BeforeCommaOf(key, order + "}");
  }

  lemma SpacedNoMatch(line: string, key: string)
    requires IsWord(key) && !AnyMatch(Split(line, '{'), key)
    ensures !AnyMatch(Split(line + " ", '{'), key)
  {
    var ps := Split(line, '{');
    var qs := Split(line + " ", '{');
    assert line + " " == line + [' '];
    SplitAppendChar(line, ' ', '{');
    forall i | 0 <= i < |qs| ensures BeforeComma(qs[i]) != key {
      if i < |ps| - 1 {
        assert qs[i] == qs[..|ps| - 1][i] == ps[i];
      } else {
        assert BeforeComma(ps[i]) != key;
        BeforeCommaSpaced(ps[i], key);
      }
    }
  }

  /** Breaking a bond just formed (to a neighbour the line did not name) gives the line
      back, with the one separating blank that `bondForm` added left behind. */
  lemma BreakUndoesForm(line: string, other: int, order: string)
    requires '{' !in order
    requires !AnyMatch(Split(line, '{'), IntToString(other))
    ensures BondBreak(BondForm(line, other, order), other) == Ok(line + " ")
  {
    var key := IntToString(other);
    var qs := Split(line + " ", '{');
    FormSplit(line, other, order);
    SpacedNoMatch(line, key);
    SweepPrefixNoMatch(qs, [FormTail(other, order)], key);
    assert Sweep([FormTail(other, order)], key) == [];
    assert qs + [] == qs;
    var ps := Split(BondForm(line, other, order), '{');
    assert ps[|qs|] == FormTail(other, order);
    assert AnyMatch(ps, key);
    assert Sweep(ps, key) == qs;
    JoinSplit(line + " ", '{');
  }

  // ---------------------------------------------------------------------------
  // radChange

  /** The text `radChange` searches for: the old radical digit between two blanks. */
  function RadPattern(d: char): string {
    [' ', d, ' ']
  }

  /** A field between two blanks, as `radChange` writes the new count. */
  function Spaced(s: string): string {
    " " + s + " "
  }

  /** `radChange(fullString, action, decrease)`.  The radical count is the single
      character at position 8; the amount is the action's text.  The new count is
      written back by replacing every blank-digit-blank occurrence of the old digit,
      anywhere in the line; a negative result is written as it is. */
  function RadChange(line: string, amount: string, decrease: bool): (r: Result<string>)
    ensures r.Err? <==> (|line| <= 8 || !IsDigit(line[8]) || ParseInt(amount).Err?)
    ensures |line| <= 8 ==> r == Err(IndexError)
    ensures |line| > 8 && r.Err? ==> r.error == ValueError
  {
    if |line| <= 8 then Err(IndexError)
    else
      var d := line[8];
      ParseSingleChar(d);
      var prev :- ParseInt([d]);
      var amt :- ParseInt(amount);
      var v := if decrease then prev - amt else prev + amt;
      Ok(Replace(line, RadPattern(d), Spaced(IntToString(v))))
  }

  /** `int(c)` of a one-character string succeeds exactly for a decimal digit. */
  lemma ParseSingleChar(c: char)
    ensures ParseInt([c]).Ok? <==> IsDigit(c)
    ensures ParseInt([c]).Err? ==> ParseInt([c]).error == ValueError
    ensures IsDigit(c) ==> ParseInt([c]) == Ok(DigitValue(c) as int)
  {
    if IsSpace(c) {
      assert TrimLeft([c]) == TrimLeft([]);
    } else if IsDigit(c) {
      ParseDigit(c);
    } else {
      StripWord([c]);
      assert Strip([c]) == [c];
    }
  }

  /** When the old digit occurs between blanks only once (at position 7 to 9 in the
      column layout), the result is the line with just that digit replaced by the old
      count plus or minus the amount. */
  lemma RadChangeOnce(line: string, amount: string, decrease: bool, p: nat)
    requires |line| > 8 && IsDigit(line[8]) && ParseInt(amount).Ok?
    requires OccursAt(line, RadPattern(line[8]), p)
    requires forall i :: 0 <= i < |line| && i != p ==> !OccursAt(line, RadPattern(line[8]), i)
    ensures var prev := DigitValue(line[8]) as int;
      var amt := ParseInt(amount).value;
      var v := if decrease then prev - amt else prev + amt;
      RadChange(line, amount, decrease) == Ok(line[..p] + Spaced(IntToString(v)) + line[p + 3..])
  {
    ParseSingleChar(line[8]);
    var prev := DigitValue(line[8]) as int;
    var amt := ParseInt(amount).value;
    var v := if decrease then prev - amt else prev + amt;
    var rep := Spaced(IntToString(v));
    assert RadChange(line, amount, decrease) == Ok(Replace(line, RadPattern(line[8]), rep));
    assert |RadPattern(line[8])| == 3;
    ReplaceOnce(line, RadPattern(line[8]), rep, p);
  }

  /** Without a blank-digit-blank occurrence of the old digit (for instance when the
      radical is the last character of the line) the line comes back unchanged. */
  lemma RadChangeNoOccurrence(line: string, amount: string, decrease: bool)
    requires |line| > 8 && IsDigit(line[8]) && ParseInt(amount).Ok?
    requires forall i :: 0 <= i < |line| ==> !OccursAt(line, RadPattern(line[8]), i)
    ensures RadChange(line, amount, decrease) == Ok(line)
  {
    ParseSingleChar(line[8]);
    var prev := DigitValue(line[8]) as int;
    var amt := ParseInt(amount).value;
    var v := if decrease then prev - amt else prev + amt;
    ReplaceNone(line, RadPattern(line[8]), Spaced(IntToString(v)));
  }
}

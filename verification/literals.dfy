/** Helpers for evaluating the text of concrete shaped lines. */
module Literals {
  import opened Results
  import opened Text
  import opened Numerals
  import opened Shapes
  import opened Engine

  lemma Two(n: int)
    requires 10 <= n < 100
    ensures IntToString(n) == [DigitChar(n / 10), DigitChar(n % 10)]
  {
    assert NatToString(n) == NatToString(n / 10) + [DigitChar(n % 10)];
  }

  lemma Segs1(a: Seg)
    ensures SegsText([a]) == "{" + Piece(a)
  {
    assert [a][1..] == [];
  }

  lemma Segs2(a: Seg, b: Seg)
    ensures SegsText([a, b]) == "{" + Piece(a) + ("{" + Piece(b))
  {
    assert [a, b][1..] == [b];
    Segs1(b);
  }

  lemma Segs3(a: Seg, b: Seg, c: Seg)
    ensures SegsText([a, b, c]) == "{" + Piece(a) + ("{" + Piece(b) + ("{" + Piece(c)))
  {
    assert [a, b, c][1..] == [b, c];
    Segs2(b, c);
  }

  lemma Segs4(a: Seg, b: Seg, c: Seg, d: Seg)
    ensures SegsText([a, b, c, d]) == "{" + Piece(a) + ("{" + Piece(b) + ("{" + Piece(c) + ("{" + Piece(d))))
  {
    assert [a, b, c, d][1..] == [b, c, d];
    Segs3(b, c, d);
  }

  /** The numerals of the indices 1 to 26. */
  lemma Names()
    ensures IntToString(1) == "1" && IntToString(2) == "2" && IntToString(3) == "3"
    ensures IntToString(4) == "4" && IntToString(5) == "5" && IntToString(6) == "6"
    ensures IntToString(7) == "7" && IntToString(8) == "8" && IntToString(9) == "9"
    ensures IntToString(10) == "10" && IntToString(11) == "11" && IntToString(12) == "12"
    ensures IntToString(13) == "13" && IntToString(14) == "14" && IntToString(15) == "15"
    ensures IntToString(16) == "16" && IntToString(17) == "17" && IntToString(18) == "18"
    ensures IntToString(19) == "19" && IntToString(20) == "20" && IntToString(21) == "21"
    ensures IntToString(22) == "22" && IntToString(23) == "23" && IntToString(24) == "24"
    ensures IntToString(25) == "25" && IntToString(26) == "26"
  {
    Two(10); Two(11); Two(12); Two(13); Two(14); Two(15); Two(16); Two(17); Two(18);
    Two(19); Two(20); Two(21); Two(22); Two(23); Two(24); Two(25); Two(26);
  }

  /** The number of characters of a one- or two-digit index. */
  lemma NameLength(n: int)
    requires 1 <= n < 100
    ensures |IntToString(n)| == if n < 10 then 1 else 2
  {
    if n >= 10 {
      Two(n);
    }
  }

  /** The action names as templates write them, in upper case. */
  lemma UpperNames()
    ensures Lower("BREAK_BOND") == BreakBond && Lower("FORM_BOND") == FormBond
    ensures Lower("GAIN_RADICAL") == GainRadical && Lower("LOSE_RADICAL") == LoseRadical
  {
  }

  lemma ParseOne()
    ensures ParseInt("1") == Ok(1)
  {
  }
}

/** The worked example of the intramolecular hydrogen-migration template (atomOrg):
    the reactant adjacency list and the four actions written out in the template
    module.  `OrgMatched` shows that `matchAtoms` rewrites only the lines of atoms 1, 5
    and 6 (labels `*2`, `*1` and `*3`) and that the bonds of the result are still
    symmetric.  The shaped lines `R1` ... `R12` are the reactant lines field by field;
    `A`, `B` and `C` lines are lines 1, 5 and 6 after the first, second and third or
    fourth action. */
module OrgExample {
  import opened Results
  import opened Text
  import opened Numerals
  import opened Shapes
  import opened Engine
  import opened Reaction
  import opened Symmetry
  import opened Literals

  /** The reactant adjacency list, one string per line. */
  const ReactantLines: seq<string> := [
    "1  *2 C 0 {2,S} {6,S} {7,S} {8,S}",
    "2  *5 C 0 {1,S} {3,D} {9,S}",
    "3  *4 C 0 {2,D} {5,S} {10,S}",
    "4     C 0 {5,D} {11,S} {12,S}",
    "5  *1 C 1 {3,S} {4,D}",
    "6  *3 H 0 {1,S}",
    "7     H 0 {1,S}",
    "8     H 0 {1,S}",
    "9     H 0 {2,S}",
    "10    H 0 {3,S}",
    "11    H 0 {4,S}",
    "12    H 0 {4,S}"
  ]

  /** The template's actions. */
  const Actions: seq<seq<string>> := [
    ["BREAK_BOND", "*2", "S", "*3"],
    ["FORM_BOND", "*1", "S", "*3"],
    ["GAIN_RADICAL", "*2", "1"],
    ["LOSE_RADICAL", "*1", "1"]
  ]

  /** What `matchAtoms` returns: the reactant lines with lines 1, 5 and 6 rewritten. */
  const MatchedLines: seq<string> :=
    ReactantLines[0 := "1  *2 C 1 {2,S} {7,S} {8,S}"][4 := "5  *1 C 0 {3,S} {4,D} {6,S}"][5 := "6  *3 H 0  {5,S}"]

  // ---------------------------------------------------------------------------
  // The lines as shaped lines

  const R1 := Shaped(1, "  ", "*2", "C", "0", " ", [Seg(2, "S", " "), Seg(6, "S", " "), Seg(7, "S", " "), Seg(8, "S", "")])

  const R2 := Shaped(2, "  ", "*5", "C", "0", " ", [Seg(1, "S", " "), Seg(3, "D", " "), Seg(9, "S", "")])

  const R3 := Shaped(3, "  ", "*4", "C", "0", " ", [Seg(2, "D", " "), Seg(5, "S", " "), Seg(10, "S", "")])

  const R4 := Shaped(4, "    ", "", "C", "0", " ", [Seg(5, "D", " "), Seg(11, "S", " "), Seg(12, "S", "")])

  const R5 := Shaped(5, "  ", "*1", "C", "1", " ", [Seg(3, "S", " "), Seg(4, "D", "")])

  const R6 := Shaped(6, "  ", "*3", "H", "0", " ", [Seg(1, "S", "")])

  const R7 := Shaped(7, "    ", "", "H", "0", " ", [Seg(1, "S", "")])

  const R8 := Shaped(8, "    ", "", "H", "0", " ", [Seg(1, "S", "")])

  const R9 := Shaped(9, "    ", "", "H", "0", " ", [Seg(2, "S", "")])

  const R10 := Shaped(10, "   ", "", "H", "0", " ", [Seg(3, "S", "")])

  const R11 := Shaped(11, "   ", "", "H", "0", " ", [Seg(4, "S", "")])

  const R12 := Shaped(12, "   ", "", "H", "0", " ", [Seg(4, "S", "")])

  const RS: seq<Shaped> := [
    R1, R2, R3, R4, R5, R6, R7, R8, R9,
    R10, R11, R12
  ]

  /** Line 1 once the bond to 6 is broken. */
  const A1 := Shaped(1, "  ", "*2", "C", "0", " ", [Seg(2, "S", " "), Seg(7, "S", " "), Seg(8, "S", "")])

  /** Line 6 once the bond to 1 is broken. */
  const A6 := Shaped(6, "  ", "*3", "H", "0", " ", [])

  /** Line 5 once the bond to 6 is formed. */
  const B5 := Shaped(5, "  ", "*1", "C", "1", " ", [Seg(3, "S", " "), Seg(4, "D", " "), Seg(6, "S", "")])

  /** Line 6 once the bond to 5 is formed. */
  const B6 := Shaped(6, "  ", "*3", "H", "0", "  ", [Seg(5, "S", "")])

  /** Line 1 after gaining a radical. */
  const C1 := Shaped(1, "  ", "*2", "C", "1", " ", [Seg(2, "S", " "), Seg(7, "S", " "), Seg(8, "S", "")])

  /** Line 5 after losing its radical. */
  const C5 := Shaped(5, "  ", "*1", "C", "0", " ", [Seg(3, "S", " "), Seg(4, "D", " "), Seg(6, "S", "")])

  const S1: seq<Shaped> := RS[0 := A1][5 := A6]
  const S2: seq<Shaped> := S1[4 := B5][5 := B6]
  const S3: seq<Shaped> := S2[0 := C1]
  const S4: seq<Shaped> := S3[4 := C5]

  // ---------------------------------------------------------------------------
  // Texts

  lemma ReactantLine1()
    ensures Texts(RS)[0] == ReactantLines[0]
  {
    assert RS[0] == R1;
    TextR1();
  }

  lemma ReactantLine2()
    ensures Texts(RS)[1] == ReactantLines[1]
  {
    assert RS[1] == R2;
    TextR2();
  }

  lemma ReactantLine3()
    ensures Texts(RS)[2] == ReactantLines[2]
  {
    assert RS[2] == R3;
    TextR3();
  }

  lemma ReactantLine4()
    ensures Texts(RS)[3] == ReactantLines[3]
  {
    assert RS[3] == R4;
    TextR4();
  }

  lemma ReactantLine5()
    ensures Texts(RS)[4] == ReactantLines[4]
  {
    assert RS[4] == R5;
    TextR5();
  }

  lemma ReactantLine6()
    ensures Texts(RS)[5] == ReactantLines[5]
  {
    assert RS[5] == R6;
    TextR6();
  }

  lemma ReactantLine7()
    ensures Texts(RS)[6] == ReactantLines[6]
  {
    assert RS[6] == R7;
    TextR7();
  }

  lemma ReactantLine8()
    ensures Texts(RS)[7] == ReactantLines[7]
  {
    assert RS[7] == R8;
    TextR8();
  }

  lemma ReactantLine9()
    ensures Texts(RS)[8] == ReactantLines[8]
  {
    assert RS[8] == R9;
    TextR9();
  }

  lemma ReactantLine10()
    ensures Texts(RS)[9] == ReactantLines[9]
  {
    assert RS[9] == R10;
    TextR10();
  }

  lemma ReactantLine11()
    ensures Texts(RS)[10] == ReactantLines[10]
  {
    assert RS[10] == R11;
    TextR11();
  }

  lemma ReactantLine12()
    ensures Texts(RS)[11] == ReactantLines[11]
  {
    assert RS[11] == R12;
    TextR12();
  }

  lemma ReactantLinesEach()
    ensures forall i :: 0 <= i < 12 ==> Texts(RS)[i] == ReactantLines[i]
  {
    forall i | 0 <= i < 12 ensures Texts(RS)[i] == ReactantLines[i] {
      if i == 0 { ReactantLine1(); }
      else if i == 1 { ReactantLine2(); }
      else if i == 2 { ReactantLine3(); }
      else if i == 3 { ReactantLine4(); }
      else if i == 4 { ReactantLine5(); }
      else if i == 5 { ReactantLine6(); }
      else if i == 6 { ReactantLine7(); }
      else if i == 7 { ReactantLine8(); }
      else if i == 8 { ReactantLine9(); }
      else if i == 9 { ReactantLine10(); }
      else if i == 10 { ReactantLine11(); }
      else if i == 11 { ReactantLine12(); }
    }
  }

  /** The shaped lines `RS` are the reactant's lines. */
  lemma ReactantTexts()
    ensures Texts(RS) == ReactantLines
  {
    ReactantLinesEach();
  }

  lemma TextR1()
    ensures ShapedText(R1) == "1  *2 C 0 {2,S} {6,S} {7,S} {8,S}"
  {
    Segs4(Seg(2, "S", " "), Seg(6, "S", " "), Seg(7, "S", " "), Seg(8, "S", ""));
    Names();
    FlatR1();
  }

  lemma FlatR1()
    ensures "1" + "  " + "*2" + " " + "C" + " " + "0" + " " + ("{" + ("2" + "," + "S" + "}" + " ") + ("{" + ("6" + "," + "S" + "}" + " ") + ("{" + ("7" + "," + "S" + "}" + " ") + ("{" + ("8" + "," + "S" + "}" + "")))))
         == "1  *2 C 0 {2,S} {6,S} {7,S} {8,S}"
  {
    FlatHeadR1();
    FlatSegsR1();
  }

  lemma FlatHeadR1()
    ensures "1" + "  " + "*2" + " " + "C" + " " + "0" + " " == "1  *2 C 0 "
  {
  }

  lemma FlatSegsR1()
    ensures "{" + ("2" + "," + "S" + "}" + " ") + ("{" + ("6" + "," + "S" + "}" + " ") + ("{" + ("7" + "," + "S" + "}" + " ") + ("{" + ("8" + "," + "S" + "}" + "")))) == "{2,S} {6,S} {7,S} {8,S}"
  {
  }

  lemma TextR2()
    ensures ShapedText(R2) == "2  *5 C 0 {1,S} {3,D} {9,S}"
  {
    Segs3(Seg(1, "S", " "), Seg(3, "D", " "), Seg(9, "S", ""));
    Names();
    FlatR2();
  }

  lemma FlatR2()
    ensures "2" + "  " + "*5" + " " + "C" + " " + "0" + " " + ("{" + ("1" + "," + "S" + "}" + " ") + ("{" + ("3" + "," + "D" + "}" + " ") + ("{" + ("9" + "," + "S" + "}" + ""))))
         == "2  *5 C 0 {1,S} {3,D} {9,S}"
  {
    FlatHeadR2();
    FlatSegsR2();
  }

  lemma FlatHeadR2()
    ensures "2" + "  " + "*5" + " " + "C" + " " + "0" + " " == "2  *5 C 0 "
  {
  }

  lemma FlatSegsR2()
    ensures "{" + ("1" + "," + "S" + "}" + " ") + ("{" + ("3" + "," + "D" + "}" + " ") + ("{" + ("9" + "," + "S" + "}" + ""))) == "{1,S} {3,D} {9,S}"
  {
  }

  lemma TextR3()
    ensures ShapedText(R3) == "3  *4 C 0 {2,D} {5,S} {10,S}"
  {
    Segs3(Seg(2, "D", " "), Seg(5, "S", " "), Seg(10, "S", ""));
    Names();
    FlatR3();
  }

  lemma FlatR3()
    ensures "3" + "  " + "*4" + " " + "C" + " " + "0" + " " + ("{" + ("2" + "," + "D" + "}" + " ") + ("{" + ("5" + "," + "S" + "}" + " ") + ("{" + ("10" + "," + "S" + "}" + ""))))
         == "3  *4 C 0 {2,D} {5,S} {10,S}"
  {
    FlatHeadR3();
    FlatSegsR3();
  }

  lemma FlatHeadR3()
    ensures "3" + "  " + "*4" + " " + "C" + " " + "0" + " " == "3  *4 C 0 "
  {
  }

  lemma FlatSegsR3()
    ensures "{" + ("2" + "," + "D" + "}" + " ") + ("{" + ("5" + "," + "S" + "}" + " ") + ("{" + ("10" + "," + "S" + "}" + ""))) == "{2,D} {5,S} {10,S}"
  {
  }

  lemma TextR4()
    ensures ShapedText(R4) == "4     C 0 {5,D} {11,S} {12,S}"
  {
    Segs3(Seg(5, "D", " "), Seg(11, "S", " "), Seg(12, "S", ""));
    Names();
    FlatR4();
  }

  lemma FlatR4()
    ensures "4" + "    " + "" + " " + "C" + " " + "0" + " " + ("{" + ("5" + "," + "D" + "}" + " ") + ("{" + ("11" + "," + "S" + "}" + " ") + ("{" + ("12" + "," + "S" + "}" + ""))))
         == "4     C 0 {5,D} {11,S} {12,S}"
  {
    FlatHeadR4();
    FlatSegsR4();
  }

  lemma FlatHeadR4()
    ensures "4" + "    " + "" + " " + "C" + " " + "0" + " " == "4     C 0 "
  {
  }

  lemma FlatSegsR4()
    ensures "{" + ("5" + "," + "D" + "}" + " ") + ("{" + ("11" + "," + "S" + "}" + " ") + ("{" + ("12" + "," + "S" + "}" + ""))) == "{5,D} {11,S} {12,S}"
  {
  }

  lemma TextR5()
    ensures ShapedText(R5) == "5  *1 C 1 {3,S} {4,D}"
  {
    Segs2(Seg(3, "S", " "), Seg(4, "D", ""));
    Names();
    FlatR5();
  }

  lemma FlatR5()
    ensures "5" + "  " + "*1" + " " + "C" + " " + "1" + " " + ("{" + ("3" + "," + "S" + "}" + " ") + ("{" + ("4" + "," + "D" + "}" + "")))
         == "5  *1 C 1 {3,S} {4,D}"
  {
    FlatHeadR5();
    FlatSegsR5();
  }

  lemma FlatHeadR5()
    ensures "5" + "  " + "*1" + " " + "C" + " " + "1" + " " == "5  *1 C 1 "
  {
  }

  lemma FlatSegsR5()
    ensures "{" + ("3" + "," + "S" + "}" + " ") + ("{" + ("4" + "," + "D" + "}" + "")) == "{3,S} {4,D}"
  {
  }

  lemma TextR6()
    ensures ShapedText(R6) == "6  *3 H 0 {1,S}"
  {
    Segs1(Seg(1, "S", ""));
    Names();
    FlatR6();
  }

  lemma FlatR6()
    ensures "6" + "  " + "*3" + " " + "H" + " " + "0" + " " + ("{" + ("1" + "," + "S" + "}" + ""))
         == "6  *3 H 0 {1,S}"
  {
    FlatHeadR6();
    FlatSegsR6();
  }

  lemma FlatHeadR6()
    ensures "6" + "  " + "*3" + " " + "H" + " " + "0" + " " == "6  *3 H 0 "
  {
  }

  lemma FlatSegsR6()
    ensures "{" + ("1" + "," + "S" + "}" + "") == "{1,S}"
  {
  }

  lemma TextR7()
    ensures ShapedText(R7) == "7     H 0 {1,S}"
  {
    Segs1(Seg(1, "S", ""));
    Names();
    FlatR7();
  }

  lemma FlatR7()
    ensures "7" + "    " + "" + " " + "H" + " " + "0" + " " + ("{" + ("1" + "," + "S" + "}" + ""))
         == "7     H 0 {1,S}"
  {
    FlatHeadR7();
    FlatSegsR7();
  }

  lemma FlatHeadR7()
    ensures "7" + "    " + "" + " " + "H" + " " + "0" + " " == "7     H 0 "
  {
  }

  lemma FlatSegsR7()
    ensures "{" + ("1" + "," + "S" + "}" + "") == "{1,S}"
  {
  }

  lemma TextR8()
    ensures ShapedText(R8) == "8     H 0 {1,S}"
  {
    Segs1(Seg(1, "S", ""));
    Names();
    FlatR8();
  }

  lemma FlatR8()
    ensures "8" + "    " + "" + " " + "H" + " " + "0" + " " + ("{" + ("1" + "," + "S" + "}" + ""))
         == "8     H 0 {1,S}"
  {
    FlatHeadR8();
    FlatSegsR8();
  }

  lemma FlatHeadR8()
    ensures "8" + "    " + "" + " " + "H" + " " + "0" + " " == "8     H 0 "
  {
  }

  lemma FlatSegsR8()
    ensures "{" + ("1" + "," + "S" + "}" + "") == "{1,S}"
  {
  }

  lemma TextR9()
    ensures ShapedText(R9) == "9     H 0 {2,S}"
  {
    Segs1(Seg(2, "S", ""));
    Names();
    FlatR9();
  }

  lemma FlatR9()
    ensures "9" + "    " + "" + " " + "H" + " " + "0" + " " + ("{" + ("2" + "," + "S" + "}" + ""))
         == "9     H 0 {2,S}"
  {
    FlatHeadR9();
    FlatSegsR9();
  }

  lemma FlatHeadR9()
    ensures "9" + "    " + "" + " " + "H" + " " + "0" + " " == "9     H 0 "
  {
  }

  lemma FlatSegsR9()
    ensures "{" + ("2" + "," + "S" + "}" + "") == "{2,S}"
  {
  }

  lemma TextR10()
    ensures ShapedText(R10) == "10    H 0 {3,S}"
  {
    Segs1(Seg(3, "S", ""));
    Names();
    FlatR10();
  }

  lemma FlatR10()
    ensures "10" + "   " + "" + " " + "H" + " " + "0" + " " + ("{" + ("3" + "," + "S" + "}" + ""))
         == "10    H 0 {3,S}"
  {
    FlatHeadR10();
    FlatSegsR10();
  }

  lemma FlatHeadR10()
    ensures "10" + "   " + "" + " " + "H" + " " + "0" + " " == "10    H 0 "
  {
  }

  lemma FlatSegsR10()
    ensures "{" + ("3" + "," + "S" + "}" + "") == "{3,S}"
  {
  }

  lemma TextR11()
    ensures ShapedText(R11) == "11    H 0 {4,S}"
  {
    Segs1(Seg(4, "S", ""));
    Names();
    FlatR11();
  }

  lemma FlatR11()
    ensures "11" + "   " + "" + " " + "H" + " " + "0" + " " + ("{" + ("4" + "," + "S" + "}" + ""))
         == "11    H 0 {4,S}"
  {
    FlatHeadR11();
    FlatSegsR11();
  }

  lemma FlatHeadR11()
    ensures "11" + "   " + "" + " " + "H" + " " + "0" + " " == "11    H 0 "
  {
  }

  lemma FlatSegsR11()
    ensures "{" + ("4" + "," + "S" + "}" + "") == "{4,S}"
  {
  }

  lemma TextR12()
    ensures ShapedText(R12) == "12    H 0 {4,S}"
  {
    Segs1(Seg(4, "S", ""));
    Names();
    FlatR12();
  }

  lemma FlatR12()
    ensures "12" + "   " + "" + " " + "H" + " " + "0" + " " + ("{" + ("4" + "," + "S" + "}" + ""))
         == "12    H 0 {4,S}"
  {
    FlatHeadR12();
    FlatSegsR12();
  }

  lemma FlatHeadR12()
    ensures "12" + "   " + "" + " " + "H" + " " + "0" + " " == "12    H 0 "
  {
  }

  lemma FlatSegsR12()
    ensures "{" + ("4" + "," + "S" + "}" + "") == "{4,S}"
  {
  }

  lemma TextB6()
    ensures ShapedText(B6) == "6  *3 H 0  {5,S}"
  {
    Segs1(Seg(5, "S", ""));
    Names();
    FlatB6();
  }

  lemma FlatB6()
    ensures "6" + "  " + "*3" + " " + "H" + " " + "0" + "  " + ("{" + ("5" + "," + "S" + "}" + ""))
         == "6  *3 H 0  {5,S}"
  {
    FlatHeadB6();
    FlatSegsB6();
  }

  lemma FlatHeadB6()
    ensures "6" + "  " + "*3" + " " + "H" + " " + "0" + "  " == "6  *3 H 0  "
  {
  }

  lemma FlatSegsB6()
    ensures "{" + ("5" + "," + "S" + "}" + "") == "{5,S}"
  {
  }

  lemma TextC1()
    ensures ShapedText(C1) == "1  *2 C 1 {2,S} {7,S} {8,S}"
  {
    Segs3(Seg(2, "S", " "), Seg(7, "S", " "), Seg(8, "S", ""));
    Names();
    FlatC1();
  }

  lemma FlatC1()
    ensures "1" + "  " + "*2" + " " + "C" + " " + "1" + " " + ("{" + ("2" + "," + "S" + "}" + " ") + ("{" + ("7" + "," + "S" + "}" + " ") + ("{" + ("8" + "," + "S" + "}" + ""))))
         == "1  *2 C 1 {2,S} {7,S} {8,S}"
  {
    FlatHeadC1();
    FlatSegsC1();
  }

  lemma FlatHeadC1()
    ensures "1" + "  " + "*2" + " " + "C" + " " + "1" + " " == "1  *2 C 1 "
  {
  }

  lemma FlatSegsC1()
    ensures "{" + ("2" + "," + "S" + "}" + " ") + ("{" + ("7" + "," + "S" + "}" + " ") + ("{" + ("8" + "," + "S" + "}" + ""))) == "{2,S} {7,S} {8,S}"
  {
  }

  lemma TextC5()
    ensures ShapedText(C5) == "5  *1 C 0 {3,S} {4,D} {6,S}"
  {
    Segs3(Seg(3, "S", " "), Seg(4, "D", " "), Seg(6, "S", ""));
    Names();
    FlatC5();
  }

  lemma FlatC5()
    ensures "5" + "  " + "*1" + " " + "C" + " " + "0" + " " + ("{" + ("3" + "," + "S" + "}" + " ") + ("{" + ("4" + "," + "D" + "}" + " ") + ("{" + ("6" + "," + "S" + "}" + ""))))
         == "5  *1 C 0 {3,S} {4,D} {6,S}"
  {
    FlatHeadC5();
    FlatSegsC5();
  }

  lemma FlatHeadC5()
    ensures "5" + "  " + "*1" + " " + "C" + " " + "0" + " " == "5  *1 C 0 "
  {
  }

  lemma FlatSegsC5()
    ensures "{" + ("3" + "," + "S" + "}" + " ") + ("{" + ("4" + "," + "D" + "}" + " ") + ("{" + ("6" + "," + "S" + "}" + ""))) == "{3,S} {4,D} {6,S}"
  {
  }

  // ---------------------------------------------------------------------------
  // Shapes

  lemma ReactantWell1()
    ensures forall i :: 0 <= i < 6 ==> WellShaped(RS[i])
  {
    forall i | 0 <= i < 6 ensures WellShaped(RS[i]) {
      if i == 0 { assert RS[0] == R1; WellR1(); }
      else if i == 1 { assert RS[1] == R2; WellR2(); }
      else if i == 2 { assert RS[2] == R3; WellR3(); }
      else if i == 3 { assert RS[3] == R4; WellR4(); }
      else if i == 4 { assert RS[4] == R5; WellR5(); }
      else if i == 5 { assert RS[5] == R6; WellR6(); }
    }
  }

  lemma ReactantWell2()
    ensures forall i :: 6 <= i < 12 ==> WellShaped(RS[i])
  {
    forall i | 6 <= i < 12 ensures WellShaped(RS[i]) {
      if i == 6 { assert RS[6] == R7; WellR7(); }
      else if i == 7 { assert RS[7] == R8; WellR8(); }
      else if i == 8 { assert RS[8] == R9; WellR9(); }
      else if i == 9 { assert RS[9] == R10; WellR10(); }
      else if i == 10 { assert RS[10] == R11; WellR11(); }
      else if i == 11 { assert RS[11] == R12; WellR12(); }
    }
  }

  lemma WellR1()
    ensures WellShaped(R1)
  {
  }

  lemma WellR2()
    ensures WellShaped(R2)
  {
  }

  lemma WellR3()
    ensures WellShaped(R3)
  {
  }

  lemma WellR4()
    ensures WellShaped(R4)
  {
  }

  lemma WellR5()
    ensures WellShaped(R5)
  {
  }

  lemma WellR6()
    ensures WellShaped(R6)
  {
  }

  lemma WellR7()
    ensures WellShaped(R7)
  {
  }

  lemma WellR8()
    ensures WellShaped(R8)
  {
  }

  lemma WellR9()
    ensures WellShaped(R9)
  {
  }

  lemma WellR10()
    ensures WellShaped(R10)
  {
  }

  lemma WellR11()
    ensures WellShaped(R11)
  {
  }

  lemma WellR12()
    ensures WellShaped(R12)
  {
  }

  lemma ReactantLabels()
    ensures forall i :: 0 <= i < 12 ==> RS[i].atomLabel == (if i == 0 then "*2" else if i == 1 then "*5" else if i == 2 then "*4" else if i == 4 then "*1" else if i == 5 then "*3" else "")
  {
    forall i | 0 <= i < 12 ensures RS[i].atomLabel == (if i == 0 then "*2" else if i == 1 then "*5" else if i == 2 then "*4" else if i == 4 then "*1" else if i == 5 then "*3" else "") {
      if i == 0 {  }
      else if i == 1 {  }
      else if i == 2 {  }
      else if i == 3 {  }
      else if i == 4 {  }
      else if i == 5 {  }
      else if i == 6 {  }
      else if i == 7 {  }
      else if i == 8 {  }
      else if i == 9 {  }
      else if i == 10 {  }
      else if i == 11 {  }
    }
  }

  lemma ReactantAllWell()
    ensures AllWell(RS)
  {
    ReactantWell1(); ReactantWell2();
  }

  // ---------------------------------------------------------------------------
  // The reactant's bonds are symmetric

  lemma PartnersR1(b: int, o: string)
    requires SegsBond(R1.segs, b, o)
    ensures Bond(RS, b, 1, o)
  {
    var j :| 0 <= j < |R1.segs| && R1.segs[j].nbr == b && R1.segs[j].order == o;
    if j == 0 { assert RS[1] == R2 && R2.segs[0] == Seg(1, "S", " "); }
    else if j == 1 { assert RS[5] == R6 && R6.segs[0] == Seg(1, "S", ""); }
    else if j == 2 { assert RS[6] == R7 && R7.segs[0] == Seg(1, "S", ""); }
    else if j == 3 { assert RS[7] == R8 && R8.segs[0] == Seg(1, "S", ""); }
  }

  lemma PartnersR2(b: int, o: string)
    requires SegsBond(R2.segs, b, o)
    ensures Bond(RS, b, 2, o)
  {
    var j :| 0 <= j < |R2.segs| && R2.segs[j].nbr == b && R2.segs[j].order == o;
    if j == 0 { assert RS[0] == R1 && R1.segs[0] == Seg(2, "S", " "); }
    else if j == 1 { assert RS[2] == R3 && R3.segs[0] == Seg(2, "D", " "); }
    else if j == 2 { assert RS[8] == R9 && R9.segs[0] == Seg(2, "S", ""); }
  }

  lemma PartnersR3(b: int, o: string)
    requires SegsBond(R3.segs, b, o)
    ensures Bond(RS, b, 3, o)
  {
    var j :| 0 <= j < |R3.segs| && R3.segs[j].nbr == b && R3.segs[j].order == o;
    if j == 0 { assert RS[1] == R2 && R2.segs[1] == Seg(3, "D", " "); }
    else if j == 1 { assert RS[4] == R5 && R5.segs[0] == Seg(3, "S", " "); }
    else if j == 2 { assert RS[9] == R10 && R10.segs[0] == Seg(3, "S", ""); }
  }

  lemma PartnersR4(b: int, o: string)
    requires SegsBond(R4.segs, b, o)
    ensures Bond(RS, b, 4, o)
  {
    var j :| 0 <= j < |R4.segs| && R4.segs[j].nbr == b && R4.segs[j].order == o;
    if j == 0 { assert RS[4] == R5 && R5.segs[1] == Seg(4, "D", ""); }
    else if j == 1 { assert RS[10] == R11 && R11.segs[0] == Seg(4, "S", ""); }
    else if j == 2 { assert RS[11] == R12 && R12.segs[0] == Seg(4, "S", ""); }
  }

  lemma PartnersR5(b: int, o: string)
    requires SegsBond(R5.segs, b, o)
    ensures Bond(RS, b, 5, o)
  {
    var j :| 0 <= j < |R5.segs| && R5.segs[j].nbr == b && R5.segs[j].order == o;
    if j == 0 { assert RS[2] == R3 && R3.segs[1] == Seg(5, "S", " "); }
    else if j == 1 { assert RS[3] == R4 && R4.segs[0] == Seg(5, "D", " "); }
  }

  lemma PartnersR6(b: int, o: string)
    requires SegsBond(R6.segs, b, o)
    ensures Bond(RS, b, 6, o)
  {
    var j :| 0 <= j < |R6.segs| && R6.segs[j].nbr == b && R6.segs[j].order == o;
    if j == 0 { assert RS[0] == R1 && R1.segs[1] == Seg(6, "S", " "); }
  }

  lemma PartnersR7(b: int, o: string)
    requires SegsBond(R7.segs, b, o)
    ensures Bond(RS, b, 7, o)
  {
    var j :| 0 <= j < |R7.segs| && R7.segs[j].nbr == b && R7.segs[j].order == o;
    if j == 0 { assert RS[0] == R1 && R1.segs[2] == Seg(7, "S", " "); }
  }

  lemma PartnersR8(b: int, o: string)
    requires SegsBond(R8.segs, b, o)
    ensures Bond(RS, b, 8, o)
  {
    var j :| 0 <= j < |R8.segs| && R8.segs[j].nbr == b && R8.segs[j].order == o;
    if j == 0 { assert RS[0] == R1 && R1.segs[3] == Seg(8, "S", ""); }
  }

  lemma PartnersR9(b: int, o: string)
    requires SegsBond(R9.segs, b, o)
    ensures Bond(RS, b, 9, o)
  {
    var j :| 0 <= j < |R9.segs| && R9.segs[j].nbr == b && R9.segs[j].order == o;
    if j == 0 { assert RS[1] == R2 && R2.segs[2] == Seg(9, "S", ""); }
  }

  lemma PartnersR10(b: int, o: string)
    requires SegsBond(R10.segs, b, o)
    ensures Bond(RS, b, 10, o)
  {
    var j :| 0 <= j < |R10.segs| && R10.segs[j].nbr == b && R10.segs[j].order == o;
    if j == 0 { assert RS[2] == R3 && R3.segs[2] == Seg(10, "S", ""); }
  }

  lemma PartnersR11(b: int, o: string)
    requires SegsBond(R11.segs, b, o)
    ensures Bond(RS, b, 11, o)
  {
    var j :| 0 <= j < |R11.segs| && R11.segs[j].nbr == b && R11.segs[j].order == o;
    if j == 0 { assert RS[3] == R4 && R4.segs[1] == Seg(11, "S", " "); }
  }

  lemma PartnersR12(b: int, o: string)
    requires SegsBond(R12.segs, b, o)
    ensures Bond(RS, b, 12, o)
  {
    var j :| 0 <= j < |R12.segs| && R12.segs[j].nbr == b && R12.segs[j].order == o;
    if j == 0 { assert RS[3] == R4 && R4.segs[2] == Seg(12, "S", ""); }
  }

  /** Every bond token of the reactant has its partner on the neighbour's line. */
  lemma ReactantSymmetric()
    ensures Symmetric(RS)
  {
    forall a, b, o | Bond(RS, a, b, o) ensures Bond(RS, b, a, o) {
      if a == 1 { assert RS[0] == R1; PartnersR1(b, o); }
      else if a == 2 { assert RS[1] == R2; PartnersR2(b, o); }
      else if a == 3 { assert RS[2] == R3; PartnersR3(b, o); }
      else if a == 4 { assert RS[3] == R4; PartnersR4(b, o); }
      else if a == 5 { assert RS[4] == R5; PartnersR5(b, o); }
      else if a == 6 { assert RS[5] == R6; PartnersR6(b, o); }
      else if a == 7 { assert RS[6] == R7; PartnersR7(b, o); }
      else if a == 8 { assert RS[7] == R8; PartnersR8(b, o); }
      else if a == 9 { assert RS[8] == R9; PartnersR9(b, o); }
      else if a == 10 { assert RS[9] == R10; PartnersR10(b, o); }
      else if a == 11 { assert RS[10] == R11; PartnersR11(b, o); }
      else if a == 12 { assert RS[11] == R12; PartnersR12(b, o); }
    }
  }
  // ---------------------------------------------------------------------------
  // The four actions

  lemma Label1()
    ensures "*1" in ShapedLabels(RS, map[]) && ShapedLabels(RS, map[])["*1"] == 5
  {
    ReactantLabels();
    assert RS[4] == R5;
    LabelAt(RS, map[], 4);
  }

  lemma Label2()
    ensures "*2" in ShapedLabels(RS, map[]) && ShapedLabels(RS, map[])["*2"] == 1
  {
    ReactantLabels();
    assert RS[0] == R1;
    LabelAt(RS, map[], 0);
  }

  lemma Label3()
    ensures "*3" in ShapedLabels(RS, map[]) && ShapedLabels(RS, map[])["*3"] == 6
  {
    ReactantLabels();
    assert RS[5] == R6;
    LabelAt(RS, map[], 5);
  }

  /** `rdict` of the reactant for the labels the actions use: `*1` is atom 5, `*2`
      atom 1 and `*3` atom 6. */
  lemma ReactantLabelMap()
    ensures "*1" in ShapedLabels(RS, map[]) && ShapedLabels(RS, map[])["*1"] == 5
    ensures "*2" in ShapedLabels(RS, map[]) && ShapedLabels(RS, map[])["*2"] == 1
    ensures "*3" in ShapedLabels(RS, map[]) && ShapedLabels(RS, map[])["*3"] == 6
  {
    Label1();
    Label2();
    Label3();
  }

  lemma Unbonded1()
    ensures R1.(segs := Without(R1.segs, 6)) == A1
  {
    assert Without(R1.segs, 6) == A1.segs;
  }

  lemma Unbonded6()
    ensures R6.(segs := Without(R6.segs, 1)) == A6
  {
    assert Without(R6.segs, 1) == [];
  }

  lemma BrokenLines()
    ensures Broken(RS, 1, 6) == S1
  {
    Unbonded1();
    Unbonded6();
    assert RS[0] == R1;
    var s1 := RS[0 := A1];
    assert s1[5] == R6;
    assert Broken(RS, 1, 6) == s1[5 := A6];
  }

  /** BREAK_BOND *2 S *3 takes `{6,S}` out of line 1 and `{1,S}` out of line 6. */
  lemma BreakStep()
    ensures Step(RS, ShapedLabels(RS, map[]), Actions[0]) == Some(S1)
  {
    ReactantLabelMap();
    UpperNames();
    BondStep(RS, ShapedLabels(RS, map[]), Actions[0]);
    BrokenLines();
  }

  lemma FormedLines()
    ensures Formed(R5, 6, "S") == B5
    ensures Formed(A6, 5, "S") == B6
  {
    var f := Appended(R5.segs, 6, "S");
    assert |f| == 3;
    assert f[0] == B5.segs[0] && f[1] == B5.segs[1] && f[2] == B5.segs[2];
    assert f == B5.segs;
  }

  lemma BondedLines()
    ensures Bonded(S1, 5, 6, "S") == S2
  {
    assert S1[4] == R5 && S1[5] == A6;
    FormedLines();
  }

  /** Before the bond is formed neither line 5 nor line 6 names the other. */
  lemma NotYetBonded()
    ensures !HasNbr(S1[4], 6) && !HasNbr(S1[5], 5)
  {
    assert S1[4] == R5 && S1[5] == A6;
    NbrInIff(R5.segs, 6);
  }

  /** FORM_BOND *1 S *3 appends `{6,S}` to line 5 and `{5,S}` to line 6. */
  lemma FormStep()
    ensures Step(S1, ShapedLabels(RS, map[]), Actions[1]) == Some(S2)
  {
    var labels := ShapedLabels(RS, map[]);
    ReactantLabelMap();
    UpperNames();
    NotYetBonded();
    assert Actions[1][0] == "FORM_BOND" && Actions[1][1] == "*1" && Actions[1][2] == "S" && Actions[1][3] == "*3";
    BondStep(S1, labels, Actions[1]);
    assert Step(S1, labels, Actions[1]) == Some(Bonded(S1, 5, 6, "S"));
    BondedLines();
  }

  /** GAIN_RADICAL *2 1 turns the radical count of line 1 from 0 into 1. */
  lemma GainStep()
    ensures Step(S2, ShapedLabels(RS, map[]), Actions[2]) == Some(S3)
  {
    var labels := ShapedLabels(RS, map[]);
    ReactantLabelMap();
    UpperNames();
    ParseOne();
    Names();
    assert Actions[2][0] == "GAIN_RADICAL" && Actions[2][1] == "*2" && Actions[2][2] == "1";
    assert S2[0] == A1;
    assert RadColumn(A1);
    assert NewCount(A1, 1, false) == 1;
    RadicalStep(S2, labels, Actions[2]);
    assert Step(S2, labels, Actions[2]) == Some(S2[0 := Recounted(A1, "1", false)]);
    assert Recounted(A1, "1", false) == C1;
  }

  /** LOSE_RADICAL *1 1 turns the radical count of line 5 from 1 into 0. */
  lemma LoseStep()
    ensures Step(S3, ShapedLabels(RS, map[]), Actions[3]) == Some(S4)
  {
    ReactantLabelMap();
    UpperNames();
    ParseOne();
    Names();
    assert S3[4] == B5;
    assert RadColumn(B5);
    RadicalStep(S3, ShapedLabels(RS, map[]), Actions[3]);
    assert IntToString(0) == "0";
    assert Recounted(B5, "1", true) == C5;
  }

  lemma AllSteps()
    ensures Steps(RS, ShapedLabels(RS, map[]), Actions) == Some(S4)
  {
    var labels := ShapedLabels(RS, map[]);
    BreakStep();
    FormStep();
    GainStep();
    LoseStep();
    assert Actions[4..] == [];
    assert Actions[3..][1..] == Actions[4..] && Actions[3..][0] == Actions[3];
    assert Actions[2..][1..] == Actions[3..] && Actions[2..][0] == Actions[2];
    assert Actions[1..][1..] == Actions[2..] && Actions[1..][0] == Actions[1];
    assert Steps(S3, labels, Actions[3..]) == Some(S4);
    assert Steps(S2, labels, Actions[2..]) == Some(S4);
    assert Steps(S1, labels, Actions[1..]) == Some(S4);
  }

  lemma MatchedKept()
    ensures forall i :: 0 <= i < 12 && i != 0 && i != 4 && i != 5 ==> Texts(S4)[i] == MatchedLines[i]
  {
    ReactantTexts();
    assert S4 == RS[0 := C1][4 := C5][5 := B6];
    forall i | 0 <= i < 12 && i != 0 && i != 4 && i != 5 ensures Texts(S4)[i] == MatchedLines[i] {
      assert S4[i] == RS[i];
      assert MatchedLines[i] == ReactantLines[i];
      assert Texts(RS)[i] == ReactantLines[i];
    }
  }

  lemma MatchedChanged()
    ensures Texts(S4)[0] == MatchedLines[0]
    ensures Texts(S4)[4] == MatchedLines[4]
    ensures Texts(S4)[5] == MatchedLines[5]
  {
    TextC1();
    TextC5();
    TextB6();
    assert S4[0] == C1 && S4[4] == C5 && S4[5] == B6;
  }

  /** The text of the lines after the four actions. */
  lemma MatchedTexts()
    ensures Texts(S4) == MatchedLines
  {
    MatchedKept();
    MatchedChanged();
    assert |Texts(S4)| == 12;
    forall i | 0 <= i < 12 ensures Texts(S4)[i] == MatchedLines[i] {
      if i == 0 || i == 4 || i == 5 {
      }
    }
  }

  /** The lines of atoms 1, 5 and 6 are rewritten and every other line is kept. */
  lemma MatchedDiffers()
    ensures forall i :: 0 <= i < |ReactantLines| ==>
      (MatchedLines[i] == ReactantLines[i] <==> i != 0 && i != 4 && i != 5)
  {
    assert MatchedLines[0][8] == '1' && ReactantLines[0][8] == '0';
    assert MatchedLines[4][8] == '0' && ReactantLines[4][8] == '1';
    assert |MatchedLines[5]| != |ReactantLines[5]|;
  }

  /** `matchAtoms` on the reactant lines rewrites exactly the lines of atoms 1, 5 and 6
      (labels `*2`, `*1` and `*3`), keeps every other line, and leaves lines whose bonds
      are still symmetric. */
  lemma OrgMatched()
    ensures MatchAtoms(ReactantLines, Actions) == Ok(MatchedLines)
    ensures forall i :: 0 <= i < |ReactantLines| ==>
      (MatchedLines[i] == ReactantLines[i] <==> i != 0 && i != 4 && i != 5)
    ensures Texts(S4) == MatchedLines && Symmetric(S4)
  {
    ReactantAllWell();
    ReactantTexts();
    ReactantSymmetric();
    AllSteps();
    MatchSymmetric(RS, Actions, S4);
    MatchedTexts();
    MatchedDiffers();
  }
}

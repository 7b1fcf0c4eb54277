/** The worked example of the hydrogen-abstraction template (habsrxn1): the reactant
    adjacency list, the four actions and the product adjacency list written out in the
    template module.  `HabsProduct` shows that `matchAtoms` on the reactant lines
    followed by `adjlist(atoms(...))` gives exactly the product text, and
    `HabsMatched` which three lines `matchAtoms` itself rewrites.  The shaped lines
    `R1` ... `R26` are the reactant lines field by field; `A`, `B` and `C` lines are
    lines 3, 5 and 13 after the first, second and third or fourth action, and `P5`,
    `P13` the product's lines 5 and 13. */
module HabsExample {
  import opened Results
  import opened Text
  import opened Numerals
  import opened AdjList
  import opened Shapes
  import opened Engine
  import opened Canonical
  import opened Reaction
  import opened Layout
  import opened Literals

  /** The reactant adjacency list, one string per line. */
  const ReactantLines: seq<string> := [
    "1     C 0 {2,D} {6,S} {7,S}",
    "2     C 0 {1,D} {3,S} {4,S}",
    "3  *1 C 0 {2,S} {5,S} {8,S} {9,S}",
    "4     C 0 {2,S} {10,S} {11,S} {12,S}",
    "5  *2 H 0 {3,S}",
    "6     H 0 {1,S}",
    "7     H 0 {1,S}",
    "8     H 0 {3,S}",
    "9     H 0 {3,S}",
    "10    H 0 {4,S}",
    "11    H 0 {4,S}",
    "12    H 0 {4,S}",
    "13 *3 C 1 {14,S} {18,S} {19,S}",
    "14    C 0 {13,S} {15,S} {17,S} {20,S}",
    "15    C 0 {14,S} {16,S} {21,S} {22,S}",
    "16    O 0 {15,S} {23,S}",
    "17    C 0 {14,S} {24,S} {25,S} {26,S}",
    "18    H 0 {13,S}",
    "19    H 0 {13,S}",
    "20    H 0 {14,S}",
    "21    H 0 {15,S}",
    "22    H 0 {15,S}",
    "23    H 0 {16,S}",
    "24    H 0 {17,S}",
    "25    H 0 {17,S}",
    "26    H 0 {17,S}"
  ]

  /** The product adjacency list, one string per line. */
  const ProductLines: seq<string> := [
    "1     C 0 {2,D} {6,S} {7,S}",
    "2     C 0 {1,D} {3,S} {4,S}",
    "3  *1 C 1 {2,S} {8,S} {9,S}",
    "4     C 0 {2,S} {10,S} {11,S} {12,S}",
    "5  *2 H 0 {13,S}",
    "6     H 0 {1,S}",
    "7     H 0 {1,S}",
    "8     H 0 {3,S}",
    "9     H 0 {3,S}",
    "10    H 0 {4,S}",
    "11    H 0 {4,S}",
    "12    H 0 {4,S}",
    "13 *3 C 0 {5,S} {14,S} {18,S} {19,S}",
    "14    C 0 {13,S} {15,S} {17,S} {20,S}",
    "15    C 0 {14,S} {16,S} {21,S} {22,S}",
    "16    O 0 {15,S} {23,S}",
    "17    C 0 {14,S} {24,S} {25,S} {26,S}",
    "18    H 0 {13,S}",
    "19    H 0 {13,S}",
    "20    H 0 {14,S}",
    "21    H 0 {15,S}",
    "22    H 0 {15,S}",
    "23    H 0 {16,S}",
    "24    H 0 {17,S}",
    "25    H 0 {17,S}",
    "26    H 0 {17,S}"
  ]

  /** The template's actions. */
  const Actions: seq<seq<string>> := [
    ["BREAK_BOND", "*1", "S", "*2"],
    ["FORM_BOND", "*2", "S", "*3"],
    ["GAIN_RADICAL", "*1", "1"],
    ["LOSE_RADICAL", "*3", "1"]
  ]

  /** What `matchAtoms` returns: the reactant lines with lines 3, 5 and 13 rewritten. */
  const MatchedLines: seq<string> :=
    ReactantLines[2 := "3  *1 C 1 {2,S} {8,S} {9,S}"][4 := "5  *2 H 0  {13,S}"][12 := "13 *3 C 0 {14,S} {18,S} {19,S} {5,S}"]

  // ---------------------------------------------------------------------------
  // The lines as shaped lines

  const R1 := Shaped(1, "    ", "", "C", "0", " ", [Seg(2, "D", " "), Seg(6, "S", " "), Seg(7, "S", "")])

  const R2 := Shaped(2, "    ", "", "C", "0", " ", [Seg(1, "D", " "), Seg(3, "S", " "), Seg(4, "S", "")])

  const R3 := Shaped(3, "  ", "*1", "C", "0", " ", [Seg(2, "S", " "), Seg(5, "S", " "), Seg(8, "S", " "), Seg(9, "S", "")])

  const R4 := Shaped(4, "    ", "", "C", "0", " ", [Seg(2, "S", " "), Seg(10, "S", " "), Seg(11, "S", " "), Seg(12, "S", "")])

  const R5 := Shaped(5, "  ", "*2", "H", "0", " ", [Seg(3, "S", "")])

  const R6 := Shaped(6, "    ", "", "H", "0", " ", [Seg(1, "S", "")])

  const R7 := Shaped(7, "    ", "", "H", "0", " ", [Seg(1, "S", "")])

  const R8 := Shaped(8, "    ", "", "H", "0", " ", [Seg(3, "S", "")])

  const R9 := Shaped(9, "    ", "", "H", "0", " ", [Seg(3, "S", "")])

  const R10 := Shaped(10, "   ", "", "H", "0", " ", [Seg(4, "S", "")])

  const R11 := Shaped(11, "   ", "", "H", "0", " ", [Seg(4, "S", "")])

  const R12 := Shaped(12, "   ", "", "H", "0", " ", [Seg(4, "S", "")])

  const R13 := Shaped(13, " ", "*3", "C", "1", " ", [Seg(14, "S", " "), Seg(18, "S", " "), Seg(19, "S", "")])

  const R14 := Shaped(14, "   ", "", "C", "0", " ", [Seg(13, "S", " "), Seg(15, "S", " "), Seg(17, "S", " "), Seg(20, "S", "")])

  const R15 := Shaped(15, "   ", "", "C", "0", " ", [Seg(14, "S", " "), Seg(16, "S", " "), Seg(21, "S", " "), Seg(22, "S", "")])

  const R16 := Shaped(16, "   ", "", "O", "0", " ", [Seg(15, "S", " "), Seg(23, "S", "")])

  const R17 := Shaped(17, "   ", "", "C", "0", " ", [Seg(14, "S", " "), Seg(24, "S", " "), Seg(25, "S", " "), Seg(26, "S", "")])

  const R18 := Shaped(18, "   ", "", "H", "0", " ", [Seg(13, "S", "")])

  const R19 := Shaped(19, "   ", "", "H", "0", " ", [Seg(13, "S", "")])

  const R20 := Shaped(20, "   ", "", "H", "0", " ", [Seg(14, "S", "")])

  const R21 := Shaped(21, "   ", "", "H", "0", " ", [Seg(15, "S", "")])

  const R22 := Shaped(22, "   ", "", "H", "0", " ", [Seg(15, "S", "")])

  const R23 := Shaped(23, "   ", "", "H", "0", " ", [Seg(16, "S", "")])

  const R24 := Shaped(24, "   ", "", "H", "0", " ", [Seg(17, "S", "")])

  const R25 := Shaped(25, "   ", "", "H", "0", " ", [Seg(17, "S", "")])

  const R26 := Shaped(26, "   ", "", "H", "0", " ", [Seg(17, "S", "")])

  const RS: seq<Shaped> := [
    R1, R2, R3, R4, R5, R6, R7, R8, R9,
    R10, R11, R12, R13, R14, R15, R16, R17, R18,
    R19, R20, R21, R22, R23, R24, R25, R26
  ]

  /** Line 3 once the bond to 5 is broken. */
  const A3 := Shaped(3, "  ", "*1", "C", "0", " ", [Seg(2, "S", " "), Seg(8, "S", " "), Seg(9, "S", "")])

  /** Line 5 once the bond to 3 is broken. */
  const A5 := Shaped(5, "  ", "*2", "H", "0", " ", [])

  /** Line 5 once the bond to 13 is formed. */
  const B5 := Shaped(5, "  ", "*2", "H", "0", "  ", [Seg(13, "S", "")])

  /** Line 13 once the bond to 5 is formed. */
  const B13 := Shaped(13, " ", "*3", "C", "1", " ", [Seg(14, "S", " "), Seg(18, "S", " "), Seg(19, "S", " "), Seg(5, "S", "")])

  /** Line 3 after gaining a radical; also line 3 of the product. */
  const C3 := Shaped(3, "  ", "*1", "C", "1", " ", [Seg(2, "S", " "), Seg(8, "S", " "), Seg(9, "S", "")])

  /** Line 13 after losing its radical. */
  const C13 := Shaped(13, " ", "*3", "C", "0", " ", [Seg(14, "S", " "), Seg(18, "S", " "), Seg(19, "S", " "), Seg(5, "S", "")])

  /** Line 5 of the product. */
  const P5 := Shaped(5, "  ", "*2", "H", "0", " ", [Seg(13, "S", "")])

  /** Line 13 of the product. */
  const P13 := Shaped(13, " ", "*3", "C", "0", " ", [Seg(5, "S", " "), Seg(14, "S", " "), Seg(18, "S", " "), Seg(19, "S", "")])

  const S1: seq<Shaped> := RS[2 := A3][4 := A5]
  const S2: seq<Shaped> := S1[4 := B5][12 := B13]
  const S3: seq<Shaped> := S2[2 := C3]
  const S4: seq<Shaped> := S3[12 := C13]

  /** The product's lines. */
  const PS: seq<Shaped> := RS[2 := C3][4 := P5][12 := P13]

  // ---------------------------------------------------------------------------
  // Texts

  lemma ReactantLine1()
    ensures Texts(RS)[0] == ReactantLines[0]
  {
    assert RS[0] == R1;
    TextR1();
  }

  lemma ReactantLine2()
    ensures Texts(RS)[1] == ReactantLines[1]
  {
    assert RS[1] == R2;
    TextR2();
  }

  lemma ReactantLine3()
    ensures Texts(RS)[2] == ReactantLines[2]
  {
    assert RS[2] == R3;
    TextR3();
  }

  lemma ReactantLine4()
    ensures Texts(RS)[3] == ReactantLines[3]
  {
    assert RS[3] == R4;
    TextR4();
  }

  lemma ReactantLine5()
    ensures Texts(RS)[4] == ReactantLines[4]
  {
    assert RS[4] == R5;
    TextR5();
  }

  lemma ReactantLine6()
    ensures Texts(RS)[5] == ReactantLines[5]
  {
    assert RS[5] == R6;
    TextR6();
  }

  lemma ReactantLine7()
    ensures Texts(RS)[6] == ReactantLines[6]
  {
    assert RS[6] == R7;
    TextR7();
  }

  lemma ReactantLine8()
    ensures Texts(RS)[7] == ReactantLines[7]
  {
    assert RS[7] == R8;
    TextR8();
  }

  lemma ReactantLine9()
    ensures Texts(RS)[8] == ReactantLines[8]
  {
    assert RS[8] == R9;
    TextR9();
  }

  lemma ReactantLine10()
    ensures Texts(RS)[9] == ReactantLines[9]
  {
    assert RS[9] == R10;
    TextR10();
  }

  lemma ReactantLine11()
    ensures Texts(RS)[10] == ReactantLines[10]
  {
    assert RS[10] == R11;
    TextR11();
  }

  lemma ReactantLine12()
    ensures Texts(RS)[11] == ReactantLines[11]
  {
    assert RS[11] == R12;
    TextR12();
  }

  lemma ReactantLine13()
    ensures Texts(RS)[12] == ReactantLines[12]
  {
    assert RS[12] == R13;
    TextR13();
  }

  lemma ReactantLine14()
    ensures Texts(RS)[13] == ReactantLines[13]
  {
    assert RS[13] == R14;
    TextR14();
  }

  lemma ReactantLine15()
    ensures Texts(RS)[14] == ReactantLines[14]
  {
    assert RS[14] == R15;
    TextR15();
  }

  lemma ReactantLine16()
    ensures Texts(RS)[15] == ReactantLines[15]
  {
    assert RS[15] == R16;
    TextR16();
  }

  lemma ReactantLine17()
    ensures Texts(RS)[16] == ReactantLines[16]
  {
    assert RS[16] == R17;
    TextR17();
  }

  lemma ReactantLine18()
    ensures Texts(RS)[17] == ReactantLines[17]
  {
    assert RS[17] == R18;
    TextR18();
  }

  lemma ReactantLine19()
    ensures Texts(RS)[18] == ReactantLines[18]
  {
    assert RS[18] == R19;
    TextR19();
  }

  lemma ReactantLine20()
    ensures Texts(RS)[19] == ReactantLines[19]
  {
    assert RS[19] == R20;
    TextR20();
  }

  lemma ReactantLine21()
    ensures Texts(RS)[20] == ReactantLines[20]
  {
    assert RS[20] == R21;
    TextR21();
  }

  lemma ReactantLine22()
    ensures Texts(RS)[21] == ReactantLines[21]
  {
    assert RS[21] == R22;
    TextR22();
  }

  lemma ReactantLine23()
    ensures Texts(RS)[22] == ReactantLines[22]
  {
    assert RS[22] == R23;
    TextR23();
  }

  lemma ReactantLine24()
    ensures Texts(RS)[23] == ReactantLines[23]
  {
    assert RS[23] == R24;
    TextR24();
  }

  lemma ReactantLine25()
    ensures Texts(RS)[24] == ReactantLines[24]
  {
    assert RS[24] == R25;
    TextR25();
  }

  lemma ReactantLine26()
    ensures Texts(RS)[25] == ReactantLines[25]
  {
    assert RS[25] == R26;
    TextR26();
  }

  lemma ReactantLinesEach()
    ensures forall i :: 0 <= i < 26 ==> Texts(RS)[i] == ReactantLines[i]
  {
    forall i | 0 <= i < 26 ensures Texts(RS)[i] == ReactantLines[i] {
      if i == 0 { ReactantLine1(); }
      else if i == 1 { ReactantLine2(); }
      else if i == 2 { ReactantLine3(); }
      else if i == 3 { ReactantLine4(); }
      else if i == 4 { ReactantLine5(); }
      else if i == 5 { ReactantLine6(); }
      else if i == 6 { ReactantLine7(); }
      else if i == 7 { ReactantLine8(); }
      else if i == 8 { ReactantLine9(); }
      else if i == 9 { ReactantLine10(); }
      else if i == 10 { ReactantLine11(); }
      else if i == 11 { ReactantLine12(); }
      else if i == 12 { ReactantLine13(); }
      else if i == 13 { ReactantLine14(); }
      else if i == 14 { ReactantLine15(); }
      else if i == 15 { ReactantLine16(); }
      else if i == 16 { ReactantLine17(); }
      else if i == 17 { ReactantLine18(); }
      else if i == 18 { ReactantLine19(); }
      else if i == 19 { ReactantLine20(); }
      else if i == 20 { ReactantLine21(); }
      else if i == 21 { ReactantLine22(); }
      else if i == 22 { ReactantLine23(); }
      else if i == 23 { ReactantLine24(); }
      else if i == 24 { ReactantLine25(); }
      else if i == 25 { ReactantLine26(); }
    }
  }

  /** The shaped lines `RS` are the reactant's lines. */
  lemma ReactantTexts()
    ensures Texts(RS) == ReactantLines
  {
    ReactantLinesEach();
  }

  lemma ProductLine1()
    ensures Texts(PS)[0] == ProductLines[0]
  {
    assert PS[0] == R1;
    ReactantLine1();
  }

  lemma ProductLine2()
    ensures Texts(PS)[1] == ProductLines[1]
  {
    assert PS[1] == R2;
    ReactantLine2();
  }

  lemma ProductLine3()
    ensures Texts(PS)[2] == ProductLines[2]
  {
    assert PS[2] == C3;
    TextC3();
  }

  lemma ProductLine4()
    ensures Texts(PS)[3] == ProductLines[3]
  {
    assert PS[3] == R4;
    ReactantLine4();
  }

  lemma ProductLine5()
    ensures Texts(PS)[4] == ProductLines[4]
  {
    assert PS[4] == P5;
    TextP5();
  }

  lemma ProductLine6()
    ensures Texts(PS)[5] == ProductLines[5]
  {
    assert PS[5] == R6;
    ReactantLine6();
  }

  lemma ProductLine7()
    ensures Texts(PS)[6] == ProductLines[6]
  {
    assert PS[6] == R7;
    ReactantLine7();
  }

  lemma ProductLine8()
    ensures Texts(PS)[7] == ProductLines[7]
  {
    assert PS[7] == R8;
    ReactantLine8();
  }

  lemma ProductLine9()
    ensures Texts(PS)[8] == ProductLines[8]
  {
    assert PS[8] == R9;
    ReactantLine9();
  }

  lemma ProductLine10()
    ensures Texts(PS)[9] == ProductLines[9]
  {
    assert PS[9] == R10;
    ReactantLine10();
  }

  lemma ProductLine11()
    ensures Texts(PS)[10] == ProductLines[10]
  {
    assert PS[10] == R11;
    ReactantLine11();
  }

  lemma ProductLine12()
    ensures Texts(PS)[11] == ProductLines[11]
  {
    assert PS[11] == R12;
    ReactantLine12();
  }

  lemma ProductLine13()
    ensures Texts(PS)[12] == ProductLines[12]
  {
    assert PS[12] == P13;
    TextP13();
  }

  lemma ProductLine14()
    ensures Texts(PS)[13] == ProductLines[13]
  {
    assert PS[13] == R14;
    ReactantLine14();
  }

  lemma ProductLine15()
    ensures Texts(PS)[14] == ProductLines[14]
  {
    assert PS[14] == R15;
    ReactantLine15();
  }

  lemma ProductLine16()
    ensures Texts(PS)[15] == ProductLines[15]
  {
    assert PS[15] == R16;
    ReactantLine16();
  }

  lemma ProductLine17()
    ensures Texts(PS)[16] == ProductLines[16]
  {
    assert PS[16] == R17;
    ReactantLine17();
  }

  lemma ProductLine18()
    ensures Texts(PS)[17] == ProductLines[17]
  {
    assert PS[17] == R18;
    ReactantLine18();
  }

  lemma ProductLine19()
    ensures Texts(PS)[18] == ProductLines[18]
  {
    assert PS[18] == R19;
    ReactantLine19();
  }

  lemma ProductLine20()
    ensures Texts(PS)[19] == ProductLines[19]
  {
    assert PS[19] == R20;
    ReactantLine20();
  }

  lemma ProductLine21()
    ensures Texts(PS)[20] == ProductLines[20]
  {
    assert PS[20] == R21;
    ReactantLine21();
  }

  lemma ProductLine22()
    ensures Texts(PS)[21] == ProductLines[21]
  {
    assert PS[21] == R22;
    ReactantLine22();
  }

  lemma ProductLine23()
    ensures Texts(PS)[22] == ProductLines[22]
  {
    assert PS[22] == R23;
    ReactantLine23();
  }

  lemma ProductLine24()
    ensures Texts(PS)[23] == ProductLines[23]
  {
    assert PS[23] == R24;
    ReactantLine24();
  }

  lemma ProductLine25()
    ensures Texts(PS)[24] == ProductLines[24]
  {
    assert PS[24] == R25;
    ReactantLine25();
  }

  lemma ProductLine26()
    ensures Texts(PS)[25] == ProductLines[25]
  {
    assert PS[25] == R26;
    ReactantLine26();
  }

  lemma ProductLinesEach()
    ensures forall i :: 0 <= i < 26 ==> Texts(PS)[i] == ProductLines[i]
  {
    forall i | 0 <= i < 26 ensures Texts(PS)[i] == ProductLines[i] {
      if i == 0 { ProductLine1(); }
      else if i == 1 { ProductLine2(); }
      else if i == 2 { ProductLine3(); }
      else if i == 3 { ProductLine4(); }
      else if i == 4 { ProductLine5(); }
      else if i == 5 { ProductLine6(); }
      else if i == 6 { ProductLine7(); }
      else if i == 7 { ProductLine8(); }
      else if i == 8 { ProductLine9(); }
      else if i == 9 { ProductLine10(); }
      else if i == 10 { ProductLine11(); }
      else if i == 11 { ProductLine12(); }
      else if i == 12 { ProductLine13(); }
      else if i == 13 { ProductLine14(); }
      else if i == 14 { ProductLine15(); }
      else if i == 15 { ProductLine16(); }
      else if i == 16 { ProductLine17(); }
      else if i == 17 { ProductLine18(); }
      else if i == 18 { ProductLine19(); }
      else if i == 19 { ProductLine20(); }
      else if i == 20 { ProductLine21(); }
      else if i == 21 { ProductLine22(); }
      else if i == 22 { ProductLine23(); }
      else if i == 23 { ProductLine24(); }
      else if i == 24 { ProductLine25(); }
      else if i == 25 { ProductLine26(); }
    }
  }

  /** The shaped lines `PS` are the product's lines. */
  lemma ProductTexts()
    ensures Texts(PS) == ProductLines
  {
    ProductLinesEach();
  }

  lemma TextR1()
    ensures ShapedText(R1) == "1     C 0 {2,D} {6,S} {7,S}"
  {
    Segs3(Seg(2, "D", " "), Seg(6, "S", " "), Seg(7, "S", ""));
    Names();
    FlatR1();
  }

  lemma FlatR1()
    ensures "1" + "    " + "" + " " + "C" + " " + "0" + " " + ("{" + ("2" + "," + "D" + "}" + " ") + ("{" + ("6" + "," + "S" + "}" + " ") + ("{" + ("7" + "," + "S" + "}" + ""))))
         == "1     C 0 {2,D} {6,S} {7,S}"
  {
    FlatHeadR1();
    FlatSegsR1();
  }

  lemma FlatHeadR1()
    ensures "1" + "    " + "" + " " + "C" + " " + "0" + " " == "1     C 0 "
  {
  }

  lemma FlatSegsR1()
    ensures "{" + ("2" + "," + "D" + "}" + " ") + ("{" + ("6" + "," + "S" + "}" + " ") + ("{" + ("7" + "," + "S" + "}" + ""))) == "{2,D} {6,S} {7,S}"
  {
  }

  lemma TextR2()
    ensures ShapedText(R2) == "2     C 0 {1,D} {3,S} {4,S}"
  {
    Segs3(Seg(1, "D", " "), Seg(3, "S", " "), Seg(4, "S", ""));
    Names();
    FlatR2();
  }

  lemma FlatR2()
    ensures "2" + "    " + "" + " " + "C" + " " + "0" + " " + ("{" + ("1" + "," + "D" + "}" + " ") + ("{" + ("3" + "," + "S" + "}" + " ") + ("{" + ("4" + "," + "S" + "}" + ""))))
         == "2     C 0 {1,D} {3,S} {4,S}"
  {
    FlatHeadR2();
    FlatSegsR2();
  }

  lemma FlatHeadR2()
    ensures "2" + "    " + "" + " " + "C" + " " + "0" + " " == "2     C 0 "
  {
  }

  lemma FlatSegsR2()
    ensures "{" + ("1" + "," + "D" + "}" + " ") + ("{" + ("3" + "," + "S" + "}" + " ") + ("{" + ("4" + "," + "S" + "}" + ""))) == "{1,D} {3,S} {4,S}"
  {
  }

  lemma TextR3()
    ensures ShapedText(R3) == "3  *1 C 0 {2,S} {5,S} {8,S} {9,S}"
  {
    Segs4(Seg(2, "S", " "), Seg(5, "S", " "), Seg(8, "S", " "), Seg(9, "S", ""));
    Names();
    FlatR3();
  }

  lemma FlatR3()
    ensures "3" + "  " + "*1" + " " + "C" + " " + "0" + " " + ("{" + ("2" + "," + "S" + "}" + " ") + ("{" + ("5" + "," + "S" + "}" + " ") + ("{" + ("8" + "," + "S" + "}" + " ") + ("{" + ("9" + "," + "S" + "}" + "")))))
         == "3  *1 C 0 {2,S} {5,S} {8,S} {9,S}"
  {
    FlatHeadR3();
    FlatSegsR3();
  }

  lemma FlatHeadR3()
    ensures "3" + "  " + "*1" + " " + "C" + " " + "0" + " " == "3  *1 C 0 "
  {
  }

  lemma FlatSegsR3()
    ensures "{" + ("2" + "," + "S" + "}" + " ") + ("{" + ("5" + "," + "S" + "}" + " ") + ("{" + ("8" + "," + "S" + "}" + " ") + ("{" + ("9" + "," + "S" + "}" + "")))) == "{2,S} {5,S} {8,S} {9,S}"
  {
  }

  lemma TextR4()
    ensures ShapedText(R4) == "4     C 0 {2,S} {10,S} {11,S} {12,S}"
  {
    Segs4(Seg(2, "S", " "), Seg(10, "S", " "), Seg(11, "S", " "), Seg(12, "S", ""));
    Names();
    FlatR4();
  }

  lemma FlatR4()
    ensures "4" + "    " + "" + " " + "C" + " " + "0" + " " + ("{" + ("2" + "," + "S" + "}" + " ") + ("{" + ("10" + "," + "S" + "}" + " ") + ("{" + ("11" + "," + "S" + "}" + " ") + ("{" + ("12" + "," + "S" + "}" + "")))))
         == "4     C 0 {2,S} {10,S} {11,S} {12,S}"
  {
    FlatHeadR4();
    FlatSegsR4();
  }

  lemma FlatHeadR4()
    ensures "4" + "    " + "" + " " + "C" + " " + "0" + " " == "4     C 0 "
  {
  }

  lemma FlatSegsR4()
    ensures "{" + ("2" + "," + "S" + "}" + " ") + ("{" + ("10" + "," + "S" + "}" + " ") + ("{" + ("11" + "," + "S" + "}" + " ") + ("{" + ("12" + "," + "S" + "}" + "")))) == "{2,S} {10,S} {11,S} {12,S}"
  {
  }

  lemma TextR5()
    ensures ShapedText(R5) == "5  *2 H 0 {3,S}"
  {
    Segs1(Seg(3, "S", ""));
    Names();
    FlatR5();
  }

  lemma FlatR5()
    ensures "5" + "  " + "*2" + " " + "H" + " " + "0" + " " + ("{" + ("3" + "," + "S" + "}" + ""))
         == "5  *2 H 0 {3,S}"
  {
    FlatHeadR5();
    FlatSegsR5();
  }

  lemma FlatHeadR5()
    ensures "5" + "  " + "*2" + " " + "H" + " " + "0" + " " == "5  *2 H 0 "
  {
  }

  lemma FlatSegsR5()
    ensures "{" + ("3" + "," + "S" + "}" + "") == "{3,S}"
  {
  }

  lemma TextR6()
    ensures ShapedText(R6) == "6     H 0 {1,S}"
  {
    Segs1(Seg(1, "S", ""));
    Names();
    FlatR6();
  }

  lemma FlatR6()
    ensures "6" + "    " + "" + " " + "H" + " " + "0" + " " + ("{" + ("1" + "," + "S" + "}" + ""))
         == "6     H 0 {1,S}"
  {
    FlatHeadR6();
    FlatSegsR6();
  }

  lemma FlatHeadR6()
    ensures "6" + "    " + "" + " " + "H" + " " + "0" + " " == "6     H 0 "
  {
  }

  lemma FlatSegsR6()
    ensures "{" + ("1" + "," + "S" + "}" + "") == "{1,S}"
  {
  }

  lemma TextR7()
    ensures ShapedText(R7) == "7     H 0 {1,S}"
  {
    Segs1(Seg(1, "S", ""));
    Names();
    FlatR7();
  }

  lemma FlatR7()
    ensures "7" + "    " + "" + " " + "H" + " " + "0" + " " + ("{" + ("1" + "," + "S" + "}" + ""))
         == "7     H 0 {1,S}"
  {
    FlatHeadR7();
    FlatSegsR7();
  }

  lemma FlatHeadR7()
    ensures "7" + "    " + "" + " " + "H" + " " + "0" + " " == "7     H 0 "
  {
  }

  lemma FlatSegsR7()
    ensures "{" + ("1" + "," + "S" + "}" + "") == "{1,S}"
  {
  }

  lemma TextR8()
    ensures ShapedText(R8) == "8     H 0 {3,S}"
  {
    Segs1(Seg(3, "S", ""));
    Names();
    FlatR8();
  }

  lemma FlatR8()
    ensures "8" + "    " + "" + " " + "H" + " " + "0" + " " + ("{" + ("3" + "," + "S" + "}" + ""))
         == "8     H 0 {3,S}"
  {
    FlatHeadR8();
    FlatSegsR8();
  }

  lemma FlatHeadR8()
    ensures "8" + "    " + "" + " " + "H" + " " + "0" + " " == "8     H 0 "
  {
  }

  lemma FlatSegsR8()
    ensures "{" + ("3" + "," + "S" + "}" + "") == "{3,S}"
  {
  }

  lemma TextR9()
    ensures ShapedText(R9) == "9     H 0 {3,S}"
  {
    Segs1(Seg(3, "S", ""));
    Names();
    FlatR9();
  }

  lemma FlatR9()
    ensures "9" + "    " + "" + " " + "H" + " " + "0" + " " + ("{" + ("3" + "," + "S" + "}" + ""))
         == "9     H 0 {3,S}"
  {
    FlatHeadR9();
    FlatSegsR9();
  }

  lemma FlatHeadR9()
    ensures "9" + "    " + "" + " " + "H" + " " + "0" + " " == "9     H 0 "
  {
  }

  lemma FlatSegsR9()
    ensures "{" + ("3" + "," + "S" + "}" + "") == "{3,S}"
  {
  }

  lemma TextR10()
    ensures ShapedText(R10) == "10    H 0 {4,S}"
  {
    Segs1(Seg(4, "S", ""));
    Names();
    FlatR10();
  }

  lemma FlatR10()
    ensures "10" + "   " + "" + " " + "H" + " " + "0" + " " + ("{" + ("4" + "," + "S" + "}" + ""))
         == "10    H 0 {4,S}"
  {
    FlatHeadR10();
    FlatSegsR10();
  }

  lemma FlatHeadR10()
    ensures "10" + "   " + "" + " " + "H" + " " + "0" + " " == "10    H 0 "
  {
  }

  lemma FlatSegsR10()
    ensures "{" + ("4" + "," + "S" + "}" + "") == "{4,S}"
  {
  }

  lemma TextR11()
    ensures ShapedText(R11) == "11    H 0 {4,S}"
  {
    Segs1(Seg(4, "S", ""));
    Names();
    FlatR11();
  }

  lemma FlatR11()
    ensures "11" + "   " + "" + " " + "H" + " " + "0" + " " + ("{" + ("4" + "," + "S" + "}" + ""))
         == "11    H 0 {4,S}"
  {
    FlatHeadR11();
    FlatSegsR11();
  }

  lemma FlatHeadR11()
    ensures "11" + "   " + "" + " " + "H" + " " + "0" + " " == "11    H 0 "
  {
  }

  lemma FlatSegsR11()
    ensures "{" + ("4" + "," + "S" + "}" + "") == "{4,S}"
  {
  }

  lemma TextR12()
    ensures ShapedText(R12) == "12    H 0 {4,S}"
  {
    Segs1(Seg(4, "S", ""));
    Names();
    FlatR12();
  }

  lemma FlatR12()
    ensures "12" + "   " + "" + " " + "H" + " " + "0" + " " + ("{" + ("4" + "," + "S" + "}" + ""))
         == "12    H 0 {4,S}"
  {
    FlatHeadR12();
    FlatSegsR12();
  }

  lemma FlatHeadR12()
    ensures "12" + "   " + "" + " " + "H" + " " + "0" + " " == "12    H 0 "
  {
  }

  lemma FlatSegsR12()
    ensures "{" + ("4" + "," + "S" + "}" + "") == "{4,S}"
  {
  }

  lemma TextR13()
    ensures ShapedText(R13) == "13 *3 C 1 {14,S} {18,S} {19,S}"
  {
    Segs3(Seg(14, "S", " "), Seg(18, "S", " "), Seg(19, "S", ""));
    Names();
    FlatR13();
  }

  lemma FlatR13()
    ensures "13" + " " + "*3" + " " + "C" + " " + "1" + " " + ("{" + ("14" + "," + "S" + "}" + " ") + ("{" + ("18" + "," + "S" + "}" + " ") + ("{" + ("19" + "," + "S" + "}" + ""))))
         == "13 *3 C 1 {14,S} {18,S} {19,S}"
  {
    FlatHeadR13();
    FlatSegsR13();
  }

  lemma FlatHeadR13()
    ensures "13" + " " + "*3" + " " + "C" + " " + "1" + " " == "13 *3 C 1 "
  {
  }

  lemma FlatSegsR13()
    ensures "{" + ("14" + "," + "S" + "}" + " ") + ("{" + ("18" + "," + "S" + "}" + " ") + ("{" + ("19" + "," + "S" + "}" + ""))) == "{14,S} {18,S} {19,S}"
  {
  }

  lemma TextR14()
    ensures ShapedText(R14) == "14    C 0 {13,S} {15,S} {17,S} {20,S}"
  {
    Segs4(Seg(13, "S", " "), Seg(15, "S", " "), Seg(17, "S", " "), Seg(20, "S", ""));
    Names();
    FlatR14();
  }

  lemma FlatR14()
    ensures "14" + "   " + "" + " " + "C" + " " + "0" + " " + ("{" + ("13" + "," + "S" + "}" + " ") + ("{" + ("15" + "," + "S" + "}" + " ") + ("{" + ("17" + "," + "S" + "}" + " ") + ("{" + ("20" + "," + "S" + "}" + "")))))
         == "14    C 0 {13,S} {15,S} {17,S} {20,S}"
  {
    FlatHeadR14();
    FlatSegsR14();
  }

  lemma FlatHeadR14()
    ensures "14" + "   " + "" + " " + "C" + " " + "0" + " " == "14    C 0 "
  {
  }

  lemma FlatSegsR14()
    ensures "{" + ("13" + "," + "S" + "}" + " ") + ("{" + ("15" + "," + "S" + "}" + " ") + ("{" + ("17" + "," + "S" + "}" + " ") + ("{" + ("20" + "," + "S" + "}" + "")))) == "{13,S} {15,S} {17,S} {20,S}"
  {
  }

  lemma TextR15()
    ensures ShapedText(R15) == "15    C 0 {14,S} {16,S} {21,S} {22,S}"
  {
    Segs4(Seg(14, "S", " "), Seg(16, "S", " "), Seg(21, "S", " "), Seg(22, "S", ""));
    Names();
    FlatR15();
  }

  lemma FlatR15()
    ensures "15" + "   " + "" + " " + "C" + " " + "0" + " " + ("{" + ("14" + "," + "S" + "}" + " ") + ("{" + ("16" + "," + "S" + "}" + " ") + ("{" + ("21" + "," + "S" + "}" + " ") + ("{" + ("22" + "," + "S" + "}" + "")))))
         == "15    C 0 {14,S} {16,S} {21,S} {22,S}"
  {
    FlatHeadR15();
    FlatSegsR15();
  }

  lemma FlatHeadR15()
    ensures "15" + "   " + "" + " " + "C" + " " + "0" + " " == "15    C 0 "
  {
  }

  lemma FlatSegsR15()
    ensures "{" + ("14" + "," + "S" + "}" + " ") + ("{" + ("16" + "," + "S" + "}" + " ") + ("{" + ("21" + "," + "S" + "}" + " ") + ("{" + ("22" + "," + "S" + "}" + "")))) == "{14,S} {16,S} {21,S} {22,S}"
  {
  }

  lemma TextR16()
    ensures ShapedText(R16) == "16    O 0 {15,S} {23,S}"
  {
    Segs2(Seg(15, "S", " "), Seg(23, "S", ""));
    Names();
    FlatR16();
  }

  lemma FlatR16()
    ensures "16" + "   " + "" + " " + "O" + " " + "0" + " " + ("{" + ("15" + "," + "S" + "}" + " ") + ("{" + ("23" + "," + "S" + "}" + "")))
         == "16    O 0 {15,S} {23,S}"
  {
    FlatHeadR16();
    FlatSegsR16();
  }

  lemma FlatHeadR16()
    ensures "16" + "   " + "" + " " + "O" + " " + "0" + " " == "16    O 0 "
  {
  }

  lemma FlatSegsR16()
    ensures "{" + ("15" + "," + "S" + "}" + " ") + ("{" + ("23" + "," + "S" + "}" + "")) == "{15,S} {23,S}"
  {
  }

  lemma TextR17()
    ensures ShapedText(R17) == "17    C 0 {14,S} {24,S} {25,S} {26,S}"
  {
    Segs4(Seg(14, "S", " "), Seg(24, "S", " "), Seg(25, "S", " "), Seg(26, "S", ""));
    Names();
    FlatR17();
  }

  lemma FlatR17()
    ensures "17" + "   " + "" + " " + "C" + " " + "0" + " " + ("{" + ("14" + "," + "S" + "}" + " ") + ("{" + ("24" + "," + "S" + "}" + " ") + ("{" + ("25" + "," + "S" + "}" + " ") + ("{" + ("26" + "," + "S" + "}" + "")))))
         == "17    C 0 {14,S} {24,S} {25,S} {26,S}"
  {
    FlatHeadR17();
    FlatSegsR17();
  }

  lemma FlatHeadR17()
    ensures "17" + "   " + "" + " " + "C" + " " + "0" + " " == "17    C 0 "
  {
  }

  lemma FlatSegsR17()
    ensures "{" + ("14" + "," + "S" + "}" + " ") + ("{" + ("24" + "," + "S" + "}" + " ") + ("{" + ("25" + "," + "S" + "}" + " ") + ("{" + ("26" + "," + "S" + "}" + "")))) == "{14,S} {24,S} {25,S} {26,S}"
  {
  }

  lemma TextR18()
    ensures ShapedText(R18) == "18    H 0 {13,S}"
  {
    Segs1(Seg(13, "S", ""));
    Names();
    FlatR18();
  }

  lemma FlatR18()
    ensures "18" + "   " + "" + " " + "H" + " " + "0" + " " + ("{" + ("13" + "," + "S" + "}" + ""))
         == "18    H 0 {13,S}"
  {
    FlatHeadR18();
    FlatSegsR18();
  }

  lemma FlatHeadR18()
    ensures "18" + "   " + "" + " " + "H" + " " + "0" + " " == "18    H 0 "
  {
  }

  lemma FlatSegsR18()
    ensures "{" + ("13" + "," + "S" + "}" + "") == "{13,S}"
  {
  }

  lemma TextR19()
    ensures ShapedText(R19) == "19    H 0 {13,S}"
  {
    Segs1(Seg(13, "S", ""));
    Names();
    FlatR19();
  }

  lemma FlatR19()
    ensures "19" + "   " + "" + " " + "H" + " " + "0" + " " + ("{" + ("13" + "," + "S" + "}" + ""))
         == "19    H 0 {13,S}"
  {
    FlatHeadR19();
    FlatSegsR19();
  }

  lemma FlatHeadR19()
    ensures "19" + "   " + "" + " " + "H" + " " + "0" + " " == "19    H 0 "
  {
  }

  lemma FlatSegsR19()
    ensures "{" + ("13" + "," + "S" + "}" + "") == "{13,S}"
  {
  }

  lemma TextR20()
    ensures ShapedText(R20) == "20    H 0 {14,S}"
  {
    Segs1(Seg(14, "S", ""));
    Names();
    FlatR20();
  }

  lemma FlatR20()
    ensures "20" + "   " + "" + " " + "H" + " " + "0" + " " + ("{" + ("14" + "," + "S" + "}" + ""))
         == "20    H 0 {14,S}"
  {
    FlatHeadR20();
    FlatSegsR20();
  }

  lemma FlatHeadR20()
    ensures "20" + "   " + "" + " " + "H" + " " + "0" + " " == "20    H 0 "
  {
  }

  lemma FlatSegsR20()
    ensures "{" + ("14" + "," + "S" + "}" + "") == "{14,S}"
  {
  }

  lemma TextR21()
    ensures ShapedText(R21) == "21    H 0 {15,S}"
  {
    Segs1(Seg(15, "S", ""));
    Names();
    FlatR21();
  }

  lemma FlatR21()
    ensures "21" + "   " + "" + " " + "H" + " " + "0" + " " + ("{" + ("15" + "," + "S" + "}" + ""))
         == "21    H 0 {15,S}"
  {
    FlatHeadR21();
    FlatSegsR21();
  }

  lemma FlatHeadR21()
    ensures "21" + "   " + "" + " " + "H" + " " + "0" + " " == "21    H 0 "
  {
  }

  lemma FlatSegsR21()
    ensures "{" + ("15" + "," + "S" + "}" + "") == "{15,S}"
  {
  }

  lemma TextR22()
    ensures ShapedText(R22) == "22    H 0 {15,S}"
  {
    Segs1(Seg(15, "S", ""));
    Names();
    FlatR22();
  }

  lemma FlatR22()
    ensures "22" + "   " + "" + " " + "H" + " " + "0" + " " + ("{" + ("15" + "," + "S" + "}" + ""))
         == "22    H 0 {15,S}"
  {
    FlatHeadR22();
    FlatSegsR22();
  }

  lemma FlatHeadR22()
    ensures "22" + "   " + "" + " " + "H" + " " + "0" + " " == "22    H 0 "
  {
  }

  lemma FlatSegsR22()
    ensures "{" + ("15" + "," + "S" + "}" + "") == "{15,S}"
  {
  }

  lemma TextR23()
    ensures ShapedText(R23) == "23    H 0 {16,S}"
  {
    Segs1(Seg(16, "S", ""));
    Names();
    FlatR23();
  }

  lemma FlatR23()
    ensures "23" + "   " + "" + " " + "H" + " " + "0" + " " + ("{" + ("16" + "," + "S" + "}" + ""))
         == "23    H 0 {16,S}"
  {
    FlatHeadR23();
    FlatSegsR23();
  }

  lemma FlatHeadR23()
    ensures "23" + "   " + "" + " " + "H" + " " + "0" + " " == "23    H 0 "
  {
  }

  lemma FlatSegsR23()
    ensures "{" + ("16" + "," + "S" + "}" + "") == "{16,S}"
  {
  }

  lemma TextR24()
    ensures ShapedText(R24) == "24    H 0 {17,S}"
  {
    Segs1(Seg(17, "S", ""));
    Names();
    FlatR24();
  }

  lemma FlatR24()
    ensures "24" + "   " + "" + " " + "H" + " " + "0" + " " + ("{" + ("17" + "," + "S" + "}" + ""))
         == "24    H 0 {17,S}"
  {
    FlatHeadR24();
    FlatSegsR24();
  }

  lemma FlatHeadR24()
    ensures "24" + "   " + "" + " " + "H" + " " + "0" + " " == "24    H 0 "
  {
  }

  lemma FlatSegsR24()
    ensures "{" + ("17" + "," + "S" + "}" + "") == "{17,S}"
  {
  }

  lemma TextR25()
    ensures ShapedText(R25) == "25    H 0 {17,S}"
  {
    Segs1(Seg(17, "S", ""));
    Names();
    FlatR25();
  }

  lemma FlatR25()
    ensures "25" + "   " + "" + " " + "H" + " " + "0" + " " + ("{" + ("17" + "," + "S" + "}" + ""))
         == "25    H 0 {17,S}"
  {
    FlatHeadR25();
    FlatSegsR25();
  }

  lemma FlatHeadR25()
    ensures "25" + "   " + "" + " " + "H" + " " + "0" + " " == "25    H 0 "
  {
  }

  lemma FlatSegsR25()
    ensures "{" + ("17" + "," + "S" + "}" + "") == "{17,S}"
  {
  }

  lemma TextR26()
    ensures ShapedText(R26) == "26    H 0 {17,S}"
  {
    Segs1(Seg(17, "S", ""));
    Names();
    FlatR26();
  }

  lemma FlatR26()
    ensures "26" + "   " + "" + " " + "H" + " " + "0" + " " + ("{" + ("17" + "," + "S" + "}" + ""))
         == "26    H 0 {17,S}"
  {
    FlatHeadR26();
    FlatSegsR26();
  }

  lemma FlatHeadR26()
    ensures "26" + "   " + "" + " " + "H" + " " + "0" + " " == "26    H 0 "
  {
  }

  lemma FlatSegsR26()
    ensures "{" + ("17" + "," + "S" + "}" + "") == "{17,S}"
  {
  }

  lemma TextB5()
    ensures ShapedText(B5) == "5  *2 H 0  {13,S}"
  {
    Segs1(Seg(13, "S", ""));
    Names();
    FlatB5();
  }

  lemma FlatB5()
    ensures "5" + "  " + "*2" + " " + "H" + " " + "0" + "  " + ("{" + ("13" + "," + "S" + "}" + ""))
         == "5  *2 H 0  {13,S}"
  {
    FlatHeadB5();
    FlatSegsB5();
  }

  lemma FlatHeadB5()
    ensures "5" + "  " + "*2" + " " + "H" + " " + "0" + "  " == "5  *2 H 0  "
  {
  }

  lemma FlatSegsB5()
    ensures "{" + ("13" + "," + "S" + "}" + "") == "{13,S}"
  {
  }

  lemma TextC3()
    ensures ShapedText(C3) == "3  *1 C 1 {2,S} {8,S} {9,S}"
  {
    Segs3(Seg(2, "S", " "), Seg(8, "S", " "), Seg(9, "S", ""));
    Names();
    FlatC3();
  }

  lemma FlatC3()
    ensures "3" + "  " + "*1" + " " + "C" + " " + "1" + " " + ("{" + ("2" + "," + "S" + "}" + " ") + ("{" + ("8" + "," + "S" + "}" + " ") + ("{" + ("9" + "," + "S" + "}" + ""))))
         == "3  *1 C 1 {2,S} {8,S} {9,S}"
  {
    FlatHeadC3();
    FlatSegsC3();
  }

  lemma FlatHeadC3()
    ensures "3" + "  " + "*1" + " " + "C" + " " + "1" + " " == "3  *1 C 1 "
  {
  }

  lemma FlatSegsC3()
    ensures "{" + ("2" + "," + "S" + "}" + " ") + ("{" + ("8" + "," + "S" + "}" + " ") + ("{" + ("9" + "," + "S" + "}" + ""))) == "{2,S} {8,S} {9,S}"
  {
  }

  lemma TextC13()
    ensures ShapedText(C13) == "13 *3 C 0 {14,S} {18,S} {19,S} {5,S}"
  {
    Segs4(Seg(14, "S", " "), Seg(18, "S", " "), Seg(19, "S", " "), Seg(5, "S", ""));
    Names();
    FlatC13();
  }

  lemma FlatC13()
    ensures "13" + " " + "*3" + " " + "C" + " " + "0" + " " + ("{" + ("14" + "," + "S" + "}" + " ") + ("{" + ("18" + "," + "S" + "}" + " ") + ("{" + ("19" + "," + "S" + "}" + " ") + ("{" + ("5" + "," + "S" + "}" + "")))))
         == "13 *3 C 0 {14,S} {18,S} {19,S} {5,S}"
  {
    FlatHeadC13();
    FlatSegsC13();
  }

  lemma FlatHeadC13()
    ensures "13" + " " + "*3" + " " + "C" + " " + "0" + " " == "13 *3 C 0 "
  {
  }

  lemma FlatSegsC13()
    ensures "{" + ("14" + "," + "S" + "}" + " ") + ("{" + ("18" + "," + "S" + "}" + " ") + ("{" + ("19" + "," + "S" + "}" + " ") + ("{" + ("5" + "," + "S" + "}" + "")))) == "{14,S} {18,S} {19,S} {5,S}"
  {
  }

  lemma TextP5()
    ensures ShapedText(P5) == "5  *2 H 0 {13,S}"
  {
    Segs1(Seg(13, "S", ""));
    Names();
    FlatP5();
  }

  lemma FlatP5()
    ensures "5" + "  " + "*2" + " " + "H" + " " + "0" + " " + ("{" + ("13" + "," + "S" + "}" + ""))
         == "5  *2 H 0 {13,S}"
  {
    FlatHeadP5();
    FlatSegsP5();
  }

  lemma FlatHeadP5()
    ensures "5" + "  " + "*2" + " " + "H" + " " + "0" + " " == "5  *2 H 0 "
  {
  }

  lemma FlatSegsP5()
    ensures "{" + ("13" + "," + "S" + "}" + "") == "{13,S}"
  {
  }

  lemma TextP13()
    ensures ShapedText(P13) == "13 *3 C 0 {5,S} {14,S} {18,S} {19,S}"
  {
    Segs4(Seg(5, "S", " "), Seg(14, "S", " "), Seg(18, "S", " "), Seg(19, "S", ""));
    Names();
    FlatP13();
  }

  lemma FlatP13()
    ensures "13" + " " + "*3" + " " + "C" + " " + "0" + " " + ("{" + ("5" + "," + "S" + "}" + " ") + ("{" + ("14" + "," + "S" + "}" + " ") + ("{" + ("18" + "," + "S" + "}" + " ") + ("{" + ("19" + "," + "S" + "}" + "")))))
         == "13 *3 C 0 {5,S} {14,S} {18,S} {19,S}"
  {
    FlatHeadP13();
    FlatSegsP13();
  }

  lemma FlatHeadP13()
    ensures "13" + " " + "*3" + " " + "C" + " " + "0" + " " == "13 *3 C 0 "
  {
  }

  lemma FlatSegsP13()
    ensures "{" + ("5" + "," + "S" + "}" + " ") + ("{" + ("14" + "," + "S" + "}" + " ") + ("{" + ("18" + "," + "S" + "}" + " ") + ("{" + ("19" + "," + "S" + "}" + "")))) == "{5,S} {14,S} {18,S} {19,S}"
  {
  }

  // ---------------------------------------------------------------------------
  // Shapes

  lemma ReactantWell1()
    ensures forall i :: 0 <= i < 7 ==> WellShaped(RS[i])
  {
    forall i | 0 <= i < 7 ensures WellShaped(RS[i]) {
      if i == 0 { assert RS[0] == R1; WellR1(); }
      else if i == 1 { assert RS[1] == R2; WellR2(); }
      else if i == 2 { assert RS[2] == R3; WellR3(); }
      else if i == 3 { assert RS[3] == R4; WellR4(); }
      else if i == 4 { assert RS[4] == R5; WellR5(); }
      else if i == 5 { assert RS[5] == R6; WellR6(); }
      else if i == 6 { assert RS[6] == R7; WellR7(); }
    }
  }

  lemma ReactantTidy1()
    ensures forall i :: 0 <= i < 7 ==> Tidy(RS[i], 3)
  {
    forall i | 0 <= i < 7 ensures Tidy(RS[i], 3) {
      if i == 0 { assert RS[0] == R1; TidyR1(); }
      else if i == 1 { assert RS[1] == R2; TidyR2(); }
      else if i == 2 { assert RS[2] == R3; TidyR3(); }
      else if i == 3 { assert RS[3] == R4; TidyR4(); }
      else if i == 4 { assert RS[4] == R5; TidyR5(); }
      else if i == 5 { assert RS[5] == R6; TidyR6(); }
      else if i == 6 { assert RS[6] == R7; TidyR7(); }
    }
  }

  lemma ReactantWell2()
    ensures forall i :: 7 <= i < 14 ==> WellShaped(RS[i])
  {
    forall i | 7 <= i < 14 ensures WellShaped(RS[i]) {
      if i == 7 { assert RS[7] == R8; WellR8(); }
      else if i == 8 { assert RS[8] == R9; WellR9(); }
      else if i == 9 { assert RS[9] == R10; WellR10(); }
      else if i == 10 { assert RS[10] == R11; WellR11(); }
      else if i == 11 { assert RS[11] == R12; WellR12(); }
      else if i == 12 { assert RS[12] == R13; WellR13(); }
      else if i == 13 { assert RS[13] == R14; WellR14(); }
    }
  }

  lemma ReactantTidy2()
    ensures forall i :: 7 <= i < 14 ==> Tidy(RS[i], 3)
  {
    forall i | 7 <= i < 14 ensures Tidy(RS[i], 3) {
      if i == 7 { assert RS[7] == R8; TidyR8(); }
      else if i == 8 { assert RS[8] == R9; TidyR9(); }
      else if i == 9 { assert RS[9] == R10; TidyR10(); }
      else if i == 10 { assert RS[10] == R11; TidyR11(); }
      else if i == 11 { assert RS[11] == R12; TidyR12(); }
      else if i == 12 { assert RS[12] == R13; TidyR13(); }
      else if i == 13 { assert RS[13] == R14; TidyR14(); }
    }
  }

  lemma ReactantWell3()
    ensures forall i :: 14 <= i < 21 ==> WellShaped(RS[i])
  {
    forall i | 14 <= i < 21 ensures WellShaped(RS[i]) {
      if i == 14 { assert RS[14] == R15; WellR15(); }
      else if i == 15 { assert RS[15] == R16; WellR16(); }
      else if i == 16 { assert RS[16] == R17; WellR17(); }
      else if i == 17 { assert RS[17] == R18; WellR18(); }
      else if i == 18 { assert RS[18] == R19; WellR19(); }
      else if i == 19 { assert RS[19] == R20; WellR20(); }
      else if i == 20 { assert RS[20] == R21; WellR21(); }
    }
  }

  lemma ReactantTidy3()
    ensures forall i :: 14 <= i < 21 ==> Tidy(RS[i], 3)
  {
    forall i | 14 <= i < 21 ensures Tidy(RS[i], 3) {
      if i == 14 { assert RS[14] == R15; TidyR15(); }
      else if i == 15 { assert RS[15] == R16; TidyR16(); }
      else if i == 16 { assert RS[16] == R17; TidyR17(); }
      else if i == 17 { assert RS[17] == R18; TidyR18(); }
      else if i == 18 { assert RS[18] == R19; TidyR19(); }
      else if i == 19 { assert RS[19] == R20; TidyR20(); }
      else if i == 20 { assert RS[20] == R21; TidyR21(); }
    }
  }

  lemma ReactantWell4()
    ensures forall i :: 21 <= i < 26 ==> WellShaped(RS[i])
  {
    forall i | 21 <= i < 26 ensures WellShaped(RS[i]) {
      if i == 21 { assert RS[21] == R22; WellR22(); }
      else if i == 22 { assert RS[22] == R23; WellR23(); }
      else if i == 23 { assert RS[23] == R24; WellR24(); }
      else if i == 24 { assert RS[24] == R25; WellR25(); }
      else if i == 25 { assert RS[25] == R26; WellR26(); }
    }
  }

  lemma ReactantTidy4()
    ensures forall i :: 21 <= i < 26 ==> Tidy(RS[i], 3)
  {
    forall i | 21 <= i < 26 ensures Tidy(RS[i], 3) {
      if i == 21 { assert RS[21] == R22; TidyR22(); }
      else if i == 22 { assert RS[22] == R23; TidyR23(); }
      else if i == 23 { assert RS[23] == R24; TidyR24(); }
      else if i == 24 { assert RS[24] == R25; TidyR25(); }
      else if i == 25 { assert RS[25] == R26; TidyR26(); }
    }
  }

  lemma WellR1()
    ensures WellShaped(R1)
  {
  }

  lemma TidyR1()
    ensures Tidy(R1, 3)
  {
    NameLength(R1.index);
  }

  lemma WellR2()
    ensures WellShaped(R2)
  {
  }

  lemma TidyR2()
    ensures Tidy(R2, 3)
  {
    NameLength(R2.index);
  }

  lemma WellR3()
    ensures WellShaped(R3)
  {
  }

  lemma TidyR3()
    ensures Tidy(R3, 3)
  {
    NameLength(R3.index);
  }

  lemma WellR4()
    ensures WellShaped(R4)
  {
  }

  lemma TidyR4()
    ensures Tidy(R4, 3)
  {
    NameLength(R4.index);
  }

  lemma WellR5()
    ensures WellShaped(R5)
  {
  }

  lemma TidyR5()
    ensures Tidy(R5, 3)
  {
    NameLength(R5.index);
  }

  lemma WellR6()
    ensures WellShaped(R6)
  {
  }

  lemma TidyR6()
    ensures Tidy(R6, 3)
  {
    NameLength(R6.index);
  }

  lemma WellR7()
    ensures WellShaped(R7)
  {
  }

  lemma TidyR7()
    ensures Tidy(R7, 3)
  {
    NameLength(R7.index);
  }

  lemma WellR8()
    ensures WellShaped(R8)
  {
  }

  lemma TidyR8()
    ensures Tidy(R8, 3)
  {
    NameLength(R8.index);
  }

  lemma WellR9()
    ensures WellShaped(R9)
  {
  }

  lemma TidyR9()
    ensures Tidy(R9, 3)
  {
    NameLength(R9.index);
  }

  lemma WellR10()
    ensures WellShaped(R10)
  {
  }

  lemma TidyR10()
    ensures Tidy(R10, 3)
  {
    NameLength(R10.index);
  }

  lemma WellR11()
    ensures WellShaped(R11)
  {
  }

  lemma TidyR11()
    ensures Tidy(R11, 3)
  {
    NameLength(R11.index);
  }

  lemma WellR12()
    ensures WellShaped(R12)
  {
  }

  lemma TidyR12()
    ensures Tidy(R12, 3)
  {
    NameLength(R12.index);
  }

  lemma WellR13()
    ensures WellShaped(R13)
  {
  }

  lemma TidyR13()
    ensures Tidy(R13, 3)
  {
    NameLength(R13.index);
  }

  lemma WellR14()
    ensures WellShaped(R14)
  {
  }

  lemma TidyR14()
    ensures Tidy(R14, 3)
  {
    NameLength(R14.index);
  }

  lemma WellR15()
    ensures WellShaped(R15)
  {
  }

  lemma TidyR15()
    ensures Tidy(R15, 3)
  {
    NameLength(R15.index);
  }

  lemma WellR16()
    ensures WellShaped(R16)
  {
  }

  lemma TidyR16()
    ensures Tidy(R16, 3)
  {
    NameLength(R16.index);
  }

  lemma WellR17()
    ensures WellShaped(R17)
  {
  }

  lemma TidyR17()
    ensures Tidy(R17, 3)
  {
    NameLength(R17.index);
  }

  lemma WellR18()
    ensures WellShaped(R18)
  {
  }

  lemma TidyR18()
    ensures Tidy(R18, 3)
  {
    NameLength(R18.index);
  }

  lemma WellR19()
    ensures WellShaped(R19)
  {
  }

  lemma TidyR19()
    ensures Tidy(R19, 3)
  {
    NameLength(R19.index);
  }

  lemma WellR20()
    ensures WellShaped(R20)
  {
  }

  lemma TidyR20()
    ensures Tidy(R20, 3)
  {
    NameLength(R20.index);
  }

  lemma WellR21()
    ensures WellShaped(R21)
  {
  }

  lemma TidyR21()
    ensures Tidy(R21, 3)
  {
    NameLength(R21.index);
  }

  lemma WellR22()
    ensures WellShaped(R22)
  {
  }

  lemma TidyR22()
    ensures Tidy(R22, 3)
  {
    NameLength(R22.index);
  }

  lemma WellR23()
    ensures WellShaped(R23)
  {
  }

  lemma TidyR23()
    ensures Tidy(R23, 3)
  {
    NameLength(R23.index);
  }

  lemma WellR24()
    ensures WellShaped(R24)
  {
  }

  lemma TidyR24()
    ensures Tidy(R24, 3)
  {
    NameLength(R24.index);
  }

  lemma WellR25()
    ensures WellShaped(R25)
  {
  }

  lemma TidyR25()
    ensures Tidy(R25, 3)
  {
    NameLength(R25.index);
  }

  lemma WellR26()
    ensures WellShaped(R26)
  {
  }

  lemma TidyR26()
    ensures Tidy(R26, 3)
  {
    NameLength(R26.index);
  }

  lemma WellC3()
    ensures WellShaped(C3)
  {
  }

  lemma TidyC3()
    ensures Tidy(C3, 3)
  {
    NameLength(C3.index);
  }

  lemma WellP5()
    ensures WellShaped(P5)
  {
  }

  lemma TidyP5()
    ensures Tidy(P5, 3)
  {
    NameLength(P5.index);
  }

  lemma WellP13()
    ensures WellShaped(P13)
  {
  }

  lemma TidyP13()
    ensures Tidy(P13, 3)
  {
    NameLength(P13.index);
  }

  lemma ReactantLabels()
    ensures forall i :: 0 <= i < 26 ==> RS[i].atomLabel == (if i == 2 then "*1" else if i == 4 then "*2" else if i == 12 then "*3" else "")
  {
    forall i | 0 <= i < 26 ensures RS[i].atomLabel == (if i == 2 then "*1" else if i == 4 then "*2" else if i == 12 then "*3" else "") {
      if i == 0 {  }
      else if i == 1 {  }
      else if i == 2 {  }
      else if i == 3 {  }
      else if i == 4 {  }
      else if i == 5 {  }
      else if i == 6 {  }
      else if i == 7 {  }
      else if i == 8 {  }
      else if i == 9 {  }
      else if i == 10 {  }
      else if i == 11 {  }
      else if i == 12 {  }
      else if i == 13 {  }
      else if i == 14 {  }
      else if i == 15 {  }
      else if i == 16 {  }
      else if i == 17 {  }
      else if i == 18 {  }
      else if i == 19 {  }
      else if i == 20 {  }
      else if i == 21 {  }
      else if i == 22 {  }
      else if i == 23 {  }
      else if i == 24 {  }
      else if i == 25 {  }
    }
  }
  lemma ReactantAllWell()
    ensures AllWell(RS)
  {
    ReactantWell1(); ReactantWell2(); ReactantWell3(); ReactantWell4();
  }

  lemma ReactantNumbered()
    ensures Numbered(RS)
  {
  }

  lemma ReactantAllTidy()
    ensures forall i :: 0 <= i < |RS| ==> Tidy(RS[i], 3)
  {
    ReactantTidy1(); ReactantTidy2(); ReactantTidy3(); ReactantTidy4();
  }

  /** The shaped reactant lines are well formed, numbered from 1, and laid out as
      `adjlist` lays them out for 26 atoms. */
  lemma ReactantShapes()
    ensures AllWell(RS) && Numbered(RS)
    ensures forall i :: 0 <= i < |RS| ==> Tidy(RS[i], 3)
  {
    ReactantAllWell();
    ReactantNumbered();
    ReactantAllTidy();
  }

  // ---------------------------------------------------------------------------
  // The four actions

  lemma Label1()
    ensures "*1" in ShapedLabels(RS, map[]) && ShapedLabels(RS, map[])["*1"] == 3
  {
    ReactantLabels();
    assert RS[2] == R3;
    LabelAt(RS, map[], 2);
  }

  lemma Label2()
    ensures "*2" in ShapedLabels(RS, map[]) && ShapedLabels(RS, map[])["*2"] == 5
  {
    ReactantLabels();
    assert RS[4] == R5;
    LabelAt(RS, map[], 4);
  }

  lemma Label3()
    ensures "*3" in ShapedLabels(RS, map[]) && ShapedLabels(RS, map[])["*3"] == 13
  {
    ReactantLabels();
    assert RS[12] == R13;
    LabelAt(RS, map[], 12);
  }

  /** `rdict` of the reactant: `*1` is atom 3, `*2` atom 5 and `*3` atom 13. */
  lemma ReactantLabelMap()
    ensures "*1" in ShapedLabels(RS, map[]) && ShapedLabels(RS, map[])["*1"] == 3
    ensures "*2" in ShapedLabels(RS, map[]) && ShapedLabels(RS, map[])["*2"] == 5
    ensures "*3" in ShapedLabels(RS, map[]) && ShapedLabels(RS, map[])["*3"] == 13
  {
    Label1();
    Label2();
    Label3();
  }

  lemma Unbonded3()
    ensures R3.(segs := Without(R3.segs, 5)) == A3
  {
    assert Without(R3.segs, 5) == A3.segs;
  }

  lemma Unbonded5()
    ensures R5.(segs := Without(R5.segs, 3)) == A5
  {
    assert Without(R5.segs, 3) == [];
  }

  lemma BrokenLines()
    ensures Broken(RS, 3, 5) == S1
  {
    Unbonded3();
    Unbonded5();
    assert RS[2] == R3;
    var s1 := RS[2 := A3];
    assert s1[4] == R5;
    assert Broken(RS, 3, 5) == s1[4 := A5];
  }

  /** BREAK_BOND *1 S *2 takes `{5,S}` out of line 3 and `{3,S}` out of line 5. */
  lemma BreakStep()
    ensures Step(RS, ShapedLabels(RS, map[]), Actions[0]) == Some(S1)
  {
    ReactantLabelMap();
    UpperNames();
    BondStep(RS, ShapedLabels(RS, map[]), Actions[0]);
    BrokenLines();
  }

  lemma FormedLines()
    ensures Formed(A5, 13, "S") == B5
    ensures Formed(R13, 5, "S") == B13
  {
    var f := Appended(R13.segs, 5, "S");
    assert |f| == 4;
    assert f[0] == B13.segs[0] && f[1] == B13.segs[1] && f[2] == B13.segs[2] && f[3] == B13.segs[3];
    assert f == B13.segs;
  }

  lemma BondedLines()
    ensures Bonded(S1, 5, 13, "S") == S2
  {
    assert S1[4] == A5 && S1[12] == R13;
    FormedLines();
  }

  /** Before the bond is formed neither line 5 nor line 13 names the other. */
  lemma NotYetBonded()
    ensures !HasNbr(S1[4], 13) && !HasNbr(S1[12], 5)
  {
    assert S1[4] == A5 && S1[12] == R13;
    NbrInIff(R13.segs, 5);
  }

  /** FORM_BOND *2 S *3 appends `{13,S}` to line 5 and `{5,S}` to line 13. */
  lemma FormStep()
    ensures Step(S1, ShapedLabels(RS, map[]), Actions[1]) == Some(S2)
  {
    var labels := ShapedLabels(RS, map[]);
    ReactantLabelMap();
    UpperNames();
    NotYetBonded();
    assert Actions[1][0] == "FORM_BOND" && Actions[1][1] == "*2" && Actions[1][2] == "S" && Actions[1][3] == "*3";
    BondStep(S1, labels, Actions[1]);
    assert Step(S1, labels, Actions[1]) == Some(Bonded(S1, 5, 13, "S"));
    BondedLines();
  }

  /** GAIN_RADICAL *1 1 turns the radical count of line 3 from 0 into 1. */
  lemma GainStep()
    ensures Step(S2, ShapedLabels(RS, map[]), Actions[2]) == Some(S3)
  {
    var labels := ShapedLabels(RS, map[]);
    ReactantLabelMap();
    UpperNames();
    ParseOne();
    Names();
    assert Actions[2][0] == "GAIN_RADICAL" && Actions[2][1] == "*1" && Actions[2][2] == "1";
    assert S2[2] == A3;
    assert RadColumn(A3);
    assert NewCount(A3, 1, false) == 1;
    RadicalStep(S2, labels, Actions[2]);
    assert Step(S2, labels, Actions[2]) == Some(S2[2 := Recounted(A3, "1", false)]);
    assert Recounted(A3, "1", false) == C3;
  }

  /** LOSE_RADICAL *3 1 turns the radical count of line 13 from 1 into 0. */
  lemma LoseStep()
    ensures Step(S3, ShapedLabels(RS, map[]), Actions[3]) == Some(S4)
  {
    ReactantLabelMap();
    UpperNames();
    ParseOne();
    Names();
    assert S3[12] == B13;
    assert RadColumn(B13);
    RadicalStep(S3, ShapedLabels(RS, map[]), Actions[3]);
    assert IntToString(0) == "0";
    assert Recounted(B13, "1", true) == C13;
  }

  lemma AllSteps()
    ensures Steps(RS, ShapedLabels(RS, map[]), Actions) == Some(S4)
  {
    var labels := ShapedLabels(RS, map[]);
    BreakStep();
    FormStep();
    GainStep();
    LoseStep();
    assert Actions[4..] == [];
    assert Actions[3..][1..] == Actions[4..] && Actions[3..][0] == Actions[3];
    assert Actions[2..][1..] == Actions[3..] && Actions[2..][0] == Actions[2];
    assert Actions[1..][1..] == Actions[2..] && Actions[1..][0] == Actions[1];
    assert Steps(S3, labels, Actions[3..]) == Some(S4);
    assert Steps(S2, labels, Actions[2..]) == Some(S4);
    assert Steps(S1, labels, Actions[1..]) == Some(S4);
  }

  lemma MatchedKept()
    ensures forall i :: 0 <= i < 26 && i != 2 && i != 4 && i != 12 ==> Texts(S4)[i] == MatchedLines[i]
  {
    ReactantTexts();
    assert S4 == RS[2 := C3][4 := B5][12 := C13];
    forall i | 0 <= i < 26 && i != 2 && i != 4 && i != 12 ensures Texts(S4)[i] == MatchedLines[i] {
      assert S4[i] == RS[i];
      assert MatchedLines[i] == ReactantLines[i];
      assert Texts(RS)[i] == ReactantLines[i];
    }
  }

  lemma MatchedChanged()
    ensures Texts(S4)[2] == MatchedLines[2]
    ensures Texts(S4)[4] == MatchedLines[4]
    ensures Texts(S4)[12] == MatchedLines[12]
  {
    TextC3();
    TextB5();
    TextC13();
    assert S4[2] == C3 && S4[4] == B5 && S4[12] == C13;
  }

  /** The text of the lines after the four actions. */
  lemma MatchedTexts()
    ensures Texts(S4) == MatchedLines
  {
    MatchedKept();
    MatchedChanged();
    assert |Texts(S4)| == 26;
    forall i | 0 <= i < 26 ensures Texts(S4)[i] == MatchedLines[i] {
      if i == 2 || i == 4 || i == 12 {
      }
    }
  }

  /** `matchAtoms` on the reactant lines rewrites lines 3, 5 and 13 and keeps the
      others: line 5 keeps the blank left where `{3,S}` was, and the new bonds come
      last. */
  lemma HabsMatched()
    ensures MatchAtoms(ReactantLines, Actions) == Ok(MatchedLines)
  {
    ReactantShapes();
    ReactantTexts();
    AllSteps();
    MatchShaped(RS, Actions);
    MatchedTexts();
  }

  // ---------------------------------------------------------------------------
  // adjlist(atoms(...)) of the result

  /** Line 5 after the actions reads as the product's line 5. */
  lemma SameAtom5()
    ensures AtomOf(B5) == AtomOf(P5)
  {
  }

  /** Line 13 after the actions reads as the product's line 13: the same bonds, in
      another order. */
  lemma SameAtom13()
    ensures AtomOf(C13) == AtomOf(P13)
  {
    var m := SegBonds(C13.segs, map[]);
    var n := SegBonds(P13.segs, map[]);
    assert m == map[14 := "S", 18 := "S", 19 := "S", 5 := "S"];
    assert n == map[5 := "S", 14 := "S", 18 := "S", 19 := "S"];
    MapsEqual(m, n);
  }

  /** The lines the actions leave alone are already laid out as `adjlist` writes
      them. */
  lemma RelaidKept()
    ensures forall i :: 0 <= i < |S4| && i != 2 && i != 4 && i != 12 ==> Relaid(S4, 3)[i] == PS[i]
  {
    ReactantShapes();
    assert S4 == RS[2 := C3][4 := B5][12 := C13];
    assert PS == RS[2 := C3][4 := P5][12 := P13];
    forall i | 0 <= i < |S4| && i != 2 && i != 4 && i != 12 ensures Relaid(S4, 3)[i] == PS[i] {
      assert S4[i] == RS[i] && PS[i] == RS[i];
      RelaidAt(S4, 3, i, RS[i]);
    }
  }

  /** The three rewritten lines read as the product's lines 3, 5 and 13, one lemma
      each. */
  lemma RelaidChanged3()
    ensures |Relaid(S4, 3)| == |PS| && Relaid(S4, 3)[2] == PS[2]
  {
    WellC3(); TidyC3();
    assert S4[2] == C3 && PS[2] == C3;
    RelaidAt(S4, 3, 2, PS[2]);
  }

  lemma RelaidChanged5()
    ensures |Relaid(S4, 3)| == |PS| && Relaid(S4, 3)[4] == PS[4]
  {
    WellP5(); TidyP5();
    SameAtom5();
    assert S4[4] == B5 && PS[4] == P5;
    RelaidAt(S4, 3, 4, PS[4]);
  }

  lemma RelaidChanged13()
    ensures |Relaid(S4, 3)| == |PS| && Relaid(S4, 3)[12] == PS[12]
  {
    WellP13(); TidyP13();
    SameAtom13();
    assert S4[12] == C13 && PS[12] == P13;
    RelaidAt(S4, 3, 12, PS[12]);
  }

  /** `adjlist` lays the lines after the actions out as the product's lines. */
  lemma RelaidProduct()
    ensures Relaid(S4, 3) == PS
  {
    RelaidKept();
    RelaidChanged3();
    RelaidChanged5();
    RelaidChanged13();
  }

  /** The worked example end to end: `adjlist(atoms(matchAtoms(reactant)))` is the
      product adjacency list, with the one newline `adjlist` ends on. */
  lemma HabsProduct()
    ensures MatchAtoms(ReactantLines, Actions).Ok?
    ensures Parse(MatchAtoms(ReactantLines, Actions).value).Ok?
    ensures Serialize(Parse(MatchAtoms(ReactantLines, Actions).value).value) == Join(ProductLines, '\n') + "\n"
  {
    HabsMatched();
    ReactantShapes();
    AllSteps();
    StepsText(RS, ShapedLabels(RS, map[]), Actions);
    MatchedTexts();
    AdjlistOfAtoms(S4);
    NameLength(26);
    RelaidProduct();
    ProductTexts();
  }
}

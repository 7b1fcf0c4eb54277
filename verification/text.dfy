/** The string operations of the host language that the core is written with, over
    `seq<char>`: whitespace splitting, splitting on and joining with a separator,
    `replace`, `strip`, ASCII `lower` and left-justified padding.  Whitespace is the
    byte-string set of the 2.x runtime: space, tab, newline, vertical tab, form feed
    and carriage return. */
module Text {

  /** Slicing a concatenation inside its left part. */
  lemma SliceConcat<T>(a: seq<T>, b: seq<T>, n: nat)
    requires n <= |a|
    ensures (a + b)[..n] == a[..n] && (a + b)[n..] == a[n..] + b
  {
  }

  /** Slicing a concatenation inside its right part. */
  lemma SliceConcatRight<T>(a: seq<T>, b: seq<T>, n: nat)
    requires |a| <= n <= |a| + |b|
    ensures (a + b)[n..] == b[n - |a|..]
  {
  }

  /** A sequence is what comes before position `j`, the element there, and the rest. */
  lemma AroundIndex<T>(s: seq<T>, j: nat)
    requires j < |s|
    ensures s == s[..j] + ([s[j]] + s[j + 1..])
  {
  }

  lemma ConcatAssoc<T>(a: seq<T>, b: seq<T>, c: seq<T>)
    ensures (a + b) + c == a + (b + c)
  {
  }

  /** A non-empty sequence is its head followed by its tail. */
  lemma HeadTail<T>(r: seq<T>)
    requires |r| > 0
    ensures r == [r[0]] + r[1..]
  {
  }

  predicate IsSpace(c: char) {
    c == ' ' || '\t' <= c <= '\r'
  }

  predicate IsDigit(c: char) {
    '0' <= c <= '9'
  }

  /** No whitespace character anywhere in `s`. */
  predicate NoSpace(s: string) {
    forall i :: 0 <= i < |s| ==> !IsSpace(s[i])
  }

  /** Only whitespace characters in `s` (vacuously true of the empty string). */
  predicate Blank(s: string) {
    forall i :: 0 <= i < |s| ==> IsSpace(s[i])
  }

  lemma BlankConcat(a: string, b: string)
    requires Blank(a) && Blank(b)
    ensures Blank(a + b)
  {
  }

  /** A single word: non-empty and free of whitespace. */
  predicate IsWord(s: string) {
    |s| > 0 && NoSpace(s)
  }

  // ---------------------------------------------------------------------------
  // s.split()

  /** Length of the run of non-whitespace characters at the front of `s`. */
  function WordLen(s: string): (n: nat)
    ensures n <= |s|
    ensures forall i :: 0 <= i < n ==> !IsSpace(s[i])
    ensures n < |s| ==> IsSpace(s[n])
    ensures |s| > 0 && !IsSpace(s[0]) ==> n >= 1
    decreases |s|
  {
    if s == [] || IsSpace(s[0]) then 0 else 1 + WordLen(s[1..])
  }

  /** The characters of `s` that are not whitespace, in order. */
  function Squeeze(s: string): string
    decreases |s|
  {
    if s == [] then [] else (if IsSpace(s[0]) then [] else [s[0]]) + Squeeze(s[1..])
  }

  /** The strings of `ws` written one after another. */
  function Concat(ws: seq<string>): string
    decreases |ws|
  {
    if ws == [] then [] else ws[0] + Concat(ws[1..])
  }

  /** A whitespace-free front of `s` passes through `Squeeze` unchanged. */
  lemma {:induction false} SqueezeFront(s: string, n: nat)
    requires n <= |s| && forall i :: 0 <= i < n ==> !IsSpace(s[i])
    ensures Squeeze(s) == s[..n] + Squeeze(s[n..])
    decreases n
  {
    if n > 0 {
      SqueezeFront(s[1..], n - 1);
      assert s[1..][n - 1..] == s[n..];
      assert s[..n] == [s[0]] + s[1..][..n - 1];
    }
  }

  /** `s.split()` with no argument: the maximal runs of non-whitespace characters. */
  function Words(s: string): (ws: seq<string>)
    ensures forall i :: 0 <= i < |ws| ==> IsWord(ws[i])
    decreases |s|
  {
    if s == [] then []
    else if IsSpace(s[0]) then Words(s[1..])
    else
      var n := WordLen(s);
      [s[..n]] + Words(s[n..])
  }

  /** The words written one after another are `s` with its whitespace taken out, so
      `split()` loses nothing but whitespace. */
  lemma {:induction false} WordsSqueeze(s: string)
    ensures Concat(Words(s)) == Squeeze(s)
    decreases |s|
  {
    if s == [] {
    } else if IsSpace(s[0]) {
      WordsSqueeze(s[1..]);
    } else {
      var n := WordLen(s);
      WordsSqueeze(s[n..]);
      SqueezeFront(s, n);
      var ws := Words(s);
      assert ws[0] == s[..n] && ws[1..] == Words(s[n..]);
    }
  }

  lemma {:induction false} WordLenOfWordPrefix(a: string, b: string)
    requires NoSpace(a)
    requires b == [] || IsSpace(b[0])
    ensures WordLen(a + b) == |a|
    decreases |a|
  {
    if a == [] {
      assert a + b == b;
    } else {
      SliceConcat(a, b, 1);
      WordLenOfWordPrefix(a[1..], b);
    }
  }

  lemma {:induction false} WordLenStopsInside(a: string, b: string)
    requires WordLen(a) < |a|
    ensures WordLen(a + b) == WordLen(a)
    decreases |a|
  {
    if IsSpace(a[0]) {
    } else {
      SliceConcat(a, b, 1);
      WordLenStopsInside(a[1..], b);
    }
  }

  /** A blank at the front is skipped, with or without text after. */
  lemma WordsDropSpace(a: string, b: string)
    requires a != [] && IsSpace(a[0])
    ensures Words(a + b) == Words(a[1..] + b)
    ensures Words(a) == Words(a[1..])
  {
    assert (a + b)[0] == a[0];
    SliceConcat(a, b, 1);
  }

  /** The first word of text that starts with one. */
  lemma WordsFront(s: string, n: nat)
    requires s != [] && !IsSpace(s[0]) && n == WordLen(s)
    ensures Words(s) == [s[..n]] + Words(s[n..])
  {
  }

  /** A word that ends inside `a` is the first word of `a + b` too, so splitting
      `a + b` at the end of `a` reduces to splitting the rest of `a` and `b`. */
  lemma WordsTakeWord(a: string, b: string, n: nat)
    requires a != [] && !IsSpace(a[0]) && n == WordLen(a) && n < |a|
    requires Words(a[n..] + b) == Words(a[n..]) + Words(b)
    ensures Words(a + b) == Words(a) + Words(b)
  {
    WordLenStopsInside(a, b);
    var w := a[..n];
    assert (a + b)[0] == a[0];
    WordsFront(a, n);
    WordsFront(a + b, n);
    SliceConcat(a, b, n);
    assert Words(a + b) == [w] + (Words(a[n..]) + Words(b));
  }

  /** A whole word followed by a blank or nothing. */
  lemma WordsWholeWord(a: string, b: string)
    requires IsWord(a) && (b == [] || IsSpace(b[0]))
    ensures Words(a + b) == [a] + Words(b)
    ensures Words(a) == [a]
  {
    WordLenOfWordPrefix(a, b);
    WordLenOfWordPrefix(a, []);
    assert a + [] == a;
    assert (a + b)[0] == a[0];
    SliceConcat(a, b, |a|);
    assert a[..|a|] == a && a[|a|..] == [];
  }

  /** Splitting a concatenation at a whitespace boundary splits each side separately. */
  lemma {:induction false} WordsConcat(a: string, b: string)
    requires a == [] || b == [] || IsSpace(a[|a| - 1]) || IsSpace(b[0])
    ensures Words(a + b) == Words(a) + Words(b)
    decreases |a|
  {
    if a == [] {
      assert a + b == b;
    } else if IsSpace(a[0]) {
      WordsDropSpace(a, b);
      WordsConcat(a[1..], b);
    } else {
      var n := WordLen(a);
      if n < |a| {
        var r := a[n..];
        assert r != [] && r[|r| - 1] == a[|a| - 1];
        WordsConcat(r, b);
        WordsTakeWord(a, b, n);
      } else {
        WordsWholeWord(a, b);
      }
    }
  }

  lemma WordsOfWord(w: string)
    requires IsWord(w)
    ensures Words(w) == [w]
  {
    WordLenOfWordPrefix(w, []);
    assert w + [] == w;
    assert w[..|w|] == w;
    assert w[|w|..] == [];
  }

  lemma {:induction false} WordsOfBlank(s: string)
    requires Blank(s)
    ensures Words(s) == []
    decreases |s|
  {
    if s != [] {
      WordsOfBlank(s[1..]);
    }
  }

  // ---------------------------------------------------------------------------
  // s.split(sep) and sep.join(pieces)

  /** `s.split(sep)` for a one-character separator: always at least one piece. */
  function Split(s: string, sep: char): (ps: seq<string>)
    ensures |ps| >= 1
    ensures forall i :: 0 <= i < |ps| ==> sep !in ps[i]
    decreases |s|
  {
    if s == [] then [""]
    else if s[0] == sep then [""] + Split(s[1..], sep)
    else
      var rest := Split(s[1..], sep);
      [[s[0]] + rest[0]] + rest[1..]
  }

  /** `sep.join(pieces)`; the source builds it as `pieces[0] + sep + pieces[1] + ...`. */
  function Join(ps: seq<string>, sep: char): string
    requires |ps| >= 1
    decreases |ps|
  {
    if |ps| == 1 then ps[0] else ps[0] + [sep] + Join(ps[1..], sep)
  }

  /** Joining the pieces of a split gives back the string. */
  lemma {:induction false} JoinSplit(s: string, sep: char)
    ensures Join(Split(s, sep), sep) == s
    decreases |s|
  {
    if s == [] {
    } else if s[0] == sep {
      JoinSplit(s[1..], sep);
      assert Split(s, sep)[1..] == Split(s[1..], sep);
    } else {
      var rest := Split(s[1..], sep);
      JoinSplit(s[1..], sep);
      var ps := Split(s, sep);
      if |rest| == 1 {
        assert ps == [[s[0]] + rest[0]];
      } else {
        assert ps[1..] == rest[1..];
        assert Join(rest, sep) == rest[0] + [sep] + Join(rest[1..], sep);
      }
    }
  }

  lemma {:induction false} SplitNoSep(a: string, sep: char)
    requires sep !in a
    ensures Split(a, sep) == [a]
    decreases |a|
  {
    if a != [] {
      SplitNoSep(a[1..], sep);
      assert [a[0]] + a[1..] == a;
    }
  }

  /** A separator character cuts the pieces of the two sides apart. */
  lemma {:induction false} SplitAtSep(a: string, sep: char, b: string)
    ensures Split(a + [sep] + b, sep) == Split(a, sep) + Split(b, sep)
    decreases |a|
  {
    if a == [] {
      assert a + [sep] + b == [sep] + b;
      assert ([sep] + b)[1..] == b;
    } else {
      assert (a + [sep] + b)[1..] == a[1..] + [sep] + b;
      SplitAtSep(a[1..], sep, b);
    }
  }

  /** Splitting pieces joined by a separator none of them contains gives them back. */
  lemma {:induction false} SplitJoin(ps: seq<string>, sep: char)
    requires |ps| >= 1 && forall i :: 0 <= i < |ps| ==> sep !in ps[i]
    ensures Split(Join(ps, sep), sep) == ps
    decreases |ps|
  {
    SplitNoSep(ps[0], sep);
    if |ps| > 1 {
      SplitJoin(ps[1..], sep);
      SplitAtSep(ps[0], sep, Join(ps[1..], sep));
      assert ps == [ps[0]] + ps[1..];
    }
  }

  /** The piece before the first comma: `s.split(',')[0]`. */
  function BeforeComma(s: string): string {
    Split(s, ',')[0]
  }

  lemma BeforeCommaOf(a: string, b: string)
    requires ',' !in a
    ensures BeforeComma(a + "," + b) == a
  {
    SplitAtSep(a, ',', b);
    SplitNoSep(a, ',');
  }

  /** The piece before the first comma of `s` is a prefix of `s`. */
  lemma {:induction false} BeforeCommaPrefix(s: string)
    ensures |BeforeComma(s)| <= |s| && BeforeComma(s) == s[..|BeforeComma(s)|]
    decreases |s|
  {
    if s != [] && s[0] != ',' {
      BeforeCommaPrefix(s[1..]);
    }
  }

  // ---------------------------------------------------------------------------
  // s.replace(pat, rep)

  /** `s.replace(pat, rep)`: every non-overlapping occurrence of `pat`, found left to
      right, is replaced. */
  function Replace(s: string, pat: string, rep: string): string
    requires |pat| > 0
    decreases |s|
  {
    if |s| < |pat| then s
    else if s[..|pat|] == pat then rep + Replace(s[|pat|..], pat, rep)
    else [s[0]] + Replace(s[1..], pat, rep)
  }

  /** `pat` occurs in `s` starting at position `i`. */
  predicate OccursAt(s: string, pat: string, i: int) {
    0 <= i && i + |pat| <= |s| && s[i..i + |pat|] == pat
  }

  /** Without an occurrence before position `m`, `replace` leaves `s[..m]` alone. */
  lemma {:induction false} ReplaceSkips(s: string, pat: string, rep: string, m: nat)
    requires |pat| > 0 && m <= |s|
    requires forall i :: 0 <= i < m ==> !OccursAt(s, pat, i)
    ensures Replace(s, pat, rep) == s[..m] + Replace(s[m..], pat, rep)
    decreases m
  {
    if m > 0 {
      if |s| < |pat| {
        assert Replace(s[m..], pat, rep) == s[m..];
        assert s == s[..m] + s[m..];
      } else {
        assert !OccursAt(s, pat, 0);
        assert s[..|pat|] != pat;
        forall i | 0 <= i < m - 1
          ensures !OccursAt(s[1..], pat, i)
        {
          assert !OccursAt(s, pat, i + 1);
          assert s[1..][i..] == s[i + 1..];
        }
        ReplaceSkips(s[1..], pat, rep, m - 1);
        assert s[1..][m - 1..] == s[m..];
        assert [s[0]] + s[1..][..m - 1] == s[..m];
      }
    }
  }

  /** Without any occurrence, `replace` is the identity. */
  lemma ReplaceNone(s: string, pat: string, rep: string)
    requires |pat| > 0
    requires forall i :: 0 <= i < |s| ==> !OccursAt(s, pat, i)
    ensures Replace(s, pat, rep) == s
  {
    ReplaceSkips(s, pat, rep, |s|);
    assert s[..|s|] == s;
  }

  /** With no occurrence but the one at `p`, none starts after it ends. */
  lemma NoneAfter(s: string, pat: string, p: nat, u: string)
    requires |pat| > 0 && p + |pat| <= |s| && u == s[p + |pat|..]
    requires forall i :: 0 <= i < |s| && i != p ==> !OccursAt(s, pat, i)
    ensures forall i :: 0 <= i < |u| ==> !OccursAt(u, pat, i)
  {
    forall i | 0 <= i < |u|
      ensures !OccursAt(u, pat, i)
    {
      if OccursAt(u, pat, i) {
        assert u[i..i + |pat|] == s[p + |pat| + i..p + |pat| + i + |pat|];
        assert OccursAt(s, pat, p + |pat| + i);
      }
    }
  }

  /** With exactly one occurrence, at `p`, only that occurrence is rewritten. */
  lemma ReplaceOnce(s: string, pat: string, rep: string, p: nat)
    requires |pat| > 0
    requires OccursAt(s, pat, p)
    requires forall i :: 0 <= i < |s| && i != p ==> !OccursAt(s, pat, i)
    ensures Replace(s, pat, rep) == s[..p] + rep + s[p + |pat|..]
  {
    ReplaceSkips(s, pat, rep, p);
    var t := s[p..];
    var u := s[p + |pat|..];
    assert t[..|pat|] == pat;
    assert t[|pat|..] == u;
    assert Replace(t, pat, rep) == rep + Replace(u, pat, rep);
    NoneAfter(s, pat, p, u);
    ReplaceNone(u, pat, rep);
  }

  // ---------------------------------------------------------------------------
  // s.strip(), s.lower(), '{0:<{1}}'.format(s, w)

  /** `s.lstrip()`: the suffix of `s` left after its leading whitespace. */
  function TrimLeft(s: string): (r: string)
    ensures r == [] || !IsSpace(r[0])
    decreases |s|
  {
    if s != [] && IsSpace(s[0]) then TrimLeft(s[1..]) else s
  }

  /** `s.rstrip()`: the prefix of `s` left before its trailing whitespace. */
  function TrimRight(s: string): (r: string)
    ensures |r| <= |s|
    ensures r != [] ==> r[0] == s[0]
    ensures r == [] || !IsSpace(r[|r| - 1])
    decreases |s|
  {
    if s != [] && IsSpace(s[|s| - 1]) then TrimRight(s[..|s| - 1]) else s
  }

  /** `s.strip()`: leading and trailing whitespace removed; what is left starts and
      ends with a non-blank character unless it is empty. */
  function Strip(s: string): (r: string)
    ensures r == [] || (!IsSpace(r[0]) && !IsSpace(r[|r| - 1]))
  {
    TrimRight(TrimLeft(s))
  }

  /** `s.strip()` is a slice of `s` with only whitespace on either side of it. */
  lemma StripSlice(s: string)
    ensures exists i :: 0 <= i <= |s| - |Strip(s)| && Strip(s) == s[i..i + |Strip(s)|]
                        && Blank(s[..i]) && Blank(s[i + |Strip(s)|..])
  {
    var l := TrimLeft(s);
    var r := TrimRight(l);
    var i := |s| - |l|;
    TrimLeftSuffix(s);
    TrimRightPrefix(l);
    assert r == s[i..i + |r|];
    assert s[i + |r|..] == l[|r|..];
  }

  lemma {:induction false} TrimLeftKeeps(s: string, i: nat)
    requires i < |s| && !IsSpace(s[i])
    ensures |TrimLeft(s)| >= |s| - i
    decreases |s|
  {
    if IsSpace(s[0]) {
      TrimLeftKeeps(s[1..], i - 1);
    }
  }

  lemma {:induction false} TrimRightKeeps(s: string, i: nat)
    requires i < |s| && !IsSpace(s[i])
    ensures |TrimRight(s)| > i
    decreases |s|
  {
    if IsSpace(s[|s| - 1]) {
      TrimRightKeeps(s[..|s| - 1], i);
    }
  }

  /** Text with a non-blank character does not strip to nothing. */
  lemma StripKeeps(s: string, i: nat)
    requires i < |s| && !IsSpace(s[i])
    ensures Strip(s) != []
  {
    TrimLeftKeeps(s, i);
    var l := TrimLeft(s);
    TrimLeftSuffix(s);
    assert l[i - (|s| - |l|)] == s[i];
    TrimRightKeeps(l, i - (|s| - |l|));
  }

  /** `s.lstrip()` is a suffix of `s` and what it drops is whitespace. */
  lemma {:induction false} TrimLeftSuffix(s: string)
    ensures |TrimLeft(s)| <= |s| && TrimLeft(s) == s[|s| - |TrimLeft(s)|..]
    ensures Blank(s[..|s| - |TrimLeft(s)|])
    decreases |s|
  {
    if s != [] && IsSpace(s[0]) {
      TrimLeftSuffix(s[1..]);
      var r := TrimLeft(s[1..]);
      assert s[1..][..|s| - 1 - |r|] == s[1..|s| - |r|];
    }
  }

  /** `s.rstrip()` is a prefix of `s` and what it drops is whitespace. */
  lemma {:induction false} TrimRightPrefix(s: string)
    ensures TrimRight(s) == s[..|TrimRight(s)|] && Blank(s[|TrimRight(s)|..])
    decreases |s|
  {
    if s != [] && IsSpace(s[|s| - 1]) {
      TrimRightPrefix(s[..|s| - 1]);
      var r := TrimRight(s[..|s| - 1]);
      assert s[..|s| - 1][|r|..] == s[|r|..|s| - 1];
    }
  }

  lemma StripWord(s: string)
    requires s == [] || (!IsSpace(s[0]) && !IsSpace(s[|s| - 1]))
    ensures Strip(s) == s
  {
    assert TrimLeft(s) == s;
    assert TrimRight(s) == s;
  }

  /** Stripping text that starts with blanks followed by a non-blank character. */
  lemma StripAfterBlank(a: string, b: string)
    requires Blank(a) && b != [] && !IsSpace(b[0]) && !IsSpace(b[|b| - 1])
    ensures Strip(a + b) == b
  {
    TrimLeftAfterBlank(a, b);
  }

  lemma {:induction false} TrimLeftAfterBlank(a: string, b: string)
    requires Blank(a) && b != [] && !IsSpace(b[0])
    ensures TrimLeft(a + b) == b
    decreases |a|
  {
    if a == [] {
      assert a + b == b;
    } else {
      assert (a + b)[0] == a[0] && IsSpace(a[0]);
      SliceConcat(a, b, 1);
      assert TrimLeft(a + b) == TrimLeft(a[1..] + b);
      TrimLeftAfterBlank(a[1..], b);
    }
  }

  function LowerChar(c: char): char {
    if 'A' <= c <= 'Z' then (c as int + 32) as char else c
  }

  /** `s.lower()` for ASCII text. */
  function Lower(s: string): (r: string)
    ensures |r| == |s|
    ensures forall i :: 0 <= i < |s| ==> r[i] == LowerChar(s[i])
  {
    seq(|s|, i requires 0 <= i < |s| => LowerChar(s[i]))
  }

  function Spaces(n: nat): (r: string)
    ensures |r| == n && forall i :: 0 <= i < n ==> r[i] == ' '
  {
    seq(n, _ => ' ')
  }

  /** `'{0:<{1}}'.format(s, w)`: `s` left-justified in a field of width `w`, never cut. */
  function PadRight(s: string, w: int): (r: string)
    ensures |r| == if |s| < w then w else |s|
    ensures r[..|s|] == s && forall i :: |s| <= i < |r| ==> r[i] == ' '
  {
    if |s| < w then s + Spaces(w - |s|) else s
  }
}

/** `inputFileKeywords`: the route line for attempt number `attempt` (counted from 1).
    The list of keyword lines is tried once, then a second time from the start, and
    nothing is allowed past twice its length. */
module Keywords {
  import opened Results
  import opened PyList

  /** The eighteen keyword lines both scripts carry. */
  const Routes: seq<string> := [
    "# pm3 opt=(verytight,gdiis) freq IOP(2/16=3)",
    "# pm3 opt=(verytight,gdiis) freq IOP(2/16=3) IOP(4/21=2)",
    "# pm3 opt=(verytight,calcfc,maxcyc=200) freq IOP(2/16=3) nosymm",
    "# pm3 opt=(verytight,calcfc,maxcyc=200) freq=numerical IOP(2/16=3) nosymm",
    "# pm3 opt=(verytight,gdiis,small) freq IOP(2/16=3)",
    "# pm3 opt=(verytight,nolinear,calcfc,small) freq IOP(2/16=3)",
    "# pm3 opt=(verytight,gdiis,maxcyc=200) freq=numerical IOP(2/16=3)",
    "# pm3 opt=tight freq IOP(2/16=3)",
    "# pm3 opt=tight freq=numerical IOP(2/16=3)",
    "# pm3 opt=(tight,nolinear,calcfc,small,maxcyc=200) freq IOP(2/16=3)",
    "# pm3 opt freq IOP(2/16=3)",
    "# pm3 opt=(verytight,gdiis) freq=numerical IOP(2/16=3) IOP(4/21=200)",
    "# pm3 opt=(calcfc,verytight,newton,notrustupdate,small,maxcyc=100,maxstep=100) freq=(numerical,step=10) IOP(2/16=3) nosymm",
    "# pm3 opt=(tight,gdiis,small,maxcyc=200,maxstep=100) freq=numerical IOP(2/16=3) nosymm",
    "# pm3 opt=(tight,gdiis,small,maxcyc=200,maxstep=100) freq=numerical IOP(2/16=3) nosymm",
    "# pm3 opt=(verytight,gdiis,calcall,small,maxcyc=200) IOP(2/16=3) IOP(4/21=2) nosymm",
    "# pm3 opt=(verytight,gdiis,calcall,small) IOP(2/16=3) nosymm",
    "# pm3 opt=(calcall,small,maxcyc=100) IOP(2/16=3)"
  ]

  /** The function as its guards are meant to work: past twice the list length the
      assertion fails, past the list length the attempt number wraps round once, and the
      (possibly negative) position `attempt - 1` is then subscripted. */
  function InputFileKeywords(keywords: seq<string>, attempt: int): (r: Result<string>)
    ensures attempt > 2 * |keywords| ==> r == Err(AssertionError)
    ensures r.Err? ==> r.error == AssertionError || r.error == IndexError
  {
    if attempt > 2 * |keywords| then Err(AssertionError)
    else
      var a := if attempt > |keywords| then attempt - |keywords| else attempt;
      At(keywords, a - 1)
  }

  /** Every attempt from 1 to twice the list length gets a keyword line, and the lines
      come round in order: attempt `a` gets line `(a - 1) mod n`. */
  lemma KeywordsCycle(keywords: seq<string>, attempt: int)
    requires 1 <= attempt <= 2 * |keywords|
    ensures InputFileKeywords(keywords, attempt) == Ok(keywords[(attempt - 1) % |keywords|])
  {
    var n := |keywords|;
    if attempt > n {
      assert (attempt - 1) % n == attempt - 1 - n by {
        assert attempt - 1 == (attempt - 1 - n) + n * 1;
      }
    } else {
      assert (attempt - 1) % n == attempt - 1;
    }
  }

  /** The second round repeats the first. */
  lemma SecondRoundRepeats(keywords: seq<string>, attempt: int)
    requires 1 <= attempt <= |keywords|
    ensures InputFileKeywords(keywords, attempt + |keywords|) == InputFileKeywords(keywords, attempt)
    ensures InputFileKeywords(keywords, attempt).Ok?
  {
  }

  /** The function as the scripts have it.  `scriptAttempts` and `maxAttempts` are
      module-level properties, so both guards compare an integer with a property object;
      under the host language's mixed-type ordering a number is smaller than any such
      object, the assertion always holds and the wrap never happens, leaving
      `keywords[attempt - 1]`. */
  function InputFileKeywordsAsWritten(keywords: seq<string>, attempt: int): (r: Result<string>)
    ensures r.Ok? <==> 1 - |keywords| <= attempt <= |keywords|
    ensures r.Ok? ==> r.value == keywords[(attempt - 1) % |keywords|]
  {
    At(keywords, attempt - 1)
  }

  /** The first attempt of the second round already fails as written, where the
      intended function returns the first line again. */
  lemma SecondRoundFailsAsWritten(keywords: seq<string>)
    requires |keywords| >= 1
    ensures InputFileKeywordsAsWritten(keywords, |keywords| + 1) == Err(IndexError)
    ensures InputFileKeywords(keywords, |keywords| + 1) == Ok(keywords[0])
  {
    KeywordsCycle(keywords, |keywords| + 1);
  }

  /** On the scripts' own list: attempt 19 raises IndexError as written, and is meant
      to give the first route line. */
  lemma Attempt19(attempt: int)
    requires attempt == 19
    ensures InputFileKeywordsAsWritten(Routes, attempt) == Err(IndexError)
    ensures InputFileKeywords(Routes, attempt) == Ok(Routes[0])
  {
    assert |Routes| == 18;
    SecondRoundFailsAsWritten(Routes);
  }
}

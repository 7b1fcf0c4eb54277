# Reaction-template edits on adjacency lists

This project models the reaction-template edit pipeline of the transition-state
scripts `habsrxn1/ts.py` and `atomOrg/ts.py`. Both files hold identical copies of the
modelled functions. A reactant molecule comes as adjacency-list lines, one atom per
line in the form `index [*label] element radicals {nbr,order}...`.

- `matchAtoms` reads the reaction-centre labels once. It then applies an ordered list of
  actions (`BREAK_BOND`, `FORM_BOND`, `GAIN_RADICAL`, `LOSE_RADICAL`) by splicing the
  text of the two (or one) lines involved:
  - `bondBreak` cuts the line at `{` and drops pieces;
  - `bondForm` appends a token;
  - `radChange` reads the character at position 8 as the old count, then replaces
    every occurrence of that character between two blanks anywhere in the line by the
    new count.
- `atoms` parses lines into a dictionary of atom records.
- `adjlist` writes such a dictionary back in a fixed column layout.
- `inputFileKeywords` picks the route line for a numbered attempt.

The model has three layers.

- **Text layer** (`PyList`, `Text`, `Numerals`, `LineEdit`, `AdjList`, `Engine`,
  `Keywords`). These are the functions as written, on `string`s and `seq`s. The
  host-language operations they rely on are modelled with their failure cases as
  `Result`:
  - `split`, `strip`, `lower`, `replace`, `int`, `str`;
  - list `pop`/`insert` with negative positions;
  - string formatting.
- **Shape layer** (`Shapes`, `Reaction`, `Symmetry`, `Canonical`, `Layout`). A
  `Shaped` line is a line seen field by field: index, blanks, label, element, radical,
  bond segments.
  - Lemmas show what each text editor does to such a line.
  - `Step`/`Steps` describe the actions on lists of shaped lines.
  - `StepsText` shows that the text driver does exactly that.
  - `Symmetry` shows that bond actions change the bond relation by exactly one pair,
    in both directions.
  - `Canonical` shows that `atoms(adjlist(t))` gives `t` back.
  - `Layout` shows what `adjlist(atoms(lines))` does to well-shaped lines.
- **Worked examples** (`HabsExample`, `OrgExample`). These are the reactant and action
  literals of the two templates.
  - For hydrogen abstraction, `adjlist(atoms(matchAtoms(reactant)))` is the lines of
    the product literal (without the literal's leading newline) joined by newlines,
    with one newline at the end.
  - For the intramolecular hydrogen migration, only the lines of atoms 1, 5 and 6
    change, and the bonds stay symmetric.

The code checks little, and the model does what the code does:

- Bonds are edited as text, not as structured records.
- Breaking an absent bond leaves the line unchanged.
- Forming a bond that is already there is not checked; a second token is appended.
- A negative radical count is written as it is.
- Labels are not checked for uniqueness; the last labelled line wins.
- The parser does not check that bonds are symmetric. A neighbour named by two tokens
  of one line keeps the later token's order.
- The code raises only the language's `IndexError`, `KeyError`, `ValueError` and
  `AssertionError`, and those are the error cases modelled.

Two kinds of precondition are kept separate:

- The intended safety conditions are hypotheses of lemmas, not `requires` on the
  operations: known labels whose lines lie inside the list, a bond absent before a
  form, and a radical count in column 8 that stays a single digit.
- The operations themselves accept every input the source accepts.

## Model

| member | source | states |
|---|---|---|
| PyList.At | habsrxn1/ts.py:134 | `l[i]` succeeds exactly for `-len(l) <= i < len(l)` and then yields the element at `i` (counted from the end when negative); otherwise IndexError |
| PyList.Pop | habsrxn1/ts.py:253 | `l.pop(i)` succeeds under the same bounds, returning the element at the normalised position and the list without it |
| PyList.Insert | habsrxn1/ts.py:255 | `l.insert(i, x)` never fails: the list grows by one, with `x` at the position clamped to the list's ends and everything else kept in order |
| PyList.PopInsertInPlace | habsrxn1/ts.py:253-255 | popping position `j` inside the list and inserting a replacement at `j` overwrites exactly element `j` |
| PyList.PopInsertAtMinusOne | habsrxn1/ts.py:253-255 | for atom index 0 the driver pops position -1 and inserts at -1, so the edited last line lands one place early and the last two lines change places |
| Text.Words | habsrxn1/ts.py:183 | `split()` without an argument yields only whitespace-free, non-empty words |
| Text.WordsSqueeze | habsrxn1/ts.py:183 | the words written one after another are the text with its whitespace taken out, so `split()` loses nothing else |
| Text.WordsConcat | habsrxn1/ts.py:183 | splitting text joined at a whitespace boundary splits each side separately |
| Text.JoinSplit | habsrxn1/ts.py:217-225 | re-joining the pieces of `s.split('{')` with `{` gives `s` back |
| Text.SplitJoin | habsrxn1/ts.py:217-225 | splitting pieces joined by a separator none of them contains gives the pieces back |
| Text.Strip | habsrxn1/ts.py:209 | `strip()` leaves no whitespace at either end |
| Text.StripSlice | habsrxn1/ts.py:209 | `strip()` returns a slice of the text with only whitespace before and after it |
| Text.StripAfterBlank | habsrxn1/ts.py:209 | stripping blanks in front of text that starts and ends with non-blanks gives that text |
| Text.ReplaceOnce | habsrxn1/ts.py:236 | `replace` with exactly one occurrence of the pattern rewrites only that occurrence |
| Text.ReplaceNone | habsrxn1/ts.py:236 | `replace` without an occurrence is the identity |
| Text.Lower | habsrxn1/ts.py:249 | `lower()` keeps the length and maps each character to its lower-case form |
| Text.PadRight | habsrxn1/ts.py:203-205 | `'{0:<{1}}'` left-justifies without ever cutting: the text, then blanks up to the width |
| Numerals.ParseIntToString | habsrxn1/ts.py:184 | `int(str(n)) == n` for every integer |
| Numerals.ParseSignGap | habsrxn1/ts.py:232-234 | `int(action)` of the 2.x runtime skips blanks between the sign and the digits, so an amount `- 1` reads as minus one |
| Numerals.IntToStringInjective | habsrxn1/ts.py:220 | `str(a) == str(b)` exactly when `a == b`, so a piece names a neighbour exactly when its index text matches |
| Numerals.NatToStringMonotone | habsrxn1/ts.py:204 | a larger number is never written with fewer digits, so the widest index is the largest |
| LineEdit.FormAddsToken | habsrxn1/ts.py:211-214 | word by word, `bondForm` adds exactly the token `{otherIdx,bond}` at the end and keeps every earlier word |
| LineEdit.SweepDeletesOnlyMatches | habsrxn1/ts.py:219-222 | the shrinking-list loop keeps the surviving pieces in order and removes only pieces whose text before `,` is the key |
| LineEdit.SweepNoMatch | habsrxn1/ts.py:219-222 | without a piece naming the key the loop removes nothing |
| LineEdit.SweepSkipsNeighbour | habsrxn1/ts.py:219-222 | of two adjacent pieces naming the key only the first is removed, because the list shrinks under the iteration |
| LineEdit.BondBreak | habsrxn1/ts.py:216-226 | `bondBreak` fails (IndexError at `splits[0]`) exactly for a line without `{` whose text before the first comma is the neighbour index, and returns the line unchanged when no piece names the neighbour |
| LineEdit.BreakRemovesOne | habsrxn1/ts.py:216-226 | with exactly one piece naming the neighbour, the result is the other pieces rejoined by `{` in their original order |
| LineEdit.BreakUndoesForm | habsrxn1/ts.py:211-226 | breaking a bond just formed to a neighbour the line did not name gives the line back plus the one blank `bondForm` wrote |
| LineEdit.RadChange | habsrxn1/ts.py:228-238 | `radChange` fails exactly when the line has no position 8 (IndexError) or position 8 or the amount is not a number (ValueError) |
| LineEdit.RadChangeOnce | habsrxn1/ts.py:228-238 | when ` r ` occurs once, only that occurrence is rewritten, to the old digit plus or minus the amount |
| LineEdit.RadChangeNoOccurrence | habsrxn1/ts.py:236 | when ` r ` does not occur (radical last on the line) the line comes back unchanged |
| AdjList.Put | habsrxn1/ts.py:195-196 | `atoms[index] = record` stores the record, appends a new key to the iteration order and keeps an existing key's place |
| AdjList.ParseBond | habsrxn1/ts.py:193-194 | a token `{n,o}` gives neighbour `int(n)` and order `o`; a token without a comma inside its braces is IndexError, raised before the index is read; an index that is not an integer is ValueError |
| AdjList.ParseBonds | habsrxn1/ts.py:191-194 | the bond loop succeeds exactly when every token parses, and otherwise raises IndexError or ValueError |
| AdjList.ParseBondsKeys | habsrxn1/ts.py:191-194 | a neighbour is among the bonds exactly when some token names it |
| AdjList.ParseBondsLast | habsrxn1/ts.py:191-194 | a neighbour's order is the one of the last token naming it |
| Shapes.RepeatedNeighbourLastWins | habsrxn1/ts.py:192-194 | the tokens `{2,S}` and `{2,D}` give the one bond `2 -> D` |
| AdjList.ParseLine | habsrxn1/ts.py:183-196 | a parsed line has enough words; the index is `int` of the first; a label is taken exactly when the second word contains `*`, otherwise the label is two blanks; element and radical are the next two words; the bonds are what the bond loop collects from the remaining words. A line without words is IndexError, a non-integer index ValueError, too few words IndexError, and otherwise the first bad token's error |
| AdjList.InsertionOrderAscending | habsrxn1/ts.py:201 | a dictionary whose keys arrived in ascending order iterates in the ascending order `sorted` gives |
| AdjList.SortedKeysOrder | habsrxn1/ts.py:207 | `sorted(keys)` lists every key, strictly ascending |
| AdjList.SortedKeysUnique | habsrxn1/ts.py:207 | any strictly ascending list of exactly the keys is the one `sorted` returns |
| AdjList.Serialize | habsrxn1/ts.py:199-209 | the text ends with exactly one newline and has no whitespace at its start or before that newline; it is a lone newline exactly for an empty dictionary |
| Shapes.ShapedParses | habsrxn1/ts.py:180-197 | `atoms` reads a well-shaped line as its index and the record of its label, element, radical and bond segments |
| Shapes.ShapedWords | habsrxn1/ts.py:183 | the words of a well-shaped line are its index, label (if any), element, radical and bond tokens |
| Shapes.PiecesNaming | habsrxn1/ts.py:217-220 | cutting a well-shaped line at `{` gives one piece per bond plus the lead, and a piece names neighbour `k` exactly when its segment does, so `1` never matches `{12,S}` |
| Shapes.BreakShape | habsrxn1/ts.py:216-226 | on a well-shaped line `bondBreak` removes exactly the segments naming the neighbour and keeps the rest of the text |
| Shapes.FormShape | habsrxn1/ts.py:211-214 | `bondForm` on any shaped line appends one segment, the blank joining the previous gap |
| Shapes.FormedWellShaped | habsrxn1/ts.py:211-214 | forming a bond to a neighbour not yet named keeps a line well shaped |
| Shapes.WithoutWellShaped | habsrxn1/ts.py:216-226 | removing segments keeps a line well shaped |
| Shapes.RadShape | habsrxn1/ts.py:228-238 | on a line with its radical digit at position 8, `radChange` rewrites the radical field and nothing else |
| Engine.LabelEntry | habsrxn1/ts.py:246 | a label entry is the second word mapped to `int` of the first, or the IndexError or ValueError that evaluating it raises |
| Engine.LabelsFromUnlabelled | habsrxn1/ts.py:244-246 | lines without `*` add nothing to the label map |
| Engine.Lookup | habsrxn1/ts.py:250-251 | `rdict[action[i]]` is IndexError for a missing action field and KeyError naming the label for an unknown label |
| Engine.EditLine | habsrxn1/ts.py:253-255 | a pop/edit/insert keeps the number of lines and is IndexError for a position outside the list |
| Engine.EditInPlace | habsrxn1/ts.py:253-255 | for an atom index inside the list the edit rewrites exactly that line, or raises the editor's error |
| Engine.EditAtZero | habsrxn1/ts.py:253-255 | atom index 0 edits the last line and swaps it with the one before |
| Engine.BothEnds | habsrxn1/ts.py:249-270 | the two pop/edit/insert rounds of a bond action, on two distinct positions inside the list, rewrite exactly those two lines with their edits and keep every other line |
| Engine.ApplyAction | habsrxn1/ts.py:248-282 | an action keeps the number of lines; an empty action is IndexError; an unknown name leaves the lines unchanged; an unknown first label is KeyError; a bond action whose second label is unknown is KeyError naming it; a known name without the fields it reads is IndexError |
| Engine.NameCaseIgnored | habsrxn1/ts.py:249-282 | only the lower-cased action name decides what an action does |
| Engine.RunActionsAppend | habsrxn1/ts.py:243-248 | the label map is fixed before the loop: two action lists in a row use the same map, whatever the first did |
| Engine.MatchAtoms | habsrxn1/ts.py:240-283 | `matchAtoms` returns as many lines as it was given |
| Canonical.RenderShaped | habsrxn1/ts.py:203-208 | each line `adjlist` writes is the text of the shaped line of the record in that index column |
| Canonical.RenderedBondsSorted | habsrxn1/ts.py:207-208 | the bond tokens of a written line name each neighbour of the record once, with its tag, in strictly ascending index order |
| Canonical.CanonAtom | habsrxn1/ts.py:183-208 | the record `atoms` reads from a written line is the record it was written from |
| Canonical.RenderParses | habsrxn1/ts.py:180-208 | `atoms` reads a written line back as its index and record |
| Canonical.SerializeLines | habsrxn1/ts.py:199-209 | `adjlist` of a non-empty clean dictionary is its lines, in iteration order, joined by newlines, plus one newline |
| Canonical.ParseLines | habsrxn1/ts.py:180-197 | `atoms` of those lines is the dictionary again, with the same iteration order |
| Canonical.RoundTrip | habsrxn1/ts.py:180-209 | the whole round trip: the text splits into one line per atom and `atoms` reads them back as the dictionary |
| Reaction.StarIffLabel | habsrxn1/ts.py:245 | a well-shaped line contains `*` exactly when it carries a label |
| Reaction.LabelEntryShaped | habsrxn1/ts.py:246 | the driver reads a labelled line's label and index |
| Reaction.LabelsShaped | habsrxn1/ts.py:243-246 | the label map of well-shaped lines is built without error |
| Reaction.LabelAt | habsrxn1/ts.py:243-246 | a label maps to the index of the last line carrying it |
| Reaction.BreakText | habsrxn1/ts.py:249-259 | BREAK_BOND on known labels inside the list cuts each line's tokens naming the other atom out of its text, whether or not there were any, and the lines stay well shaped |
| Reaction.FormAction | habsrxn1/ts.py:260-270 | FORM_BOND on known labels inside the list, where neither line names the other, appends the one token to each line's text and the lines stay well shaped |
| Reaction.StepRadical | habsrxn1/ts.py:271-282 | GAIN_RADICAL or LOSE_RADICAL on a known label whose line has its count in column 8 rewrites that count in the text, to the old count plus or minus the amount, and the lines stay well shaped |
| Reaction.StepKeepsIndices | habsrxn1/ts.py:248-282 | an action keeps the number of lines and every line's index |
| Reaction.StepText | habsrxn1/ts.py:248-282 | the text driver performs exactly the shaped step, keeping the lines well shaped and numbered |
| Reaction.StepsText | habsrxn1/ts.py:248-283 | the same for a whole action list |
| Reaction.MatchShaped | habsrxn1/ts.py:240-283 | `matchAtoms` on well-shaped lines returns the text of the lines `Steps` gives under the reactant's label map |
| Symmetry.WithoutBond | habsrxn1/ts.py:216-226 | `bondBreak` drops exactly the bond tokens naming the neighbour |
| Symmetry.FormedBond | habsrxn1/ts.py:211-214 | `bondForm` adds exactly the one bond token |
| Symmetry.BrokenBond | habsrxn1/ts.py:249-259 | BREAK_BOND removes the named pair from the bond relation in both directions and nothing else |
| Symmetry.BondedBond | habsrxn1/ts.py:260-270 | FORM_BOND adds the named pair in both directions with the same order tag and nothing else |
| Symmetry.StepBonds | habsrxn1/ts.py:248-282 | what any action does to the bond relation: break removes its pair, form adds its pair, radical and unknown actions leave it alone |
| Symmetry.StepSymmetric | habsrxn1/ts.py:248-282 | each action keeps a symmetric bond relation symmetric |
| Symmetry.StepsSymmetric | habsrxn1/ts.py:248-283 | a whole action list keeps it symmetric |
| Symmetry.MatchSymmetric | habsrxn1/ts.py:240-283 | `matchAtoms` on lines with symmetric bonds returns lines with symmetric bonds |
| Layout.AtomsOfShaped | habsrxn1/ts.py:180-197 | `atoms` of well-shaped lines numbered 1 to n is the dictionary of their records, in order 1 to n |
| Layout.TidyCanon | habsrxn1/ts.py:199-208 | a line already in `adjlist`'s layout is what `adjlist` writes for the record read from it |
| Layout.LinesRelaid | habsrxn1/ts.py:199-208 | the lines `adjlist` writes for those records are the lines re-laid out, in an index column one wider than the largest index |
| Layout.AdjlistOfAtoms | habsrxn1/ts.py:435-436 | `adjlist(atoms(lines))` of well-shaped numbered lines is the re-laid-out lines joined by newlines with one newline at the end |
| Keywords.InputFileKeywords | habsrxn1/ts.py:125-134 | with the guards working as documented: past twice the list length the assertion fails, and the only other failure is IndexError |
| Keywords.KeywordsCycle | habsrxn1/ts.py:125-134 | attempt `a` in `1..2n` gets keyword line `(a - 1) mod n` |
| Keywords.SecondRoundRepeats | habsrxn1/ts.py:131-134 | the second round of attempts repeats the first |
| Keywords.InputFileKeywordsAsWritten | habsrxn1/ts.py:115-134 | as written, with the guards comparing against property objects: it succeeds exactly for `1 - n <= a <= n` |
| Keywords.SecondRoundFailsAsWritten | habsrxn1/ts.py:115-134 | as written, attempt `n + 1` raises IndexError where the intended function returns the first line |
| Keywords.Attempt19 | habsrxn1/ts.py:94-134 | on the eighteen route lines, attempt 19 raises IndexError as written and is meant to give the first line |
| HabsExample.HabsMatched | habsrxn1/ts.py:21-84 | `matchAtoms` on the reactant literal and the four actions rewrites exactly lines 3, 5 and 13 |
| HabsExample.HabsProduct | habsrxn1/ts.py:21-84 | `adjlist(atoms(matchAtoms(reactant)))` is the product literal's lines, without its leading newline, joined by newlines, plus one newline |
| OrgExample.ReactantSymmetric | atomOrg/ts.py:22-35 | the bonds of the reactant literal are symmetric |
| OrgExample.OrgMatched | atomOrg/ts.py:22-57 | `matchAtoms` on the reactant literal and the four actions changes exactly the lines of atoms 1, 5 and 6 (labels `*2`, `*1`, `*3`), and the bonds of the result are symmetric |

The code of `atomOrg/ts.py` is the same function for function, at other lines:

- `inputFileKeywords`: habsrxn1/ts.py lines 125-134, atomOrg/ts.py lines 98-107;
- `atoms`: habsrxn1/ts.py lines 180-197, atomOrg/ts.py lines 114-131;
- `adjlist`: habsrxn1/ts.py lines 199-209, atomOrg/ts.py lines 133-143;
- `bondForm`: habsrxn1/ts.py lines 211-214, atomOrg/ts.py lines 145-148;
- `bondBreak`: habsrxn1/ts.py lines 216-226, atomOrg/ts.py lines 150-160;
- `radChange`: habsrxn1/ts.py lines 228-238, atomOrg/ts.py lines 162-172;
- `matchAtoms`: habsrxn1/ts.py lines 240-283, atomOrg/ts.py lines 174-217.

## Left out

- The molecule library calls are not modelled. These are `Molecule().fromAdjacencyList`,
  `toAdjacencyList().strip().splitlines()`, `fixSortLabel` and `getLabeledAtom`. The
  reactant's lines are a parameter of `MatchAtoms`, and the worked examples take the
  template literals as those lines.
- Geometry, RDKit and bounds-matrix work is not modelled, because it is floating-point
  work on foreign objects. This covers `getGeometry`, `getRDKitMol`,
  `generateBoundsMatrix`, `editMatrix` and the smoothing calls.
- File and process work is not modelled because it is I/O. This covers
  `writeInputFile`, `writeQST2InputFile`, `writeTSInputFile`, the
  `writeModRedundantFile` variants, `convertOutputToInput`, `run` and `QMCalculator`.
- `generateKineticData`, the debugger breakpoints and the top-level script code are not
  modelled: they carry no logic of the pipeline.
- The atomOrg product literal (atomOrg/ts.py:37-50) is not compared with the edited
  reactant. It numbers the same molecule's atoms differently from the reactant, so the
  comparison would only hold after the molecule library renumbers.
- Whitespace covers only the ASCII characters blank, tab, newline, vertical tab, form
  feed and carriage return. `lower()` covers only ASCII letters.
- AdjList.Serialize: the model iterates a dictionary in insertion order. The scripts'
  language version iterates small non-negative integer keys in ascending order (their
  hash-table slots). The two agree when the keys arrive in ascending order
  (`AdjList.InsertionOrderAscending`), as for lines numbered 1 to n
  (`Layout.AtomsOfShaped`), which is what the worked examples use. For lines `2 ...`
  then `1 ...` the source writes atom 1 first and the model atom 2.
- Canonical.RoundTrip: the round trip is stated for tables with non-negative indices
  only, because a negative index can outgrow the index column.
- Shapes.RadShape: stated only for lines whose radical digit sits at position 8 (index,
  blanks, label and element filling seven characters). On other layouts `radChange`
  reads the wrong character; `LineEdit.RadChange` covers those lines, but only through
  its error cases.
- The shaped description `Reaction.Step` covers only the intended uses of an action:
  - an action with all the fields its kind reads;
  - known labels;
  - indices inside the list;
  - a bond formed between two different atoms, only where neither line names the other
    yet (the source appends two tokens `{i,o}` to the line when both labels name it);
  - an order tag without blanks, `,`, `{` or `*` (the source appends any tag as it is);
  - a radical action on a line with its count in column 8, with an amount that is an
    integer and a new count that stays one digit.

  Other uses are covered only by the text driver (`Engine.ApplyAction`), not by a shaped
  description.
- Engine.MatchAtoms: its own contract states only that the number of lines is kept. The
  line contents are stated by `Reaction.MatchShaped` and `Symmetry.MatchSymmetric`.
- AdjList.Serialize: its own contract states only the framing (one final newline, no
  outer blanks). The line contents are stated by `Canonical.SerializeLines` and
  `Layout.AdjlistOfAtoms`.
- Keywords.InputFileKeywordsAsWritten: follows the scripts' original language version,
  where an integer compares as smaller than any object. In later versions the same
  comparison raises TypeError, which is not modelled.

## Findings

| source | as written | input that shows it | evidently intended | confidence | as-written member | corrected member |
|---|---|---|---|---|---|---|
| habsrxn1/ts.py:115-134 | `scriptAttempts` and `maxAttempts` are decorated with `@property` at module level, so both are property objects. `attempt <= maxAttempts` is always true and `attempt > scriptAttempts` always false, so the result is `keywords[attempt - 1]` | attempt 19 with the eighteen route lines raises IndexError | attempts 19 to 36 wrap round to lines 0 to 17 and attempt 37 fails the assertion, as the docstrings and names say | not executed; relies on the integer-versus-object ordering of the scripts' language version | Keywords.InputFileKeywordsAsWritten | Keywords.InputFileKeywords |

/** The three list operations of the host language that the edit driver relies on:
    subscripting, `pop(i)` and `insert(i, x)`, including their treatment of negative
    positions (counted from the end of the list). */
module PyList {
  import opened Results

  /** The position a possibly negative subscript denotes in a list of length `n`. */
  function Normalize(n: nat, i: int): int {
    if i < 0 then i + n else i
  }

  /** `l[i]`: raises IndexError unless `-|l| <= i < |l|`. */
  function At<T>(l: seq<T>, i: int): (r: Result<T>)
    ensures r.Ok? <==> -|l| <= i < |l|
    ensures r.Ok? ==> r.value == l[if i < 0 then i + |l| else i]
  {
    var j := Normalize(|l|, i);
    if 0 <= j < |l| then Ok(l[j]) else Err(IndexError)
  }

  /** `l.pop(i)`: the removed element and the remaining list; the same bounds as `At`. */
  function Pop<T>(l: seq<T>, i: int): (r: Result<(T, seq<T>)>)
    ensures r.Ok? <==> -|l| <= i < |l|
    ensures r.Ok? ==> var j := Normalize(|l|, i);
      && r.value.0 == l[j]
      && r.value.1 == l[..j] + l[j + 1..]
  {
    var j := Normalize(|l|, i);
    if 0 <= j < |l| then Ok((l[j], l[..j] + l[j + 1..])) else Err(IndexError)
  }

  /** `l.insert(i, x)`: never fails; a position past either end is clamped to that end. */
  function Insert<T>(l: seq<T>, i: int, x: T): (r: seq<T>)
    ensures |r| == |l| + 1
    ensures var j := if i < 0 then (if i + |l| < 0 then 0 else i + |l|) else (if i > |l| then |l| else i);
      r[..j] == l[..j] && r[j] == x && r[j + 1..] == l[j..]
  {
    var j := if i < 0 then (if i + |l| < 0 then 0 else i + |l|) else (if i > |l| then |l| else i);
    l[..j] + [x] + l[j..]
  }

  /** Popping position `j` and inserting a replacement back at `j` overwrites the
      element in place when `0 <= j < |l|`. */
  lemma PopInsertInPlace<T>(l: seq<T>, j: int, y: T)
    requires 0 <= j < |l|
    ensures Pop(l, j).Ok? && Pop(l, j).value.0 == l[j]
    ensures Insert(Pop(l, j).value.1, j, y) == l[j := y]
  {
    var rest := l[..j] + l[j + 1..];
    assert Pop(l, j).value.1 == rest;
    var r := Insert(rest, j, y);
    assert |r| == |l|;
    forall k | 0 <= k < |l|
      ensures r[k] == l[j := y][k]
    {
      if k < j {
        assert r[k] == r[..j][k];
      } else if k > j {
        assert r[k] == r[j + 1..][k - j - 1];
      }
    }
  }

  /** The host language's behaviour for position `-1`, which the driver reaches for an
      atom index of 0: the last element is popped, and the replacement is inserted in
      front of the new last element, so the two final elements change places. */
  lemma PopInsertAtMinusOne<T>(l: seq<T>, y: T)
    requires |l| >= 2
    ensures Pop(l, -1).Ok?
    ensures Insert(Pop(l, -1).value.1, -1, y) == l[..|l| - 2] + [y, l[|l| - 2]]
  {
    var rest := l[..|l| - 1];
    assert Pop(l, -1).value.1 == rest;
    var r := Insert(rest, -1, y);
    assert r == rest[..|rest| - 1] + [y] + rest[|rest| - 1..];
    assert rest[..|rest| - 1] == l[..|l| - 2];
    assert rest[|rest| - 1..] == [l[|l| - 2]];
  }
}

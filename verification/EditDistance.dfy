/** Edit distance: one recursive specification, its laws, and the three loops that compute it. */
module EditDistance {
  import opened Wrappers

  function Min(a: int, b: int): int {
    if a <= b then a else b
  }

  function Abs(a: int): nat {
    if a < 0 then -a else a
  }

  /** The cost of turning one rune into another. */
  function Change(x: char, y: char): nat {
    if x == y then 0 else 1
  }

  /** The edit distance of two rune sequences, by their last runes. */
  function Distance(a: string, b: string): nat
    decreases |a| + |b|
  {
    if a == [] then |b|
    else if b == [] then |a|
    else
      var a', b' := a[..|a| - 1], b[..|b| - 1];
      Min(Min(Distance(a', b) + 1, Distance(a, b') + 1), Distance(a', b') + Change(a[|a| - 1], b[|b| - 1]))
  }

  // ---------- The distance is a metric ----------

  lemma {:induction false} Identity(a: string, b: string)
    ensures Distance(a, b) == 0 <==> a == b
    decreases |a| + |b|
  {
    if a != [] && b != [] {
      var a', b' := a[..|a| - 1], b[..|b| - 1];
      assert a == a' + [a[|a| - 1]] && b == b' + [b[|b| - 1]];
      Identity(a', b');
    }
  }

  lemma {:induction false} Symmetry(a: string, b: string)
    ensures Distance(a, b) == Distance(b, a)
    decreases |a| + |b|
  {
    if a != [] && b != [] {
      var a', b' := a[..|a| - 1], b[..|b| - 1];
      Symmetry(a', b);
      Symmetry(a, b');
      Symmetry(a', b');
    }
  }

  /** No distance is below the difference of the lengths, nor above the longer length. */
  lemma {:induction false} LengthBounds(a: string, b: string)
    ensures Abs(|a| - |b|) <= Distance(a, b) <= if |a| <= |b| then |b| else |a|
    decreases |a| + |b|
  {
    if a != [] && b != [] {
      var a', b' := a[..|a| - 1], b[..|b| - 1];
      LengthBounds(a', b);
      LengthBounds(a, b');
      LengthBounds(a', b');
    }
  }

  lemma {:induction false} Triangle(a: string, b: string, c: string)
    ensures Distance(a, c) <= Distance(a, b) + Distance(b, c)
    decreases |a| + |b| + |c|
  {
    LengthBounds(a, b);
    LengthBounds(b, c);
    if a == [] || b == [] || c == [] {
      LengthBounds(a, c);
    } else {
      var a', b', c' := a[..|a| - 1], b[..|b| - 1], c[..|c| - 1];
      Triangle(a', b, c);
      Triangle(a, b, c');
      Triangle(a, b', c);
      Triangle(a, b', c');
      Triangle(a', b', c);
      Triangle(a', b', c');
    }
  }

  // ---------- The distance is the least cost of an edit script ----------

  datatype Edit = Keep | Replace(into: char) | Insert(rune: char) | Delete

  /** Applies a script to `a` from its first rune on; a script that does not fit gives None. */
  function Run(script: seq<Edit>, a: string): Option<string>
    decreases |script|
  {
    if script == [] then (if a == [] then Some([]) else None)
    else
      var last := script[|script| - 1];
      var front := script[..|script| - 1];
      match last
      case Insert(rune) =>
        (match Run(front, a) case Some(s) => Some(s + [rune]) case None => None)
      case Keep =>
        if a == [] then None
        else (match Run(front, a[..|a| - 1]) case Some(s) => Some(s + [a[|a| - 1]]) case None => None)
      case Replace(rune) =>
        if a == [] then None
        else (match Run(front, a[..|a| - 1]) case Some(s) => Some(s + [rune]) case None => None)
      case Delete =>
        if a == [] then None else Run(front, a[..|a| - 1])
  }

  function Cost(script: seq<Edit>): nat {
    if script == [] then 0
    else Cost(script[..|script| - 1]) + if script[|script| - 1].Keep? then 0 else 1
  }

  lemma {:induction false} NoScriptIsCheaper(script: seq<Edit>, a: string, b: string)
    requires Run(script, a) == Some(b)
    ensures Distance(a, b) <= Cost(script)
    decreases |script|
  {
    if script == [] {
    } else {
      var front := script[..|script| - 1];
      LengthBounds(a, b);
      match script[|script| - 1]
      case Insert(rune) =>
        NoScriptIsCheaper(front, a, b[..|b| - 1]);
        LengthBounds(a, b[..|b| - 1]);
      case Delete =>
        NoScriptIsCheaper(front, a[..|a| - 1], b);
        LengthBounds(a[..|a| - 1], b);
      case _ =>
        NoScriptIsCheaper(front, a[..|a| - 1], b[..|b| - 1]);
    }
  }

  lemma {:induction false} CheapestScript(a: string, b: string) returns (script: seq<Edit>)
    ensures Run(script, a) == Some(b) && Cost(script) == Distance(a, b)
    decreases |a| + |b|
  {
    if a == [] && b == [] {
      script := [];
    } else {
      var front, last;
      if a == [] || (b != [] && Distance(a, b) == Distance(a, b[..|b| - 1]) + 1) {
        front := CheapestScript(a, b[..|b| - 1]);
        last := Insert(b[|b| - 1]);
        assert b == b[..|b| - 1] + [b[|b| - 1]];
      } else if b == [] || Distance(a, b) == Distance(a[..|a| - 1], b) + 1 {
        front := CheapestScript(a[..|a| - 1], b);
        last := Delete;
      } else {
        front := CheapestScript(a[..|a| - 1], b[..|b| - 1]);
        last := if a[|a| - 1] == b[|b| - 1] then Keep else Replace(b[|b| - 1]);
        assert b == b[..|b| - 1] + [b[|b| - 1]];
      }
      script := front + [last];
      assert script[..|script| - 1] == front;
    }
  }

  /** `n` is the distance of `a` and `b` exactly if it is the least cost of a script turning one into the other. */
  lemma DistanceIsLeastCost(a: string, b: string, n: nat)
    ensures n == Distance(a, b) <==>
            && (exists script :: Run(script, a) == Some(b) && Cost(script) == n)
            && (forall script :: Run(script, a) == Some(b) ==> n <= Cost(script))
  {
    var best := CheapestScript(a, b);
    forall script | Run(script, a) == Some(b) ensures Distance(a, b) <= Cost(script) {
      NoScriptIsCheaper(script, a, b);
    }
  }

  // ---------- The loops ----------

  /**
   What the code returns: the distance, except that words whose lengths differ by more than two
   count as 3 apart.
   */
  function Capped(a: string, b: string): nat {
    if Abs(|a| - |b|) > 2 then 3 else Distance(a, b)
  }

  /** The cap is sound: small results are exact, and a result is 3 or more exactly if the distance is. */
  lemma CapIsSound(a: string, b: string)
    ensures Capped(a, b) <= 2 ==> Capped(a, b) == Distance(a, b)
    ensures Capped(a, b) >= 3 <==> Distance(a, b) >= 3
  {
    LengthBounds(a, b);
  }

  /** One entry of the table: the distance of the first `i` runes of `a` and the first `j` of `b`. */
  function Cell(a: string, b: string, i: nat, j: nat): nat
    requires i <= |a| && j <= |b|
  {
    Distance(a[..i], b[..j])
  }

  lemma CellStep(a: string, b: string, i: nat, j: nat)
    requires i < |a| && j < |b|
    ensures Cell(a, b, i + 1, j + 1) ==
            Min(Min(Cell(a, b, i, j + 1) + 1, Cell(a, b, i + 1, j) + 1), Cell(a, b, i, j) + Change(a[i], b[j]))
    ensures Cell(a, b, 0, j) == j && Cell(a, b, 0, j + 1) == j + 1
    ensures Cell(a, b, i, 0) == i && Cell(a, b, i + 1, 0) == i + 1
  {
    assert a[..i + 1][..i] == a[..i] && b[..j + 1][..j] == b[..j];
  }

  /** The borders of the table, and its last entry. */
  lemma Corners(a: string, b: string)
    ensures forall j :: 0 <= j <= |b| ==> Cell(a, b, 0, j) == j
    ensures forall i :: 0 <= i <= |a| ==> Cell(a, b, i, 0) == i
    ensures Cell(a, b, |a|, |b|) == Distance(a, b)
  {
    assert a[..|a|] == a && b[..|b|] == b;
  }

  /** The single-column loop shared by levenshteinDistance and tokenLevenshtein. */
  method ColumnDistance(left: string, right: string) returns (d: nat)
    ensures d == Distance(left, right)
  {
    hide Distance, Cell;
    Corners(left, right);
    var column := new nat[|right| + 1](j => j);
    for i := 0 to |left|
      invariant forall j :: 0 <= j <= |right| ==> column[j] == Cell(left, right, i, j)
    {
      var prevDiagonal := column[0];
      column[0] := i + 1;
      for j := 0 to |right|
        invariant prevDiagonal == Cell(left, right, i, j)
        invariant forall k :: 0 <= k <= j ==> column[k] == Cell(left, right, i + 1, k)
        invariant forall k :: j < k <= |right| ==> column[k] == Cell(left, right, i, k)
      {
        var insertCost := column[j + 1] + 1;
        var deleteCost := column[j] + 1;
        var replaceCost := prevDiagonal;
        if left[i] != right[j] {
          replaceCost := replaceCost + 1;
        }
        prevDiagonal := column[j + 1];
        CellStep(left, right, i, j);
        column[j + 1] := Min(Min(insertCost, deleteCost), replaceCost);
      }
    }
    d := column[|right|];
  }

  method LevenshteinDistance(a: string, b: string) returns (d: nat)
    ensures d == if a == [] || b == [] then Distance(a, b) else Capped(a, b)
  {
    if a == b {
      Identity(a, b);
      return 0;
    }
    if a == [] {
      return |b|;
    }
    if b == [] {
      return |a|;
    }
    if Abs(|a| - |b|) > 2 {
      return 3;
    }
    d := ColumnDistance(a, b);
  }

  method TokenLevenshtein(left: string, right: string) returns (d: nat)
    ensures d == Capped(left, right)
  {
    if left == right {
      Identity(left, right);
      return 0;
    }
    if Abs(|left| - |right|) > 2 {
      return 3;
    }
    d := ColumnDistance(left, right);
  }

  /** The benchmark's two swapped rows. */
  method RowDistance(a: string, b: string) returns (d: nat)
    ensures d == Distance(a, b)
  {
    if a == [] {
      return |b|;
    }
    if b == [] {
      return |a|;
    }
    var prev := new nat[|b| + 1](j => j);
    var curr := new nat[|b| + 1];
    hide Distance, Cell;
    Corners(a, b);
    for i := 1 to |a| + 1
      invariant fresh(prev) && fresh(curr) && prev != curr && prev.Length == curr.Length == |b| + 1
      invariant IsRow(a, b, i - 1, prev[..])
    {
      FillRow(a, b, i, prev, curr);
      prev, curr := curr, prev;
    }
    d := prev[|b|];
  }

  predicate IsRow(a: string, b: string, i: nat, row: seq<nat>) {
    i <= |a| && |row| == |b| + 1 && forall j :: 0 <= j <= |b| ==> row[j] == Cell(a, b, i, j)
  }

  /** The inner loop: one row of the table from the one before. */
  method FillRow(a: string, b: string, i: nat, prev: array<nat>, curr: array<nat>)
    requires 1 <= i <= |a| && prev != curr && curr.Length == |b| + 1 && IsRow(a, b, i - 1, prev[..])
    modifies curr
    ensures IsRow(a, b, i, curr[..])
  {
    hide Distance, Cell, Min;
    Corners(a, b);
    curr[0] := i;
    for j := 1 to |b| + 1
      invariant forall k :: 0 <= k < j ==> curr[k] == Cell(a, b, i, k)
      invariant prev[..] == old(prev[..])
    {
      var cost := if a[i - 1] != b[j - 1] then 1 else 0;
      assert prev[..][j] == Cell(a, b, i - 1, j) && prev[..][j - 1] == Cell(a, b, i - 1, j - 1);
      EntryStep(a, b, i, j);
      curr[j] := Min3(prev[j] + 1, curr[j - 1] + 1, prev[j - 1] + cost);
    }
  }

  lemma EntryStep(a: string, b: string, i: nat, j: nat)
    requires 1 <= i <= |a| && 1 <= j <= |b|
    ensures Cell(a, b, i, j) ==
            Min3(Cell(a, b, i - 1, j) + 1, Cell(a, b, i, j - 1) + 1,
                 Cell(a, b, i - 1, j - 1) + if a[i - 1] != b[j - 1] then 1 else 0)
  {
    hide Cell, Distance;
    CellStep(a, b, i - 1, j - 1);
  }

  function Min3(a: nat, b: nat, c: nat): nat {
    if a <= b && a <= c then a else if b <= c then b else c
  }
}

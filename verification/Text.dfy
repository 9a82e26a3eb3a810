/** Whitespace handling of Go's strings package, on sequences of runes. */
module Text {
  /** unicode.IsSpace. */
  predicate IsSpace(c: char) {
    || '\t' <= c <= '\r' || c == ' ' || c == '\U{85}' || c == '\U{A0}' || c == '\U{1680}'
    || '\U{2000}' <= c <= '\U{200A}' || c == '\U{2028}' || c == '\U{2029}' || c == '\U{202F}'
    || c == '\U{205F}' || c == '\U{3000}'
  }

  /** The length of the longest prefix without spaces. */
  function WordLength(s: string): (n: nat)
    ensures n <= |s|
    ensures forall i :: 0 <= i < n ==> !IsSpace(s[i])
    ensures n < |s| ==> IsSpace(s[n])
  {
    if s == "" || IsSpace(s[0]) then 0 else 1 + WordLength(s[1..])
  }

  /** strings.Fields. */
  function Fields(s: string): seq<string>
    decreases |s|
  {
    if s == "" then []
    else if IsSpace(s[0]) then Fields(s[1..])
    else
      var n := WordLength(s);
      [s[..n]] + Fields(s[n..])
  }

  function Join(words: seq<string>): string {
    if words == [] then ""
    else if |words| == 1 then words[0]
    else words[0] + " " + Join(words[1..])
  }

  function TrimLeft(s: string): string {
    if s != "" && IsSpace(s[0]) then TrimLeft(s[1..]) else s
  }

  function TrimRight(s: string): string {
    if s != "" && IsSpace(s[|s| - 1]) then TrimRight(s[..|s| - 1]) else s
  }

  /** strings.TrimSpace. */
  function Trim(s: string): string {
    TrimRight(TrimLeft(s))
  }

  lemma Assoc<T>(a: seq<T>, b: seq<T>, c: seq<T>)
    ensures (a + b) + c == a + (b + c)
  {
  }

  lemma MoreInFront(s: string, front: string, middle: string, back: string)
    requires s != "" && s[1..] == front + middle + back
    ensures s == ([s[0]] + front) + middle + back
  {
    assert s == [s[0]] + s[1..];
  }

  lemma MoreBehind(s: string, front: string, middle: string, back: string)
    requires s != "" && s[..|s| - 1] == front + middle + back
    ensures s == front + middle + (back + [s[|s| - 1]])
  {
    assert s == s[..|s| - 1] + [s[|s| - 1]];
  }

  predicate IsWord(w: string) {
    w != "" && forall i :: 0 <= i < |w| ==> !IsSpace(w[i])
  }

  lemma {:induction false} FieldsAreWords(s: string)
    ensures forall w <- Fields(s) :: IsWord(w)
    decreases |s|
  {
    if s == "" {
    } else {
      if IsSpace(s[0]) {
        FieldsAreWords(s[1..]);
      } else {
        FieldsAreWords(s[WordLength(s)..]);
      }
    }
  }

  lemma {:induction false} WordLengthStops(x: string, y: string)
    requires y == "" || IsSpace(y[0]) || WordLength(x) < |x|
    ensures WordLength(x + y) == WordLength(x)
  {
    if x == "" {
      assert x + y == y;
    } else if !IsSpace(x[0]) {
      assert (x + y)[1..] == x[1..] + y;
      WordLengthStops(x[1..], y);
    }
  }

  /** Where a space or the end of the text follows, splitting into words splits the text. */
  lemma {:induction false} FieldsSplit(x: string, y: string)
    requires y == "" || IsSpace(y[0])
    ensures Fields(x + y) == Fields(x) + Fields(y)
    decreases |x|
  {
    if x == "" {
      assert x + y == y;
    } else if IsSpace(x[0]) {
      assert (x + y)[1..] == x[1..] + y;
      FieldsSplit(x[1..], y);
    } else {
      var n := WordLength(x);
      WordLengthStops(x, y);
      hide WordLength;
      assert (x + y)[..n] == x[..n] && (x + y)[n..] == x[n..] + y;
      FieldsSplit(x[n..], y);
      Assoc([x[..n]], Fields(x[n..]), Fields(y));
    }
  }

  lemma FieldsOfWord(w: string)
    requires IsWord(w)
    ensures Fields(w) == [w]
  {
    assert WordLength(w) == |w|;
    assert w[..|w|] == w;
  }

  /** Joined words split back into the same words. */
  lemma {:induction false} FieldsJoin(words: seq<string>)
    requires forall w <- words :: IsWord(w)
    ensures Fields(Join(words)) == words
  {
    if |words| == 1 {
      FieldsOfWord(words[0]);
    } else if |words| > 1 {
      var rest := " " + Join(words[1..]);
      assert Join(words) == words[0] + rest;
      FieldsSplit(words[0], rest);
      FieldsOfWord(words[0]);
      assert rest[1..] == Join(words[1..]);
      FieldsJoin(words[1..]);
    }
  }

  lemma {:induction false} FieldsTrimLeft(s: string)
    ensures Fields(TrimLeft(s)) == Fields(s)
  {
    if s != "" && IsSpace(s[0]) {
      FieldsTrimLeft(s[1..]);
    }
  }

  lemma {:induction false} FieldsTrimRight(s: string)
    ensures Fields(TrimRight(s)) == Fields(s)
  {
    if s != "" && IsSpace(s[|s| - 1]) {
      var front, last := s[..|s| - 1], s[|s| - 1..];
      FieldsTrimRight(front);
      assert s == front + last;
      FieldsSplit(front, last);
      assert Fields(last) == [];
    }
  }

  lemma FieldsTrim(s: string)
    ensures Fields(Trim(s)) == Fields(s)
  {
    FieldsTrimLeft(s);
    FieldsTrimRight(TrimLeft(s));
  }

  /** Nothing is left after trimming exactly if there are no words. */
  lemma {:induction false} BlankHasNoFields(s: string)
    ensures Trim(s) == "" <==> Fields(s) == []
  {
    FieldsTrim(s);
    LeftTrimmed(s);
    var t := TrimLeft(s);
    if t == "" {
    } else {
      KeepsFirst(t);
    }
  }

  lemma {:induction false} LeftTrimmed(s: string)
    ensures TrimLeft(s) != "" ==> !IsSpace(TrimLeft(s)[0])
  {
    if s != "" && IsSpace(s[0]) {
      LeftTrimmed(s[1..]);
    }
  }

  lemma {:induction false} KeepsFirst(s: string)
    requires s != "" && !IsSpace(s[0])
    ensures TrimRight(s) != "" && TrimRight(s)[0] == s[0]
  {
    if IsSpace(s[|s| - 1]) {
      KeepsFirst(s[..|s| - 1]);
    }
  }

  lemma {:induction false} RightTrimmed(s: string)
    ensures var t := TrimRight(s); (t == "" || !IsSpace(t[|t| - 1])) && t <= s
  {
    if s != "" && IsSpace(s[|s| - 1]) {
      RightTrimmed(s[..|s| - 1]);
    }
  }

  /** Trimmed text stays as it is. */
  lemma TrimStays(s: string)
    ensures Trim(Trim(s)) == Trim(s)
  {
    LeftTrimmed(s);
    RightTrimmed(TrimLeft(s));
    assert TrimLeft(Trim(s)) == Trim(s);
    assert TrimRight(Trim(s)) == Trim(s);
  }

  lemma {:induction false} AppendKeepsCount(s: string, t: string)
    ensures |Fields(s)| <= |Fields(s + t)|
    decreases |s|
  {
    if s == "" {
    } else if IsSpace(s[0]) {
      assert (s + t)[1..] == s[1..] + t;
      AppendKeepsCount(s[1..], t);
    } else {
      var n := WordLength(s);
      if n < |s| {
        WordLengthStops(s, t);
        assert (s + t)[n..] == s[n..] + t;
        AppendKeepsCount(s[n..], t);
      }
    }
  }

  lemma {:induction false} PrependKeepsCount(t: string, s: string)
    ensures |Fields(s)| <= |Fields(t + s)|
    decreases |t|
  {
    if t == "" {
      assert t + s == s;
    } else {
      PrependKeepsCount(t[1..], s);
      PrependOne(t[0], t[1..] + s);
      assert t + s == [t[0]] + (t[1..] + s);
    }
  }

  lemma PrependOne(c: char, s: string)
    ensures |Fields(s)| <= |Fields([c] + s)|
  {
    assert ([c] + s)[1..] == s;
    if !IsSpace(c) && s != "" && !IsSpace(s[0]) {
      assert ([c] + s)[WordLength([c] + s)..] == s[WordLength(s)..];
    } else if !IsSpace(c) {
      assert WordLength([c] + s) == 1;
    }
  }

  /** strings.Contains. */
  predicate Contains(s: string, part: string) {
    part <= s || (s != "" && Contains(s[1..], part))
  }

  lemma {:induction false} ContainsSplits(s: string, part: string) returns (before: string, after: string)
    requires Contains(s, part)
    ensures s == before + part + after
  {
    if part <= s {
      before, after := "", s[|part|..];
    } else {
      before, after := ContainsSplits(s[1..], part);
      before := [s[0]] + before;
    }
  }

  /** A part of a text never has more words than the text. */
  lemma PartHasFewerWords(before: string, part: string, after: string)
    ensures |Fields(part)| <= |Fields(before + part + after)|
  {
    PrependKeepsCount(before, part);
    AppendKeepsCount(before + part, after);
  }

  /** Applies `f` to every rune. */
  function Map(f: char -> char, s: string): (t: string)
    ensures |t| == |s| && forall i :: 0 <= i < |s| ==> t[i] == f(s[i])
  {
    if s == "" then "" else [f(s[0])] + Map(f, s[1..])
  }

  lemma MapConcat(f: char -> char, x: string, y: string)
    ensures Map(f, x + y) == Map(f, x) + Map(f, y)
  {
  }
}

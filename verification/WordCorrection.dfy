/** Nearest-word correction of date and voice tokens, on top of the edit distance. */
module WordCorrection {
  import opened Wrappers
  import Text
  import opened EditDistance

  /** What decoding the first rune of an empty string yields. */
  const RUNE_ERROR := '\U{FFFD}'

  function FirstRune(value: string): char {
    if value == "" then RUNE_ERROR else value[0]
  }

  predicate HasDigits(value: string) {
    exists i :: 0 <= i < |value| && '0' <= value[i] <= '9'
  }

  function TrimDots(value: string): string {
    if value != "" && value[0] == '.' then TrimDots(value[1..])
    else if value != "" && value[|value| - 1] == '.' then TrimDots(value[..|value| - 1])
    else value
  }

  /** Only dots are taken off, and all of them at both ends. */
  lemma {:induction false} TrimDotsIsExact(value: string) returns (front: string, back: string)
    ensures value == front + TrimDots(value) + back
    ensures (forall i :: 0 <= i < |front| ==> front[i] == '.') && (forall i :: 0 <= i < |back| ==> back[i] == '.')
    ensures var r := TrimDots(value); r != "" ==> r[0] != '.' && r[|r| - 1] != '.'
    decreases |value|
  {
    front, back := "", "";
    if value != "" && value[0] == '.' {
      front, back := TrimDotsIsExact(value[1..]);
      Text.MoreInFront(value, front, TrimDots(value[1..]), back);
      front := [value[0]] + front;
    } else if value != "" && value[|value| - 1] == '.' {
      front, back := TrimDotsIsExact(value[..|value| - 1]);
      Text.MoreBehind(value, front, TrimDots(value[..|value| - 1]), back);
      back := back + [value[|value| - 1]];
    }
  }

  function CorrectionLimit(token: string): nat {
    if |token| <= 3 then 0 else if |token| <= 6 then 1 else 2
  }

  /** A word that may replace `token`: same first rune, and no further away than the limit. */
  predicate Eligible(token: string, word: string, limit: nat) {
    FirstRune(token) == FirstRune(word) && Distance(token, word) <= limit
  }

  /** `choice` is the first of the nearest eligible words, or None if there is no eligible word. */
  ghost predicate IsNearest(token: string, words: seq<string>, limit: nat, choice: Option<string>) {
    match choice
    case None => forall j :: 0 <= j < |words| ==> !Eligible(token, words[j], limit)
    case Some(word) => exists i :: IsNearestAt(token, words, limit, i) && words[i] == word
  }

  ghost predicate IsNearestAt(token: string, words: seq<string>, limit: nat, i: int) {
    && 0 <= i < |words|
    && Eligible(token, words[i], limit)
    && (forall j :: 0 <= j < i && Eligible(token, words[j], limit) ==>
                      Distance(token, words[i]) < Distance(token, words[j]))
    && (forall j :: i < j < |words| && Eligible(token, words[j], limit) ==>
                      Distance(token, words[i]) <= Distance(token, words[j]))
  }

  /** The specification leaves one choice only. */
  lemma NearestIsUnique(token: string, words: seq<string>, limit: nat, c: Option<string>, d: Option<string>)
    requires IsNearest(token, words, limit, c) && IsNearest(token, words, limit, d)
    ensures c == d
  {
    if c.Some? && d.Some? {
      var i :| IsNearestAt(token, words, limit, i) && words[i] == c.value;
      var j :| IsNearestAt(token, words, limit, j) && words[j] == d.value;
      assert Eligible(token, words[i], limit) && Eligible(token, words[j], limit);
      assert !(i < j) && !(j < i);
    }
  }

  /** The best-so-far state of both correction loops after the first `n` words. */
  ghost predicate BestSoFar(token: string, words: seq<string>, limit: nat, n: nat, choice: Option<string>, best: nat)
    requires n <= |words|
  {
    && IsNearest(token, words[..n], limit, choice)
    && (choice.None? ==> best == limit + 1)
    && (choice.Some? ==> best == Distance(token, choice.value) <= limit)
  }

  lemma SkipWord(token: string, words: seq<string>, limit: nat, n: nat, choice: Option<string>, best: nat)
    requires n < |words| && BestSoFar(token, words, limit, n, choice, best)
    requires Eligible(token, words[n], limit) ==> choice.Some? && best <= Distance(token, words[n])
    ensures BestSoFar(token, words, limit, n + 1, choice, best)
  {
    assert words[..n + 1] == words[..n] + [words[n]];
    if choice.Some? {
      var i :| IsNearestAt(token, words[..n], limit, i) && words[..n][i] == choice.value;
      assert IsNearestAt(token, words[..n + 1], limit, i);
    }
  }

  lemma BestIsNearest(token: string, words: seq<string>, limit: nat, n: nat, choice: Option<string>, best: nat, j: nat)
    requires j < n <= |words| && BestSoFar(token, words, limit, n, choice, best) && Eligible(token, words[j], limit)
    ensures choice.Some? && best <= Distance(token, words[j])
  {
    hide Distance, Eligible;
    assert words[..n][j] == words[j];
    if choice.Some? {
      var i :| IsNearestAt(token, words[..n], limit, i) && words[..n][i] == choice.value;
    }
  }

  lemma TakeWord(token: string, words: seq<string>, limit: nat, n: nat, choice: Option<string>, best: nat)
    requires n < |words| && BestSoFar(token, words, limit, n, choice, best)
    requires Eligible(token, words[n], limit) && Distance(token, words[n]) < best
    ensures BestSoFar(token, words, limit, n + 1, Some(words[n]), Distance(token, words[n]))
  {
    hide Distance, Eligible;
    forall j | 0 <= j < n && Eligible(token, words[j], limit)
      ensures Distance(token, words[n]) < Distance(token, words[j])
    {
      BestIsNearest(token, words, limit, n, choice, best, j);
    }
    EligibleIsNear(token, words[n], limit);
    NearestAtLast(token, words, limit, n);
  }

  lemma EligibleIsNear(token: string, word: string, limit: nat)
    requires Eligible(token, word, limit)
    ensures Distance(token, word) <= limit
  {
  }

  lemma NearestAtLast(token: string, words: seq<string>, limit: nat, n: nat)
    requires n < |words| && Eligible(token, words[n], limit)
    requires forall j :: 0 <= j < n && Eligible(token, words[j], limit) ==>
                           Distance(token, words[n]) < Distance(token, words[j])
    ensures IsNearest(token, words[..n + 1], limit, Some(words[n]))
  {
    hide Distance, Eligible;
    var front := words[..n + 1];
    assert front[n] == words[n];
    forall j | 0 <= j < n ensures front[j] == words[j] {
    }
    assert IsNearestAt(token, front, limit, n);
  }

  /** The length prefilter and the capped distance lose no eligible word. */
  lemma FilterIsSound(token: string, word: string, limit: nat)
    requires token != "" && limit <= 2 && limit < |token|
    ensures Abs(|token| - |word|) > 2 ==> !Eligible(token, word, limit)
    ensures word == "" ==> !Eligible(token, word, limit)
    ensures Capped(token, word) <= limit <==> Distance(token, word) <= limit
  {
    LengthBounds(token, word);
    CapIsSound(token, word);
  }

  lemma NothingYet(token: string, words: seq<string>, limit: nat)
    ensures BestSoFar(token, words, limit, 0, None, limit + 1)
  {
  }

  lemma BestAtEnd(token: string, words: seq<string>, limit: nat, choice: Option<string>, best: nat)
    requires BestSoFar(token, words, limit, |words|, choice, best)
    ensures IsNearest(token, words, limit, choice)
  {
    assert words[..|words|] == words;
  }

  /**
   One token of a date phrase. Overrides and exact words come first; otherwise the token becomes
   the first of the nearest eligible vocabulary words, and stays as it is if there is none.
   */
  method NormalizeDateToken(raw: string, overrides: map<string, string>, vocabulary: seq<string>) returns (result: string)
    ensures HasDigits(raw) ==> result == raw
    ensures var token := TrimDots(raw);
            !HasDigits(raw) ==>
              if token == "" || HasDigits(token) then result == token
              else if token in overrides then result == overrides[token]
              else if token in vocabulary then result == token
              else
                var limit := if |token| < 4 then 0 else if |token| < 7 then 1 else 2;
                exists choice :: IsNearest(token, vocabulary, limit, choice)
                                 && result == if choice.Some? then choice.value else token
  {
    hide Distance, IsNearest;
    if HasDigits(raw) {
      return raw;
    }
    var token := TrimDots(raw);
    if token == "" || HasDigits(token) {
      return token;
    }
    if token in overrides {
      return overrides[token];
    }
    for i := 0 to |vocabulary|
      invariant token !in vocabulary[..i]
    {
      if token == vocabulary[i] {
        return vocabulary[i];
      }
    }
    assert vocabulary[..|vocabulary|] == vocabulary;
    NothingYet(token, vocabulary, CorrectionLimit(token));
    var limit := CorrectionLimit(token);
    var bestDistance, bestToken := limit + 1, "";
    ghost var choice: Option<string> := None;
    for i := 0 to |vocabulary|
      invariant BestSoFar(token, vocabulary, limit, i, choice, bestDistance)
      invariant if choice.Some? then bestToken == choice.value && bestToken != "" else bestToken == ""
    {
      var known := vocabulary[i];
      FilterIsSound(token, known, limit);
      if Abs(|token| - |known|) > 2 || FirstRune(token) != FirstRune(known) {
        SkipWord(token, vocabulary, limit, i, choice, bestDistance);
        continue;
      }
      var distance := LevenshteinDistance(token, known);
      if distance < bestDistance {
        TakeWord(token, vocabulary, limit, i, choice, bestDistance);
        bestDistance, bestToken, choice := distance, known, Some(known);
      } else {
        SkipWord(token, vocabulary, limit, i, choice, bestDistance);
      }
    }
    BestAtEnd(token, vocabulary, limit, choice, bestDistance);
    if bestToken != "" {
      return bestToken;
    }
    return token;
  }

  /** The loop of correctVoiceToken: the first of the nearest eligible words, the token itself if there is none. */
  method NearestToken(token: string, lexicon: seq<string>) returns (best: string)
    requires token != ""
    ensures var limit := if |token| < 4 then 0 else if |token| < 7 then 1 else 2;
            exists choice :: IsNearest(token, lexicon, limit, choice)
                             && best == if choice.Some? then choice.value else token
  {
    best := token;
    var limit := CorrectionLimit(token);
    var bestDistance := limit + 1;
    ghost var choice: Option<string> := None;
    for i := 0 to |lexicon|
      invariant BestSoFar(token, lexicon, limit, i, choice, bestDistance)
      invariant best == if choice.Some? then choice.value else token
    {
      var candidate := lexicon[i];
      FilterIsSound(token, candidate, limit);
      if Abs(|candidate| - |token|) > 2 || FirstRune(token) != FirstRune(candidate) {
        SkipWord(token, lexicon, limit, i, choice, bestDistance);
        continue;
      }
      var distance := TokenLevenshtein(token, candidate);
      if distance < bestDistance {
        TakeWord(token, lexicon, limit, i, choice, bestDistance);
        best, bestDistance, choice := candidate, distance, Some(candidate);
      } else {
        SkipWord(token, lexicon, limit, i, choice, bestDistance);
      }
    }
    assert lexicon[..|lexicon|] == lexicon;
  }

  /**
   The entries of a weekday or month table that may explain `raw`: long enough, same first rune, at
   most 2 edits away.
   */
  ghost predicate Explains(raw: string, token: string, shortest: nat) {
    |token| >= shortest && Eligible(raw, token, 2)
  }

  /**
   The lookup of weekday names (`shortest` is 3: two-letter forms only match exactly) and month
   names (`shortest` is 0). Whatever the order in which the map is walked, the answer is the
   value of some nearest entry.
   */
  method ResolveToken<V(0)>(raw: string, table: map<string, V>, shortest: nat) returns (found: bool, value: V)
    ensures raw in table ==> found && value == table[raw]
    ensures raw !in table ==>
              (found <==> exists token <- table ::
                            |token| >= shortest && FirstRune(raw) == FirstRune(token) && Distance(raw, token) <= 2)
    ensures raw !in table && found ==>
              exists token <- table :: value == table[token] && Explains(raw, token, shortest)
                                       && forall other <- table :: Explains(raw, other, shortest) ==>
                                            Distance(raw, token) <= Distance(raw, other)
  {
    if raw in table {
      return true, table[raw];
    }
    var bestDistance := 3;
    found := false;
    value := *;
    var left := table.Keys;
    ghost var best := "";
    while left != {}
      invariant left <= table.Keys
      invariant found ==>
                  && best in table && value == table[best] && Explains(raw, best, shortest)
                  && bestDistance == Distance(raw, best)
      invariant !found ==> bestDistance == 3
      invariant forall token <- table.Keys - left :: Explains(raw, token, shortest) ==>
                                                        found && bestDistance <= Distance(raw, token)
      decreases left
    {
      var token :| token in left;
      left := left - {token};
      if |token| < shortest || FirstRune(raw) != FirstRune(token) {
        continue;
      }
      var distance := LevenshteinDistance(raw, token);
      CapIsSound(raw, token);
      if distance < bestDistance {
        bestDistance, value, found, best := distance, table[token], true, token;
      }
    }
  }
}

/** Correcting the tokens of a voice transcript: which ones are left alone, and what the others become. */
module VoiceTokens {
  import opened Text
  import opened WordCorrection
  import C = Cleaner
  import N = DraftNames
  import L = DraftNameLoops

  /**
   `isDigit` and `isLetter` are the tests of Go's unicode package; `kept` lists the tokens never
   corrected, `phrases` the food lexicon, `lexicon` its tokens in whatever order they were collected.
   */
  datatype VoiceTables = VoiceTables(words: N.Words, isDigit: char -> bool, isLetter: char -> bool,
                                     kept: seq<string>, phrases: seq<string>, lexicon: seq<string>)

  /** The words of the phrase stand at position `i`. */
  predicate StandsAt(tokens: seq<string>, i: nat, phrase: string) {
    Fields(phrase) != [] && i + |Fields(phrase)| <= |tokens| && tokens[i..i + |Fields(phrase)|] == Fields(phrase)
  }

  ghost predicate Occurs(tokens: seq<string>, phrases: seq<string>) {
    exists i, k :: 0 <= i < |tokens| && 0 <= k < |phrases| && StandsAt(tokens, i, phrases[k])
  }

  /** The longest phrase that stands at `i`, the first of these; its length is 0 if there is none. */
  method LongestAt(tokens: seq<string>, i: nat, phrases: seq<string>) returns (bestLen: nat, bestPhrase: string)
    requires i < |tokens|
    ensures bestLen == 0 <==> forall k :: 0 <= k < |phrases| ==> !StandsAt(tokens, i, phrases[k])
    ensures bestLen > 0 ==>
              && bestPhrase in phrases && StandsAt(tokens, i, bestPhrase) && bestLen == |Fields(bestPhrase)|
              && forall k :: 0 <= k < |phrases| && StandsAt(tokens, i, phrases[k]) ==> |Fields(phrases[k])| <= bestLen
  {
    hide Fields;
    bestLen, bestPhrase := 0, "";
    for n := 0 to |phrases|
      invariant bestLen == 0 <==> forall k :: 0 <= k < n ==> !StandsAt(tokens, i, phrases[k])
      invariant bestLen > 0 ==>
                  && bestPhrase in phrases && StandsAt(tokens, i, bestPhrase) && bestLen == |Fields(bestPhrase)|
                  && forall k :: 0 <= k < n && StandsAt(tokens, i, phrases[k]) ==> |Fields(phrases[k])| <= bestLen
    {
      var parts := Fields(phrases[n]);
      if |parts| <= bestLen || i + |parts| > |tokens| {
        continue;
      }
      if tokens[i..i + |parts|] == parts {
        bestLen, bestPhrase := |parts|, phrases[n];
      }
    }
  }

  /**
   foodLexiconMatchesNormalized: something is found exactly if some phrase occurs anywhere, although
   the search leaps over what it has found.
   */
  method FoodLexiconMatches(tokens: seq<string>, phrases: seq<string>) returns (matches: seq<string>)
    ensures matches == [] <==> !Occurs(tokens, phrases)
    ensures forall m <- matches :: m in phrases
  {
    hide Fields, StandsAt;
    matches := [];
    var i := 0;
    while i < |tokens|
      invariant forall m <- matches :: m in phrases
      invariant matches != [] ==> Occurs(tokens, phrases)
      invariant matches == [] ==>
                  && i <= |tokens|
                  && forall n, k :: 0 <= n < i && 0 <= k < |phrases| ==> !StandsAt(tokens, n, phrases[k])
    {
      var bestLen, bestPhrase := LongestAt(tokens, i, phrases);
      if bestLen == 0 {
        i := i + 1;
        continue;
      }
      ghost var k :| 0 <= k < |phrases| && phrases[k] == bestPhrase;
      assert StandsAt(tokens, i, phrases[k]);
      matches := matches + [bestPhrase];
      i := i + bestLen;
    }
  }

  /** The tests of correctVoiceToken that leave a token alone. */
  ghost predicate IsLeftAlone(t: VoiceTables, token: string) {
    var normalized := C.PolicyText(t.words.lex, token);
    || token == ""
    || (exists i :: 0 <= i < |token| && t.isDigit(token[i]))
    || (forall i :: 0 <= i < |token| ==> !t.isLetter(token[i]))
    || N.Phrase(t.words, token) != ""
    || normalized == "" || normalized in t.kept
    || Occurs(Fields(normalized), t.phrases)
  }

  method LeavesAlone(t: VoiceTables, token: string) returns (alone: bool)
    requires t.words.Valid()
    ensures alone <==> IsLeftAlone(t, token)
  {
    hide N.Phrase, C.PolicyText, Fields, Occurs;
    if token == "" || (exists i :: 0 <= i < |token| && t.isDigit(token[i])) {
      return true;
    }
    if !exists i :: 0 <= i < |token| && t.isLetter(token[i]) {
      return true;
    }
    var _, ok := L.CanonicalProductPhrase(t.words, token);
    if ok {
      return true;
    }
    var normalized := C.PolicyText(t.words.lex, token);
    if normalized == "" || normalized in t.kept {
      return true;
    }
    var matches := FoodLexiconMatches(Fields(normalized), t.phrases);
    return matches != [];
  }

  /** A token that is not left alone becomes the first of the nearest eligible lexicon tokens, if there is one. */
  method CorrectVoiceToken(t: VoiceTables, token: string) returns (best: string)
    requires t.words.Valid()
    ensures token == "" || (exists i :: 0 <= i < |token| && t.isDigit(token[i])) ==> best == token
    ensures (forall i :: 0 <= i < |token| ==> !t.isLetter(token[i])) ==> best == token
    ensures N.Phrase(t.words, token) != "" ==> best == token
    ensures C.PolicyText(t.words.lex, token) in t.kept || C.PolicyText(t.words.lex, token) == "" ==> best == token
    ensures Occurs(Fields(C.PolicyText(t.words.lex, token)), t.phrases) ==> best == token
    ensures var normalized := C.PolicyText(t.words.lex, token);
            && (forall i :: 0 <= i < |token| ==> !t.isDigit(token[i])) && (exists i :: 0 <= i < |token| && t.isLetter(token[i]))
            && N.Phrase(t.words, token) == "" && normalized != "" && normalized !in t.kept
            && !Occurs(Fields(normalized), t.phrases) ==>
              var limit := if |token| < 4 then 0 else if |token| < 7 then 1 else 2;
              exists choice :: IsNearest(token, t.lexicon, limit, choice)
                               && best == if choice.Some? then choice.value else token
  {
    hide IsNearest, Occurs, N.Phrase, C.PolicyText, Fields;
    var alone := LeavesAlone(t, token);
    if alone {
      return token;
    }
    best := NearestToken(token, t.lexicon);
  }
}

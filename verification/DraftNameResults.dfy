/** The laws of normalizeDraftName as a whole: from the stripped name to the result. */
module DraftNameResults {
  import opened Text
  import C = Cleaner
  import opened DraftNames
  import opened DraftNameLaws

  /** Where the trimming starts: punctuation off both ends, phrases rewritten, prefixes taken off. */
  function StrippedName(w: Words, input: string): string {
    StripAll(w, Rewritten(w, Trim(TrimSet(C.FreeText(input), {'.', ',', ';', ':', '!', '?'}))))
  }

  predicate IsNoiseWord(w: Words, x: string) {
    x in w.skipped || x in w.stores || x in w.stops
  }

  /** The first `n` words are noise and the next one is not. */
  predicate DropsFront(w: Words, words: seq<string>, n: nat) {
    && n <= |words| && (forall x :: 0 <= x < n ==> IsNoiseWord(w, words[x]))
    && (n < |words| ==> !IsNoiseWord(w, words[n]))
  }

  /** A stop word behind the first word, or a "from" in front of a store. */
  predicate StopsAt(w: Words, words: seq<string>, x: nat)
    requires x < |words|
  {
    (x > 0 && words[x] in w.stops) || (words[x] in w.froms && x + 1 < |words| && words[x + 1] in w.stores)
  }

  /** The words from number `c` on go, the first place where they stop; of the others, links at the end go too. */
  predicate DropsBack(w: Words, words: seq<string>, c: nat, n: nat) {
    && n <= c <= |words|
    && (forall x :: 0 <= x < c ==> !StopsAt(w, words, x)) && (c < |words| ==> StopsAt(w, words, c))
    && (forall x :: n <= x < c ==> words[x] in w.links)
    && (c > 0 ==> n > 0) && (n > 1 ==> words[n - 1] !in w.links)
  }

  /**
   How the trimmed text becomes the result: rewritten once more; then the canonical form of a rule that
   stands in it, or else its words with the first replaced by its lead entry, or in turn the
   canonical form of a rule that stands in these.
   */
  ghost predicate Closes(w: Words, text: string, result: string) {
    var r := Rewritten(w, text);
    if !NoneStands(w.rules, r) then IsCanonicalOf(w, r, result)
    else
      var led := WithLead(w, Fields(r));
      if !NoneStands(w.rules, Join(led)) then IsCanonicalOf(w, Join(led), result) else result == Join(led)
  }

  function WithLead(w: Words, words: seq<string>): seq<string> {
    if words != [] && words[0] in w.lead then [w.lead[words[0]]] + words[1..] else words
  }

  // ---------- The stages ----------

  lemma StrippedIsNormal(w: Words, input: string)
    requires w.Valid()
    ensures IsNormal(w.lex, StrippedName(w, input))
  {
    hide IsNormal, StripAll, Rewritten, Trim;
    var base := Trim(TrimSet(C.FreeText(input), {'.', ',', ';', ':', '!', '?'}));
    RewrittenIsNormal(w, base);
    var i := StripAllLeavesAnEnd(w, Rewritten(w, base));
  }

  lemma NothingStripped(w: Words)
    requires w.Valid()
    ensures StripAll(w, Rewritten(w, "")) == "" && Finished(w, "") == ""
  {
    EmptyIsNormal(w);
    NothingStrips(w.filler);
    NothingStrips(w.action);
    NothingFinishes(w);
  }

  lemma {:induction false} NothingStrips(prefixes: seq<string>)
    ensures FirstStrip("", prefixes).None?
  {
    if prefixes == [] {
    } else {
      NothingStrips(prefixes[1..]);
    }
  }

  lemma NothingFinishes(w: Words)
    requires w.Valid()
    ensures Finished(w, "") == ""
  {
    hide Phrase, Fields, Trim, Join, CutLeading, CutTrailing, C.PolicyText;
    EmptyIsNormal(w);
    PhraseIsExact(w, "");
    forall k | 0 <= k < |w.rules| ensures !Stands(w.rules[k].found, "") {
      EmptyStandsNone(w, k);
    }
    var i := LeadingTrim(w, "");
    var c, n := TrailingTrim(w, "");
    var f := CutLeadingDropsWords(w, w.leading, "");
    var b := CutTrailingDropsWords(w, w.cuts, "");
  }

  /** The whole is the trimming of the stripped name. */
  lemma NormalNameFinishes(w: Words, input: string)
    requires w.Valid()
    ensures NormalName(w, input) == Finished(w, StrippedName(w, input))
  {
    hide Finished, StripAll, Rewritten, Trim, TrimSet, C.FreeText;
    if Trim(TrimSet(C.FreeText(input), PUNCTUATION)) == "" {
      NothingStripped(w);
    }
  }

  lemma NoiseOfWord(w: Words, x: string)
    requires w.Valid() && IsWord(x) && C.PolicyText(w.lex, x) == x
    ensures IsLeadingNoise(w, x) <==> IsNoiseWord(w, x)
    ensures IsLink(w, x) <==> x in w.links
  {
  }

  lemma LeadingTrim(w: Words, s: string) returns (n: nat)
    requires w.Valid() && IsNormal(w.lex, s) && NoneStands(w.rules, s)
    ensures var words := Fields(CutLeading(w.leading, s));
            && DropsFront(w, words, n) && TrimmedLeading(w, s) == Join(words[n..])
            && IsNormal(w.lex, TrimmedLeading(w, s)) && Fields(TrimmedLeading(w, s)) == words[n..]
  {
    hide IsNormal, Trim, Fields, Join, C.PolicyText, Phrase, CutLeading, IsLeadingNoise, IsNoiseWord;
    PhraseIsExact(w, s);
    NormalIsItself(w, s);
    var _ := CutLeadingDropsWords(w, w.leading, s);
    var cut := CutLeading(w.leading, s);
    NormalIsItself(w, cut);
    var words := Fields(cut);
    n := LeadingNoise(w, words);
    LeadingIsExact(NoiseTest(w), words);
    WordsAreNormal(w, cut);
    forall x | 0 <= x < |words| ensures IsLeadingNoise(w, words[x]) <==> IsNoiseWord(w, words[x]) {
      NoiseOfWord(w, words[x]);
    }
    StretchOfWordsIsNormal(w, cut, n, |words|);
    assert words[n..|words|] == words[n..];
  }

  lemma {:induction false} ScanWithoutPhrase(skips: nat -> bool, phrase: nat -> string, cuts: nat -> bool, i: nat, n: nat) returns (c: nat)
    requires i <= n && forall x: nat :: i <= x < n ==> !skips(x) && phrase(x) == ""
    ensures i <= c <= n && Scan(skips, phrase, cuts, i, n) == Before(c)
    ensures (forall x: nat :: i <= x < c ==> !cuts(x)) && (c < n ==> cuts(c))
    decreases n - i
  {
    if i == n || cuts(i) {
      c := i;
    } else {
      c := ScanWithoutPhrase(skips, phrase, cuts, i + 1, n);
    }
  }

  lemma CutOfWords(w: Words, words: seq<string>, x: nat)
    requires w.Valid() && x < |words| && forall y <- words :: IsWord(y) && C.PolicyText(w.lex, y) == y
    ensures CutTest(w, words)(x) <==> StopsAt(w, words, x)
    ensures !SkipTest(w, words)(x)
  {
    hide C.PolicyText;
    assert words[x] in words;
    if x + 1 < |words| {
      assert words[x + 1] in words;
    }
  }

  lemma NoPhraseUpTo(w: Words, words: seq<string>, x: nat)
    requires w.Valid() && x < |words| && NoneStands(w.rules, Join(words))
    requires forall y <- words :: IsWord(y) && IsNormal(w.lex, y)
    ensures PhraseUpTo(w, words)(x) == ""
  {
    hide Phrase, Join, NoneStands, IsNormal;
    StretchStandsNone(w, words, 0, x + 1);
    assert words[0..x + 1] == words[..x + 1];
    forall y <- words[..x + 1] ensures IsWord(y) && Folded(w.lex, y) {
      assert y in words;
      NormalIsFolded(w.lex, y);
    }
    JoinIsNormal(w.lex, words[..x + 1]);
    PhraseIsExact(w, Join(words[..x + 1]));
  }

  lemma TrailingTrim(w: Words, s: string) returns (c: nat, n: nat)
    requires w.Valid() && IsNormal(w.lex, s) && NoneStands(w.rules, s)
    ensures var words := Fields(CutTrailing(w.cuts, s));
            && DropsBack(w, words, c, n) && TrimmedTrailing(w, s) == Join(words[..n])
            && IsNormal(w.lex, TrimmedTrailing(w, s)) && Fields(TrimmedTrailing(w, s)) == words[..n]
  {
    hide IsNormal, Trim, Fields, Join, C.PolicyText, Phrase, CutTrailing, NoneStands, Scan;
    PhraseIsExact(w, s);
    NormalIsItself(w, s);
    var cut := CutTrailing(w.cuts, s);
    var k := CutTrailingDropsWords(w, w.cuts, s);
    NormalIsItself(w, cut);
    var words := Fields(cut);
    WordsAreNormal(w, cut);
    StretchStandsNone(w, Fields(s), 0, k);
    assert Fields(s)[0..k] == words;
    hide CutTest, SkipTest, PhraseUpTo, IsLink;
    forall x: nat | x < |words|
      ensures !SkipTest(w, words)(x) && PhraseUpTo(w, words)(x) == "" && (CutTest(w, words)(x) <==> StopsAt(w, words, x))
    {
      CutOfWords(w, words, x);
      NoPhraseUpTo(w, words, x);
    }
    hide StopsAt;
    c := ScanWithoutPhrase(SkipTest(w, words), PhraseUpTo(w, words), CutTest(w, words), 0, |words|);
    n := WithoutLinks(w, words, c);
    WithoutLastIsExact(LinkTest(w), words, c);
    forall x | 0 <= x < |words| ensures LinkTest(w)(words[x]) <==> words[x] in w.links {
      NoiseOfWord(w, words[x]);
    }
    StretchOfWordsIsNormal(w, cut, 0, n);
    assert words[0..n] == words[..n];
  }

  /** The end of the name's way, from the trimmed text on. */
  function Closed(w: Words, text: string): string {
    var second := Rewritten(w, text);
    var third := LeadCanonical(w, second);
    OrPhrase(w, second, OrPhrase(w, third, Trim(third)))
  }

  lemma LeadIsFirstWord(w: Words, s: string)
    requires w.Valid() && IsNormal(w.lex, s)
    ensures LeadCanonical(w, s) == Join(WithLead(w, Fields(s))) && IsNormal(w.lex, LeadCanonical(w, s))
  {
    hide IsNormal, Trim, Fields, C.PolicyText;
    NormalIsItself(w, s);
    LeadCanonicalIsNormal(w, s);
    WordsAreNormal(w, s);
    var words := Fields(s);
    if words != [] && words[0] in w.lead {
      assert words[0 := w.lead[words[0]]] == [w.lead[words[0]]] + words[1..];
    }
  }

  lemma ClosedCloses(w: Words, text: string)
    requires w.Valid()
    ensures Closes(w, text, Closed(w, text))
  {
    hide IsNormal, Trim, Fields, Join, C.PolicyText, Phrase, Rewritten, NoneStands, LeadCanonical, WithLead, IsCanonicalOf;
    RewrittenIsNormal(w, text);
    var second := Rewritten(w, text);
    PhraseIsExact(w, second);
    LeadIsFirstWord(w, second);
    PhraseIsExact(w, LeadCanonical(w, second));
    NormalIsItself(w, LeadCanonical(w, second));
  }

  /**
   Where no canonical phrase stands in the stripped name: leading phrases and then noise words go in
   front, cut phrases, then everything from the first stop on, then linking words go behind, leading
   phrases and noise words once more in front; and the rest is closed.
   */
  ghost predicate PassesStages(w: Words, s: string, i: nat, c: nat, n: nat, k: nat, result: string) {
    var front := Fields(CutLeading(w.leading, s));
    && DropsFront(w, front, i)
    && var back := Fields(CutTrailing(w.cuts, Join(front[i..])));
       && DropsBack(w, back, c, n)
       && var again := Fields(CutLeading(w.leading, Join(back[..n])));
          && DropsFront(w, again, k)
          && Closes(w, Join(again[k..]), result)
  }

  lemma EndStandsNone(w: Words, s: string, t: string, i: nat, j: nat)
    requires w.Valid() && IsNormal(w.lex, s) && IsNormal(w.lex, t) && NoneStands(w.rules, s)
    requires i <= j <= |Fields(s)| && Fields(t) == Fields(s)[i..j]
    ensures NoneStands(w.rules, t)
  {
    hide IsNormal, Fields, NoneStands;
    NormalIsItself(w, s);
    NormalIsItself(w, t);
    StretchStandsNone(w, Fields(s), i, j);
  }

  lemma FrontIsWithin(w: Words, words: seq<string>, n: nat)
    requires DropsFront(w, words, n)
    ensures n <= |words|
  {
  }

  /** The leading trim keeps an end of the words. */
  lemma LeadingKeepsEnd(w: Words, s: string) returns (i: nat, n: nat)
    requires w.Valid() && IsNormal(w.lex, s) && NoneStands(w.rules, s)
    ensures var words := Fields(CutLeading(w.leading, s));
            && DropsFront(w, words, n) && TrimmedLeading(w, s) == Join(words[n..])
            && IsNormal(w.lex, TrimmedLeading(w, s)) && Fields(TrimmedLeading(w, s)) == words[n..]
    ensures i <= |Fields(s)| && Fields(TrimmedLeading(w, s)) == Fields(s)[i..]
    ensures NoneStands(w.rules, TrimmedLeading(w, s))
  {
    hide IsNormal, Fields, NoneStands, CutLeading, DropsFront, TrimmedLeading;
    n := LeadingTrim(w, s);
    var k := CutLeadingDropsWords(w, w.leading, s);
    FrontIsWithin(w, Fields(CutLeading(w.leading, s)), n);
    i := k + n;
    assert Fields(s)[k..][i - k..] == Fields(s)[i..];
    assert Fields(s)[i..] == Fields(s)[i..|Fields(s)|];
    EndStandsNone(w, s, TrimmedLeading(w, s), i, |Fields(s)|);
  }

  /** The trailing trim keeps a beginning of the words. */
  lemma TrailingKeepsBeginning(w: Words, s: string) returns (c: nat, n: nat)
    requires w.Valid() && IsNormal(w.lex, s) && NoneStands(w.rules, s)
    ensures var words := Fields(CutTrailing(w.cuts, s));
            && DropsBack(w, words, c, n) && TrimmedTrailing(w, s) == Join(words[..n])
            && IsNormal(w.lex, TrimmedTrailing(w, s)) && Fields(TrimmedTrailing(w, s)) == words[..n]
            && n <= |words| <= |Fields(s)| && Fields(TrimmedTrailing(w, s)) == Fields(s)[..n]
    ensures NoneStands(w.rules, TrimmedTrailing(w, s))
  {
    hide IsNormal, Fields, NoneStands, CutTrailing, StopsAt, TrimmedTrailing;
    c, n := TrailingTrim(w, s);
    var k := CutTrailingDropsWords(w, w.cuts, s);
    assert Fields(s)[..k][..n] == Fields(s)[..n];
    assert Fields(s)[0..n] == Fields(s)[..n];
    EndStandsNone(w, s, TrimmedTrailing(w, s), 0, n);
  }

  lemma NameIsClosed(w: Words, input: string)
    requires w.Valid() && NoneStands(w.rules, StrippedName(w, input))
    ensures var first := TrimmedLeading(w, StrippedName(w, input));
            NoneStands(w.rules, first) ==>
              NormalName(w, input) == Closed(w, TrimmedLeading(w, TrimmedTrailing(w, first)))
  {
    hide StrippedName, TrimmedLeading, TrimmedTrailing, Rewritten, LeadCanonical, Phrase, IsNormal, NoneStands, Trim;
    var s := StrippedName(w, input);
    StrippedIsNormal(w, input);
    NormalNameFinishes(w, input);
    PhraseIsExact(w, s);
    if NoneStands(w.rules, TrimmedLeading(w, s)) {
      TrimmedLeadingIsNormal(w, s);
      PhraseIsExact(w, TrimmedLeading(w, s));
    }
  }

  /** Every name without a canonical phrase in its stripped form passes the stages. */
  lemma NamePassesStages(w: Words, input: string) returns (i: nat, c: nat, n: nat, k: nat, l: nat, j: nat)
    requires w.Valid() && NoneStands(w.rules, StrippedName(w, input))
    ensures PassesStages(w, StrippedName(w, input), i, c, n, k, NormalName(w, input))
    ensures var s := StrippedName(w, input);
            var front := Fields(CutLeading(w.leading, s));
            var back := Fields(CutTrailing(w.cuts, Join(front[i..])));
            var again := Fields(CutLeading(w.leading, Join(back[..n])));
            && l <= |Fields(s)| && front[i..] == Fields(s)[l..]
            && n <= |front[i..]| && back[..n] == front[i..][..n] && j <= n && again[k..] == back[..n][j..]
  {
    hide StrippedName, IsNormal, NoneStands, Fields, CutLeading, CutTrailing, Join, Closes, NormalName, TrimmedLeading, TrimmedTrailing;
    var s := StrippedName(w, input);
    StrippedIsNormal(w, input);
    l, i := LeadingKeepsEnd(w, s);
    var first := TrimmedLeading(w, s);
    c, n := TrailingKeepsBeginning(w, first);
    var second := TrimmedTrailing(w, first);
    j, k := LeadingKeepsEnd(w, second);
    NameIsClosed(w, input);
    ClosedCloses(w, TrimmedLeading(w, second));
  }

  // ---------- Laws of the result ----------

  /** Where a canonical phrase stands in the stripped name, the result is the canonical form of the rule that wins. */
  lemma CanonicalPhraseWins(w: Words, input: string)
    requires w.Valid() && !NoneStands(w.rules, StrippedName(w, input))
    ensures IsCanonicalOf(w, StrippedName(w, input), NormalName(w, input))
  {
    hide StrippedName, TrimmedLeading, Trimmed, LeadCanonical, Phrase, IsNormal, NoneStands, IsCanonicalOf;
    StrippedIsNormal(w, input);
    NormalNameFinishes(w, input);
    PhraseIsExact(w, StrippedName(w, input));
  }

  /** Free of what the trimming takes off: noise in front, stops anywhere, a from-store pair, a link at the end. */
  ghost predicate IsTrimmedWords(w: Words, words: seq<string>) {
    && (words != [] ==> !IsNoiseWord(w, words[0]))
    && (forall x :: 0 <= x < |words| ==> words[x] !in w.stops)
    && (forall x :: 0 <= x < |words| - 1 ==> !(words[x] in w.froms && words[x + 1] in w.stores))
    && (|words| > 1 ==> words[|words| - 1] !in w.links)
  }

  ghost predicate NoCutStands(w: Words, s: string) {
    forall cut <- w.cuts :: !Contains(Padded(s), cut)
  }

  lemma StagesTrim(w: Words, front: seq<string>, i: nat, back: seq<string>, c: nat, n: nat, again: seq<string>, k: nat, j: nat)
    requires DropsFront(w, front, i) && DropsBack(w, back, c, n) && DropsFront(w, again, k)
    requires n <= |front[i..]| && back[..n] == front[i..][..n] && j <= n && again[k..] == back[..n][j..]
    ensures IsTrimmedWords(w, again[k..])
  {
    var words := again[k..];
    forall x | 0 <= x < |words| ensures words[x] !in w.stops && words[x] == back[j + x] {
      assert words[x] == back[..n][j..][x];
      assert !StopsAt(w, back, j + x);
      if j + x == 0 {
        assert back[0] == back[..n][0] == front[i..][0] == front[i];
      }
    }
    forall x | 0 <= x < |words| - 1 ensures !(words[x] in w.froms && words[x + 1] in w.stores) {
      assert !StopsAt(w, back, j + x);
    }
  }

  /**
   Where no canonical phrase stands in the stripped name, the result comes from a stretch of its words
   that is free of what the trimming takes off, and in which no cut phrase stands.
   */
  lemma NameIsAStretch(w: Words, input: string) returns (l: nat, r: nat)
    requires w.Valid() && NoneStands(w.rules, StrippedName(w, input))
    ensures l <= r <= |Fields(StrippedName(w, input))|
    ensures var words := Fields(StrippedName(w, input))[l..r];
            && IsTrimmedWords(w, words) && (words != [] ==> NoCutStands(w, Join(words)))
            && Closes(w, Join(words), NormalName(w, input))
  {
    hide StrippedName, IsNormal, NoneStands, Fields, CutLeading, CutTrailing, Join, Closes, NormalName, IsNoiseWord, StopsAt,
         IsTrimmedWords, Contains;
    var s := StrippedName(w, input);
    var i, c, n, k, start, j := NamePassesStages(w, input);
    var front := Fields(CutLeading(w.leading, s));
    var back := Fields(CutTrailing(w.cuts, Join(front[i..])));
    var again := Fields(CutLeading(w.leading, Join(back[..n])));
    StagesTrim(w, front, i, back, c, n, again, k, j);
    l, r := start + j, start + n;
    assert Fields(s)[start..][..n][j..] == Fields(s)[l..r];
    if again[k..] != [] {
      StrippedIsNormal(w, input);
      NormalIsFolded(w.lex, s);
      FieldsAreFolded(w.lex, s);
      NoCutIsLeft(w, front[i..], n, j);
      assert back[..n][j..] == back[j..n];
    }
  }

  lemma NoCutIsLeft(w: Words, words: seq<string>, n: nat, j: nat)
    requires w.Valid() && forall x <- words :: IsWord(x) && Folded(w.lex, x)
    requires var back := Fields(CutTrailing(w.cuts, Join(words))); j < n <= |back|
    ensures NoCutStands(w, Join(Fields(CutTrailing(w.cuts, Join(words)))[j..n]))
  {
    hide IsNormal, Fields, Join, CutTrailing, Contains;
    JoinIsNormal(w.lex, words);
    var _ := CutTrailingDropsWords(w, w.cuts, Join(words));
    var cut := CutTrailing(w.cuts, Join(words));
    NormalIsItself(w, cut);
    EmptyIsNormal(w);
    forall q <- w.cuts ensures !Contains(Padded(Join(Fields(cut)[j..n])), q) {
      if Contains(Padded(Join(Fields(cut)[j..n])), q) {
        StretchContains(Fields(cut), j, n, q);
      }
    }
  }

  /** No phrase of the tables stands in the text: no canonical, leading or cut phrase and no rewrite. */
  ghost predicate IsPlain(w: Words, s: string) {
    && NoneStands(w.rules, s) && NoneStands(w.rewrites, s)
    && (forall p <- w.leading :: !Stands(p, s)) && NoCutStands(w, s)
  }

  lemma FrontStands(s: string, p: string)
    requires p + " " <= s
    ensures Stands(p, s)
  {
    assert " " + (p + " ") <= Padded(s);
    assert " " + (p + " ") == Padded(p);
  }

  lemma EndStands(front: string, s: string, p: string)
    requires Stands(p, s)
    ensures Stands(p, front + " " + s)
  {
    ContainsInside(" " + front, Padded(s), "", Padded(p));
    assert " " + front + Padded(s) + "" == Padded(front + " " + s);
  }

  lemma NothingInFront(w: Words, s: string)
    requires forall p <- w.leading :: !Stands(p, s)
    ensures CutLeading(w.leading, s) == s
  {
    hide Contains;
    forall p <- w.leading ensures !(p + " " <= s) {
      if p + " " <= s {
        FrontStands(s, p);
      }
    }
    CutLeadingStays(w.leading, s);
  }

  /** A stretch of plain text that is not empty is plain. */
  lemma StretchIsPlain(w: Words, words: seq<string>, i: nat, j: nat)
    requires w.Valid() && i < j <= |words| && IsPlain(w, Join(words))
    ensures IsPlain(w, Join(words[i..j]))
  {
    hide Join, Contains;
    StretchStandsNone(w, words, i, j);
    forall part | Contains(Padded(Join(words[i..j])), part) ensures Contains(Padded(Join(words)), part) {
      StretchContains(words, i, j, part);
    }
  }

  /** Plain text is closed by its lead entry, or the canonical phrase that stands once that is there. */
  ghost predicate ClosesPlain(w: Words, words: seq<string>, result: string) {
    var led := WithLead(w, words);
    if NoneStands(w.rules, Join(led)) then result == Join(led) else IsCanonicalOf(w, Join(led), result)
  }

  lemma PlainCloses(w: Words, text: string, result: string)
    requires w.Valid() && IsNormal(w.lex, text) && (text == "" || IsPlain(w, text)) && Closes(w, text, result)
    ensures ClosesPlain(w, Fields(text), result)
  {
    hide IsNormal, Fields, Join, Contains, WithLead, IsCanonicalOf;
    if text == "" {
      NothingRewritten(w);
      NoneInNothing(w);
    } else {
      RewrittenStays(w, text);
    }
  }

  lemma NothingRewritten(w: Words)
    ensures Rewritten(w, "") == ""
  {
  }

  lemma NoneInNothing(w: Words)
    requires w.Valid()
    ensures NoneStands(w.rules, "")
  {
    forall k | 0 <= k < |w.rules| ensures !Stands(w.rules[k].found, "") {
      EmptyStandsNone(w, k);
    }
  }

  /** On plain text each trim drops words only. */
  lemma PlainLeadingTrim(w: Words, s: string) returns (n: nat)
    requires w.Valid() && IsNormal(w.lex, s) && IsPlain(w, s)
    ensures DropsFront(w, Fields(s), n) && Fields(TrimmedLeading(w, s)) == Fields(s)[n..]
    ensures IsNormal(w.lex, TrimmedLeading(w, s)) && TrimmedLeading(w, s) == Join(Fields(s)[n..])
  {
    hide IsNormal, Fields, Join, Contains, TrimmedLeading;
    NothingInFront(w, s);
    n := LeadingTrim(w, s);
  }

  lemma PlainTrailingTrim(w: Words, s: string) returns (c: nat, n: nat)
    requires w.Valid() && IsNormal(w.lex, s) && IsPlain(w, s)
    ensures DropsBack(w, Fields(s), c, n) && Fields(TrimmedTrailing(w, s)) == Fields(s)[..n]
    ensures IsNormal(w.lex, TrimmedTrailing(w, s)) && TrimmedTrailing(w, s) == Join(Fields(s)[..n])
  {
    hide IsNormal, Fields, Join, Contains, TrimmedTrailing;
    var _ := CutTrailingDropsWords(w, w.cuts, s);
    c, n := TrailingTrim(w, s);
  }

  lemma EmptyTrims(w: Words)
    requires w.Valid()
    ensures TrimmedLeading(w, "") == "" && TrimmedTrailing(w, "") == ""
  {
    hide IsNormal, Fields, Join, TrimmedLeading, TrimmedTrailing;
    NoneInNothing(w);
    EmptyIsNormal(w);
    var i, n := LeadingKeepsEnd(w, "");
    var c, m := TrailingKeepsBeginning(w, "");
    NormalIsItself(w, TrimmedLeading(w, ""));
    NormalIsItself(w, TrimmedTrailing(w, ""));
  }

  /** What is left by the trailing trim does not begin with noise again. */
  lemma PlainTrimsOnce(w: Words, t: string, u: string, n: nat)
    requires w.Valid() && IsNormal(w.lex, t) && IsNormal(w.lex, u) && n <= |Fields(t)| && Fields(u) == Fields(t)[..n]
    requires t == "" || IsPlain(w, t)
    requires Fields(t) != [] ==> !IsNoiseWord(w, Fields(t)[0])
    ensures TrimmedLeading(w, u) == u && (u == "" || IsPlain(w, u))
  {
    hide IsNormal, Fields, Join, Contains, TrimmedLeading, IsPlain;
    EmptyIsNormal(w);
    NormalIsItself(w, t);
    NormalIsItself(w, u);
    if n == 0 {
      EmptyTrims(w);
    } else {
      StretchIsPlain(w, Fields(t), 0, n);
      assert Fields(t)[0..n] == Fields(t)[..n];
      var m := PlainLeadingTrim(w, u);
      assert Fields(u)[m..] == Fields(u);
    }
  }

  /**
   Where no phrase of the tables stands in the stripped name, the result is determined word by word:
   the noise in front goes, then everything from the first stop on, then the links at the end; the
   first word left becomes its lead entry.
   */
  lemma NameIsExact(w: Words, input: string) returns (i: nat, c: nat, n: nat)
    requires w.Valid() && IsPlain(w, StrippedName(w, input))
    ensures var words := Fields(StrippedName(w, input));
            && DropsFront(w, words, i) && DropsBack(w, words[i..], c, n)
            && ClosesPlain(w, words[i..][..n], NormalName(w, input))
  {
    hide StrippedName, IsNormal, NoneStands, Fields, Join, Closes, ClosesPlain, Closed, NormalName, TrimmedLeading,
         TrimmedTrailing, Stands, NoCutStands, IsNoiseWord, StopsAt;
    var s := StrippedName(w, input);
    StrippedIsNormal(w, input);
    NormalIsItself(w, s);
    i := PlainLeadingTrim(w, s);
    var first := TrimmedLeading(w, s);
    var l, _ := LeadingKeepsEnd(w, s);
    EmptyIsNormal(w);
    NormalIsItself(w, first);
    if Fields(first) != [] {
      StretchIsPlain(w, Fields(s), i, |Fields(s)|);
      assert Fields(s)[i..|Fields(s)|] == Fields(s)[i..];
      c, n := PlainTrailingTrim(w, first);
    } else {
      EmptyTrims(w);
      c, n := 0, 0;
      assert Fields(s)[i..][..0] == [];
    }
    var second := TrimmedTrailing(w, first);
    PlainTrimsOnce(w, first, second, n);
    NameIsClosed(w, input);
    ClosedCloses(w, second);
    PlainCloses(w, second, NormalName(w, input));
  }

  /** A leading phrase in front makes no difference, if no other phrase comes into play. */
  lemma LeadingPhraseIsDropped(w: Words, a: string, b: string, n: nat)
    requires w.Valid() && n < |w.leading| && NoneStands(w.rules, StrippedName(w, a))
    requires StrippedName(w, a) == w.leading[n] + " " + StrippedName(w, b)
    requires forall k :: 0 <= k < n ==> !(w.leading[k] + " " <= StrippedName(w, a))
    requires forall k :: 0 <= k < |w.leading| ==> !(w.leading[k] + " " <= StrippedName(w, b))
    ensures NormalName(w, a) == NormalName(w, b)
  {
    hide StrippedName, IsNormal, Contains, Closed, NormalName, TrimmedTrailing;
    var s, t := StrippedName(w, a), StrippedName(w, b);
    StrippedIsNormal(w, a);
    StrippedIsNormal(w, b);
    forall k | 0 <= k < |w.rules| ensures !Stands(w.rules[k].found, t) {
      if Stands(w.rules[k].found, t) {
        EndStands(w.leading[n], t, w.rules[k].found);
      }
    }
    CutLeadingTakes(w, w.leading, n, t);
    CutLeadingStays(w.leading, t);
    SameTrimmedLeading(w, s, t);
    hide TrimmedLeading;
    var _, _ := LeadingKeepsEnd(w, s);
    NameIsClosed(w, a);
    NameIsClosed(w, b);
  }

  lemma SameTrimmedLeading(w: Words, s: string, t: string)
    requires w.Valid() && IsNormal(w.lex, s) && IsNormal(w.lex, t)
    requires NoneStands(w.rules, s) && NoneStands(w.rules, t)
    requires CutLeading(w.leading, s) == CutLeading(w.leading, t)
    ensures TrimmedLeading(w, s) == TrimmedLeading(w, t)
  {
    hide IsNormal, NoneStands, Phrase, Trim, Fields, Join, LeadingNoise;
    PhraseIsExact(w, s);
    PhraseIsExact(w, t);
    NormalIsItself(w, s);
    NormalIsItself(w, t);
  }

  /** The first of the cut phrases that stands takes everything behind it along, if no other one stands. */
  lemma {:induction false} CutTrailingTakes(w: Words, cuts: seq<string>, q: nat, s: string, front: string)
    requires w.Valid() && IsNormal(w.lex, s) && IsNormal(w.lex, front) && q < |cuts|
    requires forall cut <- cuts :: |cut| > 1 && cut[0] == ' '
    requires front != "" && front <= s && Index(Padded(s), cuts[q]) == |front| + 1
    requires forall k :: 0 <= k < |cuts| && k != q ==> !Contains(Padded(s), cuts[k])
    ensures CutTrailing(cuts, s) == front == CutTrailing(cuts, front)
  {
    hide IsNormal, Fields, Contains, Trim, CutAt;
    var m := |cuts| - 1;
    IndexIsFirst(Padded(s), cuts[q]);
    var n := CutInside(w, s, cuts[q], |front| + 1);
    assert s[..|front|] == front;
    forall k | 0 <= k < |cuts| ensures !Contains(Padded(front), cuts[k]) {
      if k != q {
        CutBringsNothing(w, s, front, n, cuts[k]);
      }
    }
    forall cut <- cuts ensures !Contains(Padded(front), cut) {
    }
    var _ := CutTrailingDropsWords(w, cuts, front);
    if q == m {
      var _ := CutTrailingDropsWords(w, cuts[..m], s);
    } else {
      CutTrailingTakes(w, cuts[..m], q, s, front);
      var _ := CutAtDropsWords(w, front, cuts[m]);
    }
  }

  lemma SameTrimmedTrailing(w: Words, s: string, t: string)
    requires w.Valid() && IsNormal(w.lex, s) && IsNormal(w.lex, t)
    requires NoneStands(w.rules, s) && NoneStands(w.rules, t)
    requires CutTrailing(w.cuts, s) == CutTrailing(w.cuts, t)
    ensures TrimmedTrailing(w, s) == TrimmedTrailing(w, t)
  {
    hide IsNormal, NoneStands, Phrase, Trim, Fields, Join, FindCut, WithoutLinks;
    PhraseIsExact(w, s);
    PhraseIsExact(w, t);
    NormalIsItself(w, s);
    NormalIsItself(w, t);
  }

  /** Without a leading phrase or noise in front, the leading trim does nothing. */
  lemma LeadingTrimStays(w: Words, s: string)
    requires w.Valid() && IsNormal(w.lex, s) && NoneStands(w.rules, s)
    requires forall p <- w.leading :: !(p + " " <= s)
    requires Fields(s) != [] && !IsNoiseWord(w, Fields(s)[0])
    ensures TrimmedLeading(w, s) == s
  {
    hide IsNormal, NoneStands, Fields, Join, TrimmedLeading;
    CutLeadingStays(w.leading, s);
    var n := LeadingTrim(w, s);
    NormalIsItself(w, s);
    assert Fields(s)[0..] == Fields(s);
  }

  /**
   A cut phrase and everything behind it make no difference, if no other phrase comes into play and what
   is in front of it begins with a word that is no noise.
   */
  lemma CutPhraseIsDropped(w: Words, a: string, b: string, q: nat)
    requires w.Valid() && q < |w.cuts| && NoneStands(w.rules, StrippedName(w, a))
    requires var s, t := StrippedName(w, a), StrippedName(w, b);
             && t != "" && t <= s && Index(Padded(s), w.cuts[q]) == |t| + 1
             && (forall k :: 0 <= k < |w.cuts| && k != q ==> !Contains(Padded(s), w.cuts[k]))
             && (forall p <- w.leading :: !(p + " " <= s))
             && !IsNoiseWord(w, s[..WordLength(s)])
    ensures NormalName(w, a) == NormalName(w, b)
  {
    hide StrippedName, IsNormal, Contains, Closed, NormalName, CutAt, CutTrailing;
    var s, t := StrippedName(w, a), StrippedName(w, b);
    StrippedIsNormal(w, a);
    StrippedIsNormal(w, b);
    CutTrailingTakes(w, w.cuts, q, s, t);
    var n := CutTrailingDropsWords(w, w.cuts, s);
    assert Fields(s)[..n] == Fields(s)[0..n];
    EndStandsNone(w, s, t, 0, n);
    FirstWordOfStart(w, s, t, n);
    LeadingTrimStays(w, s);
    LeadingTrimStays(w, t);
    SameTrimmedTrailing(w, s, t);
    NameIsClosed(w, a);
    NameIsClosed(w, b);
  }

  lemma FirstWordOfStart(w: Words, s: string, t: string, n: nat)
    requires w.Valid() && IsNormal(w.lex, s) && IsNormal(w.lex, t) && t != "" && t <= s
    requires n <= |Fields(s)| && Fields(t) == Fields(s)[..n]
    ensures Fields(s) != [] && Fields(t) != [] && Fields(s)[0] == Fields(t)[0] == s[..WordLength(s)]
    ensures forall p: string :: p + " " <= t ==> p + " " <= s
  {
    NormalIsItself(w, t);
    EmptyIsNormal(w);
  }
}

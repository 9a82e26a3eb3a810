/**
 What normalizeDraftName does to a name, stated on its result: which words it keeps and drops, and
 when a canonical product phrase takes the place of the name.
 */
module DraftNameLaws {
  import opened Text
  import C = Cleaner
  import opened DraftNames

  // ---------- Words of normal text ----------

  lemma WordsAreNormal(w: Words, s: string)
    requires w.Valid() && Folded(w.lex, s)
    ensures forall x <- Fields(s) :: IsWord(x) && IsNormal(w.lex, x) && C.PolicyText(w.lex, x) == x
  {
    hide C.PolicyText, Fields;
    FieldsAreFolded(w.lex, s);
    forall x <- Fields(s) ensures IsNormal(w.lex, x) && C.PolicyText(w.lex, x) == x {
      WordIsNormal(w.lex, x);
      NormalIsPolicyText(w.lex, x);
    }
  }

  lemma WordIsNormal(lex: C.Lexicon, x: string)
    requires IsWord(x) && Folded(lex, x)
    ensures IsNormal(lex, x)
  {
  }

  lemma {:induction false} JoinSplits(words: seq<string>, i: nat)
    requires 0 < i < |words|
    ensures Join(words) == Join(words[..i]) + " " + Join(words[i..])
  {
    if i == 1 {
      assert words[..1] == [words[0]];
    } else {
      JoinSplits(words[1..], i - 1);
      assert words[1..][..i - 1] == words[..i][1..] && words[1..][i - 1..] == words[i..];
      var a, b := Join(words[..i][1..]), Join(words[i..]);
      assert Join(words[..i]) == words[0] + " " + a;
      assert words[0] + " " + (a + " " + b) == (words[0] + " " + a) + " " + b;
    }
  }

  /** Between blanks at both ends. */
  function Padded(s: string): string {
    " " + s + " "
  }

  lemma {:induction false} ContainsInside(before: string, s: string, after: string, part: string)
    requires Contains(s, part)
    ensures Contains(before + s + after, part)
    decreases |before|, |s|
  {
    var t := before + s + after;
    if before != "" {
      ContainsInside(before[1..], s, after, part);
      assert t[1..] == before[1..] + s + after;
    } else if part <= s {
      assert t == s + after;
    } else {
      ContainsInside("", s[1..], after, part);
      assert t[1..] == "" + s[1..] + after;
    }
  }

  /** What stands in a stretch of the words stands in the whole. */
  lemma StretchContains(words: seq<string>, i: nat, j: nat, part: string)
    requires i < j <= |words| && Contains(Padded(Join(words[i..j])), part)
    ensures Contains(Padded(Join(words)), part)
  {
    hide Join, Contains;
    var stretch := Padded(Join(words[i..j]));
    if j < |words| {
      JoinSplits(words[i..], j - i);
      assert words[i..][..j - i] == words[i..j] && words[i..][j - i..] == words[j..];
      ContainsInside("", stretch, Join(words[j..]) + " ", part);
      assert "" + stretch + (Join(words[j..]) + " ") == Padded(Join(words[i..]));
    } else {
      assert words[i..j] == words[i..];
    }
    if i > 0 {
      JoinSplits(words, i);
      ContainsInside(" " + Join(words[..i]), Padded(Join(words[i..])), "", part);
      assert " " + Join(words[..i]) + Padded(Join(words[i..])) + "" == Padded(Join(words));
    } else {
      assert words[i..] == words;
    }
  }

  // ---------- Canonical product phrases ----------

  predicate Stands(phrase: string, s: string) {
    Contains(Padded(s), Padded(phrase))
  }

  predicate NoneStands(rules: seq<Rule>, s: string) {
    forall k :: 0 <= k < |rules| ==> !Stands(rules[k].found, s)
  }

  /** Rule `k` stands in the text, beats what the rules before it give, and no later rule that stands exceeds it. */
  ghost predicate Wins(w: Words, rules: seq<Rule>, s: string, k: int) {
    && 0 <= k < |rules| && Stands(rules[k].found, s)
    && w.size(rules[k].found) > w.size(Best(w, rules[..k], Padded(s)))
    && forall j :: k < j < |rules| && Stands(rules[j].found, s) ==> w.size(rules[j].found) <= w.size(rules[k].canonical)
  }

  predicate AreProper(w: Words, rules: seq<Rule>) {
    forall k :: 0 <= k < |rules| ==> rules[k].canonical != "" && w.size(rules[k].found) > w.size("")
  }

  /** With one more rule behind them. */
  lemma WinsSnoc(w: Words, rules: seq<Rule>, s: string, j: int)
    requires rules != []
    ensures var n := |rules| - 1;
            var exceeds := Stands(rules[n].found, s) && w.size(rules[n].found) > w.size(Best(w, rules[..n], Padded(s)));
            && (j == n ==> (Wins(w, rules, s, j) <==> exceeds))
            && (0 <= j < n ==>
                  (Wins(w, rules, s, j) <==>
                   && Wins(w, rules[..n], s, j)
                   && (Stands(rules[n].found, s) ==> w.size(rules[n].found) <= w.size(rules[j].canonical))))
  {
    hide Contains, Best;
    var n := |rules| - 1;
    forall x | 0 <= x < n ensures rules[..n][x] == rules[x] && rules[..n][..x] == rules[..x] {
    }
  }

  /** Nothing comes out exactly if no rule stands in the text; otherwise the canonical form of the one rule that wins. */
  lemma {:induction false} BestIsExact(w: Words, rules: seq<Rule>, s: string) returns (k: int)
    requires AreProper(w, rules)
    ensures Best(w, rules, Padded(s)) == "" <==> NoneStands(rules, s)
    ensures !NoneStands(rules, s) ==> Wins(w, rules, s, k) && Best(w, rules, Padded(s)) == rules[k].canonical
    ensures forall j :: Wins(w, rules, s, j) ==> j == k
  {
    k := -1;
    if rules == [] {
    } else {
      var n := |rules| - 1;
      k := BestIsExact(w, rules[..n], s);
      WinnerIsInside(w, rules[..n], s, k);
      hide Wins, Contains;
      var exceeds := Stands(rules[n].found, s) && w.size(rules[n].found) > w.size(Best(w, rules[..n], Padded(s)));
      forall j | Wins(w, rules, s, j) ensures j == if exceeds then n else k {
        WinnerIsInside(w, rules, s, j);
        WinsSnoc(w, rules, s, j);
      }
      if !exceeds {
        WinsSnoc(w, rules, s, k);
      } else {
        WinsSnoc(w, rules, s, n);
        k := n;
      }
    }
  }

  lemma WinnerIsInside(w: Words, rules: seq<Rule>, s: string, k: int)
    ensures Wins(w, rules, s, k) ==> 0 <= k < |rules|
  {
  }

  /** The result is the canonical form of the rule that wins in the text. */
  ghost predicate IsCanonicalOf(w: Words, s: string, result: string) {
    exists k :: Wins(w, w.rules, s, k) && result == w.rules[k].canonical
  }

  lemma PhraseIsExact(w: Words, s: string)
    requires w.Valid() && IsNormal(w.lex, s)
    ensures Phrase(w, s) == "" <==> NoneStands(w.rules, s)
    ensures Phrase(w, s) != "" ==> IsCanonicalOf(w, s, Phrase(w, s))
  {
    hide Best, Wins, NoneStands, IsNormal, C.PolicyText;
    NormalIsPolicyText(w.lex, s);
    RulesAreProper(w);
    var k := BestIsExact(w, w.rules, s);
  }

  lemma RulesAreProper(w: Words)
    requires w.Valid()
    ensures AreProper(w, w.rules)
  {
    forall k | 0 <= k < |w.rules| ensures w.rules[k].canonical != "" && w.size(w.rules[k].found) > w.size("") {
      assert w.rules[k] in w.rules;
    }
  }

  /** Where no rule stands, none stands in a stretch of the words. */
  lemma StretchStandsNone(w: Words, words: seq<string>, i: nat, j: nat)
    requires w.Valid() && i <= j <= |words| && NoneStands(w.rules, Join(words))
    ensures NoneStands(w.rules, Join(words[i..j]))
  {
    hide Join, Contains;
    forall k | 0 <= k < |w.rules| ensures !Stands(w.rules[k].found, Join(words[i..j])) {
      if i == j {
        EmptyStandsNone(w, k);
        assert words[i..j] == [];
        JoinOfNothing();
      } else if Stands(w.rules[k].found, Join(words[i..j])) {
        StretchContains(words, i, j, Padded(w.rules[k].found));
      }
    }
  }

  lemma JoinOfNothing()
    ensures Join([]) == ""
  {
  }

  lemma {:induction false} LongerIsNotContained(s: string, part: string)
    requires |part| > |s|
    ensures !Contains(s, part)
  {
    if s == "" {
    } else {
      LongerIsNotContained(s[1..], part);
    }
  }

  lemma EmptyStandsNone(w: Words, k: nat)
    requires w.Valid() && k < |w.rules|
    ensures !Stands(w.rules[k].found, "")
  {
    assert w.rules[k] in w.rules;
    LongerIsNotContained(Padded(""), Padded(w.rules[k].found));
  }

  // ---------- Punctuation and prefixes ----------

  /** Only characters of the set are taken off, and all of them at both ends. */
  lemma {:induction false} TrimSetIsExact(s: string, cutset: set<char>) returns (front: string, back: string)
    ensures s == front + TrimSet(s, cutset) + back && forall c <- front + back :: c in cutset
    ensures var r := TrimSet(s, cutset); r != "" ==> r[0] !in cutset && r[|r| - 1] !in cutset
    decreases |s|
  {
    front, back := "", "";
    if s != "" && s[0] in cutset {
      front, back := TrimSetIsExact(s[1..], cutset);
      MoreInFront(s, front, TrimSet(s[1..], cutset), back);
      front := [s[0]] + front;
    } else if s != "" && s[|s| - 1] in cutset {
      front, back := TrimSetIsExact(s[..|s| - 1], cutset);
      MoreBehind(s, front, TrimSet(s[..|s| - 1], cutset), back);
      back := back + [s[|s| - 1]];
    }
  }

  /** `rest` is what the first prefix of the list that strips leaves. */
  ghost predicate TakesFirst(prefixes: seq<string>, name: string, rest: string) {
    exists k :: TakesAt(prefixes, name, rest, k)
  }

  predicate TakesAt(prefixes: seq<string>, name: string, rest: string, k: int) {
    && 0 <= k < |prefixes| && Strips(name, prefixes[k]) && rest == Trim(name[|prefixes[k]|..])
    && forall x :: 0 <= x < k ==> !Strips(name, prefixes[x])
  }

  /** A filler prefix is taken off, or an action prefix if no filler strips. */
  ghost predicate TakesOff(w: Words, name: string, rest: string) {
    || TakesFirst(w.filler, name, rest)
    || ((forall p <- w.filler :: !Strips(name, p)) && TakesFirst(w.action, name, rest))
  }

  lemma {:induction false} FirstStripTakes(name: string, prefixes: seq<string>) returns (k: nat)
    requires FirstStrip(name, prefixes).Some?
    ensures TakesAt(prefixes, name, FirstStrip(name, prefixes).value, k)
  {
    hide Strips, Trim;
    if Strips(name, prefixes[0]) {
      k := 0;
    } else {
      k := FirstStripTakes(name, prefixes[1..]);
      k := k + 1;
      forall x | 0 <= x < k ensures !Strips(name, prefixes[x]) {
        assert x > 0 ==> prefixes[x] == prefixes[1..][x - 1];
      }
    }
  }

  /** The prefix loop takes off one prefix at a time, a filler before an action, until none strips. */
  lemma {:induction false} StripAllTakesOff(w: Words, name: string) returns (names: seq<string>)
    ensures |names| > 0 && names[0] == name && names[|names| - 1] == StripAll(w, name)
    ensures forall k :: 0 <= k < |names| - 1 ==> TakesOff(w, names[k], names[k + 1])
    ensures forall p <- w.filler + w.action :: !Strips(StripAll(w, name), p)
    decreases |name|
  {
    hide Strips, TakesAt;
    if FirstStrip(name, w.filler).Some? {
      var _ := FirstStripTakes(name, w.filler);
      var rest := StripAllTakesOff(w, FirstStrip(name, w.filler).value);
      names := [name] + rest;
    } else if FirstStrip(name, w.action).Some? {
      var _ := FirstStripTakes(name, w.action);
      var rest := StripAllTakesOff(w, FirstStrip(name, w.action).value);
      names := [name] + rest;
    } else {
      names := [name];
    }
  }

  // ---------- Rewrites ----------

  lemma {:induction false} ReplaceNothing(s: string, from: string, to: string)
    requires from != "" && !Contains(s, from)
    ensures ReplaceAll(s, from, to) == s
    decreases |s|
  {
    if s == "" {
    } else {
      ReplaceNothing(s[1..], from, to);
    }
  }

  function JoinWith(pieces: seq<string>, mark: string): string {
    if pieces == [] then ""
    else if |pieces| == 1 then pieces[0]
    else pieces[0] + mark + JoinWith(pieces[1..], mark)
  }

  /** Every occurrence, and nothing else, is replaced: between the replaced ones nothing of the pattern is left. */
  lemma {:induction false} ReplaceAllIsExact(s: string, from: string, to: string) returns (pieces: seq<string>)
    requires from != ""
    ensures pieces != [] && s == JoinWith(pieces, from) && ReplaceAll(s, from, to) == JoinWith(pieces, to)
    ensures forall piece <- pieces :: !Contains(piece, from)
    decreases |s|
  {
    EmptyContainsNone(from);
    if s == "" {
      pieces := [""];
    } else if from <= s {
      var rest := ReplaceAllIsExact(s[|from|..], from, to);
      pieces := [""] + rest;
      hide ReplaceAll, Contains;
      ReplaceFront(s, from, to);
      MarkInFront(rest, from);
      MarkInFront(rest, to);
    } else {
      var rest := ReplaceAllIsExact(s[1..], from, to);
      pieces := [[s[0]] + rest[0]] + rest[1..];
      hide ReplaceAll, JoinWith;
      ReplaceLater(s, from, to);
      MorePiece(s[0], rest, from);
      MorePiece(s[0], rest, to);
      LongerPiece(s, from, rest);
      assert s == [s[0]] + s[1..];
    }
  }

  lemma ReplaceFront(s: string, from: string, to: string)
    requires from != "" && from <= s
    ensures ReplaceAll(s, from, to) == to + ReplaceAll(s[|from|..], from, to) && s == from + s[|from|..]
  {
  }

  lemma ReplaceLater(s: string, from: string, to: string)
    requires from != "" && s != "" && !(from <= s)
    ensures ReplaceAll(s, from, to) == [s[0]] + ReplaceAll(s[1..], from, to)
  {
  }

  lemma MarkInFront(pieces: seq<string>, mark: string)
    requires pieces != []
    ensures JoinWith([""] + pieces, mark) == mark + JoinWith(pieces, mark)
  {
    assert ([""] + pieces)[1..] == pieces;
    assert "" + mark == mark;
  }

  /** A piece that grows at its front still contains nothing of the pattern, if the text does not begin with it. */
  lemma LongerPiece(s: string, from: string, pieces: seq<string>)
    requires s != "" && !(from <= s) && pieces != [] && s[1..] == JoinWith(pieces, from) && !Contains(pieces[0], from)
    ensures !Contains([s[0]] + pieces[0], from)
  {
    PieceIsPrefix(pieces, from);
    var piece := [s[0]] + pieces[0];
    assert piece[1..] == pieces[0];
    assert piece <= s;
  }

  lemma EmptyContainsNone(part: string)
    requires part != ""
    ensures !Contains("", part)
  {
  }

  lemma PieceIsPrefix(pieces: seq<string>, mark: string)
    requires pieces != []
    ensures pieces[0] <= JoinWith(pieces, mark)
  {
  }

  lemma MorePiece(c: char, pieces: seq<string>, mark: string)
    requires pieces != []
    ensures JoinWith([[c] + pieces[0]] + pieces[1..], mark) == [c] + JoinWith(pieces, mark)
  {
    assert ([[c] + pieces[0]] + pieces[1..])[1..] == pieces[1..];
    if |pieces| > 1 {
      var rest := JoinWith(pieces[1..], mark);
      assert ([c] + pieces[0]) + mark + rest == [c] + (pieces[0] + mark + rest);
    }
  }

  lemma {:induction false} RewriteNothing(rewrites: seq<Rule>, value: string, n: nat)
    requires n <= |rewrites|
    requires var now := RewriteEach(rewrites[..n], value);
             forall k :: n <= k < |rewrites| ==> !Contains(now, Padded(rewrites[k].found))
    ensures RewriteEach(rewrites, value) == RewriteEach(rewrites[..n], value)
    decreases |rewrites|
  {
    hide Contains;
    var m := |rewrites|;
    if n == m {
      assert rewrites[..n] == rewrites;
    } else {
      assert rewrites[..m - 1][..n] == rewrites[..n];
      RewriteNothing(rewrites[..m - 1], value, n);
      ReplaceNothing(RewriteEach(rewrites[..m - 1], value), Padded(rewrites[m - 1].found), Padded(rewrites[m - 1].canonical));
    }
  }

  lemma FieldsOfPadded(s: string)
    ensures Fields(Padded(s)) == Fields(s)
  {
    FieldsSplit(" " + s, " ");
    assert (" " + s)[1..] == s;
    assert Fields(" ") == [];
  }

  lemma NormalIsItself(w: Words, s: string)
    requires w.Valid() && IsNormal(w.lex, s)
    ensures Trim(s) == s && Join(Fields(s)) == s && C.PolicyText(w.lex, s) == s && Folded(w.lex, s)
  {
    NormalIsTrimmed(w.lex, s);
    NormalIsJoined(w.lex, s);
    NormalIsPolicyText(w.lex, s);
    NormalIsFolded(w.lex, s);
  }

  /** Text in which no rewrite stands is left as it is. */
  lemma RewrittenStays(w: Words, s: string)
    requires w.Valid() && IsNormal(w.lex, s) && NoneStands(w.rewrites, s)
    ensures Rewritten(w, s) == s
  {
    hide Trim, Fields, Join, C.PolicyText, Contains, IsNormal;
    NormalIsItself(w, s);
    assert w.rewrites[..0] == [];
    RewriteNothing(w.rewrites, Padded(s), 0);
    FieldsOfPadded(s);
  }

  /** The first rewrite that stands is made; if no later one then stands, the result is just that. */
  lemma RewrittenReplaces(w: Words, s: string, n: nat)
    requires w.Valid() && IsNormal(w.lex, s) && s != "" && n < |w.rewrites|
    requires forall k :: 0 <= k < n ==> !Stands(w.rewrites[k].found, s)
    requires var v := ReplaceAll(Padded(s), Padded(w.rewrites[n].found), Padded(w.rewrites[n].canonical));
             forall k :: n < k < |w.rewrites| ==> !Contains(v, Padded(w.rewrites[k].found))
    ensures Rewritten(w, s) ==
            Join(Fields(ReplaceAll(Padded(s), Padded(w.rewrites[n].found), Padded(w.rewrites[n].canonical))))
  {
    hide Trim, Fields, Join, C.PolicyText, Contains, IsNormal, ReplaceAll;
    NormalIsItself(w, s);
    var front := w.rewrites[..n];
    assert front[..0] == [];
    RewriteNothing(front, Padded(s), 0);
    assert w.rewrites[..n + 1][..n] == front;
    RewriteNothing(w.rewrites, Padded(s), n + 1);
    var v := RewriteEach(w.rewrites, Padded(s));
    PaddedIsFolded(w, s);
    RewriteEachIsFolded(w, w.rewrites, Padded(s));
    FieldsAreFolded(w.lex, v);
    JoinIsNormal(w.lex, Fields(v));
    NormalIsTrimmed(w.lex, Join(Fields(v)));
  }

  lemma PaddedIsFolded(w: Words, s: string)
    requires w.Valid() && Folded(w.lex, s)
    ensures Folded(w.lex, Padded(s))
  {
  }

  // ---------- Leading and cut phrases ----------

  /** Leading phrases go with their words, from the front only. */
  lemma {:induction false} CutLeadingDropsWords(w: Words, phrases: seq<string>, s: string) returns (n: nat)
    requires w.Valid() && IsNormal(w.lex, s)
    ensures IsNormal(w.lex, CutLeading(phrases, s)) && n <= |Fields(s)| && Fields(CutLeading(phrases, s)) == Fields(s)[n..]
  {
    hide IsNormal, Trim, Fields;
    if phrases == [] {
      n := 0;
      assert Fields(s)[0..] == Fields(s);
    } else {
      var before, phrase := CutLeading(phrases[..|phrases| - 1], s), phrases[|phrases| - 1];
      n := CutLeadingDropsWords(w, phrases[..|phrases| - 1], s);
      if phrase + " " <= before {
        CutIsNormal(w.lex, before, |phrase|);
        assert before == phrase + before[|phrase|..] && before[|phrase|] == ' ';
        FieldsSplit(phrase, before[|phrase|..]);
        FieldsTrim(before[|phrase|..]);
        assert Fields(before)[|Fields(phrase)|..] == Fields(before[|phrase|..]);
        assert Fields(s)[n..][|Fields(phrase)|..] == Fields(s)[n + |Fields(phrase)|..];
        n := n + |Fields(phrase)|;
      }
    }
  }

  lemma {:induction false} CutLeadingStays(phrases: seq<string>, s: string)
    requires forall p <- phrases :: !(p + " " <= s)
    ensures CutLeading(phrases, s) == s
  {
    if phrases == [] {
    } else {
      CutLeadingStays(phrases[..|phrases| - 1], s);
      assert phrases[|phrases| - 1] in phrases;
    }
  }

  /** A leading phrase in front is taken off if no other one comes into play. */
  lemma {:induction false} CutLeadingTakes(w: Words, phrases: seq<string>, n: nat, rest: string)
    requires w.Valid() && IsNormal(w.lex, rest) && n < |phrases|
    requires forall k :: 0 <= k < n ==> !(phrases[k] + " " <= phrases[n] + " " + rest)
    requires forall k :: n < k < |phrases| ==> !(phrases[k] + " " <= rest)
    ensures CutLeading(phrases, phrases[n] + " " + rest) == rest
  {
    hide IsNormal, Trim, Words.Valid;
    var m := |phrases| - 1;
    if n == m {
      CutLeadingStays(phrases[..m], phrases[n] + " " + rest);
      PhraseComesOff(w, phrases[n], rest);
    } else {
      CutLeadingTakes(w, phrases[..m], n, rest);
    }
  }

  lemma PhraseComesOff(w: Words, phrase: string, rest: string)
    requires w.Valid() && IsNormal(w.lex, rest)
    ensures phrase + " " <= phrase + " " + rest && Trim((phrase + " " + rest)[|phrase|..]) == rest
  {
    hide IsNormal, Trim;
    assert (phrase + " " + rest)[|phrase|..] == " " + rest;
    TrimOfBlank(rest);
    NormalIsItself(w, rest);
  }

  lemma TrimOfBlank(s: string)
    ensures Trim(" " + s) == Trim(s)
  {
    assert (" " + s)[1..] == s;
  }

  lemma {:induction false} IndexIsFirst(s: string, part: string)
    ensures Index(s, part) < 0 <==> !Contains(s, part)
    ensures Index(s, part) >= 0 ==> part <= s[Index(s, part)..]
    ensures forall x :: 0 <= x < Index(s, part) ==> !(part <= s[x..])
    ensures Index(s, part) < 0 ==> forall x :: 0 <= x <= |s| ==> !(part <= s[x..])
    decreases |s|
  {
    assert s[0..] == s;
    if part <= s {
    } else if s == "" {
    } else {
      IndexIsFirst(s[1..], part);
      forall x | 1 <= x <= |s| ensures s[x..] == s[1..][x - 1..] {
      }
    }
  }

  /** A cut phrase goes with everything behind it; before the cut it does not stand. */
  lemma CutAtDropsWords(w: Words, s: string, cut: string) returns (n: nat)
    requires w.Valid() && IsNormal(w.lex, s) && |cut| > 1 && cut[0] == ' '
    ensures IsNormal(w.lex, CutAt(s, cut)) && n <= |Fields(s)| && Fields(CutAt(s, cut)) == Fields(s)[..n]
    ensures CutAt(s, cut) != "" ==> !Contains(Padded(CutAt(s, cut)), cut)
    ensures !Contains(Padded(s), cut) ==> CutAt(s, cut) == s
  {
    hide Trim, Fields, Contains;
    IndexIsFirst(Padded(s), cut);
    CutAtIsNormal(w.lex, s, cut);
    var i := Index(Padded(s), cut);
    if i < 0 {
      n := |Fields(s)|;
    } else if i == 0 {
      n := 0;
      EmptyIsNormal(w);
    } else {
      n := CutInside(w, s, cut, i);
    }
  }

  lemma CutInside(w: Words, s: string, cut: string, i: nat) returns (n: nat)
    requires w.Valid() && IsNormal(w.lex, s) && |cut| > 1 && cut[0] == ' '
    requires i == Index(Padded(s), cut) && 0 < i && cut <= Padded(s)[i..]
    requires forall x :: 0 <= x < i ==> !(cut <= Padded(s)[x..])
    ensures i <= |s| && s[i - 1] == ' ' && CutAt(s, cut) == s[..i - 1]
    ensures n <= |Fields(s)| && Fields(s[..i - 1]) == Fields(s)[..n]
    ensures !Contains(Padded(s[..i - 1]), cut)
  {
    hide Trim, Fields, Contains, IsNormal, Index, CutAt;
    CutsAtBlank(s, cut, i);
    BeforeBlankIsNormal(w, s, i - 1);
    assert s == s[..i - 1] + s[i - 1..];
    FieldsSplit(s[..i - 1], s[i - 1..]);
    n := |Fields(s[..i - 1])|;
    NotBefore(s, cut, i);
    CutAtIs(s, cut);
  }

  lemma CutAtIs(s: string, cut: string)
    requires 0 < Index(Padded(s), cut) <= |s| && Trim(s[..Index(Padded(s), cut) - 1]) == s[..Index(Padded(s), cut) - 1]
    ensures CutAt(s, cut) == s[..Index(Padded(s), cut) - 1]
  {
    hide Trim, Index;
  }

  lemma CutsAtBlank(s: string, cut: string, i: nat)
    requires |cut| > 1 && cut[0] == ' ' && 0 < i <= |s| + 2 && cut <= Padded(s)[i..]
    ensures i <= |s| && s[i - 1] == ' '
  {
    assert Padded(s)[i] == ' ' == s[i - 1];
  }

  lemma BeforeBlankIsNormal(w: Words, s: string, k: nat)
    requires w.Valid() && IsNormal(w.lex, s) && k < |s| && s[k] == ' '
    ensures IsNormal(w.lex, s[..k]) && Trim(s[..k]) == s[..k]
  {
    hide Trim;
    StretchIsNeat(w.lex, s, 0, k);
    assert s[0..k] == s[..k];
    assert k > 0 ==> !IsSpace(s[k - 1]);
    NormalIsTrimmed(w.lex, s[..k]);
  }

  lemma NotBefore(s: string, cut: string, i: nat)
    requires 0 < i <= |s| && s[i - 1] == ' ' && |cut| > 1
    requires forall x :: 0 <= x < i ==> !(cut <= Padded(s)[x..])
    ensures !Contains(Padded(s[..i - 1]), cut)
  {
    hide Contains;
    PaddedSplits(s[..i - 1], s[i..]);
    assert s == s[..i - 1] + " " + s[i..];
    NotInFront(Padded(s[..i - 1]), s[i..] + " ", cut);
  }

  lemma PaddedSplits(a: string, b: string)
    ensures Padded(a + " " + b) == Padded(a) + (b + " ")
  {
  }

  lemma NotInFront(front: string, back: string, part: string)
    requires |part| > 1 && forall x :: 0 <= x < |front| - 1 ==> !(part <= (front + back)[x..])
    ensures !Contains(front, part)
  {
    hide Contains, Index;
    IndexIsFirst(front, part);
    var x := Index(front, part);
    if x >= 0 {
      FrontOfEnd(front, back, part, x);
    }
  }

  lemma FrontOfEnd(front: string, back: string, part: string, x: nat)
    requires x <= |front| && part <= front[x..]
    ensures part <= (front + back)[x..]
  {
    assert (front + back)[x..] == front[x..] + back;
  }

  /** What did not stand before the cut does not stand after it. */
  lemma CutBringsNothing(w: Words, before: string, now: string, k: nat, part: string)
    requires w.Valid() && IsNormal(w.lex, before) && IsNormal(w.lex, now) && now != ""
    requires k <= |Fields(before)| && Fields(now) == Fields(before)[..k]
    requires !Contains(Padded(before), part)
    ensures !Contains(Padded(now), part)
  {
    hide IsNormal, Fields, Contains;
    NormalIsItself(w, before);
    NormalIsItself(w, now);
    EmptyIsNormal(w);
    assert Fields(before)[0..k] == Fields(now);
    if Contains(Padded(now), part) {
      StretchContains(Fields(before), 0, k, part);
    }
  }

  lemma NothingBeforeNothingNow(w: Words, before: string, now: string, k: nat)
    requires w.Valid() && IsNormal(w.lex, now) && k <= |Fields(before)| && Fields(now) == Fields(before)[..k] && now != ""
    ensures before != ""
  {
    NormalIsItself(w, now);
    EmptyIsNormal(w);
  }

  lemma {:induction false} CutTrailingDropsWords(w: Words, cuts: seq<string>, s: string) returns (n: nat)
    requires w.Valid() && IsNormal(w.lex, s) && forall cut <- cuts :: |cut| > 1 && cut[0] == ' '
    ensures IsNormal(w.lex, CutTrailing(cuts, s)) && n <= |Fields(s)| && Fields(CutTrailing(cuts, s)) == Fields(s)[..n]
    ensures CutTrailing(cuts, s) != "" ==> forall cut <- cuts :: !Contains(Padded(CutTrailing(cuts, s)), cut)
    ensures (forall cut <- cuts :: !Contains(Padded(s), cut)) ==> CutTrailing(cuts, s) == s
  {
    hide IsNormal, CutAt, Fields, Contains;
    if cuts == [] {
      n := |Fields(s)|;
      assert Fields(s)[..n] == Fields(s);
    } else {
      var m := |cuts| - 1;
      var before, cut := CutTrailing(cuts[..m], s), cuts[m];
      n := CutTrailingDropsWords(w, cuts[..m], s);
      var k := CutAtDropsWords(w, before, cut);
      var now := CutAt(before, cut);
      assert Fields(s)[..n][..k] == Fields(s)[..k];
      if now != "" {
        NothingBeforeNothingNow(w, before, now, k);
        forall c <- cuts ensures !Contains(Padded(now), c) {
          assert c in cuts[..m] || c == cut;
          if c in cuts[..m] {
            CutBringsNothing(w, before, now, k, c);
          }
        }
      }
      n := k;
    }
  }
}

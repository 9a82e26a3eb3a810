/**
 What normalizeDraftName and its trimming helpers make of a name, and that it is normal text. The
 Russian word tables and the folding of runes are parameters; what is asked of them is stated in
 Words.Valid.
 */
module DraftNames {
  import opened Wrappers
  import opened Text
  import C = Cleaner

  datatype Rule = Rule(found: string, canonical: string)

  /**
   `lower` is unicode.ToLower, `size` the length in bytes. `filler` and `action` are the prefixes
   that are cut off, `rewrites` the phrase rewrites, `rules` the canonical product phrases,
   `leading` the leading noise phrases, `cuts` the trailing cut phrases (with their surrounding
   spaces), `skipped` the tokens dropped in front, `stops` the tokens that cut the rest off,
   `stores` the store tokens, `links` the linking words dropped at the end, `froms` the words that
   cut when a store follows, `lead` the canonical lead tokens.
   */
  datatype Words = Words(lex: C.Lexicon, lower: char -> char, size: string -> nat, filler: seq<string>, action: seq<string>,
                         rewrites: seq<Rule>, rules: seq<Rule>, leading: seq<string>, cuts: seq<string>,
                         skipped: set<string>, stops: set<string>, stores: set<string>,
                         links: set<string>, froms: set<string>,
                         lead: map<string, string>)
  {
    /**
     Folding is idempotent, makes every space a blank, and leaves nothing for ToLower to do; the
     tables hold folded text, no product phrase is empty, and a cut phrase begins with its blank.
     */
    ghost predicate Valid() {
      && lex.Valid()
      && (forall c :: lex.fold(lex.fold(c)) == lex.fold(c))
      && (forall c :: IsSpace(lex.fold(c)) ==> lex.fold(c) == ' ')
      && lex.fold(' ') == ' '
      && (forall c :: lex.fold(c) == c ==> lower(c) == c)
      && (forall r <- rewrites :: Folded(lex, r.canonical))
      && (forall r <- rules :: IsNormal(lex, r.canonical) && r.canonical != "" && size(r.found) > size(""))
      && (forall cut <- cuts :: |cut| > 1 && cut[0] == ' ')
      && (forall w <- lead.Keys :: IsWord(lead[w]) && Folded(lex, lead[w]))
    }
  }

  predicate Folded(lex: C.Lexicon, s: string) {
    forall i :: 0 <= i < |s| ==> lex.fold(s[i]) == s[i]
  }

  /** Folded text in which no two spaces meet. */
  predicate IsNeat(lex: C.Lexicon, s: string) {
    && Folded(lex, s)
    && (forall i :: 0 <= i < |s| && IsSpace(s[i]) ==> s[i] == ' ')
    && (forall i :: 0 <= i < |s| - 1 ==> !(IsSpace(s[i]) && IsSpace(s[i + 1])))
  }

  /** Folded words, one blank between each two. */
  predicate IsNormal(lex: C.Lexicon, s: string) {
    IsNeat(lex, s) && (s != "" ==> !IsSpace(s[0]) && !IsSpace(s[|s| - 1]))
  }

  // ---------- Normal text ----------

  /** Trimming cuts a stretch out of the text. */
  lemma {:induction false} TrimCuts(s: string) returns (i: nat, j: nat)
    ensures i <= j <= |s| && Trim(s) == s[i..j]
    ensures Trim(s) != "" ==> !IsSpace(Trim(s)[0]) && !IsSpace(Trim(s)[|Trim(s)| - 1])
  {
    i := TrimLeftCuts(s);
    LeftTrimmed(s);
    RightTrimmed(TrimLeft(s));
    j := i + |Trim(s)|;
    if TrimLeft(s) == "" {
    } else {
      KeepsFirst(TrimLeft(s));
    }
  }

  lemma {:induction false} TrimLeftCuts(s: string) returns (i: nat)
    ensures i <= |s| && TrimLeft(s) == s[i..]
  {
    i := 0;
    if s != "" && IsSpace(s[0]) {
      i := TrimLeftCuts(s[1..]);
      i := i + 1;
    }
  }

  /** Trimming any stretch of neat text gives normal text. */
  lemma StretchTrimsToNormal(lex: C.Lexicon, s: string, i: nat, j: nat)
    requires IsNeat(lex, s) && i <= j <= |s|
    ensures IsNormal(lex, Trim(s[i..j])) && |Trim(s[i..j])| <= j - i
  {
    hide IsNeat, Trim;
    var k, l := TrimCuts(s[i..j]);
    SliceOfSlice(s, i, j, k, l);
    StretchIsNeat(lex, s, i + k, i + l);
  }

  lemma SliceOfSlice<T>(s: seq<T>, i: nat, j: nat, k: nat, l: nat)
    requires i <= j <= |s| && k <= l <= j - i
    ensures s[i..j][k..l] == s[i + k..i + l]
  {
    forall x | 0 <= x < l - k ensures s[i..j][k..l][x] == s[i + k..i + l][x] {
      assert s[i..j][k + x] == s[i + k + x];
    }
  }

  lemma StretchIsNeat(lex: C.Lexicon, s: string, i: nat, j: nat)
    requires IsNeat(lex, s) && i <= j <= |s|
    ensures IsNeat(lex, s[i..j])
  {
  }

  lemma NormalIsTrimmed(lex: C.Lexicon, s: string)
    requires IsNormal(lex, s)
    ensures Trim(s) == s
  {
  }

  /** Folded words join to normal text. */
  lemma {:induction false} JoinIsNormal(lex: C.Lexicon, words: seq<string>)
    requires lex.fold(' ') == ' ' && forall w <- words :: IsWord(w) && Folded(lex, w)
    ensures IsNormal(lex, Join(words)) && (words != [] ==> Join(words) != "")
  {
    if |words| > 1 {
      JoinIsNormal(lex, words[1..]);
      NormalConcat(lex, words[0], Join(words[1..]));
    } else if |words| == 1 {
      assert IsWord(words[0]);
    }
  }

  lemma NormalConcat(lex: C.Lexicon, a: string, b: string)
    requires lex.fold(' ') == ' ' && IsNormal(lex, a) && IsNormal(lex, b) && a != "" && b != ""
    ensures IsNormal(lex, a + " " + b)
  {
    var s := a + " " + b;
    forall i | 0 <= i < |s| ensures lex.fold(s[i]) == s[i] && (IsSpace(s[i]) ==> s[i] == ' ') {
      assert s[i] == if i < |a| then a[i] else if i == |a| then ' ' else b[i - |a| - 1];
    }
    forall i | 0 <= i < |s| - 1 ensures !(IsSpace(s[i]) && IsSpace(s[i + 1])) {
      assert s[i] == if i < |a| then a[i] else if i == |a| then ' ' else b[i - |a| - 1];
      assert s[i + 1] == if i + 1 < |a| then a[i + 1] else if i + 1 == |a| then ' ' else b[i - |a|];
    }
  }

  /** The words of folded text are folded. */
  lemma {:induction false} FieldsAreFolded(lex: C.Lexicon, s: string)
    requires Folded(lex, s)
    ensures forall w <- Fields(s) :: IsWord(w) && Folded(lex, w)
    decreases |s|
  {
    if s == "" {
    } else {
      if IsSpace(s[0]) {
        FieldsAreFolded(lex, s[1..]);
      } else {
        FieldsAreFolded(lex, s[WordLength(s)..]);
      }
    }
  }

  /** Normal text is what normalizedPolicyText makes of it. */
  lemma NormalIsPolicyText(lex: C.Lexicon, s: string)
    requires lex.Valid() && IsNormal(lex, s)
    ensures C.PolicyText(lex, s) == s
  {
    C.FreeTextIsJoinedFields(s);
    NormalIsJoined(lex, s);
    MapFolded(lex, s);
  }

  lemma {:induction false} MapFolded(lex: C.Lexicon, s: string)
    requires Folded(lex, s)
    ensures Map(lex.fold, s) == s
  {
  }

  lemma {:induction false} NormalIsJoined(lex: C.Lexicon, s: string)
    requires IsNormal(lex, s)
    ensures Join(Fields(s)) == s
    decreases |s|
  {
    if s == "" {
    } else {
      var n := WordLength(s);
      if n == |s| {
        FieldsOfWord(s);
      } else {
        assert n > 0 && s[n] == ' ';
        var rest := s[n + 1..];
        assert s[n..][1..] == rest;
        assert Fields(s[n..]) == Fields(rest);
        assert rest != "" && !IsSpace(rest[0]) && rest[|rest| - 1] == s[|s| - 1];
        NormalIsJoined(lex, rest);
        assert s == s[..n] + " " + rest;
        assert Fields(rest) != [];
      }
    }
  }

  // ---------- Phrase rewrites and canonical phrases ----------

  /** strings.ReplaceAll, for a pattern that is not empty. */
  function ReplaceAll(s: string, from: string, to: string): string
    requires from != ""
    decreases |s|
  {
    if s == "" then ""
    else if from <= s then to + ReplaceAll(s[|from|..], from, to)
    else [s[0]] + ReplaceAll(s[1..], from, to)
  }

  lemma {:induction false} ReplaceAllIsFolded(lex: C.Lexicon, s: string, from: string, to: string)
    requires from != "" && Folded(lex, s) && Folded(lex, to)
    ensures Folded(lex, ReplaceAll(s, from, to))
    decreases |s|
  {
    if s == "" {
    } else if from <= s {
      ReplaceAllIsFolded(lex, s[|from|..], from, to);
    } else {
      ReplaceAllIsFolded(lex, s[1..], from, to);
    }
  }

  lemma PolicyTextIsNormal(w: Words, s: string)
    requires w.Valid()
    ensures IsNormal(w.lex, C.PolicyText(w.lex, s))
  {
    var folded := Map(w.lex.fold, C.FreeText(s));
    FieldsAreFolded(w.lex, folded);
    JoinIsNormal(w.lex, Fields(folded));
  }

  /** The value after a row of rewrites, last one last. */
  function RewriteEach(rewrites: seq<Rule>, value: string): string {
    if rewrites == [] then value
    else
      var last := rewrites[|rewrites| - 1];
      ReplaceAll(RewriteEach(rewrites[..|rewrites| - 1], value), " " + last.found + " ", " " + last.canonical + " ")
  }

  lemma {:induction false} RewriteEachIsFolded(w: Words, rewrites: seq<Rule>, value: string)
    requires Folded(w.lex, value) && w.lex.fold(' ') == ' ' && forall r <- rewrites :: Folded(w.lex, r.canonical)
    ensures Folded(w.lex, RewriteEach(rewrites, value))
  {
    if rewrites == [] {
    } else {
      var n := |rewrites| - 1;
      assert rewrites[n] in rewrites;
      RewriteEachIsFolded(w, rewrites[..n], value);
      ReplaceAllIsFolded(w.lex, RewriteEach(rewrites[..n], value),
                         " " + rewrites[n].found + " ", " " + rewrites[n].canonical + " ");
    }
  }

  /** rewriteNormalizedPhrases with the draft-name rewrites. */
  function Rewritten(w: Words, input: string): string {
    if Trim(input) == "" then ""
    else Trim(Join(Fields(RewriteEach(w.rewrites, " " + C.PolicyText(w.lex, input) + " "))))
  }

  /** Whatever goes in, normal text comes out. */
  lemma RewrittenIsNormal(w: Words, input: string)
    requires w.Valid()
    ensures IsNormal(w.lex, Rewritten(w, input))
  {
    PolicyTextIsNormal(w, input);
    var start := " " + C.PolicyText(w.lex, input) + " ";
    RewriteEachIsFolded(w, w.rewrites, start);
    var value := RewriteEach(w.rewrites, start);
    hide Fields, Join, C.PolicyText, Trim, RewriteEach;
    FieldsAreFolded(w.lex, value);
    JoinIsNormal(w.lex, Fields(value));
    NormalIsTrimmed(w.lex, Join(Fields(value)));
  }

  /**
   The rule that wins: a later one replaces the best so far if its phrase is longer than that one's
   canonical form.
   */
  function Best(w: Words, rules: seq<Rule>, text: string): string {
    if rules == [] then ""
    else
      var best, rule := Best(w, rules[..|rules| - 1], text), rules[|rules| - 1];
      if Contains(text, " " + rule.found + " ") && w.size(rule.found) > w.size(best) then rule.canonical else best
  }

  /** canonicalProductPhrase; "" stands for none. */
  function Phrase(w: Words, input: string): string {
    Best(w, w.rules, " " + C.PolicyText(w.lex, input) + " ")
  }

  lemma {:induction false} BestIsNormal(w: Words, rules: seq<Rule>, text: string)
    requires forall r <- rules :: IsNormal(w.lex, r.canonical)
    ensures IsNormal(w.lex, Best(w, rules, text))
  {
    if rules == [] {
    } else {
      assert rules[|rules| - 1] in rules;
      BestIsNormal(w, rules[..|rules| - 1], text);
    }
  }

  lemma PhraseIsNormal(w: Words, input: string)
    requires w.Valid()
    ensures IsNormal(w.lex, Phrase(w, input))
  {
    BestIsNormal(w, w.rules, " " + C.PolicyText(w.lex, input) + " ");
  }

  // ---------- Prefixes ----------

  /** Something other than the whole is left of `name` behind `prefix`. */
  predicate Strips(name: string, prefix: string) {
    && (name == prefix || prefix + " " <= name)
    && Trim(name[|prefix|..]) != "" && Trim(name[|prefix|..]) != name
  }

  lemma TrimShortens(s: string, k: nat)
    requires k <= |s| && Trim(s[k..]) != s
    ensures |Trim(s[k..])| < |s|
  {
    var _, _ := TrimCuts(s[k..]);
    assert s[0..] == s;
  }

  /** What the first prefix that strips leaves. */
  function FirstStrip(name: string, prefixes: seq<string>): (r: Option<string>)
    ensures r.Some? ==> r.value != "" && |r.value| < |name|
    ensures r.None? ==> forall p <- prefixes :: !Strips(name, p)
  {
    if prefixes == [] then None
    else if Strips(name, prefixes[0]) then
      TrimShortens(name, |prefixes[0]|);
      Some(Trim(name[|prefixes[0]|..]))
    else FirstStrip(name, prefixes[1..])
  }

  /** The prefix loop: filler first, then action prefixes, until none of either strips. */
  function StripAll(w: Words, name: string): (r: string)
    ensures |r| <= |name| && (name != "" ==> r != "")
    decreases |name|
  {
    match FirstStrip(name, w.filler)
    case Some(r) => StripAll(w, r)
    case None =>
      match FirstStrip(name, w.action)
      case Some(r) => StripAll(w, r)
      case None => name
  }

  /** Cutting at the front of text that ends in a word leaves its end. */
  lemma FrontCut(lex: C.Lexicon, s: string, k: nat) returns (i: nat)
    requires IsNormal(lex, s) && k <= |s|
    ensures i <= |s| && Trim(s[k..]) == s[i..]
  {
    hide IsNeat;
    var n := TrimLeftCuts(s[k..]);
    i := k + n;
    assert s[k..][n..] == s[i..];
  }

  lemma {:induction false} FirstStripCuts(lex: C.Lexicon, name: string, prefixes: seq<string>) returns (i: nat)
    requires IsNormal(lex, name) && FirstStrip(name, prefixes).Some?
    ensures i <= |name| && FirstStrip(name, prefixes).value == name[i..] && IsNormal(lex, name[i..])
  {
    hide IsNormal, Trim;
    if Strips(name, prefixes[0]) {
      i := FrontCut(lex, name, |prefixes[0]|);
      CutIsNormal(lex, name, |prefixes[0]|);
    } else {
      i := FirstStripCuts(lex, name, prefixes[1..]);
    }
  }

  lemma CutIsNormal(lex: C.Lexicon, s: string, k: nat)
    requires IsNormal(lex, s) && k <= |s|
    ensures IsNormal(lex, Trim(s[k..]))
  {
    StretchTrimsToNormal(lex, s, k, |s|);
    assert s[k..|s|] == s[k..];
  }

  /** Stripping takes from the front only, and what is left of normal text is normal, with no prefix to take off. */
  lemma {:induction false} StripAllLeavesAnEnd(w: Words, name: string) returns (i: nat)
    requires IsNormal(w.lex, name)
    ensures i <= |name| && StripAll(w, name) == name[i..] && IsNormal(w.lex, name[i..])
    ensures forall p <- w.filler + w.action :: !Strips(name[i..], p)
    decreases |name|
  {
    hide IsNormal, Strips, FirstStrip;
    i := 0;
    assert name[0..] == name;
    if FirstStrip(name, w.filler).Some? {
      var k := FirstStripCuts(w.lex, name, w.filler);
      i := StripAllLeavesAnEnd(w, name[k..]);
      assert name[k..][i..] == name[k + i..];
      i := k + i;
    } else if FirstStrip(name, w.action).Some? {
      var k := FirstStripCuts(w.lex, name, w.action);
      i := StripAllLeavesAnEnd(w, name[k..]);
      assert name[k..][i..] == name[k + i..];
      i := k + i;
    }
  }

  // ---------- Noise in front ----------

  /** The leading noise phrases, each cut off once in their order. */
  function CutLeading(phrases: seq<string>, name: string): string {
    if phrases == [] then name
    else
      var before, phrase := CutLeading(phrases[..|phrases| - 1], name), phrases[|phrases| - 1];
      if phrase + " " <= before then Trim(before[|phrase|..]) else before
  }

  lemma {:induction false} CutLeadingIsNormal(lex: C.Lexicon, phrases: seq<string>, name: string)
    requires IsNormal(lex, name)
    ensures IsNormal(lex, CutLeading(phrases, name))
  {
    hide IsNormal, Trim;
    if phrases == [] {
    } else {
      var before, phrase := CutLeading(phrases[..|phrases| - 1], name), phrases[|phrases| - 1];
      CutLeadingIsNormal(lex, phrases[..|phrases| - 1], name);
      if phrase + " " <= before {
        CutIsNormal(lex, before, |phrase|);
      }
    }
  }

  /** Tokens that are dropped in front of a name. */
  predicate IsLeadingNoise(w: Words, token: string) {
    var folded := C.PolicyText(w.lex, token);
    folded == "" || folded in w.skipped || folded in w.stores || folded in w.stops
  }

  /** How many elements in front pass the test. */
  function Leading<T>(test: T -> bool, items: seq<T>): (n: nat)
    ensures n <= |items|
  {
    if items == [] || !test(items[0]) then 0 else 1 + Leading(test, items[1..])
  }

  lemma {:induction false} LeadingIsExact<T>(test: T -> bool, items: seq<T>)
    ensures forall i :: 0 <= i < Leading(test, items) ==> test(items[i])
    ensures Leading(test, items) < |items| ==> !test(items[Leading(test, items)])
  {
    if items == [] || !test(items[0]) {
    } else {
      LeadingIsExact(test, items[1..]);
    }
  }

  function NoiseTest(w: Words): string -> bool {
    (token: string) => IsLeadingNoise(w, token)
  }

  /** The number of noise tokens in front. */
  function LeadingNoise(w: Words, tokens: seq<string>): nat {
    Leading(NoiseTest(w), tokens)
  }

  /** trimDraftLeadingNoise. */
  function TrimmedLeading(w: Words, name: string): string {
    if Phrase(w, Trim(name)) != "" then Phrase(w, Trim(name))
    else
      var tokens := Fields(CutLeading(w.leading, Trim(name)));
      Join(tokens[LeadingNoise(w, tokens)..])
  }

  lemma StretchOfWordsIsNormal(w: Words, name: string, i: nat, j: nat)
    requires w.lex.fold(' ') == ' ' && Folded(w.lex, name) && i <= j <= |Fields(name)|
    ensures IsNormal(w.lex, Join(Fields(name)[i..j])) && Trim(Join(Fields(name)[i..j])) == Join(Fields(name)[i..j])
    ensures Fields(Join(Fields(name)[i..j])) == Fields(name)[i..j]
  {
    hide IsNormal, Trim, Folded;
    FieldsAreFolded(w.lex, name);
    JoinIsNormal(w.lex, Fields(name)[i..j]);
    NormalIsTrimmed(w.lex, Join(Fields(name)[i..j]));
    FieldsJoin(Fields(name)[i..j]);
  }

  lemma NormalIsFolded(lex: C.Lexicon, s: string)
    requires IsNormal(lex, s)
    ensures Folded(lex, s) && IsNeat(lex, s)
  {
  }

  lemma EmptyIsNormal(w: Words)
    ensures Fields("") == [] && IsNormal(w.lex, "") && Join([]) == "" && Trim("") == ""
  {
  }

  predicate IsEndOf(end: seq<string>, words: seq<string>) {
    |end| <= |words| && end == words[|words| - |end|..]
  }

  /** A canonical phrase, or the end of the words from the first one that is no noise. */
  lemma TrimmedLeadingIsNormal(w: Words, name: string)
    requires w.Valid() && IsNormal(w.lex, name)
    ensures IsNormal(w.lex, TrimmedLeading(w, name))
    ensures var r := TrimmedLeading(w, name);
            Phrase(w, Trim(name)) == "" ==>
              && (r == "" || (Fields(r) != [] && !IsLeadingNoise(w, Fields(r)[0])))
              && IsEndOf(Fields(r), Fields(CutLeading(w.leading, Trim(name))))
  {
    hide IsNormal, Trim, C.PolicyText, Fields, Join, Best, IsLeadingNoise;
    PhraseIsNormal(w, Trim(name));
    NormalIsTrimmed(w.lex, name);
    CutLeadingIsNormal(w.lex, w.leading, name);
    var cut := CutLeading(w.leading, name);
    NormalIsFolded(w.lex, cut);
    var tokens := Fields(cut);
    LeadingIsExact(NoiseTest(w), tokens);
    StretchOfWordsIsNormal(w, cut, LeadingNoise(w, tokens), |tokens|);
    assert tokens[LeadingNoise(w, tokens)..|tokens|] == tokens[LeadingNoise(w, tokens)..];
    EmptyIsNormal(w);
  }

  // ---------- Noise behind ----------

  /** strings.Index; -1 if `part` does not occur. */
  function Index(s: string, part: string): (i: int)
    ensures -1 <= i && (i >= 0 ==> i + |part| <= |s|) && (part == "" ==> i == 0)
    decreases |s|
  {
    if part <= s then 0
    else if s == "" then -1
    else
      var i := Index(s[1..], part);
      if i < 0 then -1 else i + 1
  }

  /** Where a cut phrase first occurs in the name, both ends of which count as blanks. */
  function CutAt(name: string, phrase: string): string {
    var i := Index(" " + name + " ", phrase);
    if i < 0 then name else if i == 0 then Trim(name[..0]) else Trim(name[..i - 1])
  }

  function CutTrailing(cuts: seq<string>, name: string): string {
    if cuts == [] then name else CutAt(CutTrailing(cuts[..|cuts| - 1], name), cuts[|cuts| - 1])
  }

  lemma CutAtIsNormal(lex: C.Lexicon, name: string, phrase: string)
    requires IsNormal(lex, name)
    ensures IsNormal(lex, CutAt(name, phrase))
  {
    hide Trim, IsNeat;
    NormalIsFolded(lex, name);
    var i := Index(" " + name + " ", phrase);
    if i >= 0 {
      var n := if i == 0 then 0 else i - 1;
      StretchTrimsToNormal(lex, name, 0, n);
      assert name[0..n] == name[..n];
    }
  }

  lemma {:induction false} CutTrailingIsNormal(lex: C.Lexicon, cuts: seq<string>, name: string)
    requires IsNormal(lex, name)
    ensures IsNormal(lex, CutTrailing(cuts, name))
  {
    hide IsNormal, CutAt;
    if cuts == [] {
    } else {
      CutTrailingIsNormal(lex, cuts[..|cuts| - 1], name);
      CutAtIsNormal(lex, CutTrailing(cuts[..|cuts| - 1], name), cuts[|cuts| - 1]);
    }
  }

  predicate IsLink(w: Words, token: string) {
    C.PolicyText(w.lex, token) in w.links
  }

  /** Whether the tokens from number `i` on are cut off. */
  predicate CutsAt(w: Words, tokens: seq<string>, i: nat)
    requires i < |tokens|
  {
    var folded := C.PolicyText(w.lex, tokens[i]);
    || (folded in w.stops && i > 0)
    || (folded in w.froms && i + 1 < |tokens| && C.PolicyText(w.lex, tokens[i + 1]) in w.stores)
  }

  datatype Cut = Protected(phrase: string) | Before(n: nat)

  /** The scan over positions `i` to `n`: a phrase that ends here wins over a cut here. */
  function Scan(skips: nat -> bool, phrase: nat -> string, cuts: nat -> bool, i: nat, n: nat): (cut: Cut)
    requires i <= n
    ensures cut.Before? ==> i <= cut.n <= n
    decreases n - i
  {
    if i == n then Before(n)
    else if skips(i) then Scan(skips, phrase, cuts, i + 1, n)
    else if phrase(i) != "" then Protected(phrase(i))
    else if cuts(i) then Before(i)
    else Scan(skips, phrase, cuts, i + 1, n)
  }

  function SkipTest(w: Words, tokens: seq<string>): nat -> bool {
    (i: nat) => i < |tokens| && C.PolicyText(w.lex, tokens[i]) == ""
  }

  /** The canonical phrase in the words up to and with number `i`. */
  function PhraseUpTo(w: Words, tokens: seq<string>): nat -> string {
    (i: nat) => if i < |tokens| then Phrase(w, Join(tokens[..i + 1])) else ""
  }

  function CutTest(w: Words, tokens: seq<string>): nat -> bool {
    (i: nat) => i < |tokens| && CutsAt(w, tokens, i)
  }

  /** The scan for a cut from token `i` on. */
  function FindCut(w: Words, tokens: seq<string>, i: nat): Cut
    requires i <= |tokens|
  {
    Scan(SkipTest(w, tokens), PhraseUpTo(w, tokens), CutTest(w, tokens), i, |tokens|)
  }

  /** How many of the first `n` are left when passing ones at the end are dropped; the first stays. */
  function WithoutLast<T>(test: T -> bool, items: seq<T>, n: nat): (m: nat)
    requires n <= |items|
    ensures m <= n
  {
    if n > 1 && test(items[n - 1]) then WithoutLast(test, items, n - 1) else n
  }

  lemma {:induction false} WithoutLastIsExact<T>(test: T -> bool, items: seq<T>, n: nat)
    requires n <= |items|
    ensures var m := WithoutLast(test, items, n);
            && (n > 0 ==> m > 0) && (m > 1 ==> !test(items[m - 1]))
            && forall i :: m <= i < n ==> test(items[i])
  {
    if n > 1 && test(items[n - 1]) {
      WithoutLastIsExact(test, items, n - 1);
    }
  }

  function LinkTest(w: Words): string -> bool {
    (token: string) => IsLink(w, token)
  }

  /** How many tokens are left when linking words at the end are dropped. */
  function WithoutLinks(w: Words, tokens: seq<string>, n: nat): nat
    requires n <= |tokens|
  {
    WithoutLast(LinkTest(w), tokens, n)
  }

  /** trimDraftTrailingNoise. */
  function TrimmedTrailing(w: Words, name: string): string {
    if Phrase(w, name) != "" then Phrase(w, name)
    else
      var tokens := Fields(CutTrailing(w.cuts, Trim(name)));
      match FindCut(w, tokens, 0)
      case Protected(phrase) => phrase
      case Before(n) => Join(tokens[..WithoutLinks(w, tokens, n)])
  }

  lemma {:induction false} ScanFindsAPhrase(skips: nat -> bool, phrase: nat -> string, cuts: nat -> bool, i: nat, n: nat) returns (k: nat)
    requires i <= n && Scan(skips, phrase, cuts, i, n).Protected?
    ensures Scan(skips, phrase, cuts, i, n).phrase == phrase(k)
    decreases n - i
  {
    if !skips(i) && phrase(i) != "" {
      k := i;
    } else {
      k := ScanFindsAPhrase(skips, phrase, cuts, i + 1, n);
    }
  }

  lemma ProtectedIsNormal(w: Words, tokens: seq<string>)
    requires w.Valid() && FindCut(w, tokens, 0).Protected?
    ensures IsNormal(w.lex, FindCut(w, tokens, 0).phrase)
  {
    hide Phrase, Join, IsNeat;
    var k := ScanFindsAPhrase(SkipTest(w, tokens), PhraseUpTo(w, tokens), CutTest(w, tokens), 0, |tokens|);
    if k < |tokens| {
      PhraseIsNormal(w, Join(tokens[..k + 1]));
    } else {
      EmptyIsNormal(w);
    }
  }

  lemma TrimmedTrailingIsNormal(w: Words, name: string)
    requires w.Valid() && IsNormal(w.lex, name)
    ensures IsNormal(w.lex, TrimmedTrailing(w, name))
    ensures var r, tokens := TrimmedTrailing(w, name), Fields(CutTrailing(w.cuts, Trim(name)));
            Phrase(w, name) == "" && FindCut(w, tokens, 0).Before? ==>
              Fields(r) <= tokens && (|Fields(r)| > 1 ==> !IsLink(w, Fields(r)[|Fields(r)| - 1]))
  {
    hide IsNormal, Trim, C.PolicyText, Fields, Join, Best, IsLink, CutsAt;
    PhraseIsNormal(w, name);
    NormalIsTrimmed(w.lex, name);
    CutTrailingIsNormal(w.lex, w.cuts, name);
    var cut := CutTrailing(w.cuts, name);
    NormalIsFolded(w.lex, cut);
    var tokens := Fields(cut);
    match FindCut(w, tokens, 0)
    case Protected(_) => ProtectedIsNormal(w, tokens);
    case Before(n) =>
      WithoutLastIsExact(LinkTest(w), tokens, n);
      StretchOfWordsIsNormal(w, cut, 0, WithoutLinks(w, tokens, n));
      assert tokens[0..WithoutLinks(w, tokens, n)] == tokens[..WithoutLinks(w, tokens, n)];
  }

  // ---------- The whole ----------

  /** canonicalizeDraftLeadToken. */
  function LeadCanonical(w: Words, name: string): string {
    var tokens := Fields(Trim(name));
    if tokens == [] then ""
    else
      var folded := C.PolicyText(w.lex, tokens[0]);
      Join(if folded in w.lead then tokens[0 := w.lead[folded]] else tokens)
  }

  lemma LeadCanonicalIsNormal(w: Words, name: string)
    requires w.Valid() && IsNormal(w.lex, name)
    ensures IsNormal(w.lex, LeadCanonical(w, name))
  {
    hide C.PolicyText, Trim, Fields, Join, IsNormal;
    NormalIsTrimmed(w.lex, name);
    NormalIsFolded(w.lex, name);
    FieldsAreFolded(w.lex, name);
    EmptyIsNormal(w);
    var tokens := Fields(name);
    if tokens != [] {
      var folded := C.PolicyText(w.lex, tokens[0]);
      JoinIsNormal(w.lex, if folded in w.lead then tokens[0 := w.lead[folded]] else tokens);
    }
  }

  function TrimSet(s: string, cutset: set<char>): string
    decreases |s|
  {
    if s != "" && s[0] in cutset then TrimSet(s[1..], cutset)
    else if s != "" && s[|s| - 1] in cutset then TrimSet(s[..|s| - 1], cutset)
    else s
  }

  const PUNCTUATION: set<char> := {'.', ',', ';', ':', '!', '?'}

  /** A stage whose result a canonical phrase replaces. */
  function OrPhrase(w: Words, name: string, next: string): string {
    if Phrase(w, name) != "" then Phrase(w, name) else next
  }

  /** The name with the noise of both ends taken off. */
  function Trimmed(w: Words, name: string): string {
    Rewritten(w, TrimmedLeading(w, TrimmedTrailing(w, name)))
  }

  /** The part behind the prefix loop: each stage may end it with a canonical phrase. */
  function Finished(w: Words, name: string): string {
    var first := TrimmedLeading(w, name);
    var second := Trimmed(w, first);
    var third := LeadCanonical(w, second);
    OrPhrase(w, name, OrPhrase(w, first, OrPhrase(w, second, OrPhrase(w, third, Trim(third)))))
  }

  /** normalizeDraftName. */
  function NormalName(w: Words, input: string): string {
    var name := Trim(TrimSet(C.FreeText(input), PUNCTUATION));
    if name == "" then "" else Finished(w, StripAll(w, Rewritten(w, name)))
  }

  lemma FinishedIsNormal(w: Words, name: string)
    requires w.Valid() && IsNormal(w.lex, name)
    ensures IsNormal(w.lex, Finished(w, name))
  {
    hide IsNormal, Phrase, TrimmedLeading, TrimmedTrailing, Rewritten, LeadCanonical, Trim;
    var first := TrimmedLeading(w, name);
    TrimmedLeadingIsNormal(w, name);
    TrimmedTrailingIsNormal(w, first);
    TrimmedLeadingIsNormal(w, TrimmedTrailing(w, first));
    RewrittenIsNormal(w, TrimmedLeading(w, TrimmedTrailing(w, first)));
    var second := Trimmed(w, first);
    LeadCanonicalIsNormal(w, second);
    NormalIsTrimmed(w.lex, LeadCanonical(w, second));
    PhraseIsNormal(w, name);
    PhraseIsNormal(w, first);
    PhraseIsNormal(w, second);
    PhraseIsNormal(w, LeadCanonical(w, second));
  }

  /** For every input, the normalised name is its own policy text: folded words, one blank between each two. */
  lemma NormalNameIsNormal(w: Words, input: string)
    requires w.Valid()
    ensures IsNormal(w.lex, NormalName(w, input)) && C.PolicyText(w.lex, NormalName(w, input)) == NormalName(w, input)
  {
    hide IsNormal, Finished, StripAll, Rewritten, Trim, C.PolicyText;
    EmptyIsNormal(w);
    var name := Trim(TrimSet(C.FreeText(input), PUNCTUATION));
    RewrittenIsNormal(w, name);
    var i := StripAllLeavesAnEnd(w, Rewritten(w, name));
    FinishedIsNormal(w, StripAll(w, Rewritten(w, name)));
    NormalIsPolicyText(w.lex, NormalName(w, input));
  }

  // ---------- The names the cleaner compares ----------

  /** A lexicon whose name normalisation is this one. */
  function WithNames(w: Words): C.Lexicon {
    w.lex.(shape := (s: string) => NormalName(w, s))
  }

  /** Under it, the acceptance rule compares exactly the names that normalizeDraftName yields. */
  lemma RuleUsesNormalNames(w: Words, s: string)
    requires w.Valid()
    ensures WithNames(w).Valid() && C.DraftName(WithNames(w), s) == NormalName(w, s)
  {
    C.FreeTextIsJoinedFields(s);
    C.FreeTextIsJoinedFields(C.FreeText(s));
    assert C.FreeText(C.FreeText(s)) == C.FreeText(s);
  }
}

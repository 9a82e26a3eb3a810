/** The loops of normalizeDraftName and its helpers, which compute the names of DraftNames. */
module DraftNameLoops {
  import opened Text
  import C = Cleaner
  import opened DraftNames
  import opened DraftNameLaws

  /** rewriteNormalizedPhrases. */
  method RewritePhrases(w: Words, input: string) returns (r: string)
    ensures r == Rewritten(w, input)
  {
    hide Fields, Join, Trim, C.PolicyText, ReplaceAll;
    if Trim(input) == "" {
      return "";
    }
    var value := " " + C.PolicyText(w.lex, input) + " ";
    ghost var start := value;
    for i := 0 to |w.rewrites|
      invariant value == RewriteEach(w.rewrites[..i], start)
    {
      assert w.rewrites[..i + 1][..i] == w.rewrites[..i];
      var rewrite := w.rewrites[i];
      value := ReplaceAll(value, " " + rewrite.found + " ", " " + rewrite.canonical + " ");
    }
    assert w.rewrites[..|w.rewrites|] == w.rewrites;
    return Trim(Join(Fields(value)));
  }

  /** canonicalProductPhrase. */
  method CanonicalProductPhrase(w: Words, input: string) returns (best: string, ok: bool)
    ensures best == Phrase(w, input) && (ok <==> best != "")
  {
    hide C.PolicyText, Contains;
    var normalized := " " + C.PolicyText(w.lex, input) + " ";
    best := "";
    for i := 0 to |w.rules|
      invariant best == Best(w, w.rules[..i], normalized)
    {
      assert w.rules[..i + 1][..i] == w.rules[..i];
      var rule := w.rules[i];
      if !Contains(normalized, " " + rule.found + " ") {
        continue;
      }
      if w.size(rule.found) > w.size(best) {
        best := rule.canonical;
      }
    }
    assert w.rules[..|w.rules|] == w.rules;
    ok := best != "";
  }

  lemma LowerIsSame(w: Words, name: string)
    requires w.Valid() && IsNormal(w.lex, name)
    ensures Map(w.lower, name) == name
  {
  }

  /** One pass over a list of prefixes: the first that strips is taken off. */
  method StripOne(w: Words, name: string, prefixes: seq<string>) returns (changed: bool, r: string)
    requires w.Valid() && IsNormal(w.lex, name)
    ensures changed <==> FirstStrip(name, prefixes).Some?
    ensures r == if changed then FirstStrip(name, prefixes).value else name
  {
    hide Trim, IsNormal;
    LowerIsSame(w, name);
    var lower := Map(w.lower, name);
    for i := 0 to |prefixes|
      invariant FirstStrip(name, prefixes) == FirstStrip(name, prefixes[i..])
    {
      var prefix := prefixes[i];
      assert prefixes[i..][0] == prefix && prefixes[i..][1..] == prefixes[i + 1..];
      if lower != prefix && !(prefix + " " <= lower) {
        continue;
      }
      var candidate := Trim(name[|prefix|..]);
      if candidate == "" || candidate == name {
        continue;
      }
      TrimStays(name[|prefix|..]);
      return true, Trim(candidate);
    }
    return false, name;
  }

  /** The prefix loop: it ends, with every prefix that strips taken off. */
  method StripPrefixes(w: Words, input: string) returns (name: string)
    requires w.Valid() && IsNormal(w.lex, input)
    ensures name == StripAll(w, input)
  {
    hide IsNormal, FirstStrip;
    name := input;
    var changed := true;
    while changed
      invariant IsNormal(w.lex, name) && StripAll(w, name) == StripAll(w, input)
      invariant !changed ==> name == StripAll(w, name)
      decreases changed, |name|
    {
      ghost var before := name;
      changed, name := StripOne(w, name, w.filler);
      if changed {
        var _ := FirstStripCuts(w.lex, before, w.filler);
        continue;
      }
      changed, name := StripOne(w, name, w.action);
      if changed {
        var _ := FirstStripCuts(w.lex, before, w.action);
      }
    }
  }

  lemma EndIsTrimmed(w: Words, s: string, start: nat)
    requires w.Valid() && IsNormal(w.lex, s) && start <= |Fields(s)|
    ensures Trim(Join(Fields(s)[start..])) == Join(Fields(s)[start..])
  {
    NormalIsFolded(w.lex, s);
    StretchOfWordsIsNormal(w, s, start, |Fields(s)|);
    assert Fields(s)[start..|Fields(s)|] == Fields(s)[start..];
  }

  /** trimDraftLeadingNoise. */
  method TrimLeadingNoise(w: Words, name: string) returns (r: string)
    requires w.Valid() && IsNormal(w.lex, name)
    ensures r == TrimmedLeading(w, name)
  {
    hide C.PolicyText, Best, Trim, Fields, Join, IsNormal, IsLeadingNoise, Words.Valid;
    NormalIsTrimmed(w.lex, name);
    var trimmed := Trim(name);
    var canonical, ok := CanonicalProductPhrase(w, trimmed);
    if ok {
      return canonical;
    }
    for i := 0 to |w.leading|
      invariant trimmed == CutLeading(w.leading[..i], name) && IsNormal(w.lex, trimmed)
    {
      assert w.leading[..i + 1][..i] == w.leading[..i];
      var phrase := w.leading[i];
      NormalIsItself(w, trimmed);
      if phrase + " " <= C.PolicyText(w.lex, trimmed) {
        CutIsNormal(w.lex, trimmed, |phrase|);
        trimmed := Trim(trimmed[|phrase|..]);
      }
    }
    assert w.leading[..|w.leading|] == w.leading;
    var tokens := Fields(trimmed);
    var start := 0;
    while start < |tokens|
      invariant start <= |tokens|
      invariant LeadingNoise(w, tokens) == start + LeadingNoise(w, tokens[start..])
    {
      assert tokens[start..][1..] == tokens[start + 1..];
      if !IsLeadingNoise(w, tokens[start]) {
        break;
      }
      start := start + 1;
    }
    EmptyIsNormal(w);
    if start >= |tokens| {
      assert tokens[start..] == [];
      return "";
    }
    EndIsTrimmed(w, trimmed, start);
    return Trim(Join(tokens[start..]));
  }

  /** The first loop of the trailing trim. */
  method CutPhrases(w: Words, input: string) returns (name: string)
    requires w.Valid() && IsNormal(w.lex, input)
    ensures name == CutTrailing(w.cuts, input)
  {
    hide Trim, IsNormal, Index;
    name := input;
    LowerIsSame(w, name);
    var lower := " " + Map(w.lower, name) + " ";
    for i := 0 to |w.cuts|
      invariant IsNormal(w.lex, name) && lower == " " + name + " "
      invariant name == CutTrailing(w.cuts[..i], input)
    {
      assert w.cuts[..i + 1][..i] == w.cuts[..i];
      var idx := Index(lower, w.cuts[i]);
      CutAtIsNormal(w.lex, name, w.cuts[i]);
      if idx >= 0 {
        var start := if idx - 1 < 0 then 0 else idx - 1;
        name := Trim(name[..start]);
        LowerIsSame(w, name);
        lower := " " + Map(w.lower, name) + " ";
      }
    }
    assert w.cuts[..|w.cuts|] == w.cuts;
  }

  lemma {:induction false} NothingToCut(cuts: seq<string>)
    ensures CutTrailing(cuts, "") == ""
  {
    if cuts == [] {
    } else {
      NothingToCut(cuts[..|cuts| - 1]);
      NothingIsCut(cuts[|cuts| - 1]);
    }
  }

  lemma NothingIsCut(phrase: string)
    ensures CutAt("", phrase) == ""
  {
  }

  lemma BeginningIsTrimmed(w: Words, s: string, n: nat)
    requires w.Valid() && IsNormal(w.lex, s) && n <= |Fields(s)|
    ensures var r := Join(Fields(s)[..n]); Trim(r) == r && Fields(r) == Fields(s)[..n]
  {
    NormalIsFolded(w.lex, s);
    StretchOfWordsIsNormal(w, s, 0, n);
    assert Fields(s)[0..n] == Fields(s)[..n];
  }

  /** trimDraftTrailingNoise. */
  method TrimTrailingNoise(w: Words, name: string) returns (r: string)
    requires w.Valid() && IsNormal(w.lex, name)
    ensures r == TrimmedTrailing(w, name)
  {
    hide C.PolicyText, Best, Trim, Fields, Join, IsNormal, IsLink, CutsAt, CutTrailing, Words.Valid;
    var canonical, ok := CanonicalProductPhrase(w, name);
    if ok {
      return canonical;
    }
    NormalIsTrimmed(w.lex, name);
    EmptyIsNormal(w);
    var trimmed := Trim(name);
    if trimmed == "" {
      NothingToCut(w.cuts);
      return "";
    }
    trimmed := CutPhrases(w, trimmed);
    var tokens := Fields(trimmed);
    var cut := |tokens|;
    var i := 0;
    while i < |tokens|
      invariant i <= |tokens| == cut
      invariant FindCut(w, tokens, 0) == FindCut(w, tokens, i)
    {
      if C.PolicyText(w.lex, tokens[i]) == "" {
        i := i + 1;
        continue;
      }
      var protected, isProtected := CanonicalProductPhrase(w, Join(tokens[..i + 1]));
      if isProtected {
        return protected;
      }
      if CutsAt(w, tokens, i) {
        cut := i;
        break;
      }
      i := i + 1;
    }
    assert FindCut(w, tokens, 0) == Before(cut);
    if cut == 0 {
      assert tokens[..0] == [];
      return "";
    }
    CutTrailingIsNormal(w.lex, w.cuts, name);
    BeginningIsTrimmed(w, trimmed, cut);
    var left := Fields(Trim(Join(tokens[..cut])));
    var n: nat := |left|;
    while n > 1 && IsLink(w, left[n - 1])
      invariant 0 < n <= |left|
      invariant WithoutLinks(w, tokens, cut) == WithoutLinks(w, tokens, n)
    {
      n := n - 1;
    }
    BeginningIsTrimmed(w, trimmed, n);
    assert left[..n] == tokens[..n];
    return Trim(Join(left[..n]));
  }

  /** normalizeDraftName. */
  method NormalizeDraftName(w: Words, input: string) returns (name: string)
    requires w.Valid()
    ensures name == NormalName(w, input)
  {
    hide C.PolicyText, C.FreeText, Trim, TrimSet, IsNormal, Phrase, Rewritten, StripAll;
    hide TrimmedLeading, TrimmedTrailing, LeadCanonical;
    name := Trim(TrimSet(C.FreeText(input), PUNCTUATION));
    if name == "" {
      return "";
    }
    RewrittenIsNormal(w, name);
    name := RewritePhrases(w, name);
    var _ := StripAllLeavesAnEnd(w, name);
    name := StripPrefixes(w, name);
    name := FinishName(w, name);
  }

  /** The part of normalizeDraftName behind the prefix loop. */
  method FinishName(w: Words, stripped: string) returns (name: string)
    requires w.Valid() && IsNormal(w.lex, stripped)
    ensures name == Finished(w, stripped)
  {
    hide C.PolicyText, Trim, IsNormal, Phrase, Rewritten, TrimmedLeading, TrimmedTrailing, LeadCanonical;
    name := stripped;
    var canonical, ok := CanonicalProductPhrase(w, name);
    if ok {
      return canonical;
    }
    TrimmedLeadingIsNormal(w, name);
    name := TrimLeadingNoise(w, name);
    canonical, ok := CanonicalProductPhrase(w, name);
    if ok {
      return canonical;
    }
    TrimmedTrailingIsNormal(w, name);
    name := TrimTrailingNoise(w, name);
    name := TrimLeadingNoise(w, name);
    name := RewritePhrases(w, name);
    canonical, ok := CanonicalProductPhrase(w, name);
    if ok {
      return canonical;
    }
    name := LeadCanonical(w, name);
    canonical, ok := CanonicalProductPhrase(w, name);
    if ok {
      return canonical;
    }
    return Trim(name);
  }
}

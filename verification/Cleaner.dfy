/**
 The background cleaner's acceptance rule, and why it can only improve a draft: every accepted
 candidate strictly lowers one well-founded rank.
 */
module Cleaner {
  import opened Wrappers
  import opened Text
  import opened Alignment

  /**
   The tables and functions the rule is built on. `fold` lower-cases a rune, replaces one letter
   variant and turns every rune that is neither letter nor digit into a space; `shape` is what
   name normalisation does after its first step, the normalisation of free text.
   */
  datatype Lexicon = Lexicon(fold: char -> char, shape: string -> string, noise: set<string>, lead: map<string, string>)
  {
    /** Spaces fold to spaces, and the noise table lists words in folded form. */
    ghost predicate Valid() {
      && (forall c :: IsSpace(c) ==> IsSpace(fold(c)))
      && (forall w <- noise :: IsWord(w) && Map(fold, w) == w)
    }
  }

  function Blank(c: char): char {
    if c == '\r' || c == '\n' || c == '\t' || c == '\U{A0}' then ' ' else c
  }

  /** normalizeFreeText. */
  function FreeText(s: string): string {
    Join(Fields(Map(Blank, Trim(s))))
  }

  /** normalizedPolicyText. */
  function PolicyText(lex: Lexicon, s: string): string {
    Join(Fields(Map(lex.fold, FreeText(s))))
  }

  /** normalizeDraftName. */
  function DraftName(lex: Lexicon, s: string): string {
    lex.shape(FreeText(s))
  }

  function Tokens(lex: Lexicon, s: string): seq<string> {
    Fields(PolicyText(lex, s))
  }

  /** isCleanerNoiseToken. */
  predicate IsNoise(lex: Lexicon, token: string) {
    PolicyText(lex, token) != "" && PolicyText(lex, token) in lex.noise
  }

  function CountNoise(lex: Lexicon, tokens: seq<string>): nat {
    if tokens == [] then 0
    else CountNoise(lex, tokens[..|tokens| - 1]) + if IsNoise(lex, tokens[|tokens| - 1]) then 1 else 0
  }

  function NoiseScore(lex: Lexicon, name: string): nat {
    CountNoise(lex, Tokens(lex, name))
  }

  method NameNoiseScore(lex: Lexicon, name: string) returns (score: nat)
    ensures score == NoiseScore(lex, name)
  {
    var tokens := Tokens(lex, name);
    score := 0;
    for i := 0 to |tokens|
      invariant score == CountNoise(lex, tokens[..i])
    {
      if IsNoise(lex, tokens[i]) {
        score := score + 1;
      }
      assert tokens[..i + 1][..i] == tokens[..i];
    }
    assert tokens[..|tokens|] == tokens;
  }

  // ---------- Policy tokens of a text, word by word ----------

  lemma {:induction false} MapFields(f: char -> char, s: string)
    requires forall c :: IsSpace(c) ==> IsSpace(f(c))
    ensures Fields(Map(f, s)) == Flatten(f, Fields(s))
    decreases |s|
  {
    if s == "" {
    } else if IsSpace(s[0]) {
      assert Map(f, s)[1..] == Map(f, s[1..]);
      MapFields(f, s[1..]);
    } else {
      var n := WordLength(s);
      assert s == s[..n] + s[n..];
      MapConcat(f, s[..n], s[n..]);
      FieldsSplit(Map(f, s[..n]), Map(f, s[n..]));
      MapFields(f, s[n..]);
      assert ([s[..n]] + Fields(s[n..]))[1..] == Fields(s[n..]);
    }
  }

  /** The words that each of `words` falls into once mapped. */
  function Flatten(f: char -> char, words: seq<string>): seq<string> {
    if words == [] then [] else Fields(Map(f, words[0])) + Flatten(f, words[1..])
  }

  lemma {:induction false} BlankKeepsFields(s: string)
    ensures Fields(Map(Blank, s)) == Fields(s)
  {
    MapFields(Blank, s);
    FieldsAreWords(s);
    BlankKeepsWords(Fields(s));
  }

  lemma {:induction false} BlankKeepsWords(words: seq<string>)
    requires forall w <- words :: IsWord(w)
    ensures Flatten(Blank, words) == words
  {
    if words == [] {
    } else {
      assert IsWord(words[0]);
      assert forall i :: 0 <= i < |words[0]| ==> Blank(words[0][i]) == words[0][i];
      assert Map(Blank, words[0]) == words[0];
      FieldsOfWord(words[0]);
      BlankKeepsWords(words[1..]);
    }
  }

  /** Free-text normalisation only sees the words of a text. */
  lemma FreeTextIsJoinedFields(s: string)
    ensures FreeText(s) == Join(Fields(s)) && Fields(FreeText(s)) == Fields(s)
  {
    FieldsTrim(s);
    BlankKeepsFields(Trim(s));
    FieldsAreWords(s);
    FieldsJoin(Fields(s));
  }

  lemma TrimKeepsFreeText(s: string)
    ensures FreeText(Trim(s)) == FreeText(s)
  {
    FreeTextIsJoinedFields(s);
    FreeTextIsJoinedFields(Trim(s));
    FieldsTrim(s);
  }

  /** The policy tokens of a text are those of its words, in order; they are also the words of the folded text. */
  lemma TokensByWord(lex: Lexicon, s: string)
    requires lex.Valid()
    ensures Tokens(lex, s) == Flatten(lex.fold, Fields(s)) == Fields(Map(lex.fold, s))
  {
    FreeTextIsJoinedFields(s);
    MapFields(lex.fold, FreeText(s));
    MapFields(lex.fold, s);
    FieldsAreWords(Map(lex.fold, FreeText(s)));
    FieldsJoin(Fields(Map(lex.fold, FreeText(s))));
  }

  /** A folded word is noise exactly if the table lists it. */
  lemma NoiseIsListed(lex: Lexicon, word: string)
    requires lex.Valid() && IsWord(word) && Map(lex.fold, word) == word
    ensures IsNoise(lex, word) <==> word in lex.noise
  {
    FreeTextIsJoinedFields(word);
    FieldsOfWord(word);
  }

  /** A noise token is a single policy token, and that one is noise. */
  lemma NoiseTokenCountsOne(lex: Lexicon, token: string)
    requires lex.Valid() && IsNoise(lex, token)
    ensures CountNoise(lex, Fields(Map(lex.fold, token))) == 1
  {
    var w := PolicyText(lex, token);
    assert IsWord(w) && Map(lex.fold, w) == w;
    FieldsOfWord(w);
    TokensByWord(lex, token);
    assert Fields(Map(lex.fold, token)) == [w];
    TokensByWord(lex, w);
    FreeTextIsJoinedFields(w);
    assert PolicyText(lex, w) == w;
    assert [w][..0] == [];
  }

  lemma {:induction false} CountNoiseConcat(lex: Lexicon, a: seq<string>, b: seq<string>)
    ensures CountNoise(lex, a + b) == CountNoise(lex, a) + CountNoise(lex, b)
  {
    if b == [] {
      assert a + b == a;
    } else {
      assert (a + b)[..|a + b| - 1] == a + b[..|b| - 1];
      CountNoiseConcat(lex, a, b[..|b| - 1]);
    }
  }

  // ---------- Candidates that only remove noise ----------

  function NoiseTest(lex: Lexicon): string -> bool {
    (token: string) => IsNoise(lex, token)
  }

  /** Some choice of deleted tokens, all noise and at least one, turns the current name into a non-empty candidate. */
  ghost predicate RemovesOnlyNoise(lex: Lexicon, current: string, candidate: string) {
    RemovesOnly(NoiseTest(lex), Fields(current), Fields(candidate))
  }

  method CandidateRemovesOnlyNoise(lex: Lexicon, current: string, candidate: string) returns (result: bool)
    ensures result <==> RemovesOnlyNoise(lex, current, candidate)
  {
    result := MatchGreedily(NoiseTest(lex), Fields(current), Fields(candidate));
  }

  /** The noise among the policy tokens of one word. */
  function Weight(lex: Lexicon): string -> nat {
    (word: string) => CountNoise(lex, Fields(Map(lex.fold, word)))
  }

  lemma {:induction false} NoiseByWord(lex: Lexicon, words: seq<string>)
    ensures CountNoise(lex, Flatten(lex.fold, words)) == Sum(Weight(lex), words)
  {
    if words == [] {
    } else {
      CountNoiseConcat(lex, Fields(Map(lex.fold, words[0])), Flatten(lex.fold, words[1..]));
      NoiseByWord(lex, words[1..]);
    }
  }

  /** Deleting noise tokens lowers the noise score by their number. */
  lemma NoiseRemovalLowersScore(lex: Lexicon, current: string, candidate: string)
    requires lex.Valid() && RemovesOnlyNoise(lex, current, candidate)
    ensures NoiseScore(lex, candidate) < NoiseScore(lex, current)
  {
    hide Fields, Map, Flatten, PolicyText, CountNoise, Sum, Kept, Dropped, IsNoise;
    var tokens := Fields(current);
    var keep :| Deletes(NoiseTest(lex), tokens, Fields(candidate), keep);
    forall i | 0 <= i < |Dropped(tokens, keep)| ensures Weight(lex)(Dropped(tokens, keep)[i]) == 1 {
      assert NoiseTest(lex)(Dropped(tokens, keep)[i]);
      NoiseTokenCountsOne(lex, Dropped(tokens, keep)[i]);
    }
    DeletionLowersSum(Weight(lex), tokens, keep);
    NoiseByWord(lex, tokens);
    NoiseByWord(lex, Fields(candidate));
    TokensByWord(lex, current);
    TokensByWord(lex, candidate);
  }

  // ---------- The acceptance rule ----------

  /** cleanerCanonicalNameToken. */
  function CanonicalToken(lex: Lexicon, token: string): string {
    var folded := PolicyText(lex, token);
    if folded in lex.lead then lex.lead[folded] else folded
  }

  function CanonicalTokens(lex: Lexicon, tokens: seq<string>): set<string> {
    set token <- tokens | CanonicalToken(lex, token) != "" :: CanonicalToken(lex, token)
  }

  /** cleanerCandidateMatchesCurrentEntity: the candidate names nothing that the current name does not. */
  predicate MatchesEntity(lex: Lexicon, current: string, candidate: string) {
    var name, proposed := DraftName(lex, current), DraftName(lex, candidate);
    && name != "" && proposed != ""
    && (name == proposed || CanonicalTokens(lex, Tokens(lex, proposed)) <= CanonicalTokens(lex, Tokens(lex, name)))
  }

  lemma CanonicalSnoc(lex: Lexicon, tokens: seq<string>, i: nat)
    requires i < |tokens|
    ensures CanonicalTokens(lex, tokens[..i + 1]) ==
            CanonicalTokens(lex, tokens[..i]) +
            (var token := CanonicalToken(lex, tokens[i]); if token != "" then {token} else {})
  {
    assert tokens[..i + 1] == tokens[..i] + [tokens[i]];
  }

  /** cleanerNameTokenSet. */
  method NameTokenSet(lex: Lexicon, name: string) returns (known: set<string>)
    ensures known == CanonicalTokens(lex, Tokens(lex, name))
  {
    var tokens := Tokens(lex, name);
    known := {};
    for i := 0 to |tokens|
      invariant known == CanonicalTokens(lex, tokens[..i])
    {
      CanonicalSnoc(lex, tokens, i);
      var token := CanonicalToken(lex, tokens[i]);
      if token != "" {
        known := known + {token};
      }
    }
    assert tokens[..|tokens|] == tokens;
  }

  method CandidateMatchesCurrentEntity(lex: Lexicon, current: string, candidate: string) returns (result: bool)
    ensures result == MatchesEntity(lex, current, candidate)
  {
    var name, proposed := DraftName(lex, current), DraftName(lex, candidate);
    if name == "" || proposed == "" {
      return false;
    }
    if name == proposed {
      return true;
    }
    var known := NameTokenSet(lex, name);
    var tokens := Tokens(lex, proposed);
    for i := 0 to |tokens|
      invariant CanonicalTokens(lex, tokens[..i]) <= known
    {
      CanonicalSnoc(lex, tokens, i);
      var token := CanonicalToken(lex, tokens[i]);
      if token != "" && token !in known {
        assert token in CanonicalTokens(lex, tokens);
        return false;
      }
    }
    assert tokens[..|tokens|] == tokens;
    return true;
  }

  /** candidateHasDisallowedExpansion. */
  predicate DisallowedExpansion(lex: Lexicon, current: string, candidate: string) {
    || NoiseScore(lex, candidate) > NoiseScore(lex, current)
    || (&& |Tokens(lex, candidate)| > |Tokens(lex, current)| && !Contains(current, candidate)
        && exists token <- Tokens(lex, candidate) :: IsNoise(lex, token))
  }

  /** The two fields the rule compares: the name, and the calendar day of the expiry date. */
  datatype Fieldset = Fieldset(name: string, day: Option<int>)
  {
    predicate HasName() {
      Trim(name) != ""
    }
  }

  datatype Verdict =
    | DraftNotReady | CandidateEmpty | CandidateDropsDate | CandidateChangesDate | NoImprovement
    | SameCandidate | UnrelatedEntity | AddsNoise | NameNotBetter
    | AddsName | AddsDate | RemovesNoise | CleanerName | ShorterName

  predicate Accepts(v: Verdict) {
    v.AddsName? || v.AddsDate? || v.RemovesNoise? || v.CleanerName? || v.ShorterName?
  }

  /** shouldApplyBackgroundCleaner. */
  ghost function Judge(lex: Lexicon, ready: bool, current: Fieldset, candidate: Fieldset): Verdict {
    if !ready then DraftNotReady
    else if !candidate.HasName() && candidate.day.None? then CandidateEmpty
    else if current.day.Some? && candidate.day.None? then CandidateDropsDate
    else if current.day.Some? && current.day != candidate.day then CandidateChangesDate
    else if !current.HasName() && candidate.HasName() then AddsName
    else if current.day.None? && candidate.day.Some? then AddsDate
    else if !current.HasName() || !candidate.HasName() then NoImprovement
    else JudgeNames(lex, DraftName(lex, current.name), DraftName(lex, candidate.name), current.day == candidate.day)
  }

  ghost function JudgeNames(lex: Lexicon, current: string, candidate: string, sameDay: bool): Verdict {
    if current == candidate && sameDay then SameCandidate
    else if !MatchesEntity(lex, current, candidate) then UnrelatedEntity
    else if RemovesOnlyNoise(lex, current, candidate) then RemovesNoise
    else if NoiseScore(lex, candidate) > NoiseScore(lex, current) then AddsNoise
    else if DisallowedExpansion(lex, current, candidate) then AddsNoise
    else if NoiseScore(lex, candidate) < NoiseScore(lex, current) then CleanerName
    else if |Tokens(lex, candidate)| < |Tokens(lex, current)| then ShorterName
    else if Contains(current, candidate) && candidate != "" then ShorterName
    else NameNotBetter
  }

  method ShouldApplyBackgroundCleaner(lex: Lexicon, ready: bool, current: Fieldset, candidate: Fieldset)
    returns (apply: bool, reason: Verdict)
    ensures reason == Judge(lex, ready, current, candidate) && apply == Accepts(reason)
  {
    if !ready {
      return false, DraftNotReady;
    }
    var currentHasName, candidateHasName := Trim(current.name) != "", Trim(candidate.name) != "";
    var currentHasDate, candidateHasDate := current.day.Some?, candidate.day.Some?;
    if !candidateHasName && !candidateHasDate {
      return false, CandidateEmpty;
    }
    if currentHasDate && !candidateHasDate {
      return false, CandidateDropsDate;
    }
    if currentHasDate && candidateHasDate && current.day != candidate.day {
      return false, CandidateChangesDate;
    }
    if !currentHasName && candidateHasName {
      return true, AddsName;
    }
    if !currentHasDate && candidateHasDate {
      return true, AddsDate;
    }
    if !currentHasName || !candidateHasName {
      return false, NoImprovement;
    }
    reason := CompareNames(lex, DraftName(lex, current.name), DraftName(lex, candidate.name), current.day == candidate.day);
    apply := Accepts(reason);
  }

  /** The second half of the rule: both names are there, and the date stays. */
  method CompareNames(lex: Lexicon, currentName: string, candidateName: string, sameDay: bool) returns (reason: Verdict)
    ensures reason == JudgeNames(lex, currentName, candidateName, sameDay)
  {
    if currentName == candidateName && sameDay {
      return SameCandidate;
    }
    var related := CandidateMatchesCurrentEntity(lex, currentName, candidateName);
    if !related {
      return UnrelatedEntity;
    }
    var removesNoise := CandidateRemovesOnlyNoise(lex, currentName, candidateName);
    if removesNoise {
      return RemovesNoise;
    }
    var currentNoise := NameNoiseScore(lex, currentName);
    var candidateNoise := NameNoiseScore(lex, candidateName);
    if candidateNoise > currentNoise {
      return AddsNoise;
    }
    if DisallowedExpansion(lex, currentName, candidateName) {
      return AddsNoise;
    }
    if candidateNoise < currentNoise {
      return CleanerName;
    }
    if |Tokens(lex, candidateName)| < |Tokens(lex, currentName)| {
      return ShorterName;
    }
    if Contains(currentName, candidateName) && candidateName != "" {
      return ShorterName;
    }
    return NameNotBetter;
  }

  // ---------- Accepted candidates rank strictly lower ----------

  datatype Rank = Rank(dateMissing: nat, nameMissing: nat, noise: nat, tokens: nat, length: nat)

  function RankOf(lex: Lexicon, draft: Fieldset): Rank {
    var name := DraftName(lex, draft.name);
    Rank(if draft.day.Some? then 0 else 1, if draft.HasName() then 0 else 1,
         NoiseScore(lex, name), |Tokens(lex, name)|, |name|)
  }

  /** The lexicographic order of ranks. */
  predicate Below(r: Rank, s: Rank) {
    || r.dateMissing < s.dateMissing
    || (r.dateMissing == s.dateMissing &&
        (|| r.nameMissing < s.nameMissing
         || (r.nameMissing == s.nameMissing &&
             (|| r.noise < s.noise
              || (r.noise == s.noise &&
                  (|| r.tokens < s.tokens
                   || (r.tokens == s.tokens && r.length < s.length)))))))
  }

  lemma ContainedNameIsNoLonger(lex: Lexicon, current: string, candidate: string)
    requires lex.Valid() && Contains(current, candidate)
    ensures |Tokens(lex, candidate)| <= |Tokens(lex, current)|
    ensures candidate != current ==> |candidate| < |current|
  {
    var before, after := ContainsSplits(current, candidate);
    TokensByWord(lex, current);
    TokensByWord(lex, candidate);
    MapConcat(lex.fold, before + candidate, after);
    MapConcat(lex.fold, before, candidate);
    PartHasFewerWords(Map(lex.fold, before), Map(lex.fold, candidate), Map(lex.fold, after));
    if |candidate| == |current| {
      assert before == "" && after == "";
    }
  }

  /**
   An accepted candidate ranks strictly below the draft it replaces, never changes the day of a
   date that is there, and never makes a complete draft incomplete.
   */
  lemma AcceptedCandidateImproves(lex: Lexicon, current: Fieldset, candidate: Fieldset)
    requires lex.Valid() && Accepts(Judge(lex, true, current, candidate))
    ensures Below(RankOf(lex, candidate), RankOf(lex, current))
    ensures current.day.Some? ==> candidate.day == current.day
    ensures current.HasName() && current.day.Some? ==> candidate.HasName() && candidate.day.Some?
  {
    var name, proposed := DraftName(lex, current.name), DraftName(lex, candidate.name);
    match Judge(lex, true, current, candidate)
    case RemovesNoise => NoiseRemovalLowersScore(lex, name, proposed);
    case ShorterName =>
      if Contains(name, proposed) {
        ContainedNameIsNoLonger(lex, name, proposed);
      }
    case _ =>
  }

  // ---------- Exactly what is accepted, and why ----------

  function WordCount(lex: Lexicon): string -> nat {
    (word: string) => |Fields(Map(lex.fold, word))|
  }

  lemma {:induction false} TokensCountByWord(lex: Lexicon, words: seq<string>)
    ensures |Flatten(lex.fold, words)| == Sum(WordCount(lex), words)
  {
    if words == [] {
    } else {
      TokensCountByWord(lex, words[1..]);
    }
  }

  lemma NoiseTokenIsOne(lex: Lexicon, token: string)
    requires lex.Valid() && IsNoise(lex, token)
    ensures |Fields(Map(lex.fold, token))| == 1
  {
    var w := PolicyText(lex, token);
    TokensByWord(lex, token);
    FieldsOfWord(w);
  }

  /** Deleting noise tokens lowers the number of tokens. */
  lemma NoiseRemovalShortens(lex: Lexicon, current: string, candidate: string)
    requires lex.Valid() && RemovesOnlyNoise(lex, current, candidate)
    ensures |Tokens(lex, candidate)| < |Tokens(lex, current)|
  {
    hide Fields, Map, Flatten, PolicyText, Sum, Kept, Dropped, IsNoise;
    var tokens := Fields(current);
    var keep :| Deletes(NoiseTest(lex), tokens, Fields(candidate), keep);
    forall i | 0 <= i < |Dropped(tokens, keep)| ensures WordCount(lex)(Dropped(tokens, keep)[i]) == 1 {
      assert NoiseTest(lex)(Dropped(tokens, keep)[i]);
      NoiseTokenIsOne(lex, Dropped(tokens, keep)[i]);
    }
    DeletionLowersSum(WordCount(lex), tokens, keep);
    TokensCountByWord(lex, tokens);
    TokensCountByWord(lex, Fields(candidate));
    TokensByWord(lex, current);
    TokensByWord(lex, candidate);
  }

  /**
   Of two normalised names: the candidate says nothing new, is no longer unless it is part of the
   current one or free of noise, and has less noise, or as much and is shorter.
   */
  ghost predicate IsBetterName(lex: Lexicon, current: string, candidate: string) {
    var noise, noise' := NoiseScore(lex, current), NoiseScore(lex, candidate);
    && candidate != current
    && MatchesEntity(lex, current, candidate)
    && (|| |Tokens(lex, candidate)| <= |Tokens(lex, current)| || Contains(current, candidate)
        || forall token <- Tokens(lex, candidate) :: !IsNoise(lex, token))
    && (|| noise' < noise
        || (noise' == noise
            && (|| |Tokens(lex, candidate)| < |Tokens(lex, current)|
                || (candidate != "" && Contains(current, candidate)))))
  }

  /** The candidate keeps a date that is there, and adds the name, adds the date, or betters the name. */
  ghost predicate IsImprovement(lex: Lexicon, current: Fieldset, candidate: Fieldset) {
    && (current.day.Some? ==> candidate.day == current.day)
    && (|| (!current.HasName() && candidate.HasName())
        || (current.day.None? && candidate.day.Some?)
        || (current.HasName() && candidate.HasName()
            && IsBetterName(lex, DraftName(lex, current.name), DraftName(lex, candidate.name))))
  }

  lemma RemovalIsBetter(lex: Lexicon, current: string, candidate: string)
    requires lex.Valid() && MatchesEntity(lex, current, candidate) && RemovesOnlyNoise(lex, current, candidate)
    ensures IsBetterName(lex, current, candidate) && !DisallowedExpansion(lex, current, candidate)
  {
    NoiseRemovalLowersScore(lex, current, candidate);
    NoiseRemovalShortens(lex, current, candidate);
  }

  /** The rule accepts exactly the improvements of a ready draft. */
  lemma AcceptsExactlyImprovements(lex: Lexicon, ready: bool, current: Fieldset, candidate: Fieldset)
    requires lex.Valid()
    ensures Accepts(Judge(lex, ready, current, candidate)) <==> ready && IsImprovement(lex, current, candidate)
  {
    hide DraftName, MatchesEntity, RemovesOnlyNoise, NoiseScore, Tokens, Trim, Contains, IsNoise;
    var name, proposed := DraftName(lex, current.name), DraftName(lex, candidate.name);
    if RemovesOnlyNoise(lex, name, proposed) && MatchesEntity(lex, name, proposed) {
      RemovalIsBetter(lex, name, proposed);
    }
  }

  lemma MoreNoiseIsDisallowed(lex: Lexicon, current: string, candidate: string)
    ensures NoiseScore(lex, candidate) > NoiseScore(lex, current) ==> DisallowedExpansion(lex, current, candidate)
  {
  }

  /** Both names are there and the date stays, and the candidate names nothing that the current name does not. */
  ghost predicate ComparesNames(lex: Lexicon, current: Fieldset, candidate: Fieldset) {
    && current.HasName() && candidate.HasName() && candidate.day == current.day
    && MatchesEntity(lex, DraftName(lex, current.name), DraftName(lex, candidate.name))
  }

  /**
   The reason given for an acceptance, each exactly where it applies: a missing name comes before a
   missing date, removed noise before a lower score, and that before a shorter name.
   */
  lemma ReasonsAreExact(lex: Lexicon, current: Fieldset, candidate: Fieldset)
    requires lex.Valid()
    ensures var reason := Judge(lex, true, current, candidate);
            var name, proposed := DraftName(lex, current.name), DraftName(lex, candidate.name);
            && (reason == AddsName <==>
                  !current.HasName() && candidate.HasName() && (current.day.Some? ==> candidate.day == current.day))
            && (reason == AddsDate <==>
                  current.day.None? && candidate.day.Some? && (current.HasName() || !candidate.HasName()))
            && (reason == RemovesNoise <==>
                  ComparesNames(lex, current, candidate) && RemovesOnlyNoise(lex, name, proposed))
            && (reason == CleanerName <==>
                  && ComparesNames(lex, current, candidate) && !RemovesOnlyNoise(lex, name, proposed)
                  && !DisallowedExpansion(lex, name, proposed) && NoiseScore(lex, proposed) < NoiseScore(lex, name))
            && (reason == ShorterName <==>
                  && ComparesNames(lex, current, candidate) && proposed != name
                  && !DisallowedExpansion(lex, name, proposed) && NoiseScore(lex, proposed) == NoiseScore(lex, name)
                  && (|Tokens(lex, proposed)| < |Tokens(lex, name)| || (proposed != "" && Contains(name, proposed))))
  {
    hide DraftName, MatchesEntity, RemovesOnlyNoise, DisallowedExpansion, NoiseScore, Tokens, Trim, Contains;
    var name, proposed := DraftName(lex, current.name), DraftName(lex, candidate.name);
    if RemovesOnlyNoise(lex, name, proposed) {
      RemovalChanges(lex, name, proposed);
    }
    MoreNoiseIsDisallowed(lex, name, proposed);
  }

  lemma RemovalChanges(lex: Lexicon, current: string, candidate: string)
    requires lex.Valid() && RemovesOnlyNoise(lex, current, candidate)
    ensures candidate != current && NoiseScore(lex, candidate) < NoiseScore(lex, current)
  {
    NoiseRemovalLowersScore(lex, current, candidate);
  }

  /** The reason given for a refusal of a ready draft. */
  lemma RefusalsAreExact(lex: Lexicon, current: Fieldset, candidate: Fieldset)
    requires lex.Valid()
    ensures var reason := Judge(lex, true, current, candidate);
            var name, proposed := DraftName(lex, current.name), DraftName(lex, candidate.name);
            var both := current.HasName() && candidate.HasName() && candidate.day == current.day;
            && reason != DraftNotReady
            && (reason == CandidateEmpty <==> !candidate.HasName() && candidate.day.None?)
            && (reason == CandidateDropsDate <==> candidate.HasName() && current.day.Some? && candidate.day.None?)
            && (reason == CandidateChangesDate <==> current.day.Some? && candidate.day.Some? && current.day != candidate.day)
            && (reason == NoImprovement <==> current.day.Some? && candidate.day == current.day && !candidate.HasName())
            && (reason == SameCandidate <==> both && proposed == name)
            && (reason == UnrelatedEntity <==> both && proposed != name && !MatchesEntity(lex, name, proposed))
            && (reason == AddsNoise <==> ComparesNames(lex, current, candidate) && proposed != name
                                         && DisallowedExpansion(lex, name, proposed))
  {
    hide DraftName, MatchesEntity, RemovesOnlyNoise, DisallowedExpansion, NoiseScore, Tokens, Trim, Contains;
    var name, proposed := DraftName(lex, current.name), DraftName(lex, candidate.name);
    if RemovesOnlyNoise(lex, name, proposed) && MatchesEntity(lex, name, proposed) {
      RemovalIsBetter(lex, name, proposed);
    }
    MoreNoiseIsDisallowed(lex, name, proposed);
  }

  /** A draft that is not ready is refused for that reason and no other. */
  lemma NotReadyIsRefused(lex: Lexicon, ready: bool, current: Fieldset, candidate: Fieldset)
    requires lex.Valid()
    ensures Judge(lex, ready, current, candidate) == DraftNotReady <==> !ready
  {
    RefusalsAreExact(lex, current, candidate);
  }

  /** Two policy tokens stand for the same word: equal, or once lead tokens are replaced by their canonical form. */
  predicate SameWord(lex: Lexicon, p: string, q: string) {
    || (p !in lex.lead && q !in lex.lead && p == q)
    || (p in lex.lead && q !in lex.lead && lex.lead[p] == q)
    || (p !in lex.lead && q in lex.lead && p == lex.lead[q])
    || (p in lex.lead && q in lex.lead && lex.lead[p] == lex.lead[q])
  }

  predicate StandsForNothing(lex: Lexicon, p: string) {
    if p in lex.lead then lex.lead[p] == "" else p == ""
  }

  /**
   Two different names match exactly if both normalise to something and every word of the candidate's
   stands for some word of the current one; words that stand for nothing do not count.
   */
  lemma EntityIsExact(lex: Lexicon, current: string, candidate: string)
    ensures var name, proposed := DraftName(lex, current), DraftName(lex, candidate);
            MatchesEntity(lex, current, candidate) <==>
              && name != "" && proposed != ""
              && (name == proposed
                  || forall t <- Tokens(lex, proposed) ::
                       || StandsForNothing(lex, PolicyText(lex, t))
                       || exists u <- Tokens(lex, name) :: SameWord(lex, PolicyText(lex, t), PolicyText(lex, u)))
  {
    hide Tokens, DraftName, PolicyText;
    var known, named := Tokens(lex, DraftName(lex, current)), Tokens(lex, DraftName(lex, candidate));
    if CanonicalTokens(lex, named) <= CanonicalTokens(lex, known) {
      forall t <- named | !StandsForNothing(lex, PolicyText(lex, t))
        ensures exists u <- known :: SameWord(lex, PolicyText(lex, t), PolicyText(lex, u))
      {
        assert CanonicalToken(lex, t) in CanonicalTokens(lex, named);
        var u :| u in known && CanonicalToken(lex, u) == CanonicalToken(lex, t);
      }
    }
  }

  /** The one way to lose a name: a candidate without one is accepted exactly when it brings the missing date. */
  lemma NameIsDroppedExactlyForADate(lex: Lexicon, current: Fieldset, candidate: Fieldset)
    requires current.HasName() && !candidate.HasName()
    ensures Accepts(Judge(lex, true, current, candidate)) <==> current.day.None? && candidate.day.Some?
  {
  }

  /** What the row holds after the candidate is written: blank names become absent, others are trimmed. */
  function Stored(candidate: Fieldset): Fieldset {
    candidate.(name := Trim(candidate.name))
  }

  lemma StoringKeepsRank(lex: Lexicon, candidate: Fieldset)
    ensures RankOf(lex, Stored(candidate)) == RankOf(lex, candidate)
  {
    TrimKeepsFreeText(candidate.name);
    FieldsTrim(candidate.name);
    BlankHasNoFields(candidate.name);
    BlankHasNoFields(Trim(candidate.name));
  }

  /** `next` is what a ready draft becomes when some accepted candidate is written over it. */
  ghost predicate CleanerStep(lex: Lexicon, draft: Fieldset, next: Fieldset) {
    exists candidate :: Accepts(Judge(lex, true, draft, candidate)) && next == Stored(candidate)
  }

  lemma CleanerStepRanksBelow(lex: Lexicon, draft: Fieldset, next: Fieldset)
    requires lex.Valid() && CleanerStep(lex, draft, next)
    ensures Below(RankOf(lex, next), RankOf(lex, draft))
  {
    var candidate :| Accepts(Judge(lex, true, draft, candidate)) && next == Stored(candidate);
    AcceptedCandidateImproves(lex, draft, candidate);
    StoringKeepsRank(lex, candidate);
  }

  /** No sequence of accepted cleanings comes back to a draft it has left. */
  lemma {:induction false} CleaningNeverCycles(lex: Lexicon, drafts: seq<Fieldset>)
    requires lex.Valid() && |drafts| >= 2
    requires forall i :: 0 <= i < |drafts| - 1 ==> CleanerStep(lex, drafts[i], drafts[i + 1])
    ensures Below(RankOf(lex, drafts[|drafts| - 1]), RankOf(lex, drafts[0]))
    ensures drafts[|drafts| - 1] != drafts[0]
  {
    hide RankOf, CleanerStep;
    var n := |drafts| - 1;
    assert CleanerStep(lex, drafts[n - 1], drafts[n]);
    CleanerStepRanksBelow(lex, drafts[n - 1], drafts[n]);
    if n > 1 {
      CleaningNeverCycles(lex, drafts[..n]);
    }
  }

  /** No sequence of accepted cleanings goes on for ever. */
  lemma CleaningStops(lex: Lexicon, drafts: nat -> Fieldset)
    requires lex.Valid()
    ensures exists i: nat :: !CleanerStep(lex, drafts(i), drafts(i + 1))
  {
    StopsAfter(lex, drafts, 0);
  }

  lemma {:induction false} StopsAfter(lex: Lexicon, drafts: nat -> Fieldset, i: nat)
    requires lex.Valid()
    ensures exists j: nat :: !CleanerStep(lex, drafts(j), drafts(j + 1))
    decreases RankOf(lex, drafts(i)).dateMissing, RankOf(lex, drafts(i)).nameMissing,
              RankOf(lex, drafts(i)).noise, RankOf(lex, drafts(i)).tokens, RankOf(lex, drafts(i)).length
  {
    if CleanerStep(lex, drafts(i), drafts(i + 1)) {
      CleanerStepRanksBelow(lex, drafts(i), drafts(i + 1));
      StopsAfter(lex, drafts, i + 1);
    }
  }
}

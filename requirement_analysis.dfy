/** Requirement ambiguity scoring. The tokenizer's outputs are inputs here: the
    token texts, the number of sentences and the number of passive auxiliaries. */
module RequirementAnalysis {
  import opened Text
  import opened Stats

  const VagueWords: seq<string> := ["fast", "easy", "simple", "efficient", "user-friendly", "flexible"]
  /** The entries of `VagueWords` that a word can ever equal: all but the hyphenated one. */
  const AlphabeticVagueWords: seq<string> := ["fast", "easy", "simple", "efficient", "flexible"]
  const CriteriaWords: seq<string> := ["shall", "must", "criteria", "acceptance"]

  /** The four metrics of one requirement. */
  datatype Metrics = Metrics(
    vagueRatio: real,
    avgSentenceLength: real,
    passiveVoiceScore: real,
    missingCriteria: nat)

  /** The alphabetic tokens, lower-cased: every alphabetic token contributes its
      lower-case form, and every word comes from some alphabetic token. */
  function Words(tokens: seq<string>): (words: seq<string>)
    ensures |words| <= |tokens|
    ensures forall i :: 0 <= i < |words| ==> IsAlpha(words[i]) && Lower(words[i]) == words[i]
    ensures forall i :: 0 <= i < |tokens| && IsAlpha(tokens[i]) ==> Lower(tokens[i]) in words
    ensures forall w :: w in words ==> exists i :: 0 <= i < |tokens| && IsAlpha(tokens[i]) && Lower(tokens[i]) == w
  {
    if tokens == [] then []
    else
      var w := Lower(tokens[0]);
      assert Lower(w) == w by {
        assert forall i :: 0 <= i < |w| ==> LowerChar(w[i]) == w[i];
      }
      var rest := tokens[1..];
      assert forall i :: 0 < i < |tokens| ==> tokens[i] == rest[i - 1];
      (if IsAlpha(tokens[0]) then [w] else []) + Words(rest)
  }

  /** The positions of the alphabetic tokens that lower-case to `w`. */
  function TokensLoweringTo(tokens: seq<string>, w: string): set<int> {
    set i | 0 <= i < |tokens| && IsAlpha(tokens[i]) && Lower(tokens[i]) == w
  }

  /** Each word occurs in `Words(tokens)` exactly as often as alphabetic tokens
      lower-case to it, so the word count and the vague count are counts over the
      tokens. */
  lemma {:induction false} WordsMultiplicity(tokens: seq<string>, w: string)
    ensures multiset(Words(tokens))[w] == |TokensLoweringTo(tokens, w)|
  {
    if tokens != [] {
      WordsMultiplicity(tokens[..|tokens| - 1], w);
      WordsSnoc(tokens);
      TokensLoweringToSnoc(tokens, w);
    }
  }

  lemma WordsSnoc(tokens: seq<string>)
    requires tokens != []
    ensures var last := tokens[|tokens| - 1];
      Words(tokens) == Words(tokens[..|tokens| - 1]) + if IsAlpha(last) then [Lower(last)] else []
  {
    var init, last := tokens[..|tokens| - 1], tokens[|tokens| - 1];
    assert tokens == init + [last];
    WordsAppend(init, [last]);
    assert [last][1..] == [];
  }

  lemma TokensLoweringToSnoc(tokens: seq<string>, w: string)
    requires tokens != []
    ensures var n, last := |tokens|, tokens[|tokens| - 1];
      TokensLoweringTo(tokens, w) ==
        TokensLoweringTo(tokens[..n - 1], w) + if IsAlpha(last) && Lower(last) == w then {n - 1} else {}
  {
    var init := tokens[..|tokens| - 1];
    forall i | 0 <= i < |init| ensures init[i] == tokens[i] { }
  }

  /** The words of two token runs are the words of each, in order. */
  lemma {:induction false} WordsAppend(a: seq<string>, b: seq<string>)
    ensures Words(a + b) == Words(a) + Words(b)
  {
    if a == [] {
      assert a + b == b;
    } else {
      assert (a + b)[1..] == a[1..] + b;
      WordsAppend(a[1..], b);
    }
  }

  /** The number of words that are in the vague vocabulary. */
  function VagueCount(words: seq<string>): (n: nat)
    ensures n <= |words|
  {
    if words == [] then 0 else (if words[0] in VagueWords then 1 else 0) + VagueCount(words[1..])
  }

  predicate HasCriteria(words: seq<string>) {
    exists c :: c in CriteriaWords && c in words
  }

  /** The criteria flag is cleared exactly when some alphabetic token, in any case,
      is one of the criteria words. */
  lemma HasCriteriaIffCriteriaToken(tokens: seq<string>)
    ensures HasCriteria(Words(tokens)) <==>
      exists i :: 0 <= i < |tokens| && IsAlpha(tokens[i]) && Lower(tokens[i]) in CriteriaWords
  {
    var words := Words(tokens);
    if HasCriteria(words) {
      var c :| c in CriteriaWords && c in words;
      var i :| 0 <= i < |tokens| && IsAlpha(tokens[i]) && Lower(tokens[i]) == c;
    }
  }

  /** `count / max(total, 1)`: a ratio whose denominator is never zero. */
  function GuardedRatio(count: nat, total: nat): (r: real)
    ensures r >= 0.0
    ensures count == 0 ==> r == 0.0
    ensures count <= total ==> r <= 1.0
    ensures r * (if total < 1 then 1.0 else total as real) == count as real
  {
    var d := if total < 1 then 1.0 else total as real;
    DivideMonotone(0.0, count as real, d);
    assert count <= total ==> count as real / d <= 1.0 by {
      if count <= total { DivideMonotone(count as real, d, d); }
    }
    count as real / d
  }

  /** `analyze_requirement`: the metrics of one requirement. */
  function AnalyzeRequirement(tokens: seq<string>, sentenceCount: nat, passiveCount: nat): (m: Metrics)
    ensures 0.0 <= m.vagueRatio <= 1.0
    ensures m.avgSentenceLength >= 0.0 && m.passiveVoiceScore >= 0.0
    ensures m.missingCriteria <= 1
    ensures m.missingCriteria == 0 <==> HasCriteria(Words(tokens))
    ensures Words(tokens) == [] ==> m.vagueRatio == 0.0 && m.avgSentenceLength == 0.0
    ensures m.vagueRatio == GuardedRatio(VagueCount(Words(tokens)), |Words(tokens)|)
  {
    var words := Words(tokens);
    Metrics(
      GuardedRatio(VagueCount(words), |words|),
      GuardedRatio(|words|, sentenceCount),
      GuardedRatio(passiveCount, sentenceCount),
      if HasCriteria(words) then 0 else 1)
  }

  /** The weighted combination of the metrics. The weights add up to 1, so metrics
      within their natural ranges (ratios and flag at most 1, sentences at most 50
      words) never reach past 1 before the cap. */
  function WeightedSum(m: Metrics): (sum: real)
    ensures NonNegative(m) ==> sum >= 0.0
    ensures && m.vagueRatio <= 1.0 && m.avgSentenceLength <= 50.0
            && m.passiveVoiceScore <= 1.0 && m.missingCriteria <= 1
            ==> sum <= 1.0
  {
    0.4 * m.vagueRatio + 0.3 * m.avgSentenceLength / 50.0 + 0.2 * m.passiveVoiceScore + 0.1 * m.missingCriteria as real
  }

  predicate NonNegative(m: Metrics) {
    m.vagueRatio >= 0.0 && m.avgSentenceLength >= 0.0 && m.passiveVoiceScore >= 0.0
  }

  /** `compute_ambiguity_score`: the weighted sum, capped at 1.0. */
  function AmbiguityScore(m: Metrics): (r: real)
    ensures r <= 1.0
    ensures NonNegative(m) ==> r >= 0.0
    ensures r <= WeightedSum(m)
    ensures r < 1.0 ==> r == WeightedSum(m)
  {
    var score := WeightedSum(m);
    if 1.0 < score then 1.0 else score
  }

  /** The score of a requirement analysed from tokenizer output lies in [0, 1]. */
  lemma AnalysedScoreInRange(tokens: seq<string>, sentenceCount: nat, passiveCount: nat)
    ensures 0.0 <= AmbiguityScore(AnalyzeRequirement(tokens, sentenceCount, passiveCount)) <= 1.0
  {
  }

  /** The score never decreases when any metric grows. */
  lemma AmbiguityScoreMonotone(m1: Metrics, m2: Metrics)
    requires m1.vagueRatio <= m2.vagueRatio
    requires m1.avgSentenceLength <= m2.avgSentenceLength
    requires m1.passiveVoiceScore <= m2.passiveVoiceScore
    requires m1.missingCriteria <= m2.missingCriteria
    ensures AmbiguityScore(m1) <= AmbiguityScore(m2)
  {
  }

  /** A text with no words and no passive auxiliaries scores exactly 0.1: only the
      missing-criteria flag contributes. */
  lemma NoWordsScoresMissingCriteriaOnly(tokens: seq<string>, sentenceCount: nat)
    requires Words(tokens) == []
    ensures AnalyzeRequirement(tokens, sentenceCount, 0).missingCriteria == 1
    ensures AmbiguityScore(AnalyzeRequirement(tokens, sentenceCount, 0)) == 0.1
  {
  }

  /** The hyphenated vocabulary entry is not alphabetic, so no word ever equals it. */
  lemma {:induction false} HyphenatedEntryNeverMatches(tokens: seq<string>)
    ensures "user-friendly" !in Words(tokens)
  {
    assert !IsLetter("user-friendly"[4]);
  }

  /** Only the five alphabetic entries of the vocabulary can ever be counted. */
  lemma {:induction false} VagueCountIgnoresHyphenatedEntry(tokens: seq<string>)
    ensures VagueCount(Words(tokens)) == AlphabeticVagueCount(Words(tokens))
  {
    HyphenatedEntryNeverMatches(tokens);
    VagueCountWithoutEntry(Words(tokens));
  }

  function AlphabeticVagueCount(words: seq<string>): nat {
    if words == [] then 0
    else (if words[0] in AlphabeticVagueWords then 1 else 0)
         + AlphabeticVagueCount(words[1..])
  }

  lemma {:induction false} VagueCountWithoutEntry(words: seq<string>)
    requires "user-friendly" !in words
    ensures VagueCount(words) == AlphabeticVagueCount(words)
  {
    if words != [] {
      assert words[0] != "user-friendly";
      VagueCountWithoutEntry(words[1..]);
    }
  }
}

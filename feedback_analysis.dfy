/** The keyword scorer of the feedback categoriser: every listed keyword
    found in the lower-cased text adds one point to its category, four
    context rules add bonus points to betterment, and the highest score
    decides the category (impact first, then betterment, else behavior)
    and a confidence of `min(100, 20 * max + 60)`. */
module FeedbackAnalysis {
  import opened Text

  datatype Category = Impact | Behavior | Betterment

  datatype Scores = Scores(impact: nat, behavior: nat, betterment: nat)

  datatype Analysis = Analysis(category: Category, confidence: nat)

  const ImpactWords: seq<string> := [
    "delivered", "achieved", "improved", "impact", "result", "outcome",
    "optimization", "efficiency", "performance", "metric", "revenue",
    "reduced", "increased", "implemented", "launched", "debug",
    "solution", "technical expertise", "problem-solving", "quality"
  ]

  const BehaviorWords: seq<string> := [
    "collaborated", "communicated", "team", "helped", "supported",
    "reliable", "consistent", "responsive", "professional", "leadership",
    "relationship", "coordination", "organized", "proactive",
    "dependable", "attitude", "approach", "style"
  ]

  const BettermentWords: seq<string> := [
    "learned", "grew", "developed", "growth", "learning",
    "development", "training", "skill", "curiosity", "explore",
    "potential", "advancement", "progress", "continuous improvement",
    "evolving", "knowledge", "expertise", "mentoring", "coaching",
    "feedback", "career", "study", "improve", "enhancement"
  ]

  /** How many of `words` occur in `text`; each word counts once however
      often it occurs. */
  function KeywordScore(words: seq<string>, text: string): nat {
    if words == [] then 0
    else KeywordScore(words[..|words| - 1], text) + (if Contains(text, words[|words| - 1]) then 1 else 0)
  }

  /** A score never exceeds the number of keywords. */
  lemma {:induction false} KeywordScoreBound(words: seq<string>, text: string)
    ensures KeywordScore(words, text) <= |words|
  {
    if words != [] {
      KeywordScoreBound(words[..|words| - 1], text);
    }
  }

  /** Adding text at the end never lowers a score. */
  lemma {:induction false} KeywordScoreGrows(words: seq<string>, text: string, more: string)
    ensures KeywordScore(words, text) <= KeywordScore(words, text + more)
  {
    if words != [] {
      KeywordScoreGrows(words[..|words| - 1], text, more);
      if Contains(text, words[|words| - 1]) {
        ContainsAppend(text, more, words[|words| - 1]);
      }
    }
  }

  /** The context rules: growth and learning together, continuous and
      improvement together, career or develop, mentoring or teaching. */
  function ContextBonus(text: string): (b: nat)
    ensures b <= 6
  {
    (if Contains(text, "growth") && Contains(text, "learning") then 2 else 0)
    + (if Contains(text, "continuous") && Contains(text, "improvement") then 2 else 0)
    + (if Contains(text, "career") || Contains(text, "develop") then 1 else 0)
    + (if Contains(text, "mentoring") || Contains(text, "teaching") then 1 else 0)
  }

  /** The three scores of an already lower-cased text. */
  function ScoresOf(lower: string): Scores {
    Scores(KeywordScore(ImpactWords, lower),
           KeywordScore(BehaviorWords, lower),
           KeywordScore(BettermentWords, lower) + ContextBonus(lower))
  }

  function Max(a: nat, b: nat): nat {
    if a < b then b else a
  }

  function Min(a: nat, b: nat): nat {
    if a < b then a else b
  }

  function MaxScore(s: Scores): nat {
    Max(Max(s.impact, s.behavior), s.betterment)
  }

  /** The decision on the scores. Impact wins whenever it is a positive
      maximum; betterment wins when it is a positive maximum that impact
      does not reach; behavior is the default and otherwise the strict
      maximum. The confidence lies between 60 and 100. */
  function Classify(s: Scores): (a: Analysis)
    ensures 60 <= a.confidence <= 100
    ensures a.confidence == Min(100, 20 * MaxScore(s) + 60)
    ensures a.category == Impact <==> s.impact > 0 && s.impact >= s.behavior && s.impact >= s.betterment
    ensures a.category == Betterment <==>
      s.betterment > 0 && s.betterment >= s.behavior && s.betterment > s.impact
    ensures a.category == Behavior <==>
      MaxScore(s) == 0 || (s.behavior > s.impact && s.behavior > s.betterment)
  {
    var m := MaxScore(s);
    var category :=
      if m > 0 && s.impact == m then Impact
      else if m > 0 && s.betterment == m then Betterment
      else Behavior;
    Analysis(category, Min(100, m * 20 + 60))
  }

  /** What `analyzeFeedback` resolves to for `text`. */
  function Analyze(text: string): Analysis {
    Classify(ScoresOf(ToLower(text)))
  }

  /** One pass over a keyword list: the number of its keywords that occur
      in the text. */
  method CountKeywords(words: seq<string>, lower: string) returns (score: nat)
    ensures score == KeywordScore(words, lower)
  {
    score := 0;
    for i := 0 to |words|
      invariant score == KeywordScore(words[..i], lower)
    {
      assert words[..i + 1][..i] == words[..i];
      if Contains(lower, words[i]) {
        score := score + 1;
      }
    }
    assert words[..|words|] == words;
  }

  /** The context rules applied to the betterment score. */
  method AddContextBonus(lower: string, score: nat) returns (betterment: nat)
    ensures betterment == score + ContextBonus(lower)
  {
    betterment := score;
    if Contains(lower, "growth") && Contains(lower, "learning") {
      betterment := betterment + 2;
    }
    if Contains(lower, "continuous") && Contains(lower, "improvement") {
      betterment := betterment + 2;
    }
    if Contains(lower, "career") || Contains(lower, "develop") {
      betterment := betterment + 1;
    }
    if Contains(lower, "mentoring") || Contains(lower, "teaching") {
      betterment := betterment + 1;
    }
  }

  /** The scorer as written: one pass over each keyword list, then the
      context rules, then the decision. */
  method AnalyzeFeedback(text: string) returns (a: Analysis)
    ensures a == Analyze(text)
  {
    var lower := ToLower(text);
    var impact := CountKeywords(ImpactWords, lower);
    var behavior := CountKeywords(BehaviorWords, lower);
    var betterment := CountKeywords(BettermentWords, lower);

    betterment := AddContextBonus(lower, betterment);
    var scores := Scores(impact, behavior, betterment);
    assert scores == ScoresOf(lower);

    var maxScore := Max(Max(impact, behavior), betterment);
    var category := Behavior;
    if maxScore > 0 {
      if impact == maxScore {
        category := Impact;
      } else if betterment == maxScore {
        category := Betterment;
      }
    }
    a := Analysis(category, Min(100, maxScore * 20 + 60));
    assert maxScore == MaxScore(scores);
  }

  /** Matching ignores case: a text and its lower-cased form are analysed alike. */
  lemma AnalyzeIgnoresCase(text: string)
    ensures Analyze(ToLower(text)) == Analyze(text)
  {
    ToLowerIdempotent(text);
  }

  /** A text without any keyword or context word is filed under behavior
      with the lowest confidence. */
  lemma NoKeywordIsBehavior(text: string)
    requires ScoresOf(ToLower(text)) == Scores(0, 0, 0)
    ensures Analyze(text) == Analysis(Behavior, 60)
  {
  }

  /** The context rules touch betterment only and add at most six; every
      score is bounded by its list (plus the bonus). */
  lemma ScoreBounds(lower: string)
    ensures ScoresOf(lower).impact == KeywordScore(ImpactWords, lower) <= 20
    ensures ScoresOf(lower).behavior == KeywordScore(BehaviorWords, lower) <= 18
    ensures KeywordScore(BettermentWords, lower) <= ScoresOf(lower).betterment
    ensures ScoresOf(lower).betterment <= KeywordScore(BettermentWords, lower) + 6 <= 30
  {
    KeywordScoreBound(ImpactWords, lower);
    KeywordScoreBound(BehaviorWords, lower);
    KeywordScoreBound(BettermentWords, lower);
  }

  /** The confidence reaches 100 exactly when the highest score is at least 2. */
  lemma FullConfidence(s: Scores)
    ensures Classify(s).confidence == 100 <==> MaxScore(s) >= 2
  {
  }
}

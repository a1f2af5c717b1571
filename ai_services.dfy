/**
 * The rule-based journal analysis of the backend: keyword counts for
 * sentiment, intensifiers, exclamation marks and capitals for intensity,
 * themes and risk flags by keyword, the seven-day trend, the two-line
 * summary and the chat suggestion. All keyword tests are substring tests
 * on the lower-cased text.
 */
module AiServices {
  import Strings

  const PositiveWords: seq<string> :=
    ["happy", "joy", "excited", "grateful", "thankful", "good", "great", "wonderful", "amazing", "love",
     "peace", "calm", "relief", "hope", "better", "improving"]
  const NegativeWords: seq<string> :=
    ["sad", "depressed", "anxious", "worried", "fear", "angry", "frustrated", "lonely", "hopeless", "tired",
     "exhausted", "pain", "hurt", "scared", "terrified", "panic", "overwhelmed"]
  const Intensifiers: seq<string> :=
    ["very", "extremely", "incredibly", "absolutely", "completely", "totally", "really", "so", "too"]

  /** The theme dict, in declaration order. */
  const ThemeKeywords: seq<(string, seq<string>)> := [
    ("anxiety", ["anxious", "worry", "worried", "nervous", "panic", "fear", "scared"]),
    ("depression", ["sad", "depressed", "down", "hopeless", "empty", "numb", "worthless"]),
    ("stress", ["stressed", "pressure", "overwhelmed", "burden", "tension"]),
    ("relationships", ["friend", "family", "partner", "relationship", "love", "conflict", "argument"]),
    ("work", ["work", "job", "career", "boss", "colleague", "deadline", "project"]),
    ("health", ["health", "sick", "pain", "doctor", "medication", "treatment"]),
    ("sleep", ["sleep", "insomnia", "tired", "exhausted", "rest", "wake"]),
    ("self-harm", ["hurt", "cut", "suicide", "end", "die", "kill myself", "not worth living"])]

  const SelfHarmPhrases: seq<string> := ["kill myself", "end it", "not worth living", "suicide", "cut myself", "hurt myself"]
  const PanicPhrases: seq<string> := ["panic", "panic attack", "can't breathe", "heart racing"]
  const SevereDepressionPhrases: seq<string> := ["hopeless", "no point", "nothing matters", "give up"]
  const IsolationPhrases: seq<string> := ["alone", "no one", "nobody cares", "isolated"]

  // ----- keyword counts ----------------------------------------------------

  /** `sum(1 for word in words if word in text)`. */
  function Hits(words: seq<string>, text: string): (n: nat)
    ensures n <= |words|
    decreases |words|
  {
    if words == [] then 0
    else Hits(words[..|words| - 1], text) + (if Strings.Contains(text, words[|words| - 1]) then 1 else 0)
  }

  predicate Distinct(words: seq<string>) {
    forall i, j :: 0 <= i < j < |words| ==> words[i] != words[j]
  }

  /** The words of the list that occur in the text. */
  function Found(words: seq<string>, text: string): set<string> {
    set w | w in words && Strings.Contains(text, w)
  }

  /** With a list free of repeats, the count is the number of distinct listed words that occur. */
  lemma {:induction false} HitsDistinct(words: seq<string>, text: string)
    requires Distinct(words)
    ensures Hits(words, text) == |Found(words, text)|
    decreases |words|
  {
    if words != [] {
      var init := words[..|words| - 1];
      var last := words[|words| - 1];
      assert Distinct(init);
      HitsDistinct(init, text);
      assert words == init + [last];
      assert last !in init;
      if Strings.Contains(text, last) {
        assert Found(words, text) == Found(init, text) + {last};
        assert last !in Found(init, text);
      } else {
        assert Found(words, text) == Found(init, text);
      }
    }
  }

  /** No sentiment word is listed twice. */
  lemma SentimentListsDistinct()
    ensures Distinct(PositiveWords) && Distinct(NegativeWords)
  {
  }

  /** `any(phrase in text for phrase in phrases)`. */
  function AnyIn(phrases: seq<string>, text: string): (b: bool)
    ensures b <==> exists k :: 0 <= k < |phrases| && Strings.Contains(text, phrases[k])
  {
    HitsPositive(phrases, text);
    Hits(phrases, text) > 0
  }

  lemma {:induction false} HitsPositive(words: seq<string>, text: string)
    ensures Hits(words, text) > 0 <==> exists k :: 0 <= k < |words| && Strings.Contains(text, words[k])
    decreases |words|
  {
    if words != [] {
      var init := words[..|words| - 1];
      HitsPositive(init, text);
      if exists k :: 0 <= k < |init| && Strings.Contains(text, init[k]) {
        var k :| 0 <= k < |init| && Strings.Contains(text, init[k]);
        assert words[k] == init[k];
      }
      if exists k :: 0 <= k < |words| && Strings.Contains(text, words[k]) {
        var k :| 0 <= k < |words| && Strings.Contains(text, words[k]);
        if k < |init| {
          assert init[k] == words[k];
        }
      }
    }
  }

  // ----- sentiment ---------------------------------------------------------

  /** `max(lo, min(hi, x))`. */
  function Clamp(x: real, lo: real, hi: real): (r: real)
    requires lo <= hi
    ensures lo <= r <= hi
    ensures lo <= x <= hi ==> r == x
  {
    if hi < x then hi else if x < lo then lo else x
  }

  /**
   * `(p - n) / (p + n)`, 0.0 without sentiment words, then clamped: the
   * clamp never bites, and the sign says which kind of word is in the majority.
   */
  function SentimentScore(p: nat, n: nat): (s: real)
    ensures -1.0 <= s <= 1.0
    ensures p + n == 0 ==> s == 0.0
    ensures p + n > 0 ==> s * (p + n) as real == (p - n) as real
    ensures s > 0.0 <==> p > n
    ensures s < 0.0 <==> p < n
  {
    var raw := if p + n > 0 then (p - n) as real / (p + n) as real else 0.0;
    Clamp(raw, -1.0, 1.0)
  }

  // ----- intensity ---------------------------------------------------------

  /** `sum(1 for c in text if c.isupper())`. */
  function UpperCount(s: string): (n: nat)
    ensures n <= |s|
    decreases |s|
  {
    if s == [] then 0 else UpperCount(s[..|s| - 1]) + (if Strings.IsUpper(s[|s| - 1]) then 1 else 0)
  }

  /** `text.count(c)` for one character. */
  function CharCount(s: string, c: char): (n: nat)
    ensures n <= |s|
    decreases |s|
  {
    if s == [] then 0 else CharCount(s[..|s| - 1], c) + (if s[|s| - 1] == c then 1 else 0)
  }

  /** The share of capitals, dividing by `max(len(text), 1)` so the empty text gives 0. */
  function CapsRatio(text: string): (r: real)
    ensures 0.0 <= r <= 1.0
    ensures text == [] ==> r == 0.0
    ensures text != [] ==> r * |text| as real == UpperCount(text) as real
  {
    UpperCount(text) as real / (if |text| > 1 then |text| else 1) as real
  }

  /** `min(1.0, 0.1 i + 0.05 e + 0.3 c)`: never negative and never above 1. */
  function IntensityScore(intensifiers: nat, exclamations: nat, caps: real): (r: real)
    requires 0.0 <= caps
    ensures 0.0 <= r <= 1.0
    ensures r < 1.0 ==> r == intensifiers as real * 0.1 + exclamations as real * 0.05 + caps * 0.3
  {
    var raw := intensifiers as real * 0.1 + exclamations as real * 0.05 + caps * 0.3;
    if raw < 1.0 then raw else 1.0
  }

  // ----- themes --------------------------------------------------------------

  /** The themes with a keyword in the text, in table order. */
  function MatchedThemes(table: seq<(string, seq<string>)>, text: string): (themes: seq<string>)
    ensures |themes| <= |table|
    decreases |table|
  {
    if table == [] then []
    else
      var last := table[|table| - 1];
      MatchedThemes(table[..|table| - 1], text) + (if AnyIn(last.1, text) then [last.0] else [])
  }

  /** A theme is reported iff one of its keywords occurs; with distinct names none is reported twice. */
  lemma MatchedThemesFacts(table: seq<(string, seq<string>)>, text: string, name: string)
    ensures name in MatchedThemes(table, text) <==> exists k :: 0 <= k < |table| && table[k].0 == name && AnyIn(table[k].1, text)
    ensures (forall i, j :: 0 <= i < j < |table| ==> table[i].0 != table[j].0) ==> Distinct(MatchedThemes(table, text))
  {
    MatchedThemesMembers(table, text, name);
    if forall i, j :: 0 <= i < j < |table| ==> table[i].0 != table[j].0 {
      MatchedThemesDistinct(table, text);
    }
  }

  lemma {:induction false} MatchedThemesMembers(table: seq<(string, seq<string>)>, text: string, name: string)
    ensures name in MatchedThemes(table, text) <==> exists k :: 0 <= k < |table| && table[k].0 == name && AnyIn(table[k].1, text)
    decreases |table|
  {
    if table != [] {
      var init := table[..|table| - 1];
      MatchedThemesMembers(init, text, name);
      assert forall k :: 0 <= k < |init| ==> init[k] == table[k];
    }
  }

  lemma {:induction false} MatchedThemesDistinct(table: seq<(string, seq<string>)>, text: string)
    requires forall i, j :: 0 <= i < j < |table| ==> table[i].0 != table[j].0
    ensures Distinct(MatchedThemes(table, text))
    decreases |table|
  {
    if table != [] {
      var init := table[..|table| - 1];
      var last := table[|table| - 1];
      assert forall k :: 0 <= k < |init| ==> init[k] == table[k];
      MatchedThemesDistinct(init, text);
      MatchedThemesMembers(init, text, last.0);
    }
  }

  /** The themes of the table are named once each. */
  lemma ThemeNamesDistinct()
    ensures forall i, j :: 0 <= i < j < |ThemeKeywords| ==> ThemeKeywords[i].0 != ThemeKeywords[j].0
  {
  }

  // ----- risk flags, trend, summary ----------------------------------------

  datatype RiskFlags = RiskFlags(selfHarm: bool, panic: bool, severeDepression: bool, isolation: bool)

  /** `any(risk_flags.values())`. */
  predicate AnyFlag(f: RiskFlags) {
    f.selfHarm || f.panic || f.severeDepression || f.isolation
  }

  function Flags(lowered: string): (f: RiskFlags)
    ensures f.selfHarm <==> exists k :: 0 <= k < |SelfHarmPhrases| && Strings.Contains(lowered, SelfHarmPhrases[k])
    ensures f.panic <==> exists k :: 0 <= k < |PanicPhrases| && Strings.Contains(lowered, PanicPhrases[k])
    ensures f.severeDepression <==> exists k :: 0 <= k < |SevereDepressionPhrases| && Strings.Contains(lowered, SevereDepressionPhrases[k])
    ensures f.isolation <==> exists k :: 0 <= k < |IsolationPhrases| && Strings.Contains(lowered, IsolationPhrases[k])
  {
    RiskFlags(AnyIn(SelfHarmPhrases, lowered), AnyIn(PanicPhrases, lowered),
              AnyIn(SevereDepressionPhrases, lowered), AnyIn(IsolationPhrases, lowered))
  }

  function Sum(xs: seq<real>): real
    decreases |xs|
  {
    if xs == [] then 0.0 else Sum(xs[..|xs| - 1]) + xs[|xs| - 1]
  }

  /** A score more than 0.3 below the mean of at least three recent scores. */
  function NegativeTrend(score: real, recent: seq<real>): (b: bool)
    ensures b ==> |recent| >= 3
  {
    |recent| >= 3 && score < Sum(recent) / |recent| as real - 0.3
  }

  lemma {:induction false} SumAtLeast(xs: seq<real>, m: real)
    requires forall k :: 0 <= k < |xs| ==> xs[k] >= m
    ensures Sum(xs) >= |xs| as real * m
    decreases |xs|
  {
    if xs != [] {
      SumAtLeast(xs[..|xs| - 1], m);
    }
  }

  /** A drop of more than 0.3 below a floor that every recent score reaches is a negative trend. */
  lemma TrendBelowFloor(score: real, recent: seq<real>, floor: real)
    requires |recent| >= 3 && forall k :: 0 <= k < |recent| ==> recent[k] >= floor
    requires score < floor - 0.3
    ensures NegativeTrend(score, recent)
  {
    SumAtLeast(recent, floor);
    var n := |recent| as real;
    assert Sum(recent) / n >= floor;
  }

  /** Fewer than three recent entries never make a trend. */
  lemma NoTrendWithFewEntries(score: real, recent: seq<real>)
    requires |recent| < 3
    ensures !NegativeTrend(score, recent)
  {
  }

  /** The first line of the summary, by sentiment band. */
  function Opening(score: real): (o: string)
    ensures score > 0.3 ==> o == "Overall positive mood detected. "
    ensures score < -0.3 ==> o == "Challenging emotions expressed. "
    ensures -0.3 <= score <= 0.3 ==> o == "Mixed emotional state. "
  {
    if score > 0.3 then "Overall positive mood detected. "
    else if score < -0.3 then "Challenging emotions expressed. "
    else "Mixed emotional state. "
  }

  /** What stands in for the themes when there are none, and the closing words, by band. */
  function Fallback(score: real): string {
    if score > 0.3 then "General reflection" else if score < -0.3 then "Difficult feelings" else "Various thoughts"
  }

  function Closing(score: real): string {
    if score > 0.3 then " noted." else if score < -0.3 then " identified." else " reflected."
  }

  /**
   * The two-line summary: the band's opening, then the first two themes
   * joined with ", " (or the band's fallback phrase), then its closing words.
   */
  function Summary(score: real, themes: seq<string>): (s: string)
    ensures Strings.StartsWith(s, Opening(score))
    ensures themes != [] ==> Strings.OccursAt(s, Strings.Join(Strings.FirstN(themes, 2), ", "), |Opening(score)|)
    ensures themes == [] ==> Strings.OccursAt(s, Fallback(score), |Opening(score)|)
    ensures Strings.EndsWith(s, Closing(score))
  {
    var o := Opening(score);
    var m := if themes != [] then Strings.Join(Strings.FirstN(themes, 2), ", ") else Fallback(score);
    var c := Closing(score);
    var r := o + m + c;
    assert r[..|o|] == o && r[|o|..|o| + |m|] == m && r[|r| - |c|..] == c;
    r
  }

  // ----- analyze_journal ----------------------------------------------------

  datatype Analysis = Analysis(
    aiSummary: string,
    sentimentScore: real,
    intensityScore: real,
    keyThemes: seq<string>,
    riskFlags: RiskFlags,
    suggestStartChat: bool)

  /** The sentiment of a text, before rounding. */
  function TextSentiment(text: string): real {
    var lowered := Strings.Lower(text);
    SentimentScore(Hits(PositiveWords, lowered), Hits(NegativeWords, lowered))
  }

  /** The intensity of a text, before rounding. */
  function TextIntensity(text: string): real {
    IntensityScore(Hits(Intensifiers, Strings.Lower(text)), CharCount(text, '!'), CapsRatio(text))
  }

  /**
   * `analyze_journal`, with `recent` the sentiment scores of the last seven
   * days' entries: scores in range, at most five themes, and a chat
   * suggestion whenever a risk flag, a strongly negative and intense entry,
   * or a negative trend is seen.
   */
  function AnalyzeJournal(text: string, recent: seq<real>): (a: Analysis)
    ensures -1.0 <= a.sentimentScore <= 1.0 && 0.0 <= a.intensityScore <= 1.0
    ensures |a.keyThemes| <= 5 && |a.keyThemes| <= |MatchedThemes(ThemeKeywords, Strings.Lower(text))|
    ensures a.keyThemes == MatchedThemes(ThemeKeywords, Strings.Lower(text))[..|a.keyThemes|]
    ensures a.keyThemes == Strings.FirstN(MatchedThemes(ThemeKeywords, Strings.Lower(text)), 5)
    ensures a.sentimentScore == TextSentiment(text) && a.intensityScore == TextIntensity(text)
    ensures a.aiSummary == Summary(a.sentimentScore, MatchedThemes(ThemeKeywords, Strings.Lower(text)))
    ensures a.riskFlags == Flags(Strings.Lower(text))
    ensures a.suggestStartChat <==>
      AnyFlag(a.riskFlags) || (a.sentimentScore < -0.5 && a.intensityScore > 0.5) || NegativeTrend(a.sentimentScore, recent)
  {
    var lowered := Strings.Lower(text);
    var sentiment := TextSentiment(text);
    var intensity := TextIntensity(text);
    var themes := MatchedThemes(ThemeKeywords, lowered);
    var flags := Flags(lowered);
    var trend := NegativeTrend(sentiment, recent);
    FirstFive(themes);
    Analysis(
      Summary(sentiment, themes),
      sentiment,
      intensity,
      Strings.FirstN(themes, 5),
      flags,
      AnyFlag(flags) || (sentiment < -0.5 && intensity > 0.5) || trend)
  }

  /** At most five themes are kept, and they are the first ones. */
  lemma FirstFive(themes: seq<string>)
    ensures |Strings.FirstN(themes, 5)| <= 5 && |Strings.FirstN(themes, 5)| <= |themes|
    ensures Strings.FirstN(themes, 5) == themes[..|Strings.FirstN(themes, 5)|]
  {
  }

  /** Any risk flag alone is enough for the chat suggestion. */
  lemma RiskSuggestsChat(text: string, recent: seq<real>)
    requires AnyFlag(Flags(Strings.Lower(text)))
    ensures AnalyzeJournal(text, recent).suggestStartChat
  {
  }

  /** The reported themes are distinct, each with a keyword in the text. */
  lemma KeyThemesFacts(text: string, recent: seq<real>, name: string)
    ensures Distinct(AnalyzeJournal(text, recent).keyThemes)
    ensures name in AnalyzeJournal(text, recent).keyThemes ==>
      exists k :: 0 <= k < |ThemeKeywords| && ThemeKeywords[k].0 == name && AnyIn(ThemeKeywords[k].1, Strings.Lower(text))
  {
    var kt := AnalyzeJournal(text, recent).keyThemes;
    ThemeNamesDistinct();
    MatchedPrefix(ThemeKeywords, Strings.Lower(text), |kt|, name);
  }

  /** A prefix of the matched themes of a table with distinct names is free of repeats, and holds only matched themes. */
  lemma MatchedPrefix(table: seq<(string, seq<string>)>, text: string, n: nat, name: string)
    requires forall i, j :: 0 <= i < j < |table| ==> table[i].0 != table[j].0
    requires n <= |MatchedThemes(table, text)|
    ensures Distinct(MatchedThemes(table, text)[..n])
    ensures name in MatchedThemes(table, text)[..n] ==>
      exists k :: 0 <= k < |table| && table[k].0 == name && AnyIn(table[k].1, text)
  {
    var all := MatchedThemes(table, text);
    MatchedThemesFacts(table, text, name);
    assert forall i :: 0 <= i < n ==> all[..n][i] == all[i];
  }

}

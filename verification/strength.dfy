/**
 The aggregate score, its label, and the recommendation gate of the console
 program built on them.
 */
module Strength {
  import opened Text
  import opened Regex
  import opened Checks

  /** The best total any password can reach. */
  const MaxScore: int := 10

  /** The total below which the program prints its recommendations. */
  const RecommendBelow: int := 8

  /** What `calculate_strength` returns: the total, the maximum, and every check's feedback. */
  datatype Report = Report(
    total: int,
    maxScore: int,
    length: LengthNote,
    variety: seq<VarietyNote>,
    common: CommonNote,
    pattern: PatternNote)

  /** True iff `p` earns every point of every check. */
  predicate Flawless(p: string) {
    && |p| >= StrongLength
    && (forall k :: 0 <= k < |ClassOrder| ==> HasClass(p, ClassOrder[k]))
    && !IsCommon(p)
    && !HasAscendingDigits(p)
    && !HasRepeatedRun(p)
  }

  /** The length points: none below 8 characters, one up to 11, two from 12 on. */
  function LengthPoints(n: nat): nat {
    if n < MinLength then 0 else if n < StrongLength then 1 else 2
  }

  /**
   `calculate_strength`: the length and variety points, plus twice the
   common-password and the pattern sub-scores.
   */
  function CalculateStrength(p: string): (r: Report)
    ensures r.maxScore == MaxScore
    ensures r.total == LengthPoints(|p|)
                     + Points(HasClass(p, Lowercase)) + Points(HasClass(p, Uppercase))
                     + Points(HasClass(p, Digit)) + Points(HasClass(p, Special))
                     + 2 * Points(!IsCommon(p))
                     + 2 * Points(!(HasAscendingDigits(p) || HasRepeatedRun(p)))
    ensures 0 <= r.total <= r.maxScore
    ensures r.total == r.maxScore <==> Flawless(p)
    ensures IsCommon(p) ==> r.total <= r.maxScore - 2
    ensures HasAscendingDigits(p) || HasRepeatedRun(p) ==> r.total <= r.maxScore - 2
    ensures |p| < MinLength ==> r.total <= r.maxScore - 2
    ensures r.length.TooShort? <==> |p| < MinLength
    ensures r.length.GoodLength? <==> |p| >= StrongLength
    ensures !r.length.TooShort? ==> r.length.length == |p|
    ensures |r.variety| == |ClassOrder|
    ensures forall k :: 0 <= k < |ClassOrder| ==> r.variety[k].cls == ClassOrder[k]
    ensures forall k :: 0 <= k < |ClassOrder| ==> (r.variety[k].present <==> HasClass(p, ClassOrder[k]))
    ensures r.common == CommonlyUsed <==> IsCommon(p)
    ensures r.pattern == SequentialNumbers <==> HasAscendingDigits(p)
    ensures r.pattern == RepeatedCharacters <==> !HasAscendingDigits(p) && HasRepeatedRun(p)
  {
    var length := CheckLength(p);
    var variety := CheckVariety(p);
    var common := CheckCommon(p);
    var pattern := CheckPatterns(p);
    var total := length.score + variety.score + common.score * 2 + pattern.score * 2;
    Report(total, MaxScore, length.feedback, variety.feedback, common.feedback, pattern.feedback)
  }

  /** The total is the same for two passwords that differ only in the case of every letter. */
  lemma TotalUnderSwapCase(p: string)
    ensures CalculateStrength(SwapCaseAll(p)).total == CalculateStrength(p).total
  {
    VarietyUnderSwapCase(p);
    SwapCaseIgnoringCase(p);
    CommonCaseInsensitive(p, SwapCaseAll(p));
    PatternsUnderSwapCase(p);
  }

  // ---------------------------------------------------------------- label

  /** The strength labels, weakest first. */
  datatype Label = VeryWeak | Weak | Moderate | Strong

  /** The position of a label from weakest (0) to strongest (3). */
  function Rank(l: Label): nat {
    match l
    case VeryWeak => 0
    case Weak => 1
    case Moderate => 2
    case Strong => 3
  }

  /** True iff `score` out of `maxScore` is at least `threshold` percent. */
  predicate AtLeastPercent(score: int, maxScore: int, threshold: int)
    requires maxScore != 0
  {
    (score as real / maxScore as real) * 100.0 >= threshold as real
  }

  /**
   `get_strength_label`: the label of the percentage `score / maxScore * 100`,
   taking the higher label at an exact threshold.
   */
  function StrengthLabel(score: int, maxScore: int): (l: Label)
    requires maxScore != 0
    ensures maxScore == MaxScore ==> (l == Strong <==> score >= 8)
    ensures maxScore == MaxScore ==> (l == Moderate <==> 6 <= score < 8)
    ensures maxScore == MaxScore ==> (l == Weak <==> 4 <= score < 6)
    ensures maxScore == MaxScore ==> (l == VeryWeak <==> score < 4)
  {
    if AtLeastPercent(score, maxScore, 80) then Strong
    else if AtLeastPercent(score, maxScore, 60) then Moderate
    else if AtLeastPercent(score, maxScore, 40) then Weak
    else VeryWeak
  }

  /** Out of a positive maximum, a higher score never gets a lower label. */
  lemma LabelMonotone(s1: int, s2: int, maxScore: int)
    requires 0 < maxScore
    requires s1 <= s2
    ensures Rank(StrengthLabel(s1, maxScore)) <= Rank(StrengthLabel(s2, maxScore))
  {
    var m := maxScore as real;
    assert s1 as real / m <= s2 as real / m by {
      assert s1 as real / m * m == s1 as real;
      assert s2 as real / m * m == s2 as real;
    }
  }

  /** The boundary scores out of 10 take the higher label. */
  lemma LabelBoundaries()
    ensures StrengthLabel(8, MaxScore) == Strong && StrengthLabel(7, MaxScore) == Moderate
    ensures StrengthLabel(6, MaxScore) == Moderate && StrengthLabel(5, MaxScore) == Weak
    ensures StrengthLabel(4, MaxScore) == Weak && StrengthLabel(3, MaxScore) == VeryWeak
  {
  }

  // ---------------------------------------------------------------- the program

  /** The five generic recommendations, in the order printed. */
  datatype Tip =
    | UseTwelveCharacters
    | MixCase
    | AddNumbersAndSpecials
    | AvoidCommonWordsAndPatterns
    | AvoidPersonalInformation

  const Recommendations: seq<Tip> :=
    [UseTwelveCharacters, MixCase, AddNumbersAndSpecials, AvoidCommonWordsAndPatterns, AvoidPersonalInformation]

  /** What one run of the program reports. */
  datatype Verdict =
    | EmptyPassword
    | Analysed(report: Report, rating: Label, tips: seq<Tip>)

  /**
   `main` after reading the password: an empty password is refused; otherwise
   the report, its label, and the recommendations when the total is below 8.
   */
  function Evaluate(p: string): (v: Verdict)
    ensures v.EmptyPassword? <==> |p| == 0
    ensures v.Analysed? ==> v.report == CalculateStrength(p)
    ensures v.Analysed? ==> v.rating == StrengthLabel(v.report.total, v.report.maxScore)
    ensures v.Analysed? ==> (v.rating == Moderate <==> 6 <= v.report.total < 8)
    ensures v.Analysed? ==> (v.rating == Weak <==> 4 <= v.report.total < 6)
    ensures v.Analysed? ==> (v.rating == VeryWeak <==> v.report.total < 4)
    ensures v.Analysed? ==> v.tips == [] || v.tips == Recommendations
    ensures v.Analysed? ==> (v.tips != [] <==> v.report.total < RecommendBelow)
    ensures v.Analysed? ==> (v.tips != [] <==> v.rating != Strong)
    ensures v.Analysed? && IsCommon(p) ==> v.tips == Recommendations
  {
    if |p| == 0 then EmptyPassword
    else
      var report := CalculateStrength(p);
      var rating := StrengthLabel(report.total, report.maxScore);
      var tips := if report.total < RecommendBelow then Recommendations else [];
      Analysed(report, rating, tips)
  }

  /** A password that earns every point scores 10 and is labelled Strong, with no recommendations. */
  lemma FlawlessIsStrong(p: string)
    requires Flawless(p)
    ensures Evaluate(p) == Analysed(CalculateStrength(p), Strong, [])
    ensures CalculateStrength(p).total == MaxScore
  {
  }

  /** A listed password is never labelled Strong, whatever else it has. */
  lemma CommonIsNeverStrong(p: string)
    requires |p| > 0
    requires IsCommon(p)
    ensures Evaluate(p).rating != Strong
    ensures CalculateStrength(p).total <= 8
  {
  }
}

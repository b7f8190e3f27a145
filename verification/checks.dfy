/**
 The four independent checks of `password_checker.py`. Each maps a password to
 a sub-score and feedback; the feedback is a tag here rather than a coloured
 console line.
 */
module Checks {
  import opened Text
  import opened Regex

  /** A sub-score together with the feedback one check produces. */
  datatype Checked<F> = Checked(score: int, feedback: F)

  // ---------------------------------------------------------------- length

  /** Below this many characters a password is too short. */
  const MinLength: nat := 8

  /** From this many characters on a password has a good length. */
  const StrongLength: nat := 12

  /** The length feedback; the two positive lines name the actual length. */
  datatype LengthNote = TooShort | AcceptableLength(length: nat) | GoodLength(length: nat)

  /** `check_length`: 0, 1 or 2 points by length. */
  function CheckLength(p: string): (r: Checked<LengthNote>)
    ensures 0 <= r.score <= 2
    ensures r.score == 0 <==> |p| < MinLength
    ensures r.score == 2 <==> |p| >= StrongLength
    ensures r.feedback.TooShort? <==> r.score == 0
    ensures r.feedback.GoodLength? <==> r.score == 2
    ensures !r.feedback.TooShort? ==> r.feedback.length == |p|
  {
    var length := |p|;
    if length < MinLength then Checked(0, TooShort)
    else if length < StrongLength then Checked(1, AcceptableLength(length))
    else Checked(2, GoodLength(length))
  }

  /** A longer password never gets fewer length points. */
  lemma LengthScoreMonotone(p: string, q: string)
    requires |p| <= |q|
    ensures CheckLength(p).score <= CheckLength(q).score
  {
  }

  // ---------------------------------------------------------------- variety

  /** The order in which the variety check tests the classes and reports on them. */
  const ClassOrder: seq<CharClass> := [Lowercase, Uppercase, Digit, Special]

  /** One variety feedback line: whether the password holds a character of `cls`. */
  datatype VarietyNote = VarietyNote(cls: CharClass, present: bool)

  /** One point for a property that holds, none otherwise. */
  function Points(b: bool): nat {
    if b then 1 else 0
  }

  /** The positions of the feedback lines that report a class present. */
  function PresentAt(notes: seq<VarietyNote>): set<int> {
    set k | 0 <= k < |notes| && notes[k].present
  }

  /** The present positions of a non-empty list: those of all but its last line, and the last if present. */
  lemma PresentAtStep(notes: seq<VarietyNote>)
    requires |notes| > 0
    ensures |PresentAt(notes)| == |PresentAt(notes[..|notes| - 1])| + Points(notes[|notes| - 1].present)
  {
    var last := |notes| - 1;
    var init := PresentAt(notes[..last]);
    var end: set<int> := if notes[last].present then {last} else {};
    assert PresentAt(notes) == init + end;
    assert init !! end;
  }

  /** The number of feedback lines that report a class present. */
  function PresentCount(notes: seq<VarietyNote>): (n: nat)
    ensures n == |PresentAt(notes)|
    ensures n <= |notes|
    ensures n == |notes| <==> forall k :: 0 <= k < |notes| ==> notes[k].present
    ensures n == 0 <==> forall k :: 0 <= k < |notes| ==> !notes[k].present
  {
    if |notes| == 0 then 0
    else
      PresentAtStep(notes);
      PresentCount(notes[..|notes| - 1]) + Points(notes[|notes| - 1].present)
  }

  /** One `re.search` for a character class, reported as a feedback line. */
  function ClassNote(p: string, cls: CharClass): (n: VarietyNote)
    ensures n.cls == cls
    ensures n.present <==> HasClass(p, cls)
  {
    OneOfOccursIff(p, cls);
    VarietyNote(cls, Search(p, OneOf(cls)).MatchAt?)
  }

  /** `check_character_variety`: one point and one feedback line per class. */
  function CheckVariety(p: string): (r: Checked<seq<VarietyNote>>)
    ensures |r.feedback| == |ClassOrder|
    ensures forall k :: 0 <= k < |ClassOrder| ==> r.feedback[k].cls == ClassOrder[k]
    ensures forall k :: 0 <= k < |ClassOrder| ==> (r.feedback[k].present <==> HasClass(p, ClassOrder[k]))
    ensures r.score == PresentCount(r.feedback)
    ensures r.score == Points(HasClass(p, Lowercase)) + Points(HasClass(p, Uppercase))
                     + Points(HasClass(p, Digit)) + Points(HasClass(p, Special))
    ensures 0 <= r.score <= 4
  {
    var lower := ClassNote(p, Lowercase);
    var upper := ClassNote(p, Uppercase);
    var digit := ClassNote(p, Digit);
    var special := ClassNote(p, Special);
    var notes := [lower, upper, digit, special];
    var score := Points(lower.present) + Points(upper.present) + Points(digit.present) + Points(special.present);
    assert PresentCount(notes[..1]) == Points(lower.present);
    assert PresentCount(notes[..2]) == Points(lower.present) + Points(upper.present);
    assert PresentCount(notes[..3]) == Points(lower.present) + Points(upper.present) + Points(digit.present);
    Checked(score, notes)
  }

  /** The variety score is 4 exactly when every class is present. */
  lemma VarietyFullIff(p: string)
    ensures CheckVariety(p).score == 4 <==> forall k :: 0 <= k < |ClassOrder| ==> HasClass(p, ClassOrder[k])
  {
  }

  /**
   Swapping the case of every letter swaps the lower-case and upper-case lines,
   keeps the digit and special lines, and so keeps the variety score.
   */
  lemma VarietyUnderSwapCase(p: string)
    ensures CheckVariety(SwapCaseAll(p)).feedback[0].present == CheckVariety(p).feedback[1].present
    ensures CheckVariety(SwapCaseAll(p)).feedback[1].present == CheckVariety(p).feedback[0].present
    ensures CheckVariety(SwapCaseAll(p)).feedback[2] == CheckVariety(p).feedback[2]
    ensures CheckVariety(SwapCaseAll(p)).feedback[3] == CheckVariety(p).feedback[3]
    ensures CheckVariety(SwapCaseAll(p)).score == CheckVariety(p).score
  {
    HasClassUnderSwapCase(p, Lowercase);
    HasClassUnderSwapCase(p, Uppercase);
    HasClassUnderSwapCase(p, Digit);
    HasClassUnderSwapCase(p, Special);
  }

  // ---------------------------------------------------------------- common passwords

  /** `COMMON_PASSWORDS`, in the order listed. */
  const CommonPasswords: seq<string> := [
    "password", "123456", "12345678", "qwerty", "abc123",
    "monkey", "1234567", "letmein", "trustno1", "dragon",
    "baseball", "iloveyou", "master", "sunshine", "ashley",
    "bailey", "passw0rd", "shadow", "123123", "654321"
  ]

  datatype CommonNote = CommonlyUsed | NotCommon

  /** True iff `p`, ignoring the case of its letters, is one of the listed passwords. */
  predicate IsCommon(p: string) {
    exists w :: w in CommonPasswords && EqualIgnoringCase(p, w)
  }

  /** Every listed password is already in lower case. */
  lemma CommonPasswordsAreLowerCase()
    ensures forall w :: w in CommonPasswords ==> AllLowerCase(w)
  {
    forall k | 0 <= k < |CommonPasswords|
      ensures AllLowerCase(CommonPasswords[k])
    {
      var w := CommonPasswords[k];
      assert forall i :: 0 <= i < |w| ==> IsLower(w[i]) || IsDigit(w[i]);
    }
  }

  /** Looking the lower-cased password up in the list decides `IsCommon`. */
  lemma LowerInListIff(p: string)
    ensures Lower(p) in CommonPasswords <==> IsCommon(p)
  {
    CommonPasswordsAreLowerCase();
    if Lower(p) in CommonPasswords {
      LowerIdempotent(p);
    }
    if IsCommon(p) {
      var w :| w in CommonPasswords && EqualIgnoringCase(p, w);
      LowerOfCaseVariant(p, w);
    }
  }

  /** `check_common_password`: 0 for a listed password in any letter case, else 1. */
  function CheckCommon(p: string): (r: Checked<CommonNote>)
    ensures r.score == 0 <==> IsCommon(p)
    ensures r.score == 1 <==> !IsCommon(p)
    ensures r.feedback == CommonlyUsed <==> IsCommon(p)
  {
    LowerInListIff(p);
    if Lower(p) in CommonPasswords then Checked(0, CommonlyUsed)
    else Checked(1, NotCommon)
  }

  /** Changing the case of any letters does not change the common-password check. */
  lemma CommonCaseInsensitive(p: string, q: string)
    requires EqualIgnoringCase(p, q)
    ensures CheckCommon(p) == CheckCommon(q)
  {
    LowerEqualIff(p, q);
  }

  // ---------------------------------------------------------------- patterns

  datatype PatternNote = SequentialNumbers | RepeatedCharacters | NoPatterns

  /** True iff some character other than a newline occurs three or more times in a row in `p`. */
  predicate HasRepeatedRun(p: string) {
    exists i :: 0 <= i && i + 3 <= |p| && p[i] != '\n' && p[i] == p[i + 1] && p[i + 1] == p[i + 2]
  }

  /** The repeated-character regex occurs exactly where a run of three does. */
  lemma RepeatedOccursIff(p: string)
    ensures Occurs(p, RepeatedChar) <==> HasRepeatedRun(p)
  {
    if HasRepeatedRun(p) {
      var i :| 0 <= i && i + 3 <= |p| && p[i] != '\n' && p[i] == p[i + 1] && p[i + 1] == p[i + 2];
      assert MatchesAt(p, RepeatedChar, i);
    }
  }

  /**
   `check_patterns`: 0 when a sequential-digit run or a repeated character is
   present, else 1. The sequential test runs first, so its message wins.
   */
  function CheckPatterns(p: string): (r: Checked<PatternNote>)
    ensures r.score == 0 <==> HasAscendingDigits(p) || HasRepeatedRun(p)
    ensures r.score == 1 <==> r.feedback == NoPatterns
    ensures r.feedback == SequentialNumbers <==> HasAscendingDigits(p)
    ensures r.feedback == RepeatedCharacters <==> !HasAscendingDigits(p) && HasRepeatedRun(p)
  {
    SequentialOccursIffAscending(p);
    RepeatedOccursIff(p);
    if Search(p, SequentialDigits).MatchAt? then Checked(0, SequentialNumbers)
    else if Search(p, RepeatedChar).MatchAt? then Checked(0, RepeatedCharacters)
    else Checked(1, NoPatterns)
  }

  /** Swapping case never merges two distinct characters. */
  lemma SwapCaseInjective(a: char, b: char)
    ensures SwapCase(a) == SwapCase(b) ==> a == b
  {
  }

  /** Digits and newlines keep their place under a case swap, so both patterns do too. */
  lemma PatternsUnderSwapCase(p: string)
    ensures CheckPatterns(SwapCaseAll(p)) == CheckPatterns(p)
  {
    var q := SwapCaseAll(p);
    assert HasAscendingDigits(q) <==> HasAscendingDigits(p) by {
      if HasAscendingDigits(p) {
        var i :| 0 <= i < |p| && AscendingDigitsAt(p, i);
        assert AscendingDigitsAt(q, i);
      }
      if HasAscendingDigits(q) {
        var i :| 0 <= i < |q| && AscendingDigitsAt(q, i);
        assert AscendingDigitsAt(p, i);
      }
    }
    assert HasRepeatedRun(q) <==> HasRepeatedRun(p) by {
      if HasRepeatedRun(p) {
        var i :| 0 <= i && i + 3 <= |p| && p[i] != '\n' && p[i] == p[i + 1] && p[i + 1] == p[i + 2];
        assert q[i] != '\n' && q[i] == q[i + 1] && q[i + 1] == q[i + 2];
      }
      if HasRepeatedRun(q) {
        var i :| 0 <= i && i + 3 <= |q| && q[i] != '\n' && q[i] == q[i + 1] && q[i + 1] == q[i + 2];
        SwapCaseInjective(p[i], p[i + 1]);
        SwapCaseInjective(p[i + 1], p[i + 2]);
        assert p[i] != '\n';
      }
    }
  }

  /** A password holding both patterns is reported for its sequential digits. */
  lemma SequentialWinsExample()
    ensures HasAscendingDigits("aaaa1234") && HasRepeatedRun("aaaa1234")
    ensures CheckPatterns("aaaa1234") == Checked(0, SequentialNumbers)
  {
    assert AscendingDigitsAt("aaaa1234", 4);
    var s := "aaaa1234";
    assert s[0] != '\n' && s[0] == s[1] && s[1] == s[2];
  }
}

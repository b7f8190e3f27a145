/**
 The handful of regular expressions the checker hands to `re.search`, and
 `re.search` itself as a leftmost scan over the start positions of a string.
 */
module Regex {
  import opened Text

  /** The patterns of `password_checker.py`, one constructor per shape of regex. */
  datatype Pattern =
    | OneOf(cls: CharClass)   // `[a-z]`, `[A-Z]`, `\d` or the special-character class
    | SequentialDigits        // `(012|123|234|345|456|567|678|789)`
    | RepeatedChar            // `(.)\1{2,}`

  /** The alternatives of the sequential-numbers regex, in the order they are written. */
  const SequentialRuns: seq<string> := ["012", "123", "234", "345", "456", "567", "678", "789"]

  /** The result of `re.search`: the start of the leftmost match, or `None`. */
  datatype Match = NoMatch | MatchAt(start: nat)

  /**
   True iff `pat` matches `s` starting at index `i`. `.` does not match a
   newline, so a run of newlines is not a repeated character.
   */
  predicate MatchesAt(s: string, pat: Pattern, i: nat) {
    match pat
    case OneOf(cls) => i < |s| && InClass(s[i], cls)
    case SequentialDigits => i + 3 <= |s| && s[i..i + 3] in SequentialRuns
    case RepeatedChar => i + 3 <= |s| && s[i] != '\n' && s[i + 1] == s[i] && s[i + 2] == s[i]
  }

  /** True iff `pat` matches somewhere in `s`. */
  predicate Occurs(s: string, pat: Pattern) {
    exists i :: 0 <= i < |s| && MatchesAt(s, pat, i)
  }

  /** `re.search(pat, s)`: the leftmost start position at which `pat` matches. */
  function Search(s: string, pat: Pattern): (m: Match)
    ensures m.MatchAt? ==> m.start < |s| && MatchesAt(s, pat, m.start)
    ensures m.MatchAt? ==> forall j :: 0 <= j < m.start ==> !MatchesAt(s, pat, j)
    ensures m.NoMatch? <==> !Occurs(s, pat)
  {
    SearchFrom(s, pat, 0)
  }

  /** The scan behind `Search`, trying the start positions from `from` on. */
  function SearchFrom(s: string, pat: Pattern, from: nat): (m: Match)
    requires from <= |s|
    ensures m.MatchAt? ==> from <= m.start < |s| && MatchesAt(s, pat, m.start)
    ensures m.MatchAt? ==> forall j :: from <= j < m.start ==> !MatchesAt(s, pat, j)
    ensures m.NoMatch? ==> forall j :: from <= j < |s| ==> !MatchesAt(s, pat, j)
    decreases |s| - from
  {
    if from == |s| then NoMatch
    else if MatchesAt(s, pat, from) then MatchAt(from)
    else SearchFrom(s, pat, from + 1)
  }

  /** A character-class regex occurs exactly where the string holds a character of the class. */
  lemma OneOfOccursIff(s: string, cls: CharClass)
    ensures Occurs(s, OneOf(cls)) <==> HasClass(s, cls)
  {
    if HasClass(s, cls) {
      var i :| 0 <= i < |s| && InClass(s[i], cls);
      assert MatchesAt(s, OneOf(cls), i);
    }
  }

  /**
   Three consecutive digits, each one more than the one before: a three-character
   window of the string "0123456789", stated without the list of alternatives.
   */
  predicate AscendingDigitsAt(s: string, i: nat) {
    && i + 3 <= |s|
    && IsDigit(s[i]) && IsDigit(s[i + 2])
    && s[i + 1] as int == s[i] as int + 1
    && s[i + 2] as int == s[i + 1] as int + 1
  }

  /** The eight alternatives of the sequential-numbers regex are exactly the ascending digit triples. */
  lemma SequentialRunIffAscending(s: string, i: nat)
    ensures MatchesAt(s, SequentialDigits, i) <==> AscendingDigitsAt(s, i)
  {
    if i + 3 <= |s| {
      var w := s[i..i + 3];
      assert w == [s[i], s[i + 1], s[i + 2]];
      if AscendingDigitsAt(s, i) {
        var d := s[i];
        assert d == '0' || d == '1' || d == '2' || d == '3' || d == '4' || d == '5' || d == '6' || d == '7';
        if d == '0' { assert w == SequentialRuns[0]; }
        else if d == '1' { assert w == SequentialRuns[1]; }
        else if d == '2' { assert w == SequentialRuns[2]; }
        else if d == '3' { assert w == SequentialRuns[3]; }
        else if d == '4' { assert w == SequentialRuns[4]; }
        else if d == '5' { assert w == SequentialRuns[5]; }
        else if d == '6' { assert w == SequentialRuns[6]; }
        else { assert w == SequentialRuns[7]; }
      }
    }
  }

  /** True iff some three consecutive characters of `s` are ascending consecutive digits. */
  predicate HasAscendingDigits(s: string) {
    exists i :: 0 <= i < |s| && AscendingDigitsAt(s, i)
  }

  /** The sequential-numbers regex occurs exactly where an ascending digit triple does. */
  lemma SequentialOccursIffAscending(s: string)
    ensures Occurs(s, SequentialDigits) <==> HasAscendingDigits(s)
  {
    forall i | 0 <= i < |s|
      ensures MatchesAt(s, SequentialDigits, i) <==> AscendingDigitsAt(s, i)
    {
      SequentialRunIffAscending(s, i);
    }
  }
}

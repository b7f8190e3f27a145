# Password strength scoring, modelled in Dafny

The password checker of CEH-Practice-Tools scores a password out of 10. It uses four
independent heuristics:

- **length**: 0, 1 or 2 points;
- **character variety**: one point each for a lower-case letter, an upper-case letter,
  a digit and a special character;
- **common passwords**: 1 point, weighted twice, unless the lower-cased password is on a
  fixed list of twenty;
- **trivial patterns**: 1 point, weighted twice, unless there is an ascending digit triple
  or a character repeated three times in a row.

It turns the total into a label (Strong, Moderate, Weak or Very Weak). It prints five
generic recommendations when the total is below 8.

The model is pure functions over `string` (`seq<char>`), in four modules:

- `Text` (`text.dfy`): ASCII character classes, `str.lower`, equality ignoring case, and
  swapping case.
- `Regex` (`regex.dfy`): the six regular expressions the checker uses, as a `Pattern`
  datatype. `re.search` is modelled as a leftmost scan, `Search`, that is proved to return
  the first match position. The sequential-digit alternation is proved equal to
  "three ascending consecutive digits".
- `Checks` (`checks.dfy`): `COMMON_PASSWORDS` and the four checks. Each check returns a
  sub-score and a feedback tag in place of the coloured console line.
- `Strength` (`strength.dfy`): `calculate_strength`, `get_strength_label` and the part of
  `main` that follows the password read. That part covers the empty-password refusal and
  the recommendation gate.

Each check's contract says what its result means in terms of an independent description of
the password:

- `HasClass`: some character of the class occurs.
- `IsCommon`: equal, ignoring case, to a listed word.
- `HasAscendingDigits`: digit arithmetic, not the list of eight alternatives.
- `HasRepeatedRun`: three equal non-newline characters in a row. The code's `(.)\1{2,}`
  cannot start a match at a newline, so three newlines in a row are not a repeated
  character. The model follows the code here, not the looser "any character repeated"
  wording.

The lemmas relate the operations to each other. They cover monotonicity of the length score
and of the label, and case-insensitivity of the common check. Swapping case exchanges the
lower- and upper-case findings but keeps the variety score and the total. They also cover
the first-match-wins order of the pattern messages, and the agreement of the
recommendation gate with the Strong label.

## Model

| member | source | states |
|---|---|---|
| Text.ToLower | password_checker.py:70 | lower-casing leaves no upper-case letter, turns exactly the letters into lower-case letters, is undone by `ToUpper` on an upper-case letter, and fixes every other character |
| Text.Lower | password_checker.py:70 | `str.lower` keeps the length, maps each position by `ToLower`, and leaves no upper-case letter in the result |
| Text.LowerEqualIff | password_checker.py:70 | two strings lower-case to the same string exactly when they are equal ignoring case |
| Regex.Search | password_checker.py:77-81 | `re.search` finds a match exactly when the pattern occurs somewhere, and the match it reports is at the leftmost position where the pattern matches |
| Regex.SearchFrom | password_checker.py:77-81 | the scan from a start position returns the first matching position at or after it, or reports that none at or after it matches |
| Regex.OneOfOccursIff | password_checker.py:42-60 | a character-class regex occurs exactly when the string holds a character of that class |
| Regex.SequentialRunIffAscending | password_checker.py:77 | the eight alternatives `012`…`789` match at a position exactly when three ascending consecutive digits start there |
| Regex.SequentialOccursIffAscending | password_checker.py:77 | the sequential-numbers regex occurs exactly when the string holds an ascending digit triple |
| Checks.CheckLength | password_checker.py:27-35 | the length score is in 0..2, is 0 exactly below 8 characters and 2 exactly from 12 on, and the feedback names the actual length unless the password is too short |
| Checks.LengthScoreMonotone | password_checker.py:27-35 | a longer password never gets fewer length points |
| Checks.ClassNote | password_checker.py:42-64 | one variety line names its class and reports it present exactly when the password holds a character of it |
| Checks.PresentCount | password_checker.py:39-66 | the count of lines reporting a class present is the size of the set of their positions; it is full exactly when every line is present, and 0 exactly when none is |
| Checks.CheckVariety | password_checker.py:37-66 | exactly four feedback lines in the order lower, upper, digit, special; each is present iff the class occurs; the score is one point per class that occurs, which is the number of present lines, so within 0..4 |
| Checks.VarietyFullIff | password_checker.py:37-66 | the variety score is 4 exactly when all four classes occur |
| Checks.VarietyUnderSwapCase | password_checker.py:42-52 | swapping the case of every letter exchanges the lower-case and upper-case findings, keeps the digit and special findings, and keeps the variety score |
| Checks.CommonPasswordsAreLowerCase | password_checker.py:20-25 | every listed common password is already in lower case |
| Checks.LowerInListIff | password_checker.py:70 | looking up the lower-cased password in the list succeeds exactly when the password equals a listed word ignoring case |
| Checks.CheckCommon | password_checker.py:68-72 | the common sub-score is 0, with the "commonly used" message, exactly when the password equals a listed word ignoring case, and 1 otherwise |
| Checks.CommonCaseInsensitive | password_checker.py:68-72 | two passwords that differ only in the case of letters get the same common-password result |
| Checks.RepeatedOccursIff | password_checker.py:81 | the repeated-character regex occurs exactly when some non-newline character appears three times in a row |
| Checks.CheckPatterns | password_checker.py:74-84 | the pattern score is 0 exactly when an ascending digit triple or a repeated run occurs; the sequential message is given iff a digit triple occurs; the repeated message is given iff a run occurs and no triple does |
| Checks.PatternsUnderSwapCase | password_checker.py:74-84 | swapping the case of every letter does not change the pattern check |
| Checks.SequentialWinsExample | password_checker.py:77-82 | "aaaa1234" holds both patterns and is reported for its sequential numbers |
| Strength.CalculateStrength | password_checker.py:86-112 | the total is the length points (0 below 8 characters, 1 up to 11, 2 from 12) plus one point per character class present, plus 2 unless the password is common, plus 2 unless it holds a digit triple or a repeated run; it lies in 0..10, is 10 exactly when every point is earned, and is capped at 8 by a common password, a pattern or a too-short password; the report carries the length note naming the length, the four variety lines with their presence, and the common and pattern messages |
| Strength.TotalUnderSwapCase | password_checker.py:86-112 | swapping the case of every letter leaves the total unchanged |
| Strength.StrengthLabel | password_checker.py:114-125 | out of 10, the label is Strong from 8, Moderate from 6, Weak from 4 and Very Weak below, taking the higher label at each exact threshold |
| Strength.LabelMonotone | password_checker.py:114-125 | out of any positive maximum, a higher score never gets a lower label |
| Strength.LabelBoundaries | password_checker.py:118-125 | scores 8, 7, 6, 5, 4 and 3 out of 10 are labelled Strong, Moderate, Moderate, Weak, Weak and Very Weak |
| Strength.Evaluate | password_checker.py:142-175 | an empty password is refused and any other is analysed; the rating is the strength label of the total out of 10 (Strong from 8, Moderate from 6, Weak from 4, Very Weak below); the five recommendations are given exactly when the total is below 8, which is exactly when the label is not Strong |
| Strength.FlawlessIsStrong | password_checker.py:86-125 | a password of 12 or more characters with all four classes, not common and free of patterns scores 10, is Strong and gets no recommendations |
| Strength.CommonIsNeverStrong | password_checker.py:99-101 | a non-empty common password scores at most 8 and is never labelled Strong |

## Left out

- Console I/O is not modelled: the hidden `getpass` read, every `print`, and the banner. `Evaluate` takes the password as a parameter and returns what would be printed as data.
- Colour codes (`colorama`'s `Fore.*` prefixes and `init`) are not modelled. Feedback lines are tags (`LengthNote`, `VarietyNote`, `CommonNote`, `PatternNote`, `Label`, `Tip`) and carry no console text.
- Top-level handling of `KeyboardInterrupt` and of any other exception is not modelled. It belongs to the I/O shell, and no modelled operation raises for an input it accepts.
- Text.Lower: models `str.lower` on ASCII letters only. Python lower-cases Unicode letters too, so "MON\u212AEY", which spells "MONKEY" with the Kelvin sign U+212A in place of the ASCII `K`, lower-cases to the listed "monkey" in Python but not here.
- Text.HasClass: `\d` is the ASCII digits `0`-`9`. Python's `\d` on `str` also matches other Unicode decimal digits. The letter classes `[a-z]` and `[A-Z]` and the special class are ASCII in both.
- Strength.StrengthLabel: computes the percentage in exact rational arithmetic. Python uses a float. The two agree on the thresholds for the integer totals 0..10 out of 10 that `calculate_strength` produces, but this agreement is argued here, not proved: floating point is outside the model.
- Strength.StrengthLabel: requires a non-zero maximum. In Python a zero maximum raises `ZeroDivisionError`, and the only caller always passes 10.
- Regex.Search: reports only where the leftmost match starts, not its span or groups. The checker tests only whether a match exists.

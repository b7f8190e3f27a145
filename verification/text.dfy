/**
 Characters and strings as the password checker sees them.

 The classes `[a-z]`, `[A-Z]` and the special-character set are ASCII code-point
 sets in Python too. Python's `\d` and `str.lower` are Unicode-aware; this module
 fixes them to their ASCII meaning: the digits are `0`-`9`, and lower-casing maps
 `A`-`Z` to `a`-`z` and touches nothing else.
 */
module Text {

  /** The four character classes the variety check looks for, in the order it reports them. */
  datatype CharClass = Lowercase | Uppercase | Digit | Special

  /** The members of the regex class `[!@#$%^&*(),.?":{}|<>]`. */
  const SpecialChars: string := "!@#$%^&*(),.?\":{}|<>"

  predicate IsLower(c: char) { 'a' <= c <= 'z' }

  predicate IsUpper(c: char) { 'A' <= c <= 'Z' }

  predicate IsDigit(c: char) { '0' <= c <= '9' }

  predicate IsSpecial(c: char) { c in SpecialChars }

  predicate InClass(c: char, cls: CharClass) {
    match cls
    case Lowercase => IsLower(c)
    case Uppercase => IsUpper(c)
    case Digit => IsDigit(c)
    case Special => IsSpecial(c)
  }

  /** True iff `s` holds at least one character of class `cls`. */
  predicate HasClass(s: string, cls: CharClass) {
    exists i :: 0 <= i < |s| && InClass(s[i], cls)
  }

  /** `str.lower` on one character. */
  function ToLower(c: char): (d: char)
    ensures !IsUpper(d)
    ensures IsLower(d) <==> IsLower(c) || IsUpper(c)
    ensures !IsUpper(c) ==> d == c
    ensures IsUpper(c) ==> ToUpper(d) == c
  {
    if IsUpper(c) then (c as int + 32) as char else c
  }

  /** `str.upper` on one character. */
  function ToUpper(c: char): (d: char)
    ensures !IsLower(d)
    ensures IsUpper(d) <==> IsLower(c) || IsUpper(c)
    ensures !IsLower(c) ==> d == c
  {
    if IsLower(c) then (c as int - 32) as char else c
  }

  /** `str.lower` on a whole string: it maps character by character. */
  function Lower(s: string): (r: string)
    ensures |r| == |s|
    ensures forall i :: 0 <= i < |s| ==> r[i] == ToLower(s[i])
    ensures forall i :: 0 <= i < |r| ==> !IsUpper(r[i])
  {
    seq(|s|, i requires 0 <= i < |s| => ToLower(s[i]))
  }

  /** True iff `a` and `b` differ at most in the case of their letters. */
  predicate EqualIgnoringCase(a: string, b: string) {
    |a| == |b| && forall i :: 0 <= i < |a| ==> ToLower(a[i]) == ToLower(b[i])
  }

  /** True iff `s` holds no upper-case letter. */
  predicate AllLowerCase(s: string) {
    forall i :: 0 <= i < |s| ==> !IsUpper(s[i])
  }

  /** Swaps the case of every letter and leaves every other character alone. */
  function SwapCase(c: char): (d: char)
    ensures IsLower(d) <==> IsUpper(c)
    ensures IsUpper(d) <==> IsLower(c)
    ensures IsDigit(d) <==> IsDigit(c)
    ensures IsSpecial(d) <==> IsSpecial(c)
    ensures ToLower(d) == ToLower(c)
  {
    if IsUpper(c) then ToLower(c) else ToUpper(c)
  }

  function SwapCaseAll(s: string): (r: string)
    ensures |r| == |s|
    ensures forall i :: 0 <= i < |s| ==> r[i] == SwapCase(s[i])
  {
    seq(|s|, i requires 0 <= i < |s| => SwapCase(s[i]))
  }

  /** The class a character of class `cls` falls into once its case is swapped. */
  function Mirror(cls: CharClass): CharClass {
    match cls
    case Lowercase => Uppercase
    case Uppercase => Lowercase
    case other => other
  }

  /** After swapping case, a string holds class `cls` exactly when it held the mirrored class before. */
  lemma HasClassUnderSwapCase(s: string, cls: CharClass)
    ensures HasClass(SwapCaseAll(s), cls) <==> HasClass(s, Mirror(cls))
  {
    var t := SwapCaseAll(s);
    assert forall i :: 0 <= i < |s| ==> (InClass(t[i], cls) <==> InClass(s[i], Mirror(cls)));
    if HasClass(s, Mirror(cls)) {
      var i :| 0 <= i < |s| && InClass(s[i], Mirror(cls));
      assert InClass(t[i], cls);
    }
    if HasClass(t, cls) {
      var i :| 0 <= i < |t| && InClass(t[i], cls);
      assert InClass(s[i], Mirror(cls));
    }
  }

  /** Two strings lower-case to the same string exactly when they are equal ignoring case. */
  lemma LowerEqualIff(a: string, b: string)
    ensures Lower(a) == Lower(b) <==> EqualIgnoringCase(a, b)
  {
    if EqualIgnoringCase(a, b) {
      assert forall i :: 0 <= i < |a| ==> Lower(a)[i] == Lower(b)[i];
    }
  }

  /** A string equal ignoring case to an all-lower-case word lower-cases to that very word. */
  lemma LowerOfCaseVariant(s: string, w: string)
    requires AllLowerCase(w)
    ensures Lower(s) == w <==> EqualIgnoringCase(s, w)
  {
    assert Lower(w) == w;
    LowerEqualIff(s, w);
  }

  /** Lower-casing is idempotent. */
  lemma LowerIdempotent(s: string)
    ensures Lower(Lower(s)) == Lower(s)
    ensures EqualIgnoringCase(s, Lower(s))
  {
    assert forall i :: 0 <= i < |s| ==> Lower(Lower(s))[i] == Lower(s)[i];
  }

  /** Swapping the case of every letter keeps a string equal to itself ignoring case. */
  lemma SwapCaseIgnoringCase(s: string)
    ensures EqualIgnoringCase(s, SwapCaseAll(s))
  {
  }
}

/**
 * The string operations of the converter: `str.upper`, `str.lower`,
 * `str.isupper`, deleting the non-word characters (`re.sub(r"[^\w]", "", s)`)
 * and `str.rstrip(c)`. Case and word characters are modelled on ASCII.
 */
module Text {

  predicate IsLowerLetter(c: char) { 'a' <= c <= 'z' }
  predicate IsUpperLetter(c: char) { 'A' <= c <= 'Z' }
  predicate IsLetter(c: char) { IsLowerLetter(c) || IsUpperLetter(c) }
  predicate IsDigit(c: char) { '0' <= c <= '9' }

  /** A character matched by the regular-expression class `\w`. */
  predicate IsWordChar(c: char) { IsLetter(c) || IsDigit(c) || c == '_' }

  function UpperChar(c: char): (d: char)
    ensures !IsLowerLetter(d)
    ensures IsLetter(c) <==> IsUpperLetter(d)
    ensures !IsLowerLetter(c) ==> d == c
  {
    if IsLowerLetter(c) then (c as int - 'a' as int + 'A' as int) as char else c
  }

  function LowerChar(c: char): (d: char)
    ensures !IsUpperLetter(d)
    ensures IsLetter(c) <==> IsLowerLetter(d)
    ensures !IsUpperLetter(c) ==> d == c
  {
    if IsUpperLetter(c) then (c as int - 'A' as int + 'a' as int) as char else c
  }

  /** `s.upper()` */
  function Upper(s: string): (r: string)
    ensures |r| == |s|
    ensures forall i :: 0 <= i < |s| ==> r[i] == UpperChar(s[i])
  {
    seq(|s|, i requires 0 <= i < |s| => UpperChar(s[i]))
  }

  /** `s.lower()` */
  function Lower(s: string): (r: string)
    ensures |r| == |s|
    ensures forall i :: 0 <= i < |s| ==> r[i] == LowerChar(s[i])
  {
    seq(|s|, i requires 0 <= i < |s| => LowerChar(s[i]))
  }

  predicate HasLetter(s: string) { exists i :: 0 <= i < |s| && IsLetter(s[i]) }

  /**
   * `s.isupper()`: there is at least one cased character and none of the
   * cased characters is lower case.
   */
  predicate IsUpper(s: string)
  {
    (exists i :: 0 <= i < |s| && IsUpperLetter(s[i])) &&
    (forall i :: 0 <= i < |s| ==> !IsLowerLetter(s[i]))
  }

  /** Upper-casing is idempotent. */
  lemma UpperIdempotent(s: string)
    ensures Upper(Upper(s)) == Upper(s)
  {
  }

  /** An upper-cased string passes `isupper()` exactly when it has a letter. */
  lemma UpperIsUpper(s: string)
    ensures IsUpper(Upper(s)) <==> HasLetter(s)
  {
    if HasLetter(s) {
      var i :| 0 <= i < |s| && IsLetter(s[i]);
      assert IsUpperLetter(Upper(s)[i]);
    }
  }

  /** `re.sub(r"[^\w]", "", s)`: the word characters of `s`, in order. */
  function KeepWordChars(s: string): (r: string)
    ensures |r| <= |s|
    ensures forall i :: 0 <= i < |r| ==> IsWordChar(r[i])
    ensures (forall i :: 0 <= i < |s| ==> IsWordChar(s[i])) ==> r == s
  {
    if s == [] then []
    else if IsWordChar(s[0]) then [s[0]] + KeepWordChars(s[1..])
    else KeepWordChars(s[1..])
  }

  /** Deleting non-word characters distributes over concatenation. */
  lemma {:induction false} KeepWordCharsAppend(s: string, t: string)
    ensures KeepWordChars(s + t) == KeepWordChars(s) + KeepWordChars(t)
  {
    if s != [] {
      assert (s + t)[0] == s[0];
      assert (s + t)[1..] == s[1..] + t;
      KeepWordCharsAppend(s[1..], t);
    } else {
      assert s + t == t;
    }
  }

  lemma DropNonWord(c: char)
    requires !IsWordChar(c)
    ensures KeepWordChars([c]) == []
  {
    assert [c][1..] == [];
  }

  /** Deleting the non-word characters around a word leaves the word. */
  lemma KeepBetween(a: char, word: string, b: char)
    requires !IsWordChar(a) && !IsWordChar(b)
    requires forall i :: 0 <= i < |word| ==> IsWordChar(word[i])
    ensures KeepWordChars([a] + word + [b]) == word
  {
    KeepWordCharsAppend([a] + word, [b]);
    KeepWordCharsAppend([a], word);
    DropNonWord(a);
    DropNonWord(b);
  }

  /** `s.rstrip(c)` for a single character `c`. */
  function StripTrailing(s: string, c: char): (r: string)
    ensures |r| <= |s| && r == s[..|r|]
    ensures r == [] || r[|r| - 1] != c
    ensures forall i :: |r| <= i < |s| ==> s[i] == c
  {
    if s != [] && s[|s| - 1] == c then StripTrailing(s[..|s| - 1], c) else s
  }

  predicate AtMostOneDot(s: string)
  {
    forall i, j :: 0 <= i < j < |s| ==> !(s[i] == '.' && s[j] == '.')
  }

  /** `s.rstrip("0").rstrip(".")` */
  function StripZeros(s: string): string
  {
    StripTrailing(StripTrailing(s, '0'), '.')
  }

  /**
   * Stripping zeros and then the point never leaves a trailing point, and,
   * on a string with at most one point, leaves no trailing zero after a
   * fractional part.
   */
  lemma StripZerosShape(s: string)
    requires AtMostOneDot(s)
    ensures var r := StripZeros(s);
      |r| <= |s| && r == s[..|r|] &&
      (r == [] || r[|r| - 1] != '.') &&
      ((exists i :: 0 <= i < |r| && r[i] == '.') ==> r[|r| - 1] != '0')
  {
  }
}

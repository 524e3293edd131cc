/**
 * The `<cctype>` character classes in the C locale, over the characters a
 * `char` can hold, and the end of the longest run of characters of a class.
 */
module CType {

  /** `std::isspace` in the C locale: space, tab, newline, vertical tab, form feed, carriage return. */
  predicate IsSpace(c: char)
  {
    c == ' ' || '\t' <= c <= '\r'
  }

  /** `std::iscntrl` in the C locale: codes 0 to 31 and 127. */
  predicate IsCntrl(c: char)
  {
    c as int < 32 || c as int == 127
  }

  /** `std::isdigit` */
  predicate IsDigit(c: char)
  {
    '0' <= c <= '9'
  }

  /** `std::isalpha` in the C locale */
  predicate IsAlpha(c: char)
  {
    'a' <= c <= 'z' || 'A' <= c <= 'Z'
  }

  /** `std::isalnum` */
  predicate IsAlnum(c: char)
  {
    IsAlpha(c) || IsDigit(c)
  }

  /** `std::ispunct` in the C locale: the printable ASCII characters that are neither letters, digits nor space. */
  predicate IsPunct(c: char)
  {
    ('!' <= c <= '~') && !IsAlnum(c)
  }

  /** The digits, letters and punctuation of the basic character set, and the standard white space. */
  const Digits := "0123456789"
  const Uppercase := "ABCDEFGHIJKLMNOPQRSTUVWXYZ"
  const Lowercase := "abcdefghijklmnopqrstuvwxyz"
  const Punctuation := "!\"#$%&'()*+,-./" + ":;<=>?@" + "[\\]^_`" + "{|}~"
  const WhiteSpace := " \t\n\U{B}\U{C}\r"

  /** The characters of `s` have the consecutive codes from `first` on. */
  predicate Consecutive(s: string, first: char)
  {
    forall k :: 0 <= k < |s| ==> s[k] as int == first as int + k
  }

  lemma ConsecutiveMember(s: string, first: char, c: char)
    requires Consecutive(s, first)
    ensures c in s <==> first as int <= c as int < first as int + |s|
  {
    if first as int <= c as int < first as int + |s| {
      assert s[c as int - first as int] == c;
    }
  }

  lemma LettersConsecutive()
    ensures Consecutive(Uppercase, 'A') && Consecutive(Lowercase, 'a')
  {
  }

  /**
   * Each class is the listing of the C standard: the standard white-space
   * characters, the ASCII characters that do not print, the ten digits,
   * the 52 letters, and letters and digits together.
   */
  lemma {:induction false} ClassListings(c: char)
    ensures IsSpace(c) <==> c in WhiteSpace
    ensures IsCntrl(c) <==> c as int < 128 && !(' ' <= c <= '~')
    ensures IsDigit(c) <==> c in Digits
    ensures IsAlpha(c) <==> c in Uppercase || c in Lowercase
    ensures IsAlnum(c) <==> c in Uppercase || c in Lowercase || c in Digits
  {
    LettersConsecutive();
    ConsecutiveMember(Uppercase, 'A', c);
    ConsecutiveMember(Lowercase, 'a', c);
  }

  lemma PunctuationRuns()
    ensures Consecutive("!\"#$%&'()*+,-./", '!') && Consecutive(":;<=>?@", ':')
    ensures Consecutive("[\\]^_`", '[') && Consecutive("{|}~", '{')
  {
  }

  /** The punctuation class is the 32 punctuation characters of the basic character set. */
  lemma {:induction false} PunctuationListing(c: char)
    ensures IsPunct(c) <==> c in Punctuation
  {
    PunctuationRuns();
    ConsecutiveMember("!\"#$%&'()*+,-./", '!', c);
    ConsecutiveMember(":;<=>?@", ':', c);
    ConsecutiveMember("[\\]^_`", '[', c);
    ConsecutiveMember("{|}~", '{', c);
  }

  /** The end of the longest run of characters satisfying `p` that starts at `i`. */
  function RunEnd(s: string, i: nat, p: char -> bool): (e: nat)
    requires i <= |s|
    ensures i <= e <= |s|
    ensures forall k :: i <= k < e ==> p(s[k])
    ensures e == |s| || !p(s[e])
    decreases |s| - i
  {
    if i == |s| || !p(s[i]) then i else RunEnd(s, i + 1, p)
  }

  /** Consuming one more character of a run leaves its end where it was. */
  lemma RunEndStep(s: string, i: nat, p: char -> bool)
    requires i < |s| && p(s[i])
    ensures RunEnd(s, i + 1, p) == RunEnd(s, i, p)
  {
  }

  /** The run end is determined by the maximal-run property: any such end is `RunEnd`. */
  lemma {:induction false} RunEndUnique(s: string, i: nat, p: char -> bool, e: nat)
    requires i <= e <= |s|
    requires forall k :: i <= k < e ==> p(s[k])
    requires e == |s| || !p(s[e])
    ensures RunEnd(s, i, p) == e
    decreases |s| - i
  {
    if i < e {
      RunEndUnique(s, i + 1, p, e);
    }
  }
}

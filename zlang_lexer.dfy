/**
 * `zlang::lexer` (zlang/source/lexer.cxx): an iterator over the source
 * text that each call of `lex()` advances past one token. The iterator is
 * the index `current` into `source`; every method is proved to move it, and
 * to return the token, that the grammar in `ZlangScan` prescribes.
 */
module ZlangLexer {
  import opened Wrappers
  import opened CType
  import opened ZlangScan

  class Lexer {
    /** The source text; the constructor's `source_code_end` is its length. */
    const source: string
    /** `current_char`, as an index into `source`. */
    var current: nat

    predicate Valid()
      reads this
    {
      current <= |source|
    }

    /** The lexer starts at the first character. */
    constructor (source: string)
      ensures Valid() && this.source == source && current == 0
    {
      this.source := source;
      current := 0;
    }

    /** Advance past every whitespace or control character. */
    method SkipWhitespaceAndControlChars()
      requires Valid()
      modifies this
      ensures Valid() && current == RunEnd(source, old(current), IsSkipped)
    {
      while current != |source|
        invariant old(current) <= current <= |source|
        invariant RunEnd(source, current, IsSkipped) == RunEnd(source, old(current), IsSkipped)
        decreases |source| - current
      {
        if !IsSpace(source[current]) && !IsCntrl(source[current]) {
          break;
        }
        current := current + 1;
      }
    }

    /** At a `#`, advance to the next line break (or the end) and report that a comment was skipped. */
    method IgnoreComment() returns (ignored: bool)
      requires Valid()
      modifies this
      ensures Valid()
      ensures ignored <==> old(current) < |source| && source[old(current)] == '#'
      ensures ignored ==> current == RunEnd(source, old(current), IsNotLineBreak)
      ensures !ignored ==> current == old(current)
    {
      if current != |source| && source[current] == '#' {
        while current != |source|
          invariant old(current) <= current <= |source|
          invariant RunEnd(source, current, IsNotLineBreak) == RunEnd(source, old(current), IsNotLineBreak)
          decreases |source| - current
        {
          if source[current] == '\n' || source[current] == '\r' {
            break;
          }
          current := current + 1;
        }
        return true;
      } else {
        return false;
      }
    }

    /** A letter starts a name, read while letters and digits follow; it is a keyword or an identifier. */
    method LexKeywordOrIdentifier() returns (t: Option<Token>)
      requires Valid()
      modifies this
      ensures Valid()
      ensures old(current) < |source| && IsAlpha(source[old(current)]) ==>
        current == NameEnd(source, old(current)) && t == Some(KeywordOrIdentifier(source[old(current)..current]))
      ensures !(old(current) < |source| && IsAlpha(source[old(current)])) ==> t.None? && current == old(current)
    {
      if current != |source| && IsAlpha(source[current]) {
        var name := [source[current]];
        current := current + 1;
        while current != |source| && IsAlnum(source[current])
          invariant old(current) < current <= |source|
          invariant name == source[old(current)..current]
          invariant RunEnd(source, current, IsAlnum) == RunEnd(source, old(current) + 1, IsAlnum)
          decreases |source| - current
        {
          name := name + [source[current]];
          current := current + 1;
        }
        if name == "def" {
          return Some(KeywordToken(Def));
        } else if name == "extern" {
          return Some(KeywordToken(Extern));
        } else if name == "if" {
          return Some(KeywordToken(If));
        } else if name == "else" {
          return Some(KeywordToken(Else));
        } else {
          return Some(IdentifierToken(name));
        }
      } else {
        return None;
      }
    }

    /** A punctuation character is a one-character operator. */
    method LexOperator() returns (t: Option<Token>)
      requires Valid()
      modifies this
      ensures Valid()
      ensures old(current) < |source| && IsPunct(source[old(current)]) ==>
        t == Some(OperatorToken(source[old(current)])) && current == old(current) + 1
      ensures !(old(current) < |source| && IsPunct(source[old(current)])) ==> t.None? && current == old(current)
    {
      if current != |source| && IsPunct(source[current]) {
        var symbol := source[current];
        current := current + 1;
        return Some(OperatorToken(symbol));
      } else {
        return None;
      }
    }

    /** Append the run of digits at `current` to `digits`. */
    method LexDigits(digits: string) returns (all: string)
      requires Valid() && |digits| <= current && digits == source[current - |digits|..current]
      modifies this
      ensures Valid() && current == RunEnd(source, old(current), IsDigit)
      ensures all == source[old(current) - |digits|..current]
    {
      all := digits;
      ghost var start := current - |digits|;
      while current != |source| && IsDigit(source[current])
        invariant old(current) <= current <= |source|
        invariant all == source[start..current]
        invariant RunEnd(source, current, IsDigit) == RunEnd(source, old(current), IsDigit)
        decreases |source| - current
      {
        all := all + [source[current]];
        current := current + 1;
      }
    }

    /** The first branch of `lex_number()`: digits, an optional `.`, digits. */
    method LexDigitsDotDigits() returns (digits: string)
      requires Valid() && current < |source| && IsDigit(source[current])
      modifies this
      ensures Valid() && current == NumberEnd(source, old(current)) && digits == source[old(current)..current]
    {
      digits := [source[current]];
      current := current + 1;
      digits := LexDigits(digits);
      if current != |source| && source[current] == '.' {
        digits := digits + [source[current]];
        current := current + 1;
      }
      digits := LexDigits(digits);
    }

    /**
     * `lex_number()`: a digit starts `[0-9]+[.]?[0-9]*`; a `.` followed by
     * a digit starts `[.][0-9]+`; a `.` followed by anything else is left for
     * the operators.
     */
    method LexNumber() returns (t: Option<Token>)
      requires Valid()
      modifies this
      ensures Valid()
      ensures old(current) < |source| && IsDigit(source[old(current)]) ==>
        current == NumberEnd(source, old(current)) && t == Some(LiteralToken(source[old(current)..current]))
      ensures old(current) + 1 < |source| && source[old(current)] == '.' && IsDigit(source[old(current) + 1]) ==>
        current == FractionEnd(source, old(current)) && t == Some(LiteralToken(source[old(current)..current]))
      ensures !(old(current) < |source| && IsDigit(source[old(current)]))
        && !(old(current) + 1 < |source| && source[old(current)] == '.' && IsDigit(source[old(current) + 1]))
        ==> t.None? && current == old(current)
    {
      if current != |source| && IsDigit(source[current]) {
        var digits := LexDigitsDotDigits();
        return Some(LiteralToken(digits));
      } else if current != |source| && source[current] == '.' {
        if current + 1 != |source| && IsDigit(source[current + 1]) {
          var digits := [source[current]];
          current := current + 1;
          digits := LexDigits(digits);
          return Some(LiteralToken(digits));
        } else {
          return None;
        }
      } else {
        return None;
      }
    }

    /**
     * `lex()`: skip whitespace, restart after a comment, then try a keyword
     * or identifier, a number and an operator in that order.
     */
    method Lex() returns (t: Option<Token>)
      requires Valid()
      modifies this
      ensures Valid() && (t, current) == Scan(source, old(current))
      decreases |source| - current
    {
      SkipWhitespaceAndControlChars();
      var ignored := IgnoreComment();
      if ignored {
        t := Lex();
        return;
      }
      t := None;
      if t.None? {
        t := LexKeywordOrIdentifier();
      }
      if t.None? {
        t := LexNumber();
      }
      if t.None? {
        t := LexOperator();
      }
    }
  }

  /** Lexing the whole of `def f` yields the keyword, the identifier and then no token. */
  method LexTwoTokens() returns (first: Option<Token>, second: Option<Token>, third: Option<Token>)
    ensures first == Some(KeywordToken(Def)) && second == Some(IdentifierToken("f")) && third.None?
  {
    var lexer := new Lexer("def f");
    assert lexer.source[0..3] == "def";
    assert lexer.source[4..5] == "f";
    first := lexer.Lex();
    second := lexer.Lex();
    third := lexer.Lex();
  }
}

/**
 * `zlang::Lexer` (zlang/Lexer.cpp): the earlier lexer, which owns its code
 * and returns `zlang::Token` objects, an INVALID token standing for "no
 * token". The iterator `codeIt` is an index into `code`; each method is
 * proved to move it, and to return the token, as `ZlangScan` prescribes,
 * so this lexer and `ZlangLexer.Lexer` agree on every input.
 */
module ZlangLegacyLexer {
  import opened Wrappers
  import opened CType
  import opened ZlangScan
  import ZlangToken

  class Lexer {
    const code: string
    /** `codeIt`, as an index into `code`. */
    var codeIt: nat

    predicate Valid()
      reads this
    {
      codeIt <= |code|
    }

    constructor (code: string)
      ensures Valid() && this.code == code && codeIt == 0
    {
      this.code := code;
      codeIt := 0;
    }

    /** Advance past every whitespace or control character. */
    method SkipWhitespacesAndControlCodes()
      requires Valid()
      modifies this
      ensures Valid() && codeIt == RunEnd(code, old(codeIt), IsSkipped)
    {
      while codeIt != |code|
        invariant old(codeIt) <= codeIt <= |code|
        invariant RunEnd(code, codeIt, IsSkipped) == RunEnd(code, old(codeIt), IsSkipped)
        decreases |code| - codeIt
      {
        if !IsSpace(code[codeIt]) && !IsCntrl(code[codeIt]) {
          break;
        }
        codeIt := codeIt + 1;
      }
    }

    /** At a `#`, advance to the next line break (or the end) and report that a comment was skipped. */
    method IgnoreComment() returns (ignored: bool)
      requires Valid()
      modifies this
      ensures Valid()
      ensures ignored <==> old(codeIt) < |code| && code[old(codeIt)] == '#'
      ensures ignored ==> codeIt == RunEnd(code, old(codeIt), IsNotLineBreak)
      ensures !ignored ==> codeIt == old(codeIt)
    {
      if codeIt != |code| && code[codeIt] == '#' {
        while codeIt != |code|
          invariant old(codeIt) <= codeIt <= |code|
          invariant RunEnd(code, codeIt, IsNotLineBreak) == RunEnd(code, old(codeIt), IsNotLineBreak)
          decreases |code| - codeIt
        {
          if code[codeIt] == '\n' || code[codeIt] == '\r' {
            break;
          }
          codeIt := codeIt + 1;
        }
        return true;
      } else {
        return false;
      }
    }

    /** A letter starts a name, read while letters and digits follow; it is a keyword or an identifier token. */
    method ParseKeywordOrIdentifier() returns (token: ZlangToken.Token)
      requires Valid()
      modifies this
      ensures Valid() && fresh(token)
      ensures old(codeIt) < |code| && IsAlpha(code[old(codeIt)]) ==>
        codeIt == NameEnd(code, old(codeIt)) && token.Value() == Some(KeywordOrIdentifier(code[old(codeIt)..codeIt]))
      ensures !(old(codeIt) < |code| && IsAlpha(code[old(codeIt)])) ==> token.Value() == None && codeIt == old(codeIt)
    {
      if codeIt != |code| && IsAlpha(code[codeIt]) {
        var identifierName := [code[codeIt]];
        codeIt := codeIt + 1;
        while codeIt != |code| && IsAlnum(code[codeIt])
          invariant old(codeIt) < codeIt <= |code|
          invariant identifierName == code[old(codeIt)..codeIt]
          invariant RunEnd(code, codeIt, IsAlnum) == RunEnd(code, old(codeIt) + 1, IsAlnum)
          decreases |code| - codeIt
        {
          identifierName := identifierName + [code[codeIt]];
          codeIt := codeIt + 1;
        }
        if identifierName == "def" {
          token := new ZlangToken.Token.OfKeyword(ZlangToken.TokenType.Keyword, Def);
        } else if identifierName == "extern" {
          token := new ZlangToken.Token.OfKeyword(ZlangToken.TokenType.Keyword, Extern);
        } else if identifierName == "if" {
          token := new ZlangToken.Token.OfKeyword(ZlangToken.TokenType.Keyword, If);
        } else if identifierName == "else" {
          token := new ZlangToken.Token.OfKeyword(ZlangToken.TokenType.Keyword, Else);
        } else {
          token := new ZlangToken.Token.OfIdentifier(ZlangToken.TokenType.Identifier, identifierName);
        }
      } else {
        token := new ZlangToken.Token.OfInvalid(ZlangToken.TokenType.Invalid);
      }
    }

    /** A punctuation character is a one-character operator token. */
    method ParseOperator() returns (token: ZlangToken.Token)
      requires Valid()
      modifies this
      ensures Valid() && fresh(token)
      ensures old(codeIt) < |code| && IsPunct(code[old(codeIt)]) ==>
        token.Value() == Some(OperatorToken(code[old(codeIt)])) && codeIt == old(codeIt) + 1
      ensures !(old(codeIt) < |code| && IsPunct(code[old(codeIt)])) ==> token.Value() == None && codeIt == old(codeIt)
    {
      if codeIt != |code| && IsPunct(code[codeIt]) {
        var operatorSymbol := code[codeIt];
        codeIt := codeIt + 1;
        token := new ZlangToken.Token.OfOperator(ZlangToken.TokenType.Operator, operatorSymbol);
      } else {
        token := new ZlangToken.Token.OfInvalid(ZlangToken.TokenType.Invalid);
      }
    }

    /** Append the run of digits at `codeIt` to `digits`. */
    method ParseDigits(digits: string) returns (all: string)
      requires Valid() && |digits| <= codeIt && digits == code[codeIt - |digits|..codeIt]
      modifies this
      ensures Valid() && codeIt == RunEnd(code, old(codeIt), IsDigit)
      ensures all == code[old(codeIt) - |digits|..codeIt]
    {
      all := digits;
      ghost var start := codeIt - |digits|;
      while codeIt != |code| && IsDigit(code[codeIt])
        invariant old(codeIt) <= codeIt <= |code|
        invariant all == code[start..codeIt]
        invariant RunEnd(code, codeIt, IsDigit) == RunEnd(code, old(codeIt), IsDigit)
        decreases |code| - codeIt
      {
        all := all + [code[codeIt]];
        codeIt := codeIt + 1;
      }
    }

    /** The first branch of `parseNumber()`: digits, an optional `.`, digits. */
    method ParseDigitsDotDigits() returns (numberDigits: string)
      requires Valid() && codeIt < |code| && IsDigit(code[codeIt])
      modifies this
      ensures Valid() && codeIt == NumberEnd(code, old(codeIt)) && numberDigits == code[old(codeIt)..codeIt]
    {
      numberDigits := [code[codeIt]];
      codeIt := codeIt + 1;
      numberDigits := ParseDigits(numberDigits);
      if codeIt != |code| && code[codeIt] == '.' {
        numberDigits := numberDigits + [code[codeIt]];
        codeIt := codeIt + 1;
      }
      numberDigits := ParseDigits(numberDigits);
    }

    /**
     * `parseNumber()`: a digit starts `[0-9]+[.]?[0-9]*`; a `.` followed by
     * a digit starts `[.][0-9]+`; otherwise the token is INVALID.
     */
    method ParseNumber() returns (token: ZlangToken.Token)
      requires Valid()
      modifies this
      ensures Valid() && fresh(token)
      ensures old(codeIt) < |code| && IsDigit(code[old(codeIt)]) ==>
        codeIt == NumberEnd(code, old(codeIt)) && token.Value() == Some(LiteralToken(code[old(codeIt)..codeIt]))
      ensures old(codeIt) + 1 < |code| && code[old(codeIt)] == '.' && IsDigit(code[old(codeIt) + 1]) ==>
        codeIt == FractionEnd(code, old(codeIt)) && token.Value() == Some(LiteralToken(code[old(codeIt)..codeIt]))
      ensures !(old(codeIt) < |code| && IsDigit(code[old(codeIt)]))
        && !(old(codeIt) + 1 < |code| && code[old(codeIt)] == '.' && IsDigit(code[old(codeIt) + 1]))
        ==> token.Value() == None && codeIt == old(codeIt)
    {
      if codeIt != |code| && IsDigit(code[codeIt]) {
        var numberDigits := ParseDigitsDotDigits();
        token := new ZlangToken.Token.OfLiteral(ZlangToken.TokenType.Literal, numberDigits);
      } else if codeIt != |code| && code[codeIt] == '.' {
        if codeIt + 1 != |code| && IsDigit(code[codeIt + 1]) {
          var numberDigits := [code[codeIt]];
          codeIt := codeIt + 1;
          numberDigits := ParseDigits(numberDigits);
          token := new ZlangToken.Token.OfLiteral(ZlangToken.TokenType.Literal, numberDigits);
        } else {
          token := new ZlangToken.Token.OfInvalid(ZlangToken.TokenType.Invalid);
        }
      } else {
        token := new ZlangToken.Token.OfInvalid(ZlangToken.TokenType.Invalid);
      }
    }

    /**
     * `TokenizeNext()`: skip whitespace, restart after a comment, then try
     * a keyword or identifier, a number and an operator in that order,
     * move-assigning each attempt into the result while it is INVALID.
     */
    method TokenizeNext() returns (token: ZlangToken.Token)
      requires Valid()
      modifies this
      ensures Valid() && fresh(token)
      ensures (token.Value(), codeIt) == Scan(code, old(codeIt))
      decreases |code| - codeIt
    {
      SkipWhitespacesAndControlCodes();
      var ignored := IgnoreComment();
      if ignored {
        token := TokenizeNext();
        return;
      }
      token := new ZlangToken.Token.OfInvalid(ZlangToken.TokenType.Invalid);
      if !token.IsValid() {
        var attempt := ParseKeywordOrIdentifier();
        token.MoveAssign(attempt);
      }
      if !token.IsValid() {
        var attempt := ParseNumber();
        token.MoveAssign(attempt);
      }
      if !token.IsValid() {
        var attempt := ParseOperator();
        token.MoveAssign(attempt);
      }
    }
  }
}

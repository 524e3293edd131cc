/**
 * The token grammar shared by both zlang lexers (zlang/source/lexer.cxx and
 * zlang/Lexer.cpp): the character classes they test (from `CType`), the maximal
 * runs their loops consume, the keyword table, and `Scan`, the token and
 * end position one call of `lex()` / `TokenizeNext()` produces from a given
 * position. Both lexer classes are proved to compute `Scan`.
 *
 * A number literal is kept as the text of its digits; its conversion by
 * `std::stof` / `std::stod` is not modelled.
 */
module ZlangScan {
  import opened Wrappers
  import opened CType

  /** What the whitespace loop skips. */
  predicate IsSkipped(c: char)
  {
    IsSpace(c) || IsCntrl(c)
  }

  /** What a comment runs up to. */
  predicate IsLineBreak(c: char)
  {
    c == '\n' || c == '\r'
  }

  predicate IsNotLineBreak(c: char)
  {
    !IsLineBreak(c)
  }

  datatype Keyword = Def | Extern | If | Else

  /** The keyword table of both lexers: `def`, `extern`, `if`, `else`. */
  function KeywordOf(name: string): (k: Option<Keyword>)
    ensures k == Some(Def) <==> name == "def"
    ensures k == Some(Extern) <==> name == "extern"
    ensures k == Some(If) <==> name == "if"
    ensures k == Some(Else) <==> name == "else"
  {
    if name == "def" then Some(Def)
    else if name == "extern" then Some(Extern)
    else if name == "if" then Some(If)
    else if name == "else" then Some(Else)
    else None
  }

  /** `zlang::token` (zlang/source/token.cxx): a keyword, a literal, an operator or an identifier. */
  datatype Token =
    | KeywordToken(keyword: Keyword)
    | LiteralToken(digits: string)
    | OperatorToken(symbol: char)
    | IdentifierToken(name: string)

  /** A name becomes its keyword if it has one, otherwise an identifier. */
  function KeywordOrIdentifier(name: string): (t: Token)
    ensures KeywordOf(name).Some? ==> t == KeywordToken(KeywordOf(name).value)
    ensures KeywordOf(name).None? ==> t == IdentifierToken(name)
  {
    match KeywordOf(name)
    case Some(k) => KeywordToken(k)
    case None => IdentifierToken(name)
  }

  /** `[a-zA-Z][a-zA-Z0-9]*` */
  predicate IsName(w: string)
  {
    |w| > 0 && IsAlpha(w[0]) && forall k :: 1 <= k < |w| ==> IsAlnum(w[k])
  }

  predicate AllDigits(w: string)
  {
    forall k :: 0 <= k < |w| ==> IsDigit(w[k])
  }

  /** `([0-9]+[.]?[0-9]*)|([.][0-9]+)` */
  predicate IsNumber(w: string)
  {
    (exists a, b :: 0 < a <= b <= |w| && AllDigits(w[..a]) && w[a..b] in {"", "."} && AllDigits(w[b..]) && (b == a + 1 ==> w[a] == '.'))
    || (|w| > 1 && w[0] == '.' && AllDigits(w[1..]))
  }

  /** Where the name starting at `i` ends. */
  function NameEnd(s: string, i: nat): (e: nat)
    requires i < |s| && IsAlpha(s[i])
    ensures i < e <= |s| && IsName(s[i..e]) && (e == |s| || !IsAlnum(s[e]))
  {
    var e := RunEnd(s, i + 1, IsAlnum);
    assert forall k :: 1 <= k < e - i ==> s[i..e][k] == s[i + k];
    e
  }

  /** Where the digits-dot-digits number starting at digit `i` ends. */
  function NumberEnd(s: string, i: nat): (e: nat)
    requires i < |s| && IsDigit(s[i])
    ensures i < e <= |s| && (e == |s| || !IsDigit(s[e]))
  {
    var intEnd := RunEnd(s, i + 1, IsDigit);
    var dotEnd := if intEnd < |s| && s[intEnd] == '.' then intEnd + 1 else intEnd;
    RunEnd(s, dotEnd, IsDigit)
  }

  /** Where the number `.` digits starting at `i` ends. */
  function FractionEnd(s: string, i: nat): (e: nat)
    requires i + 1 < |s| && s[i] == '.' && IsDigit(s[i + 1])
    ensures i + 1 < e <= |s| && (e == |s| || !IsDigit(s[e]))
  {
    RunEnd(s, i + 1, IsDigit)
  }

  /**
   * The token starting exactly at `j` and the position after it: a keyword
   * or identifier first, then a number, then a one-character operator; no
   * token, with the position unchanged, when none of them starts there.
   */
  function LexAt(s: string, j: nat): (r: (Option<Token>, nat))
    requires j <= |s|
    ensures j <= r.1 <= |s|
    ensures r.0.None? <==> r.1 == j
  {
    if j == |s| then (None, j)
    else if IsAlpha(s[j]) then
      var e := NameEnd(s, j);
      (Some(KeywordOrIdentifier(s[j..e])), e)
    else if IsDigit(s[j]) then
      var e := NumberEnd(s, j);
      (Some(LiteralToken(s[j..e])), e)
    else if s[j] == '.' && j + 1 < |s| && IsDigit(s[j + 1]) then
      var e := FractionEnd(s, j);
      (Some(LiteralToken(s[j..e])), e)
    else if IsPunct(s[j]) then
      (Some(OperatorToken(s[j])), j + 1)
    else (None, j)
  }

  /**
   * One call of `lex()` from position `i`: skip whitespace and control
   * characters; a `#` comment is consumed up to the next line break and
   * lexing restarts; otherwise `LexAt` decides.
   */
  function Scan(s: string, i: nat): (r: (Option<Token>, nat))
    requires i <= |s|
    ensures i <= r.1 <= |s|
    decreases |s| - i
  {
    var j := RunEnd(s, i, IsSkipped);
    if j < |s| && s[j] == '#' then
      Scan(s, RunEnd(s, j, IsNotLineBreak))
    else
      LexAt(s, j)
  }

  /** A name token spells a keyword exactly when it is a keyword token, and is always a maximal `[a-zA-Z][a-zA-Z0-9]*`. */
  lemma {:induction false} NameTokens(s: string, j: nat)
    requires j < |s| && IsAlpha(s[j])
    ensures var (t, e) := LexAt(s, j);
      t.Some? && IsName(s[j..e]) && (e == |s| || !IsAlnum(s[e]))
      && (t.value.KeywordToken? <==> KeywordOf(s[j..e]).Some?)
      && (t.value.IdentifierToken? ==> t.value.name == s[j..e] && KeywordOf(t.value.name).None?)
  {
  }

  /** A number starting with a digit matches `[0-9]+[.]?[0-9]*`. */
  lemma {:induction false} DigitNumberShape(s: string, j: nat)
    requires j < |s| && IsDigit(s[j])
    ensures IsNumber(s[j..NumberEnd(s, j)])
  {
    var e := NumberEnd(s, j);
    var w := s[j..e];
    var intEnd := RunEnd(s, j + 1, IsDigit);
    var dotEnd := if intEnd < |s| && s[intEnd] == '.' then intEnd + 1 else intEnd;
    var a, b := intEnd - j, dotEnd - j;
    assert forall k :: 0 <= k < a ==> w[..a][k] == s[j + k];
    assert forall k :: 0 <= k < |w| - b ==> w[b..][k] == s[b + j + k];
    assert w[a..b] in {"", "."} by {
      if b == a + 1 {
        assert w[a..b] == [s[intEnd]];
      }
    }
  }

  /** A number starting with `.` matches `[.][0-9]+`. */
  lemma {:induction false} FractionNumberShape(s: string, j: nat)
    requires j + 1 < |s| && s[j] == '.' && IsDigit(s[j + 1])
    ensures IsNumber(s[j..FractionEnd(s, j)])
  {
    var w := s[j..FractionEnd(s, j)];
    assert forall k :: 0 <= k < |w| - 1 ==> w[1..][k] == s[j + 1 + k];
  }

  /** Every literal token is a maximal number: it matches the number pattern and no digit follows it. */
  lemma {:induction false} LiteralTokens(s: string, j: nat)
    requires j <= |s|
    requires LexAt(s, j).0.Some? && LexAt(s, j).0.value.LiteralToken?
    ensures var (t, e) := LexAt(s, j);
      t.value.digits == s[j..e] && IsNumber(s[j..e]) && (e == |s| || !IsDigit(s[e]))
  {
    if IsDigit(s[j]) {
      DigitNumberShape(s, j);
    } else {
      FractionNumberShape(s, j);
    }
  }

  /** A `.` that no digit follows is not a number, so it becomes a one-character operator. */
  lemma LoneDotIsOperator(s: string, j: nat)
    requires j < |s| && s[j] == '.' && (j + 1 == |s| || !IsDigit(s[j + 1]))
    ensures LexAt(s, j) == (Some(OperatorToken('.')), j + 1)
  {
  }

  /** An operator token is exactly the one punctuation character at the position. */
  lemma OperatorTokens(s: string, j: nat)
    requires j <= |s| && LexAt(s, j).0.Some? && LexAt(s, j).0.value.OperatorToken?
    ensures LexAt(s, j).1 == j + 1 && LexAt(s, j).0.value.symbol == s[j] && IsPunct(s[j])
  {
  }

  /**
   * `lex()` returns no token exactly when, after whitespace and comments,
   * the input is exhausted or its next character starts no token.
   */
  lemma {:induction false} ScanFails(s: string, i: nat)
    requires i <= |s|
    ensures Scan(s, i).0.None? ==> Scan(s, i).1 == |s| || (!IsAlnum(s[Scan(s, i).1]) && !IsPunct(s[Scan(s, i).1]))
    decreases |s| - i
  {
    var j := RunEnd(s, i, IsSkipped);
    if j < |s| && s[j] == '#' {
      ScanFails(s, RunEnd(s, j, IsNotLineBreak));
    }
  }

  /** The characters a comment consumes are the `#` and what follows it up to, not including, the line break. */
  lemma CommentSpan(s: string, j: nat)
    requires j < |s| && s[j] == '#'
    ensures var e := RunEnd(s, j, IsNotLineBreak);
      j < e && (e == |s| || IsLineBreak(s[e])) && forall k :: j <= k < e ==> !IsLineBreak(s[k])
  {
  }

  /** `if` then a comment, then `.5.`: a keyword, the comment is skipped, a literal, and a lone `.` operator. */
  lemma ExampleKeywordCommentNumber()
    ensures var s := "if#c\n.5.";
      Scan(s, 0) == (Some(KeywordToken(If)), 2)
      && Scan(s, 2) == (Some(LiteralToken(".5")), 7)
      && Scan(s, 7) == (Some(OperatorToken('.')), 8)
      && Scan(s, 8) == (None, 8)
  {
    var s := "if#c\n.5.";
    assert s[0..2] == "if";
    assert s[5..7] == ".5";
  }

  /** `x1+2.` lexes as the identifier `x1`, the operator `+` and the literal `2.`. */
  lemma ExampleIdentifierOperatorNumber()
    ensures var s := "x1+2.";
      Scan(s, 0) == (Some(IdentifierToken("x1")), 2)
      && Scan(s, 2) == (Some(OperatorToken('+')), 3)
      && Scan(s, 3) == (Some(LiteralToken("2.")), 5)
  {
    var s := "x1+2.";
    assert s[0..2] == "x1";
    assert s[3..5] == "2.";
  }
}

/**
 * `zlang::Token` (zlang/Token.cpp): a type tag and a union of payloads, one
 * per tag. The union is modelled by one field per member, each always live;
 * only the member the tag names is meaningful, and `Value()` reads exactly
 * that one. The lifetime of the union's `std::string` member (constructed
 * or not, destroyed or not) is therefore not modelled. A literal's `double`
 * is kept as the text of its digits.
 */
module ZlangToken {
  import opened Wrappers
  import ZlangScan

  datatype TokenType = Invalid | Keyword | Literal | Identifier | Operator

  class Token {
    var tag: TokenType
    var keywordType: ZlangScan.Keyword
    var literalValue: string
    var identifierName: string
    var operatorChar: char

    /** The token's meaning: nothing for INVALID, otherwise the payload its tag names. */
    function Value(): (v: Option<ZlangScan.Token>)
      reads this
      ensures v.None? <==> tag == Invalid
    {
      match tag
      case Invalid => None
      case Keyword => Some(ZlangScan.KeywordToken(keywordType))
      case Literal => Some(ZlangScan.LiteralToken(literalValue))
      case Identifier => Some(ZlangScan.IdentifierToken(identifierName))
      case Operator => Some(ZlangScan.OperatorToken(operatorChar))
    }

    /** `Token(INVALID)`; the tag must be INVALID. */
    constructor OfInvalid(tag: TokenType)
      requires tag == TokenType.Invalid
      ensures Value() == None
    {
      this.tag := tag;
      keywordType, literalValue, identifierName, operatorChar := ZlangScan.Def, "", "", ' ';
    }

    /** `Token(KEYWORD, keywordType)`; the tag must be KEYWORD. */
    constructor OfKeyword(tag: TokenType, keywordType: ZlangScan.Keyword)
      requires tag == TokenType.Keyword
      ensures Value() == Some(ZlangScan.KeywordToken(keywordType))
    {
      this.tag := tag;
      this.keywordType := keywordType;
      literalValue, identifierName, operatorChar := "", "", ' ';
    }

    /** `Token(LITERAL, literalValue)`; the tag must be LITERAL. */
    constructor OfLiteral(tag: TokenType, literalValue: string)
      requires tag == TokenType.Literal
      ensures Value() == Some(ZlangScan.LiteralToken(literalValue))
    {
      this.tag := tag;
      this.literalValue := literalValue;
      keywordType, identifierName, operatorChar := ZlangScan.Def, "", ' ';
    }

    /** `Token(IDENTIFIER, identifierName)`; the tag must be IDENTIFIER. */
    constructor OfIdentifier(tag: TokenType, identifierName: string)
      requires tag == TokenType.Identifier
      ensures Value() == Some(ZlangScan.IdentifierToken(identifierName))
    {
      this.tag := tag;
      this.identifierName := identifierName;
      keywordType, literalValue, operatorChar := ZlangScan.Def, "", ' ';
    }

    /** `Token(OPERATOR, operatorChar)`; the tag must be OPERATOR. */
    constructor OfOperator(tag: TokenType, operatorChar: char)
      requires tag == TokenType.Operator
      ensures Value() == Some(ZlangScan.OperatorToken(operatorChar))
    {
      this.tag := tag;
      this.operatorChar := operatorChar;
      keywordType, literalValue, identifierName := ZlangScan.Def, "", "";
    }

    /** The copy constructor: the same tag and the payload it names. */
    constructor Copy(token: Token)
      ensures Value() == token.Value()
    {
      tag := token.tag;
      keywordType, literalValue, identifierName, operatorChar := ZlangScan.Def, "", "", ' ';
      new;
      match tag
      case Invalid =>
      case Keyword => keywordType := token.keywordType;
      case Literal => literalValue := token.literalValue;
      case Identifier => identifierName := token.identifierName;
      case Operator => operatorChar := token.operatorChar;
    }

    /**
     * The move constructor: the payload moves here and the source becomes
     * INVALID. The source's payload fields are left as they were; for the
     * string members the source leaves a valid but unspecified string, which
     * `Value()` never reads again because the tag is INVALID.
     */
    constructor Move(token: Token)
      modifies token
      ensures Value() == old(token.Value())
      ensures token.Value() == None
      ensures token.keywordType == old(token.keywordType) && token.literalValue == old(token.literalValue)
      ensures token.identifierName == old(token.identifierName) && token.operatorChar == old(token.operatorChar)
    {
      tag := token.tag;
      keywordType, literalValue, identifierName, operatorChar := ZlangScan.Def, "", "", ' ';
      new;
      token.tag := TokenType.Invalid;
      match tag
      case Invalid =>
      case Keyword => keywordType := token.keywordType;
      case Literal => literalValue := token.literalValue;
      case Identifier => identifierName := token.identifierName;
      case Operator => operatorChar := token.operatorChar;
    }

    /** Copy assignment: this token takes the other's tag and payload; the other is unchanged. */
    method CopyAssign(token: Token)
      modifies this
      ensures Value() == old(token.Value())
    {
      tag := token.tag;
      match tag
      case Invalid =>
      case Keyword => keywordType := token.keywordType;
      case Literal => literalValue := token.literalValue;
      case Identifier => identifierName := token.identifierName;
      case Operator => operatorChar := token.operatorChar;
    }

    /**
     * Move assignment: the tag is copied and the source's tag is set to
     * INVALID before the payload is moved, so moving a token into itself
     * leaves it INVALID.
     */
    method MoveAssign(token: Token)
      modifies this, token
      ensures token.Value() == None
      ensures token != this ==> Value() == old(token.Value())
      ensures token == this ==> Value() == None
    {
      tag := token.tag;
      token.tag := TokenType.Invalid;
      match tag
      case Invalid =>
      case Keyword => keywordType := token.keywordType;
      case Literal => literalValue := token.literalValue;
      case Identifier => identifierName := token.identifierName;
      case Operator => operatorChar := token.operatorChar;
    }

    /** `operator bool`: false exactly for INVALID. */
    predicate IsValid()
      reads this
    {
      tag != TokenType.Invalid
    }

    /** `operator <<`: the tag's label, then a space and the payload. */
    function Print(): (s: string)
      reads this
      ensures |s| >= 14 && s[..14] == Label(tag)
      ensures tag != TokenType.Invalid ==> |s| > 14 && s[14] == ' '
      ensures Value().None? ==> s == Label(tag)
      ensures Value().Some? ==> s[15..] == PayloadText(Value().value)
    {
      match tag
      case Invalid => Label(tag)
      case Keyword => Label(tag) + " " + KeywordText(keywordType)
      case Literal => Label(tag) + " " + literalValue
      case Identifier => Label(tag) + " " + identifierName
      case Operator => Label(tag) + " " + [operatorChar]
    }
  }

  /** `operator bool` tells exactly whether the token has a value. */
  lemma ValidMeansValue(t: Token)
    ensures t.IsValid() <==> t.Value().Some?
  {
  }

  /** `operator <<` on a keyword: its spelling. */
  function KeywordText(k: ZlangScan.Keyword): (s: string)
    ensures |s| > 0
  {
    match k
    case Extern => "extern"
    case Def => "def"
    case If => "if"
    case Else => "else"
  }

  /** Printing a keyword inverts the lexers' keyword recognition, in both directions. */
  lemma KeywordTextRoundTrip(k: ZlangScan.Keyword, name: string)
    ensures ZlangScan.KeywordOf(KeywordText(k)) == Some(k)
    ensures ZlangScan.KeywordOf(name) == Some(k) ==> name == KeywordText(k)
  {
  }

  /** What `operator <<` prints after the label: the keyword's spelling, the literal, the name or the character. */
  function PayloadText(v: ZlangScan.Token): string
  {
    match v
    case KeywordToken(k) => KeywordText(k)
    case LiteralToken(digits) => digits
    case IdentifierToken(name) => name
    case OperatorToken(c) => [c]
  }

  /**
   * The printed text determines the token's value. The payload text alone
   * does not: only the label tells the identifier `if` from the keyword.
   */
  lemma PrintDeterminesValue(t: Token, u: Token)
    requires t.Print() == u.Print()
    ensures t.Value() == u.Value()
  {
    PrintedTagRecoverable(t);
    PrintedTagRecoverable(u);
    if t.tag == TokenType.Keyword {
      KeywordTextRoundTrip(t.keywordType, KeywordText(u.keywordType));
    }
  }

  /** The fixed 14-character label printed for each tag. */
  function Label(t: TokenType): (s: string)
    ensures |s| == 14
  {
    match t
    case Invalid => "[ INVALID    ]"
    case Keyword => "[ KEYWORD    ]"
    case Literal => "[ LITERAL    ]"
    case Identifier => "[ IDENTIFIER ]"
    case Operator => "[ OPERATOR   ]"
  }

  /** Reading a label back. */
  function TypeOfLabel(s: string): (t: Option<TokenType>)
  {
    if s == "[ INVALID    ]" then Some(TokenType.Invalid)
    else if s == "[ KEYWORD    ]" then Some(TokenType.Keyword)
    else if s == "[ LITERAL    ]" then Some(TokenType.Literal)
    else if s == "[ IDENTIFIER ]" then Some(TokenType.Identifier)
    else if s == "[ OPERATOR   ]" then Some(TokenType.Operator)
    else None
  }

  /** The labels are distinct, so the tag of a printed token can be read off its first 14 characters. */
  lemma PrintedTagRecoverable(t: Token)
    ensures TypeOfLabel(t.Print()[..14]) == Some(t.tag)
  {
  }

  /** Copying keeps the source; moving empties it, and a token moved back holds the original value. */
  method CopyThenMove() returns (copied: Option<ZlangScan.Token>, source: Option<ZlangScan.Token>, movedBack: Option<ZlangScan.Token>)
    ensures copied == Some(ZlangScan.IdentifierToken("x")) && source == None && movedBack == copied
  {
    var a := new Token.OfIdentifier(TokenType.Identifier, "x");
    var b := new Token.Copy(a);
    copied := b.Value();
    var c := new Token.Move(a);
    source := a.Value();
    a.MoveAssign(c);
    movedBack := a.Value();
  }
}

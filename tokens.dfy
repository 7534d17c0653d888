/** The token kinds and tables of compiler/lexer.py. */
module CompilerTokens {
  import opened Lexing

  datatype TokenType =
    | EOF | IDENTIFIER | NUMBER_LITERAL | STRING_LITERAL | STRUCTURE | FUNCTION | LET | IF | ELSE
    | L_BRACE | R_BRACE | L_BRACKET | R_BRACKET | SEMICOLON | ASSIGN | ARROW | EQUALS | INT
    | STRING | COMMA | RETURN | L_PAREN | R_PAREN | NOT_EQUALS | LESS_THAN | LESS_THAN_EQ
    | GREATER_THAN | GREATER_THAN_EQ | ADD | SUBTRACT | MULTIPLY | DIVIDE | DOT | NEW | WHILE
    | VECTOR | MAP | COLON | VOID

  const KEYWORDS: map<string, TokenType> := map[
    "struct" := STRUCTURE, "fn" := FUNCTION, "let" := LET, "if" := IF, "else" := ELSE,
    "int" := INT, "string" := STRING, "return" := RETURN, "new" := NEW, "while" := WHILE,
    "vector" := VECTOR, "map" := MAP, "void" := VOID]

  /** Note that "(" is L_BRACKET and "[" is L_PAREN in this table. */
  const SYMBOLS: map<string, TokenType> := map[
    "{" := L_BRACE, "}" := R_BRACE, "(" := L_BRACKET, ")" := R_BRACKET, ";" := SEMICOLON,
    "=" := ASSIGN, "->" := ARROW, "==" := EQUALS, "," := COMMA, "[" := L_PAREN, "]" := R_PAREN,
    "!=" := NOT_EQUALS, "<" := LESS_THAN, "<=" := LESS_THAN_EQ, ">" := GREATER_THAN,
    ">=" := GREATER_THAN_EQ, "+" := ADD, "-" := SUBTRACT, "*" := MULTIPLY, "/" := DIVIDE,
    "." := DOT, ":" := COLON]

  /** The compiler's `_lex_symbol` tests `cur_char is not None` before forming a compound. */
  const Language: Lexing.Dialect<TokenType> :=
    Lexing.Dialect(EOF, IDENTIFIER, NUMBER_LITERAL, STRING_LITERAL, KEYWORDS, SYMBOLS, true)

  /**
   * The compound symbols are exactly five two-character keys; all but "!="
   * extend a one-character key, and a lone "!" is not a symbol.
   */
  lemma CompoundSymbols(k: string)
    requires k in SYMBOLS && |k| == 2
    ensures k in {"->", "==", "!=", "<=", ">="}
    ensures k != "!=" ==> [k[0]] in SYMBOLS
    ensures "!" !in SYMBOLS
  {
    assert k in {"->", "==", "!=", "<=", ">="};
    if k == "->" { assert [k[0]] == "-"; }
    else if k == "==" { assert [k[0]] == "="; }
    else if k == "!=" { }
    else if k == "<=" { assert [k[0]] == "<"; }
    else { assert [k[0]] == ">"; }
  }

  /** A symbol as the last character of the input still lexes in this dialect. */
  lemma TrailingSymbolLexes()
    ensures Next(Language, "x;", 1) == (Tok(Token(SEMICOLON, ";")), 2)
  {
    assert "x;"[1..2] == ";";
  }

  /** An unknown character yields None, and the token loop ends there: on "@1" nothing after the "@" is lexed. */
  lemma UnknownSymbolEndsLoop()
    ensures Next(Language, "@1", 0) == (NoToken, 1)
    ensures Tokens(Language, "@1", 0) == [NoToken]
  {
    assert "@1"[0..2] == "@1";
    assert "@1"[0..1] == "@";
  }
}

/** The token kinds and tables of glacier/lexer.py: the reduced, older set. */
module GlacierTokens {
  import opened Lexing

  datatype TokenType =
    | EOF | IDENTIFIER | NUMBER_LITERAL | STRING_LITERAL | STRUCTURE | FUNCTION | LET | IF | ELSE
    | L_BRACE | R_BRACE | L_BRACKET | R_BRACKET | SEMICOLON | ASSIGNMENT | ARROW | EQUALS | INT
    | STRING | COMMA | RETURN

  const KEYWORDS: map<string, TokenType> := map[
    "struct" := STRUCTURE, "fn" := FUNCTION, "let" := LET, "if" := IF, "else" := ELSE,
    "int" := INT, "string" := STRING, "return" := RETURN]

  const SYMBOLS: map<string, TokenType> := map[
    "{" := L_BRACE, "}" := R_BRACE, "(" := L_BRACKET, ")" := R_BRACKET, ";" := SEMICOLON,
    "=" := ASSIGNMENT, "->" := ARROW, "==" := EQUALS, "," := COMMA]

  /** The older `_lex_symbol` forms `single + cur_char` without checking for the end of input. */
  const Language: Lexing.Dialect<TokenType> :=
    Lexing.Dialect(EOF, IDENTIFIER, NUMBER_LITERAL, STRING_LITERAL, KEYWORDS, SYMBOLS, false)

  /** A symbol as the last character of the input fails in this dialect. */
  lemma TrailingSymbolCrashes()
    ensures Next(Language, "x;", 1).0 == Crash
  {
  }

  /** "while" is not a keyword here: it lexes as an identifier. */
  lemma WhileIsIdentifier()
    ensures Next(Language, "while", 0) == (Tok(Token(IDENTIFIER, "while")), 5)
  {
    assert "while"[0..5] == "while";
  }

  /** The triple-quoted buffer of test_function, one source line per piece. */
  const TestFunctionSource: string :=
    "\n" + "        fn foo() -> int {\n" + "          print(\"blah\");\n" + "        };\n" + "        "

  /** The tokens test_function expects, in order. */
  const TestFunctionTokens: seq<Lexed<TokenType>> := [
    Tok(Token(FUNCTION, "fn")), Tok(Token(IDENTIFIER, "foo")), Tok(Token(L_BRACKET, "(")),
    Tok(Token(R_BRACKET, ")")), Tok(Token(ARROW, "->")), Tok(Token(INT, "int")),
    Tok(Token(L_BRACE, "{")), Tok(Token(IDENTIFIER, "print")), Tok(Token(L_BRACKET, "(")),
    Tok(Token(STRING_LITERAL, "blah")), Tok(Token(R_BRACKET, ")")), Tok(Token(SEMICOLON, ";")),
    Tok(Token(R_BRACE, "}")), Tok(Token(SEMICOLON, ";")), Tok(Token(EOF, ""))]

  /** Where the cursor stands before each `lex_token` call of test_function, and at the end. */
  const TestFunctionCursors: seq<nat> := [0, 11, 15, 16, 17, 20, 24, 26, 42, 43, 49, 50, 51, 61, 62, 71]

  /** One `lex_token` call of test_function; each call is proved by its own lemma to keep the proofs small. */
  lemma TestFunctionNext(s: string, k: nat)
    requires s == TestFunctionSource && k < 15
    ensures Next(Language, s, TestFunctionCursors[k]) == (TestFunctionTokens[k], TestFunctionCursors[k + 1])
  {
    if k == 0 {
      TestFunctionNext0(s);
    } else if k == 1 {
      TestFunctionNext1(s);
    } else if k == 2 {
      TestFunctionNext2(s);
    } else if k == 3 {
      TestFunctionNext3(s);
    } else if k == 4 {
      TestFunctionNext4(s);
    } else if k == 5 {
      TestFunctionNext5(s);
    } else if k == 6 {
      TestFunctionNext6(s);
    } else if k == 7 {
      TestFunctionNext7(s);
    } else if k == 8 {
      TestFunctionNext8(s);
    } else if k == 9 {
      TestFunctionNext9(s);
    } else if k == 10 {
      TestFunctionNext10(s);
    } else if k == 11 {
      TestFunctionNext11(s);
    } else if k == 12 {
      TestFunctionNext12(s);
    } else if k == 13 {
      TestFunctionNext13(s);
    } else {
      TestFunctionNext14(s);
    }
  }

  lemma TestFunctionNext0(s: string)
    requires s == TestFunctionSource
    ensures Next(Language, s, TestFunctionCursors[0]) == (TestFunctionTokens[0], TestFunctionCursors[1])
  {
    TestFunctionWord0(s);
    assert s[9..11] == "fn" && KEYWORDS["fn"] == FUNCTION;
    NextWord(Language, s, 0, 9, 11);
  }

  /** The character classes around the word of step 0: spaces, then the word, then a delimiter. */
  lemma TestFunctionWord0(s: string)
    requires s == TestFunctionSource
    ensures 11 < |s|
    ensures forall k :: 0 <= k < 9 ==> IsSpace(s[k])
    ensures IsAlpha(s[9]) && (forall k :: 9 < k < 11 ==> IsAlnum(s[k])) && !IsAlnum(s[11])
  {
  }

  lemma TestFunctionNext1(s: string)
    requires s == TestFunctionSource
    ensures Next(Language, s, TestFunctionCursors[1]) == (TestFunctionTokens[1], TestFunctionCursors[2])
  {
    TestFunctionWord1(s);
    assert s[12..15] == "foo" && "foo" !in KEYWORDS;
    NextWord(Language, s, 11, 12, 15);
  }

  /** The character classes around the word of step 1: spaces, then the word, then a delimiter. */
  lemma TestFunctionWord1(s: string)
    requires s == TestFunctionSource
    ensures 15 < |s|
    ensures forall k :: 11 <= k < 12 ==> IsSpace(s[k])
    ensures IsAlpha(s[12]) && (forall k :: 12 < k < 15 ==> IsAlnum(s[k])) && !IsAlnum(s[15])
  {
  }

  lemma TestFunctionNext2(s: string)
    requires s == TestFunctionSource
    ensures Next(Language, s, TestFunctionCursors[2]) == (TestFunctionTokens[2], TestFunctionCursors[3])
  {
    assert s[15..17] == "()";
  }

  lemma TestFunctionNext3(s: string)
    requires s == TestFunctionSource
    ensures Next(Language, s, TestFunctionCursors[3]) == (TestFunctionTokens[3], TestFunctionCursors[4])
  {
    assert s[16..18] == ") ";
  }

  lemma TestFunctionNext4(s: string)
    requires s == TestFunctionSource
    ensures Next(Language, s, TestFunctionCursors[4]) == (TestFunctionTokens[4], TestFunctionCursors[5])
  {
    RunIs(s, 17, 18, Space);
    assert s[18..20] == "->";
  }

  lemma TestFunctionNext5(s: string)
    requires s == TestFunctionSource
    ensures Next(Language, s, TestFunctionCursors[5]) == (TestFunctionTokens[5], TestFunctionCursors[6])
  {
    TestFunctionWord5(s);
    assert s[21..24] == "int" && KEYWORDS["int"] == INT;
    NextWord(Language, s, 20, 21, 24);
  }

  /** The character classes around the word of step 5: spaces, then the word, then a delimiter. */
  lemma TestFunctionWord5(s: string)
    requires s == TestFunctionSource
    ensures 24 < |s|
    ensures forall k :: 20 <= k < 21 ==> IsSpace(s[k])
    ensures IsAlpha(s[21]) && (forall k :: 21 < k < 24 ==> IsAlnum(s[k])) && !IsAlnum(s[24])
  {
  }

  lemma TestFunctionNext6(s: string)
    requires s == TestFunctionSource
    ensures Next(Language, s, TestFunctionCursors[6]) == (TestFunctionTokens[6], TestFunctionCursors[7])
  {
    RunIs(s, 24, 25, Space);
    assert s[25..27] == "{\n";
  }

  lemma TestFunctionNext7(s: string)
    requires s == TestFunctionSource
    ensures Next(Language, s, TestFunctionCursors[7]) == (TestFunctionTokens[7], TestFunctionCursors[8])
  {
    TestFunctionWord7(s);
    assert s[37..42] == "print" && "print" !in KEYWORDS;
    NextWord(Language, s, 26, 37, 42);
  }

  /** The character classes around the word of step 7: spaces, then the word, then a delimiter. */
  lemma TestFunctionWord7(s: string)
    requires s == TestFunctionSource
    ensures 42 < |s|
    ensures forall k :: 26 <= k < 37 ==> IsSpace(s[k])
    ensures IsAlpha(s[37]) && (forall k :: 37 < k < 42 ==> IsAlnum(s[k])) && !IsAlnum(s[42])
  {
  }

  lemma TestFunctionNext8(s: string)
    requires s == TestFunctionSource
    ensures Next(Language, s, TestFunctionCursors[8]) == (TestFunctionTokens[8], TestFunctionCursors[9])
  {
    assert s[42..44] == "(\"";
  }

  lemma TestFunctionNext9(s: string)
    requires s == TestFunctionSource
    ensures Next(Language, s, TestFunctionCursors[9]) == (TestFunctionTokens[9], TestFunctionCursors[10])
  {
    RunIs(s, 44, 48, NotQuote);
    assert s[44..48] == "blah";
  }

  lemma TestFunctionNext10(s: string)
    requires s == TestFunctionSource
    ensures Next(Language, s, TestFunctionCursors[10]) == (TestFunctionTokens[10], TestFunctionCursors[11])
  {
    assert s[49..51] == ");";
  }

  lemma TestFunctionNext11(s: string)
    requires s == TestFunctionSource
    ensures Next(Language, s, TestFunctionCursors[11]) == (TestFunctionTokens[11], TestFunctionCursors[12])
  {
    assert s[50..52] == ";\n";
  }

  lemma TestFunctionNext12(s: string)
    requires s == TestFunctionSource
    ensures Next(Language, s, TestFunctionCursors[12]) == (TestFunctionTokens[12], TestFunctionCursors[13])
  {
    RunIs(s, 51, 60, Space);
    assert s[60..62] == "};";
  }

  lemma TestFunctionNext13(s: string)
    requires s == TestFunctionSource
    ensures Next(Language, s, TestFunctionCursors[13]) == (TestFunctionTokens[13], TestFunctionCursors[14])
  {
    assert s[61..63] == ";\n";
  }

  lemma TestFunctionNext14(s: string)
    requires s == TestFunctionSource
    ensures Next(Language, s, TestFunctionCursors[14]) == (TestFunctionTokens[14], TestFunctionCursors[15])
  {
    RunIs(s, 62, 71, Space);
  }

  /** tests/test_lexer.py test_function: the 15-token stream, ending with EOF. */
  lemma TestFunction(s: string)
    requires s == TestFunctionSource
    ensures Tokens(Language, s, 0) == TestFunctionTokens
  {
    forall k | 0 <= k < 15
      ensures TestFunctionCursors[k] <= |s|
      ensures Next(Language, s, TestFunctionCursors[k]) == (TestFunctionTokens[k], TestFunctionCursors[k + 1])
    {
      TestFunctionNext(s, k);
    }
    TokensReplay(Language, s, TestFunctionCursors, TestFunctionTokens, 0);
  }
}

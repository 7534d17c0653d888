/**
 * The hand-written lexer shared, with different tables, by compiler/lexer.py
 * and the older glacier/lexer.py.  A `Dialect` carries what differs between
 * the two: the token kinds, the KEYWORDS and SYMBOLS tables, and whether
 * `_lex_symbol` guards the compound lookup against the end of input.
 *
 * Character classes follow Python's `str` predicates on ASCII; other
 * characters belong to no class here.
 */
module Lexing {
  import opened Wrappers

  /** `str.isspace` on ASCII: tab to carriage return, the four separators 0x1c-0x1f, and space. */
  predicate IsSpace(c: char)
  {
    9 <= c as int <= 13 || 28 <= c as int <= 32
  }

  /** `str.isnumeric` on ASCII. */
  predicate IsNumeric(c: char) { '0' <= c <= '9' }

  /** `str.isalpha` on ASCII. */
  predicate IsAlpha(c: char) { 'a' <= c <= 'z' || 'A' <= c <= 'Z' }

  /** `str.isalnum` on ASCII. */
  predicate IsAlnum(c: char) { IsAlpha(c) || IsNumeric(c) }

  /** The character classes the scanning loops run over. */
  datatype CharSet = Space | Numeric | Alnum | NotQuote

  predicate In(cs: CharSet, c: char)
  {
    match cs
    case Space => IsSpace(c)
    case Numeric => IsNumeric(c)
    case Alnum => IsAlnum(c)
    case NotQuote => c != '"'
  }

  datatype Token<K> = Token(kind: K, value: string)

  datatype Dialect<K> = Dialect(
    eof: K, identifier: K, number: K, str: K,
    keywords: map<string, K>,
    symbols: map<string, K>,
    guardsEnd: bool)

  /**
   * What one `lex_token` call yields: a token, Python's None for a character
   * that starts nothing, the RuntimeError of an unterminated string, or the
   * TypeError of `str + None`.
   */
  datatype Lexed<K> = Tok(token: Token<K>) | NoToken | UnterminatedString | Crash

  /** The end of the longest run of `cs` characters starting at i. */
  function Run(buf: string, i: nat, cs: CharSet): (j: nat)
    requires i <= |buf|
    ensures i <= j <= |buf|
    ensures forall k :: i <= k < j ==> In(cs, buf[k])
    ensures j == |buf| || !In(cs, buf[j])
    decreases |buf| - i
  {
    if i < |buf| && In(cs, buf[i]) then Run(buf, i + 1, cs) else i
  }

  /**
   * `_lex_symbol` with the current character at s: the two-character
   * compound is preferred, then the single character; anything else
   * consumes the character and yields None.
   */
  function Symbol<K>(d: Dialect<K>, buf: string, s: nat): (Lexed<K>, nat)
    requires s < |buf|
  {
    var single := [buf[s]];
    if s + 1 < |buf| && buf[s..s + 2] in d.symbols then
      (Tok(Token(d.symbols[buf[s..s + 2]], buf[s..s + 2])), s + 2)
    else if s + 1 == |buf| && !d.guardsEnd then
      (Crash, s + 1)
    else if single in d.symbols then
      (Tok(Token(d.symbols[single], single)), s + 1)
    else
      (NoToken, s + 1)
  }

  /**
   * One `lex_token` call with the current character at position i (|buf|
   * when `cur_char` is None): what it yields and where the current
   * character is afterwards.
   */
  function Next<K>(d: Dialect<K>, buf: string, i: nat): (r: (Lexed<K>, nat))
    requires i <= |buf|
    ensures r.1 <= |buf|
  {
    var s := Run(buf, i, Space);
    if s == |buf| then
      (Tok(Token(d.eof, "")), s)
    else if IsNumeric(buf[s]) then
      var e := Run(buf, s + 1, Numeric);
      (Tok(Token(d.number, buf[s..e])), e)
    else if IsAlpha(buf[s]) then
      var e := Run(buf, s + 1, Alnum);
      var v := buf[s..e];
      (Tok(Token(if v in d.keywords then d.keywords[v] else d.identifier, v)), e)
    else if buf[s] == '"' then
      var e := Run(buf, s + 1, NotQuote);
      if e == |buf| then (UnterminatedString, e) else (Tok(Token(d.str, buf[s + 1..e])), e + 1)
    else
      Symbol(d, buf, s)
  }

  ghost predicate IsEof<K>(d: Dialect<K>, x: Lexed<K>) { x.Tok? && x.token.kind == d.eof && x.token.value == "" }

  /**
   * Once the input is used up `lex_token` yields the EOF token with an empty
   * value and leaves the cursor at the end, so every later call yields it again.
   */
  lemma EofIsSticky<K>(d: Dialect<K>, buf: string, i: nat)
    requires i <= |buf| && forall k :: i <= k < |buf| ==> IsSpace(buf[k])
    ensures Next(d, buf, i) == (Tok(Token(d.eof, "")), |buf|)
    ensures Next(d, buf, |buf|) == Next(d, buf, i)
  {
  }

  /** Every call that does not reach the end of input consumes at least one character. */
  lemma NextAdvances<K>(d: Dialect<K>, buf: string, i: nat)
    requires i <= |buf|
    ensures Next(d, buf, i).1 > i || Next(d, buf, i).1 == |buf|
    ensures Run(buf, i, Space) < |buf| ==> Next(d, buf, i).1 > i
    ensures !IsEof(d, Next(d, buf, i).0) ==> Next(d, buf, i).1 > i
  {
  }

  /**
   * A number token is the maximal run of numeric characters at the first
   * non-space character; lexing resumes at the first character after it.
   */
  lemma NumberIsMaximalRun<K>(d: Dialect<K>, buf: string, i: nat)
    requires i <= |buf|
    requires var s := Run(buf, i, Space); s < |buf| && IsNumeric(buf[s])
    ensures var (r, e) := Next(d, buf, i);
      r.Tok? && r.token.kind == d.number && |r.token.value| >= 1 &&
      (forall k :: 0 <= k < |r.token.value| ==> IsNumeric(r.token.value[k])) &&
      e == Run(buf, i, Space) + |r.token.value| &&
      (e == |buf| || !IsNumeric(buf[e]))
  {
  }

  /**
   * An identifier starts alphabetic and spans the maximal alphanumeric run;
   * its kind is the keyword's when the text is a keyword, IDENTIFIER otherwise.
   */
  lemma IdentifierOrKeyword<K>(d: Dialect<K>, buf: string, i: nat)
    requires i <= |buf|
    requires var s := Run(buf, i, Space); s < |buf| && IsAlpha(buf[s])
    ensures var (r, e) := Next(d, buf, i);
      var v := r.token.value;
      r.Tok? && |v| >= 1 && IsAlpha(v[0]) &&
      (forall k :: 0 <= k < |v| ==> IsAlnum(v[k])) &&
      (e == |buf| || !IsAlnum(buf[e])) &&
      (v in d.keywords ==> r.token.kind == d.keywords[v]) &&
      (v !in d.keywords ==> r.token.kind == d.identifier)
  {
  }

  /**
   * The identifier step read off the buffer: spaces up to s, a letter at s,
   * letters and digits up to e, and a non-alphanumeric character or the end at e.
   */
  lemma NextWord<K>(d: Dialect<K>, buf: string, i: nat, s: nat, e: nat)
    requires i <= s < e <= |buf|
    requires forall k :: i <= k < s ==> IsSpace(buf[k])
    requires IsAlpha(buf[s]) && forall k :: s < k < e ==> IsAlnum(buf[k])
    requires e == |buf| || !IsAlnum(buf[e])
    ensures var v := buf[s..e];
      Next(d, buf, i) == (Tok(Token(if v in d.keywords then d.keywords[v] else d.identifier, v)), e)
  {
    RunIs(buf, i, s, Space);
    RunIs(buf, s + 1, e, Alnum);
  }

  /**
   * A string token's value is exactly the characters between the quotes;
   * end of input before the closing quote is the RuntimeError.
   */
  lemma StringBetweenQuotes<K>(d: Dialect<K>, buf: string, i: nat)
    requires i <= |buf|
    requires var s := Run(buf, i, Space); s < |buf| && buf[s] == '"'
    ensures var s := Run(buf, i, Space);
      var (r, e) := Next(d, buf, i);
      (r == UnterminatedString <==> forall k :: s < k < |buf| ==> buf[k] != '"') &&
      (r.Tok? ==>
        (r.token.kind == d.str && e >= s + 2 && buf[e - 1] == '"' &&
         buf[s..e] == ['"'] + r.token.value + ['"'] &&
         forall k :: 0 <= k < |r.token.value| ==> r.token.value[k] != '"'))
  {
    var s := Run(buf, i, Space);
    var e := Run(buf, s + 1, NotQuote);
    if e < |buf| {
      assert buf[s..e + 1] == ['"'] + buf[s + 1..e] + ['"'];
    }
  }

  /**
   * Symbols are greedy: when the current and next characters form a SYMBOLS
   * key both are consumed; otherwise the single character's entry is used.
   */
  lemma SymbolsAreGreedy<K>(d: Dialect<K>, buf: string, s: nat)
    requires s + 1 < |buf|
    ensures buf[s..s + 2] in d.symbols ==>
      Symbol(d, buf, s) == (Tok(Token(d.symbols[buf[s..s + 2]], buf[s..s + 2])), s + 2)
    ensures buf[s..s + 2] !in d.symbols && [buf[s]] in d.symbols ==>
      Symbol(d, buf, s) == (Tok(Token(d.symbols[[buf[s]]], [buf[s]])), s + 1)
    ensures buf[s..s + 2] !in d.symbols && [buf[s]] !in d.symbols ==>
      Symbol(d, buf, s) == (NoToken, s + 1)
  {
  }

  /**
   * On the last character of the input a guarded dialect falls back to the
   * single-character symbol, while an unguarded one fails on `str + None`.
   */
  lemma SymbolAtEnd<K>(d: Dialect<K>, buf: string)
    requires |buf| >= 1
    ensures var s := |buf| - 1;
      d.guardsEnd ==> Symbol(d, buf, s).0 == (if [buf[s]] in d.symbols then Tok(Token(d.symbols[[buf[s]]], [buf[s]])) else NoToken)
    ensures !d.guardsEnd ==> Symbol(d, buf, |buf| - 1).0 == Crash
  {
  }

  /**
   * A result that ends the token loop: EOF, or anything that is not a token.
   * A None result is appended and then raises AttributeError at `tok.type`;
   * the other two raise inside `lex_token`.
   */
  ghost predicate Stops<K>(d: Dialect<K>, x: Lexed<K>) { IsEof(d, x) || !x.Tok? }

  /**
   * The token loop of the driver and of the tests: call `lex_token` until it
   * yields EOF. It stops at the first result that is not a token too, where
   * Python raises; that result is the last one listed.
   */
  ghost function Tokens<K>(d: Dialect<K>, buf: string, i: nat): (ts: seq<Lexed<K>>)
    requires i <= |buf|
    ensures |ts| >= 1
    decreases |buf| - i
  {
    var (r, e) := Next(d, buf, i);
    NextAdvances(d, buf, i);
    if Stops(d, r) then [r]
    else [r] + Tokens(d, buf, e)
  }

  /** Run characterised: the end of a maximal run is determined by the run's content. */
  lemma RunIs(buf: string, i: nat, j: nat, cs: CharSet)
    requires i <= j <= |buf|
    requires forall k :: i <= k < j ==> In(cs, buf[k])
    requires j == |buf| || !In(cs, buf[j])
    ensures Run(buf, i, cs) == j
  {
  }

  /** One step of the token loop. */
  lemma TokensStep<K>(d: Dialect<K>, buf: string, i: nat)
    requires i <= |buf|
    requires var r := Next(d, buf, i).0; r.Tok? && !IsEof(d, r)
    ensures Tokens(d, buf, i) == [Next(d, buf, i).0] + Tokens(d, buf, Next(d, buf, i).1)
  {
  }

  /** The token loop always ends with EOF or with the non-token that stopped it, and every earlier result is a proper token. */
  lemma {:induction false} TokensEnd<K>(d: Dialect<K>, buf: string, i: nat)
    requires i <= |buf|
    ensures var ts := Tokens(d, buf, i);
      var last := ts[|ts| - 1];
      IsEof(d, last) || !last.Tok?
    ensures forall k :: 0 <= k < |Tokens(d, buf, i)| - 1 ==>
      var t := Tokens(d, buf, i)[k]; t.Tok? && !IsEof(d, t)
    decreases |buf| - i
  {
    var (r, e) := Next(d, buf, i);
    NextAdvances(d, buf, i);
    if !Stops(d, r) {
      TokensEnd(d, buf, e);
    }
  }

  /**
   * The token loop is fixed by its steps: when the call from each cursor
   * yields the next token and the next cursor, and only the last token stops
   * the loop, the loop yields exactly those tokens.
   */
  lemma {:induction false} TokensReplay<K>(d: Dialect<K>, buf: string, cursors: seq<nat>, toks: seq<Lexed<K>>, k: nat)
    requires |cursors| == |toks| + 1 && k < |toks|
    requires forall j :: 0 <= j < |toks| ==> cursors[j] <= |buf| && Next(d, buf, cursors[j]) == (toks[j], cursors[j + 1])
    requires forall j :: 0 <= j < |toks| - 1 ==> toks[j].Tok? && !IsEof(d, toks[j])
    requires Stops(d, toks[|toks| - 1])
    ensures Tokens(d, buf, cursors[k]) == toks[k..]
    decreases |toks| - k
  {
    assert Next(d, buf, cursors[k]) == (toks[k], cursors[k + 1]);
    if k < |toks| - 1 {
      assert toks[k].Tok? && !IsEof(d, toks[k]);
      TokensStep(d, buf, cursors[k]);
      TokensReplay(d, buf, cursors, toks, k + 1);
      assert toks[k..] == [toks[k]] + toks[k + 1..];
    } else {
      assert toks[k..] == [toks[k]];
    }
  }

  lemma SliceExtend<T>(s: seq<T>, a: nat, b: nat)
    requires a <= b < |s|
    ensures s[a..b] + [s[b]] == s[a..b + 1]
  {
  }

  /**
   * `Lexer`: `buffer` is the source text, `pos` the index of the next
   * character to read and `cur_char` the character under the cursor, None
   * once the input is used up.
   */
  class Lexer<K> {
    const dialect: Dialect<K>
    const buffer: string
    var pos: nat
    var curChar: Option<char>

    ghost predicate Valid()
      reads this
    {
      pos <= |buffer| &&
      (curChar.None? ==> pos == |buffer|) &&
      (curChar.Some? ==> 0 < pos && buffer[pos - 1] == curChar.value)
    }

    /** The position of the current character, |buffer| when there is none. */
    ghost function Cursor(): nat
      reads this
    {
      if curChar.None? || pos == 0 then |buffer| else pos - 1
    }

    constructor (d: Dialect<K>, buf: string)
      ensures Valid() && dialect == d && buffer == buf && Cursor() == 0
    {
      dialect := d;
      buffer := buf;
      pos := 0;
      new;
      GetChar();
    }

    /** `_get_char`: move to the next character, or to None at the end. */
    method GetChar()
      requires pos <= |buffer|
      modifies this
      ensures Valid()
      ensures old(pos) < |buffer| ==> pos == old(pos) + 1 && curChar == Some(buffer[old(pos)])
      ensures old(pos) >= |buffer| ==> pos == old(pos) && curChar.None?
    {
      if pos >= |buffer| {
        curChar := None;
        return;
      }
      curChar := Some(buffer[pos]);
      pos := pos + 1;
    }

    /** `_trim_whitespace`: skip the run of spaces under the cursor. */
    method TrimWhitespace()
      requires Valid()
      modifies this
      ensures Valid() && Cursor() == Run(buffer, old(Cursor()), Space)
    {
      ghost var start := Cursor();
      while curChar.Some? && IsSpace(curChar.value)
        invariant Valid() && start <= Cursor()
        invariant Run(buffer, Cursor(), Space) == Run(buffer, start, Space)
        decreases |buffer| - Cursor()
      {
        GetChar();
      }
    }

    /** `_lex_number`: the digits from the current character on. */
    method LexNumber() returns (t: Token<K>)
      requires Valid() && curChar.Some? && IsNumeric(curChar.value)
      modifies this
      ensures Valid()
      ensures Cursor() == Run(buffer, old(Cursor()) + 1, Numeric)
      ensures t == Token(dialect.number, buffer[old(Cursor())..Cursor()])
    {
      ghost var start := Cursor();
      var value := [curChar.value];
      GetChar();
      assert Cursor() == start + 1;
      assert value == buffer[start..start + 1];
      while curChar.Some? && IsNumeric(curChar.value)
        invariant Valid() && start < Cursor()
        invariant value == buffer[start..Cursor()]
        invariant Run(buffer, Cursor(), Numeric) == Run(buffer, start + 1, Numeric)
        decreases |buffer| - Cursor()
      {
        SliceExtend(buffer, start, Cursor());
        value := value + [curChar.value];
        GetChar();
      }
      t := Token(dialect.number, value);
    }

    /** `_lex_identifier`: a keyword's kind for the KEYWORDS texts, IDENTIFIER otherwise. */
    method LexIdentifier() returns (t: Token<K>)
      requires Valid() && curChar.Some? && IsAlpha(curChar.value)
      modifies this
      ensures Valid()
      ensures Cursor() == Run(buffer, old(Cursor()) + 1, Alnum)
      ensures var v := buffer[old(Cursor())..Cursor()];
        t == Token(if v in dialect.keywords then dialect.keywords[v] else dialect.identifier, v)
    {
      ghost var start := Cursor();
      var value := [curChar.value];
      GetChar();
      assert Cursor() == start + 1;
      assert value == buffer[start..start + 1];
      while curChar.Some? && IsAlnum(curChar.value)
        invariant Valid() && start < Cursor()
        invariant value == buffer[start..Cursor()]
        invariant Run(buffer, Cursor(), Alnum) == Run(buffer, start + 1, Alnum)
        decreases |buffer| - Cursor()
      {
        SliceExtend(buffer, start, Cursor());
        value := value + [curChar.value];
        GetChar();
      }
      if value in dialect.keywords {
        return Token(dialect.keywords[value], value);
      }
      t := Token(dialect.identifier, value);
    }

    /** `_lex_string`: the characters up to the closing quote, which is consumed. */
    method LexString() returns (r: Lexed<K>)
      requires Valid() && curChar == Some('"')
      modifies this
      ensures Valid()
      ensures var e := Run(buffer, old(Cursor()) + 1, NotQuote);
        if e == |buffer| then r == UnterminatedString && Cursor() == e
        else r == Tok(Token(dialect.str, buffer[old(Cursor()) + 1..e])) && Cursor() == e + 1
    {
      ghost var start := Cursor();
      var value := "";
      GetChar();
      while curChar.Some? && curChar.value != '"'
        invariant Valid() && start < Cursor()
        invariant value == buffer[start + 1..Cursor()]
        invariant Run(buffer, Cursor(), NotQuote) == Run(buffer, start + 1, NotQuote)
        decreases |buffer| - Cursor()
      {
        SliceExtend(buffer, start + 1, Cursor());
        value := value + [curChar.value];
        GetChar();
      }
      if curChar.None? {
        return UnterminatedString;
      }
      GetChar();
      r := Tok(Token(dialect.str, value));
    }

    /** `_lex_symbol`. */
    method LexSymbol() returns (r: Lexed<K>)
      requires Valid() && curChar.Some?
      modifies this
      ensures Valid()
      ensures (r, Cursor()) == Symbol(dialect, buffer, old(Cursor()))
    {
      ghost var s := Cursor();
      var single := [curChar.value];
      GetChar();
      assert curChar.Some? ==> single + [curChar.value] == buffer[s..s + 2];
      if curChar.None? && !dialect.guardsEnd {
        return Crash;
      }
      if curChar.Some? && single + [curChar.value] in dialect.symbols {
        var compound := single + [curChar.value];
        GetChar();
        return Tok(Token(dialect.symbols[compound], compound));
      } else if single in dialect.symbols {
        return Tok(Token(dialect.symbols[single], single));
      }
      r := NoToken;
    }

    /** `lex_token`: skip spaces, then dispatch on the current character. */
    method LexToken() returns (r: Lexed<K>)
      requires Valid()
      modifies this
      ensures Valid()
      ensures (r, Cursor()) == Next(dialect, buffer, old(Cursor()))
    {
      TrimWhitespace();
      if curChar.None? {
        return Tok(Token(dialect.eof, ""));
      }
      var c := curChar.value;
      if IsNumeric(c) {
        var t := LexNumber();
        return Tok(t);
      }
      if IsAlpha(c) {
        var t := LexIdentifier();
        return Tok(t);
      }
      if c == '"' {
        r := LexString();
        return;
      }
      r := LexSymbol();
    }
  }
}

/** Turning the text of a display filter into tokens. The functions read the
    rest of the input and carry the position of its first character. */
module FilterLexer {
  import opened Options
  import opened FilterSyntax

  datatype TokenKind =
    | Word(word: string)
    | Str(text: string)
    | EqualOp
    | NotEqualOp
    | ContainsOp
    | MatchesOp
    | InOp
    | AndOp
    | OrOp
    | NotOp
    | LeftParen
    | RightParen
    | LeftBrace
    | RightBrace
    | Comma
    | End

  datatype Token = Token(kind: TokenKind, position: nat)

  /** Unicode `White_Space`. */
  predicate IsWhitespace(c: char) {
    var n := c as int;
    || 0x09 <= n <= 0x0D || n == 0x20 || n == 0x85 || n == 0xA0 || n == 0x1680
    || 0x2000 <= n <= 0x200A || n == 0x2028 || n == 0x2029 || n == 0x202F || n == 0x205F || n == 0x3000
  }

  predicate EndsWord(c: char) {
    IsWhitespace(c) || c == '(' || c == ')' || c == '{' || c == '}' || c == ',' || c == '=' || c == '!' || c == '&'
      || c == '|'
  }

  function WordLength(s: string): (n: nat)
    ensures n <= |s|
    ensures forall i :: 0 <= i < n ==> !EndsWord(s[i])
    ensures n < |s| ==> EndsWord(s[n])
  {
    if s == "" || EndsWord(s[0]) then 0 else 1 + WordLength(s[1..])
  }

  function KindOfWord(word: string): TokenKind {
    if EqIgnoreCase(word, "and") then AndOp
    else if EqIgnoreCase(word, "or") then OrOp
    else if EqIgnoreCase(word, "not") then NotOp
    else if EqIgnoreCase(word, "contains") then ContainsOp
    else if EqIgnoreCase(word, "matches") then MatchesOp
    else if EqIgnoreCase(word, "in") then InOp
    else Word(word)
  }

  /** A string literal's value with the characters it took, or an error. */
  datatype Literal = Literal(value: string, taken: nat) | BadLiteral(error: FilterError)

  function Unescape(c: char): Option<char> {
    if c == '"' then Some('"')
    else if c == '\\' then Some('\\')
    else if c == 'n' then Some('\n')
    else if c == 'r' then Some('\r')
    else if c == 't' then Some('\t')
    else None
  }

  /** The rest of a literal whose opening quote is behind `s`; `position` is
      where `s` begins and `start` where the literal did. */
  function LexBody(s: string, position: nat, start: nat, raw: bool): (r: Literal)
    ensures r.Literal? ==> 1 <= r.taken <= |s|
    decreases |s|
  {
    if s == "" then BadLiteral(FilterError(UnterminatedString, start))
    else if s[0] == '"' then Literal("", 1)
    else if s[0] != '\\' || raw then
      match LexBody(s[1..], position + 1, start, raw)
      case BadLiteral(e) => BadLiteral(e)
      case Literal(v, n) => Literal([s[0]] + v, n + 1)
    else if |s| == 1 then BadLiteral(FilterError(UnterminatedString, start))
    else if Unescape(s[1]).None? then BadLiteral(FilterError(UnsupportedEscape, position))
    else
      match LexBody(s[2..], position + 2, start, raw)
      case BadLiteral(e) => BadLiteral(e)
      case Literal(v, n) => Literal([Unescape(s[1]).value] + v, n + 2)
  }

  /** What stands at the head of a non-empty rest of the input. */
  datatype Head = Blank | Lexeme(kind: TokenKind, taken: nat) | Bad(error: FilterError)

  function Symbol(s: string): Option<TokenKind>
    requires s != ""
  {
    if s[0] == '(' then Some(LeftParen)
    else if s[0] == ')' then Some(RightParen)
    else if s[0] == '{' then Some(LeftBrace)
    else if s[0] == '}' then Some(RightBrace)
    else if s[0] == ',' then Some(Comma)
    else None
  }

  function Operator(s: string): Option<(TokenKind, nat)>
    requires s != ""
    ensures Operator(s).Some? ==> 1 <= Operator(s).value.1 <= |s|
  {
    if "==" <= s then Some((EqualOp, 2))
    else if "!=" <= s then Some((NotEqualOp, 2))
    else if "&&" <= s then Some((AndOp, 2))
    else if "||" <= s then Some((OrOp, 2))
    else if s[0] == '!' then Some((NotOp, 1))
    else None
  }

  function LexLiteral(s: string, position: nat, raw: bool): (h: Head)
    requires (if raw then 2 else 1) <= |s|
    ensures h.Lexeme? ==> 1 <= h.taken <= |s|
  {
    var open := if raw then 2 else 1;
    match LexBody(s[open..], position + open, position, raw)
    case BadLiteral(e) => Bad(e)
    case Literal(v, n) => Lexeme(Str(v), open + n)
  }

  function LexHead(s: string, position: nat): (h: Head)
    requires s != ""
    ensures h.Lexeme? ==> 1 <= h.taken <= |s|
  {
    if IsWhitespace(s[0]) then Blank
    else if Symbol(s).Some? then Lexeme(Symbol(s).value, 1)
    else if Operator(s).Some? then Lexeme(Operator(s).value.0, Operator(s).value.1)
    else if s[0] == '=' || s[0] == '&' || s[0] == '|' then Bad(FilterError(UnexpectedOperator, position))
    else if s[0] == '"' then LexLiteral(s, position, false)
    else if "r\"" <= s then LexLiteral(s, position, true)
    else Lexeme(KindOfWord(s[..WordLength(s)]), WordLength(s))
  }

  datatype Lexed = Tokens(tokens: seq<Token>) | LexError(error: FilterError)

  function Prepend(token: Token, rest: Lexed): Lexed {
    match rest
    case LexError(e) => LexError(e)
    case Tokens(tokens) => Tokens([token] + tokens)
  }

  function LexFrom(s: string, position: nat): Lexed
    decreases |s|
  {
    if s == "" then Tokens([Token(End, position)])
    else
      match LexHead(s, position)
      case Blank => LexFrom(s[1..], position + 1)
      case Bad(e) => LexError(e)
      case Lexeme(kind, n) => Prepend(Token(kind, position), LexFrom(s[n..], position + n))
  }

  // ----- the loops -----

  /** `value` and then whatever the rest of the literal adds. */
  function Extend(value: string, taken: nat, rest: Literal): Literal {
    match rest
    case BadLiteral(e) => BadLiteral(e)
    case Literal(v, n) => Literal(value + v, taken + n)
  }

  lemma ExtendOne(value: string, taken: nat, c: char, n: nat, rest: Literal)
    ensures Extend(value, taken, Extend([c], n, rest)) == Extend(value + [c], taken + n, rest)
  {
    if rest.Literal? {
      assert value + ([c] + rest.value) == value + [c] + rest.value;
    }
  }

  lemma LexBodyUnfold(input: string, position: nat, start: nat, raw: bool)
    requires position < |input|
    ensures var c := input[position];
      LexBody(input[position..], position, start, raw) ==
        if c == '"' then Literal("", 1)
        else if c != '\\' || raw then Extend([c], 1, LexBody(input[position + 1..], position + 1, start, raw))
        else if position + 1 == |input| then BadLiteral(FilterError(UnterminatedString, start))
        else if Unescape(input[position + 1]).None? then BadLiteral(FilterError(UnsupportedEscape, position))
        else Extend([Unescape(input[position + 1]).value], 2, LexBody(input[position + 2..], position + 2, start, raw))
  {
    hide Unescape;
    var s := input[position..];
    assert s[1..] == input[position + 1..];
    if position + 2 <= |input| {
      assert s[2..] == input[position + 2..];
    }
  }

  method LexString(input: string, start: nat, raw: bool) returns (r: Literal)
    requires start + (if raw then 2 else 1) <= |input|
    ensures var open := if raw then 2 else 1;
      r == Extend("", open, LexBody(input[start + open..], start + open, start, raw))
  {
    hide LexBody, Extend, Unescape;
    var position, value := start + (if raw then 2 else 1), "";
    while position < |input|
      invariant start <= position <= |input|
      invariant var open := if raw then 2 else 1;
        Extend(value, position - start, LexBody(input[position..], position, start, raw)) ==
          Extend("", open, LexBody(input[start + open..], start + open, start, raw))
      decreases |input| - position
    {
      LexBodyUnfold(input, position, start, raw);
      var ch := input[position];
      position := position + 1;
      if ch == '"' {
        ExtendClosed(value, position - 1 - start);
        return Literal(value, position - start);
      }
      if ch != '\\' || raw {
        ExtendOne(value, position - 1 - start, ch, 1, LexBody(input[position..], position, start, raw));
        value := value + [ch];
        continue;
      }
      if position == |input| {
        ExtendError(value, position - 1 - start, FilterError(UnterminatedString, start));
        return BadLiteral(FilterError(UnterminatedString, start));
      }
      var escaped := Unescape(input[position]);
      position := position + 1;
      match escaped {
        case Some(c) =>
          ExtendOne(value, position - 2 - start, c, 2, LexBody(input[position..], position, start, raw));
          value := value + [c];
        case None =>
          ExtendError(value, position - 2 - start, FilterError(UnsupportedEscape, position - 2));
          return BadLiteral(FilterError(UnsupportedEscape, position - 2));
      }
    }
    assert input[position..] == "";
    NothingLeft(position, start, raw);
    ExtendError(value, position - start, FilterError(UnterminatedString, start));
    return BadLiteral(FilterError(UnterminatedString, start));
  }

  lemma ExtendClosed(value: string, taken: nat)
    ensures Extend(value, taken, Literal("", 1)) == Literal(value, taken + 1)
  {
    assert value + "" == value;
  }

  lemma ExtendError(value: string, taken: nat, e: FilterError)
    ensures Extend(value, taken, BadLiteral(e)) == BadLiteral(e)
  {
  }

  lemma NothingLeft(position: nat, start: nat, raw: bool)
    ensures LexBody("", position, start, raw) == BadLiteral(FilterError(UnterminatedString, start))
  {
  }

  /** The token at `start`, which is not white space, and where it ends. */
  method LexToken(input: string, start: nat) returns (h: Head)
    requires start < |input| && !IsWhitespace(input[start])
    ensures h == LexHead(input[start..], start)
  {
    hide IsWhitespace, Symbol, Operator, KindOfWord, LexBody;
    var s := input[start..];
    if Symbol(s).Some? {
      return Lexeme(Symbol(s).value, 1);
    }
    if Operator(s).Some? {
      return Lexeme(Operator(s).value.0, Operator(s).value.1);
    }
    if s[0] == '=' || s[0] == '&' || s[0] == '|' {
      return Bad(FilterError(UnexpectedOperator, start));
    }
    if s[0] == '"' || "r\"" <= s {
      var raw := s[0] != '"';
      assert raw ==> s[2..] == input[start + 2..];
      assert !raw ==> s[1..] == input[start + 1..];
      var literal := LexString(input, start, raw);
      ghost var open := if raw then 2 else 1;
      ghost var body := LexBody(s[open..], start + open, start, raw);
      assert body.Literal? ==> "" + body.value == body.value;
      match literal {
        case BadLiteral(e) => return Bad(e);
        case Literal(v, taken) => return Lexeme(Str(v), taken);
      }
    }
    var n := 0;
    while n < |s| && !EndsWord(s[n])
      invariant n <= |s| && n + WordLength(s[n..]) == WordLength(s)
    {
      assert s[n..][1..] == s[n + 1..];
      n := n + 1;
    }
    return Lexeme(KindOfWord(s[..n]), n);
  }

  lemma LexFromUnfold(input: string, position: nat)
    requires position < |input|
    ensures var s := input[position..];
      LexFrom(s, position) ==
        match LexHead(s, position)
        case Blank => LexFrom(input[position + 1..], position + 1)
        case Bad(e) => LexError(e)
        case Lexeme(kind, n) => Prepend(Token(kind, position), LexFrom(input[position + n..], position + n))
  {
    hide LexHead;
    var s := input[position..];
    assert s[1..] == input[position + 1..];
    if LexHead(s, position).Lexeme? {
      var n := LexHead(s, position).taken;
      assert s[n..] == input[position + n..];
    }
  }

  /** `tokens` and then whatever the rest of the input lexes to. */
  function Continue(tokens: seq<Token>, rest: Lexed): Lexed {
    match rest
    case LexError(e) => LexError(e)
    case Tokens(more) => Tokens(tokens + more)
  }

  lemma ContinueOne(tokens: seq<Token>, token: Token, rest: Lexed)
    ensures Continue(tokens, Prepend(token, rest)) == Continue(tokens + [token], rest)
  {
    if rest.Tokens? {
      assert tokens + ([token] + rest.tokens) == tokens + [token] + rest.tokens;
    }
  }

  method Lex(input: string) returns (r: Lexed)
    ensures r == LexFrom(input, 0)
  {
    hide LexHead, LexFrom, Continue, Prepend;
    var tokens: seq<Token>, position := [], 0;
    assert input[0..] == input;
    ContinueNone(LexFrom(input, 0));
    while position < |input|
      invariant position <= |input|
      invariant Continue(tokens, LexFrom(input[position..], position)) == LexFrom(input, 0)
      decreases |input| - position
    {
      LexFromUnfold(input, position);
      if IsWhitespace(input[position]) {
        BlankHead(input[position..], position);
        position := position + 1;
        continue;
      }
      var head := LexToken(input, position);
      match head {
        case Blank => NotBlank(input[position..], position); assert false;
        case Bad(e) => ContinueError(tokens, e); return LexError(e);
        case Lexeme(kind, n) =>
          ContinueOne(tokens, Token(kind, position), LexFrom(input[position + n..], position + n));
          tokens := tokens + [Token(kind, position)];
          position := position + n;
      }
    }
    assert input[position..] == "";
    ContinueEnd(tokens, position);
    return Tokens(tokens + [Token(End, |input|)]);
  }

  lemma ContinueNone(r: Lexed)
    ensures Continue([], r) == r
  {
    if r.Tokens? {
      assert [] + r.tokens == r.tokens;
    }
  }

  lemma ContinueError(tokens: seq<Token>, e: FilterError)
    ensures Continue(tokens, LexError(e)) == LexError(e)
  {
  }

  lemma ContinueEnd(tokens: seq<Token>, position: nat)
    ensures Continue(tokens, LexFrom("", position)) == Tokens(tokens + [Token(End, position)])
  {
  }

  lemma BlankHead(s: string, position: nat)
    requires s != "" && IsWhitespace(s[0])
    ensures LexHead(s, position).Blank?
  {
  }

  lemma NotBlank(s: string, position: nat)
    requires s != "" && !IsWhitespace(s[0])
    ensures !LexHead(s, position).Blank?
  {
  }
}

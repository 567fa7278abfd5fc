/** From the text of a display filter to the filter, or to the error. */
module FilterCompile {
  import opened Options
  import opened FilterSyntax
  import opened FilterLexer
  import opened FilterParser

  function TrimStart(s: string): string {
    if s != "" && IsWhitespace(s[0]) then TrimStart(s[1..]) else s
  }

  function TrimEnd(s: string): string {
    if s != "" && IsWhitespace(s[|s| - 1]) then TrimEnd(s[..|s| - 1]) else s
  }

  function Trim(s: string): string {
    TrimEnd(TrimStart(s))
  }

  datatype Compiled = Filter(filter: DisplayFilter) | Rejected(error: FilterError)

  lemma {:induction false} LexedListsEnd(s: string, position: nat)
    ensures LexFrom(s, position).Tokens? ==> Ended(LexFrom(s, position).tokens)
    decreases |s|
  {
    hide LexHead;
    if s != "" && LexFrom(s, position).Tokens? {
      match LexHead(s, position)
      case Blank => LexedListsEnd(s[1..], position + 1);
      case Bad(_) =>
      case Lexeme(kind, n) =>
        HeadIsNotEnd(s, position);
        LexedListsEnd(s[n..], position + n);
    }
  }

  lemma HeadIsNotEnd(s: string, position: nat)
    requires s != ""
    ensures LexHead(s, position).Lexeme? ==> !LexHead(s, position).kind.End?
  {
  }

  /** What parsing a display filter gives. */
  function Compile(lib: Library, expression: string): Compiled {
    var text := Trim(expression);
    if text == "" then Filter(NO_FILTER)
    else
      match LexFrom(text, 0)
      case LexError(e) => Rejected(e)
      case Tokens(ts) =>
        LexedListsEnd(text, 0);
        match ParseAll(lib, ts)
        case Err(e) => Rejected(e)
        case Ok(root, _) => Filter(DisplayFilter(text, Some(root)))
  }

  method ParseFilter(lib: Library, expression: string) returns (r: Compiled)
    ensures r == Compile(lib, expression)
  {
    hide ParseAll, LexFrom;
    var text := Trim(expression);
    if text == "" {
      return Filter(NO_FILTER);
    }
    var lexed := Lex(text);
    if lexed.LexError? {
      return Rejected(lexed.error);
    }
    LexedListsEnd(text, 0);
    var parser := new Parser(lexed.tokens);
    var root := parser.Parse(lib);
    match root {
      case Err(e) => return Rejected(e);
      case Ok(e, _) => return Filter(DisplayFilter(text, Some(e)));
    }
  }
}

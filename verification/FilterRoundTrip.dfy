/** From text to verdict and back: every well-typed expression, printed with
    escaped strings and minimal parentheses, compiles to an equal filter. */
module FilterRoundTrip {
  import opened Options
  import opened FilterSyntax
  import opened FilterLexer
  import opened FilterParser
  import opened FilterGrammar
  import opened FilterPrinter
  import opened FilterCompile
  import Rows

  // ----- string literals -----

  function EscapeChar(c: char): string {
    if c == '"' then "\\\""
    else if c == '\\' then "\\\\"
    else if c == '\n' then "\\n"
    else if c == '\r' then "\\r"
    else if c == '\t' then "\\t"
    else [c]
  }

  function Escape(s: string): string {
    if s == "" then "" else EscapeChar(s[0]) + Escape(s[1..])
  }

  lemma PlainCharReads(c: char, rest: string, position: nat, start: nat)
    requires c != '"' && c != '\\'
    ensures LexBody([c] + rest, position, start, false) == Extend([c], 1, LexBody(rest, position + 1, start, false))
  {
    hide Unescape;
    assert ([c] + rest)[1..] == rest;
  }

  lemma EscapeReads(e: char, rest: string, position: nat, start: nat)
    requires Unescape(e).Some?
    ensures LexBody(['\\', e] + rest, position, start, false) ==
      Extend([Unescape(e).value], 2, LexBody(rest, position + 2, start, false))
  {
    hide Unescape;
    var s := ['\\', e] + rest;
    assert s[0] == '\\' && s[1] == e && s[2..] == rest;
  }

  /** An escaped character is itself, or a backslash and what reads back as it. */
  lemma EscapeCharCases(c: char)
    ensures var w := EscapeChar(c);
      (w == [c] && c != '"' && c != '\\') || (|w| == 2 && w == ['\\', w[1]] && Unescape(w[1]) == Some(c))
  {
  }

  lemma EscapedCharReads(c: char, rest: string, position: nat, start: nat)
    ensures var n := |EscapeChar(c)|;
      LexBody(EscapeChar(c) + rest, position, start, false) == Extend([c], n, LexBody(rest, position + n, start, false))
  {
    hide EscapeChar, Unescape, LexBody, Extend;
    EscapeCharCases(c);
    var w := EscapeChar(c);
    if |w| == 1 {
      PlainCharReads(c, rest, position, start);
    } else {
      EscapeReads(w[1], rest, position, start);
    }
  }

  /** Reading a literal undoes escaping, for every string and whatever follows. */
  lemma {:induction false} LiteralInvertsEscape(s: string, tail: string, position: nat, start: nat)
    ensures LexBody(Escape(s) + "\"" + tail, position, start, false) == Literal(s, |Escape(s)| + 1)
  {
    if s == "" {
      assert Escape(s) + "\"" + tail == "\"" + tail;
    } else {
      hide LexBody, EscapeChar;
      var first, more := EscapeChar(s[0]), Escape(s[1..]);
      assert Escape(s) == first + more;
      hide Escape;
      var rest := more + "\"" + tail;
      assert first + more + "\"" + tail == first + rest;
      EscapedCharReads(s[0], rest, position, start);
      LiteralInvertsEscape(s[1..], tail, position + |first|, start);
      assert [s[0]] + s[1..] == s;
    }
  }

  /** A raw literal is read as it stands, up to the first quote. */
  lemma {:induction false} RawLiteralReadsAsIs(s: string, tail: string, position: nat, start: nat)
    requires '"' !in s
    ensures LexBody(s + "\"" + tail, position, start, true) == Literal(s, |s| + 1)
  {
    if s != "" {
      assert (s + "\"" + tail)[1..] == s[1..] + "\"" + tail;
      RawLiteralReadsAsIs(s[1..], tail, position + 1, start);
      assert [s[0]] + s[1..] == s;
    } else {
      assert s + "\"" + tail == "\"" + tail;
    }
  }

  // ----- tokens as text -----

  function SpellKind(kind: TokenKind): string {
    match kind
    case Word(w) => w
    case Str(s) => "\"" + Escape(s) + "\""
    case EqualOp => "=="
    case NotEqualOp => "!="
    case ContainsOp => "contains"
    case MatchesOp => "matches"
    case InOp => "in"
    case AndOp => "and"
    case OrOp => "or"
    case NotOp => "not"
    case LeftParen => "("
    case RightParen => ")"
    case LeftBrace => "{"
    case RightBrace => "}"
    case Comma => ","
    case End => ""
  }

  predicate Spellable(kind: TokenKind) {
    !kind.End? && (kind.Word? ==> PlainWord(kind.word))
  }

  /** The tokens one space apart. */
  function TextOf(kinds: seq<TokenKind>): string {
    if kinds == [] then ""
    else if |kinds| == 1 then SpellKind(kinds[0])
    else SpellKind(kinds[0]) + " " + TextOf(kinds[1..])
  }

  predicate Stops(tail: string) {
    tail == "" || tail[0] == ' '
  }

  lemma {:induction false} WordStopsAtTail(w: string, tail: string)
    requires WordLength(w) == |w| && Stops(tail)
    ensures WordLength(w + tail) == |w|
  {
    if w == "" {
      assert w + tail == tail;
    } else {
      assert (w + tail)[1..] == w[1..] + tail;
      assert WordLength(w[1..]) == |w| - 1;
      WordStopsAtTail(w[1..], tail);
    }
  }

  /** A word that is not a symbol, operator or literal lexes by its spelling. */
  lemma LexWord(w: string, tail: string, position: nat)
    requires w != "" && WordLength(w) == |w| && w[0] != '"' && !("r\"" <= w) && Stops(tail)
    ensures LexHead(w + tail, position) == Lexeme(KindOfWord(w), |w|)
  {
    hide KindOfWord, LexBody;
    var s := w + tail;
    WordStopsAtTail(w, tail);
    assert s[..|w|] == w && s[0] == w[0];
    assert !EndsWord(w[0]);
    assert Symbol(s).None? && Operator(s).None?;
    assert !("r\"" <= s) by {
      if |w| >= 2 {
        assert s[0] == w[0] && s[1] == w[1];
      } else if tail != "" {
        assert s[1] == tail[0] == ' ';
      }
    }
  }

  lemma KeywordsLex()
    ensures KindOfWord("and") == AndOp && KindOfWord("or") == OrOp && KindOfWord("not") == NotOp
    ensures KindOfWord("contains") == ContainsOp && KindOfWord("matches") == MatchesOp && KindOfWord("in") == InOp
  {
    assert Lower("and") == "and" && Lower("or") == "or" && Lower("not") == "not";
    assert Lower("contains") == "contains" && Lower("matches") == "matches" && Lower("in") == "in";
  }

  lemma {:induction false} IsAllWord(w: string)
    requires forall i :: 0 <= i < |w| ==> !EndsWord(w[i])
    ensures WordLength(w) == |w|
  {
    if w != "" {
      IsAllWord(w[1..]);
    }
  }

  lemma LexQuoted(text: string, tail: string, position: nat)
    ensures var s := SpellKind(Str(text)) + tail; LexHead(s, position) == Lexeme(Str(text), |SpellKind(Str(text))|)
  {
    hide LexBody, Escape;
    var s := SpellKind(Str(text)) + tail;
    assert s[1..] == Escape(text) + "\"" + tail;
    LiteralInvertsEscape(text, tail, position + 1, position);
    assert s[0] == '"';
    assert Symbol(s).None? && Operator(s).None?;
  }

  predicate Keyword(kind: TokenKind) {
    kind.ContainsOp? || kind.MatchesOp? || kind.InOp? || kind.AndOp? || kind.OrOp? || kind.NotOp?
  }

  /** Letters and dots only. */
  predicate Dotted(w: string) {
    forall i :: 0 <= i < |w| ==> w[i] == '.' || 'a' <= w[i] <= 'z'
  }

  lemma KeywordIsDotted(kind: TokenKind)
    requires Keyword(kind)
    ensures var w := SpellKind(kind); w != "" && Dotted(w) && w[0] != 'r' && KindOfWord(w) == kind
  {
    KeywordsLex();
    hide KindOfWord;
  }

  lemma LexKeyword(kind: TokenKind, tail: string, position: nat)
    requires Keyword(kind) && Stops(tail)
    ensures LexHead(SpellKind(kind) + tail, position) == Lexeme(kind, |SpellKind(kind)|)
  {
    hide KindOfWord, LexHead, SpellKind;
    var w := SpellKind(kind);
    KeywordIsDotted(kind);
    IsAllWord(w);
    LexWord(w, tail, position);
  }

  lemma LexSymbol(kind: TokenKind, tail: string, position: nat)
    requires !Keyword(kind) && !kind.Word? && !kind.Str? && !kind.End?
    ensures LexHead(SpellKind(kind) + tail, position) == Lexeme(kind, |SpellKind(kind)|)
  {
    hide KindOfWord, LexLiteral, WordLength;
    var w := SpellKind(kind);
    var s := w + tail;
    assert s[0] == w[0];
    if |w| == 2 {
      assert w <= s && Symbol(s).None?;
      assert Operator(s) == Some((kind, 2));
    } else {
      assert Symbol(s) == Some(kind);
    }
  }

  /** Each spelled token is what the lexer finds at the head of the text. */
  lemma LexSpelled(kind: TokenKind, tail: string, position: nat)
    requires Spellable(kind) && Stops(tail)
    ensures SpellKind(kind) != ""
    ensures LexHead(SpellKind(kind) + tail, position) == Lexeme(kind, |SpellKind(kind)|)
  {
    hide KindOfWord, LexHead, Escape;
    match kind
    case Word(w) => LexWord(w, tail, position);
    case Str(s) => LexQuoted(s, tail, position);
    case _ =>
      if Keyword(kind) {
        LexKeyword(kind, tail, position);
      } else {
        LexSymbol(kind, tail, position);
      }
  }

  predicate AllSpellable(kinds: seq<TokenKind>) {
    forall i :: 0 <= i < |kinds| ==> Spellable(kinds[i])
  }

  lemma LexOneToken(word: string, tail: string, kind: TokenKind, position: nat)
    requires word != "" && LexHead(word + tail, position) == Lexeme(kind, |word|)
    ensures LexFrom(word + tail, position) == Prepend(Token(kind, position), LexFrom(tail, position + |word|))
  {
    hide LexHead;
    assert (word + tail)[|word|..] == tail;
  }

  lemma KindsOfPrepended(token: Token, rest: Lexed)
    requires rest.Tokens?
    ensures Prepend(token, rest).Tokens? && Kinds(Prepend(token, rest).tokens) == [token.kind] + Kinds(rest.tokens)
  {
  }

  lemma LexNothing(kinds: seq<TokenKind>, position: nat)
    requires kinds == []
    ensures var r := LexFrom(TextOf(kinds), position); r.Tokens? && Kinds(r.tokens) == kinds + [End]
  {
    assert TextOf(kinds) == "";
    KindsOfEnd(position);
    assert kinds + [End] == [End];
  }

  /** What follows the first token's spelling. */
  function TailOf(kinds: seq<TokenKind>): string
    requires kinds != []
  {
    if |kinds| == 1 then "" else " " + TextOf(kinds[1..])
  }

  lemma TextSplits(kinds: seq<TokenKind>)
    requires kinds != []
    ensures TextOf(kinds) == SpellKind(kinds[0]) + TailOf(kinds) && Stops(TailOf(kinds))
  {
    hide SpellKind;
    assert |kinds| == 1 ==> SpellKind(kinds[0]) + "" == SpellKind(kinds[0]);
  }

  lemma TailLexes(kinds: seq<TokenKind>, position: nat)
    requires kinds != []
    ensures LexFrom(TailOf(kinds), position) ==
      if |kinds| == 1 then Tokens([Token(End, position)]) else LexFrom(TextOf(kinds[1..]), position + 1)
  {
    hide TextOf, SpellKind;
    if |kinds| > 1 {
      SpaceIsBlank(TextOf(kinds[1..]), position);
    }
  }

  lemma KindsOfEnd(position: nat)
    ensures Kinds([Token(End, position)]) == [End]
  {
  }

  /** Lexing the text of a token list gives those tokens and the final `End`. */
  lemma {:induction false} TextLexesBack(kinds: seq<TokenKind>, position: nat)
    requires AllSpellable(kinds)
    ensures var r := LexFrom(TextOf(kinds), position); r.Tokens? && Kinds(r.tokens) == kinds + [End]
  {
    hide LexFrom, LexHead, SpellKind, Spellable, Kinds, Prepend, TextOf, TailOf, Stops;
    if kinds == [] {
      LexNothing(kinds, position);
    } else {
      var word, tail := SpellKind(kinds[0]), TailOf(kinds);
      var after := position + |word|;
      TextSplits(kinds);
      LexSpelled(kinds[0], tail, position);
      LexOneToken(word, tail, kinds[0], position);
      TailLexes(kinds, after);
      KindsOfEnd(after);
      if |kinds| > 1 {
        TextLexesBack(kinds[1..], after + 1);
      } else {
        assert kinds[1..] + [End] == [End];
      }
      KindsOfPrepended(Token(kinds[0], position), LexFrom(tail, after));
      assert [kinds[0]] + (kinds[1..] + [End]) == kinds + [End];
    }
  }

  lemma SpaceIsBlank(rest: string, position: nat)
    ensures LexFrom(" " + rest, position) == LexFrom(rest, position + 1)
  {
    assert (" " + rest)[1..] == rest;
  }

  // ----- the printed expression -----

  lemma NotAKeyword(w: string)
    requires |w| > 8 || (w != "" && IsDigit(w[0]))
    ensures KindOfWord(w) == Word(w)
  {
    var lower := Lower(w);
    assert w != "" && IsDigit(w[0]) ==> lower[0] == w[0];
    hide Lower;
    assert lower != "and" && lower != "or" && lower != "not";
    assert lower != "contains" && lower != "matches" && lower != "in";
  }

  lemma NameIsDotted(field: Field)
    ensures var w := NameOf(field); |w| > 8 && Dotted(w) && w[0] != 'r'
  {
    hide FieldNamed;
  }

  lemma NameIsPlain(field: Field)
    ensures PlainWord(NameOf(field))
  {
    hide KindOfWord, NameOf, FieldNamed;
    var w := NameOf(field);
    NameIsDotted(field);
    IsAllWord(w);
    NotAKeyword(w);
  }

  lemma {:induction false} DecimalIsPlain(n: nat)
    ensures PlainWord(Rows.Decimal(n))
  {
    hide KindOfWord, Rows.Decimal;
    DecimalReadsBack(n);
    var w := Rows.Decimal(n);
    forall i | 0 <= i < |w| ensures !EndsWord(w[i]) {
      assert IsDigit(w[i]);
    }
    IsAllWord(w);
    assert IsDigit(w[0]);
    NotAKeyword(w);
  }

  lemma LiteralIsSpellable(lib: Library, spell: IpSpelling, value: Value)
    requires Faithful(lib, spell)
    ensures Spellable(LiteralOf(spell, value))
  {
    if value.Ip? {
      assert lib.parseIp(spell(value.ip)) == Some(value.ip);
    } else if value.Port? {
      DecimalIsPlain(value.port);
    }
  }

  lemma {:induction false} ListIsSpellable(literals: seq<TokenKind>)
    requires literals != [] && AllSpellable(literals)
    ensures AllSpellable(ListTokens(literals))
  {
    if |literals| > 1 {
      ListIsSpellable(literals[1..]);
    }
  }

  lemma PredicateIsSpellable(lib: Library, spell: IpSpelling, p: Predicate)
    requires Faithful(lib, spell) && TypedComparison(lib, p.field, p.comparison)
    ensures AllSpellable(PredicateTokens(PredicateTreeOf(spell, p)))
  {
    hide PlainWord, Faithful, NameOf, LiteralOf;
    NameIsPlain(p.field);
    match p.comparison
    case Equal(value) => LiteralIsSpellable(lib, spell, value);
    case NotEqual(value) => LiteralIsSpellable(lib, spell, value);
    case Contains(_) =>
    case Matches(_) =>
    case In(values) =>
      forall i | 0 <= i < |values| ensures Spellable(Literals(spell, values)[i]) {
        LiteralIsSpellable(lib, spell, values[i]);
      }
      ListIsSpellable(Literals(spell, values));
  }

  lemma {:induction false} OrIsSpellable(lib: Library, spell: IpSpelling, e: Expr)
    requires Faithful(lib, spell) && WellTyped(lib, e)
    ensures TypedOr(lib, OrTreeOf(spell, e)) && AllSpellable(OrTokens(lib, OrTreeOf(spell, e)))
    decreases e, if Binary(e) then 2 else 3
  {
    hide Faithful, AndTreeOf, AndTokens;
    OrTreeDenotes(lib, spell, e);
    if e.Or? {
      OrIsSpellable(lib, spell, e.left);
      OrIsSpellable(lib, spell, e.right);
      JoinOrDenotes(lib, OrTreeOf(spell, e.left), OrTreeOf(spell, e.right));
    } else {
      AndIsSpellable(lib, spell, e);
    }
  }

  lemma {:induction false} AndIsSpellable(lib: Library, spell: IpSpelling, e: Expr)
    requires Faithful(lib, spell) && WellTyped(lib, e)
    ensures TypedAnd(lib, AndTreeOf(spell, e)) && AllSpellable(AndTokens(lib, AndTreeOf(spell, e)))
    decreases e, if e.Or? then 4 else if e.And? then 1 else 2
  {
    hide Faithful, NotTreeOf, NotTokens;
    AndTreeDenotes(lib, spell, e);
    if e.And? {
      AndIsSpellable(lib, spell, e.left);
      AndIsSpellable(lib, spell, e.right);
      JoinAndDenotes(lib, AndTreeOf(spell, e.left), AndTreeOf(spell, e.right));
    } else {
      NotIsSpellable(lib, spell, e);
    }
  }

  lemma {:induction false} NotIsSpellable(lib: Library, spell: IpSpelling, e: Expr)
    requires Faithful(lib, spell) && WellTyped(lib, e)
    ensures TypedNot(lib, NotTreeOf(spell, e)) && AllSpellable(NotTokens(lib, NotTreeOf(spell, e)))
    decreases e, if Binary(e) then 3 else 1
  {
    hide Faithful, OrTreeOf, OrTokens, PredicateTokens;
    NotTreeDenotes(lib, spell, e);
    match e
    case Not(inner) => NotIsSpellable(lib, spell, inner);
    case Test(p) => PredicateIsSpellable(lib, spell, p);
    case And(_, _) => OrIsSpellable(lib, spell, e);
    case Or(_, _) => OrIsSpellable(lib, spell, e);
  }

  /** The expression's tree can be spelled as tokens. */
  predicate Typed(lib: Library, spell: IpSpelling, e: Expr) {
    TypedOr(lib, OrTreeOf(spell, e))
  }

  function Print(lib: Library, spell: IpSpelling, e: Expr): string
    requires Typed(lib, spell, e)
  {
    TextOf(OrTokens(lib, OrTreeOf(spell, e)))
  }

  // ----- printed text survives trimming -----

  lemma SpelledEnds(kind: TokenKind)
    requires Spellable(kind)
    ensures var w := SpellKind(kind); w != "" && !IsWhitespace(w[0]) && !IsWhitespace(w[|w| - 1])
  {
    hide Escape;
    if kind.Word? {
      assert !EndsWord(kind.word[0]) && !EndsWord(kind.word[|kind.word| - 1]);
    }
  }

  lemma {:induction false} TextEnds(kinds: seq<TokenKind>)
    requires kinds != [] && AllSpellable(kinds)
    ensures var s := TextOf(kinds); s != "" && !IsWhitespace(s[0]) && !IsWhitespace(s[|s| - 1])
  {
    hide Spellable, SpellKind, IsWhitespace;
    SpelledEnds(kinds[0]);
    if |kinds| > 1 {
      TextEnds(kinds[1..]);
    }
  }

  lemma {:induction false} OrTreeHasTokens(lib: Library, t: OrTree)
    requires TypedOr(lib, t)
    ensures OrTokens(lib, t) != []
  {
    match t
    case OrLeaf(e) => AndTreeHasTokens(lib, e);
    case OrNode(l, r) =>
  }

  lemma {:induction false} AndTreeHasTokens(lib: Library, t: AndTree)
    requires TypedAnd(lib, t)
    ensures AndTokens(lib, t) != []
  {
    match t
    case AndLeaf(e) => NotTreeHasTokens(lib, e);
    case AndNode(l, r) =>
  }

  lemma NotTreeHasTokens(lib: Library, t: NotTree)
    requires TypedNot(lib, t)
    ensures NotTokens(lib, t) != []
  {
  }

  /** Every well-typed expression: printing it and compiling the print gives a
      filter whose tree is the same up to associativity and whose verdict is the
      same on every message. */
  lemma PrintCompilesBack(lib: Library, spell: IpSpelling, e: Expr) returns (f: DisplayFilter)
    requires Faithful(lib, spell) && WellTyped(lib, e)
    ensures Typed(lib, spell, e)
    ensures Compile(lib, Print(lib, spell, e)) == Filter(f) && f.expression == Print(lib, spell, e)
    ensures Print(lib, spell, e) != "" && f.root.Some? && SameUpToAssociativity(f.root.value, e)
    ensures forall m :: FilterMatches(lib, f, m) == ExprMatches(lib, e, m)
  {
    hide Faithful, OrTokens, ParseAll, LexFrom, AllSpellable, OrTreeOf, OrOf, TextOf, IsWhitespace;
    OrIsSpellable(lib, spell, e);
    OrTreeDenotes(lib, spell, e);
    var t := OrTreeOf(spell, e);
    var kinds := OrTokens(lib, t);
    var text := TextOf(kinds);
    OrTreeHasTokens(lib, t);
    TextEnds(kinds);
    assert Trim(text) == text;
    TextLexesBack(kinds, 0);
    LexedListsEnd(text, 0);
    var ts := LexFrom(text, 0).tokens;
    ParserComplete(lib, t, ts);
    f := DisplayFilter(text, Some(OrOf(lib, t)));
    forall m ensures FilterMatches(lib, f, m) == ExprMatches(lib, e, m) {
      SameVerdict(lib, OrOf(lib, t), e, m);
    }
  }
}

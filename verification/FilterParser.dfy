/** The recursive-descent parser over a token list that ends in its one `End`:
    as functions of a cursor, and as the object that moves one. */
module FilterParser {
  import opened FilterSyntax
  import opened FilterLexer

  type TokenList = seq<Token>

  /** Exactly the last token is `End`. */
  predicate Ended(ts: TokenList) {
    ts != [] && forall i :: 0 <= i < |ts| ==> (ts[i].kind.End? <==> i == |ts| - 1)
  }

  predicate On(ts: TokenList, c: nat) {
    Ended(ts) && c < |ts|
  }

  datatype Parsed<+T> = Ok(value: T, next: nat) | Err(error: FilterError)

  function Fail(ts: TokenList, c: nat, kind: ErrorKind): FilterError
    requires c < |ts|
  {
    FilterError(kind, ts[c].position)
  }

  // ----- values -----

  datatype ValueRead = Read(value: Value) | Wrong(kind: ErrorKind)

  /** The value a single token denotes for a field. */
  function ReadValue(lib: Library, field: Field, kind: TokenKind): ValueRead {
    match field
    case ClientIp =>
      if !kind.Word? && !kind.Str? then Wrong(RequiresIp)
      else
        (match lib.parseIp(if kind.Word? then kind.word else kind.text)
         case None => Wrong(InvalidIp)
         case Some(ip) => Read(Ip(ip)))
    case ClientPort =>
      if !kind.Word? then Wrong(RequiresPort)
      else
        (match ParsePort(kind.word)
         case None => Wrong(InvalidPort)
         case Some(port) => Read(Port(port)))
    case Direction =>
      if !kind.Str? then Wrong(RequiresString)
      else
        (match DirectionNamed(kind.text)
         case None => Wrong(InvalidDirection)
         case Some(d) => Read(Way(d)))
    case _ =>
      if kind.Str? then Read(Text(kind.text)) else Wrong(RequiresString)
  }

  function ParseValue(lib: Library, ts: TokenList, c: nat, field: Field): (r: Parsed<Value>)
    requires On(ts, c)
    ensures r.Ok? ==> c < r.next < |ts|
  {
    match ReadValue(lib, field, ts[c].kind)
    case Wrong(kind) => Err(Fail(ts, c, kind))
    case Read(value) => Ok(value, c + 1)
  }

  function ParseString(ts: TokenList, c: nat): (r: Parsed<string>)
    requires On(ts, c)
    ensures r.Ok? ==> c < r.next < |ts|
  {
    if ts[c].kind.Str? then Ok(ts[c].kind.text, c + 1) else Err(Fail(ts, c, RequiresString))
  }

  /** Values separated by commas up to the closing brace. */
  function ParseValues(lib: Library, ts: TokenList, c: nat, field: Field): (r: Parsed<seq<Value>>)
    requires On(ts, c)
    ensures r.Ok? ==> c < r.next < |ts|
    decreases |ts| - c
  {
    match ParseValue(lib, ts, c, field)
    case Err(e) => Err(e)
    case Ok(value, n) =>
      if ts[n].kind.Comma? then
        if ts[n + 1].kind.RightBrace? then Err(Fail(ts, n + 1, ExpectedValueAfterComma))
        else
          match ParseValues(lib, ts, n + 1, field)
          case Err(e) => Err(e)
          case Ok(values, next) => Ok([value] + values, next)
      else if ts[n].kind.RightBrace? then Ok([value], n + 1)
      else Err(Fail(ts, n, ExpectedCommaOrBrace))
  }

  function ParseSet(lib: Library, ts: TokenList, c: nat, field: Field): (r: Parsed<seq<Value>>)
    requires On(ts, c)
    ensures r.Ok? ==> c < r.next < |ts|
  {
    if !ts[c].kind.LeftBrace? then Err(Fail(ts, c, ExpectedOpenBrace))
    else if ts[c + 1].kind.RightBrace? then Err(Fail(ts, c + 1, EmptySet))
    else ParseValues(lib, ts, c + 1, field)
  }

  /** What follows the operator at `c`. */
  function ParseComparison(lib: Library, ts: TokenList, c: nat, field: Field): (r: Parsed<Comparison>)
    requires On(ts, c)
    ensures r.Ok? ==> c < r.next < |ts|
  {
    match ts[c].kind
    case EqualOp =>
      (match ParseValue(lib, ts, c + 1, field)
       case Err(e) => Err(e)
       case Ok(value, n) => Ok(Equal(value), n))
    case NotEqualOp =>
      (match ParseValue(lib, ts, c + 1, field)
       case Err(e) => Err(e)
       case Ok(value, n) => Ok(NotEqual(value), n))
    case ContainsOp =>
      if !IsText(field) then Err(Fail(ts, c, OperatorNotValid))
      else
        (match ParseString(ts, c + 1)
         case Err(e) => Err(e)
         case Ok(text, n) => Ok(Contains(text), n))
    case MatchesOp =>
      if !IsText(field) then Err(Fail(ts, c, OperatorNotValid))
      else
        (match ParseString(ts, c + 1)
         case Err(e) => Err(e)
         case Ok(pattern, n) =>
           if lib.compiles(pattern) then Ok(Matches(pattern), n) else Err(Fail(ts, c + 1, InvalidRegex)))
    case InOp =>
      (match ParseSet(lib, ts, c + 1, field)
       case Err(e) => Err(e)
       case Ok(values, n) => Ok(In(values), n))
    case _ => Err(Fail(ts, c, ExpectedOperator))
  }

  function ParsePredicate(lib: Library, ts: TokenList, c: nat): (r: Parsed<Predicate>)
    requires On(ts, c)
    ensures r.Ok? ==> c < r.next < |ts|
  {
    if !ts[c].kind.Word? then Err(Fail(ts, c, ExpectedField))
    else
      match FieldNamed(ts[c].kind.word)
      case None => Err(Fail(ts, c, UnknownField))
      case Some(field) =>
        match ParseComparison(lib, ts, c + 1, field)
        case Err(e) => Err(e)
        case Ok(comparison, n) => Ok(Predicate(field, comparison), n)
  }

  // ----- expressions -----

  function ParsePrimary(lib: Library, ts: TokenList, c: nat): (r: Parsed<Expr>)
    requires On(ts, c)
    ensures r.Ok? ==> c < r.next < |ts|
    decreases |ts| - c, 0
  {
    if ts[c].kind.LeftParen? then
      match ParseOr(lib, ts, c + 1)
      case Err(e) => Err(e)
      case Ok(e, n) => if ts[n].kind.RightParen? then Ok(e, n + 1) else Err(Fail(ts, n, ExpectedCloseParen))
    else
      match ParsePredicate(lib, ts, c)
      case Err(e) => Err(e)
      case Ok(p, n) => Ok(Test(p), n)
  }

  function ParseNot(lib: Library, ts: TokenList, c: nat): (r: Parsed<Expr>)
    requires On(ts, c)
    ensures r.Ok? ==> c < r.next < |ts|
    decreases |ts| - c, 1
  {
    if ts[c].kind.NotOp? then
      match ParseNot(lib, ts, c + 1)
      case Err(e) => Err(e)
      case Ok(e, n) => Ok(Not(e), n)
    else
      ParsePrimary(lib, ts, c)
  }

  /** Further `and` operands, joined to the left of what is parsed already. */
  function AndTail(lib: Library, ts: TokenList, left: Expr, c: nat): (r: Parsed<Expr>)
    requires On(ts, c)
    ensures r.Ok? ==> c <= r.next < |ts|
    decreases |ts| - c, 2
  {
    if ts[c].kind.AndOp? then
      match ParseNot(lib, ts, c + 1)
      case Err(e) => Err(e)
      case Ok(right, n) => AndTail(lib, ts, And(left, right), n)
    else
      Ok(left, c)
  }

  function ParseAnd(lib: Library, ts: TokenList, c: nat): (r: Parsed<Expr>)
    requires On(ts, c)
    ensures r.Ok? ==> c < r.next < |ts|
    decreases |ts| - c, 3
  {
    match ParseNot(lib, ts, c)
    case Err(e) => Err(e)
    case Ok(left, n) => AndTail(lib, ts, left, n)
  }

  function OrTail(lib: Library, ts: TokenList, left: Expr, c: nat): (r: Parsed<Expr>)
    requires On(ts, c)
    ensures r.Ok? ==> c <= r.next < |ts|
    decreases |ts| - c, 4
  {
    if ts[c].kind.OrOp? then
      match ParseAnd(lib, ts, c + 1)
      case Err(e) => Err(e)
      case Ok(right, n) => OrTail(lib, ts, Or(left, right), n)
    else
      Ok(left, c)
  }

  function ParseOr(lib: Library, ts: TokenList, c: nat): (r: Parsed<Expr>)
    requires On(ts, c)
    ensures r.Ok? ==> c < r.next < |ts|
    decreases |ts| - c, 5
  {
    match ParseAnd(lib, ts, c)
    case Err(e) => Err(e)
    case Ok(left, n) => OrTail(lib, ts, left, n)
  }

  /** A whole token list as one expression. */
  function ParseAll(lib: Library, ts: TokenList): Parsed<Expr>
    requires Ended(ts)
  {
    match ParseOr(lib, ts, 0)
    case Err(e) => Err(e)
    case Ok(e, n) => if ts[n].kind.End? then Ok(e, n) else Err(Fail(ts, n, ExpectedOperatorOrEnd))
  }

  // ----- the object -----

  /** The result of a method: the value it returns, with the cursor it left. */
  predicate Moved<T(==)>(r: Parsed<T>, spec: Parsed<T>, cursor: nat) {
    match spec
    case Err(e) => r == Err(e)
    case Ok(value, next) => r == Ok(value, cursor) && cursor == next
  }

  /** `values` and then whatever the rest of the set holds. */
  function After(values: seq<Value>, rest: Parsed<seq<Value>>): Parsed<seq<Value>> {
    match rest
    case Err(e) => Err(e)
    case Ok(more, n) => Ok(values + more, n)
  }

  lemma ValuesUnfold(lib: Library, ts: TokenList, c: nat, field: Field)
    requires On(ts, c)
    ensures ParseValues(lib, ts, c, field) ==
      match ParseValue(lib, ts, c, field)
      case Err(e) => Err(e)
      case Ok(value, n) =>
        if ts[n].kind.Comma? then
          if ts[n + 1].kind.RightBrace? then Err(Fail(ts, n + 1, ExpectedValueAfterComma))
          else After([value], ParseValues(lib, ts, n + 1, field))
        else if ts[n].kind.RightBrace? then Ok([value], n + 1)
        else Err(Fail(ts, n, ExpectedCommaOrBrace))
  {
    hide ParseValue;
  }

  lemma AfterNone(rest: Parsed<seq<Value>>)
    ensures After([], rest) == rest
  {
    if rest.Ok? {
      assert [] + rest.value == rest.value;
    }
  }

  lemma AfterOne(values: seq<Value>, value: Value, rest: Parsed<seq<Value>>)
    ensures After(values, After([value], rest)) == After(values + [value], rest)
  {
    if rest.Ok? {
      assert values + ([value] + rest.value) == values + [value] + rest.value;
    }
  }

  lemma AfterLast(values: seq<Value>, value: Value, n: nat)
    ensures After(values, Ok([value], n)) == Ok(values + [value], n)
  {
  }

  lemma AfterErr(values: seq<Value>)
    ensures forall e :: After(values, Err(e)) == Err(e)
  {
  }

  class Parser {
    const tokens: TokenList
    var cursor: nat

    ghost predicate Valid()
      reads this
    {
      On(tokens, cursor)
    }

    constructor (tokens: TokenList)
      requires Ended(tokens)
      ensures Valid() && this.tokens == tokens && cursor == 0
    {
      this.tokens, cursor := tokens, 0;
    }

    /** The current token; the cursor stays on the final `End`. */
    method Take() returns (token: Token)
      requires Valid()
      modifies this
      ensures Valid() && token == tokens[old(cursor)]
      ensures cursor == if token.kind.End? then old(cursor) else old(cursor) + 1
    {
      token := tokens[cursor];
      if !token.kind.End? {
        cursor := cursor + 1;
      }
    }

    method TakeIf(kind: TokenKind) returns (taken: bool)
      requires Valid() && !kind.End?
      modifies this
      ensures Valid() && taken == (tokens[old(cursor)].kind == kind)
      ensures cursor == if taken then old(cursor) + 1 else old(cursor)
    {
      taken := tokens[cursor].kind == kind;
      if taken {
        cursor := cursor + 1;
      }
    }

    function ErrorHere(kind: ErrorKind): FilterError
      requires Valid()
      reads this
    {
      Fail(tokens, cursor, kind)
    }

    method Value(lib: Library, field: Field) returns (r: Parsed<Value>)
      requires Valid()
      modifies this
      ensures Valid() && Moved(r, ParseValue(lib, tokens, old(cursor), field), cursor)
    {
      var token := Take();
      match ReadValue(lib, field, token.kind) {
        case Wrong(kind) => r := Err(FilterError(kind, token.position));
        case Read(value) => r := Ok(value, cursor);
      }
    }

    method String() returns (r: Parsed<string>)
      requires Valid()
      modifies this
      ensures Valid() && Moved(r, ParseString(tokens, old(cursor)), cursor)
    {
      var token := Take();
      if token.kind.Str? {
        r := Ok(token.kind.text, cursor);
      } else {
        r := Err(FilterError(RequiresString, token.position));
      }
    }

    method Set(lib: Library, field: Field) returns (r: Parsed<seq<FilterSyntax.Value>>)
      requires Valid()
      modifies this
      ensures Valid() && Moved(r, ParseSet(lib, tokens, old(cursor), field), cursor)
    {
      hide ParseValue, After, ParseValues;
      var open := TakeIf(LeftBrace);
      if !open {
        return Err(ErrorHere(ExpectedOpenBrace));
      }
      if tokens[cursor].kind.RightBrace? {
        return Err(ErrorHere(EmptySet));
      }
      ghost var start := cursor;
      var values := [];
      AfterNone(ParseValues(lib, tokens, start, field));
      while true
        invariant Valid()
        invariant After(values, ParseValues(lib, tokens, cursor, field)) == ParseValues(lib, tokens, start, field)
        decreases |tokens| - cursor
      {
        ValuesUnfold(lib, tokens, cursor, field);
        AfterErr(values);
        var value := Value(lib, field);
        if value.Err? {
          return Err(value.error);
        }
        var comma := TakeIf(Comma);
        if comma {
          if tokens[cursor].kind.RightBrace? {
            return Err(ErrorHere(ExpectedValueAfterComma));
          }
          AfterOne(values, value.value, ParseValues(lib, tokens, cursor, field));
          values := values + [value.value];
        } else {
          var close := TakeIf(RightBrace);
          if !close {
            return Err(ErrorHere(ExpectedCommaOrBrace));
          }
          AfterLast(values, value.value, cursor);
          return Ok(values + [value.value], cursor);
        }
      }
    }

    method Comparison(lib: Library, field: Field) returns (r: Parsed<FilterSyntax.Comparison>)
      requires Valid()
      modifies this
      ensures Valid() && Moved(r, ParseComparison(lib, tokens, old(cursor), field), cursor)
    {
      hide ReadValue, ParseSet;
      var operator := Take();
      match operator.kind {
        case EqualOp =>
          var value := Value(lib, field);
          r := if value.Ok? then Ok(Equal(value.value), cursor) else Err(value.error);
        case NotEqualOp =>
          var value := Value(lib, field);
          r := if value.Ok? then Ok(NotEqual(value.value), cursor) else Err(value.error);
        case ContainsOp =>
          if !IsText(field) {
            return Err(FilterError(OperatorNotValid, operator.position));
          }
          var text := String();
          r := if text.Ok? then Ok(Contains(text.value), cursor) else Err(text.error);
        case MatchesOp =>
          if !IsText(field) {
            return Err(FilterError(OperatorNotValid, operator.position));
          }
          var at := tokens[cursor].position;
          var pattern := String();
          if pattern.Err? {
            return Err(pattern.error);
          }
          if !lib.compiles(pattern.value) {
            return Err(FilterError(InvalidRegex, at));
          }
          r := Ok(Matches(pattern.value), cursor);
        case InOp =>
          var values := Set(lib, field);
          r := if values.Ok? then Ok(In(values.value), cursor) else Err(values.error);
        case _ =>
          r := Err(FilterError(ExpectedOperator, operator.position));
      }
    }

    method Predicate(lib: Library) returns (r: Parsed<FilterSyntax.Predicate>)
      requires Valid()
      modifies this
      ensures Valid() && Moved(r, ParsePredicate(lib, tokens, old(cursor)), cursor)
    {
      hide ParseComparison;
      var token := Take();
      if !token.kind.Word? {
        return Err(FilterError(ExpectedField, token.position));
      }
      var field := FieldNamed(token.kind.word);
      if field.None? {
        return Err(FilterError(UnknownField, token.position));
      }
      var comparison := Comparison(lib, field.value);
      r := if comparison.Ok? then Ok(FilterSyntax.Predicate(field.value, comparison.value), cursor)
        else Err(comparison.error);
    }

    method Primary(lib: Library) returns (r: Parsed<Expr>)
      requires Valid()
      modifies this
      ensures Valid() && Moved(r, ParsePrimary(lib, tokens, old(cursor)), cursor)
      decreases |tokens| - cursor, 0
    {
      hide ParsePredicate;
      var open := TakeIf(LeftParen);
      if open {
        var inner := OrLevel(lib);
        if inner.Err? {
          return inner;
        }
        var close := TakeIf(RightParen);
        if !close {
          return Err(ErrorHere(ExpectedCloseParen));
        }
        return Ok(inner.value, cursor);
      }
      var p := Predicate(lib);
      r := if p.Ok? then Ok(Test(p.value), cursor) else Err(p.error);
    }

    method NotLevel(lib: Library) returns (r: Parsed<Expr>)
      requires Valid()
      modifies this
      ensures Valid() && Moved(r, ParseNot(lib, tokens, old(cursor)), cursor)
      decreases |tokens| - cursor, 1
    {
      hide ParsePrimary;
      var negated := TakeIf(NotOp);
      if negated {
        var inner := NotLevel(lib);
        return if inner.Ok? then Ok(Not(inner.value), cursor) else inner;
      }
      r := Primary(lib);
    }

    method AndLevel(lib: Library) returns (r: Parsed<Expr>)
      requires Valid()
      modifies this
      ensures Valid() && Moved(r, ParseAnd(lib, tokens, old(cursor)), cursor)
      decreases |tokens| - cursor, 3
    {
      hide ParseNot;
      var first := NotLevel(lib);
      if first.Err? {
        return first;
      }
      var expression := first.value;
      ghost var start := old(cursor);
      while true
        invariant Valid() && start < cursor
        invariant AndTail(lib, tokens, expression, cursor) == ParseAnd(lib, tokens, start)
        decreases |tokens| - cursor
      {
        var more := TakeIf(AndOp);
        if !more {
          return Ok(expression, cursor);
        }
        var right := NotLevel(lib);
        if right.Err? {
          return right;
        }
        expression := And(expression, right.value);
      }
    }

    method OrLevel(lib: Library) returns (r: Parsed<Expr>)
      requires Valid()
      modifies this
      ensures Valid() && Moved(r, ParseOr(lib, tokens, old(cursor)), cursor)
      decreases |tokens| - cursor, 5
    {
      hide ParseAnd;
      var first := AndLevel(lib);
      if first.Err? {
        return first;
      }
      var expression := first.value;
      ghost var start := old(cursor);
      while true
        invariant Valid() && start < cursor
        invariant OrTail(lib, tokens, expression, cursor) == ParseOr(lib, tokens, start)
        decreases |tokens| - cursor
      {
        var more := TakeIf(OrOp);
        if !more {
          return Ok(expression, cursor);
        }
        var right := AndLevel(lib);
        if right.Err? {
          return right;
        }
        expression := Or(expression, right.value);
      }
    }

    method Parse(lib: Library) returns (r: Parsed<Expr>)
      requires Valid() && cursor == 0
      modifies this
      ensures r == ParseAll(lib, tokens)
    {
      hide ParseOr;
      r := OrLevel(lib);
      if r.Ok? && !tokens[cursor].kind.End? {
        r := Err(ErrorHere(ExpectedOperatorOrEnd));
      }
    }
  }
}

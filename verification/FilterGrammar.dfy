/** The filter grammar as derivation trees, and the proof that the parser
    accepts exactly the token lists that have one. */
module FilterGrammar {
  import opened FilterSyntax
  import opened FilterLexer
  import opened FilterParser

  //   or        ::= and  |  or "or" and
  //   and       ::= not  |  and "and" not
  //   not       ::= primary  |  "not" not
  //   primary   ::= predicate  |  "(" or ")"
  datatype OrTree = OrLeaf(only: AndTree) | OrNode(left: OrTree, right: AndTree)
  datatype AndTree = AndLeaf(only: NotTree) | AndNode(left: AndTree, right: NotTree)
  datatype NotTree = NotLeaf(only: PrimaryTree) | NotNode(inner: NotTree)
  datatype PrimaryTree = Leaf(test: PredicateTree) | Parens(inner: OrTree)

  /** A predicate with the tokens that spell its values. */
  datatype PredicateTree =
    | Compare(field: Field, negated: bool, literal: TokenKind)
    | Search(field: Field, text: string)
    | Regex(field: Field, pattern: string)
    | Member(field: Field, literals: seq<TokenKind>)

  // ----- well-typed trees -----

  predicate Reads(lib: Library, field: Field, literal: TokenKind) {
    ReadValue(lib, field, literal).Read?
  }

  predicate TypedPredicate(lib: Library, t: PredicateTree) {
    match t
    case Compare(field, _, literal) => Reads(lib, field, literal)
    case Search(field, _) => IsText(field)
    case Regex(field, pattern) => IsText(field) && lib.compiles(pattern)
    case Member(field, literals) => literals != [] && forall i :: 0 <= i < |literals| ==> Reads(lib, field, literals[i])
  }

  predicate TypedPrimary(lib: Library, t: PrimaryTree) {
    match t
    case Leaf(p) => TypedPredicate(lib, p)
    case Parens(e) => TypedOr(lib, e)
  }

  predicate TypedNot(lib: Library, t: NotTree) {
    match t
    case NotLeaf(p) => TypedPrimary(lib, p)
    case NotNode(e) => TypedNot(lib, e)
  }

  predicate TypedAnd(lib: Library, t: AndTree) {
    match t
    case AndLeaf(e) => TypedNot(lib, e)
    case AndNode(l, r) => TypedAnd(lib, l) && TypedNot(lib, r)
  }

  predicate TypedOr(lib: Library, t: OrTree) {
    match t
    case OrLeaf(e) => TypedAnd(lib, e)
    case OrNode(l, r) => TypedOr(lib, l) && TypedAnd(lib, r)
  }

  // ----- the tokens a tree derives -----

  function ListTokens(literals: seq<TokenKind>): seq<TokenKind>
    requires literals != []
  {
    if |literals| == 1 then [literals[0], RightBrace] else [literals[0], Comma] + ListTokens(literals[1..])
  }

  function PredicateTokens(t: PredicateTree): seq<TokenKind>
    requires t.Member? ==> t.literals != []
  {
    match t
    case Compare(field, negated, literal) => [Word(NameOf(field)), if negated then NotEqualOp else EqualOp, literal]
    case Search(field, text) => [Word(NameOf(field)), ContainsOp, Str(text)]
    case Regex(field, pattern) => [Word(NameOf(field)), MatchesOp, Str(pattern)]
    case Member(field, literals) => [Word(NameOf(field)), InOp, LeftBrace] + ListTokens(literals)
  }

  function PrimaryTokens(lib: Library, t: PrimaryTree): seq<TokenKind>
    requires TypedPrimary(lib, t)
  {
    match t
    case Leaf(p) => PredicateTokens(p)
    case Parens(e) => [LeftParen] + OrTokens(lib, e) + [RightParen]
  }

  function NotTokens(lib: Library, t: NotTree): seq<TokenKind>
    requires TypedNot(lib, t)
  {
    match t
    case NotLeaf(p) => PrimaryTokens(lib, p)
    case NotNode(e) => [NotOp] + NotTokens(lib, e)
  }

  function AndTokens(lib: Library, t: AndTree): seq<TokenKind>
    requires TypedAnd(lib, t)
  {
    match t
    case AndLeaf(e) => NotTokens(lib, e)
    case AndNode(l, r) => AndTokens(lib, l) + [AndOp] + NotTokens(lib, r)
  }

  function OrTokens(lib: Library, t: OrTree): seq<TokenKind>
    requires TypedOr(lib, t)
  {
    match t
    case OrLeaf(e) => AndTokens(lib, e)
    case OrNode(l, r) => OrTokens(lib, l) + [OrOp] + AndTokens(lib, r)
  }

  // ----- the expression a tree denotes -----

  function ValuesOf(lib: Library, field: Field, literals: seq<TokenKind>): seq<Value>
    requires forall i :: 0 <= i < |literals| ==> Reads(lib, field, literals[i])
  {
    seq(|literals|, i requires 0 <= i < |literals| && Reads(lib, field, literals[i]) =>
      ReadValue(lib, field, literals[i]).value)
  }

  function PredicateOf(lib: Library, t: PredicateTree): Predicate
    requires TypedPredicate(lib, t)
  {
    match t
    case Compare(field, negated, literal) =>
      var value := ReadValue(lib, field, literal).value;
      Predicate(field, if negated then NotEqual(value) else Equal(value))
    case Search(field, text) => Predicate(field, Contains(text))
    case Regex(field, pattern) => Predicate(field, Matches(pattern))
    case Member(field, literals) => Predicate(field, In(ValuesOf(lib, field, literals)))
  }

  function PrimaryOf(lib: Library, t: PrimaryTree): Expr
    requires TypedPrimary(lib, t)
  {
    match t
    case Leaf(p) => Test(PredicateOf(lib, p))
    case Parens(e) => OrOf(lib, e)
  }

  function NotOf(lib: Library, t: NotTree): Expr
    requires TypedNot(lib, t)
  {
    match t
    case NotLeaf(p) => PrimaryOf(lib, p)
    case NotNode(e) => Not(NotOf(lib, e))
  }

  function AndOf(lib: Library, t: AndTree): Expr
    requires TypedAnd(lib, t)
  {
    match t
    case AndLeaf(e) => NotOf(lib, e)
    case AndNode(l, r) => And(AndOf(lib, l), NotOf(lib, r))
  }

  function OrOf(lib: Library, t: OrTree): Expr
    requires TypedOr(lib, t)
  {
    match t
    case OrLeaf(e) => AndOf(lib, e)
    case OrNode(l, r) => Or(OrOf(lib, l), AndOf(lib, r))
  }

  // ----- tokens at a cursor -----

  predicate Spelled(ts: TokenList, c: nat, kinds: seq<TokenKind>) {
    c + |kinds| < |ts| && forall i :: 0 <= i < |kinds| ==> ts[c + i].kind == kinds[i]
  }

  lemma SpelledSplit(ts: TokenList, c: nat, a: seq<TokenKind>, b: seq<TokenKind>)
    requires Spelled(ts, c, a + b)
    ensures Spelled(ts, c, a) && Spelled(ts, c + |a|, b)
  {
    assert forall i :: 0 <= i < |a| ==> (a + b)[i] == a[i];
    forall i | 0 <= i < |b| ensures ts[c + |a| + i].kind == b[i] {
      assert (a + b)[|a| + i] == b[i];
    }
  }

  lemma SpelledJoin(ts: TokenList, c: nat, a: seq<TokenKind>, b: seq<TokenKind>)
    requires Spelled(ts, c, a) && Spelled(ts, c + |a|, b)
    ensures Spelled(ts, c, a + b)
  {
    forall i | 0 <= i < |a + b| ensures ts[c + i].kind == (a + b)[i] {
      if i >= |a| {
        assert ts[c + |a| + (i - |a|)].kind == b[i - |a|];
      }
    }
  }

  // ----- completeness -----

  lemma {:induction false} ValuesComplete(lib: Library, ts: TokenList, c: nat, field: Field, literals: seq<TokenKind>)
    requires On(ts, c) && literals != []
    requires forall i :: 0 <= i < |literals| ==> Reads(lib, field, literals[i])
    requires Spelled(ts, c, ListTokens(literals))
    ensures ParseValues(lib, ts, c, field) == Ok(ValuesOf(lib, field, literals), c + |ListTokens(literals)|)
    decreases |literals|
  {
    hide ReadValue, ValuesOf, ParseValues, Spelled;
    ValuesUnfold(lib, ts, c, field);
    ValuesOfUnfold(lib, field, literals);
    if |literals| > 1 {
      var rest := literals[1..];
      SpelledSplit(ts, c, [literals[0], Comma], ListTokens(rest));
      SpelledPair(ts, c, literals[0], Comma);
      FirstLiteral(rest);
      SpelledFirst(ts, c + 2, ListTokens(rest));
      LiteralIsNoBrace(lib, field, rest[0]);
      ValuesComplete(lib, ts, c + 2, field, rest);
    } else {
      SpelledPair(ts, c, literals[0], RightBrace);
    }
  }

  lemma SpelledPair(ts: TokenList, c: nat, a: TokenKind, b: TokenKind)
    requires Spelled(ts, c, [a, b])
    ensures c + 2 < |ts| && ts[c].kind == a && ts[c + 1].kind == b
  {
    assert ts[c].kind == [a, b][0] && ts[c + 1].kind == [a, b][1];
  }

  lemma SpelledFirst(ts: TokenList, c: nat, kinds: seq<TokenKind>)
    requires Spelled(ts, c, kinds) && kinds != []
    ensures c < |ts| && ts[c].kind == kinds[0]
  {
    assert ts[c + 0].kind == kinds[0];
  }

  lemma ValuesOfUnfold(lib: Library, field: Field, literals: seq<TokenKind>)
    requires literals != [] && forall i :: 0 <= i < |literals| ==> Reads(lib, field, literals[i])
    ensures ValuesOf(lib, field, literals) ==
            [ReadValue(lib, field, literals[0]).value] + ValuesOf(lib, field, literals[1..])
    ensures |literals| == 1 ==> ValuesOf(lib, field, literals) == [ReadValue(lib, field, literals[0]).value]
  {
    hide ReadValue;
  }

  lemma LiteralIsNoBrace(lib: Library, field: Field, literal: TokenKind)
    requires Reads(lib, field, literal)
    ensures !literal.RightBrace? && !literal.End?
  {
  }

  lemma PredicateComplete(lib: Library, ts: TokenList, c: nat, t: PredicateTree)
    requires On(ts, c) && TypedPredicate(lib, t) && Spelled(ts, c, PredicateTokens(t))
    ensures ParsePredicate(lib, ts, c) == Ok(PredicateOf(lib, t), c + |PredicateTokens(t)|)
  {
    hide ReadValue, FieldNamed, ParseValues, ListTokens, ValuesOf;
    var tokens := PredicateTokens(t);
    assert ts[c].kind == tokens[0] == Word(NameOf(t.field));
    assert ts[c + 1].kind == tokens[1];
    assert ts[c + 2].kind == tokens[2];
    if t.Member? {
      SpelledSplit(ts, c, [Word(NameOf(t.field)), InOp, LeftBrace], ListTokens(t.literals));
      FirstLiteral(t.literals);
      assert ts[c + 3].kind == ListTokens(t.literals)[0];
      LiteralIsNoBrace(lib, t.field, t.literals[0]);
      ValuesComplete(lib, ts, c + 3, t.field, t.literals);
    }
  }

  lemma FirstLiteral(literals: seq<TokenKind>)
    requires literals != []
    ensures |ListTokens(literals)| > 0 && ListTokens(literals)[0] == literals[0]
  {
  }

  lemma {:induction false} PrimaryComplete(lib: Library, ts: TokenList, c: nat, t: PrimaryTree)
    requires On(ts, c) && TypedPrimary(lib, t) && Spelled(ts, c, PrimaryTokens(lib, t))
    ensures ParsePrimary(lib, ts, c) == Ok(PrimaryOf(lib, t), c + |PrimaryTokens(lib, t)|)
    ensures !ts[c].kind.NotOp?
    decreases t
  {
    hide ParsePredicate, PredicateTokens, PredicateOf;
    match t
    case Leaf(p) =>
      StartsWithField(p);
      assert ts[c].kind == PredicateTokens(p)[0];
      PredicateComplete(lib, ts, c, p);
    case Parens(e) =>
      var inner := OrTokens(lib, e);
      SpelledSplit(ts, c, [LeftParen] + inner, [RightParen]);
      SpelledSplit(ts, c, [LeftParen], inner);
      assert ts[c].kind == [LeftParen][0];
      assert ts[c + 1 + |inner|].kind == [RightParen][0];
      OrComplete(lib, ts, c + 1, e);
      NothingMore(lib, ts, OrOf(lib, e), c + 1 + |inner|);
  }

  lemma StartsWithField(t: PredicateTree)
    requires t.Member? ==> t.literals != []
    ensures |PredicateTokens(t)| > 0 && PredicateTokens(t)[0].Word?
  {
  }

  /** Neither tail goes on past a token that is not its operator. */
  lemma NothingMore(lib: Library, ts: TokenList, e: Expr, c: nat)
    requires On(ts, c)
    ensures !ts[c].kind.OrOp? ==> OrTail(lib, ts, e, c) == Ok(e, c)
    ensures !ts[c].kind.AndOp? ==> AndTail(lib, ts, e, c) == Ok(e, c)
  {
  }

  lemma {:induction false} NotComplete(lib: Library, ts: TokenList, c: nat, t: NotTree)
    requires On(ts, c) && TypedNot(lib, t) && Spelled(ts, c, NotTokens(lib, t))
    ensures ParseNot(lib, ts, c) == Ok(NotOf(lib, t), c + |NotTokens(lib, t)|)
    decreases t
  {
    hide ParsePrimary, PrimaryTokens, PrimaryOf, TypedPrimary;
    match t
    case NotLeaf(p) =>
      PrimaryComplete(lib, ts, c, p);
    case NotNode(e) =>
      SpelledSplit(ts, c, [NotOp], NotTokens(lib, e));
      assert ts[c].kind == [NotOp][0];
      NotComplete(lib, ts, c + 1, e);
  }

  /** Parsing from the start of an `and` list arrives after it with its tree
      built to the left, ready to go on. */
  lemma {:induction false} AndComplete(lib: Library, ts: TokenList, c: nat, t: AndTree)
    requires On(ts, c) && TypedAnd(lib, t) && Spelled(ts, c, AndTokens(lib, t))
    ensures ParseAnd(lib, ts, c) == AndTail(lib, ts, AndOf(lib, t), c + |AndTokens(lib, t)|)
    decreases t
  {
    hide ParseNot, NotTokens, NotOf, TypedNot;
    match t
    case AndLeaf(e) =>
      NotComplete(lib, ts, c, e);
    case AndNode(l, r) =>
      var left, right := AndTokens(lib, l), NotTokens(lib, r);
      SpelledSplit(ts, c, left + [AndOp], right);
      SpelledSplit(ts, c, left, [AndOp]);
      assert ts[c + |left|].kind == [AndOp][0];
      AndComplete(lib, ts, c, l);
      NotComplete(lib, ts, c + |left| + 1, r);
  }

  lemma {:induction false} OrComplete(lib: Library, ts: TokenList, c: nat, t: OrTree)
    requires On(ts, c) && TypedOr(lib, t) && Spelled(ts, c, OrTokens(lib, t))
    requires !ts[c + |OrTokens(lib, t)|].kind.AndOp?
    ensures ParseOr(lib, ts, c) == OrTail(lib, ts, OrOf(lib, t), c + |OrTokens(lib, t)|)
    decreases t
  {
    hide ParseAnd, AndTokens, AndOf, TypedAnd, AndTail;
    match t
    case OrLeaf(e) =>
      AndComplete(lib, ts, c, e);
      NothingMore(lib, ts, AndOf(lib, e), c + |AndTokens(lib, e)|);
    case OrNode(l, r) =>
      var left, right := OrTokens(lib, l), AndTokens(lib, r);
      SpelledSplit(ts, c, left + [OrOp], right);
      SpelledSplit(ts, c, left, [OrOp]);
      assert ts[c + |left|].kind == [OrOp][0];
      OrComplete(lib, ts, c, l);
      AndComplete(lib, ts, c + |left| + 1, r);
      NothingMore(lib, ts, AndOf(lib, r), c + |left| + 1 + |right|);
  }

  // ----- soundness -----

  lemma {:induction false} ValuesSound(lib: Library, ts: TokenList, c: nat, field: Field)
      returns (literals: seq<TokenKind>)
    requires On(ts, c) && ParseValues(lib, ts, c, field).Ok?
    ensures literals != [] && forall i :: 0 <= i < |literals| ==> Reads(lib, field, literals[i])
    ensures Spelled(ts, c, ListTokens(literals))
    ensures ParseValues(lib, ts, c, field) == Ok(ValuesOf(lib, field, literals), c + |ListTokens(literals)|)
    decreases |ts| - c
  {
    hide ReadValue, ValuesOf, ParseValues;
    ValuesUnfold(lib, ts, c, field);
    if ts[c + 1].kind.Comma? {
      var rest := ValuesSound(lib, ts, c + 2, field);
      literals := [ts[c].kind] + rest;
      assert literals[1..] == rest;
      SpelledJoin(ts, c, [ts[c].kind, Comma], ListTokens(rest));
    } else {
      literals := [ts[c].kind];
    }
    ValuesOfUnfold(lib, field, literals);
  }

  lemma NamesAreUnique(word: string)
    ensures FieldNamed(word).Some? ==> NameOf(FieldNamed(word).value) == word
  {
  }

  lemma PredicateSound(lib: Library, ts: TokenList, c: nat) returns (t: PredicateTree)
    requires On(ts, c) && ParsePredicate(lib, ts, c).Ok?
    ensures TypedPredicate(lib, t) && Spelled(ts, c, PredicateTokens(t))
    ensures ParsePredicate(lib, ts, c) == Ok(PredicateOf(lib, t), c + |PredicateTokens(t)|)
  {
    hide ReadValue, FieldNamed, ParseValues, ListTokens, ValuesOf;
    NamesAreUnique(ts[c].kind.word);
    var field := FieldNamed(ts[c].kind.word).value;
    match ts[c + 1].kind {
      case EqualOp => t := Compare(field, false, ts[c + 2].kind);
      case NotEqualOp => t := Compare(field, true, ts[c + 2].kind);
      case ContainsOp => t := Search(field, ts[c + 2].kind.text);
      case MatchesOp => t := Regex(field, ts[c + 2].kind.text);
      case InOp =>
        var literals := ValuesSound(lib, ts, c + 3, field);
        t := Member(field, literals);
        SpelledJoin(ts, c, [Word(NameOf(field)), InOp, LeftBrace], ListTokens(literals));
    }
  }

  lemma {:induction false} PrimarySound(lib: Library, ts: TokenList, c: nat) returns (t: PrimaryTree)
    requires On(ts, c) && ParsePrimary(lib, ts, c).Ok?
    ensures TypedPrimary(lib, t) && Spelled(ts, c, PrimaryTokens(lib, t))
    ensures ParsePrimary(lib, ts, c) == Ok(PrimaryOf(lib, t), c + |PrimaryTokens(lib, t)|)
    decreases |ts| - c, 0
  {
    hide ParsePredicate, PredicateTokens, PredicateOf, ParseOr;
    if ts[c].kind.LeftParen? {
      var inner := OrSound(lib, ts, c + 1);
      t := Parens(inner);
      SpelledJoin(ts, c, [LeftParen], OrTokens(lib, inner));
      SpelledJoin(ts, c, [LeftParen] + OrTokens(lib, inner), [RightParen]);
    } else {
      var p := PredicateSound(lib, ts, c);
      t := Leaf(p);
    }
  }

  lemma {:induction false} NotSound(lib: Library, ts: TokenList, c: nat) returns (t: NotTree)
    requires On(ts, c) && ParseNot(lib, ts, c).Ok?
    ensures TypedNot(lib, t) && Spelled(ts, c, NotTokens(lib, t))
    ensures ParseNot(lib, ts, c) == Ok(NotOf(lib, t), c + |NotTokens(lib, t)|)
    decreases |ts| - c, 1
  {
    hide ParsePrimary, PrimaryTokens, PrimaryOf;
    if ts[c].kind.NotOp? {
      var inner := NotSound(lib, ts, c + 1);
      t := NotNode(inner);
      SpelledJoin(ts, c, [NotOp], NotTokens(lib, inner));
    } else {
      var p := PrimarySound(lib, ts, c);
      t := NotLeaf(p);
    }
  }

  /** From a derived left operand at `start` up to `c`, the tail derives the rest. */
  lemma {:induction false} AndTailSound(lib: Library, ts: TokenList, start: nat, left: AndTree, c: nat)
      returns (t: AndTree)
    requires On(ts, c) && TypedAnd(lib, left) && Spelled(ts, start, AndTokens(lib, left))
    requires start + |AndTokens(lib, left)| == c && AndTail(lib, ts, AndOf(lib, left), c).Ok?
    ensures TypedAnd(lib, t) && Spelled(ts, start, AndTokens(lib, t))
    ensures AndTail(lib, ts, AndOf(lib, left), c) == Ok(AndOf(lib, t), start + |AndTokens(lib, t)|)
    decreases |ts| - c, 2
  {
    hide ParseNot, NotTokens, NotOf;
    t := left;
    if ts[c].kind.AndOp? {
      var right := NotSound(lib, ts, c + 1);
      SpelledJoin(ts, start, AndTokens(lib, left), [AndOp]);
      SpelledJoin(ts, start, AndTokens(lib, left) + [AndOp], NotTokens(lib, right));
      t := AndTailSound(lib, ts, start, AndNode(left, right), c + 1 + |NotTokens(lib, right)|);
    }
  }

  lemma {:induction false} AndSound(lib: Library, ts: TokenList, c: nat) returns (t: AndTree)
    requires On(ts, c) && ParseAnd(lib, ts, c).Ok?
    ensures TypedAnd(lib, t) && Spelled(ts, c, AndTokens(lib, t))
    ensures ParseAnd(lib, ts, c) == Ok(AndOf(lib, t), c + |AndTokens(lib, t)|)
    decreases |ts| - c, 3
  {
    hide ParseNot, NotTokens, NotOf, AndTail;
    var first := NotSound(lib, ts, c);
    t := AndTailSound(lib, ts, c, AndLeaf(first), c + |NotTokens(lib, first)|);
  }

  lemma {:induction false} OrTailSound(lib: Library, ts: TokenList, start: nat, left: OrTree, c: nat)
      returns (t: OrTree)
    requires On(ts, c) && TypedOr(lib, left) && Spelled(ts, start, OrTokens(lib, left))
    requires start + |OrTokens(lib, left)| == c && OrTail(lib, ts, OrOf(lib, left), c).Ok?
    ensures TypedOr(lib, t) && Spelled(ts, start, OrTokens(lib, t))
    ensures OrTail(lib, ts, OrOf(lib, left), c) == Ok(OrOf(lib, t), start + |OrTokens(lib, t)|)
    decreases |ts| - c, 4
  {
    hide ParseAnd, AndTokens, AndOf;
    t := left;
    if ts[c].kind.OrOp? {
      var right := AndSound(lib, ts, c + 1);
      SpelledJoin(ts, start, OrTokens(lib, left), [OrOp]);
      SpelledJoin(ts, start, OrTokens(lib, left) + [OrOp], AndTokens(lib, right));
      t := OrTailSound(lib, ts, start, OrNode(left, right), c + 1 + |AndTokens(lib, right)|);
    }
  }

  lemma {:induction false} OrSound(lib: Library, ts: TokenList, c: nat) returns (t: OrTree)
    requires On(ts, c) && ParseOr(lib, ts, c).Ok?
    ensures TypedOr(lib, t) && Spelled(ts, c, OrTokens(lib, t))
    ensures ParseOr(lib, ts, c) == Ok(OrOf(lib, t), c + |OrTokens(lib, t)|)
    decreases |ts| - c, 5
  {
    hide ParseAnd, AndTokens, AndOf, OrTail;
    var first := AndSound(lib, ts, c);
    t := OrTailSound(lib, ts, c, OrLeaf(first), c + |AndTokens(lib, first)|);
  }

  // ----- main results -----

  function Kinds(ts: TokenList): (kinds: seq<TokenKind>)
    ensures |kinds| == |ts| && forall i :: 0 <= i < |ts| ==> kinds[i] == ts[i].kind
  {
    seq(|ts|, i requires 0 <= i < |ts| => ts[i].kind)
  }

  /** `t` derives exactly the token list, up to its `End`. */
  ghost predicate Derives(lib: Library, t: OrTree, ts: TokenList) {
    TypedOr(lib, t) && Kinds(ts) == OrTokens(lib, t) + [End]
  }

  /** A token list that a tree derives parses to what that tree denotes. */
  lemma ParserComplete(lib: Library, t: OrTree, ts: TokenList)
    requires Ended(ts) && Derives(lib, t, ts)
    ensures ParseAll(lib, ts) == Ok(OrOf(lib, t), |ts| - 1)
  {
    hide ParseOr, OrTokens, OrOf;
    var kinds := OrTokens(lib, t);
    forall i | 0 <= i < |kinds| ensures ts[i].kind == kinds[i] {
      assert Kinds(ts)[i] == kinds[i];
    }
    OrComplete(lib, ts, 0, t);
    NothingMore(lib, ts, OrOf(lib, t), |kinds|);
  }

  /** An accepted token list has a derivation that denotes the parser's result. */
  lemma ParserSound(lib: Library, ts: TokenList) returns (t: OrTree)
    requires Ended(ts) && ParseAll(lib, ts).Ok?
    ensures Derives(lib, t, ts) && ParseAll(lib, ts).value == OrOf(lib, t)
  {
    hide ParseOr, OrTokens, OrOf;
    t := OrSound(lib, ts, 0);
    assert Kinds(ts) == OrTokens(lib, t) + [End];
  }

  /** The parser accepts a token list if and only if the grammar derives it, and
      then every derivation denotes the expression it returns: `not` binds
      tighter than `and`, `and` tighter than `or`, and both join to the left. */
  lemma ParserExact(lib: Library, ts: TokenList)
    requires Ended(ts)
    ensures ParseAll(lib, ts).Ok? <==> exists t :: Derives(lib, t, ts)
    ensures forall t :: Derives(lib, t, ts) ==> ParseAll(lib, ts) == Ok(OrOf(lib, t), |ts| - 1)
  {
    if ParseAll(lib, ts).Ok? {
      var t := ParserSound(lib, ts);
    }
    forall t | Derives(lib, t, ts)
      ensures ParseAll(lib, ts) == Ok(OrOf(lib, t), |ts| - 1)
    {
      ParserComplete(lib, t, ts);
    }
  }
}

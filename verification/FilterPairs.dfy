/** Pairs of parentheses: read off the tokens alone, and as a derivation tree
    puts them there. */
module FilterPairs {
  import opened FilterSyntax
  import opened FilterLexer
  import opened FilterGrammar

  // ----- pairs of a token list -----

  /** Parentheses opened and not closed. */
  function Level(s: seq<TokenKind>): int {
    if s == [] then
      0
    else
      var last := s[|s| - 1];
      Level(s[..|s| - 1]) + if last.LeftParen? then 1 else if last.RightParen? then -1 else 0
  }

  predicate NeverBelow(s: seq<TokenKind>) {
    forall k :: 0 <= k <= |s| ==> Level(s[..k]) >= 0
  }

  predicate Balanced(s: seq<TokenKind>) {
    Level(s) == 0 && NeverBelow(s)
  }

  /** The parentheses at `i` and `j` belong together: what is between them closes
      all it opens. */
  predicate Matching(s: seq<TokenKind>, i: int, j: int) {
    0 <= i < j < |s| && s[i] == LeftParen && s[j] == RightParen && Balanced(s[i + 1..j])
  }

  predicate IsParenthesis(k: TokenKind) {
    k.LeftParen? || k.RightParen?
  }

  lemma {:induction false} LevelConcat(a: seq<TokenKind>, b: seq<TokenKind>)
    ensures Level(a + b) == Level(a) + Level(b)
    decreases |b|
  {
    if b == [] {
      assert a + b == a;
    } else {
      LevelConcat(a, b[..|b| - 1]);
      assert (a + b)[..|a + b| - 1] == a + b[..|b| - 1];
    }
  }

  lemma BalancedConcat(a: seq<TokenKind>, b: seq<TokenKind>)
    requires Balanced(a) && Balanced(b)
    ensures Balanced(a + b)
  {
    hide Level;
    LevelConcat(a, b);
    forall k | 0 <= k <= |a + b| ensures Level((a + b)[..k]) >= 0 {
      if k <= |a| {
        assert (a + b)[..k] == a[..k];
      } else {
        assert (a + b)[..k] == a + b[..k - |a|];
        LevelConcat(a, b[..k - |a|]);
      }
    }
  }

  lemma LevelOfOne(k: TokenKind)
    ensures Level([k]) == if k.LeftParen? then 1 else if k.RightParen? then -1 else 0
  {
    assert [k][..0] == [];
  }

  lemma BalancedOne(k: TokenKind)
    requires !IsParenthesis(k)
    ensures Balanced([k])
  {
    LevelOfOne(k);
    assert [k][..0] == [] && [k][..1] == [k];
  }

  lemma BalancedInside(a: seq<TokenKind>)
    requires Balanced(a)
    ensures Balanced([LeftParen] + a + [RightParen])
  {
    hide Level;
    var s := [LeftParen] + a + [RightParen];
    LevelOfOne(LeftParen);
    LevelOfOne(RightParen);
    LevelConcat([LeftParen], a);
    LevelConcat([LeftParen] + a, [RightParen]);
    forall k | 0 <= k <= |s| ensures Level(s[..k]) >= 0 {
      if k == 0 {
        assert s[..k] == a[..0];
      } else if k <= |a| + 1 {
        assert s[..k] == [LeftParen] + a[..k - 1];
        LevelConcat([LeftParen], a[..k - 1]);
      } else {
        assert s[..k] == s;
      }
    }
  }

  /** A parenthesis has one partner. */
  lemma OnePartner(s: seq<TokenKind>, i: int, j: int, k: int)
    requires Matching(s, i, j) && Matching(s, i, k)
    ensures j == k
  {
    if j < k {
      ClosedTooEarly(s, i, j, k);
    } else if k < j {
      ClosedTooEarly(s, i, k, j);
    }
  }

  lemma ClosedTooEarly(s: seq<TokenKind>, i: int, j: int, k: int)
    requires Matching(s, i, j) && i < j < k < |s|
    ensures !Matching(s, i, k)
  {
    hide Level;
    var inside := s[i + 1..k];
    assert inside[..j - i] == s[i + 1..j] + [RightParen];
    LevelConcat(s[i + 1..j], [RightParen]);
    LevelOfOne(RightParen);
    assert Level(inside[..j - i]) < 0;
  }

  lemma MatchingInFront(a: seq<TokenKind>, b: seq<TokenKind>, i: int, j: int)
    requires Matching(a, i, j)
    ensures Matching(a + b, i, j)
  {
    hide Balanced;
    assert (a + b)[i + 1..j] == a[i + 1..j];
  }

  lemma MatchingBehind(a: seq<TokenKind>, b: seq<TokenKind>, i: int, j: int)
    requires Matching(b, i, j)
    ensures Matching(a + b, |a| + i, |a| + j)
  {
    hide Balanced;
    assert (a + b)[|a| + i + 1..|a| + j] == b[i + 1..j];
  }

  // ----- pairs of a tree -----

  /** The tokens at `i` and `j` are a pair of parentheses of the tree. */
  predicate PairOr(lib: Library, t: OrTree, i: int, j: int)
    requires TypedOr(lib, t)
  {
    match t
    case OrLeaf(e) => PairAnd(lib, e, i, j)
    case OrNode(l, r) =>
      var n := |OrTokens(lib, l)| + 1;
      PairOr(lib, l, i, j) || PairAnd(lib, r, i - n, j - n)
  }

  predicate PairAnd(lib: Library, t: AndTree, i: int, j: int)
    requires TypedAnd(lib, t)
  {
    match t
    case AndLeaf(e) => PairNot(lib, e, i, j)
    case AndNode(l, r) =>
      var n := |AndTokens(lib, l)| + 1;
      PairAnd(lib, l, i, j) || PairNot(lib, r, i - n, j - n)
  }

  predicate PairNot(lib: Library, t: NotTree, i: int, j: int)
    requires TypedNot(lib, t)
  {
    match t
    case NotLeaf(Leaf(_)) => false
    case NotLeaf(Parens(e)) =>
      assert TypedPrimary(lib, t.only);
      (i == 0 && j == |OrTokens(lib, e)| + 1) || PairOr(lib, e, i - 1, j - 1)
    case NotNode(e) => PairNot(lib, e, i - 1, j - 1)
  }

  lemma {:induction false} PairOrInRange(lib: Library, t: OrTree, i: int, j: int)
    requires TypedOr(lib, t) && PairOr(lib, t, i, j)
    ensures 0 <= i < j < |OrTokens(lib, t)|
  {
    match t
    case OrLeaf(e) => PairAndInRange(lib, e, i, j);
    case OrNode(l, r) =>
      var n := |OrTokens(lib, l)| + 1;
      if PairOr(lib, l, i, j) {
        PairOrInRange(lib, l, i, j);
      } else {
        PairAndInRange(lib, r, i - n, j - n);
      }
  }

  lemma {:induction false} PairAndInRange(lib: Library, t: AndTree, i: int, j: int)
    requires TypedAnd(lib, t) && PairAnd(lib, t, i, j)
    ensures 0 <= i < j < |AndTokens(lib, t)|
  {
    match t
    case AndLeaf(e) => PairNotInRange(lib, e, i, j);
    case AndNode(l, r) =>
      var n := |AndTokens(lib, l)| + 1;
      if PairAnd(lib, l, i, j) {
        PairAndInRange(lib, l, i, j);
      } else {
        PairNotInRange(lib, r, i - n, j - n);
      }
  }

  lemma {:induction false} PairNotInRange(lib: Library, t: NotTree, i: int, j: int)
    requires TypedNot(lib, t) && PairNot(lib, t, i, j)
    ensures 0 <= i < j < |NotTokens(lib, t)|
  {
    hide PredicateTokens;
    match t
    case NotLeaf(Leaf(_)) =>
    case NotLeaf(Parens(e)) =>
      if PairOr(lib, e, i - 1, j - 1) {
        PairOrInRange(lib, e, i - 1, j - 1);
      }
    case NotNode(e) => PairNotInRange(lib, e, i - 1, j - 1);
  }

  // ----- the tokens of a tree are balanced -----

  predicate Bare(s: seq<TokenKind>) {
    forall i :: 0 <= i < |s| ==> !IsParenthesis(s[i])
  }

  lemma {:induction false} BareIsBalanced(s: seq<TokenKind>)
    requires Bare(s)
    ensures Balanced(s)
    decreases |s|
  {
    if s != [] {
      var before, last := s[..|s| - 1], s[|s| - 1];
      BareIsBalanced(before);
      BalancedOne(last);
      BalancedConcat(before, [last]);
      assert s == before + [last];
    }
  }

  lemma {:induction false} ListIsBare(lib: Library, field: Field, literals: seq<TokenKind>)
    requires literals != [] && forall i :: 0 <= i < |literals| ==> Reads(lib, field, literals[i])
    ensures Bare(ListTokens(literals))
  {
    assert Reads(lib, field, literals[0]);
    if |literals| > 1 {
      ListIsBare(lib, field, literals[1..]);
    }
  }

  lemma PredicateIsBare(lib: Library, t: PredicateTree)
    requires TypedPredicate(lib, t)
    ensures Bare(PredicateTokens(t))
  {
    match t
    case Compare(_, _, literal) => assert Reads(lib, t.field, literal);
    case Search(_, _) =>
    case Regex(_, _) =>
    case Member(field, literals) => ListIsBare(lib, field, literals);
  }

  lemma {:induction false} OrIsBalanced(lib: Library, t: OrTree)
    requires TypedOr(lib, t)
    ensures Balanced(OrTokens(lib, t))
  {
    hide Balanced;
    match t
    case OrLeaf(e) => AndIsBalanced(lib, e);
    case OrNode(l, r) =>
      OrIsBalanced(lib, l);
      AndIsBalanced(lib, r);
      Between(OrTokens(lib, l), OrOp, AndTokens(lib, r));
  }

  lemma Between(a: seq<TokenKind>, op: TokenKind, b: seq<TokenKind>)
    requires Balanced(a) && Balanced(b) && !IsParenthesis(op)
    ensures Balanced(a + [op] + b)
  {
    hide Balanced;
    BalancedOne(op);
    BalancedConcat(a, [op]);
    BalancedConcat(a + [op], b);
  }

  lemma {:induction false} AndIsBalanced(lib: Library, t: AndTree)
    requires TypedAnd(lib, t)
    ensures Balanced(AndTokens(lib, t))
  {
    hide Balanced;
    match t
    case AndLeaf(e) => NotIsBalanced(lib, e);
    case AndNode(l, r) =>
      AndIsBalanced(lib, l);
      NotIsBalanced(lib, r);
      Between(AndTokens(lib, l), AndOp, NotTokens(lib, r));
  }

  lemma {:induction false} NotIsBalanced(lib: Library, t: NotTree)
    requires TypedNot(lib, t)
    ensures Balanced(NotTokens(lib, t))
  {
    hide Balanced, PredicateTokens;
    match t
    case NotLeaf(Leaf(p)) =>
      PredicateIsBare(lib, p);
      BareIsBalanced(PredicateTokens(p));
    case NotLeaf(Parens(e)) =>
      OrIsBalanced(lib, e);
      BalancedInside(OrTokens(lib, e));
    case NotNode(e) =>
      NotIsBalanced(lib, e);
      BalancedOne(NotOp);
      BalancedConcat([NotOp], NotTokens(lib, e));
  }

  // ----- pairs of a tree match -----

  lemma {:induction false} PairOrMatches(lib: Library, t: OrTree, i: int, j: int)
    requires TypedOr(lib, t) && PairOr(lib, t, i, j)
    ensures Matching(OrTokens(lib, t), i, j)
  {
    hide Matching;
    match t
    case OrLeaf(e) => PairAndMatches(lib, e, i, j);
    case OrNode(l, r) =>
      var before, after := OrTokens(lib, l), AndTokens(lib, r);
      var n := |before| + 1;
      if PairOr(lib, l, i, j) {
        PairOrMatches(lib, l, i, j);
        MatchingInFront(before, [OrOp] + after, i, j);
        assert before + [OrOp] + after == before + ([OrOp] + after);
      } else {
        PairAndMatches(lib, r, i - n, j - n);
        MatchingBehind(before + [OrOp], after, i - n, j - n);
      }
  }

  lemma {:induction false} PairAndMatches(lib: Library, t: AndTree, i: int, j: int)
    requires TypedAnd(lib, t) && PairAnd(lib, t, i, j)
    ensures Matching(AndTokens(lib, t), i, j)
  {
    hide Matching;
    match t
    case AndLeaf(e) => PairNotMatches(lib, e, i, j);
    case AndNode(l, r) =>
      var before, after := AndTokens(lib, l), NotTokens(lib, r);
      var n := |before| + 1;
      if PairAnd(lib, l, i, j) {
        PairAndMatches(lib, l, i, j);
        MatchingInFront(before, [AndOp] + after, i, j);
        assert before + [AndOp] + after == before + ([AndOp] + after);
      } else {
        PairNotMatches(lib, r, i - n, j - n);
        MatchingBehind(before + [AndOp], after, i - n, j - n);
      }
  }

  lemma ParensMatch(a: seq<TokenKind>)
    requires Balanced(a)
    ensures Matching([LeftParen] + a + [RightParen], 0, |a| + 1)
  {
    hide Balanced;
    assert ([LeftParen] + a + [RightParen])[1..|a| + 1] == a;
  }

  lemma {:induction false} PairNotMatches(lib: Library, t: NotTree, i: int, j: int)
    requires TypedNot(lib, t) && PairNot(lib, t, i, j)
    ensures Matching(NotTokens(lib, t), i, j)
  {
    hide PredicateTokens, Matching;
    match t
    case NotLeaf(Parens(e)) =>
      var inner := OrTokens(lib, e);
      if PairOr(lib, e, i - 1, j - 1) {
        PairOrMatches(lib, e, i - 1, j - 1);
        MatchingInFront(inner, [RightParen], i - 1, j - 1);
        MatchingBehind([LeftParen], inner + [RightParen], i - 1, j - 1);
        assert [LeftParen] + inner + [RightParen] == [LeftParen] + (inner + [RightParen]);
      } else {
        OrIsBalanced(lib, e);
        ParensMatch(inner);
      }
    case NotNode(e) =>
      PairNotMatches(lib, e, i - 1, j - 1);
      MatchingBehind([NotOp], NotTokens(lib, e), i - 1, j - 1);
  }

  // ----- every parenthesis is in a pair of the tree -----

  lemma {:induction false} PairOfOr(lib: Library, t: OrTree, k: int) returns (i: int, j: int)
    requires TypedOr(lib, t) && 0 <= k < |OrTokens(lib, t)| && IsParenthesis(OrTokens(lib, t)[k])
    ensures PairOr(lib, t, i, j) && k in {i, j}
  {
    match t
    case OrLeaf(e) => i, j := PairOfAnd(lib, e, k);
    case OrNode(l, r) =>
      var n := |OrTokens(lib, l)| + 1;
      if k < n {
        i, j := PairOfOr(lib, l, k);
      } else {
        i, j := PairOfAnd(lib, r, k - n);
        i, j := i + n, j + n;
      }
  }

  lemma {:induction false} PairOfAnd(lib: Library, t: AndTree, k: int) returns (i: int, j: int)
    requires TypedAnd(lib, t) && 0 <= k < |AndTokens(lib, t)| && IsParenthesis(AndTokens(lib, t)[k])
    ensures PairAnd(lib, t, i, j) && k in {i, j}
  {
    match t
    case AndLeaf(e) => i, j := PairOfNot(lib, e, k);
    case AndNode(l, r) =>
      var n := |AndTokens(lib, l)| + 1;
      if k < n {
        i, j := PairOfAnd(lib, l, k);
      } else {
        i, j := PairOfNot(lib, r, k - n);
        i, j := i + n, j + n;
      }
  }

  lemma {:induction false} PairOfNot(lib: Library, t: NotTree, k: int) returns (i: int, j: int)
    requires TypedNot(lib, t) && 0 <= k < |NotTokens(lib, t)| && IsParenthesis(NotTokens(lib, t)[k])
    ensures PairNot(lib, t, i, j) && k in {i, j}
  {
    hide PredicateTokens;
    match t
    case NotLeaf(Leaf(p)) =>
      PredicateIsBare(lib, p);
      assert false;
    case NotLeaf(Parens(e)) =>
      var n := |OrTokens(lib, e)|;
      if 0 < k <= n {
        i, j := PairOfOr(lib, e, k - 1);
        i, j := i + 1, j + 1;
      } else {
        i, j := 0, n + 1;
      }
    case NotNode(e) =>
      i, j := PairOfNot(lib, e, k - 1);
      i, j := i + 1, j + 1;
  }

  // ----- main results -----

  /** Every parenthesis a tree derives has its partner. */
  lemma ParenthesesPairUp(lib: Library, t: OrTree, k: int) returns (i: int, j: int)
    requires TypedOr(lib, t) && 0 <= k < |OrTokens(lib, t)| && IsParenthesis(OrTokens(lib, t)[k])
    ensures Matching(OrTokens(lib, t), i, j) && k in {i, j}
  {
    i, j := PairOfOr(lib, t, k);
    PairOrMatches(lib, t, i, j);
  }

  /** The pairs of the tree are the pairs of its tokens. */
  lemma PairsAreMatching(lib: Library, t: OrTree, i: int, j: int)
    requires TypedOr(lib, t)
    ensures PairOr(lib, t, i, j) <==> Matching(OrTokens(lib, t), i, j)
  {
    hide OrTokens, PairOr, Balanced;
    if PairOr(lib, t, i, j) {
      PairOrMatches(lib, t, i, j);
    }
    if Matching(OrTokens(lib, t), i, j) {
      var m, n := PairOfOr(lib, t, i);
      PairOrMatches(lib, t, m, n);
      OnePartner(OrTokens(lib, t), i, j, n);
    }
  }
}

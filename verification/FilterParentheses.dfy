/** The printer's parentheses are all needed: leaving out any pair gives text
    that parses to a different expression, associativity apart. */
module FilterParentheses {
  import opened FilterSyntax
  import opened FilterLexer
  import opened FilterParser
  import opened FilterGrammar
  import opened FilterPairs
  import opened FilterPrinter

  // ----- a measure that associativity does not change -----

  lemma ProductsKeepOrder(x: nat, y: nat, z: nat)
    requires x <= y
    ensures x * z <= y * z && z * x <= z * y && (x < y && z > 0 ==> x * z < y * z && z * x < z * y)
  {
  }

  lemma ProductsGrow(x: nat, y: nat)
    requires x >= 2 && y >= 2
    ensures x * y > x && x * y > y
  {
    ProductsKeepOrder(2, x, y);
    ProductsKeepOrder(2, y, x);
  }

  function Times(x: nat, y: nat): (z: nat)
    ensures x >= 2 && y >= 2 ==> z >= 2
  {
    if x >= 2 && y >= 2 then ProductsGrow(x, y); x * y else x * y
  }

  /** The terms of the expression multiplied out, a negation counting twice. */
  function Weight(e: Expr): (n: nat)
    ensures n >= 2
  {
    match e
    case Test(_) => 2
    case And(l, r) => Times(Weight(l), Weight(r))
    case Or(l, r) => Weight(l) + Weight(r)
    case Not(inner) => Times(Weight(inner), Weight(inner))
  }

  function FlatWeight(f: Flat): nat {
    match f
    case FlatTest(_) => 2
    case FlatNot(inner) => Times(FlatWeight(inner), FlatWeight(inner))
    case FlatAnd(parts) => ProductOf(parts)
    case FlatOr(parts) => SumOf(parts)
  }

  function ProductOf(parts: seq<Flat>): nat {
    if parts == [] then 1 else Times(FlatWeight(parts[0]), ProductOf(parts[1..]))
  }

  function SumOf(parts: seq<Flat>): nat {
    if parts == [] then 0 else FlatWeight(parts[0]) + SumOf(parts[1..])
  }

  lemma TimesAssociates(x: nat, y: nat, z: nat)
    ensures Times(x, Times(y, z)) == Times(Times(x, y), z)
  {
  }

  lemma TimesCommutes(x: nat, y: nat)
    ensures Times(x, y) == Times(y, x)
  {
  }

  lemma {:induction false} ProductConcat(a: seq<Flat>, b: seq<Flat>)
    ensures ProductOf(a + b) == Times(ProductOf(a), ProductOf(b))
  {
    hide FlatWeight;
    if a == [] {
      assert a + b == b;
    } else {
      ProductConcat(a[1..], b);
      assert (a + b)[1..] == a[1..] + b;
      hide Times;
      TimesAssociates(FlatWeight(a[0]), ProductOf(a[1..]), ProductOf(b));
    }
  }

  lemma {:induction false} SumConcat(a: seq<Flat>, b: seq<Flat>)
    ensures SumOf(a + b) == SumOf(a) + SumOf(b)
  {
    hide FlatWeight;
    if a == [] {
      assert a + b == b;
    } else {
      SumConcat(a[1..], b);
      assert (a + b)[1..] == a[1..] + b;
    }
  }

  lemma OnePart(f: Flat)
    ensures ProductOf([f]) == SumOf([f]) == FlatWeight(f)
  {
    hide FlatWeight;
    assert [f][1..] == [];
  }

  lemma {:induction false} WeightIsFlat(e: Expr)
    ensures FlatWeight(Flatten(e)) == Weight(e)
    ensures ProductOf(AndParts(e)) == Weight(e) && SumOf(OrParts(e)) == Weight(e)
  {
    hide Times;
    OnePart(Flatten(e));
    match e
    case Test(_) =>
    case Not(inner) => WeightIsFlat(inner);
    case And(l, r) =>
      WeightIsFlat(l);
      WeightIsFlat(r);
      ProductConcat(AndParts(l), AndParts(r));
    case Or(l, r) =>
      WeightIsFlat(l);
      WeightIsFlat(r);
      SumConcat(OrParts(l), OrParts(r));
  }

  /** Expressions equal up to associativity weigh the same. */
  lemma SameWeight(a: Expr, b: Expr)
    requires SameUpToAssociativity(a, b)
    ensures Weight(a) == Weight(b)
  {
    WeightIsFlat(a);
    WeightIsFlat(b);
  }

  // ----- the same measure on derivation trees -----

  function OrWeight(t: OrTree): (n: nat)
    ensures n >= 2
  {
    match t
    case OrLeaf(e) => AndWeight(e)
    case OrNode(l, r) => OrWeight(l) + AndWeight(r)
  }

  function AndWeight(t: AndTree): (n: nat)
    ensures n >= 2
  {
    match t
    case AndLeaf(e) => NotWeight(e)
    case AndNode(l, r) => Times(AndWeight(l), NotWeight(r))
  }

  function NotWeight(t: NotTree): (n: nat)
    ensures n >= 2
  {
    match t
    case NotLeaf(Leaf(_)) => 2
    case NotLeaf(Parens(e)) => OrWeight(e)
    case NotNode(e) => Times(NotWeight(e), NotWeight(e))
  }

  lemma {:induction false} OrWeighs(lib: Library, t: OrTree)
    requires TypedOr(lib, t)
    ensures Weight(OrOf(lib, t)) == OrWeight(t)
  {
    match t
    case OrLeaf(e) => AndWeighs(lib, e);
    case OrNode(l, r) =>
      OrWeighs(lib, l);
      AndWeighs(lib, r);
  }

  lemma {:induction false} AndWeighs(lib: Library, t: AndTree)
    requires TypedAnd(lib, t)
    ensures Weight(AndOf(lib, t)) == AndWeight(t)
  {
    hide Times;
    match t
    case AndLeaf(e) => NotWeighs(lib, e);
    case AndNode(l, r) =>
      AndWeighs(lib, l);
      NotWeighs(lib, r);
  }

  lemma {:induction false} NotWeighs(lib: Library, t: NotTree)
    requires TypedNot(lib, t)
    ensures Weight(NotOf(lib, t)) == NotWeight(t)
  {
    hide Times;
    match t
    case NotLeaf(Leaf(_)) =>
    case NotLeaf(Parens(e)) => OrWeighs(lib, e);
    case NotNode(e) => NotWeighs(lib, e);
  }

  // ----- trees without needless parentheses -----

  predicate IsParens(t: NotTree) {
    t.NotLeaf? && t.only.Parens?
  }

  /** An operand of `and` is parenthesised only around an `or`. */
  predicate SparingOperand(t: NotTree)
    decreases t, 1
  {
    SparingNot(t) && (IsParens(t) ==> t.only.inner.OrNode?)
  }

  /** An operand of `not` is parenthesised only around an `or` or an `and`. */
  predicate SparingNot(t: NotTree)
    decreases t, 0
  {
    match t
    case NotLeaf(Leaf(_)) => true
    case NotLeaf(Parens(e)) => SparingOr(e)
    case NotNode(e) => SparingNot(e) && (IsParens(e) ==> !Lone(e.only.inner))
  }

  predicate Lone(t: OrTree) {
    t.OrLeaf? && t.only.AndLeaf?
  }

  predicate SparingChain(t: AndTree)
    decreases t, 0
  {
    match t
    case AndLeaf(e) => SparingOperand(e)
    case AndNode(l, r) => SparingChain(l) && SparingOperand(r)
  }

  predicate SparingAnd(t: AndTree)
    decreases t, 0
  {
    match t
    case AndLeaf(e) => SparingNot(e) && !IsParens(e)
    case AndNode(l, r) => SparingChain(l) && SparingOperand(r)
  }

  predicate SparingOr(t: OrTree)
    decreases t, 0
  {
    match t
    case OrLeaf(e) => SparingAnd(e)
    case OrNode(l, r) => SparingOr(l) && SparingAnd(r)
  }

  lemma {:induction false} JoinOrIsSparing(a: OrTree, b: OrTree)
    requires SparingOr(a) && SparingOr(b)
    ensures SparingOr(JoinOr(a, b)) && JoinOr(a, b).OrNode?
  {
    if b.OrNode? {
      JoinOrIsSparing(a, b.left);
    }
  }

  lemma {:induction false} JoinAndIsSparing(a: AndTree, b: AndTree)
    requires SparingChain(a) && SparingChain(b)
    ensures SparingAnd(JoinAnd(a, b)) && SparingChain(JoinAnd(a, b)) && JoinAnd(a, b).AndNode?
  {
    if b.AndNode? {
      JoinAndIsSparing(a, b.left);
    }
  }

  lemma {:induction false} PrintedOrIsSparing(spell: IpSpelling, e: Expr)
    ensures SparingOr(OrTreeOf(spell, e))
    ensures e.Or? ==> OrTreeOf(spell, e).OrNode?
    ensures Binary(e) ==> !Lone(OrTreeOf(spell, e))
    decreases e, if Binary(e) then 2 else 3
  {
    hide PredicateTreeOf;
    if e.Or? {
      PrintedOrIsSparing(spell, e.left);
      PrintedOrIsSparing(spell, e.right);
      JoinOrIsSparing(OrTreeOf(spell, e.left), OrTreeOf(spell, e.right));
    } else {
      PrintedAndIsSparing(spell, e);
    }
  }

  lemma {:induction false} PrintedAndIsSparing(spell: IpSpelling, e: Expr)
    ensures SparingChain(AndTreeOf(spell, e)) && (!e.Or? ==> SparingAnd(AndTreeOf(spell, e)))
    ensures e.And? ==> AndTreeOf(spell, e).AndNode?
    decreases e, if e.Or? then 4 else if e.And? then 1 else 2
  {
    hide PredicateTreeOf;
    if e.And? {
      PrintedAndIsSparing(spell, e.left);
      PrintedAndIsSparing(spell, e.right);
      JoinAndIsSparing(AndTreeOf(spell, e.left), AndTreeOf(spell, e.right));
    } else {
      PrintedNotIsSparing(spell, e);
    }
  }

  lemma {:induction false} PrintedNotIsSparing(spell: IpSpelling, e: Expr)
    ensures var t := NotTreeOf(spell, e);
      && SparingNot(t) && (IsParens(t) <==> Binary(e))
      && (IsParens(t) ==> !Lone(t.only.inner)) && (e.Or? ==> t.only.inner.OrNode?)
    decreases e, if Binary(e) then 3 else 1
  {
    hide PredicateTreeOf;
    match e
    case Not(inner) => PrintedNotIsSparing(spell, inner);
    case Test(_) =>
    case And(_, _) => PrintedOrIsSparing(spell, e);
    case Or(_, _) => PrintedOrIsSparing(spell, e);
  }

  // ----- leaving out a pair -----

  /** The tokens without those at `i` and `j`. */
  function Without(s: seq<TokenKind>, i: int, j: int): seq<TokenKind>
    requires 0 <= i < j < |s|
  {
    s[..i] + s[i + 1..j] + s[j + 1..]
  }

  lemma WithoutInFront(a: seq<TokenKind>, b: seq<TokenKind>, i: int, j: int)
    requires 0 <= i < j < |a|
    ensures Without(a + b, i, j) == Without(a, i, j) + b
  {
    assert (a + b)[..i] == a[..i] && (a + b)[i + 1..j] == a[i + 1..j] && (a + b)[j + 1..] == a[j + 1..] + b;
    assert a[..i] + a[i + 1..j] + (a[j + 1..] + b) == a[..i] + a[i + 1..j] + a[j + 1..] + b;
  }

  lemma WithoutBehind(a: seq<TokenKind>, b: seq<TokenKind>, i: int, j: int)
    requires 0 <= i < j < |b|
    ensures Without(a + b, |a| + i, |a| + j) == a + Without(b, i, j)
  {
    var m, n := |a| + i, |a| + j;
    assert (a + b)[..m] == a + b[..i] && (a + b)[m + 1..n] == b[i + 1..j] && (a + b)[n + 1..] == b[j + 1..];
    assert a + b[..i] + b[i + 1..j] + b[j + 1..] == a + (b[..i] + b[i + 1..j] + b[j + 1..]);
  }

  // ----- the tree that is left -----

  function AndBefore(l: AndTree, t: OrTree): OrTree {
    match t
    case OrLeaf(e) => OrLeaf(JoinAnd(l, e))
    case OrNode(x, y) => OrNode(AndBefore(l, x), y)
  }

  function AndAfter(t: OrTree, r: NotTree): OrTree {
    match t
    case OrLeaf(e) => OrLeaf(AndNode(e, r))
    case OrNode(x, y) => OrNode(x, AndNode(y, r))
  }

  function NotAnd(t: AndTree): AndTree {
    match t
    case AndLeaf(e) => AndLeaf(NotNode(e))
    case AndNode(l, r) => AndNode(NotAnd(l), r)
  }

  function NotOr(t: OrTree): OrTree {
    match t
    case OrLeaf(e) => OrLeaf(NotAnd(e))
    case OrNode(l, r) => OrNode(NotOr(l), r)
  }

  lemma {:induction false} JoinOrWeighs(a: OrTree, b: OrTree)
    ensures OrWeight(JoinOr(a, b)) == OrWeight(a) + OrWeight(b)
  {
    if b.OrNode? {
      JoinOrWeighs(a, b.left);
    }
  }

  lemma {:induction false} JoinAndWeighs(a: AndTree, b: AndTree)
    ensures AndWeight(JoinAnd(a, b)) == Times(AndWeight(a), AndWeight(b))
  {
    hide Times;
    if b.AndNode? {
      JoinAndWeighs(a, b.left);
      TimesAssociates(AndWeight(a), AndWeight(b.left), NotWeight(b.right));
    }
  }

  lemma SpreadsLess(x: nat, y: nat, z: nat)
    requires x >= 2
    ensures Times(x, y) + z <= Times(x, y + z) && (z > 0 ==> Times(x, y) + z < Times(x, y + z))
  {
    assert x * (y + z) == x * y + x * z;
    ProductsKeepOrder(2, x, z);
  }

  /** A conjunct before an `or` reaches only its first operand. */
  lemma {:induction false} AndBeforeFacts(lib: Library, l: AndTree, t: OrTree)
    requires TypedAnd(lib, l) && TypedOr(lib, t)
    ensures var u := AndBefore(l, t);
      && TypedOr(lib, u) && OrTokens(lib, u) == AndTokens(lib, l) + [AndOp] + OrTokens(lib, t)
      && OrWeight(u) <= Times(AndWeight(l), OrWeight(t))
      && (t.OrNode? ==> OrWeight(u) < Times(AndWeight(l), OrWeight(t)))
  {
    hide Times;
    match t
    case OrLeaf(e) =>
      JoinAndDenotes(lib, l, e);
      JoinAndWeighs(l, e);
    case OrNode(x, y) =>
      AndBeforeFacts(lib, l, x);
      SpreadsLess(AndWeight(l), OrWeight(x), AndWeight(y));
      assert AndTokens(lib, l) + [AndOp] + OrTokens(lib, x) + [OrOp] + AndTokens(lib, y)
          == AndTokens(lib, l) + [AndOp] + (OrTokens(lib, x) + [OrOp] + AndTokens(lib, y));
  }

  /** A conjunct after an `or` reaches only its last operand. */
  lemma AndAfterFacts(lib: Library, t: OrTree, r: NotTree)
    requires TypedOr(lib, t) && TypedNot(lib, r)
    ensures var u := AndAfter(t, r);
      && TypedOr(lib, u) && OrTokens(lib, u) == OrTokens(lib, t) + [AndOp] + NotTokens(lib, r)
      && OrWeight(u) <= Times(OrWeight(t), NotWeight(r))
      && (t.OrNode? ==> OrWeight(u) < Times(OrWeight(t), NotWeight(r)))
  {
    hide Times;
    match t
    case OrLeaf(e) =>
    case OrNode(x, y) =>
      SpreadsLess(NotWeight(r), AndWeight(y), OrWeight(x));
      TimesCommutes(NotWeight(r), AndWeight(y));
      TimesCommutes(NotWeight(r), OrWeight(t));
      assert OrTokens(lib, x) + [OrOp] + (AndTokens(lib, y) + [AndOp] + NotTokens(lib, r))
          == OrTokens(lib, x) + [OrOp] + AndTokens(lib, y) + [AndOp] + NotTokens(lib, r);
  }

  lemma SquareOfProduct(x: nat, y: nat, n: nat)
    requires x >= 2 && y >= 2 && n <= Times(x, x)
    ensures Times(n, y) < Times(Times(x, y), Times(x, y))
  {
    var square := x * x;
    ProductsKeepOrder(n, square, y);
    ProductsGrow(x, x);
    ProductsGrow(y, y);
    ProductsKeepOrder(y, y * y, square);
    ProductOfSquares(x, y);
    assert Times(n, y) == n * y <= square * y < square * (y * y) == Times(Times(x, x), Times(y, y));
  }

  lemma ProductOfSquares(x: nat, y: nat)
    ensures Times(Times(x, y), Times(x, y)) == Times(Times(x, x), Times(y, y))
  {
    hide Times;
    TimesAssociates(x, y, Times(x, y));
    TimesAssociates(y, x, y);
    TimesCommutes(x, y);
    TimesAssociates(x, y, y);
    TimesAssociates(x, x, Times(y, y));
  }

  lemma SquareOfSum(x: nat, y: nat, n: nat)
    requires x >= 2 && y >= 2 && n <= Times(x, x)
    ensures n + y < Times(x + y, x + y)
  {
    ProductsGrow(y, y);
    assert (x + y) * (x + y) == x * x + 2 * (x * y) + y * y;
  }

  /** A `not` before a conjunction reaches only its first operand. */
  lemma {:induction false} NotAndFacts(lib: Library, t: AndTree)
    requires TypedAnd(lib, t)
    ensures var u := NotAnd(t);
      && TypedAnd(lib, u) && AndTokens(lib, u) == [NotOp] + AndTokens(lib, t)
      && AndWeight(u) <= Times(AndWeight(t), AndWeight(t))
      && (t.AndNode? ==> AndWeight(u) < Times(AndWeight(t), AndWeight(t)))
  {
    hide Times;
    match t
    case AndLeaf(e) =>
    case AndNode(l, r) =>
      NotAndFacts(lib, l);
      SquareOfProduct(AndWeight(l), NotWeight(r), AndWeight(NotAnd(l)));
      assert [NotOp] + AndTokens(lib, l) + [AndOp] + NotTokens(lib, r)
          == [NotOp] + (AndTokens(lib, l) + [AndOp] + NotTokens(lib, r));
  }

  lemma {:induction false} NotOrFacts(lib: Library, t: OrTree)
    requires TypedOr(lib, t)
    ensures var u := NotOr(t);
      && TypedOr(lib, u) && OrTokens(lib, u) == [NotOp] + OrTokens(lib, t)
      && OrWeight(u) <= Times(OrWeight(t), OrWeight(t))
      && (!Lone(t) ==> OrWeight(u) < Times(OrWeight(t), OrWeight(t)))
  {
    hide Times;
    match t
    case OrLeaf(e) => NotAndFacts(lib, e);
    case OrNode(l, r) =>
      NotOrFacts(lib, l);
      SquareOfSum(OrWeight(l), AndWeight(r), OrWeight(NotOr(l)));
      assert [NotOp] + OrTokens(lib, l) + [OrOp] + AndTokens(lib, r)
          == [NotOp] + (OrTokens(lib, l) + [OrOp] + AndTokens(lib, r));
  }

  lemma TimesKeepsOrder(x: nat, y: nat, z: nat)
    requires x < y && z >= 2
    ensures Times(x, z) < Times(y, z) && Times(z, x) < Times(z, y)
  {
    ProductsKeepOrder(x, y, z);
  }

  lemma SquaresKeepOrder(x: nat, y: nat)
    requires x < y
    ensures Times(x, x) < Times(y, y)
  {
    ProductsKeepOrder(x, y, x);
    ProductsKeepOrder(x, y, y);
  }

  /** What leaving out the pair leaves of a tree: a tree that weighs less. */
  ghost predicate Lighter(lib: Library, u: OrTree, tokens: seq<TokenKind>, i: int, j: int, weight: nat) {
    0 <= i < j < |tokens| && TypedOr(lib, u) && OrTokens(lib, u) == Without(tokens, i, j) && OrWeight(u) < weight
  }

  lemma {:induction false} DropInOr(lib: Library, t: OrTree, i: int, j: int) returns (u: OrTree)
    requires TypedOr(lib, t) && SparingOr(t) && PairOr(lib, t, i, j)
    ensures Lighter(lib, u, OrTokens(lib, t), i, j, OrWeight(t))
    decreases t, 1
  {
    hide Without, AndTokens, AndWeight, SparingAnd;
    match t
    case OrLeaf(e) => u := DropInAnd(lib, e, i, j);
    case OrNode(l, r) =>
      var before, n := OrTokens(lib, l), |OrTokens(lib, l)| + 1;
      if PairOr(lib, l, i, j) {
        var v := DropInOr(lib, l, i, j);
        u := OrNode(v, r);
        WithoutInFront(before, [OrOp] + AndTokens(lib, r), i, j);
        assert before + [OrOp] + AndTokens(lib, r) == before + ([OrOp] + AndTokens(lib, r));
        assert OrTokens(lib, v) + [OrOp] + AndTokens(lib, r) == OrTokens(lib, v) + ([OrOp] + AndTokens(lib, r));
      } else {
        var v := DropInAnd(lib, r, i - n, j - n);
        u := JoinOr(l, v);
        JoinOrDenotes(lib, l, v);
        JoinOrWeighs(l, v);
        WithoutBehind(before + [OrOp], AndTokens(lib, r), i - n, j - n);
      }
  }

  lemma {:induction false} DropInAnd(lib: Library, t: AndTree, i: int, j: int) returns (u: OrTree)
    requires TypedAnd(lib, t) && SparingAnd(t) && PairAnd(lib, t, i, j)
    ensures Lighter(lib, u, AndTokens(lib, t), i, j, AndWeight(t))
    decreases t, 1
  {
    match t
    case AndLeaf(e) => u := DropInNot(lib, e, i, j);
    case AndNode(l, r) => u := DropInChain(lib, t, i, j);
  }

  function Inside(lib: Library, t: NotTree): (e: OrTree)
    requires TypedNot(lib, t) && IsParens(t)
    ensures TypedOr(lib, e)
  {
    assert TypedPrimary(lib, t.only);
    t.only.inner
  }

  /** A pair around a whole operand: what it held is left, weighing as much. */
  predicate WholePair(lib: Library, t: NotTree, i: int, j: int)
    requires TypedNot(lib, t)
  {
    IsParens(t) && i == 0 && j == |OrTokens(lib, Inside(lib, t))| + 1
  }

  lemma WholePairLeaves(lib: Library, t: NotTree, i: int, j: int)
    requires TypedNot(lib, t) && WholePair(lib, t, i, j)
    ensures 0 <= i < j < |NotTokens(lib, t)|
    ensures Without(NotTokens(lib, t), i, j) == OrTokens(lib, Inside(lib, t))
    ensures NotWeight(t) == OrWeight(Inside(lib, t))
  {
    hide OrTokens;
    assert NotTokens(lib, t) == [LeftParen] + OrTokens(lib, Inside(lib, t)) + [RightParen];
  }

  /** An operand without one of its pairs; the weight may stay only when the
      pair was around a whole `or`. */
  lemma DropInOperand(lib: Library, t: NotTree, i: int, j: int) returns (u: OrTree)
    requires TypedNot(lib, t) && SparingOperand(t) && PairNot(lib, t, i, j)
    ensures 0 <= i < j < |NotTokens(lib, t)| && TypedOr(lib, u) && OrTokens(lib, u) == Without(NotTokens(lib, t), i, j)
    ensures OrWeight(u) < NotWeight(t) || (u.OrNode? && OrWeight(u) == NotWeight(t))
    decreases t, 2
  {
    PairNotInRange(lib, t, i, j);
    if WholePair(lib, t, i, j) {
      WholePairLeaves(lib, t, i, j);
      u := Inside(lib, t);
    } else {
      u := DropInNot(lib, t, i, j);
    }
  }

  lemma {:induction false} DropInChain(lib: Library, t: AndTree, i: int, j: int) returns (u: OrTree)
    requires TypedAnd(lib, t) && t.AndNode? && SparingChain(t) && PairAnd(lib, t, i, j)
    ensures Lighter(lib, u, AndTokens(lib, t), i, j, AndWeight(t))
    decreases t, 0
  {
    hide Times, Without;
    var l, r := t.left, t.right;
    var before, after, n := AndTokens(lib, l), [AndOp] + NotTokens(lib, r), |AndTokens(lib, l)| + 1;
    assert before + [AndOp] + NotTokens(lib, r) == before + after;
    if PairAnd(lib, l, i, j) {
      var v;
      if l.AndLeaf? {
        v := DropInOperand(lib, l.only, i, j);
      } else {
        v := DropInChain(lib, l, i, j);
      }
      u := AndAfter(v, r);
      AndAfterFacts(lib, v, r);
      if OrWeight(v) < AndWeight(l) {
        TimesKeepsOrder(OrWeight(v), AndWeight(l), NotWeight(r));
      }
      WithoutInFront(before, after, i, j);
      assert OrTokens(lib, v) + [AndOp] + NotTokens(lib, r) == OrTokens(lib, v) + after;
    } else {
      var v := DropInOperand(lib, r, i - n, j - n);
      u := AndBefore(l, v);
      AndBeforeFacts(lib, l, v);
      if OrWeight(v) < NotWeight(r) {
        TimesKeepsOrder(OrWeight(v), NotWeight(r), AndWeight(l));
      }
      WithoutBehind(before + [AndOp], NotTokens(lib, r), i - n, j - n);
    }
  }

  lemma ParenthesisedFacts(lib: Library, e: OrTree)
    requires TypedOr(lib, e)
    ensures var u := OrLeaf(AndLeaf(NotLeaf(Parens(e))));
      TypedOr(lib, u) && OrTokens(lib, u) == [LeftParen] + OrTokens(lib, e) + [RightParen] && OrWeight(u) == OrWeight(e)
  {
    var p := Parens(e);
    assert TypedPrimary(lib, p) && TypedNot(lib, NotLeaf(p)) && TypedAnd(lib, AndLeaf(NotLeaf(p)));
    assert PrimaryTokens(lib, p) == [LeftParen] + OrTokens(lib, e) + [RightParen];
    assert NotTokens(lib, NotLeaf(p)) == PrimaryTokens(lib, p);
    assert AndTokens(lib, AndLeaf(NotLeaf(p))) == PrimaryTokens(lib, p);
    assert AndWeight(AndLeaf(NotLeaf(p))) == OrWeight(e);
  }

  lemma {:induction false} DropInNot(lib: Library, t: NotTree, i: int, j: int) returns (u: OrTree)
    requires TypedNot(lib, t) && SparingNot(t) && PairNot(lib, t, i, j) && !WholePair(lib, t, i, j)
    ensures Lighter(lib, u, NotTokens(lib, t), i, j, NotWeight(t))
    decreases t, 1
  {
    hide Times, Without;
    match t
    case NotLeaf(Parens(e)) =>
      var v := DropInOr(lib, e, i - 1, j - 1);
      u := OrLeaf(AndLeaf(NotLeaf(Parens(v))));
      ParenthesisedFacts(lib, v);
      assert TypedPrimary(lib, t.only);
      WithoutInFront(OrTokens(lib, e), [RightParen], i - 1, j - 1);
      WithoutBehind([LeftParen], OrTokens(lib, e) + [RightParen], i - 1, j - 1);
      assert [LeftParen] + OrTokens(lib, e) + [RightParen] == [LeftParen] + (OrTokens(lib, e) + [RightParen]);
      assert [LeftParen] + OrTokens(lib, v) + [RightParen] == [LeftParen] + (OrTokens(lib, v) + [RightParen]);
    case NotNode(e) =>
      PairNotInRange(lib, e, i - 1, j - 1);
      var v;
      if WholePair(lib, e, i - 1, j - 1) {
        WholePairLeaves(lib, e, i - 1, j - 1);
        v := Inside(lib, e);
      } else {
        v := DropInNot(lib, e, i - 1, j - 1);
        SquaresKeepOrder(OrWeight(v), NotWeight(e));
      }
      u := NotOr(v);
      NotOrFacts(lib, v);
      WithoutBehind([NotOp], NotTokens(lib, e), i - 1, j - 1);
  }

  // ----- main result -----

  /** Leaving out any two printed parentheses that match gives tokens that
      parse, but to an expression that differs from the one printed by more than
      how operators associate. */
  lemma EveryPairIsNeeded(lib: Library, spell: IpSpelling, e: Expr, i: int, j: int, ts: TokenList)
    requires Faithful(lib, spell) && WellTyped(lib, e) && Ended(ts)
    requires TypedOr(lib, OrTreeOf(spell, e)) && Matching(OrTokens(lib, OrTreeOf(spell, e)), i, j)
    ensures Kinds(ts) == Without(OrTokens(lib, OrTreeOf(spell, e)), i, j) + [End] ==>
      ParseAll(lib, ts).Ok? && !SameUpToAssociativity(ParseAll(lib, ts).value, e)
  {
    hide Faithful, OrTokens, ParseAll, OrTreeOf, OrOf, Without, SameUpToAssociativity, WellTyped;
    var t := OrTreeOf(spell, e);
    PairsAreMatching(lib, t, i, j);
    PrintedOrIsSparing(spell, e);
    OrTreeDenotes(lib, spell, e);
    var u := DropInOr(lib, t, i, j);
    if Kinds(ts) == Without(OrTokens(lib, t), i, j) + [End] {
      ParserComplete(lib, u, ts);
      OrWeighs(lib, u);
      OrWeighs(lib, t);
      SameWeight(OrOf(lib, t), e);
      if SameUpToAssociativity(OrOf(lib, u), e) {
        SameWeight(OrOf(lib, u), e);
      }
    }
  }
}

/** Printing an expression with as few parentheses as precedence allows, and
    the proof that parsing the print gives it back up to associativity. */
module FilterPrinter {
  import opened Options
  import opened Bytes
  import opened Endpoints
  import opened FilterSyntax
  import opened FilterLexer
  import opened FilterParser
  import opened FilterGrammar
  import Rows

  /** How addresses are spelled: a plain word that reads back as the address. */
  type IpSpelling = IpAddr -> string

  /** A word that lexes as itself and nothing else. */
  predicate PlainWord(w: string) {
    w != "" && WordLength(w) == |w| && KindOfWord(w) == Word(w) && w[0] != '"' && !("r\"" <= w)
  }

  ghost predicate Faithful(lib: Library, spell: IpSpelling) {
    forall ip :: lib.parseIp(spell(ip)) == Some(ip) && PlainWord(spell(ip))
  }

  // ----- well-typed expressions -----

  predicate TypedValue(field: Field, value: Value) {
    match value
    case Ip(_) => field.ClientIp?
    case Port(port) => field.ClientPort?
    case Text(_) => IsText(field)
    case Way(_) => field.Direction?
  }

  predicate TypedComparison(lib: Library, field: Field, c: Comparison) {
    match c
    case Equal(value) => TypedValue(field, value)
    case NotEqual(value) => TypedValue(field, value)
    case Contains(_) => IsText(field)
    case Matches(pattern) => IsText(field) && lib.compiles(pattern)
    case In(values) => values != [] && forall i :: 0 <= i < |values| ==> TypedValue(field, values[i])
  }

  predicate WellTyped(lib: Library, e: Expr) {
    match e
    case Test(p) => TypedComparison(lib, p.field, p.comparison)
    case And(l, r) => WellTyped(lib, l) && WellTyped(lib, r)
    case Or(l, r) => WellTyped(lib, l) && WellTyped(lib, r)
    case Not(e) => WellTyped(lib, e)
  }

  // ----- values -----

  function LiteralOf(spell: IpSpelling, value: Value): TokenKind {
    match value
    case Ip(ip) => Word(spell(ip))
    case Port(port) => Word(Rows.Decimal(port))
    case Text(text) => Str(text)
    case Way(FrontendToBackend) => Str("f2b")
    case Way(BackendToFrontend) => Str("b2f")
  }

  lemma {:induction false} DecimalReadsBack(n: nat)
    ensures Rows.Decimal(n) != "" && AllDigits(Rows.Decimal(n)) && DecimalValue(Rows.Decimal(n)) == n
  {
    if n >= 10 {
      DecimalReadsBack(n / 10);
      var s := Rows.Decimal(n);
      assert s[..|s| - 1] == Rows.Decimal(n / 10);
    }
  }

  lemma PortReadsBack(port: u16)
    ensures ParsePort(Rows.Decimal(port)) == Some(port)
  {
    DecimalReadsBack(port);
  }

  lemma LiteralReadsBack(lib: Library, spell: IpSpelling, field: Field, value: Value)
    requires Faithful(lib, spell) && TypedValue(field, value)
    ensures ReadValue(lib, field, LiteralOf(spell, value)) == Read(value)
  {
    match value
    case Ip(ip) =>
      assert lib.parseIp(spell(ip)) == Some(ip);
    case Port(port) =>
      PortReadsBack(port);
    case Text(_) =>
    case Way(d) =>
      assert Lower("f2b") == "f2b" && Lower("b2f") == "b2f";
      assert Lower("b2f")[0] != "f2b"[0];
  }

  // ----- trees -----

  function Literals(spell: IpSpelling, values: seq<Value>): seq<TokenKind> {
    seq(|values|, i requires 0 <= i < |values| => LiteralOf(spell, values[i]))
  }

  function PredicateTreeOf(spell: IpSpelling, p: Predicate): PredicateTree {
    match p.comparison
    case Equal(value) => Compare(p.field, false, LiteralOf(spell, value))
    case NotEqual(value) => Compare(p.field, true, LiteralOf(spell, value))
    case Contains(needle) => Search(p.field, needle)
    case Matches(pattern) => Regex(p.field, pattern)
    case In(values) => Member(p.field, Literals(spell, values))
  }

  function JoinOr(a: OrTree, b: OrTree): OrTree {
    match b
    case OrLeaf(e) => OrNode(a, e)
    case OrNode(l, r) => OrNode(JoinOr(a, l), r)
  }

  function JoinAnd(a: AndTree, b: AndTree): AndTree {
    match b
    case AndLeaf(e) => AndNode(a, e)
    case AndNode(l, r) => AndNode(JoinAnd(a, l), r)
  }

  predicate Binary(e: Expr) {
    e.And? || e.Or?
  }

  function OrTreeOf(spell: IpSpelling, e: Expr): OrTree
    decreases e, if Binary(e) then 2 else 3
  {
    if e.Or? then JoinOr(OrTreeOf(spell, e.left), OrTreeOf(spell, e.right)) else OrLeaf(AndTreeOf(spell, e))
  }

  function AndTreeOf(spell: IpSpelling, e: Expr): AndTree
    decreases e, if e.Or? then 4 else if e.And? then 1 else 2
  {
    if e.And? then JoinAnd(AndTreeOf(spell, e.left), AndTreeOf(spell, e.right)) else AndLeaf(NotTreeOf(spell, e))
  }

  function NotTreeOf(spell: IpSpelling, e: Expr): NotTree
    decreases e, if Binary(e) then 3 else 1
  {
    match e
    case Not(inner) => NotNode(NotTreeOf(spell, inner))
    case Test(p) => NotLeaf(Leaf(PredicateTreeOf(spell, p)))
    case _ => NotLeaf(Parens(OrTreeOf(spell, e)))
  }

  // ----- the trees are typed and denote the expression up to associativity -----

  /** An expression with nested `and`s and `or`s spread into lists. */
  datatype Flat =
    | FlatTest(test: Predicate)
    | FlatNot(inner: Flat)
    | FlatAnd(parts: seq<Flat>)
    | FlatOr(parts: seq<Flat>)

  function AndParts(e: Expr): seq<Flat>
    decreases e, 1
  {
    if e.And? then AndParts(e.left) + AndParts(e.right) else [Flatten(e)]
  }

  function OrParts(e: Expr): seq<Flat>
    decreases e, 1
  {
    if e.Or? then OrParts(e.left) + OrParts(e.right) else [Flatten(e)]
  }

  function Flatten(e: Expr): Flat
    decreases e, 0
  {
    match e
    case Test(p) => FlatTest(p)
    case Not(inner) => FlatNot(Flatten(inner))
    case And(l, r) => FlatAnd(AndParts(l) + AndParts(r))
    case Or(l, r) => FlatOr(OrParts(l) + OrParts(r))
  }

  lemma PredicateTreeIsRight(lib: Library, spell: IpSpelling, p: Predicate)
    requires Faithful(lib, spell) && TypedComparison(lib, p.field, p.comparison)
    ensures TypedPredicate(lib, PredicateTreeOf(spell, p)) && PredicateOf(lib, PredicateTreeOf(spell, p)) == p
  {
    hide ReadValue, LiteralOf, Faithful;
    match p.comparison
    case Equal(value) => LiteralReadsBack(lib, spell, p.field, value);
    case NotEqual(value) => LiteralReadsBack(lib, spell, p.field, value);
    case Contains(_) =>
    case Matches(_) =>
    case In(values) =>
      var literals := Literals(spell, values);
      forall i | 0 <= i < |values|
        ensures ReadValue(lib, p.field, literals[i]) == Read(values[i])
      {
        LiteralReadsBack(lib, spell, p.field, values[i]);
      }
      assert ValuesOf(lib, p.field, literals) == values;
  }

  lemma {:induction false} JoinAndDenotes(lib: Library, a: AndTree, b: AndTree)
    requires TypedAnd(lib, a) && TypedAnd(lib, b)
    ensures TypedAnd(lib, JoinAnd(a, b))
    ensures AndOf(lib, JoinAnd(a, b)).And?
    ensures AndParts(AndOf(lib, JoinAnd(a, b))) == AndParts(AndOf(lib, a)) + AndParts(AndOf(lib, b))
    ensures AndTokens(lib, JoinAnd(a, b)) == AndTokens(lib, a) + [AndOp] + AndTokens(lib, b)
  {
    match b
    case AndLeaf(e) =>
    case AndNode(l, r) =>
      JoinAndDenotes(lib, a, l);
      assert AndTokens(lib, JoinAnd(a, b)) == AndTokens(lib, a) + [AndOp] + AndTokens(lib, b);
  }

  lemma {:induction false} JoinOrDenotes(lib: Library, a: OrTree, b: OrTree)
    requires TypedOr(lib, a) && TypedOr(lib, b)
    ensures TypedOr(lib, JoinOr(a, b))
    ensures OrOf(lib, JoinOr(a, b)).Or?
    ensures OrParts(OrOf(lib, JoinOr(a, b))) == OrParts(OrOf(lib, a)) + OrParts(OrOf(lib, b))
    ensures OrTokens(lib, JoinOr(a, b)) == OrTokens(lib, a) + [OrOp] + OrTokens(lib, b)
  {
    match b
    case OrLeaf(e) =>
    case OrNode(l, r) =>
      JoinOrDenotes(lib, a, l);
      assert OrTokens(lib, JoinOr(a, b)) == OrTokens(lib, a) + [OrOp] + OrTokens(lib, b);
  }

  /** Same shape at the top and the same flattened form. */
  ghost predicate SameUpToAssociativity(a: Expr, b: Expr) {
    Flatten(a) == Flatten(b)
  }

  lemma SameParts(a: Expr, b: Expr)
    requires SameUpToAssociativity(a, b)
    ensures AndParts(a) == AndParts(b) && OrParts(a) == OrParts(b)
  {
  }

  lemma {:induction false} OrTreeDenotes(lib: Library, spell: IpSpelling, e: Expr)
    requires Faithful(lib, spell) && WellTyped(lib, e)
    ensures TypedOr(lib, OrTreeOf(spell, e)) && SameUpToAssociativity(OrOf(lib, OrTreeOf(spell, e)), e)
    decreases e, if Binary(e) then 2 else 3
  {
    hide Faithful, AndTreeOf, AndOf;
    if e.Or? {
      OrTreeDenotes(lib, spell, e.left);
      OrTreeDenotes(lib, spell, e.right);
      SameParts(OrOf(lib, OrTreeOf(spell, e.left)), e.left);
      SameParts(OrOf(lib, OrTreeOf(spell, e.right)), e.right);
      JoinOrDenotes(lib, OrTreeOf(spell, e.left), OrTreeOf(spell, e.right));
    } else {
      AndTreeDenotes(lib, spell, e);
    }
  }

  lemma {:induction false} AndTreeDenotes(lib: Library, spell: IpSpelling, e: Expr)
    requires Faithful(lib, spell) && WellTyped(lib, e)
    ensures TypedAnd(lib, AndTreeOf(spell, e)) && SameUpToAssociativity(AndOf(lib, AndTreeOf(spell, e)), e)
    decreases e, if e.Or? then 4 else if e.And? then 1 else 2
  {
    hide Faithful, NotTreeOf, NotOf;
    if e.And? {
      AndTreeDenotes(lib, spell, e.left);
      AndTreeDenotes(lib, spell, e.right);
      SameParts(AndOf(lib, AndTreeOf(spell, e.left)), e.left);
      SameParts(AndOf(lib, AndTreeOf(spell, e.right)), e.right);
      JoinAndDenotes(lib, AndTreeOf(spell, e.left), AndTreeOf(spell, e.right));
    } else {
      NotTreeDenotes(lib, spell, e);
    }
  }

  lemma {:induction false} NotTreeDenotes(lib: Library, spell: IpSpelling, e: Expr)
    requires Faithful(lib, spell) && WellTyped(lib, e)
    ensures TypedNot(lib, NotTreeOf(spell, e)) && SameUpToAssociativity(NotOf(lib, NotTreeOf(spell, e)), e)
    decreases e, if Binary(e) then 3 else 1
  {
    hide Faithful, OrTreeOf, OrOf, TypedPredicate, PredicateOf;
    match e
    case Not(inner) => NotTreeDenotes(lib, spell, inner);
    case Test(p) => PredicateTreeIsRight(lib, spell, p);
    case And(_, _) => OrTreeDenotes(lib, spell, e);
    case Or(_, _) => OrTreeDenotes(lib, spell, e);
  }

  // ----- meaning -----

  predicate FlatMatches(lib: Library, f: Flat, m: DisplayMessage) {
    match f
    case FlatTest(p) => PredicateMatches(lib, p, m)
    case FlatNot(inner) => !FlatMatches(lib, inner, m)
    case FlatAnd(parts) => forall i :: 0 <= i < |parts| ==> FlatMatches(lib, parts[i], m)
    case FlatOr(parts) => exists i :: 0 <= i < |parts| && FlatMatches(lib, parts[i], m)
  }

  lemma {:induction false} FlattenKeepsMeaning(lib: Library, e: Expr, m: DisplayMessage)
    ensures FlatMatches(lib, Flatten(e), m) == ExprMatches(lib, e, m)
    decreases e, 0
  {
    hide PredicateMatches;
    match e
    case Test(p) =>
    case Not(inner) => FlattenKeepsMeaning(lib, inner, m);
    case And(l, r) =>
      AndPartsKeepMeaning(lib, l, m);
      AndPartsKeepMeaning(lib, r, m);
      AllConcat(lib, AndParts(l), AndParts(r), m);
    case Or(l, r) =>
      OrPartsKeepMeaning(lib, l, m);
      OrPartsKeepMeaning(lib, r, m);
      AnyConcat(lib, OrParts(l), OrParts(r), m);
  }

  predicate All(lib: Library, parts: seq<Flat>, m: DisplayMessage) {
    forall i :: 0 <= i < |parts| ==> FlatMatches(lib, parts[i], m)
  }

  predicate Any(lib: Library, parts: seq<Flat>, m: DisplayMessage) {
    exists i :: 0 <= i < |parts| && FlatMatches(lib, parts[i], m)
  }

  lemma AllConcat(lib: Library, a: seq<Flat>, b: seq<Flat>, m: DisplayMessage)
    ensures All(lib, a + b, m) == (All(lib, a, m) && All(lib, b, m))
  {
    hide FlatMatches;
    assert forall i :: 0 <= i < |b| ==> (a + b)[|a| + i] == b[i];
    assert forall i :: 0 <= i < |a| ==> (a + b)[i] == a[i];
  }

  lemma AnyConcat(lib: Library, a: seq<Flat>, b: seq<Flat>, m: DisplayMessage)
    ensures Any(lib, a + b, m) == (Any(lib, a, m) || Any(lib, b, m))
  {
    hide FlatMatches;
    assert forall i :: 0 <= i < |b| ==> (a + b)[|a| + i] == b[i];
    assert forall i :: 0 <= i < |a| ==> (a + b)[i] == a[i];
  }

  lemma {:induction false} AndPartsKeepMeaning(lib: Library, e: Expr, m: DisplayMessage)
    ensures All(lib, AndParts(e), m) == ExprMatches(lib, e, m)
    decreases e, 1
  {
    hide FlatMatches;
    if e.And? {
      AndPartsKeepMeaning(lib, e.left, m);
      AndPartsKeepMeaning(lib, e.right, m);
      AllConcat(lib, AndParts(e.left), AndParts(e.right), m);
    } else {
      FlattenKeepsMeaning(lib, e, m);
      assert AndParts(e)[0] == Flatten(e);
    }
  }

  lemma {:induction false} OrPartsKeepMeaning(lib: Library, e: Expr, m: DisplayMessage)
    ensures Any(lib, OrParts(e), m) == ExprMatches(lib, e, m)
    decreases e, 1
  {
    hide FlatMatches;
    if e.Or? {
      OrPartsKeepMeaning(lib, e.left, m);
      OrPartsKeepMeaning(lib, e.right, m);
      AnyConcat(lib, OrParts(e.left), OrParts(e.right), m);
    } else {
      FlattenKeepsMeaning(lib, e, m);
      assert OrParts(e)[0] == Flatten(e);
    }
  }

  /** Expressions equal up to associativity give the same verdict on every message. */
  lemma SameVerdict(lib: Library, a: Expr, b: Expr, m: DisplayMessage)
    requires SameUpToAssociativity(a, b)
    ensures ExprMatches(lib, a, m) == ExprMatches(lib, b, m)
  {
    FlattenKeepsMeaning(lib, a, m);
    FlattenKeepsMeaning(lib, b, m);
  }
}

/** The display filter: typed expressions over decoded messages, and what they mean. */
module FilterSyntax {
  import opened Options
  import opened Bytes
  import opened Endpoints

  datatype MessageDirection = FrontendToBackend | BackendToFrontend

  datatype DisplayMessage = DisplayMessage(
    timestamp: string,
    rendered: string,
    client: Endpoint,
    direction: MessageDirection,
    kind: string,
    text: string)

  /** The library calls the filter relies on. */
  datatype Library = Library(
    parseIp: string -> Option<IpAddr>,
    compiles: string -> bool,
    isMatch: (string, string) -> bool)

  datatype Field = ClientIp | ClientPort | MessageType | MessageText | Direction

  datatype Value = Ip(ip: IpAddr) | Port(port: u16) | Text(text: string) | Way(direction: MessageDirection)

  datatype Comparison =
    | Equal(value: Value)
    | NotEqual(value: Value)
    | Contains(needle: string)
    | Matches(pattern: string)
    | In(values: seq<Value>)

  datatype Predicate = Predicate(field: Field, comparison: Comparison)

  datatype Expr =
    | Test(test: Predicate)
    | And(left: Expr, right: Expr)
    | Or(left: Expr, right: Expr)
    | Not(inner: Expr)

  predicate IsText(field: Field) {
    field.MessageType? || field.MessageText?
  }

  predicate FieldEquals(field: Field, value: Value, m: DisplayMessage) {
    match (field, value)
    case (ClientIp, Ip(ip)) => m.client.ip == ip
    case (ClientPort, Port(port)) => m.client.port == port
    case (MessageType, Text(text)) => m.kind == text
    case (MessageText, Text(text)) => m.text == text
    case (Direction, Way(direction)) => m.direction == direction
    case _ => false
  }

  function FieldText(field: Field, m: DisplayMessage): Option<string> {
    match field
    case MessageType => Some(m.kind)
    case MessageText => Some(m.text)
    case _ => None
  }

  predicate HasSubstring(text: string, needle: string) {
    exists i :: 0 <= i <= |text| && needle <= text[i..]
  }

  predicate PredicateMatches(lib: Library, p: Predicate, m: DisplayMessage) {
    match p.comparison
    case Equal(value) => FieldEquals(p.field, value, m)
    case NotEqual(value) => !FieldEquals(p.field, value, m)
    case Contains(needle) => FieldText(p.field, m).Some? && HasSubstring(FieldText(p.field, m).value, needle)
    case Matches(pattern) => FieldText(p.field, m).Some? && lib.isMatch(pattern, FieldText(p.field, m).value)
    case In(values) => exists i :: 0 <= i < |values| && FieldEquals(p.field, values[i], m)
  }

  predicate ExprMatches(lib: Library, e: Expr, m: DisplayMessage) {
    match e
    case Test(p) => PredicateMatches(lib, p, m)
    case And(l, r) => ExprMatches(lib, l, m) && ExprMatches(lib, r, m)
    case Or(l, r) => ExprMatches(lib, l, m) || ExprMatches(lib, r, m)
    case Not(e) => !ExprMatches(lib, e, m)
  }

  /** A compiled filter: none at all matches everything. */
  datatype DisplayFilter = DisplayFilter(expression: string, root: Option<Expr>)

  const NO_FILTER := DisplayFilter("", None)

  predicate FilterMatches(lib: Library, f: DisplayFilter, m: DisplayMessage) {
    f.root.None? || ExprMatches(lib, f.root.value, m)
  }

  // ----- errors -----

  datatype ErrorKind =
    | UnexpectedOperator
    | UnterminatedString
    | UnsupportedEscape
    | ExpectedOperatorOrEnd
    | ExpectedCloseParen
    | ExpectedField
    | UnknownField
    | ExpectedOperator
    | OperatorNotValid
    | RequiresString
    | InvalidRegex
    | ExpectedOpenBrace
    | EmptySet
    | ExpectedValueAfterComma
    | ExpectedCommaOrBrace
    | RequiresIp
    | InvalidIp
    | RequiresPort
    | InvalidPort
    | InvalidDirection

  /** What went wrong and at which character of the trimmed expression. */
  datatype FilterError = FilterError(kind: ErrorKind, position: nat)

  // ----- field names, ports and directions -----

  function FieldNamed(name: string): Option<Field> {
    if name == "client.ip" then Some(ClientIp)
    else if name == "client.port" then Some(ClientPort)
    else if name == "message.type" then Some(MessageType)
    else if name == "message.text" then Some(MessageText)
    else if name == "message.direction" then Some(Direction)
    else None
  }

  function NameOf(field: Field): (name: string)
    ensures FieldNamed(name) == Some(field)
  {
    match field
    case ClientIp => "client.ip"
    case ClientPort => "client.port"
    case MessageType => "message.type"
    case MessageText => "message.text"
    case Direction => "message.direction"
  }

  function LowerChar(c: char): char {
    if 'A' <= c <= 'Z' then c + 32 as char else c
  }

  function Lower(s: string): (r: string)
    ensures |r| == |s|
  {
    seq(|s|, i requires 0 <= i < |s| => LowerChar(s[i]))
  }

  /** `eq_ignore_ascii_case` against a lower-case word. */
  predicate EqIgnoreCase(s: string, word: string) {
    Lower(s) == word
  }

  function DirectionNamed(s: string): Option<MessageDirection> {
    if EqIgnoreCase(s, "f2b") || s == "F\U{2192}B" then Some(FrontendToBackend)
    else if EqIgnoreCase(s, "b2f") || s == "B\U{2192}F" then Some(BackendToFrontend)
    else None
  }

  predicate IsDigit(c: char) {
    '0' <= c <= '9'
  }

  predicate AllDigits(s: string) {
    forall i :: 0 <= i < |s| ==> IsDigit(s[i])
  }

  function DecimalValue(s: string): nat
    requires AllDigits(s)
  {
    if s == "" then 0 else 10 * DecimalValue(s[..|s| - 1]) + (s[|s| - 1] - '0') as nat
  }

  /** `str::parse::<u16>`: an optional plus sign and at least one digit. */
  function ParsePort(s: string): Option<u16> {
    var digits := if s != "" && s[0] == '+' then s[1..] else s;
    if digits == "" || !AllDigits(digits) || DecimalValue(digits) > 65535 then None
    else Some(DecimalValue(digits))
  }
}

/** The contracts asked of libraries can be met: one library of each kind. */
module LibraryContracts {
  import opened Options
  import opened Bytes
  import opened Endpoints
  import opened FilterSyntax
  import opened FilterPrinter
  import opened FilterRoundTrip
  import opened Sessions
  import FilterCompile
  import FilterLexer
  import Rows

  // ----- addresses -----

  function SpellIp(ip: IpAddr): string {
    match ip
    case V4(quad) => "4" + Rows.Hex(quad)
    case V6(octets) => "6" + Rows.Hex(octets)
  }

  lemma SpellIpIsInjective(a: IpAddr, b: IpAddr)
    requires SpellIp(a) == SpellIp(b)
    ensures a == b
  {
    var s := SpellIp(a);
    var x, y := if a.V4? then a.quad else a.octets, if b.V4? then b.quad else b.octets;
    assert s[0] == (if a.V4? then '4' else '6') && s[0] == (if b.V4? then '4' else '6');
    assert s[1..] == Rows.Hex(x) && s[1..] == Rows.Hex(y);
    Rows.HexIsInjective(x, y);
  }

  predicate HexDigits(s: string) {
    forall i :: 0 <= i < |s| ==> IsDigit(s[i]) || 'a' <= s[i] <= 'f'
  }

  lemma {:induction false} HexIsDigits(b: seq<byte>)
    ensures HexDigits(Rows.Hex(b))
  {
    if b != [] {
      HexIsDigits(b[1..]);
    }
  }

  lemma SpellIpIsPlain(ip: IpAddr)
    ensures PlainWord(SpellIp(ip))
  {
    hide FilterLexer.KindOfWord, Rows.Hex;
    var s := SpellIp(ip);
    HexIsDigits(if ip.V4? then ip.quad else ip.octets);
    assert HexDigits(s);
    IsAllWord(s);
    NotAKeyword(s);
  }

  ghost function ReadIp(s: string): Option<IpAddr> {
    if exists ip :: SpellIp(ip) == s then
      var ip :| SpellIp(ip) == s;
      Some(ip)
    else None
  }

  /** Some address library and spelling satisfy the filter round trip's hypothesis. */
  lemma FaithfulCanBeMet() returns (lib: Library, spell: IpSpelling)
    ensures Faithful(lib, spell)
  {
    hide SpellIp, PlainWord;
    lib, spell := Library(s => ReadIp(s), _ => true, (_, _) => true), ip => SpellIp(ip);
    forall ip ensures lib.parseIp(spell(ip)) == Some(ip) && PlainWord(spell(ip)) {
      SpellIpIsPlain(ip);
      var back := ReadIp(SpellIp(ip));
      assert SpellIp(back.value) == SpellIp(ip);
      SpellIpIsInjective(back.value, ip);
    }
  }

  // ----- records -----

  /** Tokens one after the other, each up to its own quote. */
  function Join(tokens: seq<string>): string {
    if tokens == [] then "" else Escape(tokens[0]) + "\"" + Join(tokens[1..])
  }

  lemma {:induction false} JoinIsInjective(a: seq<string>, b: seq<string>)
    requires Join(a) == Join(b)
    ensures a == b
  {
    hide Escape, FilterLexer.LexBody;
    if a != [] && b != [] {
      LiteralInvertsEscape(a[0], Join(a[1..]), 0, 0);
      LiteralInvertsEscape(b[0], Join(b[1..]), 0, 0);
      assert Join(a) == Escape(a[0]) + "\"" + Join(a[1..]) == Escape(b[0]) + "\"" + Join(b[1..]);
      var n := |Escape(a[0])| + 1;
      assert Join(a)[n..] == Join(a[1..]) && Join(b)[n..] == Join(b[1..]);
      JoinIsInjective(a[1..], b[1..]);
      assert a == [a[0]] + a[1..] && b == [b[0]] + b[1..];
    }
  }

  function FieldTokens(fields: seq<StoredField>): seq<string> {
    if fields == [] then []
    else
      [fields[0].name, Rows.Decimal(fields[0].typeOid), Rows.Decimal(fields[0].formatCode + 0x8000)]
        + FieldTokens(fields[1..])
  }

  lemma {:induction false} FieldTokensAreInjective(a: seq<StoredField>, b: seq<StoredField>)
    requires FieldTokens(a) == FieldTokens(b)
    ensures a == b
  {
    hide Rows.Decimal;
    if a != [] && b != [] {
      var s := FieldTokens(a);
      assert s[0] == a[0].name == b[0].name;
      assert s[1] == Rows.Decimal(a[0].typeOid) == Rows.Decimal(b[0].typeOid);
      assert s[2] == Rows.Decimal(a[0].formatCode + 0x8000) == Rows.Decimal(b[0].formatCode + 0x8000);
      Rows.DecimalIsInjective(a[0].typeOid, b[0].typeOid);
      Rows.DecimalIsInjective(a[0].formatCode + 0x8000, b[0].formatCode + 0x8000);
      assert s[3..] == FieldTokens(a[1..]) == FieldTokens(b[1..]);
      FieldTokensAreInjective(a[1..], b[1..]);
      assert a == [a[0]] + a[1..] && b == [b[0]] + b[1..];
    }
  }

  function ColumnTokens(columns: seq<StoredColumn>): seq<string> {
    if columns == [] then []
    else [columns[0].name, Rows.Decimal(columns[0].typeOid), columns[0].value] + ColumnTokens(columns[1..])
  }

  lemma {:induction false} ColumnTokensAreInjective(a: seq<StoredColumn>, b: seq<StoredColumn>)
    requires ColumnTokens(a) == ColumnTokens(b)
    ensures a == b
  {
    hide Rows.Decimal;
    if a != [] && b != [] {
      var s := ColumnTokens(a);
      assert s[0] == a[0].name == b[0].name;
      assert s[1] == Rows.Decimal(a[0].typeOid) == Rows.Decimal(b[0].typeOid);
      assert s[2] == a[0].value == b[0].value;
      Rows.DecimalIsInjective(a[0].typeOid, b[0].typeOid);
      assert s[3..] == ColumnTokens(a[1..]) == ColumnTokens(b[1..]);
      ColumnTokensAreInjective(a[1..], b[1..]);
      assert a == [a[0]] + a[1..] && b == [b[0]] + b[1..];
    }
  }

  function DetailTokens(detail: Option<StoredDetail>): seq<string> {
    match detail
    case None => []
    case Some(StoredFields(fields)) => ["f"] + FieldTokens(fields)
    case Some(StoredColumns(columns)) => ["c"] + ColumnTokens(columns)
  }

  lemma DetailTokensAreInjective(a: Option<StoredDetail>, b: Option<StoredDetail>)
    requires DetailTokens(a) == DetailTokens(b)
    ensures a == b
  {
    hide FieldTokens, ColumnTokens;
    var s, t := DetailTokens(a), DetailTokens(b);
    if s != [] {
      assert s[0] == t[0] && s[1..] == t[1..];
      if a.value.StoredFields? {
        assert s[0] == "f" && s[0][0] == 'f' && b.value.StoredFields?;
        FieldTokensAreInjective(a.value.fields, b.value.fields);
      } else {
        assert s[0] == "c" && s[0][0] == 'c' && b.value.StoredColumns?;
        ColumnTokensAreInjective(a.value.columns, b.value.columns);
      }
    }
  }

  function PayloadTokens(p: StoredPayload): seq<string> {
    match p
    case StoredMessage(direction, messageType, text, rendered, client, detail) =>
      [if direction.F2b? then "f2b" else "b2f", messageType, text, rendered, client] + DetailTokens(detail)
    case StoredLine(text) => ["line", text]
    case StoredStatus(text) => ["status", text]
  }

  lemma PayloadTokensAreInjective(a: StoredPayload, b: StoredPayload)
    requires PayloadTokens(a) == PayloadTokens(b)
    ensures a == b
  {
    hide DetailTokens;
    var s, t := PayloadTokens(a), PayloadTokens(b);
    assert s[0] == t[0] && s[1] == t[1] && s[0][0] == t[0][0];
    if a.StoredMessage? && b.StoredMessage? {
      assert s[2] == t[2] && s[3] == t[3] && s[4] == t[4];
      assert s[5..] == DetailTokens(a.detail) && t[5..] == DetailTokens(b.detail);
      DetailTokensAreInjective(a.detail, b.detail);
    }
  }

  function SpellRecord(r: StoredRecord): string {
    "\"" + Join([Rows.Decimal(r.schemaVersion), r.timestamp] + PayloadTokens(r.payload)) + "\""
  }

  lemma SpellRecordIsInjective(a: StoredRecord, b: StoredRecord)
    requires SpellRecord(a) == SpellRecord(b)
    ensures a == b
  {
    hide Join, PayloadTokens, Rows.Decimal;
    var x := [Rows.Decimal(a.schemaVersion), a.timestamp] + PayloadTokens(a.payload);
    var y := [Rows.Decimal(b.schemaVersion), b.timestamp] + PayloadTokens(b.payload);
    var s, t := SpellRecord(a), SpellRecord(b);
    assert s[1..|s| - 1] == Join(x) && t[1..|t| - 1] == Join(y);
    JoinIsInjective(x, y);
    assert x[0] == y[0] && x[1] == y[1] && x[2..] == PayloadTokens(a.payload) && y[2..] == PayloadTokens(b.payload);
    Rows.DecimalIsInjective(a.schemaVersion, b.schemaVersion);
    PayloadTokensAreInjective(a.payload, b.payload);
  }

  lemma QuotedIsNotBlank(s: string)
    ensures FilterCompile.Trim("\"" + s + "\"") != ""
  {
    var t := "\"" + s + "\"";
    assert t[0] == '"' && t[|t| - 1] == '"';
  }

  ghost function ReadRecord(s: string): Json {
    if exists r :: SpellRecord(r) == s then
      var r :| SpellRecord(r) == s;
      Versioned(r.schemaVersion, Some(r))
    else NotJson
  }

  function SpellEndpoint(e: Endpoint): string {
    Join([SpellIp(e.ip), Rows.Decimal(e.port)])
  }

  lemma SpellEndpointIsInjective(a: Endpoint, b: Endpoint)
    requires SpellEndpoint(a) == SpellEndpoint(b)
    ensures a == b
  {
    hide Join, SpellIp, Rows.Decimal;
    var x, y := [SpellIp(a.ip), Rows.Decimal(a.port)], [SpellIp(b.ip), Rows.Decimal(b.port)];
    JoinIsInjective(x, y);
    assert x[0] == y[0] && x[1] == y[1];
    SpellIpIsInjective(a.ip, b.ip);
    Rows.DecimalIsInjective(a.port, b.port);
  }

  ghost function ReadEndpoint(s: string): Option<Endpoint> {
    if exists e :: SpellEndpoint(e) == s then
      var e :| SpellEndpoint(e) == s;
      Some(e)
    else None
  }

  /** Some record and address formats satisfy the hypothesis of recording and replay. */
  lemma SoundCanBeMet() returns (f: Formats)
    ensures Sound(f)
  {
    hide SpellRecord, SpellEndpoint, FilterCompile.Trim;
    f := Formats(r => SpellRecord(r), s => ReadRecord(s), e => SpellEndpoint(e), s => ReadEndpoint(s), _ => true);
    forall r ensures f.json(f.spell(r)) == Versioned(r.schemaVersion, Some(r)) && FilterCompile.Trim(f.spell(r)) != "" {
      var back := ReadRecord(SpellRecord(r));
      assert SpellRecord(back.record.value) == SpellRecord(r);
      SpellRecordIsInjective(back.record.value, r);
      SpelledRecordIsNotBlank(r);
    }
    forall e ensures f.parseAddress(f.showAddress(e)) == Some(e) {
      var back := ReadEndpoint(SpellEndpoint(e));
      assert SpellEndpoint(back.value) == SpellEndpoint(e);
      SpellEndpointIsInjective(back.value, e);
    }
  }

  lemma SpelledRecordIsNotBlank(r: StoredRecord)
    ensures FilterCompile.Trim(SpellRecord(r)) != ""
  {
    hide Join, FilterCompile.Trim, PayloadTokens, Rows.Decimal;
    QuotedIsNotBlank(Join([Rows.Decimal(r.schemaVersion), r.timestamp] + PayloadTokens(r.payload)));
  }
}

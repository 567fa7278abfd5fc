/** Splitting a `DataRow` payload into display columns. */
module Rows {
  import opened Options
  import opened Bytes

  /** What is kept of one column of a `RowDescription`. */
  datatype FieldSummary = FieldSummary(name: string, typeOid: u32, formatCode: i16)

  datatype DataColumn = DataColumn(name: string, typeOid: u32, value: string)

  datatype FieldRead = Null | Value(bytes: seq<byte>) | Truncated

  /** One read: the field, what is left of the payload, and whether more may follow. */
  datatype Read = Read(field: FieldRead, rest: seq<byte>, more: bool)

  const FORMAT_CODE_BINARY := 1

  /** `get_i32`: big-endian two's complement. */
  function I32(a: byte, b: byte, c: byte, d: byte): int {
    var n := Be32(a, b, c, d);
    if n < 0x8000_0000 then n else n - 0x1_0000_0000
  }

  function ReadField(b: seq<byte>): Read {
    if |b| < 4 then
      Read(Truncated, b, false)
    else
      var len := I32(b[0], b[1], b[2], b[3]);
      var rest := b[4..];
      if len < 0 then Read(Null, rest, true)
      else if |rest| < len then Read(Truncated, rest, false)
      else Read(Value(rest[..len]), rest[len..], true)
  }

  // ----- rendering -----

  function HexDigit(n: nat): char
    requires n < 16
  {
    if n < 10 then '0' + n as char else 'a' + (n - 10) as char
  }

  function Hex(b: seq<byte>): string {
    if b == [] then "" else [HexDigit(b[0] / 16), HexDigit(b[0] % 16)] + Hex(b[1..])
  }

  function Decimal(n: nat): string {
    if n < 10 then [HexDigit(n)] else Decimal(n / 10) + [HexDigit(n % 10)]
  }

  const MAX_PREVIEW := 48

  function HexPreview(b: seq<byte>): string {
    if |b| > MAX_PREVIEW then
      Hex(b[..MAX_PREVIEW]) + "\U{2026} (" + Decimal(|b|) + " bytes)"
    else
      Hex(b)
  }

  predicate IsPrintable(b: seq<byte>) {
    b != [] && forall c :: c in b ==> 32 <= c < 127 || c == 9 || c == 10
  }

  function Text(b: seq<byte>): string {
    seq(|b|, i requires 0 <= i < |b| => b[i] as char)
  }

  function Quote(b: seq<byte>): string {
    if IsPrintable(b) then "'" + Text(b) + "'" else HexPreview(b)
  }

  function FieldAt(desc: Option<seq<FieldSummary>>, i: nat): Option<FieldSummary> {
    if desc.Some? && i < |desc.value| then Some(desc.value[i]) else None
  }

  function Column(desc: Option<seq<FieldSummary>>, i: nat, read: FieldRead): DataColumn {
    var field := FieldAt(desc, i);
    var value :=
      match read
      case Null => "NULL"
      case Truncated => "<?>"
      case Value(bytes) =>
        if field.Some? && field.value.formatCode == FORMAT_CODE_BINARY then HexPreview(bytes) else Quote(bytes);
    if field.Some? then DataColumn(field.value.name, field.value.typeOid, value) else DataColumn("?", 0, value)
  }

  /** Columns `i` and later of a row of `count` fields. */
  function Columns(data: seq<byte>, desc: Option<seq<FieldSummary>>, i: nat, count: nat): seq<DataColumn>
    decreases count - i
  {
    if i >= count then []
    else
      var r := ReadField(data);
      [Column(desc, i, r.field)] + if r.more then Columns(r.rest, desc, i + 1, count) else []
  }

  lemma ColumnsUnfold(data: seq<byte>, desc: Option<seq<FieldSummary>>, i: nat, count: nat)
    requires i < count
    ensures var r := ReadField(data);
      Columns(data, desc, i, count) ==
        [Column(desc, i, r.field)] + if r.more then Columns(r.rest, desc, i + 1, count) else []
  {
    hide ReadField, Column;
  }

  method DataRowColumns(fieldCount: int, data: seq<byte>, desc: Option<seq<FieldSummary>>)
      returns (cols: seq<DataColumn>)
    ensures cols == Columns(data, desc, 0, if fieldCount < 0 then 0 else fieldCount)
  {
    hide ReadField, Column, Columns;
    var count := if fieldCount < 0 then 0 else fieldCount;
    var b := data;
    cols := [];
    var i := 0;
    while i < count
      invariant 0 <= i <= count
      invariant cols + Columns(b, desc, i, count) == Columns(data, desc, 0, count)
    {
      ColumnsUnfold(b, desc, i, count);
      var r := ReadField(b);
      ghost var later := if r.more then Columns(r.rest, desc, i + 1, count) else [];
      assert cols + ([Column(desc, i, r.field)] + later) == (cols + [Column(desc, i, r.field)]) + later;
      cols := cols + [Column(desc, i, r.field)];
      b := r.rest;
      if !r.more {
        return;
      }
      i := i + 1;
    }
    NoColumnsLeft(b, desc, count);
  }

  lemma NoColumnsLeft(b: seq<byte>, desc: Option<seq<FieldSummary>>, count: nat)
    ensures Columns(b, desc, count, count) == []
  {
  }

  // ----- the encoding a server sends -----

  function EncodeField(field: Option<seq<byte>>): seq<byte>
    requires field.Some? ==> |field.value| < 0x8000_0000
  {
    match field
    case None => Put32(0xFFFF_FFFF)
    case Some(bytes) => Put32(|bytes|) + bytes
  }

  predicate Encodable(fields: seq<Option<seq<byte>>>) {
    forall f :: f in fields && f.Some? ==> |f.value| < 0x8000_0000
  }

  function EncodeRow(fields: seq<Option<seq<byte>>>): seq<byte>
    requires Encodable(fields)
  {
    if fields == [] then [] else EncodeField(fields[0]) + EncodeRow(fields[1..])
  }

  function AsRead(field: Option<seq<byte>>): FieldRead {
    match field
    case None => Null
    case Some(bytes) => Value(bytes)
  }

  /** How many whole fields fit in the first `cut` bytes of the encoding. */
  function WholeFields(fields: seq<Option<seq<byte>>>, cut: nat): (n: nat)
    requires Encodable(fields)
    ensures n <= |fields|
  {
    if fields == [] || |EncodeField(fields[0])| > cut then 0
    else 1 + WholeFields(fields[1..], cut - |EncodeField(fields[0])|)
  }

  lemma ReadLength(n: nat, tail: seq<byte>)
    requires n < 0x1_0000_0000
    ensures var b := Put32(n) + tail;
      && I32(b[0], b[1], b[2], b[3]) == (if n < 0x8000_0000 then n else n - 0x1_0000_0000)
      && b[4..] == tail
  {
    hide Put32, Be32;
  }

  lemma ReadWholeField(field: Option<seq<byte>>, tail: seq<byte>)
    requires field.Some? ==> |field.value| < 0x8000_0000
    ensures ReadField(EncodeField(field) + tail) == Read(AsRead(field), tail, true)
  {
    hide Put32, I32;
    match field {
      case None =>
        ReadLength(0xFFFF_FFFF, tail);
      case Some(bytes) =>
        ReadLength(|bytes|, bytes + tail);
        assert EncodeField(field) + tail == Put32(|bytes|) + (bytes + tail);
        assert (bytes + tail)[..|bytes|] == bytes && (bytes + tail)[|bytes|..] == tail;
    }
  }

  lemma ReadCutField(field: Option<seq<byte>>, cut: nat)
    requires field.Some? ==> |field.value| < 0x8000_0000
    requires cut < |EncodeField(field)|
    ensures var r := ReadField(EncodeField(field)[..cut]); r.field == Truncated && !r.more
  {
    hide Put32, I32;
    if cut >= 4 {
      var tail := field.value[..cut - 4];
      ReadLength(|field.value|, tail);
      assert EncodeField(field)[..cut] == Put32(|field.value|) + tail;
    }
  }

  /** The columns of the first `n` fields, labelled from position `i` on. */
  function Shown(fields: seq<Option<seq<byte>>>, desc: Option<seq<FieldSummary>>, i: nat, n: nat): seq<DataColumn>
    requires n <= |fields|
  {
    seq(n, k requires 0 <= k < n => Column(desc, i + k, AsRead(fields[k])))
  }

  lemma ShownUnfold(fields: seq<Option<seq<byte>>>, desc: Option<seq<FieldSummary>>, i: nat, n: nat)
    requires 0 < n <= |fields|
    ensures Shown(fields, desc, i, n) == [Column(desc, i, AsRead(fields[0]))] + Shown(fields[1..], desc, i + 1, n - 1)
  {
    hide Column;
  }

  lemma ReadNothing()
    ensures ReadField([]) == Read(Truncated, [], false)
  {
  }

  lemma EncodingUnfold(fields: seq<Option<seq<byte>>>, cut: nat)
    requires Encodable(fields) && fields != [] && cut <= |EncodeRow(fields)|
    ensures var first := EncodeField(fields[0]);
      EncodeRow(fields)[..cut] ==
        if |first| <= cut then first + EncodeRow(fields[1..])[..cut - |first|] else first[..cut]
  {
    hide EncodeField;
  }

  /** The columns read from the first `cut` bytes of an encoded row, for any
      announced field count: one per whole field, in order, each with the label
      and rendering of its own column, then one `<?>` if a field is missing. */
  lemma {:induction false} RowSplit(fields: seq<Option<seq<byte>>>, cut: nat, desc: Option<seq<FieldSummary>>, i: nat,
                                    count: nat)
    requires Encodable(fields) && cut <= |EncodeRow(fields)| && i <= count
    ensures var whole := WholeFields(fields, cut);
      Columns(EncodeRow(fields)[..cut], desc, i, count) ==
        if whole < count - i then Shown(fields, desc, i, whole) + [Column(desc, i + whole, Truncated)]
        else Shown(fields, desc, i, count - i)
    decreases fields
  {
    hide ReadField, Column, EncodeField, Columns, AsRead;
    var data := EncodeRow(fields)[..cut];
    if i == count {
      NoColumnsLeft(data, desc, count);
    } else {
      ColumnsUnfold(data, desc, i, count);
      if fields == [] {
        ReadNothing();
      } else {
        EncodingUnfold(fields, cut);
        var size := |EncodeField(fields[0])|;
        if size <= cut {
          ReadWholeField(fields[0], EncodeRow(fields[1..])[..cut - size]);
          RowSplit(fields[1..], cut - size, desc, i + 1, count);
          var whole := WholeFields(fields, cut);
          ShownUnfold(fields, desc, i, if whole < count - i then whole else count - i);
        } else {
          ReadCutField(fields[0], cut);
        }
      }
    }
  }

  /** An uncut row yields exactly one column per field. */
  lemma {:induction false} WholeRow(fields: seq<Option<seq<byte>>>)
    requires Encodable(fields)
    ensures WholeFields(fields, |EncodeRow(fields)|) == |fields|
  {
    if fields != [] {
      WholeRow(fields[1..]);
    }
  }

  lemma HexDigitsAgree(a: byte, b: byte)
    ensures HexDigit(a / 16) == HexDigit(b / 16) && HexDigit(a % 16) == HexDigit(b % 16) ==> a == b
  {
    assert HexDigit(a / 16) == HexDigit(b / 16) ==> a / 16 == b / 16;
    assert HexDigit(a % 16) == HexDigit(b % 16) ==> a % 16 == b % 16;
  }

  /** Hex digits determine the bytes they spell. */
  lemma {:induction false} HexIsInjective(a: seq<byte>, b: seq<byte>)
    requires Hex(a) == Hex(b)
    ensures a == b
  {
    hide HexDigit;
    if a != [] && b != [] {
      HexDigitsAgree(a[0], b[0]);
      assert Hex(a)[2..] == Hex(a[1..]) && Hex(b)[2..] == Hex(b[1..]);
      assert Hex(a)[0] == Hex(b)[0] && Hex(a)[1] == Hex(b)[1];
      HexIsInjective(a[1..], b[1..]);
      assert a == [a[0]] + a[1..] && b == [b[0]] + b[1..];
    }
  }

  lemma {:induction false} HexLength(b: seq<byte>)
    ensures |Hex(b)| == 2 * |b|
  {
    if b != [] {
      HexLength(b[1..]);
    }
  }

  lemma {:induction false} DecimalIsInjective(m: nat, n: nat)
    requires Decimal(m) == Decimal(n)
    ensures m == n
  {
    var s, t := Decimal(m), Decimal(n);
    assert s[|s| - 1] == HexDigit(m % 10) && t[|t| - 1] == HexDigit(n % 10);
    DecimalIsLong(m);
    DecimalIsLong(n);
    if m >= 10 && n >= 10 {
      assert s[..|s| - 1] == Decimal(m / 10) && t[..|t| - 1] == Decimal(n / 10);
      DecimalIsInjective(m / 10, n / 10);
    }
    assert m == m / 10 * 10 + m % 10 && n == n / 10 * 10 + n % 10;
  }

  lemma {:induction false} DecimalIsLong(n: nat)
    ensures |Decimal(n)| >= if n < 10 then 1 else 2
    ensures n < 10 ==> |Decimal(n)| == 1
  {
    if n >= 10 {
      DecimalIsLong(n / 10);
    }
  }

  /** The part of a value that its preview shows. */
  function PreviewPart(b: seq<byte>): seq<byte> {
    if |b| > MAX_PREVIEW then b[..MAX_PREVIEW] else b
  }

  /** A preview shows exactly this much of a value: all of it up to 48 bytes,
      and of a longer one the first 48 bytes and its length. */
  lemma PreviewShows(a: seq<byte>, b: seq<byte>)
    ensures HexPreview(a) == HexPreview(b) <==> |a| == |b| && PreviewPart(a) == PreviewPart(b)
  {
    hide Hex, Decimal;
    if HexPreview(a) == HexPreview(b) {
      var s := HexPreview(a);
      HexLength(PreviewPart(a));
      HexLength(PreviewPart(b));
      DecimalIsLong(|a|);
      DecimalIsLong(|b|);
      if |a| > MAX_PREVIEW {
        var n := 2 * MAX_PREVIEW;
        assert s[..n] == Hex(PreviewPart(a)) && s[..n] == Hex(PreviewPart(b));
        assert s[n + 3..|s| - 7] == Decimal(|a|) && s[n + 3..|s| - 7] == Decimal(|b|);
        DecimalIsInjective(|a|, |b|);
      }
      HexIsInjective(PreviewPart(a), PreviewPart(b));
    }
  }
}

/** The bounded binary encoding every record and message uses (src/codec.cpp): fields, lists of rows, and the theorem
    that reading and writing are inverse to each other. */
module Fields {
  import opened Prelude
  import opened LittleEndian

  const MAX_IDENTIFIER: nat := 128
  const MAX_FIELD: nat := 0x10_0000

  predicate IdentifierChar(c: char) {
    '0' <= c <= '9' || 'A' <= c <= 'Z' || 'a' <= c <= 'z' || c == '.' || c == '_' || c == '-' || c == ':' || c == '/'
  }

  /** `isValidIdentifier`. */
  predicate IsIdentifier(s: string) {
    0 < |s| <= MAX_IDENTIFIER && s[0] != '-' && forall i :: 0 <= i < |s| ==> IdentifierChar(s[i])
  }

  // ---- Fields ----

  /** A number is as wide as its shape says; text is an identifier, or the unset identifier where that is allowed. */
  datatype Field =
    | Num(value: nat)
    | Signed(number: int)
    | Flag(set_: bool)
    | Text(text: string)
    | Raw(bytes: Bytes)

  datatype Shape =
    | ANum(width: nat, low: nat, high: nat)
    | ASigned
    | AFlag
    | AText(optional: bool)
    | AString(bound: nat)
    | ARaw(size: nat)

  /** A string of the source is a sequence of bytes. */
  predicate Narrow(s: string) {
    forall i :: 0 <= i < |s| ==> s[i] as int < 256
  }

  predicate Fits(f: Field, s: Shape) {
    match s
    case ANum(w, low, high) => f.Num? && low <= f.value <= high && f.value < Pow256(w)
    case ASigned => f.Signed? && -I64_LIMIT <= f.number < I64_LIMIT
    case AFlag => f.Flag?
    case AText(optional) => f.Text? && (IsIdentifier(f.text) || (optional && f.text == ""))
    case AString(bound) => f.Text? && |f.text| <= bound && |f.text| <= MAX_FIELD && Narrow(f.text)
    case ARaw(n) => f.Raw? && |f.bytes| == n
  }

  // ---- The value of a field, once its shape was checked ----

  function TextOf(f: Field): string {
    if f.Text? then f.text else ""
  }

  function BytesOf(f: Field): Bytes {
    if f.Raw? then f.bytes else []
  }

  function SetOf(f: Field): bool {
    f.Flag? && f.set_
  }

  function NumberOf(f: Field): nat {
    if f.Num? then f.value else 0
  }

  function U64Of(f: Field): u64 {
    if f.Num? && f.value < U64_LIMIT then f.value else 0
  }

  function U32Of(f: Field): u32 {
    if f.Num? && f.value < U32_LIMIT then f.value else 0
  }

  function I64Of(f: Field): i64 {
    if f.Signed? && -I64_LIMIT <= f.number < I64_LIMIT then f.number else 0
  }

  function TextBytes(s: string): (b: Bytes)
    ensures |b| == |s|
  {
    seq(|s|, i requires 0 <= i < |s| => s[i] as int % 256)
  }

  function BytesText(b: Bytes): (s: string)
    ensures |s| == |b|
  {
    seq(|b|, i requires 0 <= i < |b| => b[i] as char)
  }

  /** Two's complement. */
  function Unsigned(v: int): u64
    requires -I64_LIMIT <= v < I64_LIMIT
  {
    if v < 0 then v + U64_LIMIT else v
  }

  function SignedOf(v: u64): (r: int)
    ensures -I64_LIMIT <= r < I64_LIMIT && Unsigned(r) == v
  {
    if v >= I64_LIMIT then v - U64_LIMIT else v
  }

  function EncodeOne(f: Field, s: Shape): Bytes
    requires Fits(f, s)
  {
    match s
    case ANum(w, _, _) => Store(f.value, w)
    case ASigned => Store64(Unsigned(f.number))
    case AFlag => [if f.set_ then 1 else 0]
    case AText(_) => Store32(|f.text|) + TextBytes(f.text)
    case AString(_) => Store32(|f.text|) + TextBytes(f.text)
    case ARaw(_) => f.bytes
  }

  datatype Step = Refused | Field(field: Field, size: nat)

  /** One read: bounds first, then the field's own checks. */
  function DecodeOne(s: Shape, b: Bytes): (r: Step)
    ensures r.Field? ==> r.size <= |b| && Fits(r.field, s)
  {
    match s
    case ANum(w, low, high) =>
      if |b| < w then Refused
      else if low <= Load(b[..w]) <= high then Step.Field(Num(Load(b[..w])), w)
      else Refused
    case ASigned => if |b| < 8 then Refused else Step.Field(Signed(SignedOf(Load64(b[..8]))), 8)
    case AFlag => if |b| < 1 || b[0] > 1 then Refused else Step.Field(Flag(b[0] == 1), 1)
    case AText(optional) =>
      if |b| < 4 then Refused
      else
        var n := Load32(b[..4]);
        if n > MAX_IDENTIFIER || |b| < 4 + n then Refused
        else
          var text := BytesText(b[4..4 + n]);
          if IsIdentifier(text) || (optional && text == "") then Step.Field(Text(text), 4 + n) else Refused
    case AString(bound) =>
      if |b| < 4 then Refused
      else
        var n := Load32(b[..4]);
        if n > bound || n > MAX_FIELD || |b| < 4 + n then Refused else Step.Field(Text(BytesText(b[4..4 + n])), 4 + n)
    case ARaw(n) => if |b| < n then Refused else Step.Field(Raw(b[..n]), n)
  }

  lemma TextRoundTrip(s: string)
    requires Narrow(s)
    ensures BytesText(TextBytes(s)) == s
  {
  }

  lemma IdentifiersAreNarrow(s: string)
    requires IsIdentifier(s) || s == ""
    ensures Narrow(s)
  {
    forall i | 0 <= i < |s| ensures s[i] as int < 256 {
      assert IdentifierChar(s[i]);
    }
  }

  lemma BytesRoundTrip(b: Bytes)
    ensures TextBytes(BytesText(b)) == b
  {
  }

  lemma NumRoundTrip(v: nat, w: nat, rest: Bytes)
    requires v < Pow256(w)
    ensures (Store(v, w) + rest)[..w] == Store(v, w) && Load(Store(v, w)) == v
  {
    LoadOfStore(v, w);
  }

  lemma StringRoundTrip(s: string, rest: Bytes)
    requires Narrow(s) && |s| < U32_LIMIT
    ensures var b := Store32(|s|) + TextBytes(s) + rest;
            b[..4] == Store32(|s|) && Load32(b[..4]) == |s| && BytesText(b[4..4 + |s|]) == s
  {
    var b := Store32(|s|) + TextBytes(s) + rest;
    RoundTrip32(|s|);
    TextRoundTrip(s);
    assert b[..4] == Store32(|s|);
    assert b[4..4 + |s|] == TextBytes(s);
  }

  /** What is written is read back, whatever follows. */
  lemma OneRoundTrip(f: Field, s: Shape, rest: Bytes)
    requires Fits(f, s)
    ensures DecodeOne(s, EncodeOne(f, s) + rest) == Step.Field(f, |EncodeOne(f, s)|)
  {
    var b := EncodeOne(f, s) + rest;
    match s
    case ANum(w, _, _) => NumRoundTrip(f.value, w, rest);
    case ASigned =>
      RoundTrip64(Unsigned(f.number));
      assert b[..8] == Store64(Unsigned(f.number));
    case AFlag =>
    case AText(_) =>
      IdentifiersAreNarrow(f.text);
      StringRoundTrip(f.text, rest);
    case AString(_) => StringRoundTrip(f.text, rest);
    case ARaw(n) => assert b[..n] == f.bytes;
  }

  lemma StringAgain(b: Bytes)
    requires |b| >= 4 && |b| >= 4 + Load32(b[..4])
    ensures var n := Load32(b[..4]); Store32(n) + TextBytes(BytesText(b[4..4 + n])) == b[..4 + n]
  {
    var n := Load32(b[..4]);
    Again32(b[..4]);
    BytesRoundTrip(b[4..4 + n]);
    assert b[..4 + n] == b[..4] + b[4..4 + n];
  }

  /** What is read was written exactly like that. */
  lemma OneAgain(s: Shape, b: Bytes)
    requires DecodeOne(s, b).Field?
    ensures EncodeOne(DecodeOne(s, b).field, s) == b[..DecodeOne(s, b).size]
  {
    match s
    case ANum(w, _, _) => StoreOfLoad(b[..w]);
    case ASigned => Again64(b[..8]);
    case AFlag =>
    case AText(_) => StringAgain(b);
    case AString(_) => StringAgain(b);
    case ARaw(n) =>
  }

  // ---- Rows of fields ----

  predicate AllFit(fs: seq<Field>, ss: seq<Shape>) {
    |fs| == |ss| && forall i :: 0 <= i < |fs| ==> Fits(fs[i], ss[i])
  }

  function EncodeAll(fs: seq<Field>, ss: seq<Shape>): Bytes
    requires AllFit(fs, ss)
  {
    if fs == [] then [] else EncodeOne(fs[0], ss[0]) + EncodeAll(fs[1..], ss[1..])
  }

  datatype Steps = RefusedAll | Fields(fields: seq<Field>, size: nat)

  function DecodeAll(ss: seq<Shape>, b: Bytes): (r: Steps)
    ensures r.Fields? ==> r.size <= |b| && AllFit(r.fields, ss)
    decreases |ss|
  {
    if ss == [] then Steps.Fields([], 0)
    else
      match DecodeOne(ss[0], b)
      case Refused => RefusedAll
      case Field(f, n) =>
        match DecodeAll(ss[1..], b[n..])
        case RefusedAll => RefusedAll
        case Fields(fs, m) => Steps.Fields([f] + fs, n + m)
  }

  lemma {:induction false} AllRoundTrip(fs: seq<Field>, ss: seq<Shape>, rest: Bytes)
    requires AllFit(fs, ss)
    ensures DecodeAll(ss, EncodeAll(fs, ss) + rest) == Steps.Fields(fs, |EncodeAll(fs, ss)|)
    decreases |ss|
  {
    hide EncodeOne, DecodeOne;
    if ss != [] {
      var first := EncodeOne(fs[0], ss[0]);
      var tail := EncodeAll(fs[1..], ss[1..]) + rest;
      assert EncodeAll(fs, ss) + rest == first + tail;
      OneRoundTrip(fs[0], ss[0], tail);
      assert (first + tail)[|first|..] == tail;
      AllRoundTrip(fs[1..], ss[1..], rest);
      assert fs == [fs[0]] + fs[1..];
    }
  }

  lemma {:induction false} AllAgain(ss: seq<Shape>, b: Bytes)
    requires DecodeAll(ss, b).Fields?
    ensures EncodeAll(DecodeAll(ss, b).fields, ss) == b[..DecodeAll(ss, b).size]
    decreases |ss|
  {
    hide EncodeOne, DecodeOne;
    if ss != [] {
      OneAgain(ss[0], b);
      var n := DecodeOne(ss[0], b).size;
      AllAgain(ss[1..], b[n..]);
      var m := DecodeAll(ss[1..], b[n..]).size;
      assert b[..n + m] == b[..n] + b[n..][..m];
    }
  }

  /** Reading and writing a row are inverse: the bytes hold exactly these fields if and only if they are read as them. */
  lemma RowIff(fs: seq<Field>, ss: seq<Shape>, b: Bytes)
    ensures DecodeAll(ss, b) == Steps.Fields(fs, |b|) <==> AllFit(fs, ss) && b == EncodeAll(fs, ss)
  {
    if AllFit(fs, ss) && b == EncodeAll(fs, ss) {
      AllRoundTrip(fs, ss, []);
      assert b + [] == b;
    }
    if DecodeAll(ss, b) == Steps.Fields(fs, |b|) {
      AllAgain(ss, b);
      assert b[..|b|] == b;
    }
  }

  // ---- Counted lists of rows ----

  predicate RowsFit(rows: seq<seq<Field>>, ss: seq<Shape>) {
    forall i :: 0 <= i < |rows| ==> AllFit(rows[i], ss)
  }

  function EncodeRows(rows: seq<seq<Field>>, ss: seq<Shape>): Bytes
    requires RowsFit(rows, ss)
  {
    if rows == [] then [] else EncodeAll(rows[0], ss) + EncodeRows(rows[1..], ss)
  }

  datatype Rows = RefusedRows | Rows(rows: seq<seq<Field>>, size: nat)

  function DecodeRows(count: nat, ss: seq<Shape>, b: Bytes): (r: Rows)
    ensures r.Rows? ==> r.size <= |b| && |r.rows| == count && RowsFit(r.rows, ss)
    decreases count
  {
    if count == 0 then Rows.Rows([], 0)
    else
      match DecodeAll(ss, b)
      case RefusedAll => RefusedRows
      case Fields(fs, n) =>
        match DecodeRows(count - 1, ss, b[n..])
        case RefusedRows => RefusedRows
        case Rows(rows, m) => Rows.Rows([fs] + rows, n + m)
  }

  /** A list is its length, then its rows. */
  function EncodeList(rows: seq<seq<Field>>, ss: seq<Shape>): Bytes
    requires RowsFit(rows, ss) && |rows| < U32_LIMIT
  {
    Store32(|rows|) + EncodeRows(rows, ss)
  }

  function DecodeList(bound: nat, ss: seq<Shape>, b: Bytes): (r: Rows)
    ensures r.Rows? ==> r.size <= |b| && |r.rows| <= bound && |r.rows| < U32_LIMIT && RowsFit(r.rows, ss)
  {
    if |b| < 4 then RefusedRows
    else
      var count := Load32(b[..4]);
      if count > bound then RefusedRows
      else
        match DecodeRows(count, ss, b[4..])
        case RefusedRows => RefusedRows
        case Rows(rows, n) => Rows.Rows(rows, 4 + n)
  }

  lemma {:induction false} RowsRoundTrip(rows: seq<seq<Field>>, ss: seq<Shape>, rest: Bytes)
    requires RowsFit(rows, ss)
    ensures DecodeRows(|rows|, ss, EncodeRows(rows, ss) + rest) == Rows.Rows(rows, |EncodeRows(rows, ss)|)
    decreases |rows|
  {
    hide EncodeAll, DecodeAll;
    if rows != [] {
      var first := EncodeAll(rows[0], ss);
      var tail := EncodeRows(rows[1..], ss) + rest;
      assert EncodeRows(rows, ss) + rest == first + tail;
      AllRoundTrip(rows[0], ss, tail);
      assert (first + tail)[|first|..] == tail;
      RowsRoundTrip(rows[1..], ss, rest);
      assert rows == [rows[0]] + rows[1..];
      hide RowsFit;
    }
  }

  lemma {:induction false} RowsAgain(count: nat, ss: seq<Shape>, b: Bytes)
    requires DecodeRows(count, ss, b).Rows?
    ensures EncodeRows(DecodeRows(count, ss, b).rows, ss) == b[..DecodeRows(count, ss, b).size]
    decreases count
  {
    hide EncodeAll, DecodeAll;
    if count > 0 {
      AllAgain(ss, b);
      var n := DecodeAll(ss, b).size;
      RowsAgain(count - 1, ss, b[n..]);
      var m := DecodeRows(count - 1, ss, b[n..]).size;
      assert b[..n + m] == b[..n] + b[n..][..m];
    }
  }

  lemma ListRoundTrip(rows: seq<seq<Field>>, ss: seq<Shape>, bound: nat, rest: Bytes)
    requires RowsFit(rows, ss) && |rows| <= bound < U32_LIMIT
    ensures DecodeList(bound, ss, EncodeList(rows, ss) + rest) == Rows.Rows(rows, |EncodeList(rows, ss)|)
  {
    hide EncodeRows, DecodeRows, Store32, Load32;
    var b := EncodeList(rows, ss) + rest;
    RoundTrip32(|rows|);
    assert b[..4] == Store32(|rows|) && b[4..] == EncodeRows(rows, ss) + rest;
    RowsRoundTrip(rows, ss, rest);
  }

  lemma ListAgain(bound: nat, ss: seq<Shape>, b: Bytes)
    requires DecodeList(bound, ss, b).Rows?
    ensures EncodeList(DecodeList(bound, ss, b).rows, ss) == b[..DecodeList(bound, ss, b).size]
  {
    hide EncodeRows, DecodeRows, Store32, Load32;
    Again32(b[..4]);
    RowsAgain(Load32(b[..4]), ss, b[4..]);
    var n := DecodeRows(Load32(b[..4]), ss, b[4..]).size;
    assert b[..4 + n] == b[..4] + b[4..][..n];
  }

  // ---- Documents: a head and two lists, and nothing after them ----

  datatype Layout = Layout(head: seq<Shape>, first: seq<Shape>, firstBound: nat, second: seq<Shape>, secondBound: nat)

  datatype Document = Document(head: seq<Field>, first: seq<seq<Field>>, second: seq<seq<Field>>)

  predicate DocumentFits(d: Document, l: Layout) {
    && AllFit(d.head, l.head) && RowsFit(d.first, l.first) && RowsFit(d.second, l.second)
    && |d.first| <= l.firstBound < U32_LIMIT && |d.second| <= l.secondBound < U32_LIMIT
  }

  function EncodeDocument(d: Document, l: Layout): Bytes
    requires DocumentFits(d, l)
  {
    EncodeAll(d.head, l.head) + (EncodeList(d.first, l.first) + EncodeList(d.second, l.second))
  }

  function DecodeDocument(l: Layout, b: Bytes): (r: Option<Document>)
    requires l.firstBound < U32_LIMIT && l.secondBound < U32_LIMIT
    ensures r.Some? ==> DocumentFits(r.value, l)
  {
    match DecodeAll(l.head, b)
    case RefusedAll => None
    case Fields(head, n) =>
      match DecodeList(l.firstBound, l.first, b[n..])
      case RefusedRows => None
      case Rows(first, m) =>
        match DecodeList(l.secondBound, l.second, b[n..][m..])
        case RefusedRows => None
        case Rows(second, k) => if n + m + k == |b| then Some(Document(head, first, second)) else None
  }

  lemma DocumentRoundTrip(d: Document, l: Layout)
    requires DocumentFits(d, l)
    ensures DecodeDocument(l, EncodeDocument(d, l)) == Some(d)
  {
    hide EncodeAll, DecodeAll, EncodeList, DecodeList;
    var x, y, z := EncodeAll(d.head, l.head), EncodeList(d.first, l.first), EncodeList(d.second, l.second);
    var b := EncodeDocument(d, l);
    AllRoundTrip(d.head, l.head, y + z);
    assert b[|x|..] == y + z;
    ListRoundTrip(d.first, l.first, l.firstBound, z);
    assert (y + z)[|y|..] == z;
    ListRoundTrip(d.second, l.second, l.secondBound, []);
    assert z + [] == z;
  }

  lemma DocumentAgain(l: Layout, b: Bytes)
    requires l.firstBound < U32_LIMIT && l.secondBound < U32_LIMIT && DecodeDocument(l, b).Some?
    ensures EncodeDocument(DecodeDocument(l, b).value, l) == b
  {
    hide EncodeAll, DecodeAll, EncodeList, DecodeList;
    AllAgain(l.head, b);
    var n := DecodeAll(l.head, b).size;
    ListAgain(l.firstBound, l.first, b[n..]);
    var m := DecodeList(l.firstBound, l.first, b[n..]).size;
    ListAgain(l.secondBound, l.second, b[n..][m..]);
    assert b[n..][m..][..|b| - n - m] == b[n..][m..];
    assert b == b[..n] + (b[n..][..m] + b[n..][m..]);
  }

  /** Reading and writing a document are inverse. */
  lemma DocumentIff(d: Document, l: Layout, b: Bytes)
    requires l.firstBound < U32_LIMIT && l.secondBound < U32_LIMIT
    ensures DecodeDocument(l, b) == Some(d) <==> DocumentFits(d, l) && b == EncodeDocument(d, l)
  {
    hide DecodeDocument, EncodeDocument;
    if DecodeDocument(l, b) == Some(d) { DocumentAgain(l, b); }
    if DocumentFits(d, l) { DocumentRoundTrip(d, l); }
  }
}

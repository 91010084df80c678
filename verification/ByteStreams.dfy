/** The writer and the reader every codec drives (class ByteWriter and class ByteReader, src/codec.cpp). */
module ByteStreams {
  import opened Prelude
  import opened LittleEndian
  import opened Fields

  lemma LoadStep(b: Bytes, i: nat)
    requires i < |b|
    ensures Load(b[i..]) == b[i] + 256 * Load(b[i + 1..])
  {
    assert b[i..][1..] == b[i + 1..];
  }

  class ByteWriter {
    var buffer: Bytes

    constructor ()
      ensures buffer == []
    {
      buffer := [];
    }

    /** The shift loops of u16, u32 and u64. */
    method PutNumber(value: nat, width: nat)
      modifies this
      ensures buffer == old(buffer) + Store(value, width)
    {
      var rest := value;
      for i := 0 to width
        invariant buffer + Store(rest, width - i) == old(buffer) + Store(value, width)
      {
        buffer := buffer + [rest % 256];
        rest := rest / 256;
      }
    }

    method PutText(text: string)
      requires |text| < U32_LIMIT
      modifies this
      ensures buffer == old(buffer) + (Store32(|text|) + TextBytes(text))
    {
      PutNumber(|text|, 4);
      buffer := buffer + TextBytes(text);
    }

    method PutField(f: Field, s: Shape)
      requires Fits(f, s)
      modifies this
      ensures buffer == old(buffer) + EncodeOne(f, s)
    {
      match s {
        case ANum(width, _, _) => PutNumber(f.value, width);
        case ASigned => PutNumber(Unsigned(f.number), 8);
        case AFlag => PutNumber(if f.set_ then 1 else 0, 1);
        case AText(_) => PutText(f.text);
        case AString(_) => PutText(f.text);
        case ARaw(_) => buffer := buffer + f.bytes;
      }
    }

    method PutRow(fs: seq<Field>, ss: seq<Shape>)
      requires AllFit(fs, ss)
      modifies this
      ensures buffer == old(buffer) + EncodeAll(fs, ss)
    {
      hide EncodeOne, Fits;
      for i := 0 to |fs|
        invariant AllFit(fs[i..], ss[i..])
        invariant buffer + EncodeAll(fs[i..], ss[i..]) == old(buffer) + EncodeAll(fs, ss)
      {
        assert fs[i..][0] == fs[i] && ss[i..][0] == ss[i] && fs[i..][1..] == fs[i + 1..] && ss[i..][1..] == ss[i + 1..];
        PutField(fs[i], ss[i]);
      }
    }

    method PutList(rows: seq<seq<Field>>, ss: seq<Shape>)
      requires RowsFit(rows, ss) && |rows| < U32_LIMIT
      modifies this
      ensures buffer == old(buffer) + EncodeList(rows, ss)
    {
      hide EncodeAll, AllFit;
      PutNumber(|rows|, 4);
      for i := 0 to |rows|
        invariant RowsFit(rows[i..], ss)
        invariant buffer + EncodeRows(rows[i..], ss) == old(buffer) + (Store32(|rows|) + EncodeRows(rows, ss))
      {
        assert rows[i..][0] == rows[i] && rows[i..][1..] == rows[i + 1..];
        PutRow(rows[i], ss);
      }
    }

    method PutDocument(d: Document, l: Layout)
      requires DocumentFits(d, l)
      modifies this
      ensures buffer == old(buffer) + EncodeDocument(d, l)
    {
      hide EncodeAll, EncodeList, AllFit, RowsFit;
      PutRow(d.head, l.head);
      PutList(d.first, l.first);
      PutList(d.second, l.second);
    }
  }

  class ByteReader {
    const data: Bytes
    var offset: nat

    predicate Valid()
      reads this
    {
      offset <= |data|
    }

    constructor (data: Bytes)
      ensures Valid() && this.data == data && offset == 0
    {
      this.data := data;
      offset := 0;
    }

    /** The accumulation loops of u16, u32 and u64. */
    method GetNumber(width: nat) returns (value: Option<nat>)
      requires Valid()
      modifies this
      ensures Valid()
      ensures value.Some? <==> width <= |data| - old(offset)
      ensures value.Some? ==> offset == old(offset) + width && value.value == Load(data[old(offset)..][..width])
      ensures value.None? ==> offset == old(offset)
    {
      hide Load;
      if width > |data| - offset { return None; }
      var view := data[offset..][..width];
      var i := 0;
      var scale: nat := 1;
      var total: nat := 0;
      while i < width
        invariant 0 <= i <= width && offset == old(offset)
        invariant Load(view) == total + scale * Load(view[i..])
      {
        LoadStep(view, i);
        Distribute(scale, view[i], Load(view[i + 1..]));
        total := total + scale * view[i];
        scale := 256 * scale;
        i := i + 1;
      }
      assert view[i..] == [];
      NothingLeft(scale, view[i..]);
      offset := offset + width;
      value := Some(total);
    }

    static lemma NothingLeft(scale: nat, b: Bytes)
      requires b == []
      ensures scale * Load(b) == 0
    {
    }

    static lemma Distribute(scale: nat, first: nat, rest: nat)
      ensures scale * (first + 256 * rest) == scale * first + (256 * scale) * rest
    {
    }

    method GetFixed(count: nat) returns (view: Option<Bytes>)
      requires Valid()
      modifies this
      ensures Valid()
      ensures view.Some? <==> count <= |data| - old(offset)
      ensures view.Some? ==> offset == old(offset) + count && view.value == data[old(offset)..][..count]
      ensures view.None? ==> offset == old(offset)
    {
      if count > |data| - offset { return None; }
      view := Some(data[offset..][..count]);
      offset := offset + count;
    }

    /** Every read is the reading of the bytes that are left; after a refusal the position no longer matters. */
    method GetField(s: Shape) returns (r: Option<Field>)
      requires Valid()
      modifies this
      ensures Valid()
      ensures match DecodeOne(s, data[old(offset)..])
              case Refused => r == None
              case Field(f, n) => r == Some(f) && offset == old(offset) + n
    {
      match s {
        case ANum(width, low, high) =>
          var v := GetNumber(width);
          r := if v.Some? && low <= v.value <= high then Some(Num(v.value)) else None;
        case ASigned =>
          var v := GetNumber(8);
          if v.None? { return None; }
          Widths();
          r := Some(Signed(SignedOf(v.value)));
        case AFlag =>
          r := GetFlag();
        case AText(optional) =>
          r := GetText(optional);
        case AString(bound) =>
          r := GetString(bound);
        case ARaw(n) =>
          var view := GetFixed(n);
          r := if view.Some? then Some(Raw(view.value)) else None;
      }
    }

    method GetFlag() returns (r: Option<Field>)
      requires Valid()
      modifies this
      ensures Valid()
      ensures match DecodeOne(AFlag, data[old(offset)..])
              case Refused => r == None
              case Field(f, n) => r == Some(f) && offset == old(offset) + n
    {
      if offset == |data| || data[offset] > 1 { return None; }
      r := Some(Flag(data[offset] == 1));
      offset := offset + 1;
    }

    method GetText(optional: bool) returns (r: Option<Field>)
      requires Valid()
      modifies this
      ensures Valid()
      ensures match DecodeOne(AText(optional), data[old(offset)..])
              case Refused => r == None
              case Field(f, n) => r == Some(f) && offset == old(offset) + n
    {
      hide IsIdentifier;
      ghost var start := offset;
      var declared := GetNumber(4);
      if declared.None? || declared.value > MAX_IDENTIFIER { return None; }
      var view := GetFixed(declared.value);
      if view.None? { return None; }
      assert data[start + 4..][..declared.value] == data[start..][4..4 + declared.value];
      var text := BytesText(view.value);
      r := if IsIdentifier(text) || (optional && text == "") then Some(Text(text)) else None;
    }

    method GetString(bound: nat) returns (r: Option<Field>)
      requires Valid()
      modifies this
      ensures Valid()
      ensures match DecodeOne(AString(bound), data[old(offset)..])
              case Refused => r == None
              case Field(f, n) => r == Some(f) && offset == old(offset) + n
    {
      ghost var start := offset;
      var declared := GetNumber(4);
      if declared.None? || declared.value > bound || declared.value > MAX_FIELD { return None; }
      var view := GetFixed(declared.value);
      if view.None? { return None; }
      assert data[start + 4..][..declared.value] == data[start..][4..4 + declared.value];
      r := Some(Text(BytesText(view.value)));
    }

    method GetRow(ss: seq<Shape>) returns (r: Option<seq<Field>>)
      requires Valid()
      modifies this
      ensures Valid()
      ensures match DecodeAll(ss, data[old(offset)..])
              case RefusedAll => r == None
              case Fields(fs, n) => r == Some(fs) && offset == old(offset) + n
      decreases |ss|
    {
      hide DecodeOne;
      ghost var start := offset;
      if ss == [] { return Some([]); }
      var f := GetField(ss[0]);
      if f.None? { return None; }
      assert data[start..][offset - start..] == data[offset..];
      var rest := GetRow(ss[1..]);
      r := if rest.None? then None else Some([f.value] + rest.value);
    }

    /** The loop over a counted list. */
    method GetRows(count: nat, ss: seq<Shape>) returns (r: Option<seq<seq<Field>>>)
      requires Valid()
      modifies this
      ensures Valid()
      ensures match DecodeRows(count, ss, data[old(offset)..])
              case RefusedRows => r == None
              case Rows(rows, n) => r == Some(rows) && offset == old(offset) + n
    {
      hide DecodeAll;
      var rows: seq<seq<Field>> := [];
      ghost var all, start := DecodeRows(count, ss, data[offset..]), offset;
      for i := 0 to count
        invariant Valid() && start <= offset
        invariant match DecodeRows(count - i, ss, data[offset..])
                  case RefusedRows => all == RefusedRows
                  case Rows(rest, n) => all == Rows.Rows(rows + rest, offset - start + n)
      {
        ghost var before := offset;
        RowsTurn(count - i, ss, data[offset..]);
        var row := GetRow(ss);
        if row.None? { return None; }
        assert data[before..][offset - before..] == data[offset..];
        ghost var later := DecodeRows(count - i - 1, ss, data[offset..]);
        assert later.Rows? ==> (rows + [row.value]) + later.rows == rows + ([row.value] + later.rows);
        rows := rows + [row.value];
      }
      assert rows + [] == rows;
      r := Some(rows);
    }

    static lemma RowsTurn(count: nat, ss: seq<Shape>, b: Bytes)
      requires count > 0
      ensures DecodeRows(count, ss, b) ==
              match DecodeAll(ss, b)
              case RefusedAll => RefusedRows
              case Fields(fs, n) =>
                match DecodeRows(count - 1, ss, b[n..])
                case RefusedRows => RefusedRows
                case Rows(rows, m) => Rows.Rows([fs] + rows, n + m)
    {
    }

    method GetList(bound: nat, ss: seq<Shape>) returns (r: Option<seq<seq<Field>>>)
      requires Valid()
      modifies this
      ensures Valid()
      ensures match DecodeList(bound, ss, data[old(offset)..])
              case RefusedRows => r == None
              case Rows(rows, n) => r == Some(rows) && offset == old(offset) + n
    {
      hide DecodeRows;
      ghost var start := offset;
      var count := GetNumber(4);
      if count.None? || count.value > bound { return None; }
      assert data[start..][4..] == data[offset..];
      r := GetRows(count.value, ss);
    }

    /** A whole document, with `requireEnd` at its end. */
    method GetDocument(l: Layout) returns (r: Option<Document>)
      requires Valid() && offset == 0 && l.firstBound < U32_LIMIT && l.secondBound < U32_LIMIT
      modifies this
      ensures r == DecodeDocument(l, data)
    {
      hide DecodeAll, DecodeList;
      assert data[0..] == data;
      var head := GetRow(l.head);
      if head.None? { return None; }
      ghost var n := offset;
      var first := GetList(l.firstBound, l.first);
      if first.None? { return None; }
      assert data[n..][offset - n..] == data[offset..];
      var second := GetList(l.secondBound, l.second);
      if second.None? { return None; }
      r := if offset == |data| then Some(Document(head.value, first.value, second.value)) else None;
    }
  }
}

/** Byte formats of nested values, built from rows of fields, pairs, counted lists, length-framed and checksummed parts;
    each way of building keeps reading and writing inverse to each other. */
module Formats {
  import opened Prelude
  import opened LittleEndian
  import opened Fields
  import opened Crc32c
  import SnapshotFile

  datatype Reading<T> = Nothing | Got(value: T, size: nat)

  /** How a value is written, and read from the front of some bytes. */
  datatype Format<!T> = Format(fits: T -> bool, encode: T -> Bytes, decode: Bytes -> Reading<T>)

  /** What is written is read back whatever follows, and what is read had been written exactly like that. */
  ghost predicate Exact<T(!new)>(f: Format<T>) {
    && (forall x, rest :: f.fits(x) ==> f.decode(f.encode(x) + rest) == Got(x, |f.encode(x)|))
    && (forall b :: f.decode(b).Got? ==>
          f.decode(b).size <= |b| && f.fits(f.decode(b).value) && f.encode(f.decode(b).value) == b[..f.decode(b).size])
  }

  /** A format that takes all the bytes it is given. */
  datatype Whole<!T> = Whole(fits: T -> bool, encode: T -> Bytes, decode: Bytes -> Option<T>)

  ghost predicate Inverse<T(!new)>(w: Whole<T>) {
    && (forall x :: w.fits(x) ==> w.decode(w.encode(x)) == Some(x))
    && (forall b :: w.decode(b).Some? ==> w.fits(w.decode(b).value) && w.encode(w.decode(b).value) == b)
  }

  // ---- Rows ----

  function Row(ss: seq<Shape>): Format<seq<Field>> {
    Format(fs => AllFit(fs, ss),
           fs => if AllFit(fs, ss) then EncodeAll(fs, ss) else [],
           b => match DecodeAll(ss, b) case RefusedAll => Nothing case Fields(fs, n) => Got(fs, n))
  }

  lemma RowExact(ss: seq<Shape>)
    ensures Exact(Row(ss))
  {
    hide EncodeAll, DecodeAll, AllFit;
    forall fs, rest | AllFit(fs, ss) ensures Row(ss).decode(EncodeAll(fs, ss) + rest) == Got(fs, |EncodeAll(fs, ss)|) {
      AllRoundTrip(fs, ss, rest);
    }
    forall b | DecodeAll(ss, b).Fields?
      ensures DecodeAll(ss, b).size <= |b| && AllFit(DecodeAll(ss, b).fields, ss)
              && EncodeAll(DecodeAll(ss, b).fields, ss) == b[..DecodeAll(ss, b).size]
    {
      AllAgain(ss, b);
    }
  }

  // ---- One after the other ----

  function ReadBoth<A, B>(f: Format<A>, g: Format<B>, b: Bytes): Reading<(A, B)> {
    match f.decode(b)
    case Nothing => Nothing
    case Got(x, n) =>
      if n > |b| then Nothing
      else
        match g.decode(b[n..])
        case Nothing => Nothing
        case Got(y, m) => Got((x, y), n + m)
  }

  function Both<A, B>(f: Format<A>, g: Format<B>): Format<(A, B)> {
    Format((p: (A, B)) => f.fits(p.0) && g.fits(p.1),
           (p: (A, B)) => f.encode(p.0) + g.encode(p.1),
           b => ReadBoth(f, g, b))
  }

  lemma BothRoundTrip<A(!new), B(!new)>(f: Format<A>, g: Format<B>, x: A, y: B, rest: Bytes)
    requires Exact(f) && Exact(g) && f.fits(x) && g.fits(y)
    ensures ReadBoth(f, g, f.encode(x) + g.encode(y) + rest) == Got((x, y), |f.encode(x)| + |g.encode(y)|)
  {
    var a, c := f.encode(x), g.encode(y);
    assert a + c + rest == a + (c + rest);
    assert (a + (c + rest))[|a|..] == c + rest;
  }

  lemma BothAgain<A(!new), B(!new)>(f: Format<A>, g: Format<B>, b: Bytes)
    requires Exact(f) && Exact(g) && ReadBoth(f, g, b).Got?
    ensures var r := ReadBoth(f, g, b);
            r.size <= |b| && f.fits(r.value.0) && g.fits(r.value.1) && f.encode(r.value.0) + g.encode(r.value.1) == b[..r.size]
  {
    var n := f.decode(b).size;
    var m := g.decode(b[n..]).size;
    assert b[..n + m] == b[..n] + b[n..][..m];
  }

  lemma BothExact<A(!new), B(!new)>(f: Format<A>, g: Format<B>)
    requires Exact(f) && Exact(g)
    ensures Exact(Both(f, g))
  {
    hide Exact, ReadBoth;
    forall p: (A, B), rest | f.fits(p.0) && g.fits(p.1)
      ensures ReadBoth(f, g, f.encode(p.0) + g.encode(p.1) + rest) == Got(p, |f.encode(p.0) + g.encode(p.1)|)
    {
      BothRoundTrip(f, g, p.0, p.1, rest);
    }
    forall b | ReadBoth(f, g, b).Got?
      ensures var r := ReadBoth(f, g, b);
              r.size <= |b| && f.fits(r.value.0) && g.fits(r.value.1) && f.encode(r.value.0) + g.encode(r.value.1) == b[..r.size]
    {
      BothAgain(f, g, b);
    }
    ExactFrom(Both(f, g));
  }

  // ---- Counted lists ----

  function EncodeEach<A>(f: Format<A>, xs: seq<A>): Bytes {
    if xs == [] then [] else f.encode(xs[0]) + EncodeEach(f, xs[1..])
  }

  function DecodeEach<A>(f: Format<A>, count: nat, b: Bytes): (r: Reading<seq<A>>)
    ensures r.Got? ==> |r.value| == count
  {
    if count == 0 then Got([], 0)
    else
      match f.decode(b)
      case Nothing => Nothing
      case Got(x, n) =>
        if n > |b| then Nothing
        else
          match DecodeEach(f, count - 1, b[n..])
          case Nothing => Nothing
          case Got(xs, m) => Got([x] + xs, n + m)
  }

  function ReadMany<A>(bound: nat, f: Format<A>, b: Bytes): Reading<seq<A>> {
    if |b| < 4 || Load32(b[..4]) > bound then Nothing
    else
      match DecodeEach(f, Load32(b[..4]), b[4..])
      case Nothing => Nothing
      case Got(xs, n) => Got(xs, 4 + n)
  }

  /** The length as a 32-bit number, refused above the bound, then the items. */
  function Many<A(!new)>(bound: nat, f: Format<A>): Format<seq<A>> {
    Format((xs: seq<A>) => |xs| <= bound && |xs| < U32_LIMIT && forall i :: 0 <= i < |xs| ==> f.fits(xs[i]),
           (xs: seq<A>) => if |xs| < U32_LIMIT then Store32(|xs|) + EncodeEach(f, xs) else [],
           b => ReadMany(bound, f, b))
  }

  lemma {:induction false} EachRoundTrip<A(!new)>(f: Format<A>, xs: seq<A>, rest: Bytes)
    requires Exact(f) && forall i :: 0 <= i < |xs| ==> f.fits(xs[i])
    ensures DecodeEach(f, |xs|, EncodeEach(f, xs) + rest) == Got(xs, |EncodeEach(f, xs)|)
    decreases |xs|
  {
    if xs != [] {
      var a, c := f.encode(xs[0]), EncodeEach(f, xs[1..]);
      assert a + c + rest == a + (c + rest);
      assert (a + (c + rest))[|a|..] == c + rest;
      EachRoundTrip(f, xs[1..], rest);
      assert xs == [xs[0]] + xs[1..];
    }
  }

  lemma {:induction false} EachAgain<A(!new)>(f: Format<A>, count: nat, b: Bytes)
    requires Exact(f) && DecodeEach(f, count, b).Got?
    ensures var r := DecodeEach(f, count, b);
            r.size <= |b| && EncodeEach(f, r.value) == b[..r.size] && forall i :: 0 <= i < |r.value| ==> f.fits(r.value[i])
    decreases count
  {
    if count > 0 {
      var n := f.decode(b).size;
      EachAgain(f, count - 1, b[n..]);
      var m := DecodeEach(f, count - 1, b[n..]).size;
      assert b[..n + m] == b[..n] + b[n..][..m];
    }
  }

  lemma ManyExact<A(!new)>(bound: nat, f: Format<A>)
    requires Exact(f)
    ensures Exact(Many(bound, f))
  {
    hide Store32, Load32, EncodeEach, DecodeEach, Exact;
    forall xs: seq<A>, rest | |xs| <= bound && |xs| < U32_LIMIT && (forall i :: 0 <= i < |xs| ==> f.fits(xs[i]))
      ensures ReadMany(bound, f, Store32(|xs|) + EncodeEach(f, xs) + rest) == Got(xs, 4 + |EncodeEach(f, xs)|)
    {
      var b := Store32(|xs|) + EncodeEach(f, xs) + rest;
      RoundTrip32(|xs|);
      assert b[..4] == Store32(|xs|) && b[4..] == EncodeEach(f, xs) + rest;
      EachRoundTrip(f, xs, rest);
    }
    forall b | ReadMany(bound, f, b).Got?
      ensures var r := ReadMany(bound, f, b);
              r.size <= |b| && |r.value| < U32_LIMIT && Store32(|r.value|) + EncodeEach(f, r.value) == b[..r.size]
              && |r.value| <= bound && forall i :: 0 <= i < |r.value| ==> f.fits(r.value[i])
    {
      Again32(b[..4]);
      EachAgain(f, Load32(b[..4]), b[4..]);
      var n := DecodeEach(f, Load32(b[..4]), b[4..]).size;
      assert b[..4 + n] == b[..4] + b[4..][..n];
    }
    ExactFrom(Many(bound, f));
  }

  lemma ExactFrom<T(!new)>(f: Format<T>)
    requires forall x, rest :: f.fits(x) ==> f.decode(f.encode(x) + rest) == Got(x, |f.encode(x)|)
    requires forall b :: f.decode(b).Got? ==>
               f.decode(b).size <= |b| && f.fits(f.decode(b).value) && f.encode(f.decode(b).value) == b[..f.decode(b).size]
    ensures Exact(f)
  {
  }

  /** A list longer than the bound is written all the same, but never read. */
  lemma TooMany<A(!new)>(bound: nat, f: Format<A>, xs: seq<A>, rest: Bytes)
    requires bound < |xs| < U32_LIMIT
    ensures Many(bound, f).decode(Many(bound, f).encode(xs) + rest) == Nothing
  {
    hide Store32, Load32, EncodeEach;
    RoundTrip32(|xs|);
    var b := Store32(|xs|) + EncodeEach(f, xs) + rest;
    assert b[..4] == Store32(|xs|);
  }

  lemma SecondRefused<A(!new), B(!new)>(f: Format<A>, g: Format<B>, x: A, rest: Bytes)
    requires Exact(f) && f.fits(x) && g.decode(rest) == Nothing
    ensures Both(f, g).decode(f.encode(x) + rest) == Nothing
  {
    assert (f.encode(x) + rest)[|f.encode(x)|..] == rest;
  }

  // ---- Values and checks ----

  function ReadAs<A, B>(f: Format<A>, value: A -> B, ok: B -> bool, b: Bytes): Reading<B> {
    match f.decode(b)
    case Nothing => Nothing
    case Got(x, n) => if ok(value(x)) then Got(value(x), n) else Nothing
  }

  /** Values written as the parts `parts` gives, read by putting the parts together and refused unless `ok`. */
  function As<A, B(==)>(f: Format<A>, parts: B -> A, value: A -> B, ok: B -> bool): Format<B> {
    Format((y: B) => f.fits(parts(y)) && value(parts(y)) == y && ok(y),
           (y: B) => f.encode(parts(y)),
           b => ReadAs(f, value, ok, b))
  }

  lemma AsExact<A(!new), B(!new)>(f: Format<A>, parts: B -> A, value: A -> B, ok: B -> bool)
    requires Exact(f) && forall x :: f.fits(x) ==> parts(value(x)) == x
    ensures Exact(As(f, parts, value, ok))
  {
  }

  // ---- Whole records ----

  function ReadAllOf<A>(f: Format<A>, b: Bytes): Option<A> {
    match f.decode(b)
    case Nothing => None
    case Got(x, n) => if n == |b| then Some(x) else None
  }

  /** Nothing may follow. */
  function Ended<A>(f: Format<A>): Whole<A> {
    Whole(f.fits, f.encode, b => ReadAllOf(f, b))
  }

  lemma EndedInverse<A(!new)>(f: Format<A>)
    requires Exact(f)
    ensures Inverse(Ended(f))
  {
    forall x | f.fits(x) ensures ReadAllOf(f, f.encode(x)) == Some(x) {
      assert f.encode(x) + [] == f.encode(x);
    }
    forall b | ReadAllOf(f, b).Some? ensures f.fits(ReadAllOf(f, b).value) && f.encode(ReadAllOf(f, b).value) == b {
      assert b[..|b|] == b;
    }
  }

  function Seal(body: Bytes): Bytes {
    body + Store32(Checksum(body))
  }

  function ReadSealed<A>(w: Whole<A>, b: Bytes): Option<A> {
    if |b| < 4 || Checksum(b[..|b| - 4]) != Load32(b[|b| - 4..]) then None else w.decode(b[..|b| - 4])
  }

  /** The record's CRC32C at its end. */
  function Sealed<A>(w: Whole<A>): Whole<A> {
    Whole(w.fits, (x: A) => Seal(w.encode(x)), b => ReadSealed(w, b))
  }

  lemma SealedInverse<A(!new)>(w: Whole<A>)
    requires Inverse(w)
    ensures Inverse(Sealed(w))
  {
    hide Store32, Load32, Checksum;
    forall x | w.fits(x) ensures ReadSealed(w, Seal(w.encode(x))) == Some(x) {
      var body := w.encode(x);
      RoundTrip32(Checksum(body));
      assert Seal(body)[..|body|] == body && Seal(body)[|body|..] == Store32(Checksum(body));
    }
    forall b | ReadSealed(w, b).Some? ensures w.fits(ReadSealed(w, b).value) && Seal(w.encode(ReadSealed(w, b).value)) == b {
      Again32(b[|b| - 4..]);
      assert b == b[..|b| - 4] + b[|b| - 4..];
    }
  }

  /** One changed byte anywhere makes a sealed record unreadable. */
  lemma DamageIsRefused<A(!new)>(w: Whole<A>, x: A, k: nat, v: byte)
    requires k < |Sealed(w).encode(x)| && v != Sealed(w).encode(x)[k]
    ensures Sealed(w).decode(Sealed(w).encode(x)[k := v]) == None
  {
    hide Store32, Load32, Checksum;
    var body := w.encode(x);
    var b, n := Seal(body)[k := v], |body|;
    RoundTrip32(Checksum(body));
    if k < n {
      assert b[n..] == Store32(Checksum(body));
      SnapshotFile.OneByteChanged(body, b[..n], k);
    } else {
      assert b[..n] == body;
      Again32(b[n..]);
      assert b[n..][k - n] != Store32(Checksum(body))[k - n];
    }
  }

  function ReadFramed<A>(bound: nat, w: Whole<A>, b: Bytes): Reading<A> {
    if |b| < 4 || Load32(b[..4]) > bound || |b| < 4 + Load32(b[..4]) then Nothing
    else
      var n: nat := Load32(b[..4]);
      match w.decode(b[4..4 + n])
      case None => Nothing
      case Some(x) => Got(x, 4 + n)
  }

  /** A whole record inside another one, after its length. */
  function Framed<A>(bound: nat, w: Whole<A>): Format<A> {
    Format((x: A) => w.fits(x) && |w.encode(x)| <= bound && |w.encode(x)| < U32_LIMIT,
           (x: A) => if |w.encode(x)| < U32_LIMIT then Store32(|w.encode(x)|) + w.encode(x) else [],
           b => ReadFramed(bound, w, b))
  }

  lemma FramedExact<A(!new)>(bound: nat, w: Whole<A>)
    requires Inverse(w)
    ensures Exact(Framed(bound, w))
  {
    hide Store32, Load32, Exact;
    forall x, rest | w.fits(x) && |w.encode(x)| <= bound && |w.encode(x)| < U32_LIMIT
      ensures ReadFramed(bound, w, Store32(|w.encode(x)|) + w.encode(x) + rest) == Got(x, 4 + |w.encode(x)|)
    {
      var e := w.encode(x);
      var b := Store32(|e|) + e + rest;
      RoundTrip32(|e|);
      assert b[..4] == Store32(|e|) && b[4..4 + |e|] == e;
    }
    forall b | ReadFramed(bound, w, b).Got?
      ensures var r := ReadFramed(bound, w, b);
              var e := w.encode(r.value);
              r.size <= |b| && w.fits(r.value) && |e| <= bound && |e| < U32_LIMIT && Store32(|e|) + e == b[..r.size]
    {
      var n: nat := Load32(b[..4]);
      Again32(b[..4]);
      assert b[..4 + n] == b[..4] + b[4..4 + n];
    }
    ExactFrom(Framed(bound, w));
  }
}

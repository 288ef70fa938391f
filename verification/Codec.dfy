/** The wire codec (mls/syntax; section 2.1.2 of RFC 9420): variable-length integers, opaque<V>,
    optional<T> and vectors. Reading undoes writing before any suffix, and whatever a reader
    accepts is what the writer would have produced. */
module Codec {

  import opened TreeMath
  import opened Bytes

  const MAX_VARINT: nat := 0x3FFF_FFFF

  datatype Parsed<T> = Parsed(value: T, rest: seq<byte>)

  // ---------------------------------------------------------------- variable-length integers

  function Byte(x: nat): byte {
    (x % 256) as byte
  }

  /** The shortest of the one-, two- and four-byte forms; the top two bits give the length. */
  function WriteVarint(v: nat): Option<seq<byte>> {
    if v < 0x40 then Some([Byte(v)])
    else if v < 0x4000 then Some([Byte(0x40 + v / 0x100), Byte(v)])
    else if v <= MAX_VARINT then Some([Byte(0x80 + v / 0x100_0000), Byte(v / 0x1_0000), Byte(v / 0x100), Byte(v)])
    else None
  }

  /** 1, 2 or 4; the eight-byte form is refused. */
  function VarintLength(first: byte): Option<nat> {
    var prefix := first as nat / 0x40;
    if prefix == 3 then None else Some(Shl(1, prefix))
  }

  function VarintValue(b: seq<byte>): nat
    requires b != []
  {
    if |b| == 1 then b[0] as nat % 0x40 else 0x100 * VarintValue(b[..|b| - 1]) + b[|b| - 1] as nat
  }

  function ReadVarint(b: seq<byte>): Option<Parsed<nat>> {
    if b == [] || VarintLength(b[0]).None? then None
    else
      var length := VarintLength(b[0]).value;
      if |b| < length || length == 0 then None
      else
        var v := VarintValue(b[..length]);
        var canonical := WriteVarint(v);
        if canonical.Some? && |canonical.value| == length then Some(Parsed(v, b[length..])) else None
  }

  lemma VarintLengths(first: byte)
    ensures first < 0x40 ==> VarintLength(first) == Some(1)
    ensures 0x40 <= first < 0x80 ==> VarintLength(first) == Some(2)
    ensures 0x80 <= first < 0xC0 ==> VarintLength(first) == Some(4)
    ensures 0xC0 <= first ==> VarintLength(first) == None
  {
    assert Shl(1, 0) == 1;
    assert Shl(1, 1) == 2;
    assert Shl(1, 2) == 4;
  }

  lemma VarintValues(b: seq<byte>)
    ensures |b| == 1 ==> VarintValue(b) == b[0] as nat % 0x40
    ensures |b| == 2 ==> VarintValue(b) == 0x100 * (b[0] as nat % 0x40) + b[1] as nat
    ensures |b| == 4 ==>
      VarintValue(b) == 0x100_0000 * (b[0] as nat % 0x40) + 0x1_0000 * b[1] as nat + 0x100 * b[2] as nat + b[3] as nat
  {
    if |b| == 2 {
      assert b[..1] == [b[0]];
    } else if |b| == 4 {
      assert b[..3][..2] == b[..2] && b[..2][..1] == [b[0]];
      assert VarintValue(b[..2]) == 0x100 * (b[0] as nat % 0x40) + b[1] as nat;
      assert VarintValue(b[..3]) == 0x100 * VarintValue(b[..2]) + b[2] as nat;
    }
  }

  lemma ByteIs(x: nat)
    requires x < 256
    ensures Byte(x) as nat == x
  {
  }

  lemma WrittenShort(v: nat)
    requires v < 0x4000
    ensures WriteVarint(v).Some? && var enc := WriteVarint(v).value;
            enc != [] && VarintLength(enc[0]) == Some(|enc|) && VarintValue(enc) == v
  {
    var enc := WriteVarint(v).value;
    VarintLengths(enc[0]);
    VarintValues(enc);
    if v < 0x40 { ByteIs(v); } else { ByteIs(0x40 + v / 0x100); }
  }

  lemma FourFirst(q: nat)
    requires q < 0x40
    ensures Byte(0x80 + q) as nat % 0x40 == q && 0x80 <= Byte(0x80 + q) < 0xC0
  {
    ByteIs(0x80 + q);
  }

  lemma WrittenLong(v: nat)
    requires 0x4000 <= v <= MAX_VARINT
    ensures WriteVarint(v).Some? && var enc := WriteVarint(v).value;
            enc != [] && VarintLength(enc[0]) == Some(|enc|) && VarintValue(enc) == v
  {
    var a, b, c, d := v / 0x100_0000, (v / 0x1_0000) % 0x100, (v / 0x100) % 0x100, v % 0x100;
    FourFirst(a);
    var enc := [Byte(0x80 + a), b as byte, c as byte, d as byte];
    assert WriteVarint(v) == Some(enc);
    VarintLengths(enc[0]);
    VarintValues(enc);
    FourBytes(v);
  }

  /** The writer's form announces its own length and its digits are the value. */
  lemma Written(v: nat)
    requires v <= MAX_VARINT
    ensures WriteVarint(v).Some? && var enc := WriteVarint(v).value;
            enc != [] && VarintLength(enc[0]) == Some(|enc|) && VarintValue(enc) == v
  {
    if v < 0x4000 { WrittenShort(v); } else { WrittenLong(v); }
  }

  lemma VarintRoundTrip(v: nat, suffix: seq<byte>)
    requires v <= MAX_VARINT
    ensures WriteVarint(v).Some? && ReadVarint(WriteVarint(v).value + suffix) == Some(Parsed(v, suffix))
  {
    Written(v);
    var enc := WriteVarint(v).value;
    var b := enc + suffix;
    assert b[0] == enc[0] && b[..|enc|] == enc && b[|enc|..] == suffix;
  }

  lemma FourBytes(v: nat)
    requires v <= MAX_VARINT
    ensures v == 0x100_0000 * (v / 0x100_0000) + 0x1_0000 * ((v / 0x1_0000) % 0x100) + 0x100 * ((v / 0x100) % 0x100)
            + v % 0x100
  {
    assert v / 0x100 / 0x100 == v / 0x1_0000;
    assert v / 0x1_0000 / 0x100 == v / 0x100_0000;
  }

  /** Digits of the length their own first byte announces, if shortest, are what the writer writes. */
  lemma Rewritten(head: seq<byte>)
    requires head != [] && VarintLength(head[0]) == Some(|head|)
    ensures VarintValue(head) <= MAX_VARINT
    ensures var w := WriteVarint(VarintValue(head)); w.Some? && (|w.value| == |head| ==> w.value == head)
  {
    VarintLengths(head[0]);
    if |head| == 1 { OneForm(head); } else if |head| == 2 { TwoForm(head); } else { FourForm(head); }
  }

  lemma OneForm(head: seq<byte>)
    requires |head| == 1 && head[0] < 0x40
    ensures var v := VarintValue(head); v < 0x40 && [Byte(v)] == head
  {
    ByteIs(head[0] as nat);
  }

  lemma TwoForm(head: seq<byte>)
    requires |head| == 2 && 0x40 <= head[0] < 0x80
    ensures var v := VarintValue(head); v < 0x4000 && [Byte(0x40 + v / 0x100), Byte(v)] == head
  {
    VarintValues(head);
    var v, a := VarintValue(head), head[0] as nat % 0x40;
    assert v / 0x100 == a && v % 0x100 == head[1] as nat;
    ByteIs(0x40 + a);
    assert head == [head[0], head[1]];
  }

  lemma {:induction false} FourForm(head: seq<byte>)
    requires |head| == 4 && 0x80 <= head[0] < 0xC0
    ensures var v := VarintValue(head);
            v <= MAX_VARINT && [Byte(0x80 + v / 0x100_0000), Byte(v / 0x1_0000), Byte(v / 0x100), Byte(v)] == head
  {
    VarintValues(head);
    var v, a := VarintValue(head), head[0] as nat % 0x40;
    FourDigits(a, head[1] as nat, head[2] as nat, head[3] as nat);
    ByteIs(0x80 + a);
    assert Byte(v / 0x1_0000) == head[1];
    assert Byte(v / 0x100) == head[2];
    assert Byte(v) == head[3];
    assert head == [head[0], head[1], head[2], head[3]];
  }

  /** Whatever is accepted is the one encoding of its value. */
  lemma VarintCanonical(b: seq<byte>)
    requires ReadVarint(b).Some?
    ensures var p := ReadVarint(b).value;
            p.value <= MAX_VARINT && WriteVarint(p.value).Some? && b == WriteVarint(p.value).value + p.rest
  {
    var length := VarintLength(b[0]).value;
    var head := b[..length];
    assert head[0] == b[0] && b == head + b[length..];
    Rewritten(head);
  }

  lemma FourDigits(a: nat, b: nat, c: nat, d: nat)
    requires a < 0x40 && b < 0x100 && c < 0x100 && d < 0x100
    ensures var v := 0x100_0000 * a + 0x1_0000 * b + 0x100 * c + d;
            v / 0x100_0000 == a && (v / 0x1_0000) % 0x100 == b && (v / 0x100) % 0x100 == c && v % 0x100 == d
  {
    var v := 0x100_0000 * a + 0x1_0000 * b + 0x100 * c + d;
    assert v / 0x1_0000 == 0x100 * a + b;
    assert v / 0x100 == 0x1_0000 * a + 0x100 * b + c;
  }

  // ---------------------------------------------------------------- opaque<V>

  function WriteOpaque(p: seq<byte>): Option<seq<byte>> {
    match WriteVarint(|p|)
    case None => None
    case Some(h) => Some(h + p)
  }

  function ReadOpaque(b: seq<byte>): Option<Parsed<seq<byte>>> {
    match ReadVarint(b)
    case None => None
    case Some(h) => if |h.rest| < h.value then None else Some(Parsed(h.rest[..h.value], h.rest[h.value..]))
  }

  lemma OpaqueRoundTrip(p: seq<byte>, suffix: seq<byte>)
    requires |p| <= MAX_VARINT
    ensures WriteOpaque(p).Some? && ReadOpaque(WriteOpaque(p).value + suffix) == Some(Parsed(p, suffix))
  {
    VarintRoundTrip(|p|, p + suffix);
    var h := WriteVarint(|p|).value;
    assert h + p + suffix == h + (p + suffix);
    assert (p + suffix)[..|p|] == p && (p + suffix)[|p|..] == suffix;
  }

  lemma OpaqueCanonical(b: seq<byte>)
    requires ReadOpaque(b).Some?
    ensures var p := ReadOpaque(b).value;
            |p.value| <= MAX_VARINT && WriteOpaque(p.value).Some? && b == WriteOpaque(p.value).value + p.rest
  {
    VarintCanonical(b);
    var h, p := ReadVarint(b).value, ReadOpaque(b).value;
    assert h.rest == p.value + p.rest && |p.value| == h.value;
    var head := WriteVarint(h.value).value;
    assert head + (p.value + p.rest) == head + p.value + p.rest;
  }

  // ---------------------------------------------------------------- element codecs

  type Encoder<!T> = T -> Option<seq<byte>>
  type Decoder<!T> = seq<byte> -> Option<Parsed<T>>

  /** Decoding an encoding before any suffix gives the value and that suffix. */
  ghost predicate RoundTrips<T(!new)>(enc: Encoder<T>, dec: Decoder<T>) {
    forall x, suffix :: enc(x).Some? ==> dec(enc(x).value + suffix) == Some(Parsed(x, suffix))
  }

  /** Every accepted input is its value's encoding followed by the rest. */
  ghost predicate IsCanonical<T(!new)>(enc: Encoder<T>, dec: Decoder<T>) {
    forall b :: dec(b).Some? ==> enc(dec(b).value.value).Some? && b == enc(dec(b).value.value).value + dec(b).value.rest
  }

  ghost predicate Consumes<T(!new)>(dec: Decoder<T>) {
    forall b :: dec(b).Some? ==> |dec(b).value.rest| < |b|
  }

  // ---------------------------------------------------------------- optional<T>

  function WriteOptional<T>(enc: Encoder<T>, v: Option<T>): Option<seq<byte>> {
    match v
    case None => Some([0])
    case Some(x) => match enc(x) { case None => None case Some(e) => Some([1] + e) }
  }

  function ReadOptional<T>(dec: Decoder<T>, b: seq<byte>): Option<Parsed<Option<T>>> {
    if b == [] then None
    else if b[0] == 0 then Some(Parsed(None, b[1..]))
    else if b[0] == 1 then
      match dec(b[1..])
      case None => None
      case Some(p) => Some(Parsed(Some(p.value), p.rest))
    else None
  }

  lemma OptionalRoundTrip<T(!new)>(enc: Encoder<T>, dec: Decoder<T>, v: Option<T>, suffix: seq<byte>)
    requires RoundTrips(enc, dec) && WriteOptional(enc, v).Some?
    ensures ReadOptional(dec, WriteOptional(enc, v).value + suffix) == Some(Parsed(v, suffix))
  {
    var b := WriteOptional(enc, v).value + suffix;
    if v.None? {
      assert b[1..] == suffix;
    } else {
      assert b[1..] == enc(v.value).value + suffix;
    }
  }

  lemma OptionalCanonical<T(!new)>(enc: Encoder<T>, dec: Decoder<T>, b: seq<byte>)
    requires IsCanonical(enc, dec) && ReadOptional(dec, b).Some?
    ensures var p := ReadOptional(dec, b).value;
            WriteOptional(enc, p.value).Some? && b == WriteOptional(enc, p.value).value + p.rest
  {
    assert b == [b[0]] + b[1..];
    if b[0] == 1 {
      var p := dec(b[1..]).value;
      assert b[1..] == enc(p.value).value + p.rest;
      assert [1] + (enc(p.value).value + p.rest) == [1] + enc(p.value).value + p.rest;
    }
  }

  // ---------------------------------------------------------------- vectors

  function WriteItems<T>(enc: Encoder<T>, items: seq<T>): Option<seq<byte>> {
    if items == [] then Some([])
    else
      match enc(items[0])
      case None => None
      case Some(e) => Prefixed(e, WriteItems(enc, items[1..]))
  }

  function Prefixed<X>(a: seq<X>, r: Option<seq<X>>): Option<seq<X>> {
    match r
    case None => None
    case Some(s) => Some(a + s)
  }

  lemma PrefixedTwice<X>(a: seq<X>, b: seq<X>, r: Option<seq<X>>)
    ensures Prefixed(a, Prefixed(b, r)) == Prefixed(a + b, r)
    ensures Prefixed([], r) == r
  {
    if r.Some? { assert a + (b + r.value) == a + b + r.value; assert [] + r.value == r.value; }
  }

  ghost function ReadItems<T(!new)>(dec: Decoder<T>, b: seq<byte>): Option<seq<T>>
    requires Consumes(dec)
    decreases |b|
  {
    if b == [] then Some([])
    else
      match dec(b)
      case None => None
      case Some(p) => Prefixed([p.value], ReadItems(dec, p.rest))
  }

  function WriteVector<T>(enc: Encoder<T>, items: seq<T>): Option<seq<byte>> {
    match WriteItems(enc, items)
    case None => None
    case Some(body) => WriteOpaque(body)
  }

  ghost function ReadVector<T(!new)>(dec: Decoder<T>, b: seq<byte>): Option<Parsed<seq<T>>>
    requires Consumes(dec)
  {
    match ReadOpaque(b)
    case None => None
    case Some(p) => match ReadItems(dec, p.value) { case None => None case Some(xs) => Some(Parsed(xs, p.rest)) }
  }

  lemma {:induction false} ItemsRoundTrip<T(!new)>(enc: Encoder<T>, dec: Decoder<T>, items: seq<T>)
    requires RoundTrips(enc, dec) && Consumes(dec) && WriteItems(enc, items).Some?
    ensures ReadItems(dec, WriteItems(enc, items).value) == Some(items)
  {
    if items != [] {
      var e, es := enc(items[0]).value, WriteItems(enc, items[1..]).value;
      assert dec(e + es) == Some(Parsed(items[0], es));
      ItemsRoundTrip(enc, dec, items[1..]);
      assert items == [items[0]] + items[1..];
    }
  }

  lemma {:induction false} ItemsCanonical<T(!new)>(enc: Encoder<T>, dec: Decoder<T>, b: seq<byte>)
    requires IsCanonical(enc, dec) && Consumes(dec) && ReadItems(dec, b).Some?
    ensures WriteItems(enc, ReadItems(dec, b).value) == Some(b)
    decreases |b|
  {
    if b != [] {
      var p := dec(b).value;
      ItemsCanonical(enc, dec, p.rest);
      assert ([p.value] + ReadItems(dec, p.rest).value)[1..] == ReadItems(dec, p.rest).value;
    }
  }

  lemma VectorRoundTrip<T(!new)>(enc: Encoder<T>, dec: Decoder<T>, items: seq<T>, suffix: seq<byte>)
    requires RoundTrips(enc, dec) && Consumes(dec) && WriteVector(enc, items).Some?
    ensures ReadVector(dec, WriteVector(enc, items).value + suffix) == Some(Parsed(items, suffix))
  {
    var body := WriteItems(enc, items).value;
    OpaqueRoundTrip(body, suffix);
    ItemsRoundTrip(enc, dec, items);
  }

  lemma VectorCanonical<T(!new)>(enc: Encoder<T>, dec: Decoder<T>, b: seq<byte>)
    requires IsCanonical(enc, dec) && Consumes(dec) && ReadVector(dec, b).Some?
    ensures var p := ReadVector(dec, b).value;
            WriteVector(enc, p.value).Some? && b == WriteVector(enc, p.value).value + p.rest
  {
    OpaqueCanonical(b);
    ItemsCanonical(enc, dec, ReadOpaque(b).value.value);
  }

  // ---------------------------------------------------------------- loops and buffers

  method DecodeVarint(b: seq<byte>) returns (r: Option<Parsed<nat>>)
    ensures r == ReadVarint(b)
  {
    if |b| == 0 { return None; }
    VarintLengths(b[0]);
    if b[0] >= 0xC0 { return None; }
    var length := VarintLength(b[0]).value;
    if |b| < length { return None; }
    var v := b[0] as nat % 0x40;
    var i := 1;
    assert b[..1] == [b[0]];
    while i < length
      invariant 1 <= i <= length && v == VarintValue(b[..i])
    {
      assert b[..i + 1][..i] == b[..i];
      v := 0x100 * v + b[i] as nat;
      i := i + 1;
    }
    var canonical := WriteVarint(v);
    if canonical.None? || |canonical.value| != length { return None; }
    r := Some(Parsed(v, b[length..]));
  }

  lemma PresenceByte(x: nat)
    requires x < 2
    ensures x < Pow256(1) && BigEndian(x, 1) == [x as byte]
  {
    assert Pow256(1) == 256 * Pow256(0) && BigEndian(x, 1) == BigEndian(x / 256, 0) + [(x % 256) as byte];
  }

  class Builder {
    var buf: seq<byte>

    constructor ()
      ensures buf == []
    {
      buf := [];
    }

    method WriteUint(x: nat, n: nat)
      requires x < Pow256(n)
      modifies this
      ensures buf == old(buf) + BigEndian(x, n)
    {
      buf := buf + BigEndian(x, n);
    }

    method WriteRaw(p: seq<byte>)
      modifies this
      ensures buf == old(buf) + p
    {
      buf := buf + p;
    }

    method WriteVarintTo(v: nat) returns (ok: bool)
      modifies this
      ensures ok == WriteVarint(v).Some?
      ensures buf == old(buf) + if ok then WriteVarint(v).value else []
    {
      var enc := WriteVarint(v);
      if enc.None? { return false; }
      buf := buf + enc.value;
      ok := true;
    }

    method WriteOpaqueV(p: seq<byte>) returns (ok: bool)
      modifies this
      ensures ok == WriteOpaque(p).Some?
      ensures buf == old(buf) + if ok then WriteOpaque(p).value else []
    {
      ok := WriteVarintTo(|p|);
      if !ok { return; }
      buf := buf + p;
    }

    method WriteVectorV<T>(items: seq<T>, enc: Encoder<T>) returns (ok: bool)
      modifies this
      ensures ok == WriteVector(enc, items).Some?
      ensures buf == old(buf) + if ok then WriteVector(enc, items).value else []
    {
      var inner := new Builder();
      var i := 0;
      assert items[0..] == items;
      PrefixedTwice([], [], WriteItems(enc, items));
      while i < |items|
        invariant 0 <= i <= |items| && fresh(inner) && buf == old(buf)
        invariant WriteItems(enc, items) == Prefixed(inner.buf, WriteItems(enc, items[i..]))
      {
        assert items[i..][0] == items[i] && items[i..][1..] == items[i + 1..];
        var e := enc(items[i]);
        if e.None? { return false; }
        PrefixedTwice(inner.buf, e.value, WriteItems(enc, items[i + 1..]));
        inner.WriteRaw(e.value);
        i := i + 1;
      }
      assert items[i..] == [] && inner.buf + [] == inner.buf;
      ok := WriteOpaqueV(inner.buf);
    }

    /** A value that cannot be encoded leaves its presence byte behind. */
    method WriteOptionalTo<T>(v: Option<T>, enc: Encoder<T>) returns (ok: bool)
      modifies this
      ensures ok == WriteOptional(enc, v).Some?
      ensures buf == old(buf) + if ok then WriteOptional(enc, v).value else [1]
    {
      PresenceByte(if v.None? then 0 else 1);
      if v.None? { WriteUint(0, 1); return true; }
      WriteUint(1, 1);
      var e := enc(v.value);
      if e.None? { return false; }
      assert old(buf) + [1] + e.value == old(buf) + ([1] + e.value);
      WriteRaw(e.value);
      ok := true;
    }
  }

  /** Where reading opaque<V> ends: after the body, after a length whose body is cut short, or at the
      start when there is no length. */
  function AfterOpaque(b: seq<byte>): seq<byte> {
    match ReadVarint(b)
    case None => b
    case Some(h) => if ReadOpaque(b).Some? then ReadOpaque(b).value.rest else h.rest
  }

  class Cursor {
    var buf: seq<byte>

    constructor (b: seq<byte>)
      ensures buf == b
    {
      buf := b;
    }

    /** A short read leaves the cursor where it was. */
    method Take(n: int) returns (r: Option<seq<byte>>)
      modifies this
      ensures r.Some? <==> 0 <= n <= |old(buf)|
      ensures if r.Some? then |r.value| == n && old(buf) == r.value + buf else buf == old(buf)
    {
      if n < 0 || |buf| < n { return None; }
      r := Some(buf[..n]);
      buf := buf[n..];
    }

    method ReadUint(n: nat) returns (r: Option<nat>)
      modifies this
      ensures r.Some? <==> n <= |old(buf)|
      ensures if r.Some? then r.value < Pow256(n) && old(buf) == BigEndian(r.value, n) + buf else buf == old(buf)
    {
      var p := Take(n);
      if p.None? { return None; }
      BigEndianWritten(p.value);
      r := Some(FromBigEndian(p.value));
    }

    method ReadVarintFrom() returns (r: Option<nat>)
      modifies this
      ensures match ReadVarint(old(buf))
              case None => r == None && buf == old(buf)
              case Some(p) => r == Some(p.value) && buf == p.rest
    {
      var p := DecodeVarint(buf);
      if p.None? { return None; }
      buf := p.value.rest;
      r := Some(p.value.value);
    }

    /** A body cut short leaves the cursor after its length. */
    method ReadOpaqueV() returns (r: Option<seq<byte>>)
      modifies this
      ensures buf == AfterOpaque(old(buf))
      ensures match ReadOpaque(old(buf))
              case None => r == None
              case Some(p) => r == Some(p.value) && buf == p.rest
    {
      var n := ReadVarintFrom();
      if n.None? { return None; }
      r := Take(n.value);
    }

    /** Ends because every element takes at least one byte of the body. A bad element leaves the
        cursor after the whole body. */
    method ReadVectorV<T(!new)>(dec: Decoder<T>) returns (r: Option<seq<T>>)
      requires Consumes(dec)
      modifies this
      ensures match ReadVector(dec, old(buf))
              case None => r == None && buf == AfterOpaque(old(buf))
              case Some(p) => r == Some(p.value) && buf == p.rest
    {
      var body := ReadOpaqueV();
      if body.None? { return None; }
      var sub := new Cursor(body.value);
      var out: seq<T> := [];
      ghost var rest := buf;
      PrefixedTwice<T>([], [], ReadItems(dec, sub.buf));
      while sub.buf != []
        invariant fresh(sub) && buf == rest
        invariant ReadItems(dec, body.value) == Prefixed(out, ReadItems(dec, sub.buf))
        decreases |sub.buf|
      {
        var p := dec(sub.buf);
        if p.None? { return None; }
        PrefixedTwice(out, [p.value.value], ReadItems(dec, p.value.rest));
        out := out + [p.value.value];
        sub.buf := p.value.rest;
      }
      assert out + [] == out;
      r := Some(out);
    }

    /** A bad presence byte or value leaves the cursor after the presence byte. */
    method ReadOptionalFrom<T>(dec: Decoder<T>) returns (r: Option<Option<T>>)
      modifies this
      ensures match ReadOptional(dec, old(buf))
              case None => r == None && buf == if old(buf) == [] then [] else old(buf)[1..]
              case Some(p) => r == Some(p.value) && buf == p.rest
    {
      var present := Take(1);
      if present.None? { return None; }
      if present.value[0] == 0 { return Some(None); }
      if present.value[0] != 1 { return None; }
      var p := dec(buf);
      if p.None? { return None; }
      buf := p.value.rest;
      r := Some(Some(p.value.value));
    }
  }
}

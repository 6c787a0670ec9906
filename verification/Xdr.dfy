/** XDR encoding and decoding (lib/xdr.h, lib/xdr.cc), after section 3 of RFC 1832: integers, bools,
    padded opaques, vectors, arrays, pointers, and the length-delimited options of this library. */
module Xdr {

  type Byte = b: int | 0 <= b < 256

  /** An XDR type.  Integers have 1, 2, 4 or 8 bytes; lengths are bounded as the source bounds them. */
  datatype Type =
    | TInt(width: nat, signed: bool)
    | TBool
    | TOpaque(maxlen: nat)               // variable-length, padded
    | TFixed(len: nat)                   // byte vector, not padded
    | TVector(elem: Type, len: nat)
    | TArray(elem: Type, maxlen: nat)
    | TPointer(elem: Type)
    | TOption(elem: Type)

  /** Raw is an option kept in its encoded form. */
  datatype Value =
    | Num(n: int)
    | Flag(b: bool)
    | Bytes(bytes: seq<Byte>)
    | List(elems: seq<Value>)
    | None
    | Some(v: Value)
    | Raw(bytes: seq<Byte>)

  datatype Read = Fail | Got(value: Value, rest: seq<Byte>)
  datatype ReadList = FailList | GotList(values: seq<Value>, rest: seq<Byte>)

  // ---------- words ----------

  function Pow256(n: nat): (p: nat)
    ensures p > 0
  {
    if n == 0 then 1 else 256 * Pow256(n - 1)
  }

  /** The n low bytes of x, most significant first. */
  function BigEndian(n: nat, x: int): (bs: seq<Byte>)
    ensures |bs| == n
  {
    if n == 0 then [] else BigEndian(n - 1, x / 256) + [x % 256]
  }

  function FromBigEndian(bs: seq<Byte>): nat {
    if bs == [] then 0 else 256 * FromBigEndian(bs[..|bs| - 1]) + bs[|bs| - 1]
  }

  lemma {:induction false} WordRoundTrip(n: nat, x: int)
    ensures FromBigEndian(BigEndian(n, x)) == x % Pow256(n)
  {
    if n > 0 {
      var bs := BigEndian(n, x);
      assert bs[..n - 1] == BigEndian(n - 1, x / 256);
      WordRoundTrip(n - 1, x / 256);
      ModStep(x, Pow256(n - 1));
    }
  }

  /** 256 * ((x / 256) mod m) + x mod 256 is x mod 256 m. */
  lemma ModStep(x: int, m: nat)
    requires m > 0
    ensures 256 * ((x / 256) % m) + x % 256 == x % (256 * m)
  {
    var q, r := (x / 256) / m, (x / 256) % m;
    assert x == 256 * (q * m + r) + x % 256;
    Euclid(x, q, 256 * r + x % 256, 256 * m);
  }

  lemma Euclid(x: int, q: int, r: int, m: int)
    requires 0 <= r < m && x == q * m + r
    ensures x % m == r
  {
    var p := x / m;
    assert x == p * m + x % m;
    if p > q { AtLeast(p - q, m); } else if p < q { AtLeast(q - p, m); }
  }

  lemma AtLeast(t: int, m: int)
    requires t >= 1 && m >= 1
    ensures t * m >= m
  {
  }

  /** Bytes an integer occupies on the wire: anything below 8 is widened to 4. */
  function WireWidth(width: nat): nat { if width == 8 then 8 else 4 }

  predicate Width(width: nat) { width == 1 || width == 2 || width == 4 || width == 8 }

  /** The low `width` bytes of a word, as the C++ type reads them. */
  function Narrow(width: nat, signed: bool, x: nat): int {
    var low := x % Pow256(width);
    if signed && 2 * low >= Pow256(width) then low - Pow256(width) else low
  }

  predicate InRange(width: nat, signed: bool, n: int) {
    if signed then 0 <= 2 * n + Pow256(width) < 2 * Pow256(width) else 0 <= n < Pow256(width)
  }

  lemma Powers()
    ensures Pow256(1) == 256 && Pow256(2) == 0x1_0000 && Pow256(4) == 0x1_0000_0000
    ensures Pow256(8) == 0x1_0000_0000_0000_0000
  {
    assert Pow256(3) == 256 * Pow256(2) && Pow256(5) == 256 * Pow256(4);
    assert Pow256(6) == 256 * Pow256(5) && Pow256(7) == 256 * Pow256(6);
  }

  /** The value an integer has on the wire: a small unsigned one is sign-extended like a signed one. */
  function Widened(width: nat, signed: bool, n: int): int {
    if !signed && 2 * n >= Pow256(width) then n - Pow256(width) else n
  }

  /** A negative number, cut to the wire width and then to the narrow width m. */
  lemma NegativeLow(x: int, m: int, wire: int, q: int)
    requires 0 < m && -m <= x < 0 && wire == (q + 1) * m && 0 <= q
    ensures x % wire == x + wire && (x + wire) % m == x + m
  {
    assert wire == q * m + m;
    assert q * m >= 0;
    Euclid(x, -1, x + wire, wire);
    Euclid(x + wire, q, x + m, m);
  }

  lemma NarrowRoundTrip(width: nat, signed: bool, n: int)
    requires Width(width) && InRange(width, signed, n)
    ensures Narrow(width, signed, Widened(width, signed, n) % Pow256(WireWidth(width))) == n
  {
    hide Pow256;
    Powers();
    var x := Widened(width, signed, n);
    if x < 0 {
      match width {
        case 1 => NegativeLow(x, 256, 0x1_0000_0000, 0xFF_FFFF);
        case 2 => NegativeLow(x, 0x1_0000, 0x1_0000_0000, 0xFFFF);
        case 4 => NegativeLow(x, 0x1_0000_0000, 0x1_0000_0000, 0);
        case 8 => NegativeLow(x, 0x1_0000_0000_0000_0000, 0x1_0000_0000_0000_0000, 0);
      }
    }
  }

  // ---------- encoding ----------

  function Padding(len: nat): nat { (4 - len % 4) % 4 }

  lemma PaddingIs(len: nat)
    ensures Padding(len) == if len % 4 == 0 then 0 else 4 - len % 4
  {
  }

  lemma DropTwice(a: seq<Byte>, i: nat, j: nat)
    requires i + j <= |a|
    ensures a[i..][j..] == a[i + j..]
  {
  }

  function Zeros(n: nat): (z: seq<Byte>)
    ensures |z| == n
  {
    if n == 0 then [] else Zeros(n - 1) + [0]
  }

  /** A 32-bit length word and the padded bytes (sections 3.9 and 3.10 of RFC 1832). */
  function EncodeOpaque(bytes: seq<Byte>): seq<Byte> {
    BigEndian(4, |bytes|) + bytes + Zeros(Padding(|bytes|))
  }

  const LENGTH_LIMIT := 0x8000_0000

  function Encode(t: Type, v: Value): seq<Byte>
    decreases v, 1
  {
    match (t, v)
    case (TInt(width, signed), Num(n)) => BigEndian(WireWidth(width), Widened(width, signed, n))
    case (TBool, Flag(b)) => BigEndian(4, if b then 1 else 0)
    case (TOpaque(_), Bytes(bytes)) => EncodeOpaque(bytes)
    case (TFixed(_), Bytes(bytes)) => bytes
    case (TVector(elem, _), List(elems)) => EncodeList(elem, elems)
    case (TArray(elem, _), List(elems)) => BigEndian(4, |elems|) + EncodeList(elem, elems)
    case (TPointer(_), None) => BigEndian(4, 0)
    case (TPointer(elem), Some(w)) => BigEndian(4, 1) + Encode(elem, w)
    case (TOption(_), None) => EncodeOpaque([])
    case (TOption(elem), Some(w)) => EncodeOpaque(Encode(elem, w))
    case (TOption(_), Raw(bytes)) => EncodeOpaque(bytes)
    case _ => []
  }

  function EncodeList(t: Type, vs: seq<Value>): seq<Byte>
    decreases vs, 0
  {
    if vs == [] then [] else Encode(t, vs[0]) + EncodeList(t, vs[1..])
  }

  // ---------- decoding ----------

  /** The length word, the bytes, and the padding, which must be present but may hold anything. */
  function DecodeOpaque(bs: seq<Byte>): Read {
    if |bs| < 4 then Fail
    else
      var len := FromBigEndian(bs[..4]);
      if len >= LENGTH_LIMIT || |bs| < 4 + len + Padding(len) then Fail
      else Got(Bytes(bs[4..4 + len]), bs[4 + len + Padding(len)..])
  }

  function Decode(t: Type, bs: seq<Byte>): Read
    decreases t, 0, 0
  {
    match t
    case TInt(width, signed) =>
      var n := WireWidth(width);
      if |bs| < n then Fail else Got(Num(Narrow(width, signed, FromBigEndian(bs[..n]))), bs[n..])
    case TBool => if |bs| < 4 then Fail else Got(Flag(FromBigEndian(bs[..4]) != 0), bs[4..])
    case TOpaque(maxlen) =>
      var r := DecodeOpaque(bs);
      if r.Got? && r.value.Bytes? && |r.value.bytes| > maxlen then Fail else r
    case TFixed(len) => if |bs| < len then Fail else Got(Bytes(bs[..len]), bs[len..])
    case TVector(elem, len) =>
      var r := DecodeList(elem, len, bs);
      if r.FailList? then Fail else Got(List(r.values), r.rest)
    case TArray(elem, maxlen) =>
      if |bs| < 4 || FromBigEndian(bs[..4]) > maxlen then Fail
      else
        var r := DecodeList(elem, FromBigEndian(bs[..4]), bs[4..]);
        if r.FailList? then Fail else Got(List(r.values), r.rest)
    case TPointer(elem) =>
      if |bs| < 4 then Fail
      else if FromBigEndian(bs[..4]) == 0 then Got(None, bs[4..])
      else
        var r := Decode(elem, bs[4..]);
        if r.Fail? then Fail else Got(Some(r.value), r.rest)
    case TOption(elem) =>
      var r := DecodeOpaque(bs);
      if r.Fail? || !r.value.Bytes? then Fail
      else if r.value.bytes == [] then Got(None, r.rest)
      else
        var inner := Decode(elem, r.value.bytes);
        Got(if inner.Fail? then Raw(r.value.bytes) else Some(inner.value), r.rest)
  }

  function DecodeList(t: Type, n: nat, bs: seq<Byte>): ReadList
    decreases t, 1, n
  {
    if n == 0 then GotList([], bs)
    else
      var r := Decode(t, bs);
      if r.Fail? then FailList
      else
        var more := DecodeList(t, n - 1, r.rest);
        if more.FailList? then FailList else GotList([r.value] + more.values, more.rest)
  }

  // ---------- which values have a type ----------

  /** Values a caller may encode: numbers in range, lengths within bounds, options not empty. */
  predicate HasType(t: Type, v: Value)
    decreases v, 1
  {
    match (t, v)
    case (TInt(width, signed), Num(n)) => Width(width) && InRange(width, signed, n)
    case (TBool, Flag(_)) => true
    case (TOpaque(maxlen), Bytes(bytes)) => |bytes| <= maxlen && |bytes| < LENGTH_LIMIT
    case (TFixed(len), Bytes(bytes)) => |bytes| == len
    case (TVector(elem, len), List(elems)) => |elems| == len && AllHaveType(elem, elems)
    case (TArray(elem, maxlen), List(elems)) => |elems| <= maxlen && |elems| < 0x1_0000_0000 && AllHaveType(elem, elems)
    case (TPointer(_), None) => true
    case (TPointer(elem), Some(w)) => HasType(elem, w)
    case (TOption(_), None) => true
    case (TOption(elem), Some(w)) => HasType(elem, w) && 0 < |Encode(elem, w)| < LENGTH_LIMIT
    case (TOption(elem), Raw(bytes)) => 0 < |bytes| < LENGTH_LIMIT && Decode(elem, bytes).Fail?
    case _ => false
  }

  predicate AllHaveType(t: Type, vs: seq<Value>)
    decreases vs, 0
  {
    vs == [] || (HasType(t, vs[0]) && AllHaveType(t, vs[1..]))
  }

  // ---------- round trips ----------

  lemma Taken(x: seq<Byte>, rest: seq<Byte>)
    ensures (x + rest)[..|x|] == x && (x + rest)[|x|..] == rest
  {
  }

  lemma WordBack(n: nat, x: int, rest: seq<Byte>)
    ensures |BigEndian(n, x) + rest| >= n
    ensures FromBigEndian((BigEndian(n, x) + rest)[..n]) == x % Pow256(n)
    ensures (BigEndian(n, x) + rest)[n..] == rest
  {
    Taken(BigEndian(n, x), rest);
    WordRoundTrip(n, x);
  }

  lemma SmallWord(x: nat)
    requires x < 0x1_0000_0000
    ensures x % Pow256(4) == x
  {
    Powers();
  }

  lemma OpaqueRoundTrip(bytes: seq<Byte>, rest: seq<Byte>)
    requires |bytes| < LENGTH_LIMIT
    ensures DecodeOpaque(EncodeOpaque(bytes) + rest) == Got(Bytes(bytes), rest)
  {
    hide FromBigEndian, BigEndian, Pow256, Zeros;
    var len, pad := |bytes|, Padding(|bytes|);
    var tail := bytes + Zeros(pad) + rest;
    assert EncodeOpaque(bytes) + rest == BigEndian(4, len) + tail;
    WordBack(4, len, tail);
    SmallWord(len);
    var bs := BigEndian(4, len) + tail;
    assert bs[4..4 + len] == tail[..len] == bytes;
    assert bs[4 + len + pad..] == tail[len + pad..] == rest;
  }

  lemma SeqAssoc(a: seq<Byte>, b: seq<Byte>, c: seq<Byte>)
    ensures (a + b) + c == a + (b + c)
  {
  }

  lemma IntRoundTrip(width: nat, signed: bool, n: int, rest: seq<Byte>)
    requires Width(width) && InRange(width, signed, n)
    ensures Decode(TInt(width, signed), Encode(TInt(width, signed), Num(n)) + rest) == Got(Num(n), rest)
  {
    hide FromBigEndian, BigEndian, Pow256, Narrow, Widened;
    WordBack(WireWidth(width), Widened(width, signed, n), rest);
    NarrowRoundTrip(width, signed, n);
  }

  lemma FlagWord(x: nat, rest: seq<Byte>)
    requires x <= 1
    ensures |BigEndian(4, x) + rest| >= 4 && FromBigEndian((BigEndian(4, x) + rest)[..4]) == x
    ensures (BigEndian(4, x) + rest)[4..] == rest
  {
    hide FromBigEndian, BigEndian, Pow256;
    WordBack(4, x, rest);
    SmallWord(x);
  }

  /** Decoding undoes encoding and takes exactly the encoded bytes, whatever follows. */
  lemma {:induction false} RoundTrip(t: Type, v: Value, rest: seq<Byte>)
    requires HasType(t, v)
    ensures Decode(t, Encode(t, v) + rest) == Got(v, rest)
    decreases v, 1
  {
    hide FromBigEndian, BigEndian, Pow256, EncodeOpaque, DecodeOpaque, Widened, Narrow;
    match (t, v)
    case (TInt(width, signed), Num(n)) => IntRoundTrip(width, signed, n, rest);
    case (TBool, Flag(b)) => FlagWord(if b then 1 else 0, rest);
    case (TOpaque(_), Bytes(bytes)) => OpaqueRoundTrip(bytes, rest);
    case (TFixed(_), Bytes(bytes)) => Taken(bytes, rest);
    case (TVector(elem, _), List(elems)) => ListRoundTrip(elem, elems, rest);
    case (TArray(elem, _), List(elems)) =>
      ListRoundTrip(elem, elems, rest);
      WordBack(4, |elems|, EncodeList(elem, elems) + rest);
      SmallWord(|elems|);
      SeqAssoc(BigEndian(4, |elems|), EncodeList(elem, elems), rest);
    case (TPointer(_), None) => FlagWord(0, rest);
    case (TPointer(elem), Some(w)) =>
      RoundTrip(elem, w, rest);
      FlagWord(1, Encode(elem, w) + rest);
      SeqAssoc(BigEndian(4, 1), Encode(elem, w), rest);
    case (TOption(_), None) => OpaqueRoundTrip([], rest);
    case (TOption(elem), Some(w)) =>
      OpaqueRoundTrip(Encode(elem, w), rest);
      RoundTrip(elem, w, []);
      assert Encode(elem, w) + [] == Encode(elem, w);
    case (TOption(_), Raw(bytes)) => OpaqueRoundTrip(bytes, rest);
  }

  lemma {:induction false} ListRoundTrip(t: Type, vs: seq<Value>, rest: seq<Byte>)
    requires AllHaveType(t, vs)
    ensures DecodeList(t, |vs|, EncodeList(t, vs) + rest) == GotList(vs, rest)
    decreases vs, 0
  {
    hide Decode, Encode;
    if vs == [] {
      assert EncodeList(t, vs) + rest == rest;
    } else {
      RoundTrip(t, vs[0], EncodeList(t, vs[1..]) + rest);
      ListRoundTrip(t, vs[1..], rest);
      SeqAssoc(Encode(t, vs[0]), EncodeList(t, vs[1..]), rest);
      assert vs == [vs[0]] + vs[1..];
    }
  }

  /** An option that cannot be understood is kept, and encodes to the bytes it came from. */
  lemma UnknownOption(elem: Type, bytes: seq<Byte>, rest: seq<Byte>)
    requires 0 < |bytes| < LENGTH_LIMIT && Decode(elem, bytes).Fail?
    ensures Decode(TOption(elem), EncodeOpaque(bytes) + rest) == Got(Raw(bytes), rest)
    ensures Encode(TOption(elem), Raw(bytes)) == EncodeOpaque(bytes)
  {
    hide EncodeOpaque, DecodeOpaque;
    OpaqueRoundTrip(bytes, rest);
  }

  /** An option whose value encodes to nothing comes back empty: the one kind that is lost. */
  lemma EmptyOption(elem: Type, v: Value, rest: seq<Byte>)
    requires HasType(elem, v) && |Encode(elem, v)| < LENGTH_LIMIT
    ensures Decode(TOption(elem), Encode(TOption(elem), Some(v)) + rest) == Got(Some(v), rest) <==> Encode(elem, v) != []
  {
    hide EncodeOpaque, DecodeOpaque, BigEndian, FromBigEndian, Pow256, HasType, Widened, Narrow;
    OpaqueRoundTrip(Encode(elem, v), rest);
    RoundTrip(elem, v, []);
    assert Encode(elem, v) + [] == Encode(elem, v);
  }

  /** An option on an empty byte vector, for one. */
  lemma EmptyOptionLost()
    ensures HasType(TFixed(0), Bytes([])) && Encode(TFixed(0), Bytes([])) == []
    ensures Decode(TOption(TFixed(0)), Encode(TOption(TFixed(0)), Some(Bytes([])))) == Got(None, [])
  {
    hide EncodeOpaque, DecodeOpaque;
    OpaqueRoundTrip([], []);
    assert EncodeOpaque([]) + [] == EncodeOpaque([]);
  }

  // ---------- the bytes on the wire ----------

  lemma Divides(x: int, m: nat)
    requires m > 0
    ensures (x / 256) / m == x / (256 * m)
  {
    var q, r := (x / 256) / m, (x / 256) % m;
    assert x == 256 * (q * m + r) + x % 256;
    assert x == q * (256 * m) + (256 * r + x % 256);
    Quotient(x, q, 256 * r + x % 256, 256 * m);
  }

  lemma Quotient(x: int, q: int, r: int, m: int)
    requires 0 <= r < m && x == q * m + r
    ensures x / m == q
  {
    Euclid(x, q, r, m);
    var p := x / m;
    assert x == p * m + x % m;
    assert (p - q) * m == p * m - q * m && (q - p) * m == q * m - p * m;
    if p > q { AtLeast(p - q, m); } else if p < q { AtLeast(q - p, m); }
  }

  /** Byte i of a word, counting from the most significant. */
  lemma {:induction false} WireByte(n: nat, x: int, i: nat)
    requires i < n
    ensures BigEndian(n, x)[i] == (x / Pow256(n - 1 - i)) % 256
  {
    if i < n - 1 {
      WireByte(n - 1, x / 256, i);
      Divides(x, Pow256(n - 2 - i));
    }
  }

  /** An unsigned number travels as the signed one with the same bits: a small one is sign-extended. */
  lemma UnsignedWire(width: nat, n: int)
    requires Width(width) && InRange(width, false, n)
    ensures InRange(width, true, if 2 * n >= Pow256(width) then n - Pow256(width) else n)
    ensures Encode(TInt(width, false), Num(n))
         == Encode(TInt(width, true), Num(if 2 * n >= Pow256(width) then n - Pow256(width) else n))
  {
    hide BigEndian, Pow256;
  }

  /** The byte 200, for one. */
  lemma UnsignedByte()
    ensures Encode(TInt(1, false), Num(200)) == [255, 255, 255, 200]
  {
    hide Pow256;
    Powers();
    assert BigEndian(4, -56) == BigEndian(3, -1) + [200] && BigEndian(3, -1) == BigEndian(2, -1) + [255];
    assert BigEndian(2, -1) == BigEndian(1, -1) + [255] && BigEndian(1, -1) == BigEndian(0, -1) + [255];
  }

  /** A bool is the word 0 or 1. */
  lemma BoolWire(b: bool)
    ensures Encode(TBool, Flag(b)) == [0, 0, 0, if b then 1 else 0]
  {
    hide Pow256;
    var x := if b then 1 else 0;
    assert BigEndian(4, x) == BigEndian(3, x / 256) + [x % 256];
    assert BigEndian(3, 0) == BigEndian(2, 0) + [0] && BigEndian(2, 0) == BigEndian(1, 0) + [0];
    assert BigEndian(1, 0) == BigEndian(0, 0) + [0];
  }

  lemma {:induction false} ZerosAre(n: nat, i: nat)
    requires i < n
    ensures Zeros(n)[i] == 0
  {
    if i < n - 1 { ZerosAre(n - 1, i); }
  }

  /** An opaque is its length, its bytes, and zeros up to a multiple of four. */
  lemma OpaqueWire(bytes: seq<Byte>, i: nat)
    ensures |EncodeOpaque(bytes)| % 4 == 0 && |bytes| + 4 <= |EncodeOpaque(bytes)| < |bytes| + 8
    ensures EncodeOpaque(bytes)[..4] == BigEndian(4, |bytes|)
    ensures EncodeOpaque(bytes)[4..4 + |bytes|] == bytes
    ensures 4 + |bytes| <= i < |EncodeOpaque(bytes)| ==> EncodeOpaque(bytes)[i] == 0
  {
    hide BigEndian, Zeros;
    if 4 + |bytes| <= i < |EncodeOpaque(bytes)| { ZerosAre(Padding(|bytes|), i - 4 - |bytes|); }
  }

  // ---------- what decoders accept ----------

  /** Any word but 0 is true. */
  lemma AnyTrue(x: nat, rest: seq<Byte>)
    requires x < 0x1_0000_0000
    ensures Decode(TBool, BigEndian(4, x) + rest) == Got(Flag(x != 0), rest)
  {
    hide FromBigEndian, BigEndian, Pow256;
    WordBack(4, x, rest);
    SmallWord(x);
  }

  /** Padding may hold anything. */
  lemma AnyPadding(bytes: seq<Byte>, pad: seq<Byte>, rest: seq<Byte>)
    requires |bytes| < LENGTH_LIMIT && |pad| == Padding(|bytes|)
    ensures DecodeOpaque(BigEndian(4, |bytes|) + bytes + pad + rest) == Got(Bytes(bytes), rest)
  {
    hide FromBigEndian, BigEndian, Pow256;
    var len, tail := |bytes|, bytes + pad + rest;
    assert BigEndian(4, len) + bytes + pad + rest == BigEndian(4, len) + tail;
    WordBack(4, len, tail);
    SmallWord(len);
    var bs := BigEndian(4, len) + tail;
    assert bs[4..4 + len] == tail[..len] == bytes;
    assert bs[4 + len + |pad|..] == tail[len + |pad|..] == rest;
  }

  /** A word that is too large for its type is cut to its low bytes. */
  lemma WordCut(width: nat, signed: bool, x: nat)
    requires Width(width)
    ensures InRange(width, signed, Narrow(width, signed, x))
    ensures (Narrow(width, signed, x) - x) % Pow256(width) == 0
  {
    hide Pow256;
    Multiple(x, Pow256(width));
  }

  lemma AnyWord(width: nat, signed: bool, x: nat, rest: seq<Byte>)
    requires x < Pow256(WireWidth(width))
    ensures Decode(TInt(width, signed), BigEndian(WireWidth(width), x) + rest) == Got(Num(Narrow(width, signed, x)), rest)
  {
    hide FromBigEndian, BigEndian, Pow256, Narrow;
    WordBack(WireWidth(width), x, rest);
    assert x % Pow256(WireWidth(width)) == x;
  }

  /** Any word but 0 announces the value of a pointer. */
  lemma AnyPointer(elem: Type, x: nat, v: Value, rest: seq<Byte>)
    requires 0 < x < 0x1_0000_0000 && HasType(elem, v)
    ensures Decode(TPointer(elem), BigEndian(4, x) + Encode(elem, v) + rest) == Got(Some(v), rest)
  {
    hide FromBigEndian, BigEndian, Pow256, HasType, Encode;
    SeqAssoc(BigEndian(4, x), Encode(elem, v), rest);
    WordBack(4, x, Encode(elem, v) + rest);
    SmallWord(x);
    RoundTrip(elem, v, rest);
  }

  /** Bytes after the value inside an option are dropped. */
  lemma OptionExtra(elem: Type, v: Value, extra: seq<Byte>, rest: seq<Byte>)
    requires HasType(elem, v) && 0 < |Encode(elem, v) + extra| < LENGTH_LIMIT
    ensures Decode(TOption(elem), EncodeOpaque(Encode(elem, v) + extra) + rest) == Got(Some(v), rest)
  {
    hide EncodeOpaque, DecodeOpaque, HasType, Encode;
    OpaqueRoundTrip(Encode(elem, v) + extra, rest);
    RoundTrip(elem, v, extra);
  }

  /** A length with the sign bit set is refused. */
  lemma NegativeLength(bs: seq<Byte>)
    requires |bs| >= 4 && FromBigEndian(bs[..4]) >= LENGTH_LIMIT
    ensures DecodeOpaque(bs).Fail?
  {
    hide FromBigEndian;
  }

  lemma Multiple(x: nat, m: nat)
    requires m > 0
    ensures (x % m - x) % m == 0 && (x % m - m - x) % m == 0
  {
    var q := x / m;
    assert x == q * m + x % m;
    assert (-q) * m == -(q * m) && (-q - 1) * m == -(q * m) - m;
    Euclid(x % m - x, -q, 0, m);
    Euclid(x % m - m - x, -q - 1, 0, m);
  }

  /** More elements or bytes than allowed are refused. */
  lemma TooLong(elem: Type, maxlen: nat, bs: seq<Byte>)
    requires |bs| >= 4 && FromBigEndian(bs[..4]) > maxlen
    ensures Decode(TArray(elem, maxlen), bs).Fail? && Decode(TOpaque(maxlen), bs).Fail?
  {
    hide FromBigEndian;
  }

  // ---------- truncation ----------

  lemma PrefixSlice(a: seq<Byte>, x: seq<Byte>, i: nat, j: nat)
    requires i <= j <= |a|
    ensures (a + x)[i..j] == a[i..j] && (a + x)[j..] == a[j..] + x
  {
  }

  lemma OpaqueExtends(bs: seq<Byte>, x: seq<Byte>)
    requires DecodeOpaque(bs).Got?
    ensures DecodeOpaque(bs + x) == Got(DecodeOpaque(bs).value, DecodeOpaque(bs).rest + x)
  {
    hide FromBigEndian;
    var len := FromBigEndian(bs[..4]);
    PrefixSlice(bs, x, 0, 4);
    PrefixSlice(bs, x, 4, 4 + len);
    PrefixSlice(bs, x, 4, 4 + len + Padding(len));
  }

  /** What follows the bytes a decoder has taken does not matter to it. */
  lemma {:induction false} DecodeExtends(t: Type, bs: seq<Byte>, x: seq<Byte>)
    requires Decode(t, bs).Got?
    ensures Decode(t, bs + x) == Got(Decode(t, bs).value, Decode(t, bs).rest + x)
    decreases t, 0, 0
  {
    hide FromBigEndian, DecodeOpaque, Narrow, Pow256;
    match t
    case TInt(width, _) => PrefixSlice(bs, x, 0, WireWidth(width));
    case TBool => PrefixSlice(bs, x, 0, 4);
    case TOpaque(_) => OpaqueExtends(bs, x);
    case TFixed(len) => PrefixSlice(bs, x, 0, len);
    case TVector(elem, len) => ListExtends(elem, len, bs, x);
    case TArray(elem, _) =>
      PrefixSlice(bs, x, 0, 4);
      ListExtends(elem, FromBigEndian(bs[..4]), bs[4..], x);
    case TPointer(elem) =>
      PrefixSlice(bs, x, 0, 4);
      if FromBigEndian(bs[..4]) != 0 { DecodeExtends(elem, bs[4..], x); }
    case TOption(_) => OpaqueExtends(bs, x);
  }

  lemma {:induction false} ListExtends(t: Type, n: nat, bs: seq<Byte>, x: seq<Byte>)
    requires DecodeList(t, n, bs).GotList?
    ensures DecodeList(t, n, bs + x) == GotList(DecodeList(t, n, bs).values, DecodeList(t, n, bs).rest + x)
    decreases t, 1, n
  {
    hide Decode;
    if n > 0 {
      DecodeExtends(t, bs, x);
      ListExtends(t, n - 1, Decode(t, bs).rest, x);
    }
  }

  /** A truncated encoding never decodes. */
  lemma Truncated(t: Type, v: Value, k: nat)
    requires HasType(t, v) && k < |Encode(t, v)|
    ensures Decode(t, Encode(t, v)[..k]).Fail?
  {
    hide Decode, Encode, HasType;
    var bs := Encode(t, v);
    if Decode(t, bs[..k]).Got? {
      DecodeExtends(t, bs[..k], bs[k..]);
      assert bs[..k] + bs[k..] == bs == bs + [];
      RoundTrip(t, v, []);
    }
  }

  // ---------- the stream object ----------

  datatype Status = Ok | ReadPastEnd | ReadCorruptData | IOError

  class XdrStream {
    var data: seq<Byte>
    var pos: nat
    var st: Status

    predicate Valid() reads this { pos <= |data| }

    ghost function Ahead(): seq<Byte> reads this requires Valid() { data[pos..] }

    constructor (d: seq<Byte>)
      ensures Valid() && data == d && pos == 0 && st == Ok
    {
      data, pos, st := d, 0, Ok;
    }

    // ---------- raw and padded data ----------

    method ReadRaw(len: nat) returns (bytes: seq<Byte>)
      requires Valid()
      modifies this`pos, this`st
      ensures Valid()
      ensures |old(Ahead())| >= len ==> bytes == old(Ahead())[..len] && Ahead() == old(Ahead())[len..] && st == old(st)
      ensures |old(Ahead())| < len ==> st != Ok
      ensures old(st) != Ok ==> st != Ok
    {
      if |data| - pos < len {
        st := ReadPastEnd;
        bytes := data[pos..];
        pos := |data|;
      } else {
        bytes := data[pos..pos + len];
        pos := pos + len;
      }
    }

    method SkipRaw(len: nat)
      requires Valid()
      modifies this`pos, this`st
      ensures Valid()
      ensures |old(Ahead())| >= len ==> Ahead() == old(Ahead())[len..] && st == old(st)
      ensures |old(Ahead())| < len ==> st != Ok
      ensures old(st) != Ok ==> st != Ok
    {
      if |data| - pos < len { st := IOError; } else { pos := pos + len; }
    }

    method WriteRaw(bytes: seq<Byte>)
      modifies this`data
      ensures data == old(data) + bytes
    {
      data := data + bytes;
    }

    method ReadPad(len: nat) returns (bytes: seq<Byte>)
      requires Valid()
      modifies this`pos, this`st
      ensures Valid()
      ensures |old(Ahead())| >= len + Padding(len) ==>
        bytes == old(Ahead())[..len] && Ahead() == old(Ahead())[len + Padding(len)..] && st == old(st)
      ensures |old(Ahead())| < len + Padding(len) ==> st != Ok
      ensures old(st) != Ok ==> st != Ok
    {
      hide Padding;
      PaddingIs(len);
      ghost var a := Ahead();
      bytes := ReadRaw(len);
      if len % 4 != 0 {
        SkipRaw(4 - len % 4);
        if |a| >= len + Padding(len) { DropTwice(a, len, Padding(len)); }
      }
    }

    method WritePad(bytes: seq<Byte>)
      modifies this`data
      ensures data == old(data) + bytes + Zeros(Padding(|bytes|))
    {
      WriteRaw(bytes);
      if |bytes| % 4 != 0 { WriteRaw(Zeros(4 - |bytes| % 4)); }
    }

    method WriteOpaque(bytes: seq<Byte>)
      modifies this`data
      ensures data == old(data) + EncodeOpaque(bytes)
    {
      WriteRaw(BigEndian(4, |bytes|));
      WritePad(bytes);
      SeqAssoc(old(data), BigEndian(4, |bytes|), bytes + Zeros(Padding(|bytes|)));
    }

    method ReadOpaque() returns (bytes: seq<Byte>)
      requires Valid()
      modifies this`pos, this`st
      ensures Valid() && (old(st) != Ok ==> st != Ok)
      ensures old(st) == Ok ==> (st == Ok <==> DecodeOpaque(old(Ahead())).Got?)
      ensures st == Ok ==> DecodeOpaque(old(Ahead())) == Got(Bytes(bytes), Ahead())
    {
      hide FromBigEndian;
      bytes := [];
      var word := ReadRaw(4);
      if st != Ok { return; }
      var len := FromBigEndian(word);
      if len >= LENGTH_LIMIT {
        st := ReadCorruptData;
        return;
      }
      bytes := ReadPad(len);
      ghost var a := old(Ahead());
      if st == Ok {
        assert a[4..][..len] == a[4..4 + len];
        assert a[4..][len + Padding(len)..] == a[4 + len + Padding(len)..];
      }
    }

    // ---------- values ----------

    /** The << operators. */
    method Write(t: Type, v: Value)
      modifies this`data
      ensures data == old(data) + Encode(t, v)
      decreases v, 1
    {
      hide FromBigEndian, BigEndian, Pow256, EncodeOpaque, DecodeOpaque, Widened, Narrow, Decode;
      match (t, v)
      case (TInt(width, signed), Num(n)) => WriteRaw(BigEndian(WireWidth(width), Widened(width, signed, n)));
      case (TBool, Flag(b)) => WriteRaw(BigEndian(4, if b then 1 else 0));
      case (TOpaque(_), Bytes(bytes)) => WriteOpaque(bytes);
      case (TFixed(_), Bytes(bytes)) => WriteRaw(bytes);
      case (TVector(elem, _), List(elems)) => WriteAll(elem, elems);
      case (TArray(elem, _), List(elems)) =>
        WriteRaw(BigEndian(4, |elems|));
        WriteAll(elem, elems);
        SeqAssoc(old(data), BigEndian(4, |elems|), EncodeList(elem, elems));
      case (TPointer(_), None) => WriteRaw(BigEndian(4, 0));
      case (TPointer(elem), Some(w)) =>
        WriteRaw(BigEndian(4, 1));
        Write(elem, w);
        SeqAssoc(old(data), BigEndian(4, 1), Encode(elem, w));
      case (TOption(_), None) => WriteOpaque([]);
      case (TOption(elem), Some(w)) =>
        var buf := new XdrStream([]);
        buf.Write(elem, w);
        assert [] + Encode(elem, w) == Encode(elem, w);
        WriteOpaque(buf.data);
      case (TOption(_), Raw(bytes)) => WriteOpaque(bytes);
      case _ =>
    }

    /** The loops of xdrEncodeVector and xdrEncodeArray. */
    method WriteAll(t: Type, vs: seq<Value>)
      modifies this`data
      ensures data == old(data) + EncodeList(t, vs)
      decreases vs, 0
    {
      hide Encode, HasType;
      var i := 0;
      while i < |vs|
        invariant 0 <= i <= |vs|
        invariant data + EncodeList(t, vs[i..]) == old(data) + EncodeList(t, vs)
      {
        ghost var before := data;
        assert vs[i..][1..] == vs[i + 1..] && vs[i..][0] == vs[i];
        Write(t, vs[i]);
        SeqAssoc(before, Encode(t, vs[i]), EncodeList(t, vs[i + 1..]));
        i := i + 1;
      }
      assert data + [] == data;
    }

    /** The >> operators: the value and the position when decoding succeeds, an error status when not. */
    method ReadValue(t: Type) returns (v: Value)
      requires Valid()
      modifies this`pos, this`st
      ensures Valid()
      ensures st == Ok <==> old(st) == Ok && Decode(t, old(Ahead())).Got?
      ensures st == Ok ==> Decode(t, old(Ahead())) == Got(v, Ahead())
      decreases t, 0, 0
    {
      hide FromBigEndian, BigEndian, Pow256, EncodeOpaque, DecodeOpaque, Narrow;
      v := None;
      match t
      case TInt(width, signed) =>
        var word := ReadRaw(WireWidth(width));
        if st == Ok { v := Num(Narrow(width, signed, FromBigEndian(word))); }
      case TBool =>
        var word := ReadRaw(4);
        if st == Ok { v := Flag(FromBigEndian(word) != 0); }
      case TOpaque(maxlen) =>
        var bytes := ReadOpaque();
        if st == Ok && |bytes| > maxlen { st := ReadCorruptData; }
        v := Bytes(bytes);
      case TFixed(len) =>
        var bytes := ReadRaw(len);
        v := Bytes(bytes);
      case TVector(elem, len) =>
        var vs := ReadAll(elem, len);
        v := List(vs);
      case TArray(elem, maxlen) =>
        var word := ReadRaw(4);
        if st != Ok { return; }
        if FromBigEndian(word) > maxlen {
          st := ReadCorruptData;
          return;
        }
        var vs := ReadAll(elem, FromBigEndian(word));
        v := List(vs);
      case TPointer(elem) =>
        var word := ReadRaw(4);
        if st != Ok || FromBigEndian(word) == 0 { return; }
        v := ReadValue(elem);
        v := Some(v);
      case TOption(elem) =>
        var bytes := ReadOpaque();
        if st != Ok || bytes == [] { return; }
        v := ReadOption(elem, bytes);
    }

    /** The inner stream of an option. */
    method ReadOption(elem: Type, bytes: seq<Byte>) returns (v: Value)
      ensures v == if Decode(elem, bytes).Fail? then Raw(bytes) else Some(Decode(elem, bytes).value)
      decreases elem, 2, 0
    {
      hide Decode;
      var buf := new XdrStream(bytes);
      assert bytes[0..] == bytes;
      v := buf.ReadValue(elem);
      v := if buf.st != Ok then Raw(bytes) else Some(v);
    }

    /** The loops of xdrDecodeVector and xdrDecodeArray. */
    method ReadAll(t: Type, n: nat) returns (vs: seq<Value>)
      requires Valid()
      modifies this`pos, this`st
      ensures Valid()
      ensures st == Ok <==> old(st) == Ok && DecodeList(t, n, old(Ahead())).GotList?
      ensures st == Ok ==> DecodeList(t, n, old(Ahead())) == GotList(vs, Ahead())
      decreases t, 1, n
    {
      hide Decode;
      vs := [];
      var i := 0;
      ghost var goal := DecodeList(t, n, Ahead());
      while i < n && st == Ok
        invariant Valid()
        invariant st == Ok ==> i <= n && goal == Prepend(vs, DecodeList(t, n - i, Ahead()))
        invariant st != Ok ==> old(st) != Ok || goal.FailList?
        invariant st == Ok ==> old(st) == Ok
        decreases n - i
      {
        var v := ReadValue(t);
        PrependOne(vs, v, DecodeList(t, n - i - 1, Ahead()));
        vs := vs + [v];
        i := i + 1;
      }
      PrependNone(vs, Ahead());
    }
  }

  /** A list result with more values in front. */
  ghost function Prepend(vs: seq<Value>, r: ReadList): ReadList {
    if r.FailList? then r else GotList(vs + r.values, r.rest)
  }

  lemma PrependOne(vs: seq<Value>, v: Value, r: ReadList)
    ensures Prepend(vs + [v], r) == Prepend(vs, if r.FailList? then r else GotList([v] + r.values, r.rest))
  {
    if r.GotList? { assert (vs + [v]) + r.values == vs + ([v] + r.values); }
  }

  lemma PrependNone(vs: seq<Value>, rest: seq<Byte>)
    ensures Prepend(vs, GotList([], rest)) == GotList(vs, rest)
  {
    assert vs + [] == vs;
  }
}

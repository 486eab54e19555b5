/**
 The part of the MessagePack format that rbkit writes (section "Formats" of the
 MessagePack specification: nil, int, float 64, str, array and map families):
 values, the encoding a msgpack-c packer gives them, a decoder, and the proof
 that encodings are self-delimiting.
 */
module MessagePack {
  import opened Wrappers

  type byte = x: int | 0 <= x < 256
  type bytes = seq<byte>

  const TWO_16: int := 0x1_0000
  const TWO_32: int := 0x1_0000_0000
  const TWO_63: int := 0x8000_0000_0000_0000
  const TWO_64: int := 0x1_0000_0000_0000_0000

  /** A map is its keys and values, alternating, in wire order. */
  datatype Value =
    | Nil
    | Int(n: int)
    | Float(bits: bytes)
    | Str(chars: bytes)
    | Arr(items: seq<Value>)
    | Map(fields: seq<Value>)

  /** What the first bytes of an encoding announce. */
  datatype Head =
    | NilHead
    | IntHead(n: int)
    | FloatHead(bits: bytes)
    | StrHead(len: nat)
    | ArrHead(count: nat)
    | MapHead(count: nat)

  predicate FitsHead(h: Head) {
    match h
    case NilHead => true
    case IntHead(n) => -TWO_63 <= n < TWO_64
    case FloatHead(bits) => |bits| == 8
    case StrHead(n) => n < TWO_32
    case ArrHead(n) => n < TWO_32
    case MapHead(n) => n < TWO_32
  }

  // ----- big-endian integers

  function U16(n: nat): (r: bytes)
    requires n < TWO_16
    ensures |r| == 2
  {
    [n / 256, n % 256]
  }

  function U32(n: nat): (r: bytes)
    requires n < TWO_32
    ensures |r| == 4
  {
    U16(n / TWO_16) + U16(n % TWO_16)
  }

  function U64(n: nat): (r: bytes)
    requires n < TWO_64
    ensures |r| == 8
  {
    U32(n / TWO_32) + U32(n % TWO_32)
  }

  function FromU16(b: bytes): (n: nat)
    requires |b| >= 2
    ensures n < TWO_16
  {
    (b[0] as int) * 256 + b[1]
  }

  function FromU32(b: bytes): (n: nat)
    requires |b| >= 4
    ensures n < TWO_32
  {
    FromU16(b) * TWO_16 + FromU16(b[2..])
  }

  function FromU64(b: bytes): (n: nat)
    requires |b| >= 8
    ensures n < TWO_64
  {
    FromU32(b) * TWO_32 + FromU32(b[4..])
  }

  lemma U16Inverse(n: nat, rest: bytes)
    requires n < TWO_16
    ensures FromU16(U16(n) + rest) == n && (U16(n) + rest)[2..] == rest
  {
  }

  lemma U32Inverse(n: nat, rest: bytes)
    requires n < TWO_32
    ensures FromU32(U32(n) + rest) == n && (U32(n) + rest)[4..] == rest
  {
    var hi, lo := U16(n / TWO_16), U16(n % TWO_16);
    assert U32(n) + rest == hi + (lo + rest);
    U16Inverse(n / TWO_16, lo + rest);
    U16Inverse(n % TWO_16, rest);
  }

  lemma U64Inverse(n: nat, rest: bytes)
    requires n < TWO_64
    ensures FromU64(U64(n) + rest) == n && (U64(n) + rest)[8..] == rest
  {
    var hi, lo := U32(n / TWO_32), U32(n % TWO_32);
    assert U64(n) + rest == hi + (lo + rest);
    U32Inverse(n / TWO_32, lo + rest);
    U32Inverse(n % TWO_32, rest);
  }

  // ----- heads

  /** The shortest integer format, signed formats only below zero. */
  function EncInt(n: int): (r: bytes)
    requires -TWO_63 <= n < TWO_64
    ensures |r| >= 1
  {
    if n < -0x8000_0000 then [0xd3] + U64(n + TWO_64)
    else if n < -0x8000 then [0xd2] + U32(n + TWO_32)
    else if n < -0x80 then [0xd1] + U16(n + TWO_16)
    else if n < -0x20 then [0xd0, n + 0x100]
    else if n < 0 then [n + 0x100]
    else if n < 0x80 then [n]
    else if n < 0x100 then [0xcc, n]
    else if n < TWO_16 then [0xcd] + U16(n)
    else if n < TWO_32 then [0xce] + U32(n)
    else [0xcf] + U64(n)
  }

  /** A head out of range has no encoding; 0xc1, which the format never uses, marks it. */
  function EncHead(h: Head): (r: bytes)
    ensures |r| >= 1
  {
    if !FitsHead(h) then [0xc1] else
    match h
    case NilHead => [0xc0]
    case IntHead(n) => EncInt(n)
    case FloatHead(bits) => [0xcb] + bits
    case StrHead(n) =>
      if n < 32 then [0xa0 + n]
      else if n < 0x100 then [0xd9, n]
      else if n < TWO_16 then [0xda] + U16(n)
      else [0xdb] + U32(n)
    case ArrHead(n) =>
      if n < 16 then [0x90 + n]
      else if n < TWO_16 then [0xdc] + U16(n)
      else [0xdd] + U32(n)
    case MapHead(n) =>
      if n < 16 then [0x80 + n]
      else if n < TWO_16 then [0xde] + U16(n)
      else [0xdf] + U32(n)
  }

  /** A big-endian integer by the weight of its bytes. */
  function Weight(b: bytes): nat {
    if b == [] then 0 else Weight(b[..|b| - 1]) * 256 + b[|b| - 1]
  }

  lemma WeightShift(a: bytes, x: byte)
    ensures Weight(a + [x]) == Weight(a) * 256 + x
  {
    assert (a + [x])[..|a|] == a;
  }

  lemma WeightTwo(x: byte, y: byte)
    ensures Weight([x, y]) == x * 256 + y
  {
    WeightShift([], x);
    WeightShift([x], y);
    assert [] + [x] == [x] && [x] + [y] == [x, y];
  }

  lemma WeightFour(a: bytes, x: byte, y: byte)
    ensures Weight(a + [x, y]) == Weight(a) * TWO_16 + x * 256 + y
  {
    WeightShift(a, x);
    WeightShift(a + [x], y);
    assert a + [x] + [y] == a + [x, y];
  }

  lemma WeightOfU32(a: bytes, n: nat)
    requires n < TWO_32
    ensures Weight(a + U32(n)) == Weight(a) * TWO_32 + n
  {
    var hi, lo := n / TWO_16, n % TWO_16;
    WeightFour(a, hi / 256, hi % 256);
    WeightFour(a + U16(hi), lo / 256, lo % 256);
    assert a + U16(hi) + U16(lo) == a + U32(n);
  }

  /** The fixed-width integers are big-endian. */
  lemma BigEndian(n: nat)
    ensures n < TWO_16 ==> Weight(U16(n)) == n
    ensures n < TWO_32 ==> Weight(U32(n)) == n
    ensures n < TWO_64 ==> Weight(U64(n)) == n
  {
    if n < TWO_16 {
      WeightTwo(n / 256, n % 256);
    }
    if n < TWO_32 {
      WeightOfU32([], n);
      assert [] + U32(n) == U32(n);
    }
    if n < TWO_64 {
      WeightOfU32([], n / TWO_32);
      WeightOfU32(U32(n / TWO_32), n % TWO_32);
      assert [] + U32(n / TWO_32) == U32(n / TWO_32);
    }
  }

  /** The bytes behind a tag, as one integer. */
  predicate Tagged(b: bytes, tag: byte, width: nat, n: nat) {
    |b| == 1 + width && b[0] == tag && Weight(b[1..]) == n
  }

  /** The formats of the specification, tag by tag: the shortest one that can hold the value. */
  lemma HeadFormats(n: nat)
    requires n < TWO_64
    ensures EncHead(NilHead) == [0xc0]
    ensures n < 0x80 ==> EncHead(IntHead(n)) == [n]
    ensures 0x80 <= n < 0x100 ==> Tagged(EncHead(IntHead(n)), 0xcc, 1, n)
    ensures 0x100 <= n < TWO_16 ==> Tagged(EncHead(IntHead(n)), 0xcd, 2, n)
    ensures TWO_16 <= n < TWO_32 ==> Tagged(EncHead(IntHead(n)), 0xce, 4, n)
    ensures TWO_32 <= n ==> Tagged(EncHead(IntHead(n)), 0xcf, 8, n)
    ensures n < 32 ==> EncHead(StrHead(n)) == [0xa0 + n]
    ensures 32 <= n < 0x100 ==> Tagged(EncHead(StrHead(n)), 0xd9, 1, n)
    ensures 0x100 <= n < TWO_16 ==> Tagged(EncHead(StrHead(n)), 0xda, 2, n)
    ensures TWO_16 <= n < TWO_32 ==> Tagged(EncHead(StrHead(n)), 0xdb, 4, n)
    ensures n < 16 ==> EncHead(ArrHead(n)) == [0x90 + n] && EncHead(MapHead(n)) == [0x80 + n]
    ensures 16 <= n < TWO_16 ==> Tagged(EncHead(ArrHead(n)), 0xdc, 2, n) && Tagged(EncHead(MapHead(n)), 0xde, 2, n)
    ensures TWO_16 <= n < TWO_32 ==> Tagged(EncHead(ArrHead(n)), 0xdd, 4, n) && Tagged(EncHead(MapHead(n)), 0xdf, 4, n)
  {
    BigEndian(n);
    if n < 0x100 {
      WeightShift([], n);
      assert [] + [n] == [n];
    }
  }

  /** Negative integers are in two's complement, in the shortest signed format. */
  lemma NegativeFormats(n: int)
    requires -TWO_63 <= n < 0
    ensures -0x20 <= n ==> EncHead(IntHead(n)) == [0x100 + n]
    ensures -0x80 <= n < -0x20 ==> Tagged(EncHead(IntHead(n)), 0xd0, 1, 0x100 + n)
    ensures -0x8000 <= n < -0x80 ==> Tagged(EncHead(IntHead(n)), 0xd1, 2, TWO_16 + n)
    ensures -0x8000_0000 <= n < -0x8000 ==> Tagged(EncHead(IntHead(n)), 0xd2, 4, TWO_32 + n)
    ensures n < -0x8000_0000 ==> Tagged(EncHead(IntHead(n)), 0xd3, 8, TWO_64 + n)
  {
    if n < -0x8000_0000 {
      BigEndian(TWO_64 + n);
    } else if n < -0x8000 {
      BigEndian(TWO_32 + n);
    } else if n < -0x80 {
      BigEndian(TWO_16 + n);
    } else {
      WeightShift([], 0x100 + n);
      assert [] + [0x100 + n] == [0x100 + n];
    }
  }

  /** Reads one big-endian integer of `width` bytes. */
  function ReadUint(width: nat, b: bytes): (r: Option<(nat, bytes)>)
    requires width in {1, 2, 4, 8}
    ensures r.Some? ==> |r.value.1| == |b| - width
  {
    if |b| < width then None
    else Some(((match width
                case 1 => b[0]
                case 2 => FromU16(b)
                case 4 => FromU32(b)
                case _ => FromU64(b)), b[width..]))
  }

  function Signed(n: nat, modulus: nat): int {
    if 2 * n < modulus then n else n - modulus
  }

  function ReadHead(b: bytes): (r: Option<(Head, bytes)>)
    ensures r.Some? ==> |r.value.1| < |b|
  {
    if |b| == 0 then None
    else
      var t, r := b[0], b[1..];
      if t < 0x80 then Some((IntHead(t), r))
      else if t < 0x90 then Some((MapHead(t - 0x80), r))
      else if t < 0xa0 then Some((ArrHead(t - 0x90), r))
      else if t < 0xc0 then Some((StrHead(t - 0xa0), r))
      else if t >= 0xe0 then Some((IntHead((t as int) - 0x100), r))
      else if t == 0xc0 then Some((NilHead, r))
      else if t == 0xcb then (if |r| < 8 then None else Some((FloatHead(r[..8]), r[8..])))
      else if t in {0xcc, 0xcd, 0xce, 0xcf} then
        (match ReadUint(Width(t - 0xcc), r)
         case None => None
         case Some((n, s)) => Some((IntHead(n), s)))
      else if t in {0xd0, 0xd1, 0xd2, 0xd3} then
        (match ReadUint(Width(t - 0xd0), r)
         case None => None
         case Some((n, s)) => Some((IntHead(Signed(n, Modulus(t - 0xd0))), s)))
      else if t in {0xd9, 0xda, 0xdb} then
        (match ReadUint(Width(t - 0xd9), r)
         case None => None
         case Some((n, s)) => Some((StrHead(n), s)))
      else if t in {0xdc, 0xdd} then
        (match ReadUint(Width(t - 0xdb), r)
         case None => None
         case Some((n, s)) => Some((ArrHead(n), s)))
      else if t in {0xde, 0xdf} then
        (match ReadUint(Width(t - 0xdd), r)
         case None => None
         case Some((n, s)) => Some((MapHead(n), s)))
      else None
  }

  function Width(k: nat): nat
    requires k < 4
  {
    if k == 0 then 1 else if k == 1 then 2 else if k == 2 then 4 else 8
  }

  function Modulus(k: nat): nat
    requires k < 4
  {
    if k == 0 then 0x100 else if k == 1 then TWO_16 else if k == 2 then TWO_32 else TWO_64
  }

  lemma ReadUintInverse(n: nat, rest: bytes)
    ensures n < 0x100 ==> ReadUint(1, [n] + rest) == Some((n, rest))
    ensures n < TWO_16 ==> ReadUint(2, U16(n) + rest) == Some((n, rest))
    ensures n < TWO_32 ==> ReadUint(4, U32(n) + rest) == Some((n, rest))
    ensures n < TWO_64 ==> ReadUint(8, U64(n) + rest) == Some((n, rest))
  {
    if n < TWO_16 { U16Inverse(n, rest); }
    if n < TWO_32 { U32Inverse(n, rest); }
    if n < TWO_64 { U64Inverse(n, rest); }
    assert n < 0x100 ==> ([n] + rest)[1..] == rest;
  }

  lemma TagThen(t: byte, body: bytes, rest: bytes)
    ensures (([t] + body) + rest)[0] == t && (([t] + body) + rest)[1..] == body + rest
  {
  }

  lemma IntHeadInverse(n: int, rest: bytes)
    requires -TWO_63 <= n < TWO_64
    ensures ReadHead(EncInt(n) + rest) == Some((IntHead(n), rest))
  {
    if n < -0x8000_0000 {
      TagThen(0xd3, U64(n + TWO_64), rest);
      ReadUintInverse(n + TWO_64, rest);
    } else if n < -0x8000 {
      TagThen(0xd2, U32(n + TWO_32), rest);
      ReadUintInverse(n + TWO_32, rest);
    } else if n < -0x80 {
      TagThen(0xd1, U16(n + TWO_16), rest);
      ReadUintInverse(n + TWO_16, rest);
    } else if n < -0x20 {
      assert EncInt(n) == [0xd0] + [n + 0x100];
      TagThen(0xd0, [n + 0x100], rest);
      ReadUintInverse(n + 0x100, rest);
    } else if n < 0x80 {
      assert (EncInt(n) + rest)[1..] == rest;
    } else if n < 0x100 {
      assert EncInt(n) == [0xcc] + [n];
      TagThen(0xcc, [n], rest);
      ReadUintInverse(n, rest);
    } else if n < TWO_16 {
      TagThen(0xcd, U16(n), rest);
      ReadUintInverse(n, rest);
    } else if n < TWO_32 {
      TagThen(0xce, U32(n), rest);
      ReadUintInverse(n, rest);
    } else {
      TagThen(0xcf, U64(n), rest);
      ReadUintInverse(n, rest);
    }
  }

  lemma StrHeadInverse(n: nat, rest: bytes)
    requires n < TWO_32
    ensures ReadHead(EncHead(StrHead(n)) + rest) == Some((StrHead(n), rest))
  {
    ReadUintInverse(n, rest);
    if n < 32 {
      assert ([0xa0 + n] + rest)[1..] == rest;
    } else if n < 0x100 {
      assert EncHead(StrHead(n)) == [0xd9] + [n];
      TagThen(0xd9, [n], rest);
    } else if n < TWO_16 {
      TagThen(0xda, U16(n), rest);
    } else {
      TagThen(0xdb, U32(n), rest);
    }
  }

  lemma ArrHeadInverse(n: nat, rest: bytes)
    requires n < TWO_32
    ensures ReadHead(EncHead(ArrHead(n)) + rest) == Some((ArrHead(n), rest))
  {
    ReadUintInverse(n, rest);
    if n < 16 {
      assert ([0x90 + n] + rest)[1..] == rest;
    } else if n < TWO_16 {
      TagThen(0xdc, U16(n), rest);
    } else {
      TagThen(0xdd, U32(n), rest);
    }
  }

  lemma MapHeadInverse(n: nat, rest: bytes)
    requires n < TWO_32
    ensures ReadHead(EncHead(MapHead(n)) + rest) == Some((MapHead(n), rest))
  {
    ReadUintInverse(n, rest);
    if n < 16 {
      assert ([0x80 + n] + rest)[1..] == rest;
    } else if n < TWO_16 {
      TagThen(0xde, U16(n), rest);
    } else {
      TagThen(0xdf, U32(n), rest);
    }
  }

  lemma HeadInverse(h: Head, rest: bytes)
    requires FitsHead(h)
    ensures ReadHead(EncHead(h) + rest) == Some((h, rest))
  {
    match h
    case NilHead => assert ([0xc0] + rest)[1..] == rest;
    case IntHead(n) => IntHeadInverse(n, rest);
    case FloatHead(bits) =>
      TagThen(0xcb, bits, rest);
      assert (bits + rest)[..8] == bits && (bits + rest)[8..] == rest;
    case StrHead(n) => StrHeadInverse(n, rest);
    case ArrHead(n) => ArrHeadInverse(n, rest);
    case MapHead(n) => MapHeadInverse(n, rest);
  }

  // ----- values

  predicate Encodable(v: Value)
    decreases v, 1
  {
    match v
    case Nil => true
    case Int(n) => -TWO_63 <= n < TWO_64
    case Float(bits) => |bits| == 8
    case Str(s) => |s| < TWO_32
    case Arr(items) => |items| < TWO_32 && AllEncodable(items)
    case Map(fields) => |fields| % 2 == 0 && |fields| < 2 * TWO_32 && AllEncodable(fields)
  }

  predicate AllEncodable(vs: seq<Value>)
    decreases vs, 0
  {
    forall v | v in vs :: Encodable(v)
  }

  function Enc(v: Value): (r: bytes)
    ensures |r| >= 1
    decreases v, 1
  {
    match v
    case Nil => EncHead(NilHead)
    case Int(n) => EncHead(IntHead(n))
    case Float(bits) => EncHead(FloatHead(bits))
    case Str(s) => EncHead(StrHead(|s|)) + s
    case Arr(items) => EncHead(ArrHead(|items|)) + EncAll(items)
    case Map(fields) => EncHead(MapHead(|fields| / 2)) + EncAll(fields)
  }

  function EncAll(vs: seq<Value>): bytes
    decreases vs, 0
  {
    if vs == [] then [] else Enc(vs[0]) + EncAll(vs[1..])
  }

  function Decode(b: bytes): (r: Option<(Value, bytes)>)
    ensures r.Some? ==> |r.value.1| < |b|
    decreases |b|, 1
  {
    match ReadHead(b)
    case None => None
    case Some((h, r)) => DecodeBody(h, r)
  }

  function DecodeBody(h: Head, r: bytes): (res: Option<(Value, bytes)>)
    ensures res.Some? ==> |res.value.1| <= |r|
    decreases |r| + 1, 0
  {
    match h
    case NilHead => Some((Nil, r))
    case IntHead(n) => Some((Int(n), r))
    case FloatHead(bits) => Some((Float(bits), r))
    case StrHead(n) => if n <= |r| then Some((Str(r[..n]), r[n..])) else None
    case ArrHead(n) =>
      (match DecodeMany(n, r)
       case None => None
       case Some((vs, s)) => Some((Arr(vs), s)))
    case MapHead(n) =>
      (match DecodeMany(2 * n, r)
       case None => None
       case Some((vs, s)) => Some((Map(vs), s)))
  }

  /** Decodes exactly n consecutive values. */
  function DecodeMany(n: nat, b: bytes): (r: Option<(seq<Value>, bytes)>)
    ensures r.Some? ==> |r.value.0| == n && |r.value.1| <= |b|
    decreases |b|, n + 2
  {
    if n == 0 then Some(([], b))
    else
      match Decode(b)
      case None => None
      case Some((v, r)) =>
        match DecodeMany(n - 1, r)
        case None => None
        case Some((vs, s)) => Some(([v] + vs, s))
  }

  function HeadOf(v: Value): (h: Head)
    requires Encodable(v)
    ensures FitsHead(h)
  {
    match v
    case Nil => NilHead
    case Int(n) => IntHead(n)
    case Float(bits) => FloatHead(bits)
    case Str(s) => StrHead(|s|)
    case Arr(items) => ArrHead(|items|)
    case Map(fields) => MapHead(|fields| / 2)
  }

  function BodyOf(v: Value): bytes
    requires Encodable(v)
  {
    match v
    case Str(s) => s
    case Arr(items) => EncAll(items)
    case Map(fields) => EncAll(fields)
    case _ => []
  }

  lemma EncIsHeadThenBody(v: Value, rest: bytes)
    requires Encodable(v)
    ensures Enc(v) + rest == EncHead(HeadOf(v)) + (BodyOf(v) + rest)
  {
  }

  lemma DecodeAfterHead(h: Head, r: bytes)
    requires FitsHead(h)
    ensures Decode(EncHead(h) + r) == DecodeBody(h, r)
  {
    HeadInverse(h, r);
  }

  /** Decoding an encoding gives the value back and leaves exactly what follows it. */
  lemma {:induction false} DecodeEnc(v: Value, rest: bytes)
    requires Encodable(v)
    ensures Decode(Enc(v) + rest) == Some((v, rest))
    decreases v, 1
  {
    EncIsHeadThenBody(v, rest);
    DecodeAfterHead(HeadOf(v), BodyOf(v) + rest);
    match v
    case Str(s) => assert (s + rest)[..|s|] == s && (s + rest)[|s|..] == rest;
    case Arr(items) => DecodeEncAll(items, rest);
    case Map(fields) => DecodeEncAll(fields, rest);
    case _ => assert BodyOf(v) + rest == rest;
  }

  lemma {:induction false} DecodeEncAll(vs: seq<Value>, rest: bytes)
    requires AllEncodable(vs)
    ensures DecodeMany(|vs|, EncAll(vs) + rest) == Some((vs, rest))
    decreases vs, 0
  {
    if vs == [] {
      assert EncAll(vs) + rest == rest;
    } else {
      assert EncAll(vs) + rest == Enc(vs[0]) + (EncAll(vs[1..]) + rest);
      DecodeEnc(vs[0], EncAll(vs[1..]) + rest);
      DecodeEncAll(vs[1..], rest);
      assert vs == [vs[0]] + vs[1..];
    }
  }

  /** No encoding is a proper prefix of another: a concatenation splits in one way only. */
  lemma EncSelfDelimiting(v: Value, w: Value, r: bytes, s: bytes)
    requires Encodable(v) && Encodable(w)
    requires Enc(v) + r == Enc(w) + s
    ensures v == w && r == s
  {
    DecodeEnc(v, r);
    DecodeEnc(w, s);
  }

  lemma Associate(a: bytes, b: bytes, c: bytes)
    ensures a + b + c == a + (b + c)
  {
  }

  lemma {:induction false} EncAllConcat(vs: seq<Value>, ws: seq<Value>)
    ensures EncAll(vs + ws) == EncAll(vs) + EncAll(ws)
  {
    if vs == [] {
      assert vs + ws == ws;
    } else {
      EncAllConcat(vs[1..], ws);
      assert (vs + ws)[0] == vs[0] && (vs + ws)[1..] == vs[1..] + ws;
      Associate(Enc(vs[0]), EncAll(vs[1..]), EncAll(ws));
    }
  }
}

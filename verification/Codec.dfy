/**
 * The binary format of `bincode::config::standard()`, which is not part of the repository. Assumed:
 * `u8` is a raw byte, `bool` a byte 0 or 1; `u16`, `u32`, `u64` are variable-length (one byte below
 * 251, else a marker 251, 252 or 253 and 2, 4 or 8 little-endian bytes); a string is its length as a
 * `u64` followed by UTF-8; a struct is its fields in order; an enum is the index of the variant as a
 * `u32` followed by its fields. With a size limit, decoding charges the in-memory size of every
 * number, tag and string against the limit before it reads it.
 */
module Codec {
  import opened Bytes
  import opened Messages

  datatype Schema =
    | U8 | U16 | U32 | U64 | Flag | Str
    | Unit
    | Pair(first: Schema, second: Schema)
    | Enum(variants: seq<Schema>)

  datatype Val =
    | Num(n: nat)
    | Truth(b: bool)
    | Chars(s: Text)
    | Nothing
    | Both(first: Val, second: Val)
    | Choice(tag: nat, v: Val)

  ghost predicate Fits(s: Schema, v: Val) {
    match s
    case U8 => v.Num? && v.n < 0x100
    case U16 => v.Num? && v.n < 0x1_0000
    case U32 => v.Num? && v.n < 0x1_0000_0000
    case U64 => v.Num? && v.n < 0x1_0000_0000_0000_0000
    case Flag => v.Truth?
    case Str => v.Chars?
    case Unit => v.Nothing?
    case Pair(a, b) => v.Both? && Fits(a, v.first) && Fits(b, v.second)
    case Enum(vs) => v.Choice? && v.tag < |vs| && v.tag < 0x1_0000_0000 && Fits(vs[v.tag], v.v)
  }

  // ---- Numbers ----

  function Varint(n: u64): seq<byte> {
    if n < 251 then [n]
    else if n < 0x1_0000 then [251] + ToLe(n, 2)
    else if n < 0x1_0000_0000 then [252] + ToLe(n, 4)
    else [253] + ToLe(n, 8)
  }

  /** How many bytes follow a first byte `b`; more than `width` is an error for the type being read. */
  function Marker(b: byte, width: nat): Io<nat> {
    if b == 251 && width >= 2 then Done(2)
    else if b == 252 && width >= 4 then Done(4)
    else if b == 253 && width >= 8 then Done(8)
    else Failed
  }

  function ReadVarint(s: seq<byte>, width: nat): (r: Io<(nat, seq<byte>)>)
    ensures r.Done? ==> |r.value.1| < |s|
  {
    if s == [] then Failed
    else if s[0] < 251 then Done((s[0], s[1..]))
    else
      var k :- Marker(s[0], width);
      if |s| < 1 + k then Failed else Done((FromLe(s[1..1 + k]), s[1 + k..]))
  }

  lemma VarintRoundTrip(n: u64, width: nat, rest: seq<byte>)
    requires width in {2, 4, 8} && n < Pow256(width)
    ensures ReadVarint(Varint(n) + rest, width) == Done((n, rest))
  {
    Pow256Values();
    var s := Varint(n) + rest;
    if n >= 251 {
      var k := if n < 0x1_0000 then 2 else if n < 0x1_0000_0000 then 4 else 8;
      assert width >= k;
      LeRoundTrip(n, k);
      assert s[1..1 + k] == ToLe(n, k);
      assert s[1 + k..] == rest;
    } else {
      assert s[1..] == rest;
    }
  }

  lemma ReadVarintBound(s: seq<byte>, width: nat)
    requires width in {2, 4, 8} && ReadVarint(s, width).Done?
    ensures ReadVarint(s, width).value.0 < Pow256(width)
  {
    Pow256Values();
    if s[0] >= 251 {
      var k := Marker(s[0], width).value;
      FromLeBound(s[1..1 + k]);
    }
  }

  // ---- Encoding ----

  function Encode(s: Schema, v: Val): seq<byte>
    requires Fits(s, v)
  {
    match s
    case U8 => [v.n]
    case U16 | U32 | U64 => Varint(v.n)
    case Flag => [if v.b then 1 else 0]
    case Str => Varint(|v.s|) + v.s
    case Unit => []
    case Pair(a, b) => Encode(a, v.first) + Encode(b, v.second)
    case Enum(vs) => Varint(v.tag) + Encode(vs[v.tag], v.v)
  }

  // ---- Decoding against a size limit ----

  datatype Budget = Unlimited | Left(n: nat)

  datatype Source = Source(bytes: seq<byte>, budget: Budget)

  predicate Affords(b: Budget, cost: nat) { b.Left? ==> cost <= b.n }

  function Spend(b: Budget, cost: nat): Budget
    requires Affords(b, cost)
  {
    if b.Left? then Left(b.n - cost) else b
  }

  function Claim(src: Source, cost: nat): Io<Source> {
    if Affords(src.budget, cost) then Done(src.(budget := Spend(src.budget, cost))) else Failed
  }

  /** A number of `width` bytes in memory. */
  function DecodeNum(src: Source, width: nat): Io<(nat, Source)> {
    var s :- Claim(src, width);
    var (n, rest) :- ReadVarint(s.bytes, width);
    Done((n, s.(bytes := rest)))
  }

  function DecodeByte(src: Source): Io<(byte, Source)> {
    var s :- Claim(src, 1);
    if s.bytes == [] then Failed else Done((s.bytes[0], s.(bytes := s.bytes[1..])))
  }

  function DecodeStr(src: Source): Io<(seq<byte>, Source)> {
    var (len, s) :- DecodeNum(src, 8);
    var s' :- Claim(s, len);
    if |s'.bytes| < len || !ValidUtf8(s'.bytes[..len]) then Failed
    else Done((s'.bytes[..len], s'.(bytes := s'.bytes[len..])))
  }

  function Decode(s: Schema, src: Source): (r: Io<(Val, Source)>)
    ensures r.Done? ==> Fits(s, r.value.0)
    decreases s
  {
    Pow256Values();
    match s
    case U8 => var (n, rest) :- DecodeByte(src); Done((Num(n), rest))
    case U16 => var (n, rest) :- DecodeNum(src, 2); NumBound(src, 2); Done((Num(n), rest))
    case U32 => var (n, rest) :- DecodeNum(src, 4); NumBound(src, 4); Done((Num(n), rest))
    case U64 => var (n, rest) :- DecodeNum(src, 8); NumBound(src, 8); Done((Num(n), rest))
    case Flag =>
      var (n, rest) :- DecodeByte(src);
      if n == 0 then Done((Truth(false), rest)) else if n == 1 then Done((Truth(true), rest)) else Failed
    case Str => var (text, rest) :- DecodeStr(src); StrBound(src); Done((Chars(text), rest))
    case Unit => Done((Nothing, src))
    case Pair(a, b) =>
      var (x, rest) :- Decode(a, src);
      var (y, rest') :- Decode(b, rest);
      Done((Both(x, y), rest'))
    case Enum(vs) =>
      var (tag, rest) :- DecodeNum(src, 4);
      NumBound(src, 4);
      if tag >= |vs| then Failed else
      var (v, rest') :- Decode(vs[tag], rest);
      Done((Choice(tag, v), rest'))
  }

  lemma NumBound(src: Source, width: nat)
    requires width in {2, 4, 8} && DecodeNum(src, width).Done?
    ensures DecodeNum(src, width).value.0 < Pow256(width)
  {
    ReadVarintBound(Claim(src, width).value.bytes, width);
  }

  lemma StrBound(src: Source)
    requires DecodeStr(src).Done?
    ensures |DecodeStr(src).value.0| < 0x1_0000_0000_0000_0000 && ValidUtf8(DecodeStr(src).value.0)
  {
    Pow256Values();
    NumBound(src, 8);
  }

  // ---- Round trip ----

  /** What decoding `v` charges against the limit. */
  function Cost(s: Schema, v: Val): nat
    requires Fits(s, v)
  {
    match s
    case U8 | Flag => 1
    case U16 => 2
    case U32 => 4
    case U64 => 8
    case Str => 8 + |v.s|
    case Unit => 0
    case Pair(a, b) => Cost(a, v.first) + Cost(b, v.second)
    case Enum(vs) => 4 + Cost(vs[v.tag], v.v)
  }

  lemma NumRoundTrip(n: nat, width: nat, rest: seq<byte>, b: Budget)
    requires width in {2, 4, 8} && n < Pow256(width) && n < 0x1_0000_0000_0000_0000
    ensures DecodeNum(Source(Varint(n) + rest, b), width) ==
            if Affords(b, width) then Done((n, Source(rest, Spend(b, width)))) else Failed
  {
    VarintRoundTrip(n, width, rest);
  }

  lemma StrRoundTrip(t: Text, rest: seq<byte>, b: Budget)
    ensures DecodeStr(Source(Varint(|t|) + t + rest, b)) ==
            if Affords(b, 8 + |t|) then Done((t, Source(rest, Spend(b, 8 + |t|)))) else Failed
  {
    Pow256Values();
    assert Varint(|t|) + t + rest == Varint(|t|) + (t + rest);
    NumRoundTrip(|t|, 8, t + rest, b);
    assert (t + rest)[..|t|] == t && (t + rest)[|t|..] == rest;
  }

  /** `v` survives encoding and decoding, whatever follows it, exactly when the limit covers its cost. */
  ghost predicate Survives(s: Schema, v: Val, rest: seq<byte>, b: Budget)
    requires Fits(s, v)
  {
    Decode(s, Source(Encode(s, v) + rest, b)) ==
    if Affords(b, Cost(s, v)) then Done((v, Source(rest, Spend(b, Cost(s, v))))) else Failed
  }

  lemma FlatRoundTrip(s: Schema, v: Val, rest: seq<byte>, b: Budget)
    requires Fits(s, v) && !s.Pair? && !s.Enum?
    ensures Survives(s, v, rest, b)
  {
    Pow256Values();
    match s {
      case U8 => assert ([v.n] + rest)[1..] == rest;
      case Flag => assert ([if v.b then 1 else 0] + rest)[1..] == rest;
      case U16 => NumRoundTrip(v.n, 2, rest, b);
      case U32 => NumRoundTrip(v.n, 4, rest, b);
      case U64 => NumRoundTrip(v.n, 8, rest, b);
      case Str => StrRoundTrip(v.s, rest, b);
      case Unit => assert [] + rest == rest;
    }
  }

  lemma {:induction false} PairRoundTrip(s: Schema, v: Val, rest: seq<byte>, b: Budget)
    requires Fits(s, v) && s.Pair?
    ensures Survives(s, v, rest, b)
    decreases s, 0
  {
    var x, y := Encode(s.first, v.first), Encode(s.second, v.second);
    assert Encode(s, v) + rest == x + (y + rest);
    RoundTrip(s.first, v.first, y + rest, b);
    if Affords(b, Cost(s.first, v.first)) {
      RoundTrip(s.second, v.second, rest, Spend(b, Cost(s.first, v.first)));
    }
  }

  lemma {:induction false} EnumRoundTrip(s: Schema, v: Val, rest: seq<byte>, b: Budget)
    requires Fits(s, v) && s.Enum?
    ensures Survives(s, v, rest, b)
    decreases s, 0
  {
    Pow256Values();
    var x, y := Varint(v.tag), Encode(s.variants[v.tag], v.v);
    assert Encode(s, v) + rest == x + (y + rest);
    NumRoundTrip(v.tag, 4, y + rest, b);
    if Affords(b, 4) {
      RoundTrip(s.variants[v.tag], v.v, rest, Spend(b, 4));
    }
  }

  /**
   * Decoding an encoding followed by any bytes returns exactly the value and those bytes, if the
   * limit covers the value's cost, and fails otherwise.
   */
  lemma {:induction false} RoundTrip(s: Schema, v: Val, rest: seq<byte>, b: Budget)
    requires Fits(s, v)
    ensures Survives(s, v, rest, b)
    decreases s, 1
  {
    match s {
      case Pair(_, _) => PairRoundTrip(s, v, rest, b);
      case Enum(_) => EnumRoundTrip(s, v, rest, b);
      case _ => FlatRoundTrip(s, v, rest, b);
    }
  }

  // ---- Input that is cut short ----

  lemma ReadVarintMore(s: seq<byte>, width: nat, y: seq<byte>)
    requires ReadVarint(s, width).Done?
    ensures var (n, rest) := ReadVarint(s, width).value; ReadVarint(s + y, width) == Done((n, rest + y))
  {
    if s[0] < 251 {
      assert (s + y)[1..] == s[1..] + y;
    } else {
      var k := Marker(s[0], width).value;
      assert (s + y)[1..1 + k] == s[1..1 + k] && (s + y)[1 + k..] == s[1 + k..] + y;
    }
  }

  function WithMore(src: Source, y: seq<byte>): Source { src.(bytes := src.bytes + y) }

  lemma NumMore(src: Source, width: nat, y: seq<byte>)
    requires DecodeNum(src, width).Done?
    ensures var (n, rest) := DecodeNum(src, width).value;
        DecodeNum(WithMore(src, y), width) == Done((n, WithMore(rest, y)))
  {
    ReadVarintMore(src.bytes, width, y);
  }

  lemma ByteMore(src: Source, y: seq<byte>)
    requires DecodeByte(src).Done?
    ensures var (n, rest) := DecodeByte(src).value; DecodeByte(WithMore(src, y)) == Done((n, WithMore(rest, y)))
  {
    assert (src.bytes + y)[1..] == src.bytes[1..] + y;
  }

  lemma StrMore(src: Source, y: seq<byte>)
    requires DecodeStr(src).Done?
    ensures var (text, rest) := DecodeStr(src).value; DecodeStr(WithMore(src, y)) == Done((text, WithMore(rest, y)))
  {
    NumMore(src, 8, y);
    var (len, s) := DecodeNum(src, 8).value;
    assert (s.bytes + y)[..len] == s.bytes[..len] && (s.bytes + y)[len..] == s.bytes[len..] + y;
  }

  /** Decoding looks at nothing behind what it consumes. */
  ghost predicate Monotone(s: Schema, src: Source, y: seq<byte>) {
    Decode(s, src).Done? ==>
      var (v, rest) := Decode(s, src).value;
      Decode(s, WithMore(src, y)) == Done((v, WithMore(rest, y)))
  }

  lemma FlatMore(s: Schema, src: Source, y: seq<byte>)
    requires !s.Pair? && !s.Enum?
    ensures Monotone(s, src, y)
  {
    if Decode(s, src).Done? {
      match s {
        case U8 | Flag => ByteMore(src, y);
        case U16 => NumMore(src, 2, y);
        case U32 => NumMore(src, 4, y);
        case U64 => NumMore(src, 8, y);
        case Str => StrMore(src, y);
        case Unit =>
      }
    }
  }

  lemma {:induction false} MoreInput(s: Schema, src: Source, y: seq<byte>)
    ensures Monotone(s, src, y)
    decreases s
  {
    match s {
      case Pair(a, b) =>
        MoreInput(a, src, y);
        if Decode(a, src).Done? {
          MoreInput(b, Decode(a, src).value.1, y);
        }
      case Enum(vs) =>
        if DecodeNum(src, 4).Done? {
          NumMore(src, 4, y);
          var (tag, rest) := DecodeNum(src, 4).value;
          if tag < |vs| {
            MoreInput(vs[tag], rest, y);
          }
        }
      case _ => FlatMore(s, src, y);
    }
  }

  /** A record that is cut short never decodes, whatever the limit. */
  lemma ProperPrefixFails(s: Schema, v: Val, k: nat, b: Budget)
    requires Fits(s, v) && k < |Encode(s, v)|
    ensures Decode(s, Source(Encode(s, v)[..k], b)).Failed?
  {
    var p := Encode(s, v);
    MoreInput(s, Source(p[..k], b), p[k..]);
    RoundTrip(s, v, [], b);
    assert p + [] == p == p[..k] + p[k..];
  }

  /** No encoding is a proper prefix of another one of the same type, and equal encodings have equal values. */
  lemma PrefixFree(s: Schema, v: Val, w: Val, x: seq<byte>, y: seq<byte>)
    requires Fits(s, v) && Fits(s, w) && Encode(s, v) + x == Encode(s, w) + y
    ensures v == w && x == y
  {
    RoundTrip(s, v, x, Unlimited);
    RoundTrip(s, w, y, Unlimited);
  }

  /** An encoding takes at most twice the value's cost. */
  lemma {:induction false} EncodingIsShort(s: Schema, v: Val)
    requires Fits(s, v)
    ensures |Encode(s, v)| <= 2 * Cost(s, v)
    decreases s
  {
    match s {
      case Pair(a, b) =>
        EncodingIsShort(a, v.first);
        EncodingIsShort(b, v.second);
      case Enum(vs) => EncodingIsShort(vs[v.tag], v.v);
      case _ =>
    }
  }
}

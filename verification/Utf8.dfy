/** UTF-8 as Python's strict codec handles it (RFC 3629): `str.encode("utf-8")` and
    `bytes.decode("utf-8")`. Text is a sequence of Unicode scalar values. */
module Utf8 {
  import opened Order

  type byte = b: int | 0 <= b < 256

  predicate Scalar(c: int)
  {
    0 <= c < 0xD800 || 0xE000 <= c < 0x110000
  }

  /** The low six bits of `c`, as a continuation byte. */
  function TrailOf(c: nat): byte
  {
    0x80 + c % 64
  }

  function Extend(high: nat, trail: byte): nat
    requires Trail(trail)
  {
    high * 64 + (trail as int - 0x80)
  }

  lemma ExtendTrail(c: nat)
    ensures Trail(TrailOf(c)) && Extend(c / 64, TrailOf(c)) == c
  {
  }

  function EncodeScalar(c: int): (r: seq<byte>)
    requires Scalar(c)
    ensures 1 <= |r| <= 4
  {
    if c < 0x80 then [c]
    else if c < 0x800 then [0xC0 + c / 64, TrailOf(c)]
    else if c < 0x10000 then [0xE0 + c / 64 / 64, TrailOf(c / 64), TrailOf(c)]
    else [0xF0 + c / 64 / 64 / 64, TrailOf(c / 64 / 64), TrailOf(c / 64), TrailOf(c)]
  }

  predicate Trail(b: byte)
  {
    0x80 <= b < 0xC0
  }

  /** One scalar from the front of `bs`; rejects truncated, overlong, surrogate and
      out-of-range forms. */
  function DecodeScalar(bs: seq<byte>): (r: Option<(int, seq<byte>)>)
    requires bs != []
    ensures r.Some? ==> |r.value.1| < |bs| && Scalar(r.value.0)
  {
    var b: int := bs[0];
    if b < 0x80 then Some((b, bs[1..]))
    else if 0xC2 <= b < 0xE0 && |bs| >= 2 && Trail(bs[1]) then
      Some((Extend(b - 0xC0, bs[1]), bs[2..]))
    else if 0xE0 <= b < 0xF0 && |bs| >= 3 && Trail(bs[1]) && Trail(bs[2]) then
      var c := Extend(Extend(b - 0xE0, bs[1]), bs[2]);
      if c < 0x800 || !Scalar(c) then None else Some((c, bs[3..]))
    else if 0xF0 <= b < 0xF8 && |bs| >= 4 && Trail(bs[1]) && Trail(bs[2]) && Trail(bs[3]) then
      var c := Extend(Extend(Extend(b - 0xF0, bs[1]), bs[2]), bs[3]);
      if c < 0x10000 || !Scalar(c) then None else Some((c, bs[4..]))
    else None
  }

  function Encode(s: string): seq<byte>
  {
    if s == "" then [] else EncodeScalar(s[0] as int) + Encode(s[1..])
  }

  function Decode(bs: seq<byte>): Option<string>
    decreases |bs|
  {
    if bs == [] then Some("")
    else
      match DecodeScalar(bs)
      case None => None
      case Some((c, rest)) =>
        match Decode(rest)
        case None => None
        case Some(s) => Some([c as char] + s)
  }

  lemma DecodeShort(n: int, rest: seq<byte>)
    requires Scalar(n) && n < 0x800
    ensures DecodeScalar(EncodeScalar(n) + rest) == Some((n, rest))
  {
    var e := EncodeScalar(n);
    assert (e + rest)[|e|..] == rest;
    ExtendTrail(n);
  }

  lemma DecodeThree(n: int, rest: seq<byte>)
    requires Scalar(n) && 0x800 <= n < 0x10000
    ensures DecodeScalar(EncodeScalar(n) + rest) == Some((n, rest))
  {
    var bs := [0xE0 + n / 64 / 64, TrailOf(n / 64), TrailOf(n)] + rest;
    assert bs[3..] == rest;
    ExtendTrail(n);
    ExtendTrail(n / 64);
    assert bs[0] - 0xE0 == n / 64 / 64;
  }

  lemma DecodeFour(n: int, rest: seq<byte>)
    requires Scalar(n) && 0x10000 <= n
    ensures DecodeScalar(EncodeScalar(n) + rest) == Some((n, rest))
  {
    var bs := [0xF0 + n / 64 / 64 / 64, TrailOf(n / 64 / 64), TrailOf(n / 64), TrailOf(n)] + rest;
    assert bs[4..] == rest;
    ExtendTrail(n);
    ExtendTrail(n / 64);
    ExtendTrail(n / 64 / 64);
    assert bs[0] - 0xF0 == n / 64 / 64 / 64;
  }

  lemma DecodeEncodedScalar(n: int, rest: seq<byte>)
    requires Scalar(n)
    ensures DecodeScalar(EncodeScalar(n) + rest) == Some((n, rest))
  {
    if n < 0x800 {
      DecodeShort(n, rest);
    } else if n < 0x10000 {
      DecodeThree(n, rest);
    } else {
      DecodeFour(n, rest);
    }
  }

  lemma SplitJoin(high: nat, trail: byte)
    requires Trail(trail)
    ensures Extend(high, trail) / 64 == high && TrailOf(Extend(high, trail)) == trail
  {
  }

  lemma EncodeDecodedScalar(bs: seq<byte>)
    requires bs != [] && DecodeScalar(bs).Some?
    ensures bs == EncodeScalar(DecodeScalar(bs).value.0) + DecodeScalar(bs).value.1
  {
    var b: int := bs[0];
    if b < 0x80 {
      assert bs == [bs[0]] + bs[1..];
    } else if b < 0xE0 {
      SplitJoin(b - 0xC0, bs[1]);
      assert bs == [bs[0], bs[1]] + bs[2..];
    } else if b < 0xF0 {
      EncodeDecodedThree(bs);
    } else {
      EncodeDecodedFour(bs);
    }
  }

  lemma EncodeDecodedThree(bs: seq<byte>)
    requires bs != [] && DecodeScalar(bs).Some? && 0xE0 <= bs[0] < 0xF0
    ensures bs == EncodeScalar(DecodeScalar(bs).value.0) + DecodeScalar(bs).value.1
  {
    var high := Extend(bs[0] as int - 0xE0, bs[1]);
    SplitJoin(bs[0] as int - 0xE0, bs[1]);
    SplitJoin(high, bs[2]);
    assert EncodeScalar(Extend(high, bs[2])) == [bs[0], bs[1], bs[2]];
    assert bs == [bs[0], bs[1], bs[2]] + bs[3..];
  }

  lemma EncodeDecodedFour(bs: seq<byte>)
    requires bs != [] && DecodeScalar(bs).Some? && 0xF0 <= bs[0]
    ensures bs == EncodeScalar(DecodeScalar(bs).value.0) + DecodeScalar(bs).value.1
  {
    var high := Extend(bs[0] as int - 0xF0, bs[1]);
    var middle := Extend(high, bs[2]);
    SplitJoin(bs[0] as int - 0xF0, bs[1]);
    SplitJoin(high, bs[2]);
    SplitJoin(middle, bs[3]);
    assert EncodeScalar(Extend(middle, bs[3])) == [bs[0], bs[1], bs[2], bs[3]];
    assert bs == [bs[0], bs[1], bs[2], bs[3]] + bs[4..];
  }

  /** Decoding undoes encoding for every text. */
  lemma {:induction false} DecodeEncode(s: string)
    ensures Decode(Encode(s)) == Some(s)
  {
    if s != "" {
      DecodeEncodedScalar(s[0] as int, Encode(s[1..]));
      DecodeEncode(s[1..]);
      assert s == [s[0]] + s[1..];
    }
  }

  /** The decoder accepts only what the encoder writes. */
  lemma {:induction false} EncodeDecode(bs: seq<byte>)
    requires Decode(bs).Some?
    ensures Encode(Decode(bs).value) == bs
    decreases |bs|
  {
    if bs != [] {
      EncodeDecodedScalar(bs);
      var (c, rest) := DecodeScalar(bs).value;
      EncodeDecode(rest);
      assert Decode(bs).value == [c as char] + Decode(rest).value;
    }
  }

  lemma {:induction false} EncodeConcat(a: string, b: string)
    ensures Encode(a + b) == Encode(a) + Encode(b)
  {
    hide EncodeScalar;
    if a == "" {
      assert a + b == b;
    } else {
      EncodeConcat(a[1..], b);
      TailOfConcat(a, b);
      ConcatAssoc(EncodeScalar(a[0] as int), Encode(a[1..]), Encode(b));
    }
  }

  lemma EncodeInjective(a: string, b: string)
    requires Encode(a) == Encode(b)
    ensures a == b
  {
    DecodeEncode(a);
    DecodeEncode(b);
  }
}

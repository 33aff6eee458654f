/** The bridge's UTF-8 check against RFC 3629: the bytes are the encoding of some Unicode scalar values. */
module Utf8 {

  type Byte = x: int | 0 <= x < 256
  type Bytes = seq<Byte>

  /** A Unicode scalar value: any code point up to U+10FFFF that is not a surrogate. */
  type Scalar = v: int | 0 <= v <= 0x10FFFF && !(0xD800 <= v <= 0xDFFF)

  /** Section 3 of RFC 3629. */
  function EncodeScalar(v: Scalar): (s: Bytes)
    ensures 1 <= |s| <= 4
  {
    if v < 0x80 then [v]
    else if v < 0x800 then [0xC0 + v / 64, 0x80 + v % 64]
    else if v < 0x1_0000 then [0xE0 + v / 4096, 0x80 + v / 64 % 64, 0x80 + v % 64]
    else [0xF0 + v / 0x4_0000, 0x80 + v / 4096 % 64, 0x80 + v / 64 % 64, 0x80 + v % 64]
  }

  function EncodeScalars(vs: seq<Scalar>): Bytes {
    if vs == [] then [] else EncodeScalar(vs[0]) + EncodeScalars(vs[1..])
  }

  ghost predicate IsUtf8(s: Bytes) {
    exists vs :: EncodeScalars(vs) == s
  }

  predicate Continues(s: Bytes, i: nat) {
    i < |s| && 128 <= s[i] <= 191
  }

  /** The length the bridge's tests give the character at the front, or 0 when they reject it. */
  function FrontLength(s: Bytes): nat
    requires s != []
  {
    if s[0] < 128 then 1
    else if !Continues(s, 1) then 0
    else if 194 <= s[0] <= 223 then 2
    else if 224 <= s[0] <= 239 && Continues(s, 2) && (s[0] != 224 || s[1] >= 160) && (s[0] != 237 || s[1] < 160) then 3
    else if 240 <= s[0] <= 244 && Continues(s, 2) && Continues(s, 3)
            && (s[0] != 240 || s[1] >= 144) && (s[0] != 244 || s[1] < 144) then 4
    else 0
  }

  /** The bits of a byte above its marker. */
  function Payload(s: Bytes, i: nat, marker: int): int {
    if i < |s| then s[i] as int - marker else 0
  }

  /** The scalar value of an accepted front character. */
  function FrontScalar(s: Bytes): int
    requires s != [] && FrontLength(s) > 0
  {
    match FrontLength(s)
    case 1 => s[0]
    case 2 => Payload(s, 0, 192) * 64 + Payload(s, 1, 128)
    case 3 => Payload(s, 0, 224) * 4096 + Payload(s, 1, 128) * 64 + Payload(s, 2, 128)
    case _ => Payload(s, 0, 240) * 0x4_0000 + Payload(s, 1, 128) * 4096 + Payload(s, 2, 128) * 64 + Payload(s, 3, 128)
  }

  ghost predicate FrontEncodes(s: Bytes)
    requires s != [] && FrontLength(s) > 0
  {
    && FrontLength(s) <= |s|
    && 0 <= FrontScalar(s) <= 0x10FFFF && !(0xD800 <= FrontScalar(s) <= 0xDFFF)
    && EncodeScalar(FrontScalar(s)) == s[..FrontLength(s)]
  }

  lemma ThreeByteFront(s: Bytes)
    requires s != [] && FrontLength(s) == 3
    ensures FrontEncodes(s)
  {
    var v := FrontScalar(s);
    assert v / 4096 == Payload(s, 0, 224) && v / 64 == Payload(s, 0, 224) * 64 + Payload(s, 1, 128);
  }

  lemma FourByteFront(s: Bytes)
    requires s != [] && FrontLength(s) == 4
    ensures FrontEncodes(s)
  {
    var v := FrontScalar(s);
    assert v / 0x4_0000 == Payload(s, 0, 240) && v / 4096 == Payload(s, 0, 240) * 64 + Payload(s, 1, 128);
    assert v / 64 == Payload(s, 0, 240) * 4096 + Payload(s, 1, 128) * 64 + Payload(s, 2, 128);
  }

  /** An accepted front is the encoding of a scalar value: no overlong form, no surrogate, nothing too large. */
  lemma FrontIsScalar(s: Bytes)
    requires s != [] && FrontLength(s) > 0
    ensures FrontEncodes(s)
  {
    if FrontLength(s) == 3 {
      ThreeByteFront(s);
    } else if FrontLength(s) == 4 {
      FourByteFront(s);
    }
  }

  ghost predicate IsFront(v: Scalar, s: Bytes) {
    s != [] && FrontLength(s) == |EncodeScalar(v)| && FrontScalar(s) == v
  }

  lemma ThreeByteScalar(v: Scalar, rest: Bytes)
    requires 0x800 <= v < 0x1_0000
    ensures IsFront(v, EncodeScalar(v) + rest)
  {
    assert v == v / 4096 * 4096 + v / 64 % 64 * 64 + v % 64;
  }

  lemma FourByteScalar(v: Scalar, rest: Bytes)
    requires 0x1_0000 <= v
    ensures IsFront(v, EncodeScalar(v) + rest)
  {
    var s := EncodeScalar(v) + rest;
    assert v == v / 0x4_0000 * 0x4_0000 + v / 4096 % 64 * 4096 + v / 64 % 64 * 64 + v % 64;
    assert s[0] == 0xF0 + v / 0x4_0000 && s[1] == 0x80 + v / 4096 % 64;
    assert s[2] == 0x80 + v / 64 % 64 && s[3] == 0x80 + v % 64;
  }

  /** Every encoded scalar value is accepted, whatever follows it. */
  lemma ScalarIsFront(v: Scalar, rest: Bytes)
    ensures IsFront(v, EncodeScalar(v) + rest)
  {
    if v >= 0x1_0000 {
      FourByteScalar(v, rest);
    } else if v >= 0x800 {
      ThreeByteScalar(v, rest);
    }
  }

  /** Well-formedness can be decided one character at a time. */
  lemma Utf8Front(s: Bytes)
    requires s != []
    ensures IsUtf8(s) <==> 0 < FrontLength(s) <= |s| && IsUtf8(s[FrontLength(s)..])
  {
    if IsUtf8(s) {
      var vs :| EncodeScalars(vs) == s;
      ScalarIsFront(vs[0], EncodeScalars(vs[1..]));
      assert s[FrontLength(s)..] == EncodeScalars(vs[1..]);
    }
    if FrontLength(s) > 0 {
      FrontIsScalar(s);
      if IsUtf8(s[FrontLength(s)..]) {
        var vs :| EncodeScalars(vs) == s[FrontLength(s)..];
        var all := [FrontScalar(s) as Scalar] + vs;
        assert all[1..] == vs;
        assert EncodeScalars(all) == s;
      }
    }
  }

  lemma EmptyIsUtf8()
    ensures IsUtf8([])
  {
    assert EncodeScalars([]) == [];
  }

  lemma {:induction false} SkipAscii(s: Bytes, n: nat)
    requires n <= |s| && forall k :: 0 <= k < n ==> s[k] < 128
    ensures IsUtf8(s) <==> IsUtf8(s[n..])
  {
    if n == 0 {
      assert s[0..] == s;
    } else {
      Utf8Front(s);
      SkipAscii(s[1..], n - 1);
      assert s[1..][n - 1..] == s[n..];
    }
  }

  /** `str:find("[\128-\255]", i)`: the next byte at or after `i` that is not ASCII. */
  method FindHighByte(s: Bytes, i: nat) returns (j: nat)
    requires i <= |s|
    ensures i <= j <= |s| && (j < |s| ==> s[j] >= 128)
    ensures forall k :: i <= k < j ==> s[k] < 128
  {
    j := i;
    while j < |s| && s[j] < 128
      invariant i <= j <= |s|
      invariant forall k :: i <= k < j ==> s[k] < 128
    {
      j := j + 1;
    }
  }

  /** `valid_utf8`: true exactly for the UTF-8 encodings of sequences of scalar values. */
  method ValidUtf8(s: Bytes) returns (valid: bool)
    ensures valid <==> IsUtf8(s)
  {
    var i := 0;
    assert s[0..] == s;
    while true
      invariant 0 <= i <= |s|
      invariant IsUtf8(s) <==> IsUtf8(s[i..])
      decreases |s| - i
    {
      var j := FindHighByte(s, i);
      SkipAscii(s[i..], j - i);
      assert s[i..][j - i..] == s[j..];
      i := j;
      if i == |s| {
        EmptyIsUtf8();
        return true;
      }
      Utf8Front(s[i..]);
      ghost var front := s[i..];
      var a, b := s[i], if i + 1 < |s| then s[i + 1] else 0;
      if b < 128 || b > 191 {
        return false;
      }
      if a >= 194 && a <= 223 {
        i := i + 2;
      } else if a >= 224 && a <= 239 && i + 2 < |s| && s[i + 2] >= 128 && s[i + 2] <= 191
                && (a != 224 || b >= 160) && (a != 237 || b < 160) {
        i := i + 3;
      } else if a >= 240 && a <= 244 && i + 3 < |s| && s[i + 2] >= 128 && s[i + 2] <= 191
                && s[i + 3] >= 128 && s[i + 3] <= 191
                && (a != 240 || b >= 144) && (a != 244 || b < 144) {
        i := i + 4;
      } else {
        return false;
      }
      FrontIsScalar(front);
      assert front[FrontLength(front)..] == s[i..];
    }
  }
}

/**
 * UTF-8 (RFC 3629) over Dafny characters, which are Unicode scalar values.
 * URLSearchParams serialises each name and value by UTF-8 encoding it
 * before percent-encoding; the decoder is the partner used to state that
 * the encoding loses nothing.
 */
module Utf8 {

  type Byte = b: int | 0 <= b < 256

  datatype Option<T> = None | Some(value: T)

  predicate IsContinuation(b: Byte) {
    0x80 <= b < 0xC0
  }

  /** The six payload bits of a continuation byte. */
  function Payload(b: Byte): int {
    b as int - 0x80
  }

  /** The bytes of one scalar value, shortest form. */
  function EncodeChar(c: char): (r: seq<Byte>)
    ensures 1 <= |r| <= 4
    ensures |r| == 1 <==> c as int < 0x80
    ensures r[0] < 0x80 || 0xC0 <= r[0] < 0xF8
    ensures forall i :: 1 <= i < |r| ==> IsContinuation(r[i])
  {
    var x := c as int;
    var q1, r1 := x / 64, x % 64;
    var q2, r2 := q1 / 64, q1 % 64;
    var q3, r3 := q2 / 64, q2 % 64;
    if x < 0x80 then [x]
    else if x < 0x800 then [0xC0 + q1, 0x80 + r1]
    else if x < 0x1_0000 then [0xE0 + q2, 0x80 + r2, 0x80 + r1]
    else [0xF0 + q3, 0x80 + r3, 0x80 + r2, 0x80 + r1]
  }

  function Encode(s: string): (r: seq<Byte>)
    ensures |r| >= |s|
  {
    if s == [] then [] else EncodeChar(s[0]) + Encode(s[1..])
  }

  /** The number of bytes a sequence starting with lead byte `b` occupies, or 0 when `b` cannot start one. */
  function SequenceLength(b: Byte): nat {
    if b < 0x80 then 1
    else if 0xC0 <= b < 0xE0 then 2
    else if 0xE0 <= b < 0xF0 then 3
    else if 0xF0 <= b < 0xF8 then 4
    else 0
  }

  /** A code point that is a scalar value and needs exactly `len` bytes (no overlong form). */
  predicate ShortestScalar(cp: int, len: nat) {
    && (cp < 0xD800 || 0xE000 <= cp < 0x11_0000)
    && match len
       case 1 => 0 <= cp < 0x80
       case 2 => 0x80 <= cp < 0x800
       case 3 => 0x800 <= cp < 0x1_0000
       case 4 => 0x1_0000 <= cp
       case _ => false
  }

  /** Decodes the scalar value at the front of `b`, with the number of bytes it used. */
  function DecodeFirst(b: seq<Byte>): (r: Option<(char, nat)>)
    requires b != []
    ensures r.Some? ==> 1 <= r.value.1 <= |b|
  {
    var len := SequenceLength(b[0]);
    if len == 0 || |b| < len then None
    else if exists i :: 1 <= i < len && !IsContinuation(b[i]) then None
    else
      var lead := b[0] as int;
      var cp: int :=
        if len == 1 then lead
        else if len == 2 then (lead - 0xC0) * 64 + Payload(b[1])
        else if len == 3 then ((lead - 0xE0) * 64 + Payload(b[1])) * 64 + Payload(b[2])
        else (((lead - 0xF0) * 64 + Payload(b[1])) * 64 + Payload(b[2])) * 64 + Payload(b[3]);
      if ShortestScalar(cp, len) then Some((cp as char, len)) else None
  }

  /** Strict UTF-8 decoding: None on any ill-formed sequence. */
  function Decode(b: seq<Byte>): Option<string>
    decreases |b|
  {
    if b == [] then Some([])
    else match DecodeFirst(b)
      case None => None
      case Some((c, len)) =>
        match Decode(b[len..])
        case None => None
        case Some(rest) => Some([c] + rest)
  }

  lemma DecodeFirstOfEncoded(c: char, rest: seq<Byte>)
    ensures DecodeFirst(EncodeChar(c) + rest) == Some((c, |EncodeChar(c)|))
  {
  }

  /** Decoding undoes encoding. */
  lemma {:induction false} DecodeEncode(s: string)
    ensures Decode(Encode(s)) == Some(s)
  {
    if s != [] {
      var e := EncodeChar(s[0]);
      DecodeFirstOfEncoded(s[0], Encode(s[1..]));
      assert (e + Encode(s[1..]))[|e|..] == Encode(s[1..]);
      DecodeEncode(s[1..]);
      assert [s[0]] + s[1..] == s;
    }
  }

  /** Hence two different strings never share an encoding. */
  lemma EncodeInjective(s: string, t: string)
    requires Encode(s) == Encode(t)
    ensures s == t
  {
    DecodeEncode(s);
    DecodeEncode(t);
  }

  lemma {:induction false} EncodeAppend(s: string, t: string)
    ensures Encode(s + t) == Encode(s) + Encode(t)
  {
    if s != [] {
      assert (s + t)[1..] == s[1..] + t;
      EncodeAppend(s[1..], t);
    } else {
      assert s + t == t;
    }
  }
}

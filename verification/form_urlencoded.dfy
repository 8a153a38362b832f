/**
 * The application/x-www-form-urlencoded format of the WHATWG URL Standard
 * (section 5): the serializer that URLSearchParams' stringifier uses
 * (section 5.2), the URLSearchParams list that `append` grows, and the
 * parser (section 5.1) as the serializer's partner.
 */
module FormUrlEncoded {
  import Utf8

  type Byte = Utf8.Byte

  /** A name-value pair of a URLSearchParams list. */
  type Pair = (string, string)

  /**
   * The bytes the serializer leaves as they are: everything outside the
   * application/x-www-form-urlencoded percent-encode set, i.e. ASCII
   * alphanumerics and `*`, `-`, `.`, `_`.
   */
  predicate IsFormSafe(b: Byte) {
    || 0x30 <= b <= 0x39
    || 0x41 <= b <= 0x5A
    || 0x61 <= b <= 0x7A
    || b == 0x2A || b == 0x2D || b == 0x2E || b == 0x5F
  }

  predicate IsHexDigit(c: char) {
    || '0' as int <= c as int <= '9' as int
    || 'A' as int <= c as int <= 'F' as int
    || 'a' as int <= c as int <= 'f' as int
  }

  /** Upper-case hexadecimal digit, as percent-encoding writes it. */
  function HexDigit(d: nat): (c: char)
    requires d < 16
    ensures IsHexDigit(c) && !('a' as int <= c as int <= 'f' as int)
  {
    if d < 10 then ('0' as int + d) as char else ('A' as int + d - 10) as char
  }

  function HexValue(c: char): (d: nat)
    requires IsHexDigit(c)
    ensures d < 16
  {
    if c as int <= '9' as int then c as int - '0' as int
    else if c as int <= 'F' as int then c as int - 'A' as int + 10
    else c as int - 'a' as int + 10
  }

  lemma HexRoundTrip(d: nat)
    requires d < 16
    ensures HexValue(HexDigit(d)) == d
  {
  }

  /** The characters a serialized name or value can contain. */
  predicate IsEncodedChar(c: char) {
    || (c as int < 0x80 && IsFormSafe(c as int))
    || c == '+' || c == '%'
  }

  /** One byte of a UTF-8 encoded name or value, with spaces as '+'. */
  function EncodeByte(b: Byte): (r: string)
    ensures forall i :: 0 <= i < |r| ==> IsEncodedChar(r[i])
    ensures |r| == 1 || |r| == 3
  {
    if b == 0x20 then "+"
    else if IsFormSafe(b) then [b as char]
    else ['%', HexDigit(b / 16), HexDigit(b % 16)]
  }

  function EncodeBytes(bs: seq<Byte>): (r: string)
    ensures forall i :: 0 <= i < |r| ==> IsEncodedChar(r[i])
  {
    if bs == [] then "" else EncodeByte(bs[0]) + EncodeBytes(bs[1..])
  }

  /** Percent-encoding of a name or value after encoding it with UTF-8. */
  function EncodeComponent(s: string): string {
    EncodeBytes(Utf8.Encode(s))
  }

  lemma EncodeComponentAlphabet(s: string)
    ensures forall c :: c in EncodeComponent(s) ==> IsEncodedChar(c)
    ensures '=' !in EncodeComponent(s) && '&' !in EncodeComponent(s)
  {
  }

  function SerializePair(p: Pair): (r: string)
    ensures r != []
  {
    EncodeComponent(p.0) + "=" + EncodeComponent(p.1)
  }

  lemma SerializePairAlphabet(p: Pair)
    ensures forall c :: c in SerializePair(p) ==> IsEncodedChar(c) || c == '='
  {
  }

  /**
   * The serializer: the pairs in list order, each as `name=value`, with
   * `&` written before every pair but the first.
   */
  function Serialize(list: seq<Pair>): (output: string)
    ensures output == "" <==> list == []
  {
    if list == [] then ""
    else
      var output := Serialize(list[..|list| - 1]);
      (if output == "" then "" else output + "&") + SerializePair(list[|list| - 1])
  }

  /** The list of name-value pairs inside a URLSearchParams object. */
  class SearchParams {
    var list: seq<Pair>

    constructor ()
      ensures list == []
    {
      list := [];
    }

    /** `append(name, value)`: adds a pair at the end, keeping existing pairs with the same name. */
    method Append(name: string, value: string)
      modifies this
      ensures list == old(list) + [(name, value)]
    {
      list := list + [(name, value)];
    }

    /** The stringifier: serializes the list. */
    method ToString() returns (output: string)
      ensures output == Serialize(list)
    {
      output := "";
      var i := 0;
      while i < |list|
        invariant 0 <= i <= |list|
        invariant output == Serialize(list[..i])
      {
        ghost var done := list[..i + 1];
        assert done[..i] == list[..i] && done[i] == list[i];
        if output != "" {
          output := output + "&";
        }
        output := output + SerializePair(list[i]);
        i := i + 1;
      }
      assert list[..|list|] == list;
    }
  }

  // ----- The parser -----

  function FirstIndex(s: string, c: char): (i: nat)
    requires c in s
    ensures i < |s| && s[i] == c && c !in s[..i]
  {
    if s[0] == c then 0
    else
      assert c in s[1..] by { var k :| 0 <= k < |s| && s[k] == c; assert s[1..][k - 1] == c; }
      var i := 1 + FirstIndex(s[1..], c);
      assert s[..i] == [s[0]] + s[1..][..i - 1];
      i
  }

  function LastIndex(s: string, c: char): (i: nat)
    requires c in s
    ensures i < |s| && s[i] == c && c !in s[i + 1..]
  {
    var n := |s| - 1;
    if s[n] == c then
      assert s[n + 1..] == [];
      n
    else
      assert c in s[..n] by { var k :| 0 <= k < |s| && s[k] == c; assert s[..n][k] == c; }
      var i := LastIndex(s[..n], c);
      assert s[i + 1..] == s[..n][i + 1..] + [s[n]];
      i
  }

  /** Splits a string on every occurrence of `sep`; there is always at least one part. */
  function Split(s: string, sep: char): (parts: seq<string>)
    ensures parts != []
    decreases |s|
  {
    if sep !in s then [s]
    else
      var i := LastIndex(s, sep);
      Split(s[..i], sep) + [s[i + 1..]]
  }

  function ReplacePlus(s: string): (r: string)
    ensures |r| == |s|
  {
    if s == [] then "" else [if s[0] == '+' then ' ' else s[0]] + ReplacePlus(s[1..])
  }

  /**
   * Percent-decoding: `%` followed by two hex digits becomes that byte;
   * every other character, a stray `%` included, stands for its own UTF-8 bytes.
   */
  function PercentDecode(s: string): seq<Byte>
  {
    if s == [] then []
    else if s[0] == '%' && |s| >= 3 && IsHexDigit(s[1]) && IsHexDigit(s[2]) then
      [HexValue(s[1]) * 16 + HexValue(s[2])] + PercentDecode(s[3..])
    else Utf8.EncodeChar(s[0]) + PercentDecode(s[1..])
  }

  /** A name or value: '+' as space, percent-decode, then UTF-8 decode (ill-formed UTF-8 is rejected). */
  function DecodeComponent(s: string): Utf8.Option<string> {
    Utf8.Decode(PercentDecode(ReplacePlus(s)))
  }

  /** One non-empty sequence: name before the first `=`, value after it (empty when there is no `=`). */
  function ParsePair(sq: string): Utf8.Option<Pair> {
    var (name, value) := if '=' in sq then var i := FirstIndex(sq, '='); (sq[..i], sq[i + 1..]) else (sq, "");
    match (DecodeComponent(name), DecodeComponent(value))
    case (Some(n), Some(v)) => Utf8.Some((n, v))
    case _ => Utf8.None
  }

  /** Parses the `&`-separated sequences in order, skipping empty ones. */
  function ParseSequences(sequences: seq<string>): Utf8.Option<seq<Pair>>
  {
    if sequences == [] then Utf8.Some([])
    else
      var last := sequences[|sequences| - 1];
      match ParseSequences(sequences[..|sequences| - 1])
      case None => Utf8.None
      case Some(init) =>
        if last == "" then Utf8.Some(init)
        else match ParsePair(last)
          case None => Utf8.None
          case Some(pair) => Utf8.Some(init + [pair])
  }

  function Parse(input: string): Utf8.Option<seq<Pair>> {
    ParseSequences(Split(input, '&'))
  }

  // ----- Round trip -----

  lemma {:induction false} ReplacePlusAppend(a: string, b: string)
    ensures ReplacePlus(a + b) == ReplacePlus(a) + ReplacePlus(b)
  {
    if a == [] {
      assert a + b == b;
    } else {
      assert (a + b)[1..] == a[1..] + b;
      ReplacePlusAppend(a[1..], b);
    }
  }

  lemma {:induction false} ReplacePlusIdentity(s: string)
    requires '+' !in s
    ensures ReplacePlus(s) == s
  {
    if s != [] {
      ReplacePlusIdentity(s[1..]);
      assert [s[0]] + s[1..] == s;
    }
  }

  lemma DecodeEncodedByte(b: Byte, rest: string)
    ensures PercentDecode(ReplacePlus(EncodeByte(b)) + rest) == [b] + PercentDecode(rest)
  {
    var e := EncodeByte(b);
    if b == 0x20 {
      assert ReplacePlus(e) + rest == [' '] + rest;
      assert ([' '] + rest)[1..] == rest;
    } else if IsFormSafe(b) {
      assert (b as char) as int == b;
      ReplacePlusIdentity(e);
      assert (e + rest)[1..] == rest;
    } else {
      ReplacePlusIdentity(e);
      var s := e + rest;
      assert s[0] == '%' && s[1] == HexDigit(b / 16) && s[2] == HexDigit(b % 16);
      HexRoundTrip(b / 16);
      HexRoundTrip(b % 16);
      assert s[3..] == rest;
    }
  }

  lemma {:induction false} DecodeEncodedBytes(bs: seq<Byte>)
    ensures PercentDecode(ReplacePlus(EncodeBytes(bs))) == bs
  {
    if bs != [] {
      ReplacePlusAppend(EncodeByte(bs[0]), EncodeBytes(bs[1..]));
      DecodeEncodedByte(bs[0], ReplacePlus(EncodeBytes(bs[1..])));
      DecodeEncodedBytes(bs[1..]);
      assert [bs[0]] + bs[1..] == bs;
    }
  }

  /** Decoding a component undoes encoding it. */
  lemma DecodeEncodeComponent(s: string)
    ensures DecodeComponent(EncodeComponent(s)) == Utf8.Some(s)
  {
    DecodeEncodedBytes(Utf8.Encode(s));
    Utf8.DecodeEncode(s);
  }

  lemma ParsePairOfSerialized(p: Pair)
    ensures ParsePair(SerializePair(p)) == Utf8.Some(p)
  {
    var sq := SerializePair(p);
    var n := EncodeComponent(p.0);
    EncodeComponentAlphabet(p.0);
    assert sq[|n|] == '=';
    var i := FirstIndex(sq, '=');
    assert i == |n|;
    assert sq[..i] == n;
    assert sq[i + 1..] == EncodeComponent(p.1);
    DecodeEncodeComponent(p.0);
    DecodeEncodeComponent(p.1);
  }

  lemma SplitLast(a: string, b: string, sep: char)
    requires sep !in b
    ensures Split(a + [sep] + b, sep) == Split(a, sep) + [b]
  {
    var s := a + [sep] + b;
    assert s[|a|] == sep;
    var i := LastIndex(s, sep);
    assert i == |a|;
    assert s[..i] == a;
    assert s[i + 1..] == b;
  }

  /** Parsing the serialization of a list gives back exactly that list. */
  lemma {:induction false} ParseSerialize(list: seq<Pair>)
    ensures Parse(Serialize(list)) == Utf8.Some(list)
  {
    if list == [] {
      assert Split("", '&') == [""];
      assert [""][..0] == [];
    } else {
      var init, last := list[..|list| - 1], list[|list| - 1];
      assert list == init + [last];
      if init == [] {
        ParseSerializeSingle(last);
      } else {
        ParseSerialize(init);
        ParseSerializeSnoc(init, last);
      }
    }
  }

  lemma ParseSerializeSingle(p: Pair)
    ensures Parse(Serialize([p])) == Utf8.Some([p])
  {
    var tail := SerializePair(p);
    assert [p][..0] == [];
    assert Serialize([p]) == tail;
    SerializePairAlphabet(p);
    assert '&' !in tail;
    assert Split(tail, '&') == [tail];
    assert [tail][..0] == [];
    ParsePairOfSerialized(p);
    assert ParseSequences([]) == Utf8.Some([]);
    assert ParseSequences([tail]) == Utf8.Some([] + [p]);
    assert [] + [p] == [p];
  }

  /** One more pair: if the parser reads a non-empty list back, it reads the list with a pair appended back too. */
  lemma ParseSerializeSnoc(init: seq<Pair>, last: Pair)
    requires init != []
    ensures Parse(Serialize(init)) == Utf8.Some(init) ==>
      Parse(Serialize(init + [last])) == Utf8.Some(init + [last])
  {
    if Parse(Serialize(init)) == Utf8.Some(init) {
      var list := init + [last];
      assert list[..|list| - 1] == init && list[|list| - 1] == last;
      var out, tail := Serialize(init), SerializePair(last);
      assert out != "";
      assert Serialize(list) == out + "&" + tail;
      SerializePairAlphabet(last);
      assert '&' !in tail;
      assert out + "&" + tail == out + ['&'] + tail;
      SplitLast(out, tail, '&');
      var parts := Split(out, '&');
      assert Split(Serialize(list), '&') == parts + [tail];
      assert (parts + [tail])[..|parts|] == parts;
      ParsePairOfSerialized(last);
    }
  }

  /** ASCII alphanumerics and `*-._` pass through unencoded. */
  lemma {:induction false} EncodeComponentPlain(s: string)
    requires forall i :: 0 <= i < |s| ==> s[i] as int < 0x80 && IsFormSafe(s[i] as int)
    ensures EncodeComponent(s) == s
  {
    if s != [] {
      var b: Byte := s[0] as int;
      assert Utf8.Encode(s) == [b] + Utf8.Encode(s[1..]);
      assert ([b] + Utf8.Encode(s[1..]))[1..] == Utf8.Encode(s[1..]);
      assert EncodeByte(b) == [s[0]];
      EncodeComponentPlain(s[1..]);
      assert [s[0]] + s[1..] == s;
    }
  }

  /** A serialized list holds only encoded characters, `=` and `&`; in particular no `?` and no `#`. */
  lemma {:induction false} SerializeAlphabet(list: seq<Pair>)
    ensures forall c :: c in Serialize(list) ==> IsEncodedChar(c) || c == '=' || c == '&'
    ensures '?' !in Serialize(list) && '#' !in Serialize(list)
  {
    if list != [] {
      var init, last := list[..|list| - 1], list[|list| - 1];
      var out := Serialize(init);
      var sep := if out == "" then "" else "&";
      assert Serialize(list) == out + sep + SerializePair(last);
      SerializeAlphabet(init);
      SerializePairAlphabet(last);
      forall c | c in Serialize(list)
        ensures IsEncodedChar(c) || c == '=' || c == '&'
      {
        assert c in out || c in sep || c in SerializePair(last);
      }
    }
  }

  /** Two lists with the same serialization are the same list. */
  lemma SerializeInjective(a: seq<Pair>, b: seq<Pair>)
    requires Serialize(a) == Serialize(b)
    ensures a == b
  {
    ParseSerialize(a);
    ParseSerialize(b);
  }
}

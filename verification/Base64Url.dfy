/** The padded base64url encoding, section 5 of RFC 4648, as Go's `base64.URLEncoding` reads and writes it. */
module Base64Url {
  import opened Common

  type Byte = b: int | 0 <= b < 256
  type Sextet = v: int | 0 <= v < 64

  function Symbol(v: Sextet): (c: char) {
    if v < 26 then ('A' as int + v) as char
    else if v < 52 then ('a' as int + (v - 26)) as char
    else if v < 62 then ('0' as int + (v - 52)) as char
    else if v == 62 then '-'
    else '_'
  }

  /** The value of an alphabet character; None for any other, '=' included. */
  function SymbolValue(c: char): (v: Option<Sextet>) {
    if 'A' <= c <= 'Z' then Some(c as int - 'A' as int)
    else if 'a' <= c <= 'z' then Some(c as int - 'a' as int + 26)
    else if '0' <= c <= '9' then Some(c as int - '0' as int + 52)
    else if c == '-' then Some(62)
    else if c == '_' then Some(63)
    else None
  }

  lemma SymbolRoundTrip(v: Sextet)
    ensures SymbolValue(Symbol(v)) == Some(v)
    ensures Symbol(v) !in ".=\r\n"
  {
  }

  /** One, two or three bytes as four characters. */
  function EncodeGroup(group: seq<Byte>): (s: string)
    requires 1 <= |group| <= 3
    ensures |s| == 4
  {
    var b0: int := group[0];
    var b1: int := if |group| > 1 then group[1] else 0;
    var b2: int := if |group| > 2 then group[2] else 0;
    [Symbol(b0 / 4),
     Symbol(b0 % 4 * 16 + b1 / 16),
     if |group| > 1 then Symbol(b1 % 16 * 4 + b2 / 64) else '=',
     if |group| > 2 then Symbol(b2 % 64) else '=']
  }

  function Encode(bytes: seq<Byte>): (s: string) {
    if bytes == [] then ""
    else if |bytes| <= 3 then EncodeGroup(bytes)
    else EncodeGroup(bytes[..3]) + Encode(bytes[3..])
  }

  /** Four characters as one to three bytes; padding is legal only where `last` says the text ends. */
  function DecodeGroup(s: string, last: bool): (group: Option<seq<Byte>>)
    requires |s| == 4
  {
    var v0, v1, v2, v3 := SymbolValue(s[0]), SymbolValue(s[1]), SymbolValue(s[2]), SymbolValue(s[3]);
    if v0.None? || v1.None? then None
    else
      var b0 := v0.value * 4 + v1.value / 16;
      if s[2] == '=' then (if s[3] == '=' && last then Some([b0]) else None)
      else if v2.None? then None
      else
        var b1 := v1.value % 16 * 16 + v2.value / 4;
        if s[3] == '=' then (if last then Some([b0, b1]) else None)
        else if v3.None? then None
        else Some([b0, b1, v2.value % 4 * 64 + v3.value])
  }

  function DecodeGroups(s: string): (bytes: Option<seq<Byte>>) {
    if s == "" then Some([])
    else if |s| < 4 then None
    else
      var group := DecodeGroup(s[..4], |s| == 4);
      var rest := DecodeGroups(s[4..]);
      if group.None? || rest.None? then None else Some(group.value + rest.value)
  }

  /** Go's decoder skips line breaks anywhere in its input. */
  function WithoutLineBreaks(s: string): (t: string) {
    if s == "" then ""
    else (if s[0] == '\r' || s[0] == '\n' then "" else [s[0]]) + WithoutLineBreaks(s[1..])
  }

  function Decode(s: string): (bytes: Option<seq<Byte>>) {
    DecodeGroups(WithoutLineBreaks(s))
  }

  /** Cutting three bytes into four sextets loses nothing. */
  lemma SextetsKeepBytes(b0: Byte, b1: Byte, b2: Byte)
    ensures 0 <= b0 / 4 < 64 && 0 <= b0 % 4 * 16 + b1 / 16 < 64 && 0 <= b1 % 16 * 4 + b2 / 64 < 64
    ensures b0 / 4 * 4 + (b0 % 4 * 16 + b1 / 16) / 16 == b0
    ensures (b0 % 4 * 16 + b1 / 16) % 16 * 16 + (b1 % 16 * 4 + b2 / 64) / 4 == b1
    ensures (b1 % 16 * 4 + b2 / 64) % 4 * 64 + b2 % 64 == b2
  {
    assert (b0 % 4 * 16 + b1 / 16) / 16 == b0 % 4;
    assert (b0 % 4 * 16 + b1 / 16) % 16 == b1 / 16;
    assert (b1 % 16 * 4 + b2 / 64) / 4 == b1 % 16;
    assert (b1 % 16 * 4 + b2 / 64) % 4 == b2 / 64;
  }

  lemma DecodeSymbols(v0: Sextet, v1: Sextet, v2: Sextet, v3: Sextet, last: bool)
    ensures DecodeGroup([Symbol(v0), Symbol(v1), Symbol(v2), Symbol(v3)], last)
            == Some([v0 * 4 + v1 / 16, v1 % 16 * 16 + v2 / 4, v2 % 4 * 64 + v3])
    ensures DecodeGroup([Symbol(v0), Symbol(v1), Symbol(v2), '='], true) == Some([v0 * 4 + v1 / 16, v1 % 16 * 16 + v2 / 4])
    ensures DecodeGroup([Symbol(v0), Symbol(v1), '=', '='], true) == Some([v0 * 4 + v1 / 16])
  {
    SymbolRoundTrip(v0);
    SymbolRoundTrip(v1);
    SymbolRoundTrip(v2);
    SymbolRoundTrip(v3);
  }

  lemma OneByteRoundTrip(b0: Byte)
    ensures DecodeGroup(EncodeGroup([b0]), true) == Some([b0])
  {
    SextetsKeepBytes(b0, 0, 0);
    DecodeSymbols(b0 / 4, b0 % 4 * 16, 0, 0, true);
    assert EncodeGroup([b0]) == [Symbol(b0 / 4), Symbol(b0 % 4 * 16), '=', '='];
  }

  lemma TwoBytesFrom(v0: Sextet, v1: Sextet, v2: Sextet, b0: Byte, b1: Byte)
    requires v0 * 4 + v1 / 16 == b0 && v1 % 16 * 16 + v2 / 4 == b1
    ensures DecodeGroup([Symbol(v0), Symbol(v1), Symbol(v2), '='], true) == Some([b0, b1])
  {
    DecodeSymbols(v0, v1, v2, 0, true);
  }

  lemma TwoBytesRoundTrip(b0: Byte, b1: Byte)
    ensures DecodeGroup(EncodeGroup([b0, b1]), true) == Some([b0, b1])
  {
    SextetsKeepBytes(b0, b1, 0);
    var s := EncodeGroup([b0, b1]);
    assert s == [Symbol(b0 / 4), Symbol(b0 % 4 * 16 + b1 / 16), Symbol(b1 % 16 * 4), '='];
    TwoBytesFrom(b0 / 4, b0 % 4 * 16 + b1 / 16, b1 % 16 * 4, b0, b1);
  }

  lemma ThreeBytesFrom(v0: Sextet, v1: Sextet, v2: Sextet, v3: Sextet, b0: Byte, b1: Byte, b2: Byte, last: bool)
    requires v0 * 4 + v1 / 16 == b0 && v1 % 16 * 16 + v2 / 4 == b1 && v2 % 4 * 64 + v3 == b2
    ensures DecodeGroup([Symbol(v0), Symbol(v1), Symbol(v2), Symbol(v3)], last) == Some([b0, b1, b2])
  {
    DecodeSymbols(v0, v1, v2, v3, last);
  }

  lemma ThreeBytesRoundTrip(b0: Byte, b1: Byte, b2: Byte, last: bool)
    ensures DecodeGroup(EncodeGroup([b0, b1, b2]), last) == Some([b0, b1, b2])
  {
    SextetsKeepBytes(b0, b1, b2);
    var s := EncodeGroup([b0, b1, b2]);
    assert s == [Symbol(b0 / 4), Symbol(b0 % 4 * 16 + b1 / 16), Symbol(b1 % 16 * 4 + b2 / 64), Symbol(b2 % 64)];
    ThreeBytesFrom(b0 / 4, b0 % 4 * 16 + b1 / 16, b1 % 16 * 4 + b2 / 64, b2 % 64, b0, b1, b2, last);
  }

  lemma GroupRoundTrip(group: seq<Byte>, last: bool)
    requires 1 <= |group| <= 3 && (last || |group| == 3)
    ensures DecodeGroup(EncodeGroup(group), last) == Some(group)
  {
    if |group| == 1 {
      assert group == [group[0]];
      OneByteRoundTrip(group[0]);
    } else if |group| == 2 {
      assert group == [group[0], group[1]];
      TwoBytesRoundTrip(group[0], group[1]);
    } else {
      assert group == [group[0], group[1], group[2]];
      ThreeBytesRoundTrip(group[0], group[1], group[2], last);
    }
  }

  lemma GroupAlphabet(group: seq<Byte>)
    requires 1 <= |group| <= 3
    ensures forall i :: 0 <= i < 4 ==> EncodeGroup(group)[i] !in ".\r\n"
  {
    var b0: Byte := group[0];
    var b1: Byte := if |group| > 1 then group[1] else 0;
    var b2: Byte := if |group| > 2 then group[2] else 0;
    SextetsKeepBytes(b0, b1, b2);
    SymbolRoundTrip(b0 / 4);
    SymbolRoundTrip(b0 % 4 * 16 + b1 / 16);
    SymbolRoundTrip(b1 % 16 * 4 + b2 / 64);
    SymbolRoundTrip(b2 % 64);
  }

  /** Encoded text holds neither a '.' nor a line break. */
  lemma {:induction false} EncodedAlphabet(bytes: seq<Byte>)
    ensures forall i :: 0 <= i < |Encode(bytes)| ==> Encode(bytes)[i] !in ".\r\n"
  {
    if bytes == [] {
    } else if |bytes| <= 3 {
      GroupAlphabet(bytes);
    } else {
      GroupAlphabet(bytes[..3]);
      EncodedAlphabet(bytes[3..]);
    }
  }

  lemma {:induction false} GroupsRoundTrip(bytes: seq<Byte>)
    ensures DecodeGroups(Encode(bytes)) == Some(bytes)
  {
    var s := Encode(bytes);
    if bytes == [] {
    } else if |bytes| <= 3 {
      GroupRoundTrip(bytes, true);
      assert s[..4] == s && s[4..] == "" && bytes + [] == bytes;
    } else {
      GroupsRoundTrip(bytes[3..]);
      assert s[..4] == EncodeGroup(bytes[..3]) && s[4..] == Encode(bytes[3..]);
      EncodeNonEmpty(bytes[3..]);
      GroupRoundTrip(bytes[..3], false);
      assert bytes == bytes[..3] + bytes[3..];
    }
  }

  lemma EncodeNonEmpty(bytes: seq<Byte>)
    ensures bytes != [] ==> |Encode(bytes)| >= 4
  {
  }

  lemma {:induction false} NothingToSkip(s: string)
    requires forall i :: 0 <= i < |s| ==> s[i] !in "\r\n"
    ensures WithoutLineBreaks(s) == s
  {
    if s != "" {
      assert s[0] !in "\r\n" && s == [s[0]] + s[1..];
      NothingToSkip(s[1..]);
    }
  }

  /** Decoding inverts encoding, for every byte string. */
  lemma DecodeInvertsEncode(bytes: seq<Byte>)
    ensures Decode(Encode(bytes)) == Some(bytes)
  {
    EncodedAlphabet(bytes);
    NothingToSkip(Encode(bytes));
    GroupsRoundTrip(bytes);
  }

  lemma EncodeInjective(a: seq<Byte>, b: seq<Byte>)
    ensures Encode(a) == Encode(b) <==> a == b
  {
    DecodeInvertsEncode(a);
    DecodeInvertsEncode(b);
  }

  /** The test vectors of section 10 of RFC 4648, and the two characters that make the alphabet URL-safe. */
  lemma StandardVectors()
    ensures Encode([]) == "" && Encode([0x66]) == "Zg==" && Encode([0x66, 0x6f]) == "Zm8=" && Encode([0x66, 0x6f, 0x6f]) == "Zm9v"
  {
  }

  lemma LongerVectors()
    ensures Encode([0x66, 0x6f, 0x6f, 0x62, 0x61, 0x72]) == "Zm9vYmFy"
    ensures Encode([0xfb, 0xff]) == "-_8="
  {
    var foobar: seq<Byte> := [0x66, 0x6f, 0x6f, 0x62, 0x61, 0x72];
    assert foobar[..3] == [0x66, 0x6f, 0x6f] && foobar[3..] == [0x62, 0x61, 0x72];
    assert EncodeGroup(foobar[..3]) == "Zm9v" && Encode(foobar[3..]) == "YmFy";
  }

  /** Refused: a length that is no multiple of four, and a character outside the alphabet. */
  lemma MalformedTexts()
    ensures Decode("Zm9") == None && Decode("Z+==") == None
  {
    hide WithoutLineBreaks;
    NothingToSkip("Zm9");
    NothingToSkip("Z+==");
  }

  /** Padding is refused before the end. */
  lemma PaddingEndsTheText(s: string)
    requires |s| > 4 && s[3] == '='
    ensures DecodeGroups(s) == None
  {
    hide SymbolValue;
  }

  function KeptOf(c: char): (s: string) {
    if c == '\r' || c == '\n' then "" else [c]
  }

  lemma SkippingOne(s: string)
    requires s != ""
    ensures WithoutLineBreaks(s) == KeptOf(s[0]) + WithoutLineBreaks(s[1..])
  {
  }

  lemma Regroup(a: string, b: string, c: string)
    ensures a + b + c == a + (b + c)
  {
  }

  lemma {:induction false} SkippingIsPiecewise(a: string, b: string)
    ensures WithoutLineBreaks(a + b) == WithoutLineBreaks(a) + WithoutLineBreaks(b)
  {
    hide WithoutLineBreaks, KeptOf;
    if a == "" {
      assert a + b == b;
      NothingToSkip("");
      assert "" + WithoutLineBreaks(b) == WithoutLineBreaks(b);
    } else {
      SkippingIsPiecewise(a[1..], b);
      SkippingOne(a);
      SkippingOne(a + b);
      assert (a + b)[1..] == a[1..] + b && (a + b)[0] == a[0];
      Regroup(KeptOf(a[0]), WithoutLineBreaks(a[1..]), WithoutLineBreaks(b));
    }
  }

  /** A line break anywhere makes no difference to the decoder. */
  lemma LineBreaksDoNotMatter(a: string, c: char, b: string)
    requires c == '\r' || c == '\n'
    ensures Decode(a + [c] + b) == Decode(a + b)
  {
    hide DecodeGroups;
    SkippingIsPiecewise(a + [c], b);
    SkippingIsPiecewise(a, [c]);
    SkippingIsPiecewise(a, b);
    assert [c][1..] == "";
    assert WithoutLineBreaks([c]) == KeptOf(c) + WithoutLineBreaks("") == "";
    assert WithoutLineBreaks(a) + "" == WithoutLineBreaks(a);
  }
}

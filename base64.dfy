/**
 * Base 64 as in section 4 of RFC 4648: three bytes become four characters of the alphabet
 * `A-Z a-z 0-9 + /`, and a final group of one or two bytes is padded with `=`. This is what
 * `btoa` produces; `Decode` is the strict inverse that `atob` agrees with on such text.
 */
module Base64 {
  import opened Wrappers
  import opened Bytes

  /** The character for a 6-bit value. */
  function Char(v: nat): char
    requires v < 64
  {
    if v < 26 then (('A' as int) + v) as char
    else if v < 52 then (('a' as int) + v - 26) as char
    else if v < 62 then (('0' as int) + v - 52) as char
    else if v == 62 then '+'
    else '/'
  }

  /** The 6-bit value of an alphabet character; `None` for any other character, `=` included. */
  function Value(c: char): (r: Option<nat>)
    ensures r.Some? ==> r.value < 64
  {
    if 'A' <= c <= 'Z' then Some(c as int - 'A' as int)
    else if 'a' <= c <= 'z' then Some(c as int - 'a' as int + 26)
    else if '0' <= c <= '9' then Some(c as int - '0' as int + 52)
    else if c == '+' then Some(62)
    else if c == '/' then Some(63)
    else None
  }

  /** Every 6-bit value has its own character. */
  lemma ValueOfChar(v: nat)
    requires v < 64
    ensures Value(Char(v)) == Some(v)
  {
  }

  /** The four characters of one group of up to three bytes. */
  function EncodeGroup(b: seq<byte>): (r: string)
    requires 1 <= |b| <= 3
    ensures |r| == 4
  {
    var b0 := b[0];
    var b1 := if |b| > 1 then b[1] else 0;
    var b2 := if |b| > 2 then b[2] else 0;
    [Char(b0 / 4), Char((b0 % 4) * 16 + b1 / 16),
     if |b| > 1 then Char((b1 % 16) * 4 + b2 / 64) else '=',
     if |b| > 2 then Char(b2 % 64) else '=']
  }

  /** The base 64 text of a byte sequence. */
  function Encode(b: seq<byte>): (r: string)
    decreases |b|
  {
    if b == [] then ""
    else if |b| <= 3 then EncodeGroup(b)
    else EncodeGroup(b[..3]) + Encode(b[3..])
  }

  /** The bytes of one group of four characters; `last` says whether padding may appear. */
  function DecodeGroup(g: string, last: bool): Option<seq<byte>>
    requires |g| == 4
  {
    var v0, v1, v2, v3 := Value(g[0]), Value(g[1]), Value(g[2]), Value(g[3]);
    if v0.None? || v1.None? then None
    else
      var x := v0.value * 4 + v1.value / 16;
      if v2.Some? && v3.Some? then
        Some([x, (v1.value % 16) * 16 + v2.value / 4, (v2.value % 4) * 64 + v3.value])
      else if last && v2.Some? && g[3] == '=' then
        Some([x, (v1.value % 16) * 16 + v2.value / 4])
      else if last && g[2] == '=' && g[3] == '=' then
        Some([x])
      else None
  }

  /** Strict base 64 decoding: whole groups of four, padding only in the last group; `None` for
      any other text. */
  function Decode(s: string): Option<seq<byte>>
    decreases |s|
  {
    if s == [] then Some([])
    else if |s| < 4 then None
    else
      match DecodeGroup(s[..4], |s| == 4)
      case None => None
      case Some(g) =>
        match Decode(s[4..])
        case None => None
        case Some(rest) => Some(g + rest)
  }

  /** Cutting three bytes into four 6-bit values and joining them again gives the bytes. */
  lemma SixBitRoundTrip(b0: byte, b1: byte, b2: byte)
    ensures var v0, v1, v2, v3 := b0 / 4, (b0 % 4) * 16 + b1 / 16, (b1 % 16) * 4 + b2 / 64, b2 % 64;
      && v0 < 64 && v1 < 64 && v2 < 64 && v3 < 64
      && v0 * 4 + v1 / 16 == b0
      && (v1 % 16) * 16 + v2 / 4 == b1
      && (v2 % 4) * 64 + v3 == b2
  {
  }

  /** One group decodes back to its bytes. */
  lemma GroupRoundTrip(b: seq<byte>, last: bool)
    requires 1 <= |b| <= 3
    requires |b| < 3 ==> last
    ensures DecodeGroup(EncodeGroup(b), last) == Some(b)
  {
    if |b| == 1 {
      OneByteGroup(b[0]);
      assert [b[0]] == b;
    } else if |b| == 2 {
      TwoByteGroup(b[0], b[1]);
      assert [b[0], b[1]] == b;
    } else {
      ThreeByteGroup(b[0], b[1], b[2], last);
      assert [b[0], b[1], b[2]] == b;
    }
  }

  lemma OneByteGroup(b0: byte)
    ensures DecodeGroup(EncodeGroup([b0]), true) == Some([b0])
  {
    SixBitRoundTrip(b0, 0, 0);
    var v0, v1 := b0 / 4, (b0 % 4) * 16;
    var g := EncodeGroup([b0]);
    assert g == [Char(v0), Char(v1), '=', '='];
    ValueOfChar(v0);
    ValueOfChar(v1);
    PaddedGroup(g, v0, v1);
  }

  lemma TwoByteGroup(b0: byte, b1: byte)
    ensures DecodeGroup(EncodeGroup([b0, b1]), true) == Some([b0, b1])
  {
    SixBitRoundTrip(b0, b1, 0);
    var v0, v1, v2 := b0 / 4, (b0 % 4) * 16 + b1 / 16, (b1 % 16) * 4;
    var g := EncodeGroup([b0, b1]);
    assert g == [Char(v0), Char(v1), Char(v2), '='];
    ValueOfChar(v0);
    ValueOfChar(v1);
    ValueOfChar(v2);
    HalfPaddedGroup(g, v0, v1, v2);
  }

  /** Two alphabet characters and two `=` decode, as a last group, to one byte. */
  lemma PaddedGroup(g: string, v0: nat, v1: nat)
    requires |g| == 4 && v0 < 64 && v1 < 64 && g[2] == '=' && g[3] == '='
    requires Value(g[0]) == Some(v0) && Value(g[1]) == Some(v1)
    ensures DecodeGroup(g, true) == Some([v0 * 4 + v1 / 16])
  {
  }

  /** Three alphabet characters and one `=` decode, as a last group, to two bytes. */
  lemma HalfPaddedGroup(g: string, v0: nat, v1: nat, v2: nat)
    requires |g| == 4 && v0 < 64 && v1 < 64 && v2 < 64 && g[3] == '='
    requires Value(g[0]) == Some(v0) && Value(g[1]) == Some(v1) && Value(g[2]) == Some(v2)
    ensures DecodeGroup(g, true) == Some([v0 * 4 + v1 / 16, (v1 % 16) * 16 + v2 / 4])
  {
  }

  lemma ThreeByteGroup(b0: byte, b1: byte, b2: byte, last: bool)
    ensures DecodeGroup(EncodeGroup([b0, b1, b2]), last) == Some([b0, b1, b2])
  {
    SixBitRoundTrip(b0, b1, b2);
    var v0, v1, v2, v3 := b0 / 4, (b0 % 4) * 16 + b1 / 16, (b1 % 16) * 4 + b2 / 64, b2 % 64;
    var g := EncodeGroup([b0, b1, b2]);
    assert g == [Char(v0), Char(v1), Char(v2), Char(v3)];
    ValueOfChar(v0);
    ValueOfChar(v1);
    ValueOfChar(v2);
    ValueOfChar(v3);
    FullGroup(g, v0, v1, v2, v3, last);
  }

  /** Four alphabet characters decode to three bytes whatever `last` says. */
  lemma FullGroup(g: string, v0: nat, v1: nat, v2: nat, v3: nat, last: bool)
    requires |g| == 4 && v0 < 64 && v1 < 64 && v2 < 64 && v3 < 64
    requires Value(g[0]) == Some(v0) && Value(g[1]) == Some(v1)
    requires Value(g[2]) == Some(v2) && Value(g[3]) == Some(v3)
    ensures DecodeGroup(g, last) == Some([v0 * 4 + v1 / 16, (v1 % 16) * 16 + v2 / 4, (v2 % 4) * 64 + v3])
  {
  }

  /** `atob` undoes `btoa`: decoding the text of any byte sequence gives the bytes back. */
  lemma {:induction false} RoundTrip(b: seq<byte>)
    ensures Decode(Encode(b)) == Some(b)
    decreases |b|
  {
    if b == [] {
    } else if |b| <= 3 {
      var g := EncodeGroup(b);
      GroupRoundTrip(b, true);
      assert g[..4] == g && g[4..] == [];
      assert g + [] == g;
      assert b + [] == b;
    } else {
      var g, rest := EncodeGroup(b[..3]), Encode(b[3..]);
      assert Encode(b) == g + rest;
      assert (g + rest)[..4] == g && (g + rest)[4..] == rest;
      GroupRoundTrip(b[..3], |g + rest| == 4);
      RoundTrip(b[3..]);
      assert b[..3] + b[3..] == b;
    }
  }

  /** The text is four characters for every started group of three bytes. */
  lemma {:induction false} EncodedLength(b: seq<byte>)
    ensures |Encode(b)| == 4 * ((|b| + 2) / 3)
    decreases |b|
  {
    if |b| > 3 {
      EncodedLength(b[3..]);
      assert (|b[3..]| + 2) / 3 == (|b| + 2) / 3 - 1;
    }
  }

  /** The four characters of one group, given by its 6-bit values. */
  lemma GroupChars(b: seq<byte>, c0: char, c1: char, c2: char, c3: char)
    requires 1 <= |b| <= 3
    requires c0 == Char(b[0] / 4)
    requires c1 == Char((b[0] % 4) * 16 + (if |b| > 1 then b[1] else 0) / 16)
    requires c2 == if |b| > 1 then Char((b[1] % 16) * 4 + (if |b| > 2 then b[2] else 0) / 64) else '='
    requires c3 == if |b| > 2 then Char(b[2] % 64) else '='
    ensures Encode(b) == [c0, c1, c2, c3]
  {
  }

  /** A full first group is encoded on its own, ahead of the rest. */
  lemma EncodeFirstGroup(g: seq<byte>, rest: seq<byte>)
    requires |g| == 3
    ensures Encode(g + rest) == Encode(g) + Encode(rest)
  {
    if rest == [] {
      assert g + rest == g;
    } else {
      assert (g + rest)[..3] == g && (g + rest)[3..] == rest;
    }
  }

  /** The single-group test vectors of section 10 of RFC 4648 (`""`, `"f"`, `"fo"`, `"foo"`),
      and a group that uses `/` for the value 63. */
  lemma Rfc4648Groups()
    ensures Encode([]) == ""
    ensures Encode([102]) == "Zg=="
    ensures Encode([102, 111]) == "Zm8="
    ensures Encode([102, 111, 111]) == "Zm9v"
    ensures Encode([255, 254, 253]) == "//79"
  {
    GroupChars([102], 'Z', 'g', '=', '=');
    GroupChars([102, 111], 'Z', 'm', '8', '=');
    GroupChars([102, 111, 111], 'Z', 'm', '9', 'v');
    GroupChars([255, 254, 253], '/', '/', '7', '9');
  }

  /** The test vector `"foob"` of section 10 of RFC 4648. */
  lemma Rfc4648Foob()
    ensures Encode([102, 111, 111, 98]) == "Zm9vYg=="
  {
    GroupChars([102, 111, 111], 'Z', 'm', '9', 'v');
    GroupChars([98], 'Y', 'g', '=', '=');
    EncodeFirstGroup([102, 111, 111], [98]);
  }

  /** The test vector `"fooba"` of section 10 of RFC 4648. */
  lemma Rfc4648Fooba()
    ensures Encode([102, 111, 111, 98, 97]) == "Zm9vYmE="
  {
    GroupChars([102, 111, 111], 'Z', 'm', '9', 'v');
    GroupChars([98, 97], 'Y', 'm', 'E', '=');
    EncodeFirstGroup([102, 111, 111], [98, 97]);
  }

  /** The test vector `"foobar"` of section 10 of RFC 4648. */
  lemma Rfc4648Foobar()
    ensures Encode([102, 111, 111, 98, 97, 114]) == "Zm9vYmFy"
  {
    GroupChars([102, 111, 111], 'Z', 'm', '9', 'v');
    GroupChars([98, 97, 114], 'Y', 'm', 'F', 'y');
    EncodeFirstGroup([102, 111, 111], [98, 97, 114]);
  }
}

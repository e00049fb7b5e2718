/**
 * `btoa` and `atob`: base64 as defined in section 4 of RFC 4648 (alphabet
 * A-Z a-z 0-9 + /, `=` padding, no line breaks), applied to "binary strings"
 * whose characters are all below 256. `atob` follows the HTML standard's
 * forgiving-base64 decode: it skips ASCII whitespace, accepts missing padding
 * and ignores the unused low bits of the last group.
 */
module Base64 {
  import opened Common

  predicate IsBase64Char(c: char) {
    ('A' <= c <= 'Z') || ('a' <= c <= 'z') || ('0' <= c <= '9') || c == '+' || c == '/'
  }

  predicate AllBase64(s: string) {
    forall i :: 0 <= i < |s| ==> IsBase64Char(s[i])
  }

  /** The character that stands for the 6-bit value `v`. */
  function CharOf(v: int): (c: char)
    requires 0 <= v < 64
    ensures IsBase64Char(c)
  {
    if v < 26 then (65 + v) as char
    else if v < 52 then (97 + v - 26) as char
    else if v < 62 then (48 + v - 52) as char
    else if v == 62 then '+'
    else '/'
  }

  /** The 6-bit value of an alphabet character: the inverse of `CharOf`. */
  function ValueOf(c: char): (v: int)
    requires IsBase64Char(c)
    ensures 0 <= v < 64 && CharOf(v) == c
  {
    if 'A' <= c <= 'Z' then c as int - 65
    else if 'a' <= c <= 'z' then c as int - 97 + 26
    else if '0' <= c <= '9' then c as int - 48 + 52
    else if c == '+' then 62
    else 63
  }

  lemma ValueOfCharOf(v: int)
    requires 0 <= v < 64
    ensures ValueOf(CharOf(v)) == v
  {
  }

  // ---- encoding ----

  /** Three bytes become four characters. */
  function Quad(b0: byte, b1: byte, b2: byte): string {
    [CharOf(b0 / 4), CharOf((b0 % 4) * 16 + b1 / 16), CharOf((b1 % 16) * 4 + b2 / 64), CharOf(b2 % 64)]
  }

  /** The final two bytes become three characters (the low two bits are zero). */
  function Triple(b0: byte, b1: byte): string {
    [CharOf(b0 / 4), CharOf((b0 % 4) * 16 + b1 / 16), CharOf((b1 % 16) * 4)]
  }

  /** The final byte becomes two characters (the low four bits are zero). */
  function Pair(b0: byte): string {
    [CharOf(b0 / 4), CharOf((b0 % 4) * 16)]
  }

  /** The base64 characters of `b` without the trailing padding. */
  function EncodeUnpadded(b: seq<byte>): (s: string)
    ensures |s| == 4 * (|b| / 3) + (if |b| % 3 == 0 then 0 else |b| % 3 + 1)
    ensures AllBase64(s)
    decreases |b|
  {
    if |b| >= 3 then Quad(b[0], b[1], b[2]) + EncodeUnpadded(b[3..])
    else if |b| == 2 then Triple(b[0], b[1])
    else if |b| == 1 then Pair(b[0])
    else []
  }

  function Padding(n: nat): string {
    if n % 3 == 1 then "==" else if n % 3 == 2 then "=" else ""
  }

  lemma PaddedLength(n: nat)
    ensures 4 * (n / 3) + (if n % 3 == 0 then 0 else n % 3 + 1) + |Padding(n)| == 4 * ((n + 2) / 3)
  {
  }

  /** Base64 text of `b` as RFC 4648 section 4 defines it: 4 characters per started group of 3 bytes. */
  function Encode(b: seq<byte>): (s: string)
    ensures |s| == 4 * ((|b| + 2) / 3)
    ensures forall i :: 0 <= i < |s| ==> IsBase64Char(s[i]) || s[i] == '='
  {
    PaddedLength(|b|);
    EncodeUnpadded(b) + Padding(|b|)
  }

  // ---- decoding ----

  /** Four characters give back three bytes. */
  function Bytes3(c0: char, c1: char, c2: char, c3: char): seq<byte>
    requires IsBase64Char(c0) && IsBase64Char(c1) && IsBase64Char(c2) && IsBase64Char(c3)
  {
    var v0, v1, v2, v3 := ValueOf(c0), ValueOf(c1), ValueOf(c2), ValueOf(c3);
    [v0 * 4 + v1 / 16, (v1 % 16) * 16 + v2 / 4, (v2 % 4) * 64 + v3]
  }

  /** Three final characters (18 bits) give two bytes; the last two bits are discarded. */
  function Bytes2(c0: char, c1: char, c2: char): seq<byte>
    requires IsBase64Char(c0) && IsBase64Char(c1) && IsBase64Char(c2)
  {
    var v0, v1, v2 := ValueOf(c0), ValueOf(c1), ValueOf(c2);
    [v0 * 4 + v1 / 16, (v1 % 16) * 16 + v2 / 4]
  }

  /** Two final characters (12 bits) give one byte; the last four bits are discarded. */
  function Bytes1(c0: char, c1: char): seq<byte>
    requires IsBase64Char(c0) && IsBase64Char(c1)
  {
    [ValueOf(c0) * 4 + ValueOf(c1) / 16]
  }

  function DecodeUnpadded(d: string): (b: seq<byte>)
    requires |d| % 4 != 1 && AllBase64(d)
    decreases |d|
  {
    if |d| >= 4 then Bytes3(d[0], d[1], d[2], d[3]) + DecodeUnpadded(d[4..])
    else if |d| == 3 then Bytes2(d[0], d[1], d[2])
    else if |d| == 2 then Bytes1(d[0], d[1])
    else []
  }

  /** The ASCII whitespace forgiving-base64 skips: tab, line feed, form feed, carriage return, space. */
  predicate IsAsciiWhitespace(c: char) {
    c == '\t' || c == '\n' || c == '\U{C}' || c == '\r' || c == ' '
  }

  function StripAsciiWhitespace(s: string): (r: string)
    ensures |r| <= |s|
    ensures forall i :: 0 <= i < |r| ==> !IsAsciiWhitespace(r[i])
  {
    if s == [] then []
    else if IsAsciiWhitespace(s[0]) then StripAsciiWhitespace(s[1..])
    else [s[0]] + StripAsciiWhitespace(s[1..])
  }

  /** When the length is a multiple of four, one or two trailing `=` are dropped. */
  function RemovePadding(d: string): string {
    if |d| % 4 == 0 && |d| >= 2 && d[|d| - 1] == '=' && d[|d| - 2] == '=' then d[..|d| - 2]
    else if |d| % 4 == 0 && |d| >= 1 && d[|d| - 1] == '=' then d[..|d| - 1]
    else d
  }

  /** A string of characters below 256, one per byte (`String.fromCharCode(...bytes)`). */
  predicate IsBinaryString(s: string) {
    forall i :: 0 <= i < |s| ==> s[i] as int < 256
  }

  function BinaryString(b: seq<byte>): (s: string)
    ensures |s| == |b| && IsBinaryString(s)
    ensures forall i :: 0 <= i < |b| ==> s[i] as int == b[i]
  {
    seq(|b|, i requires 0 <= i < |b| => b[i] as char)
  }

  /** The bytes of a binary string (`new Uint8Array(s.split('').map(c => c.charCodeAt(0)))`). */
  function CharCodes(s: string): (b: seq<byte>)
    requires IsBinaryString(s)
    ensures |b| == |s|
    ensures forall i :: 0 <= i < |s| ==> b[i] == s[i] as int
  {
    seq(|s|, i requires 0 <= i < |s| => s[i] as int)
  }

  /** `btoa(s)`: fails (InvalidCharacterError) exactly when some character is 256 or above. */
  function Btoa(s: string): (r: Option<string>)
    ensures r.Some? <==> IsBinaryString(s)
    ensures r.Some? ==> r.value == Encode(CharCodes(s))
  {
    if IsBinaryString(s) then Some(Encode(CharCodes(s))) else None
  }

  /** `atob(s)`: fails (InvalidCharacterError) on a length of 1 mod 4 after clean-up or on a character outside the alphabet. */
  function Atob(s: string): (r: Option<string>)
    ensures r.Some? ==> IsBinaryString(r.value)
    ensures r.Some? <==> var d := RemovePadding(StripAsciiWhitespace(s)); |d| % 4 != 1 && AllBase64(d)
  {
    var d := RemovePadding(StripAsciiWhitespace(s));
    if |d| % 4 == 1 || !AllBase64(d) then None
    else Some(BinaryString(DecodeUnpadded(d)))
  }

  // ---- round trip ----

  lemma QuadRoundTrip(b0: byte, b1: byte, b2: byte)
    ensures var q := Quad(b0, b1, b2); Bytes3(q[0], q[1], q[2], q[3]) == [b0, b1, b2]
  {
    ValueOfCharOf(b0 / 4);
    ValueOfCharOf((b0 % 4) * 16 + b1 / 16);
    ValueOfCharOf((b1 % 16) * 4 + b2 / 64);
    ValueOfCharOf(b2 % 64);
  }

  lemma TripleRoundTrip(b0: byte, b1: byte)
    ensures var t := Triple(b0, b1); Bytes2(t[0], t[1], t[2]) == [b0, b1]
  {
    ValueOfCharOf(b0 / 4);
    ValueOfCharOf((b0 % 4) * 16 + b1 / 16);
    ValueOfCharOf((b1 % 16) * 4);
  }

  lemma PairRoundTrip(b0: byte)
    ensures var p := Pair(b0); Bytes1(p[0], p[1]) == [b0]
  {
    ValueOfCharOf(b0 / 4);
    ValueOfCharOf((b0 % 4) * 16);
  }

  lemma GroupLength(q: nat, t: nat)
    requires t < 4
    ensures (4 * q + t) % 4 == t
  {
  }

  lemma UnpaddedLength(b: seq<byte>)
    ensures |EncodeUnpadded(b)| % 4 != 1
  {
    GroupLength(|b| / 3, if |b| % 3 == 0 then 0 else |b| % 3 + 1);
  }

  /** Decoding a leading group of four characters, then the rest. */
  lemma DecodeLeadingQuad(q: string, rest: string)
    requires |q| == 4 && AllBase64(q) && AllBase64(rest) && |rest| % 4 != 1
    ensures AllBase64(q + rest)
    ensures DecodeUnpadded(q + rest) == Bytes3(q[0], q[1], q[2], q[3]) + DecodeUnpadded(rest)
  {
    var s := q + rest;
    assert s[4..] == rest;
    assert s[0] == q[0] && s[1] == q[1] && s[2] == q[2] && s[3] == q[3];
  }

  lemma LeadingThree(b: seq<byte>)
    requires |b| >= 3
    ensures b == [b[0], b[1], b[2]] + b[3..]
  {
  }

  /** One group of three bytes decodes back, given that the bytes after it do. */
  lemma DecodeEncodeGroup(b: seq<byte>)
    requires |b| >= 3
    requires |EncodeUnpadded(b[3..])| % 4 != 1 && DecodeUnpadded(EncodeUnpadded(b[3..])) == b[3..]
    ensures |EncodeUnpadded(b)| % 4 != 1 && DecodeUnpadded(EncodeUnpadded(b)) == b
  {
    UnpaddedLength(b);
    DecodeLeadingQuad(Quad(b[0], b[1], b[2]), EncodeUnpadded(b[3..]));
    QuadRoundTrip(b[0], b[1], b[2]);
    LeadingThree(b);
  }

  lemma {:induction false} DecodeEncodeUnpadded(b: seq<byte>)
    ensures |EncodeUnpadded(b)| % 4 != 1
    ensures DecodeUnpadded(EncodeUnpadded(b)) == b
    decreases |b|
  {
    UnpaddedLength(b);
    if |b| >= 3 {
      DecodeEncodeUnpadded(b[3..]);
      DecodeEncodeGroup(b);
    } else if |b| == 2 {
      TripleRoundTrip(b[0], b[1]);
    } else if |b| == 1 {
      PairRoundTrip(b[0]);
    }
  }

  lemma {:induction false} StripKeepsBase64(s: string)
    requires forall i :: 0 <= i < |s| ==> IsBase64Char(s[i]) || s[i] == '='
    ensures StripAsciiWhitespace(s) == s
    decreases |s|
  {
    if s != [] {
      StripKeepsBase64(s[1..]);
      assert s == [s[0]] + s[1..];
    }
  }

  /** `RemovePadding` takes off exactly the `=` characters `Padding` appended to unpadded base64 text. */
  lemma PaddingRemoved(u: string, n: nat)
    requires |u| == 4 * (n / 3) + (if n % 3 == 0 then 0 else n % 3 + 1)
    requires AllBase64(u)
    ensures RemovePadding(u + Padding(n)) == u
  {
    var s := u + Padding(n);
    if n % 3 == 1 {
      assert s[..|s| - 2] == u;
    } else if n % 3 == 2 {
      assert s[|s| - 2] == u[|u| - 1];
      assert s[..|s| - 1] == u;
    } else {
      assert s == u;
      assert u == [] || IsBase64Char(u[|u| - 1]);
    }
  }

  /** `atob` undoes `btoa`'s encoding: the padding it removes is exactly the padding `Encode` added. */
  lemma DecodeEncode(b: seq<byte>)
    ensures Atob(Encode(b)) == Some(BinaryString(b))
  {
    StripKeepsBase64(Encode(b));
    PaddingRemoved(EncodeUnpadded(b), |b|);
    DecodeEncodeUnpadded(b);
  }

  /** The artifact round trip of the cipher tool: bytes to binary string to base64 text, and back. */
  lemma BytesRoundTrip(b: seq<byte>)
    ensures Btoa(BinaryString(b)).Some?
    ensures var t := Btoa(BinaryString(b)).value;
      Atob(t).Some? && CharCodes(Atob(t).value) == b
  {
    assert CharCodes(BinaryString(b)) == b;
    DecodeEncode(b);
  }

  /** Every `btoa` output is valid input for `atob`, which returns the original binary string. */
  lemma AtobBtoa(s: string)
    requires IsBinaryString(s)
    ensures Atob(Btoa(s).value) == Some(s)
  {
    var b := CharCodes(s);
    assert BinaryString(b) == s;
    DecodeEncode(b);
  }

  /** The group "foo" of the test vectors. */
  lemma FooGroup()
    ensures Quad(102, 111, 111) == "Zm9v"
  {
    assert 102 / 4 == 25 && (102 % 4) * 16 + 111 / 16 == 38 && (111 % 16) * 4 + 111 / 64 == 61 && 111 % 64 == 47;
    assert CharOf(25) == 'Z' && CharOf(38) == 'm' && CharOf(61) == '9' && CharOf(47) == 'v';
  }

  /** The groups "b", "ba" and "bar" of the test vectors. */
  lemma BarGroups()
    ensures Pair(98) == "Yg" && Triple(98, 97) == "YmE" && Quad(98, 97, 114) == "YmFy"
  {
    assert 98 / 4 == 24 && (98 % 4) * 16 == 32 && (98 % 4) * 16 + 97 / 16 == 38 && (97 % 16) * 4 == 4;
    assert (97 % 16) * 4 + 114 / 64 == 5 && 114 % 64 == 50;
    assert CharOf(24) == 'Y' && CharOf(32) == 'g' && CharOf(38) == 'm' && CharOf(4) == 'E';
    assert CharOf(5) == 'F' && CharOf(50) == 'y';
  }

  /** The test vectors of section 10 of RFC 4648 for up to one group: "", "f", "fo", "foo". */
  lemma EncodeTestVectorsShort()
    ensures Encode([]) == ""
    ensures Encode([102]) == "Zg=="
    ensures Encode([102, 111]) == "Zm8="
    ensures Encode([102, 111, 111]) == "Zm9v"
  {
    assert 102 / 4 == 25 && (102 % 4) * 16 == 32 && (102 % 4) * 16 + 111 / 16 == 38 && (111 % 16) * 4 == 60;
    assert CharOf(25) == 'Z' && CharOf(32) == 'g' && CharOf(38) == 'm' && CharOf(60) == '8';
    assert Pair(102) == "Zg" && Triple(102, 111) == "Zm8";
    FooGroup();
    assert [102, 111, 111][3..] == [];
  }

  /** The test vectors of section 10 of RFC 4648 for a group and a part: "foob", "fooba". */
  lemma EncodeTestVectorsPartial()
    ensures Encode([102, 111, 111, 98]) == "Zm9vYg=="
    ensures Encode([102, 111, 111, 98, 97]) == "Zm9vYmE="
  {
    FooGroup();
    BarGroups();
    assert [102, 111, 111, 98][3..] == [98];
    assert EncodeUnpadded([102, 111, 111, 98]) == Quad(102, 111, 111) + Pair(98);
    assert [102, 111, 111, 98, 97][3..] == [98, 97];
    assert EncodeUnpadded([102, 111, 111, 98, 97]) == Quad(102, 111, 111) + Triple(98, 97);
  }

  /** The test vector of section 10 of RFC 4648 for two whole groups: "foobar". */
  lemma EncodeTestVectorFull()
    ensures Encode([102, 111, 111, 98, 97, 114]) == "Zm9vYmFy"
  {
    FooGroup();
    BarGroups();
    assert [102, 111, 111, 98, 97, 114][3..] == [98, 97, 114];
    assert EncodeUnpadded([98, 97, 114]) == Quad(98, 97, 114);
    assert EncodeUnpadded([102, 111, 111, 98, 97, 114]) == Quad(102, 111, 111) + Quad(98, 97, 114);
  }
}

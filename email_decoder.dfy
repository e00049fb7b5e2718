/**
 * `revealEmail` of script.js: the address is stored XOR-ed with 15 and
 * decoded one UTF-16 code unit at a time.
 */
module EmailDecoder {

  /** A UTF-16 code unit, as `charCodeAt` returns and `String.fromCharCode` takes. */
  type CodeUnit = bv16

  const Key: CodeUnit := 15

  /** The code units of a string whose characters all lie in the Basic Multilingual Plane. */
  function CodeUnits(s: string): (u: seq<CodeUnit>)
    requires forall i :: 0 <= i < |s| ==> s[i] as int < 0x1_0000
    ensures |u| == |s|
    ensures forall i :: 0 <= i < |s| ==> u[i] == s[i] as int as CodeUnit
  {
    seq(|s|, i requires 0 <= i < |s| => s[i] as int as CodeUnit)
  }

  /** The encoded address held by the page. */
  const EncodedText := "hnxvekdhqbjdke#l{ldhm|ft|lkz"

  const Encoded: seq<CodeUnit> := CodeUnits(EncodedText)

  /** Every code unit XOR-ed with `key`. */
  function XorWith(s: seq<CodeUnit>, key: CodeUnit): seq<CodeUnit> {
    seq(|s|, i requires 0 <= i < |s| => s[i] ^ key)
  }

  /** The decoding loop: one output unit per input unit, each the input unit XOR the key. */
  method Decode(encoded: seq<CodeUnit>, key: CodeUnit) returns (decoded: seq<CodeUnit>)
    ensures |decoded| == |encoded|
    ensures forall i :: 0 <= i < |encoded| ==> decoded[i] == encoded[i] ^ key
    ensures decoded == XorWith(encoded, key)
  {
    decoded := [];
    for i := 0 to |encoded|
      invariant |decoded| == i
      invariant forall j :: 0 <= j < i ==> decoded[j] == encoded[j] ^ key
    {
      decoded := decoded + [encoded[i] ^ key];
    }
  }

  lemma XorTwice(x: CodeUnit, key: CodeUnit)
    ensures (x ^ key) ^ key == x
  {
  }

  /** Decoding twice with the same key gives back the original text, and keeps its length. */
  lemma DecodeTwice(s: seq<CodeUnit>, key: CodeUnit)
    ensures |XorWith(s, key)| == |s|
    ensures XorWith(XorWith(s, key), key) == s
  {
    var once := XorWith(s, key);
    var twice := XorWith(once, key);
    forall i | 0 <= i < |s| ensures twice[i] == s[i] {
      XorTwice(s[i], key);
    }
  }

  /** XOR-ing a decoded unit with the key again gives the encoded unit back. */
  lemma DecodedUnit(s: seq<CodeUnit>, key: CodeUnit, i: int)
    requires 0 <= i < |s|
    ensures XorWith(s, key)[i] ^ key == s[i]
  {
    XorTwice(s[i], key);
  }

  /** Only 'O' has the code unit 79. */
  lemma UnitOfChar(c: char)
    requires c as int < 0x1_0000 && c != 'O'
    ensures c as int as CodeUnit != 79
  {
  }

  /** The stored constant holds no 'O' (code unit 79), the unit that decodes to '@'. */
  lemma EncodedHasNoO()
    ensures 79 !in Encoded
  {
    assert 'O' !in EncodedText;
    forall i | 0 <= i < |Encoded| ensures Encoded[i] != 79 {
      UnitOfChar(EncodedText[i]);
    }
  }

  /** The stored constant decodes to a text of 28 units that holds no '@' (code unit 64). */
  lemma DecodedConstantHasNoAt()
    ensures |XorWith(Encoded, Key)| == 28
    ensures 64 !in XorWith(Encoded, Key)
  {
    var decoded := XorWith(Encoded, Key);
    EncodedHasNoO();
    forall i | 0 <= i < |decoded| ensures decoded[i] != 64 {
      DecodedUnit(Encoded, Key, i);
    }
  }
}

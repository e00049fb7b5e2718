/**
 * The password cipher tool of script.js (`encryptText` / `decryptText`).
 *
 * Encryption derives an AES-GCM-256 key from the password with PBKDF2
 * (100000 iterations of HMAC-SHA-256, section 5.2 of RFC 8018) over a fresh
 * 16-byte salt, seals the plaintext under a fresh 12-byte IV, writes
 * salt ‖ iv ‖ ciphertext into one byte buffer and shows the buffer as base64
 * text. Decryption decodes the text, slices the buffer at 16 and 28,
 * re-derives the key from the embedded salt and opens the ciphertext.
 *
 * The host's `crypto.subtle` is a `Provider` value: the key derivation and the
 * cipher are opaque functions; the random salt and IV are inputs.
 */
module CipherTool {
  import opened Common
  import Base64

  const SaltLength: nat := 16
  const IvLength: nat := 12
  const Pbkdf2Iterations: nat := 100000

  const EncryptMissingInput := "Please enter both text and password"
  const DecryptMissingInput := "Please enter both encrypted text and password"
  const DecryptFailed := "Decryption failed: Invalid password or corrupted data"

  /** The `deriveKey` algorithm argument. */
  datatype KdfParams = KdfParams(name: string, salt: seq<byte>, iterations: nat, hash: string)

  /** The derived key's algorithm and length in bits. */
  datatype KeyAlgorithm = KeyAlgorithm(name: string, length: nat)

  /**
   * The host's cryptographic subsystem. `derive(password, params, alg)` is the
   * raw key PBKDF2 yields; `seal(key, iv, plaintext)` is AES-GCM encryption
   * (ciphertext followed by the tag); `open(key, iv, data)` is AES-GCM
   * decryption, None when the host rejects (a failed tag check or an argument
   * it refuses). Being functions, all three are deterministic.
   */
  datatype Provider = Provider(
    derive: (seq<byte>, KdfParams, KeyAlgorithm) -> seq<byte>,
    seal: (seq<byte>, seq<byte>, seq<byte>) -> seq<byte>,
    open: (seq<byte>, seq<byte>, seq<byte>) -> Option<seq<byte>>)

  /** The authenticated cipher's correctness: opening what was sealed under the same key and IV gives it back. */
  ghost predicate OpenInvertsSeal(p: Provider) {
    forall key, iv, plain :: p.open(key, iv, p.seal(key, iv, plain)) == Some(plain)
  }

  /** AES-GCM appends a 16-byte tag to a ciphertext as long as the plaintext. */
  ghost predicate SealAppendsTag(p: Provider) {
    forall key, iv, plain :: |p.seal(key, iv, plain)| == |plain| + 16
  }

  /** AES-GCM refuses data shorter than its 16-byte tag. */
  ghost predicate OpenRejectsShort(p: Provider) {
    forall key, iv, data :: |data| < 16 ==> p.open(key, iv, data).None?
  }

  /** The key-derivation arguments; encryption and decryption pass the same ones. */
  function Pbkdf2Params(salt: seq<byte>): KdfParams {
    KdfParams("PBKDF2", salt, Pbkdf2Iterations, "SHA-256")
  }

  const AesGcm256 := KeyAlgorithm("AES-GCM", 256)

  function DeriveKey(p: Provider, password: seq<byte>, salt: seq<byte>): seq<byte> {
    p.derive(password, Pbkdf2Params(salt), AesGcm256)
  }

  /** What the result element ends up showing. */
  datatype Shown =
    | Notice(message: string)     // a fixed message
    | Artifact(text: string)      // the base64 artifact
    | Plaintext(data: seq<byte>)  // the recovered plaintext

  // ---- packing: the `combined` buffer ----

  /** `a.set(src, offset)`: copies `src` into `a` from `offset` on and leaves the rest alone. */
  method SetAt(a: array<byte>, src: seq<byte>, offset: nat)
    requires offset + |src| <= a.Length
    modifies a
    ensures a[..] == old(a[..offset]) + src + old(a[offset + |src|..])
  {
    for k := 0 to |src|
      invariant forall j :: 0 <= j < k ==> a[offset + j] == src[j]
      invariant forall j :: 0 <= j < a.Length && !(offset <= j < offset + k) ==> a[j] == old(a[j])
    {
      a[offset + k] := src[k];
    }
    assert forall j :: 0 <= j < a.Length ==> a[..][j] == (old(a[..offset]) + src + old(a[offset + |src|..]))[j];
  }

  /** Allocates `combined` and fills it with salt at 0, iv after it and the ciphertext after both. */
  method Pack(salt: seq<byte>, iv: seq<byte>, ciphertext: seq<byte>) returns (combined: array<byte>)
    ensures fresh(combined)
    ensures combined[..] == salt + iv + ciphertext
  {
    combined := new byte[|salt| + |iv| + |ciphertext|];
    SetAt(combined, salt, 0);
    ghost var a1 := combined[..];
    assert a1[..|salt|] == salt;
    SetAt(combined, iv, |salt|);
    ghost var a2 := combined[..];
    assert a2 == salt + iv + a1[|salt| + |iv|..];
    assert a2[..|salt| + |iv|] == salt + iv;
    SetAt(combined, ciphertext, |salt| + |iv|);
    assert combined[..] == (salt + iv) + ciphertext + a2[|salt| + |iv| + |ciphertext|..];
  }

  /** `typedArray.slice(start, end)` for non-negative arguments: both ends are clamped to the length. */
  function Slice(s: seq<byte>, start: nat, end: nat): (r: seq<byte>)
    ensures |r| == Max(0, Min(end, |s|) - Min(start, |s|))
    ensures forall i :: 0 <= i < |r| ==> r[i] == s[start + i]
  {
    var lo := Min(start, |s|);
    var hi := Min(end, |s|);
    if hi <= lo then [] else s[lo..hi]
  }

  datatype Parts = Parts(salt: seq<byte>, iv: seq<byte>, ciphertext: seq<byte>)

  /**
   * The slices at 0:16, 16:28 and 28: of a decoded buffer. No length is checked:
   * a short buffer gives short slices and an empty ciphertext, and the three
   * slices always put the buffer back together.
   */
  function Unpack(combined: seq<byte>): (parts: Parts)
    ensures parts.salt + parts.iv + parts.ciphertext == combined
    ensures |parts.salt| == Min(|combined|, SaltLength)
    ensures |parts.iv| == Min(|combined| - |parts.salt|, IvLength)
    ensures |combined| <= SaltLength + IvLength <==> parts.ciphertext == []
  {
    var parts := Parts(Slice(combined, 0, 16), Slice(combined, 16, 28), Slice(combined, 28, |combined|));
    assert parts.salt + parts.iv + parts.ciphertext == combined by {
      if |combined| >= 28 {
        assert parts.salt == combined[..16] && parts.iv == combined[16..28] && parts.ciphertext == combined[28..];
        assert combined == combined[..16] + combined[16..28] + combined[28..];
      } else if |combined| >= 16 {
        assert parts.salt == combined[..16] && parts.iv == combined[16..];
        assert combined == combined[..16] + combined[16..];
      } else {
        assert parts.salt == combined;
      }
    }
    parts
  }

  /** Slicing the packed buffer recovers exactly the three parts that were written. */
  lemma UnpackPacked(salt: seq<byte>, iv: seq<byte>, ciphertext: seq<byte>)
    requires |salt| == SaltLength && |iv| == IvLength
    ensures Unpack(salt + iv + ciphertext) == Parts(salt, iv, ciphertext)
  {
    var combined := salt + iv + ciphertext;
    var parts := Unpack(combined);
    assert combined[..16] == salt;
    assert combined[16..28] == iv;
    assert combined[28..] == ciphertext;
    assert parts.salt == salt && parts.iv == iv && parts.ciphertext == ciphertext;
  }

  // ---- the two operations ----

  /**
   * What `encryptText` shows, for a text and a password (as bytes) and the
   * random salt and IV the host supplies.
   */
  function EncryptOutcome(p: Provider, input: seq<byte>, password: seq<byte>, salt: seq<byte>, iv: seq<byte>): (r: Shown)
    requires |salt| == SaltLength && |iv| == IvLength
    ensures input == [] || password == [] <==> r == Notice(EncryptMissingInput)
    ensures input != [] && password != [] ==> r.Artifact?
  {
    if input == [] || password == [] then Notice(EncryptMissingInput)
    else
      var key := DeriveKey(p, password, salt);
      var ciphertext := p.seal(key, iv, input);
      Artifact(Base64.Btoa(Base64.BinaryString(salt + iv + ciphertext)).value)
  }

  /**
   * `encryptText`: the guard, the key derivation, the cipher call, the buffer
   * filled in place and its base64 text.
   */
  method EncryptText(p: Provider, input: seq<byte>, password: seq<byte>, salt: seq<byte>, iv: seq<byte>)
    returns (shown: Shown)
    requires |salt| == SaltLength && |iv| == IvLength
    ensures shown == EncryptOutcome(p, input, password, salt, iv)
  {
    if input == [] || password == [] {
      return Notice(EncryptMissingInput);
    }
    var key := DeriveKey(p, password, salt);
    var ciphertext := p.seal(key, iv, input);
    var combined := Pack(salt, iv, ciphertext);
    var text := Base64.Btoa(Base64.BinaryString(combined[..]));
    shown := Artifact(text.value);
  }

  /** What `decryptText` shows for a text and a password (as bytes). */
  function DecryptText(p: Provider, input: string, password: seq<byte>): (r: Shown)
    ensures input == [] || password == [] <==> r == Notice(DecryptMissingInput)
    ensures input != [] && password != [] ==> r.Plaintext? || r == Notice(DecryptFailed)
    ensures !r.Artifact?
  {
    if input == [] || password == [] then Notice(DecryptMissingInput)
    else
      match Base64.Atob(input)
      case None => Notice(DecryptFailed)
      case Some(binary) =>
        var parts := Unpack(Base64.CharCodes(binary));
        var key := DeriveKey(p, password, parts.salt);
        match p.open(key, parts.iv, parts.ciphertext)
        case None => Notice(DecryptFailed)
        case Some(plain) => Plaintext(plain)
  }

  // ---- properties ----

  /** Decrypting an artifact with the password it was made with gives back the plaintext. */
  lemma RoundTrip(p: Provider, input: seq<byte>, password: seq<byte>, salt: seq<byte>, iv: seq<byte>)
    requires OpenInvertsSeal(p)
    requires |salt| == SaltLength && |iv| == IvLength
    requires input != [] && password != []
    ensures EncryptOutcome(p, input, password, salt, iv).Artifact?
    ensures DecryptText(p, EncryptOutcome(p, input, password, salt, iv).text, password) == Plaintext(input)
  {
    var key := DeriveKey(p, password, salt);
    var ciphertext := p.seal(key, iv, input);
    var combined := salt + iv + ciphertext;
    Base64.BytesRoundTrip(combined);
    var text := EncryptOutcome(p, input, password, salt, iv).text;
    assert Base64.CharCodes(Base64.Atob(text).value) == combined;
    UnpackPacked(salt, iv, ciphertext);
    assert p.open(key, iv, ciphertext) == Some(input);
  }

  /** The artifact text decodes to a buffer holding salt at [0,16), the IV at [16,28) and the sealed text after them. */
  lemma ArtifactLayout(p: Provider, input: seq<byte>, password: seq<byte>, salt: seq<byte>, iv: seq<byte>)
    requires |salt| == SaltLength && |iv| == IvLength
    requires input != [] && password != []
    ensures var sealed := p.seal(DeriveKey(p, password, salt), iv, input);
      var decoded := Base64.Atob(EncryptOutcome(p, input, password, salt, iv).text);
      && decoded.Some?
      && var b := Base64.CharCodes(decoded.value);
      && |b| == SaltLength + IvLength + |sealed|
      && b[..16] == salt && b[16..28] == iv && b[28..] == sealed
  {
    var sealed := p.seal(DeriveKey(p, password, salt), iv, input);
    var combined := salt + iv + sealed;
    Base64.BytesRoundTrip(combined);
    assert combined[..16] == salt && combined[16..28] == iv && combined[28..] == sealed;
  }

  /** With an empty text or password neither operation touches the cipher: the provider makes no difference. */
  lemma MissingInputTouchesNoCrypto(p: Provider, q: Provider, input: seq<byte>, text: string, password: seq<byte>, salt: seq<byte>, iv: seq<byte>)
    requires |salt| == SaltLength && |iv| == IvLength
    ensures input == [] || password == [] ==> EncryptOutcome(p, input, password, salt, iv) == EncryptOutcome(q, input, password, salt, iv)
    ensures text == [] || password == [] ==> DecryptText(p, text, password) == DecryptText(q, text, password)
  {
  }

  /** Text that is not base64 fails with the generic message before any key is derived. */
  lemma MalformedTextTouchesNoCrypto(p: Provider, q: Provider, text: string, password: seq<byte>)
    requires text != [] && password != []
    requires Base64.Atob(text).None?
    ensures DecryptText(p, text, password) == Notice(DecryptFailed)
    ensures DecryptText(p, text, password) == DecryptText(q, text, password)
  {
  }

  /**
   * Every failure after the guard, whatever its cause (malformed base64, a
   * wrong key, a tampered or truncated buffer), shows the same message.
   */
  lemma FailuresLookAlike(p: Provider, text1: string, text2: string, password1: seq<byte>, password2: seq<byte>)
    requires text1 != [] && password1 != [] && text2 != [] && password2 != []
    requires !DecryptText(p, text1, password1).Plaintext? && !DecryptText(p, text2, password2).Plaintext?
    ensures DecryptText(p, text1, password1) == DecryptText(p, text2, password2) == Notice(DecryptFailed)
  {
  }

  /**
   * No length is checked before the key is derived, yet a buffer too short to
   * hold salt, IV and a tag still fails with the generic message: its
   * ciphertext slice is shorter than the tag, and the cipher refuses it.
   */
  lemma ShortBufferFails(p: Provider, text: string, password: seq<byte>)
    requires OpenRejectsShort(p)
    requires text != [] && password != []
    requires Base64.Atob(text).Some? && |Base64.Atob(text).value| < SaltLength + IvLength + 16
    ensures DecryptText(p, text, password) == Notice(DecryptFailed)
  {
    var parts := Unpack(Base64.CharCodes(Base64.Atob(text).value));
    assert |parts.ciphertext| < 16;
  }

  /**
   * The artifact holds 28 bytes plus the sealed text, so its base64 text has
   * 4·⌈(28 + |sealed|)/3⌉ characters; with AES-GCM's 16-byte tag that is at
   * least 44 bytes and 60 characters.
   */
  lemma ArtifactLength(p: Provider, input: seq<byte>, password: seq<byte>, salt: seq<byte>, iv: seq<byte>)
    requires |salt| == SaltLength && |iv| == IvLength
    requires input != [] && password != []
    ensures var sealed := p.seal(DeriveKey(p, password, salt), iv, input);
      |EncryptOutcome(p, input, password, salt, iv).text| == 4 * ((SaltLength + IvLength + |sealed| + 2) / 3)
    ensures SealAppendsTag(p) ==> |EncryptOutcome(p, input, password, salt, iv).text| >= 60 + 4 * ((|input| - 1) / 3)
  {
    var sealed := p.seal(DeriveKey(p, password, salt), iv, input);
    var n := 28 + |sealed|;
    assert |EncryptOutcome(p, input, password, salt, iv).text| == 4 * ((n + 2) / 3);
    if SealAppendsTag(p) {
      assert |sealed| == |input| + 16;
      assert (n + 2) / 3 >= 15 + (|input| - 1) / 3;
    }
  }
}

/** `TokenCipher` of app/core/security.py: tokens at rest, with an integrity tag. */
module TokenCipher {
  import opened Prelude
  import opened Utf8
  import Base64Url

  /** The two digests the cipher is built on, kept abstract. */
  datatype Digests = Digests(sha256: seq<byte> -> seq<byte>, hmac: (seq<byte>, seq<byte>) -> seq<byte>) {
    ghost predicate Valid() {
      && (forall x :: |sha256(x)| == 32)
      && (forall k, x :: |hmac(k, x)| == 32)
    }
  }

  datatype CipherError = EmptyKey | NotAscii | BadBase64 | BadTag | BadText

  /** XOR of the low `bits` bits. */
  function XorBits(a: nat, b: nat, bits: nat): nat {
    if bits == 0 then 0 else (a + b) % 2 + 2 * XorBits(a / 2, b / 2, bits - 1)
  }

  function Pow2(n: nat): nat {
    if n == 0 then 1 else 2 * Pow2(n - 1)
  }

  lemma LowBitUndo(a: nat, b: nat, high: nat)
    ensures var r := (a + b) % 2 + 2 * high;
            r / 2 == high && (r + b) % 2 == a % 2
  {
  }

  lemma {:induction false} XorBitsUndo(a: nat, b: nat, bits: nat)
    requires a < Pow2(bits)
    ensures XorBits(a, b, bits) < Pow2(bits)
    ensures XorBits(XorBits(a, b, bits), b, bits) == a
  {
    if bits > 0 {
      var high := XorBits(a / 2, b / 2, bits - 1);
      XorBitsUndo(a / 2, b / 2, bits - 1);
      LowBitUndo(a, b, high);
      assert XorBits(a, b, bits) == (a + b) % 2 + 2 * high;
    }
  }

  function XorByte(a: byte, b: byte): byte {
    assert Pow2(8) == 256;
    XorBitsUndo(a, b, 8);
    XorBits(a, b, 8)
  }

  /** Bit k, counted from the lowest. */
  predicate Bit(n: nat, k: nat) {
    if k == 0 then n % 2 == 1 else Bit(n / 2, k - 1)
  }

  lemma {:induction false} XorBitsAt(a: nat, b: nat, bits: nat, k: nat)
    requires k < bits
    ensures Bit(XorBits(a, b, bits), k) <==> Bit(a, k) != Bit(b, k)
    decreases k
  {
    LowBitUndo(a, b, XorBits(a / 2, b / 2, bits - 1));
    if k > 0 {
      XorBitsAt(a / 2, b / 2, bits - 1, k - 1);
    }
  }

  /** Whether the bit of this place value, a power of two, is set. */
  predicate BitAt(n: byte, place: nat)
    requires place > 0
  {
    n / place % 2 == 1
  }

  const PLACES := [1, 2, 4, 8, 16, 32, 64, 128]

  lemma Halves(n: byte)
    ensures n / 2 / 2 == n / 4 && n / 4 / 2 == n / 8 && n / 8 / 2 == n / 16
    ensures n / 16 / 2 == n / 32 && n / 32 / 2 == n / 64 && n / 64 / 2 == n / 128
  {
  }

  lemma {:induction false} BitHalved(halves: seq<nat>, i: nat, k: nat)
    requires i + k < |halves|
    requires forall j :: 0 <= j < |halves| - 1 ==> halves[j + 1] == halves[j] / 2
    ensures Bit(halves[i], k) <==> halves[i + k] % 2 == 1
    decreases k
  {
    if k > 0 {
      BitHalved(halves, i + 1, k - 1);
    }
  }

  lemma BitOfPlace(n: byte, k: nat)
    requires k < 8
    ensures Bit(n, k) <==> BitAt(n, PLACES[k])
  {
    var halves: seq<nat> := [n, n / 2, n / 4, n / 8, n / 16, n / 32, n / 64, n / 128];
    Halves(n);
    BitHalved(halves, 0, k);
  }

  /** Each bit of the result is set exactly when the two bits differ. */
  lemma XorByteBits(a: byte, b: byte, k: nat)
    requires k < 8
    ensures BitAt(XorByte(a, b), PLACES[k]) <==> BitAt(a, PLACES[k]) != BitAt(b, PLACES[k])
  {
    XorBitsAt(a, b, 8, k);
    BitOfPlace(a, k);
    BitOfPlace(b, k);
    BitOfPlace(XorByte(a, b), k);
  }

  /** Each byte of data XORed with the byte of the key at its place, the key repeating. */
  function XorCyclic(key: seq<byte>, data: seq<byte>): (r: seq<byte>)
    requires key != []
    ensures |r| == |data|
    ensures forall i :: 0 <= i < |data| ==> r[i] == XorByte(data[i], key[i % |key|])
  {
    seq(|data|, i requires 0 <= i < |data| => XorByte(data[i], key[i % |key|]))
  }

  lemma XorCyclicUndo(key: seq<byte>, data: seq<byte>)
    requires key != []
    ensures XorCyclic(key, XorCyclic(key, data)) == data
  {
    forall i | 0 <= i < |data|
      ensures XorCyclic(key, XorCyclic(key, data))[i] == data[i]
    {
      assert Pow2(8) == 256;
      XorBitsUndo(data[i], key[i % |key|], 8);
    }
  }

  /** Byte i of the result is byte i of the data with the bits flipped that are set in the key
      byte at i modulo the key's length. */
  ghost predicate FlippedBy(key: seq<byte>, data: seq<byte>, r: seq<byte>)
    requires key != []
  {
    && |r| == |data|
    && forall i, k :: 0 <= i < |data| && 0 <= k < 8 ==>
         (BitAt(r[i], PLACES[k]) <==> BitAt(data[i], PLACES[k]) != BitAt(key[i % |key|], PLACES[k]))
  }

  lemma XorCyclicFlips(key: seq<byte>, data: seq<byte>)
    requires key != []
    ensures FlippedBy(key, data, XorCyclic(key, data))
  {
    forall i, k | 0 <= i < |data| && 0 <= k < 8
      ensures BitAt(XorCyclic(key, data)[i], PLACES[k]) <==> BitAt(data[i], PLACES[k]) != BitAt(key[i % |key|], PLACES[k])
    {
      XorByteBits(data[i], key[i % |key|], k);
    }
  }

  datatype Cipher = Cipher(digests: Digests, key: seq<byte>) {
    ghost predicate Valid() {
      digests.Valid() && |key| == 32
    }

    function Encrypt(plaintext: string): string
      requires key != []
    {
      var ciphertext := XorCyclic(key, Utf8.Encode(plaintext));
      Base64Url.Encode(digests.hmac(key, ciphertext) + ciphertext)
    }

    function Decrypt(token: string): Result<string, CipherError>
      requires key != []
    {
      if exists i :: 0 <= i < |token| && token[i] >= 128 as char then
        Err(NotAscii)
      else
        match Base64Url.Decode(token)
        case None => Err(BadBase64)
        case Some(raw) => Open(raw)
    }

    /** Checks the integrity tag of the decoded bytes and reads what follows it. */
    function Open(raw: seq<byte>): Result<string, CipherError>
      requires key != []
    {
      var split := if |raw| < 32 then |raw| else 32;
      var (tag, ciphertext) := (raw[..split], raw[split..]);
      if tag != digests.hmac(key, ciphertext) then
        Err(BadTag)
      else
        match Utf8.Decode(XorCyclic(key, ciphertext))
        case None => Err(BadText)
        case Some(text) => Ok(text)
    }
  }

  /** The constructor: the key bytes are the digest of the configured text. */
  function Make(digests: Digests, key: string): Result<Cipher, CipherError> {
    if key == "" then Err(EmptyKey) else Ok(Cipher(digests, digests.sha256(Utf8.Encode(key))))
  }

  /** A key of any text but the empty one makes a cipher that can be used. */
  lemma MakeValid(digests: Digests, key: string)
    requires digests.Valid()
    ensures Make(digests, key).Ok? <==> key != ""
    ensures Make(digests, key).Ok? ==> Make(digests, key).value.Valid()
  {
  }

  lemma OpenSeals(c: Cipher, plaintext: string)
    requires c.Valid()
    ensures var ciphertext := XorCyclic(c.key, Utf8.Encode(plaintext));
            c.Open(c.digests.hmac(c.key, ciphertext) + ciphertext) == Ok(plaintext)
  {
    var bytes := Utf8.Encode(plaintext);
    var ciphertext := XorCyclic(c.key, bytes);
    var tag := c.digests.hmac(c.key, ciphertext);
    assert (tag + ciphertext)[..32] == tag && (tag + ciphertext)[32..] == ciphertext;
    XorCyclicUndo(c.key, bytes);
    Utf8.DecodeEncode(plaintext);
  }

  /** A token that was stored can always be read back. */
  lemma DecryptEncrypt(c: Cipher, plaintext: string)
    requires c.Valid()
    ensures c.Decrypt(c.Encrypt(plaintext)) == Ok(plaintext)
  {
    var ciphertext := XorCyclic(c.key, Utf8.Encode(plaintext));
    var raw := c.digests.hmac(c.key, ciphertext) + ciphertext;
    Base64Url.EncodeShape(raw);
    Base64Url.DecodeEncode(raw);
    OpenSeals(c, plaintext);
  }

  /** What a token spells: the 32 bytes of the HMAC over the ciphertext, then the ciphertext. */
  lemma EncryptSpells(c: Cipher, plaintext: string)
    requires c.Valid()
    ensures var raw := Base64Url.Decode(c.Encrypt(plaintext));
            && raw.Some? && |raw.value| >= 32
            && raw.value[..32] == c.digests.hmac(c.key, raw.value[32..])
            && FlippedBy(c.key, Utf8.Encode(plaintext), raw.value[32..])
  {
    var ciphertext := XorCyclic(c.key, Utf8.Encode(plaintext));
    var raw := c.digests.hmac(c.key, ciphertext) + ciphertext;
    Base64Url.DecodeEncode(raw);
    XorCyclicFlips(c.key, Utf8.Encode(plaintext));
    assert raw[..32] == c.digests.hmac(c.key, ciphertext) && raw[32..] == ciphertext;
  }

  lemma EncryptInjective(c: Cipher, p: string, q: string)
    requires c.Valid()
    ensures c.Encrypt(p) == c.Encrypt(q) <==> p == q
  {
    DecryptEncrypt(c, p);
    DecryptEncrypt(c, q);
  }

  lemma EncryptLength(c: Cipher, plaintext: string)
    requires c.Valid()
    ensures |c.Encrypt(plaintext)| == 4 * Base64Url.Groups(32 + |Utf8.Encode(plaintext)|)
  {
    var ciphertext := XorCyclic(c.key, Utf8.Encode(plaintext));
    Base64Url.EncodeShape(c.digests.hmac(c.key, ciphertext) + ciphertext);
  }

  /** What a successful decryption says about the token: it spells the bytes that encrypting
      the text would spell, so it is that encryption exactly when it is canonical base64url. */
  lemma EncryptDecrypt(c: Cipher, token: string)
    requires c.Valid() && c.Decrypt(token).Ok?
    ensures c.Encrypt(c.Decrypt(token).value) == Base64Url.Encode(Base64Url.Decode(token).value)
    ensures c.Encrypt(c.Decrypt(token).value) == token
       <==> exists raw :: token == Base64Url.Encode(raw)
  {
    var raw, plaintext := Base64Url.Decode(token).value, c.Decrypt(token).value;
    var split := if |raw| < 32 then |raw| else 32;
    var tag, ciphertext := raw[..split], raw[split..];
    Utf8.DecodeExact(XorCyclic(c.key, ciphertext), plaintext);
    XorCyclicUndo(c.key, ciphertext);
    assert raw == tag + ciphertext;
    if raw' :| token == Base64Url.Encode(raw') {
      Base64Url.DecodeEncode(raw');
    }
  }

  lemma StrayDecrypts(c: Cipher, token: string)
    requires c.Valid()
    ensures c.Decrypt("!" + token) == c.Decrypt(token)
  {
    var stray := "!" + token;
    assert forall i :: 0 <= i < |token| ==> stray[i + 1] == token[i];
    Base64Url.DecodeForeign('!', token);
    assert ['!'] + token == stray;
  }

  /** The decoder is lenient: a foreign character in front changes the token, not the text. */
  lemma StrayCharacterIsIgnored(c: Cipher, plaintext: string)
    requires c.Valid()
    ensures c.Decrypt("!" + c.Encrypt(plaintext)) == Ok(plaintext)
    ensures c.Encrypt(c.Decrypt("!" + c.Encrypt(plaintext)).value) != "!" + c.Encrypt(plaintext)
  {
    StrayDecrypts(c, c.Encrypt(plaintext));
    DecryptEncrypt(c, plaintext);
    assert |"!" + c.Encrypt(plaintext)| == 1 + |c.Encrypt(plaintext)|;
  }
}

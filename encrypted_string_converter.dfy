/** EncryptedStringConverter: the JPA converter that stores the card number
    encrypted. A stored value is Base64 (section 4 of RFC 4648) of the
    12-byte nonce followed by the AES/GCM output (NIST SP 800-38D:
    ciphertext and 128-bit tag). Null passes through in both directions.

    AES-GCM, Base64 and UTF-8 are foreign code: they are the function fields
    of a Primitives value, and the round trips the converter relies on are
    the predicate RoundTrips, relied on only where a lemma requires it. The key
    is the already hex-decoded configuration value; the nonce that
    SecureRandom.nextBytes would produce is an input. */
module EncryptedStringConverter {
  import opened Wrappers

  newtype byte = x: int | 0 <= x < 256
  type Bytes = seq<byte>

  /** Length in bytes of the GCM nonce (the iv array). */
  const NonceLength := 12

  /** The two failures the converter raises, both as IllegalStateException
      with these messages: "Encryption failed" and "Decryption failed". */
  datatype ConverterError = EncryptionFailed | DecryptionFailed

  /** The foreign calls. seal and open are Cipher.doFinal in ENCRYPT_MODE and
      DECRYPT_MODE with (key, nonce); None is any exception they throw (a
      bad key, a tag that does not verify). base64Decode is None when the
      decoder rejects its input. */
  datatype Primitives = Primitives(
    seal: (Bytes, Bytes, Bytes) -> Option<Bytes>,
    open: (Bytes, Bytes, Bytes) -> Option<Bytes>,
    base64Encode: Bytes -> string,
    base64Decode: string -> Option<Bytes>,
    utf8Encode: string -> Bytes,
    utf8Decode: Bytes -> string)

  /** The round trips the primitives are trusted to provide: decryption
      under the same key and nonce undoes a successful encryption, Base64
      decoding undoes encoding, UTF-8 decoding undoes encoding. */
  ghost predicate RoundTrips(p: Primitives) {
    && (forall k, n, m | p.seal(k, n, m).Some? :: p.open(k, n, p.seal(k, n, m).value) == Some(m))
    && (forall b :: p.base64Decode(p.base64Encode(b)) == Some(b))
    && (forall s :: p.utf8Decode(p.utf8Encode(s)) == s)
  }

  /** The layout encrypt writes: nonce, then cipher output. */
  function Frame(nonce: Bytes, encrypted: Bytes): (data: Bytes)
    ensures |data| == |nonce| + |encrypted|
  {
    nonce + encrypted
  }

  /** The split decrypt performs: the first 12 bytes are the nonce and the
      rest is the cipher output; fewer than 12 bytes is a failure. */
  function Unframe(data: Bytes): (r: Option<(Bytes, Bytes)>)
    ensures r.Some? <==> |data| >= NonceLength
    ensures r.Some? ==> |r.value.0| == NonceLength && |r.value.1| == |data| - NonceLength
  {
    if |data| < NonceLength then None else Some((data[..NonceLength], data[NonceLength..]))
  }

  /** Unframe undoes Frame for a 12-byte nonce... */
  lemma UnframeFrame(nonce: Bytes, encrypted: Bytes)
    requires |nonce| == NonceLength
    ensures Unframe(Frame(nonce, encrypted)) == Some((nonce, encrypted))
  {
    assert (nonce + encrypted)[..NonceLength] == nonce;
    assert (nonce + encrypted)[NonceLength..] == encrypted;
  }

  /** ...and Frame undoes Unframe. */
  lemma FrameUnframe(data: Bytes)
    requires |data| >= NonceLength
    ensures Frame(Unframe(data).value.0, Unframe(data).value.1) == data
  {
    assert data[..NonceLength] + data[NonceLength..] == data;
  }

  /** What encrypt returns. */
  function EncryptSpec(p: Primitives, key: Bytes, plainText: string, nonce: Bytes): (r: Result<string, ConverterError>)
    ensures r.Failure? <==> p.seal(key, nonce, p.utf8Encode(plainText)).None?
    ensures r.Failure? ==> r.error == EncryptionFailed
  {
    match p.seal(key, nonce, p.utf8Encode(plainText))
    case None => Failure(EncryptionFailed)
    case Some(encrypted) => Success(p.base64Encode(Frame(nonce, encrypted)))
  }

  /** What decrypt returns. */
  function DecryptSpec(p: Primitives, key: Bytes, encryptedData: string): (r: Result<string, ConverterError>)
    ensures r.Failure? <==>
      || p.base64Decode(encryptedData).None?
      || |p.base64Decode(encryptedData).value| < NonceLength
      || p.open(key, p.base64Decode(encryptedData).value[..NonceLength],
                p.base64Decode(encryptedData).value[NonceLength..]).None?
    ensures r.Failure? ==> r.error == DecryptionFailed
  {
    match p.base64Decode(encryptedData)
    case None => Failure(DecryptionFailed)
    case Some(cipherData) =>
      match Unframe(cipherData)
      case None => Failure(DecryptionFailed)
      case Some((nonce, encrypted)) =>
        match p.open(key, nonce, encrypted)
        case None => Failure(DecryptionFailed)
        case Some(decrypted) => Success(p.utf8Decode(decrypted))
  }

  /** System.arraycopy for two arrays of bytes: copies length elements of
      src from srcPos into dest from destPos, as if through a temporary
      copy, so src and dest may be the same array. Out-of-range positions or
      a negative length throw IndexOutOfBoundsException (ok = false) and
      leave dest as it was. */
  method ArrayCopy(src: array<byte>, srcPos: int, dest: array<byte>, destPos: int, length: int) returns (ok: bool)
    modifies dest
    ensures ok <==> 0 <= srcPos && 0 <= destPos && 0 <= length
                    && srcPos + length <= src.Length && destPos + length <= dest.Length
    ensures ok ==> dest[..] == old(dest[..destPos]) + old(src[srcPos..srcPos + length]) + old(dest[destPos + length..])
    ensures !ok ==> dest[..] == old(dest[..])
  {
    if srcPos < 0 || destPos < 0 || length < 0 || srcPos + length > src.Length || destPos + length > dest.Length {
      return false;
    }
    var copied := src[srcPos..srcPos + length];
    for i := 0 to length
      invariant dest[..] == old(dest[..destPos]) + copied[..i] + old(dest[destPos + i..])
    {
      dest[destPos + i] := copied[i];
      assert copied[..i + 1] == copied[..i] + [copied[i]];
    }
    assert copied[..length] == copied;
    return true;
  }

  /** encrypt: fills a fresh 12-byte iv from the random source, encrypts the
      UTF-8 bytes, copies iv and cipher output into one array and encodes it
      in Base64. */
  method Encrypt(p: Primitives, key: Bytes, plainText: string, entropy: Bytes) returns (r: Result<string, ConverterError>)
    requires |entropy| == NonceLength
    ensures r == EncryptSpec(p, key, plainText, entropy)
  {
    var iv := new byte[NonceLength](i requires 0 <= i < NonceLength => entropy[i]);
    assert iv[..] == entropy;
    var sealed := p.seal(key, iv[..], p.utf8Encode(plainText));
    if sealed.None? {
      return Failure(EncryptionFailed);
    }
    var encrypted := new byte[|sealed.value|](i requires 0 <= i < |sealed.value| => sealed.value[i]);
    assert encrypted[..] == sealed.value;
    var cipherText := new byte[iv.Length + encrypted.Length];
    var ok := ArrayCopy(iv, 0, cipherText, 0, iv.Length);
    assert ok;
    ok := ArrayCopy(encrypted, 0, cipherText, iv.Length, encrypted.Length);
    assert ok;
    assert cipherText[..] == Frame(entropy, sealed.value);
    return Success(p.base64Encode(cipherText[..]));
  }

  /** decrypt: decodes the Base64, copies the first 12 bytes out as the iv
      (an arraycopy that throws when there are fewer) and the remaining
      length - 12 bytes as the cipher output, and decrypts. Every failure on
      the way is DecryptionFailed. */
  method Decrypt(p: Primitives, key: Bytes, encryptedData: string) returns (r: Result<string, ConverterError>)
    ensures r == DecryptSpec(p, key, encryptedData)
  {
    var decoded := p.base64Decode(encryptedData);
    if decoded.None? {
      return Failure(DecryptionFailed);
    }
    var cipherData := new byte[|decoded.value|](i requires 0 <= i < |decoded.value| => decoded.value[i]);
    assert cipherData[..] == decoded.value;
    var iv := new byte[NonceLength];
    var ok := ArrayCopy(cipherData, 0, iv, 0, iv.Length);
    if !ok {
      return Failure(DecryptionFailed);
    }
    var encrypted := new byte[cipherData.Length - iv.Length];
    ok := ArrayCopy(cipherData, iv.Length, encrypted, 0, encrypted.Length);
    assert ok;
    assert iv[..] == decoded.value[..NonceLength];
    assert encrypted[..] == decoded.value[NonceLength..];
    var decrypted := p.open(key, iv[..], encrypted[..]);
    if decrypted.None? {
      return Failure(DecryptionFailed);
    }
    return Success(p.utf8Decode(decrypted.value));
  }

  /** convertToDatabaseColumn: null stays null; anything else is encrypted. */
  method ConvertToDatabaseColumn(p: Primitives, key: Bytes, attribute: Option<string>, entropy: Bytes)
    returns (r: Result<Option<string>, ConverterError>)
    requires |entropy| == NonceLength
    ensures attribute.None? ==> r == Success(None)
    ensures attribute.Some? ==> match EncryptSpec(p, key, attribute.value, entropy)
                                case Success(d) => r == Success(Some(d))
                                case Failure(e) => r == Failure(e)
  {
    if attribute.None? {
      return Success(None);
    }
    var encrypted := Encrypt(p, key, attribute.value, entropy);
    r := match encrypted case Success(d) => Success(Some(d)) case Failure(e) => Failure(e);
  }

  /** convertToEntityAttribute: null stays null; anything else is decrypted. */
  method ConvertToEntityAttribute(p: Primitives, key: Bytes, dbData: Option<string>)
    returns (r: Result<Option<string>, ConverterError>)
    ensures dbData.None? ==> r == Success(None)
    ensures dbData.Some? ==> match DecryptSpec(p, key, dbData.value)
                             case Success(s) => r == Success(Some(s))
                             case Failure(e) => r == Failure(e)
  {
    if dbData.None? {
      return Success(None);
    }
    var decrypted := Decrypt(p, key, dbData.value);
    r := match decrypted case Success(s) => Success(Some(s)) case Failure(e) => Failure(e);
  }

  /** The stored value decodes to the nonce followed by the cipher output. */
  lemma {:induction false} EncryptLayout(p: Primitives, key: Bytes, plainText: string, nonce: Bytes)
    requires RoundTrips(p) && |nonce| == NonceLength
    requires EncryptSpec(p, key, plainText, nonce).Success?
    ensures var data := p.base64Decode(EncryptSpec(p, key, plainText, nonce).value);
      && data.Some? && |data.value| >= NonceLength
      && data.value[..NonceLength] == nonce
      && Some(data.value[NonceLength..]) == p.seal(key, nonce, p.utf8Encode(plainText))
  {
    var encrypted := p.seal(key, nonce, p.utf8Encode(plainText)).value;
    assert p.base64Decode(p.base64Encode(Frame(nonce, encrypted))) == Some(Frame(nonce, encrypted));
    UnframeFrame(nonce, encrypted);
  }

  /** Decrypting what encrypt stored gives back the plaintext. */
  lemma {:induction false} DecryptEncrypt(p: Primitives, key: Bytes, plainText: string, nonce: Bytes)
    requires RoundTrips(p) && |nonce| == NonceLength
    requires EncryptSpec(p, key, plainText, nonce).Success?
    ensures DecryptSpec(p, key, EncryptSpec(p, key, plainText, nonce).value) == Success(plainText)
  {
    var encrypted := p.seal(key, nonce, p.utf8Encode(plainText)).value;
    EncryptLayout(p, key, plainText, nonce);
    assert p.open(key, nonce, encrypted) == Some(p.utf8Encode(plainText));
  }

  /** Two encryptions with different nonces store different values, so equal
      plaintexts never produce equal columns. */
  lemma {:induction false} DistinctNoncesDistinctColumns(p: Primitives, key: Bytes, plainText: string, n1: Bytes, n2: Bytes)
    requires RoundTrips(p) && |n1| == NonceLength && |n2| == NonceLength && n1 != n2
    requires EncryptSpec(p, key, plainText, n1).Success? && EncryptSpec(p, key, plainText, n2).Success?
    ensures EncryptSpec(p, key, plainText, n1).value != EncryptSpec(p, key, plainText, n2).value
  {
    EncryptLayout(p, key, plainText, n1);
    EncryptLayout(p, key, plainText, n2);
  }
}

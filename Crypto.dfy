/**
 * The encodings and the cipher src/utils/secure-storage.ts relies on.
 *
 * Hexadecimal (base16 of section 8 of RFC 4648, as Node's `Buffer` reads and
 * writes it) is defined concretely. JSON, UTF-8, base64 (section 4 of
 * RFC 4648) and AES-256-GCM (NIST SP 800-38D) are library code: they are
 * the fields of a `Primitives` value, and `Lawful` states the laws the
 * storage relies on: each decoder inverts its encoder, GCM yields a 16-byte
 * tag and a ciphertext as long as the plaintext, opening a sealed message
 * with the same key and IV releases it, and opening releases only messages
 * whose sealing under that key and IV gives the same ciphertext and a full
 * tag of which the given 4-, 8- or 12-to-16-byte tag is a prefix
 * (authenticity).
 */
module Crypto {
  import opened Wrappers
  import opened Strings

  type Byte = b: int | 0 <= b < 256

  // ---------------------------------------------------------------------
  // Hexadecimal
  // ---------------------------------------------------------------------

  /** The lower-case digit `Buffer.toString('hex')` writes for a nibble. */
  function HexDigit(n: int): (c: char)
    requires 0 <= n < 16
    ensures DigitValue(c) == Some(n)
    ensures !IsWhitespace(c)
  {
    if n < 10 then ('0' as int + n) as char else ('a' as int + n - 10) as char
  }

  /** The value of a hexadecimal digit of either case. */
  function DigitValue(c: char): (r: Option<int>)
    ensures r.Some? ==> 0 <= r.value < 16
  {
    if '0' <= c <= '9' then Some(c as int - '0' as int)
    else if 'a' <= c <= 'f' then Some(c as int - 'a' as int + 10)
    else if 'A' <= c <= 'F' then Some(c as int - 'A' as int + 10)
    else None
  }

  /** `buffer.toString('hex')`: two lower-case digits per byte. */
  function Hex(b: seq<Byte>): (s: string)
    ensures |s| == 2 * |b|
    ensures forall k :: 0 <= k < |s| ==> DigitValue(s[k]).Some? && !IsWhitespace(s[k])
  {
    if |b| == 0 then ""
    else [HexDigit(b[0] / 16), HexDigit(b[0] % 16)] + Hex(b[1..])
  }

  /**
   * `Buffer.from(s, 'hex')`: bytes from pairs of digits, up to the first
   * pair that is not two digits; an odd last digit is dropped.
   */
  function HexBytes(s: string): (b: seq<Byte>)
    ensures 2 * |b| <= |s|
  {
    if |s| < 2 then []
    else
      match (DigitValue(s[0]), DigitValue(s[1]))
      case (Some(high), Some(low)) => [high * 16 + low] + HexBytes(s[2..])
      case _ => []
  }

  /** Hexadecimal decoding inverts encoding. */
  lemma {:induction false} HexRoundTrip(b: seq<Byte>)
    ensures HexBytes(Hex(b)) == b
  {
    if |b| > 0 {
      var s := Hex(b);
      assert s[2..] == Hex(b[1..]);
      HexRoundTrip(b[1..]);
      assert b == [b[0]] + b[1..];
    }
  }

  /** A string of hexadecimal digits only has no whitespace to trim. */
  lemma HexIsTrimmed(b: seq<Byte>)
    ensures Trim(Hex(b)) == Hex(b)
  {
    var s := Hex(b);
    if |s| > 0 {
      assert !IsWhitespace(s[0]) && !IsWhitespace(s[|s| - 1]);
    }
    TrimOfTrimmed(s);
  }

  /** Decoding stops at the first character that is not a digit. */
  lemma HexBytesStopsAtNonDigit(s: string)
    requires |s| >= 2 && (DigitValue(s[0]).None? || DigitValue(s[1]).None?)
    ensures HexBytes(s) == []
  {
  }

  // ---------------------------------------------------------------------
  // JSON values and the library primitives
  // ---------------------------------------------------------------------

  /** A JSON value; numbers are restricted to integers here. */
  datatype Json =
    | JNull
    | JBool(truth: bool)
    | JNumber(number: int)
    | JString(text: string)
    | JArray(items: seq<Json>)
    | JObject(fields: map<string, Json>)

  /** The library functions the storage calls, as values. */
  datatype Primitives = Primitives(
    stringify: Json -> string,                                        // JSON.stringify
    parse: string -> Option<Json>,                                    // JSON.parse, None when it throws
    utf8: string -> seq<Byte>,                                        // Buffer.from(s, 'utf8')
    fromUtf8: seq<Byte> -> string,                                    // buffer.toString('utf8')
    toBase64: seq<Byte> -> string,                                    // buffer.toString('base64')
    fromBase64: string -> seq<Byte>,                                  // Buffer.from(s, 'base64')
    seal: (seq<Byte>, seq<Byte>, seq<Byte>) -> (seq<Byte>, seq<Byte>), // (key, iv, plaintext) to (ciphertext, tag)
    open: (seq<Byte>, seq<Byte>, seq<Byte>, seq<Byte>) -> Option<seq<Byte>>) // (key, iv, tag, ciphertext); None when authentication fails

  /** The laws of JSON, UTF-8, base64 and AES-256-GCM the storage depends on. */
  ghost predicate Lawful(p: Primitives) {
    && (forall j :: p.parse(p.stringify(j)) == Some(j))
    && (forall s :: p.fromUtf8(p.utf8(s)) == s)
    && (forall b :: p.fromBase64(p.toBase64(b)) == b)
    && (forall key, iv, m :: |key| == 32 && |iv| > 0 ==>
          |p.seal(key, iv, m).1| == 16 && |p.seal(key, iv, m).0| == |m|)
    && (forall key, iv, m :: |key| == 32 && |iv| > 0 ==>
          p.open(key, iv, p.seal(key, iv, m).1, p.seal(key, iv, m).0) == Some(m))
    && (forall key, iv, tag, c :: p.open(key, iv, tag, c).Some? ==>
          && AcceptedTagLength(|tag|)
          && p.seal(key, iv, p.open(key, iv, tag, c).value).0 == c
          && tag <= p.seal(key, iv, p.open(key, iv, tag, c).value).1)
  }

  /**
   * The tag lengths a GCM decipher created without `authTagLength` accepts:
   * 4, 8 and 12 to 16 bytes, of which only that prefix of the full tag is checked.
   */
  predicate AcceptedTagLength(n: nat) {
    n == 4 || n == 8 || 12 <= n <= 16
  }

  // ---------------------------------------------------------------------
  // encryptData / decryptData (secure-storage.ts:227-282)
  // ---------------------------------------------------------------------

  /** Why `encryptData` or `decryptData` throws. */
  datatype Fault =
    | KeyNotInitialized   // 'Encryption key not initialized'
    | InvalidKeyLength    // createCipheriv/createDecipheriv reject a key that is not 32 bytes
    | InvalidIV           // createDecipheriv rejects an empty IV
    | MalformedEnvelope   // JSON.parse throws, or the envelope lacks a string field
    | AuthenticationFailed // decipher.final: unable to authenticate data

  /** The envelope `{iv, authTag, data}` with its three base64 fields. */
  function Envelope(iv: string, authTag: string, data: string): Json {
    JObject(map["iv" := JString(iv), "authTag" := JString(authTag), "data" := JString(data)])
  }

  /** `const {iv, authTag, data} = JSON.parse(s)`, when all three are strings. */
  function EnvelopeFields(j: Json): Option<(string, string, string)> {
    if j.JObject? && "iv" in j.fields && "authTag" in j.fields && "data" in j.fields
       && j.fields["iv"].JString? && j.fields["authTag"].JString? && j.fields["data"].JString?
    then Some((j.fields["iv"].text, j.fields["authTag"].text, j.fields["data"].text))
    else None
  }

  /** Reading an envelope gives back its three fields. */
  lemma EnvelopeFieldsOfEnvelope(iv: string, authTag: string, data: string)
    ensures EnvelopeFields(Envelope(iv, authTag, data)) == Some((iv, authTag, data))
  {
  }

  /** The key as `encryptData` checks it: present and not the empty string. */
  predicate HasKey(key: Option<string>) {
    key.Some? && key.value != ""
  }

  /** `encryptData(data)` under `key` with the random IV `iv`. */
  function EncryptText(p: Primitives, key: Option<string>, data: string, iv: seq<Byte>): Result<string, Fault> {
    if !HasKey(key) then Err(KeyNotInitialized)
    else
      var keyBytes := HexBytes(key.value);
      if |keyBytes| != 32 then Err(InvalidKeyLength)
      else
        var (c, tag) := p.seal(keyBytes, iv, p.utf8(data));
        Ok(p.stringify(Envelope(p.toBase64(iv), p.toBase64(tag), p.toBase64(c))))
  }

  /** `decryptData(s)` under `key`. */
  function DecryptText(p: Primitives, key: Option<string>, s: string): Result<string, Fault> {
    if !HasKey(key) then Err(KeyNotInitialized)
    else
      var parsed := p.parse(s);
      if parsed.None? || EnvelopeFields(parsed.value).None? then Err(MalformedEnvelope)
      else
        var (iv, authTag, data) := EnvelopeFields(parsed.value).value;
        var ivBytes := p.fromBase64(iv);
        var keyBytes := HexBytes(key.value);
        if |keyBytes| != 32 then Err(InvalidKeyLength)
        else if |ivBytes| == 0 then Err(InvalidIV)
        else
          match p.open(keyBytes, ivBytes, p.fromBase64(authTag), p.fromBase64(data))
          case None => Err(AuthenticationFailed)
          case Some(m) => Ok(p.fromUtf8(m))
  }

  /** A key usable by the cipher: present and 32 bytes once read as hexadecimal. */
  predicate UsableKey(key: Option<string>) {
    HasKey(key) && |HexBytes(key.value)| == 32
  }

  /** The envelope records a 12-byte IV, a 16-byte tag, and a ciphertext as long as the UTF-8 text. */
  lemma EnvelopeShape(p: Primitives, key: Option<string>, data: string, iv: seq<Byte>)
    requires Lawful(p) && UsableKey(key) && |iv| == 12
    ensures EncryptText(p, key, data, iv).Ok?
    ensures var fields := EnvelopeFields(p.parse(EncryptText(p, key, data, iv).value).value).value;
      && |p.fromBase64(fields.0)| == 12
      && |p.fromBase64(fields.1)| == 16
      && |p.fromBase64(fields.2)| == |p.utf8(data)|
  {
    var keyBytes := HexBytes(key.value);
    var (c, tag) := p.seal(keyBytes, iv, p.utf8(data));
    var e := Envelope(p.toBase64(iv), p.toBase64(tag), p.toBase64(c));
    assert p.parse(p.stringify(e)) == Some(e);
    assert EnvelopeFields(e) == Some((p.toBase64(iv), p.toBase64(tag), p.toBase64(c)));
  }

  /** Decrypting what was encrypted under the same key returns the original text. */
  lemma TextRoundTrip(p: Primitives, key: Option<string>, data: string, iv: seq<Byte>)
    requires Lawful(p) && UsableKey(key) && |iv| == 12
    ensures EncryptText(p, key, data, iv).Ok?
    ensures DecryptText(p, key, EncryptText(p, key, data, iv).value) == Ok(data)
  {
    var keyBytes := HexBytes(key.value);
    var m := p.utf8(data);
    var (c, tag) := p.seal(keyBytes, iv, m);
    var e := Envelope(p.toBase64(iv), p.toBase64(tag), p.toBase64(c));
    assert p.parse(p.stringify(e)) == Some(e);
    assert EnvelopeFields(e) == Some((p.toBase64(iv), p.toBase64(tag), p.toBase64(c)));
    assert p.fromBase64(p.toBase64(iv)) == iv;
    assert p.fromBase64(p.toBase64(tag)) == tag;
    assert p.fromBase64(p.toBase64(c)) == c;
    assert p.open(keyBytes, iv, tag, c) == Some(m);
  }

  /** Without a key both directions throw 'Encryption key not initialized'. */
  lemma NoKeyNoCipher(p: Primitives, key: Option<string>, data: string, iv: seq<Byte>, s: string)
    requires !HasKey(key)
    ensures EncryptText(p, key, data, iv) == Err(KeyNotInitialized)
    ensures DecryptText(p, key, s) == Err(KeyNotInitialized)
  {
  }

  /**
   * Whatever key is used, decryption releases a text only when the envelope
   * holds exactly the ciphertext that sealing that text under that key and IV
   * produces, and a tag of an accepted length that is a prefix of the full
   * tag: a tampered envelope or the wrong key yields an error unless it
   * reproduces a genuine sealing.
   */
  lemma DecryptionIsAuthentic(p: Primitives, key: Option<string>, s: string)
    requires Lawful(p) && DecryptText(p, key, s).Ok?
    ensures UsableKey(key)
    ensures var j := p.parse(s);
      && j.Some? && EnvelopeFields(j.value).Some?
      && var (iv, authTag, data) := EnvelopeFields(j.value).value;
        exists m :: p.fromUtf8(m) == DecryptText(p, key, s).value
          && p.seal(HexBytes(key.value), p.fromBase64(iv), m).0 == p.fromBase64(data)
          && AcceptedTagLength(|p.fromBase64(authTag)|)
          && p.fromBase64(authTag) <= p.seal(HexBytes(key.value), p.fromBase64(iv), m).1
  {
    var (iv, authTag, data) := EnvelopeFields(p.parse(s).value).value;
    var m := p.open(HexBytes(key.value), p.fromBase64(iv), p.fromBase64(authTag), p.fromBase64(data)).value;
    assert p.fromUtf8(m) == DecryptText(p, key, s).value;
  }
}

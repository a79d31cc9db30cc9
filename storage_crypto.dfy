// Passphrase encryption of the local data file: PBKDF2-SHA256 derives an
// AES-256-GCM key, and the ciphertext travels in a versioned JSON container.
// The random salt and nonce are parameters of `EncryptBytes`.

module StorageCrypto {
  import opened Common
  import opened Text
  import opened Primitives

  /** The associated data bound into every ciphertext. */
  function Aad(): seq<Byte>
  {
    Ascii("body-metrics-tracker")
  }

  const DefaultKdfIterations := 310000
  const SaltBytes := 16
  const NonceBytes := 12

  const KdfName := "pbkdf2-sha256"
  const CipherName := "aes-256-gcm"

  const EmptyPassphrase := "Passphrase must not be empty"
  const InvalidFormat := "Invalid encrypted container format"
  const UnsupportedParameters := "Unsupported encryption parameters"
  const InvalidParameters := "Invalid encryption parameters"
  const WrongPassphrase := "Incorrect passphrase or corrupted data"
  /** `.get` on a value that is not a dict escapes as an AttributeError. */
  const NoGet := "AttributeError: 'get'"
  /** `.encode` on a value that is not text escapes as an AttributeError. */
  const NoEncode := "AttributeError: 'encode'"
  /** AES-GCM refuses a nonce outside 8..128 bytes with a ValueError that is not caught. */
  const BadNonce := "ValueError: Nonce must be between 8 and 128 bytes"

  predicate NonceSizeOk(nonce: seq<Byte>)
  {
    8 <= |nonce| <= 128
  }

  function VersionMessage(version: int): string
  {
    "Unsupported container version: " + IntText(version)
  }

  /** The key for a passphrase: empty passphrases are refused before the KDF runs. */
  function DeriveKey(p: Prims, passphrase: string, salt: seq<Byte>, iterations: int): (r: Result<seq<Byte>>)
    ensures r.Err? <==> passphrase == ""
    ensures r.Err? ==> r.error == EmptyPassphrase
    ensures r.Ok? ==> r.value == p.pbkdf2(p.utf8Encode(passphrase), salt, iterations)
  {
    if passphrase == "" then Err(EmptyPassphrase)
    else Ok(p.pbkdf2(p.utf8Encode(passphrase), salt, iterations))
  }

  /** The container layout written by `EncryptBytes`. */
  function Container(p: Prims, salt: seq<Byte>, iterations: int, nonce: seq<Byte>, ciphertext: seq<Byte>): Json
  {
    JObj(map[
      "version" := JInt(1),
      "kdf" := JObj(map[
        "name" := JStr(KdfName),
        "salt" := JStr(p.b64Encode(salt)),
        "iterations" := JInt(iterations)]),
      "cipher" := JObj(map[
        "name" := JStr(CipherName),
        "nonce" := JStr(p.b64Encode(nonce)),
        "ciphertext" := JStr(p.b64Encode(ciphertext))])])
  }

  /** Seals `plaintext` under a key derived from `passphrase` with fresh `salt` and `nonce`. */
  function EncryptBytes(p: Prims, plaintext: seq<Byte>, passphrase: string, iterations: int,
                        salt: seq<Byte>, nonce: seq<Byte>): (r: Result<Json>)
    requires |salt| == SaltBytes && |nonce| == NonceBytes
    ensures r.Err? <==> passphrase == ""
    ensures r.Err? ==> r.error == EmptyPassphrase
  {
    var key :- DeriveKey(p, passphrase, salt, iterations);
    Ok(Container(p, salt, iterations, nonce, p.aeadSeal(key, nonce, plaintext, Aad())))
  }

  /** The three top-level fields; any failure to read them is a format error. */
  function ReadContainer(container: Json): (r: Result<(int, Json, Json)>)
    ensures r.Ok? <==>
      container.JObj? && "version" in container.fields && "kdf" in container.fields
      && "cipher" in container.fields && AsInt(container.fields["version"]).Ok?
    ensures r.Err? ==> r.error == InvalidFormat
    ensures r.Ok? ==> r.value == (AsInt(container.fields["version"]).value,
                                  container.fields["kdf"], container.fields["cipher"])
  {
    if !(container.JObj? && "version" in container.fields && "kdf" in container.fields
         && "cipher" in container.fields)
    then Err(InvalidFormat)
    else
      match AsInt(container.fields["version"])
      case Err(_) => Err(InvalidFormat)
      case Ok(version) => Ok((version, container.fields["kdf"], container.fields["cipher"]))
  }

  /** `_b64decode(section[key])`: a missing key or bad base64 is a parameter error, non-text escapes. */
  function ReadBytes(p: Prims, section: Json, key: string): (r: Result<seq<Byte>>)
    ensures r.Ok? <==> section.JObj? && key in section.fields && section.fields[key].JStr?
                       && p.b64Decode(section.fields[key].s).Some?
    ensures r.Ok? ==> r.value == p.b64Decode(section.fields[key].s).value
    ensures r.Err? && section.JObj? && key in section.fields && !section.fields[key].JStr? ==>
      r.error == NoEncode
    ensures r.Err? && !(section.JObj? && key in section.fields && !section.fields[key].JStr?) ==>
      r.error == InvalidParameters
  {
    if !(section.JObj? && key in section.fields) then Err(InvalidParameters)
    else
      var v := section.fields[key];
      if !v.JStr? then Err(NoEncode)
      else
        match p.b64Decode(v.s)
        case None => Err(InvalidParameters)
        case Some(b) => Ok(b)
  }

  /** `int(kdf["iterations"])`: a missing key or a non-number is a parameter error. */
  function ReadIterations(section: Json): (r: Result<int>)
    ensures r.Ok? <==> section.JObj? && "iterations" in section.fields
                       && AsInt(section.fields["iterations"]).Ok?
    ensures r.Ok? ==> r.value == AsInt(section.fields["iterations"]).value
    ensures r.Err? ==> r.error == InvalidParameters
  {
    if !(section.JObj? && "iterations" in section.fields) then Err(InvalidParameters)
    else
      match AsInt(section.fields["iterations"])
      case Err(_) => Err(InvalidParameters)
      case Ok(n) => Ok(n)
  }

  /** The checks on the two section names, after both `.get` calls. */
  function CheckNames(kdf: Json, cipher: Json): (r: Result<()>)
    ensures r.Ok? <==> kdf.JObj? && cipher.JObj?
                       && Get(kdf, "name") == JStr(KdfName) && Get(cipher, "name") == JStr(CipherName)
    ensures r.Err? && kdf.JObj? && cipher.JObj? ==> r.error == UnsupportedParameters
    ensures r.Err? && !(kdf.JObj? && cipher.JObj?) ==> r.error == NoGet
  {
    if !kdf.JObj? || !cipher.JObj? then Err(NoGet)
    else if Get(kdf, "name") != JStr(KdfName) || Get(cipher, "name") != JStr(CipherName)
    then Err(UnsupportedParameters)
    else Ok(())
  }

  /** Opens a container with a passphrase, failing in the order the checks are written. */
  function DecryptBytes(p: Prims, container: Json, passphrase: string): (r: Result<seq<Byte>>)
    ensures ReadContainer(container).Err? ==> r == Err(InvalidFormat)
    ensures ReadContainer(container).Ok? && ReadContainer(container).value.0 != 1 ==>
      r == Err(VersionMessage(ReadContainer(container).value.0))
    ensures r.Ok? ==>
      passphrase != "" && ReadContainer(container).Ok? && ReadContainer(container).value.0 == 1
      && CheckNames(container.fields["kdf"], container.fields["cipher"]).Ok?
  {
    var (version, kdf, cipher) :- ReadContainer(container);
    if version != 1 then Err(VersionMessage(version))
    else
      var _ :- CheckNames(kdf, cipher);
      var salt :- ReadBytes(p, kdf, "salt");
      var iterations :- ReadIterations(kdf);
      var nonce :- ReadBytes(p, cipher, "nonce");
      var ciphertext :- ReadBytes(p, cipher, "ciphertext");
      var key :- DeriveKey(p, passphrase, salt, iterations);
      if !NonceSizeOk(nonce) then Err(BadNonce)
      else match p.aeadOpen(key, nonce, ciphertext, Aad())
      case None => Err(WrongPassphrase)
      case Some(plaintext) => Ok(plaintext)
  }

  /**
   * Reading back a container `EncryptBytes` wrote: every stage succeeds, so the
   * outcome is decided by the passphrase and by authentication alone.
   */
  lemma DecryptContainer(p: Prims, salt: seq<Byte>, iterations: int, nonce: seq<Byte>,
                         ciphertext: seq<Byte>, passphrase: string)
    requires p.b64Decode(p.b64Encode(salt)) == Some(salt)
    requires p.b64Decode(p.b64Encode(nonce)) == Some(nonce)
    requires p.b64Decode(p.b64Encode(ciphertext)) == Some(ciphertext)
    ensures DecryptBytes(p, Container(p, salt, iterations, nonce, ciphertext), passphrase)
            == if passphrase == "" then Err(EmptyPassphrase)
               else if !NonceSizeOk(nonce) then Err(BadNonce)
               else match p.aeadOpen(p.pbkdf2(p.utf8Encode(passphrase), salt, iterations), nonce, ciphertext, Aad())
                    case None => Err(WrongPassphrase)
                    case Some(m) => Ok(m)
  {
    var c := Container(p, salt, iterations, nonce, ciphertext);
    var kdf := c.fields["kdf"];
    var cipher := c.fields["cipher"];
    assert ReadContainer(c) == Ok((1, kdf, cipher));
    assert CheckNames(kdf, cipher) == Ok(());
    assert ReadBytes(p, kdf, "salt") == Ok(salt);
    assert ReadIterations(kdf) == Ok(iterations);
    assert ReadBytes(p, cipher, "nonce") == Ok(nonce);
    assert ReadBytes(p, cipher, "ciphertext") == Ok(ciphertext);
  }

  /** Decrypting a container with the passphrase that made it gives back the plaintext. */
  lemma DecryptEncrypt(p: Prims, plaintext: seq<Byte>, passphrase: string, iterations: int,
                       salt: seq<Byte>, nonce: seq<Byte>)
    requires p.TextLaws() && p.CryptoLaws()
    requires |salt| == SaltBytes && |nonce| == NonceBytes && passphrase != ""
    ensures DecryptBytes(p, EncryptBytes(p, plaintext, passphrase, iterations, salt, nonce).value, passphrase)
            == Ok(plaintext)
  {
    var key := p.pbkdf2(p.utf8Encode(passphrase), salt, iterations);
    var ciphertext := p.aeadSeal(key, nonce, plaintext, Aad());
    assert p.b64Decode(p.b64Encode(ciphertext)) == Some(ciphertext);
    DecryptContainer(p, salt, iterations, nonce, ciphertext, passphrase);
    assert p.aeadOpen(key, nonce, ciphertext, Aad()) == Some(plaintext);
  }

  /**
   * A container whose key or ciphertext does not authenticate is refused with
   * the passphrase message, never with garbage plaintext.
   */
  lemma WrongKeyRejected(p: Prims, plaintext: seq<Byte>, passphrase: string, iterations: int,
                         salt: seq<Byte>, nonce: seq<Byte>, other: string)
    requires p.TextLaws()
    requires |salt| == SaltBytes && |nonce| == NonceBytes && passphrase != "" && other != ""
    requires
      var key := p.pbkdf2(p.utf8Encode(passphrase), salt, iterations);
      p.aeadOpen(p.pbkdf2(p.utf8Encode(other), salt, iterations), nonce,
                 p.aeadSeal(key, nonce, plaintext, Aad()), Aad()).None?
    ensures DecryptBytes(p, EncryptBytes(p, plaintext, passphrase, iterations, salt, nonce).value, other)
            == Err(WrongPassphrase)
  {
    var key := p.pbkdf2(p.utf8Encode(passphrase), salt, iterations);
    var ciphertext := p.aeadSeal(key, nonce, plaintext, Aad());
    assert p.b64Decode(p.b64Encode(ciphertext)) == Some(ciphertext);
    DecryptContainer(p, salt, iterations, nonce, ciphertext, other);
  }

  /** An empty passphrase is refused even for a well-formed container. */
  lemma EmptyPassphraseRejected(p: Prims, plaintext: seq<Byte>, passphrase: string, iterations: int,
                                salt: seq<Byte>, nonce: seq<Byte>)
    requires p.TextLaws()
    requires |salt| == SaltBytes && |nonce| == NonceBytes && passphrase != ""
    ensures DecryptBytes(p, EncryptBytes(p, plaintext, passphrase, iterations, salt, nonce).value, "")
            == Err(EmptyPassphrase)
  {
    var key := p.pbkdf2(p.utf8Encode(passphrase), salt, iterations);
    var ciphertext := p.aeadSeal(key, nonce, plaintext, Aad());
    assert p.b64Decode(p.b64Encode(ciphertext)) == Some(ciphertext);
    DecryptContainer(p, salt, iterations, nonce, ciphertext, "");
  }
}

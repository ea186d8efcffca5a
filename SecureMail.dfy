/** The secure-envelope side of the client: building an envelope before a
    send, and deciding how a retrieved body is shown. The cryptographic
    primitives (CryptoUtils) and the envelope's text form (SecureEmail) are
    not modelled; they enter as function values, a failure of any of them
    (a thrown exception) being None. */
module SecureMail {
  import opened Wrappers

  type Bytes = seq<bv8>
  /** Key material as loaded from a certificate or a key file. */
  type PublicKey
  type PrivateKey

  /** Resolving a key from a path the user typed: the file is missing, the
      loader threw (unreadable file, wrong password, bad format), or the key. */
  datatype KeyResult<K> = Loaded(key: K) | NotFound | LoadError

  /** A SecureEmail: its four base64 fields, in constructor order. */
  datatype Envelope = Envelope(signature: string, iv: string, wrappedKey: string, ciphertext: string)

  /** The CryptoUtils operations the client calls. A secret key is
      represented by its encoded bytes (getEncoded / createSecretKey). */
  datatype CryptoUtils = CryptoUtils(
    encryptAES: (Bytes, Bytes, Bytes) -> Option<Bytes>,   // (plain, key, iv)
    decryptAES: (Bytes, Bytes, Bytes) -> Option<Bytes>,   // (cipher, key, iv)
    encryptRSA: (Bytes, PublicKey) -> Option<Bytes>,
    decryptRSA: (Bytes, PrivateKey) -> Option<Bytes>,
    sign: (Bytes, PrivateKey) -> Option<Bytes>,
    verifySignature: (Bytes, Bytes, PublicKey) -> Option<bool>,   // (data, signature, key)
    encodeBase64: Bytes -> string,
    decodeBase64: string -> Option<Bytes>,
    getBytes: string -> Bytes,       // String.getBytes()
    newString: Bytes -> string)      // new String(bytes)

  /** The SecureEmail operations the client calls. */
  datatype MailFormat = MailFormat(
    toText: Envelope -> string,                  // toString()
    isSecureEmail: string -> bool,
    parseFromString: string -> Option<Envelope>)

  /** The random AES key and IV generated for one send. */
  datatype Fresh = Fresh(aesKey: Bytes, iv: Bytes)

  // ---------------------------------------------------------------------
  // Sealing (sender side)

  /** Encrypt the body under the fresh AES key and IV, wrap the key for the
      recipient, sign the ciphertext, and base64 the four parts. */
  function Seal(c: CryptoUtils, content: string, random: Fresh, recipient: PublicKey, sender: PrivateKey)
    : (r: Option<Envelope>)
    ensures r.None? <==>
      || c.encryptAES(c.getBytes(content), random.aesKey, random.iv).None?
      || c.encryptRSA(random.aesKey, recipient).None?
      || c.sign(c.encryptAES(c.getBytes(content), random.aesKey, random.iv).value, sender).None?
    // what is signed is the ciphertext that is carried, not the plaintext
    ensures r.Some? ==>
      var ct := c.encryptAES(c.getBytes(content), random.aesKey, random.iv).value;
      && r.value.ciphertext == c.encodeBase64(ct)
      && r.value.signature == c.encodeBase64(c.sign(ct, sender).value)
      && r.value.iv == c.encodeBase64(random.iv)
      && r.value.wrappedKey == c.encodeBase64(c.encryptRSA(random.aesKey, recipient).value)
  {
    match c.encryptAES(c.getBytes(content), random.aesKey, random.iv)
    case None => None
    case Some(ct) =>
      match c.encryptRSA(random.aesKey, recipient)
      case None => None
      case Some(wrapped) =>
        match c.sign(ct, sender)
        case None => None
        case Some(sig) =>
          Some(Envelope(c.encodeBase64(sig), c.encodeBase64(random.iv),
                        c.encodeBase64(wrapped), c.encodeBase64(ct)))
  }

  // ---------------------------------------------------------------------
  // Presenting a retrieved body (recipient side)

  /** The heading a retrieved body is shown under. */
  datatype Label =
    | Plain              // "Regular (unencrypted) email received"
    | Decrypted          // "Decrypted Email"
    | VerificationFailed // "Raw Email (verification failed)"
    | InvalidSignature   // "Raw Email (invalid signature)"
    | CannotDecrypt      // "Raw Email (cannot decrypt)"
    | DecryptionFailed   // "Raw Email (decryption failed)"
    | ProcessingError    // "Raw Email (processing error)"

  datatype Presentation = Presentation(heading: Label, text: string)

  /** The collaborators consulted while presenting, in order. */
  datatype Step = ParseEnvelope | AskSenderCertificate | CheckSignature | AskPrivateKey | Decrypt

  datatype Opened = Opened(shown: Presentation, steps: seq<Step>)

  /** The signature check of a retrieved body is reached: the body is a
      secure email that parses, the sender's certificate resolves, and both
      base64 fields the check needs decode. */
  predicate Checkable(c: CryptoUtils, f: MailFormat, raw: string, senderCert: KeyResult<PublicKey>)
  {
    && f.isSecureEmail(raw)
    && f.parseFromString(raw).Some?
    && senderCert.Loaded?
    && c.decodeBase64(f.parseFromString(raw).value.signature).Some?
    && c.decodeBase64(f.parseFromString(raw).value.ciphertext).Some?
  }

  /** What verifySignature answers for the ciphertext, the signature and the
      sender's key (None: it threw). */
  function Verdict(c: CryptoUtils, f: MailFormat, raw: string, senderCert: KeyResult<PublicKey>): Option<bool>
    requires Checkable(c, f, raw, senderCert)
  {
    var env := f.parseFromString(raw).value;
    c.verifySignature(c.decodeBase64(env.ciphertext).value, c.decodeBase64(env.signature).value, senderCert.key)
  }

  predicate SignatureValid(c: CryptoUtils, f: MailFormat, raw: string, senderCert: KeyResult<PublicKey>)
  {
    Checkable(c, f, raw, senderCert) && Verdict(c, f, raw, senderCert) == Some(true)
  }

  /** Unwrap the AES key, decode the IV, decrypt, and decode the text; None
      when any of these throws. */
  function OpenEnvelope(c: CryptoUtils, env: Envelope, ct: Bytes, own: PrivateKey): Option<string>
  {
    match c.decodeBase64(env.wrappedKey)
    case None => None
    case Some(wrapped) =>
      match c.decryptRSA(wrapped, own)
      case None => None
      case Some(aesKey) =>
        match c.decodeBase64(env.iv)
        case None => None
        case Some(iv) =>
          match c.decryptAES(ct, aesKey, iv)
          case None => None
          case Some(plain) => Some(c.newString(plain))
  }

  /** The plaintext a good envelope opens to, when the signature verified. */
  function Plaintext(c: CryptoUtils, f: MailFormat, raw: string, senderCert: KeyResult<PublicKey>, own: PrivateKey)
    : Option<string>
    requires SignatureValid(c, f, raw, senderCert)
  {
    var env := f.parseFromString(raw).value;
    OpenEnvelope(c, env, c.decodeBase64(env.ciphertext).value, own)
  }

  /** How a retrieved body is shown. A plain body is shown as it came; a
      secure one is parsed, its signature is checked with the sender's
      certificate, and only then is the user's private key asked for and the
      body decrypted; each failure shows the raw body under its own label. */
  function Present(c: CryptoUtils, f: MailFormat, raw: string,
                   senderCert: KeyResult<PublicKey>, ownKey: KeyResult<PrivateKey>): (o: Opened)
    // nothing is dropped: anything but a decryption shows the body as received
    ensures o.shown.heading != Decrypted ==> o.shown.text == raw
    ensures o.shown.heading == Plain <==> !f.isSecureEmail(raw)
    ensures o.shown.heading == Plain ==> o.steps == []
    // the private key is asked for, and decryption tried, only after the signature verified
    ensures AskPrivateKey in o.steps ==> SignatureValid(c, f, raw, senderCert)
    ensures Decrypt in o.steps ==> AskPrivateKey in o.steps
    ensures forall i, j ::
      (0 <= i < |o.steps| && 0 <= j < |o.steps| && o.steps[i] == CheckSignature && o.steps[j] == AskPrivateKey)
      ==> i < j
    ensures CheckSignature in o.steps ==> AskSenderCertificate in o.steps
    // each outcome, both ways
    ensures o.shown.heading == Decrypted <==>
      SignatureValid(c, f, raw, senderCert) && ownKey.Loaded? &&
      Plaintext(c, f, raw, senderCert, ownKey.key).Some?
    ensures o.shown.heading == Decrypted ==> o.shown.text == Plaintext(c, f, raw, senderCert, ownKey.key).value
    ensures o.shown.heading == CannotDecrypt <==> SignatureValid(c, f, raw, senderCert) && !ownKey.Loaded?
    ensures o.shown.heading == DecryptionFailed <==>
      SignatureValid(c, f, raw, senderCert) && ownKey.Loaded? &&
      Plaintext(c, f, raw, senderCert, ownKey.key).None?
    ensures CheckSignature in o.steps <==> Checkable(c, f, raw, senderCert)
    ensures o.shown.heading == InvalidSignature <==>
      Checkable(c, f, raw, senderCert) && Verdict(c, f, raw, senderCert) == Some(false)
    ensures o.shown.heading == VerificationFailed <==>
      && f.isSecureEmail(raw) && f.parseFromString(raw).Some?
      && (!senderCert.Loaded? || (Checkable(c, f, raw, senderCert) && Verdict(c, f, raw, senderCert).None?))
    ensures o.shown.heading == ProcessingError <==>
      && f.isSecureEmail(raw)
      && (|| f.parseFromString(raw).None?
          || (senderCert.Loaded? && !Checkable(c, f, raw, senderCert)))
  {
    var shown := (heading: Label) => Presentation(heading, raw);
    if !f.isSecureEmail(raw) then Opened(shown(Plain), [])
    else
      match f.parseFromString(raw)
      case None => Opened(shown(ProcessingError), [ParseEnvelope])
      case Some(env) =>
        match senderCert
        case NotFound => Opened(shown(VerificationFailed), [ParseEnvelope, AskSenderCertificate])
        case LoadError => Opened(shown(VerificationFailed), [ParseEnvelope, AskSenderCertificate])
        case Loaded(senderKey) =>
          match (c.decodeBase64(env.signature), c.decodeBase64(env.ciphertext))
          case (None, _) => Opened(shown(ProcessingError), [ParseEnvelope, AskSenderCertificate])
          case (_, None) => Opened(shown(ProcessingError), [ParseEnvelope, AskSenderCertificate])
          case (Some(sig), Some(ct)) =>
            var checked := [ParseEnvelope, AskSenderCertificate, CheckSignature];
            match c.verifySignature(ct, sig, senderKey)
            case None => Opened(shown(VerificationFailed), checked)
            case Some(false) => Opened(shown(InvalidSignature), checked)
            case Some(true) =>
              match ownKey
              case NotFound => Opened(shown(CannotDecrypt), checked + [AskPrivateKey])
              case LoadError => Opened(shown(CannotDecrypt), checked + [AskPrivateKey])
              case Loaded(own) =>
                match OpenEnvelope(c, env, ct, own)
                case None => Opened(shown(DecryptionFailed), checked + [AskPrivateKey, Decrypt])
                case Some(text) => Opened(Presentation(Decrypted, text), checked + [AskPrivateKey, Decrypt])
  }
}

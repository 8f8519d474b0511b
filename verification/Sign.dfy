/** Signed bundles over an abstract signature scheme: sign.rs. */
module Sign {
  import opened Text

  /** SHA-256, Ed25519 and base64 as the functions the code calls; byte strings are strings. */
  datatype Scheme = Scheme(
    digest: string -> string,
    verifyingKey: string -> string,
    sign: (string, string) -> string,
    verify: (string, string, string) -> bool,
    validKey: string -> bool,
    validSignature: string -> bool,
    encode: string -> string,
    decode: string -> Option<string>)

  /** What section 5.1 of RFC 8032 and section 4 of RFC 4648 promise. */
  ghost predicate Correct(s: Scheme) {
    && (forall secret :: |s.verifyingKey(secret)| == 32 && s.validKey(s.verifyingKey(secret)))
    && (forall secret, message :: s.validSignature(s.sign(secret, message)))
    && (forall secret, message :: s.verify(s.verifyingKey(secret), message, s.sign(secret, message)))
    && (forall bytes :: s.decode(s.encode(bytes)) == Some(bytes))
  }

  datatype Signer = Signer(keyId: string, secret: string)

  datatype SignedBundle = SignedBundle(
    revision: string, contentSha256: string, cedar: string, dsl: string, signatureB64: string, keyId: string)

  datatype CryptoError = BadEncoding | BadSignature | BadKeyLength | BadKey

  function Message(revision: string, digest: string): string {
    revision + "\n" + digest
  }

  function SignBundle(s: Scheme, signer: Signer, revision: string, cedar: string, dsl: string): SignedBundle {
    var digest := s.digest(cedar);
    var signature := s.sign(signer.secret, Message(revision, digest));
    SignedBundle(revision, digest, cedar, dsl, s.encode(signature), signer.keyId)
  }

  function VerifyBundle(s: Scheme, bundle: SignedBundle, publicKey: string): Result<bool, CryptoError> {
    if s.digest(bundle.cedar) != bundle.contentSha256 then Ok(false)
    else
      match s.decode(bundle.signatureB64)
      case None => Err(BadEncoding)
      case Some(signature) =>
        if !s.validSignature(signature) then Err(BadSignature)
        else if |publicKey| != 32 then Err(BadKeyLength)
        else if !s.validKey(publicKey) then Err(BadKey)
        else Ok(s.verify(publicKey, Message(bundle.revision, bundle.contentSha256), signature))
  }

  /** A signature holds for no other message than the one it was made of. */
  ghost predicate Binding(s: Scheme) {
    forall secret, message, other :: s.verify(s.verifyingKey(secret), other, s.sign(secret, message)) ==> other == message
  }

  /** Such a scheme exists. */
  lemma CorrectSchemeExists()
    ensures exists s :: Correct(s) && Binding(s)
  {
    var key := seq(32, _ => 'k');
    var s := Scheme(c => c, _ => key, (k, m) => m, (p, m, g) => m == g, _ => true, _ => true, b => b, t => Some(t));
    assert Correct(s) && Binding(s);
  }

  /** A signed bundle verifies under its signer's key. */
  lemma {:induction false} SignedVerifies(s: Scheme, signer: Signer, revision: string, cedar: string, dsl: string)
    requires Correct(s)
    ensures VerifyBundle(s, SignBundle(s, signer, revision, cedar, dsl), s.verifyingKey(signer.secret)) == Ok(true)
  {}

  /** Cedar text with another digest is rejected, whatever key is used. */
  lemma {:induction false} TamperingIsRejected(s: Scheme, signer: Signer, revision: string, cedar: string, dsl: string, other: string, key: string)
    requires s.digest(other) != s.digest(cedar)
    ensures VerifyBundle(s, SignBundle(s, signer, revision, cedar, dsl).(cedar := other), key) == Ok(false)
  {}

  lemma MessageOfRevision(a: string, b: string, digest: string)
    requires Message(a, digest) == Message(b, digest)
    ensures a == b
  {
    assert |Message(a, digest)| == |a| + 1 + |digest| && |Message(b, digest)| == |b| + 1 + |digest|;
    assert Message(a, digest)[..|a|] == a && Message(b, digest)[..|b|] == b;
  }

  /** What is signed: with another revision or another Cedar text a bundle verifies only if that is the same revision and digest. */
  lemma VerifiesIff(s: Scheme, signer: Signer, revision: string, cedar: string, dsl: string, otherRevision: string, otherCedar: string)
    requires Correct(s) && Binding(s)
    ensures var b := SignBundle(s, signer, revision, cedar, dsl).(revision := otherRevision, cedar := otherCedar);
            VerifyBundle(s, b, s.verifyingKey(signer.secret)) == Ok(true) <==>
              otherRevision == revision && s.digest(otherCedar) == s.digest(cedar)
  {
    hide Message;
    var digest := s.digest(cedar);
    var b := SignBundle(s, signer, revision, cedar, dsl).(revision := otherRevision, cedar := otherCedar);
    if s.digest(otherCedar) == digest {
      assert VerifyBundle(s, b, s.verifyingKey(signer.secret))
          == Ok(s.verify(s.verifyingKey(signer.secret), Message(otherRevision, digest), s.sign(signer.secret, Message(revision, digest))));
      if Message(otherRevision, digest) == Message(revision, digest) { MessageOfRevision(otherRevision, revision, digest); }
    }
  }

  /** Only the digest of the Cedar text is signed: the stored DSL and the key id play no part. */
  lemma {:induction false} DslIsNotSigned(s: Scheme, b: SignedBundle, dsl: string, keyId: string, key: string)
    ensures VerifyBundle(s, b.(dsl := dsl, keyId := keyId), key) == VerifyBundle(s, b, key)
  {}
}

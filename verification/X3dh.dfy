/**
 Session establishment: hybrid post-quantum X3DH over symbolic bytes.
*/
module X3dh {
  import opened Results
  import opened Terms
  import opened Attacker

  const ENCAPSULATION_KEY_LEN := 1184
  const CIPHERTEXT_LEN := 1088
  const IDENTITY_LEN := 2 * KEY_LEN + ENCAPSULATION_KEY_LEN

  /** The public identity keys of a party; signing keys and ML-KEM key pairs are
      named by numbers. */
  datatype IdentityPublic = IdentityPublic(sign: nat, dh: PublicKey, kem: nat)

  datatype PrekeyBundle = PrekeyBundle(
    identity: IdentityPublic,
    signedPrekey: PublicKey,
    oneTimePrekey: Option<PublicKey>)

  datatype InitialMessage = InitialMessage(ephemeral: PublicKey, kemCiphertext: Ciphertext)

  /** One input of the hybrid derivation. */
  datatype Secret = Agreed(shared: Shared) | FromKem(secret: KemSecret)

  // ---------- Encodings ----------

  function CurveBytes(key: PublicKey): seq<Symbol> {
    seq(KEY_LEN, i requires 0 <= i < KEY_LEN => CurveByte(key, i))
  }

  function SignBytes(signer: nat): seq<Symbol> {
    seq(KEY_LEN, i requires 0 <= i < KEY_LEN => SignByte(signer, i))
  }

  function KemKeyBytes(pair: nat): seq<Symbol> {
    seq(ENCAPSULATION_KEY_LEN, i requires 0 <= i < ENCAPSULATION_KEY_LEN => KemKeyByte(pair, i))
  }

  function CiphertextBytes(ciphertext: Ciphertext): seq<Symbol> {
    seq(CIPHERTEXT_LEN, i requires 0 <= i < CIPHERTEXT_LEN => CiphertextByte(ciphertext, i))
  }

  function SecretBytes(secret: Secret): (bytes: seq<Symbol>)
    ensures |bytes| == KEY_LEN
  {
    match secret
    case Agreed(shared) => seq(KEY_LEN, i requires 0 <= i < KEY_LEN => SharedByte(shared, i))
    case FromKem(k) => seq(KEY_LEN, i requires 0 <= i < KEY_LEN => KemSecretByte(k, i))
  }

  function IdentityBytes(identity: IdentityPublic): (bytes: seq<Symbol>)
    ensures |bytes| == IDENTITY_LEN
  {
    SignBytes(identity.sign) + (CurveBytes(identity.dh) + KemKeyBytes(identity.kem))
  }

  /** Empty when no one-time prekey was left. */
  function OptionalBytes(key: Option<PublicKey>): seq<Symbol> {
    if key.Some? then CurveBytes(key.value) else []
  }

  /** The input of the transcript hash. */
  function Transcript(initiator: IdentityPublic, bundle: PrekeyBundle, message: InitialMessage): seq<Symbol> {
    IdentityBytes(initiator) +
    (IdentityBytes(bundle.identity) +
     (CurveBytes(message.ephemeral) +
      (CurveBytes(bundle.signedPrekey) +
       (OptionalBytes(bundle.oneTimePrekey) + CiphertextBytes(message.kemCiphertext)))))
  }

  function Concat(secrets: seq<Secret>): (bytes: seq<Symbol>)
    ensures |bytes| == KEY_LEN * |secrets|
  {
    if secrets == [] then [] else SecretBytes(secrets[0]) + Concat(secrets[1..])
  }

  /** The HKDF over 32 bytes 0xFF and the secrets, salted with the transcript. */
  function DeriveSharedKey(secrets: seq<Secret>, transcript: seq<Symbol>): Key {
    Hybrid(seq(KEY_LEN, _ => Literal(0xFF)) + Concat(secrets), transcript)
  }

  // ---------- The two sides ----------

  datatype Initiator = Initiator(identity: IdentityPublic, identityDh: PrivateKey)
  {
    /** The shared key and the message from which the responder derives it. */
    function InitiateWith(bundle: PrekeyBundle, ephemeral: PrivateKey, encapsulation: (Ciphertext, KemSecret))
      : Result<(Key, InitialMessage), CryptoError>
    {
      var message := InitialMessage(Pub(ephemeral), encapsulation.0);
      match DiffieHellman(identityDh, bundle.signedPrekey)
      case Err(e) => Err(e)
      case Ok(dh1) =>
        match DiffieHellman(ephemeral, bundle.identity.dh)
        case Err(e) => Err(e)
        case Ok(dh2) =>
          match DiffieHellman(ephemeral, bundle.signedPrekey)
          case Err(e) => Err(e)
          case Ok(dh3) =>
            var secrets := [Agreed(dh1), Agreed(dh2), Agreed(dh3)];
            if bundle.oneTimePrekey.Some? then
              match DiffieHellman(ephemeral, bundle.oneTimePrekey.value)
              case Err(e) => Err(e)
              case Ok(dh4) => Ok(Finish(bundle, message, secrets + [Agreed(dh4)] + [FromKem(encapsulation.1)]))
            else Ok(Finish(bundle, message, secrets + [FromKem(encapsulation.1)]))
    }

    function Finish(bundle: PrekeyBundle, message: InitialMessage, secrets: seq<Secret>): (Key, InitialMessage) {
      (DeriveSharedKey(secrets, Transcript(identity, bundle, message)), message)
    }
  }

  datatype Responder = Responder(
    identity: IdentityPublic,
    identityDh: PrivateKey,
    kem: nat,
    signedPrekey: PrivateKey,
    oneTimePrekey: Option<PrivateKey>)
  {
    function Bundle(): PrekeyBundle {
      PrekeyBundle(identity, Pub(signedPrekey),
                   if oneTimePrekey.Some? then Some(Pub(oneTimePrekey.value)) else None)
    }

    /** The public keys are those of the private ones. */
    ghost predicate Consistent() {
      identity.dh == Pub(identityDh) && identity.kem == kem
    }

    function Respond(initiator: IdentityPublic, message: InitialMessage): Result<Key, CryptoError> {
      match DiffieHellman(signedPrekey, initiator.dh)
      case Err(e) => Err(e)
      case Ok(dh1) =>
        match DiffieHellman(identityDh, message.ephemeral)
        case Err(e) => Err(e)
        case Ok(dh2) =>
          match DiffieHellman(signedPrekey, message.ephemeral)
          case Err(e) => Err(e)
          case Ok(dh3) =>
            var secrets := [Agreed(dh1), Agreed(dh2), Agreed(dh3)];
            var last := FromKem(Decapsulate(kem, message.kemCiphertext));
            if oneTimePrekey.Some? then
              match DiffieHellman(oneTimePrekey.value, message.ephemeral)
              case Err(e) => Err(e)
              case Ok(dh4) =>
                Ok(DeriveSharedKey(secrets + [Agreed(dh4)] + [last], Transcript(initiator, Bundle(), message)))
            else Ok(DeriveSharedKey(secrets + [last], Transcript(initiator, Bundle(), message)))
    }
  }

  // ---------- Agreement ----------

  /** The responder derives the initiator's key from its message. */
  lemma BothSidesAgree(i: Initiator, r: Responder, ephemeral: PrivateKey, randomness: nat)
    requires i.identity.dh == Pub(i.identityDh) && r.Consistent()
    ensures var started := i.InitiateWith(r.Bundle(), ephemeral, Encapsulate(r.kem, randomness));
            && started.Ok?
            && r.Respond(i.identity, started.value.1) == Ok(started.value.0)
  {
  }

  /** The initiator fails exactly on a bundle with a low-order key, the responder
      exactly on a low-order initiator key. */
  lemma OnlyLowOrderKeysFail(i: Initiator, r: Responder, bundle: PrekeyBundle, ephemeral: PrivateKey,
                             encapsulation: (Ciphertext, KemSecret), claimed: IdentityPublic, message: InitialMessage)
    ensures var started := i.InitiateWith(bundle, ephemeral, encapsulation);
            && (started.Err? <==> bundle.signedPrekey.LowOrder? || bundle.identity.dh.LowOrder? ||
                                  (bundle.oneTimePrekey.Some? && bundle.oneTimePrekey.value.LowOrder?))
            && (started.Err? ==> started.error == InvalidPublicKey)
    ensures var answered := r.Respond(claimed, message);
            && (answered.Err? <==> claimed.dh.LowOrder? || message.ephemeral.LowOrder?)
            && (answered.Err? ==> answered.error == InvalidPublicKey)
  {
  }

  // ---------- Binding ----------

  lemma SplitConcat(a: seq<Symbol>, b: seq<Symbol>, c: seq<Symbol>, d: seq<Symbol>)
    requires |a| == |c| && a + b == c + d
    ensures a == c && b == d
  {
    assert a == (a + b)[..|a|] && b == (a + b)[|a|..];
  }

  lemma CurveBytesAreInjective(a: PublicKey, b: PublicKey)
    requires CurveBytes(a) == CurveBytes(b)
    ensures a == b
  {
    assert CurveBytes(a)[0] == CurveByte(a, 0);
    assert CurveBytes(b)[0] == CurveByte(b, 0);
  }

  lemma IdentityBytesAreInjective(a: IdentityPublic, b: IdentityPublic)
    requires IdentityBytes(a) == IdentityBytes(b)
    ensures a == b
  {
    SplitConcat(SignBytes(a.sign), CurveBytes(a.dh) + KemKeyBytes(a.kem),
                SignBytes(b.sign), CurveBytes(b.dh) + KemKeyBytes(b.kem));
    SplitConcat(CurveBytes(a.dh), KemKeyBytes(a.kem), CurveBytes(b.dh), KemKeyBytes(b.kem));
    CurveBytesAreInjective(a.dh, b.dh);
    assert SignBytes(a.sign)[0] == SignByte(a.sign, 0) && SignBytes(b.sign)[0] == SignByte(b.sign, 0);
    assert KemKeyBytes(a.kem)[0] == KemKeyByte(a.kem, 0) && KemKeyBytes(b.kem)[0] == KemKeyByte(b.kem, 0);
  }

  lemma TailIsInjective(a: Option<PublicKey>, c: Ciphertext, b: Option<PublicKey>, d: Ciphertext)
    requires OptionalBytes(a) + CiphertextBytes(c) == OptionalBytes(b) + CiphertextBytes(d)
    ensures a == b && c == d
  {
    assert |OptionalBytes(a)| + CIPHERTEXT_LEN == |OptionalBytes(b)| + CIPHERTEXT_LEN;
    SplitConcat(OptionalBytes(a), CiphertextBytes(c), OptionalBytes(b), CiphertextBytes(d));
    if a.Some? {
      CurveBytesAreInjective(a.value, b.value);
    }
    assert CiphertextBytes(c)[0] == CiphertextByte(c, 0) && CiphertextBytes(d)[0] == CiphertextByte(d, 0);
  }

  /** The transcript determines both identities, the message and the prekeys, the
      absence of a one-time prekey included. */
  lemma TranscriptIsInjective(i: IdentityPublic, b: PrekeyBundle, m: InitialMessage,
                              i': IdentityPublic, b': PrekeyBundle, m': InitialMessage)
    requires Transcript(i, b, m) == Transcript(i', b', m')
    ensures i == i' && b == b' && m == m'
  {
    var z, z' := OptionalBytes(b.oneTimePrekey) + CiphertextBytes(m.kemCiphertext),
                 OptionalBytes(b'.oneTimePrekey) + CiphertextBytes(m'.kemCiphertext);
    var y, y' := CurveBytes(b.signedPrekey) + z, CurveBytes(b'.signedPrekey) + z';
    var x, x' := CurveBytes(m.ephemeral) + y, CurveBytes(m'.ephemeral) + y';
    SplitConcat(IdentityBytes(i), IdentityBytes(b.identity) + x, IdentityBytes(i'), IdentityBytes(b'.identity) + x');
    SplitConcat(IdentityBytes(b.identity), x, IdentityBytes(b'.identity), x');
    SplitConcat(CurveBytes(m.ephemeral), y, CurveBytes(m'.ephemeral), y');
    SplitConcat(CurveBytes(b.signedPrekey), z, CurveBytes(b'.signedPrekey), z');
    IdentityBytesAreInjective(i, i');
    IdentityBytesAreInjective(b.identity, b'.identity);
    CurveBytesAreInjective(m.ephemeral, m'.ephemeral);
    CurveBytesAreInjective(b.signedPrekey, b'.signedPrekey);
    TailIsInjective(b.oneTimePrekey, m.kemCiphertext, b'.oneTimePrekey, m'.kemCiphertext);
  }

  lemma {:induction false} ConcatIsInjective(a: seq<Secret>, b: seq<Secret>)
    requires Concat(a) == Concat(b)
    ensures a == b
  {
    if a != [] && b != [] {
      SplitConcat(SecretBytes(a[0]), Concat(a[1..]), SecretBytes(b[0]), Concat(b[1..]));
      assert SecretBytes(a[0])[0] == SecretBytes(b[0])[0];
      ConcatIsInjective(a[1..], b[1..]);
      assert a == [a[0]] + a[1..] && b == [b[0]] + b[1..];
    }
  }

  /** Equal shared keys come from equal secrets and equal transcripts. */
  lemma SharedKeyIsInjective(s: seq<Secret>, t: seq<Symbol>, s': seq<Secret>, t': seq<Symbol>)
    requires DeriveSharedKey(s, t) == DeriveSharedKey(s', t')
    ensures s == s' && t == t'
  {
    SplitConcat(seq(KEY_LEN, _ => Literal(0xFF)), Concat(s), seq(KEY_LEN, _ => Literal(0xFF)), Concat(s'));
    ConcatIsInjective(s, s');
  }

  /** Two sides hold the same key if and only if they agree on both identities,
      the bundle and the message: stripping the one-time prekey, changing the
      ciphertext or claiming another identity splits the session. */
  lemma KeysBindTheHandshake(i: Initiator, r: Responder, bundle: PrekeyBundle, ephemeral: PrivateKey, randomness: nat,
                             claimed: IdentityPublic, message: InitialMessage)
    requires i.identity.dh == Pub(i.identityDh) && r.Consistent()
    requires i.InitiateWith(bundle, ephemeral, Encapsulate(bundle.identity.kem, randomness)).Ok?
    requires r.Respond(claimed, message).Ok?
    ensures var started := i.InitiateWith(bundle, ephemeral, Encapsulate(bundle.identity.kem, randomness)).value;
            r.Respond(claimed, message).value == started.0 <==>
            claimed == i.identity && bundle == r.Bundle() && message == started.1
  {
    var started := i.InitiateWith(bundle, ephemeral, Encapsulate(bundle.identity.kem, randomness)).value;
    if r.Respond(claimed, message).value == started.0 {
      assert started.0.transcript == Transcript(i.identity, bundle, started.1);
      assert r.Respond(claimed, message).value.transcript == Transcript(claimed, r.Bundle(), message);
      TranscriptIsInjective(i.identity, bundle, started.1, claimed, r.Bundle(), message);
    }
    if claimed == i.identity && bundle == r.Bundle() && message == started.1 {
      BothSidesAgree(i, r, ephemeral, randomness);
    }
  }

  // ---------- Layout ----------

  /** What can stand in an input of the derivation. */
  datatype Field =
    | Prefix
    | SigningKey(signer: nat)
    | CurveKey(key: PublicKey)
    | EncapsulationKey(pair: nat)
    | KemText(ciphertext: Ciphertext)
    | Agreement(shared: Shared)
    | Encapsulation(secret: KemSecret)

  ghost function ByteOf(field: Field, k: nat): Symbol {
    match field
    case Prefix => Literal(0xFF)
    case SigningKey(signer) => SignByte(signer, k)
    case CurveKey(key) => CurveByte(key, k)
    case EncapsulationKey(pair) => KemKeyByte(pair, k)
    case KemText(ciphertext) => CiphertextByte(ciphertext, k)
    case Agreement(shared) => SharedByte(shared, k)
    case Encapsulation(secret) => KemSecretByte(secret, k)
  }

  /** From offset `at` on, `bytes` holds the first `len` bytes of a field. */
  ghost predicate Stands(bytes: seq<Symbol>, at: nat, len: nat, field: Field) {
    at + len <= |bytes| && forall k: nat :: k < len ==> bytes[at + k] == ByteOf(field, k)
  }

  /** An identity: signing key, Diffie-Hellman key, encapsulation key. */
  ghost predicate IdentityStands(bytes: seq<Symbol>, at: nat, identity: IdentityPublic) {
    && Stands(bytes, at, 32, SigningKey(identity.sign))
    && Stands(bytes, at + 32, 32, CurveKey(identity.dh))
    && Stands(bytes, at + 64, 1184, EncapsulationKey(identity.kem))
  }

  /** The hashed transcript, byte by byte: the initiator's identity, the responder's,
      the ephemeral key, the signed prekey, the one-time prekey if there is one, and
      the ciphertext. */
  ghost predicate TranscriptLayout(t: seq<Symbol>, initiator: IdentityPublic, responder: IdentityPublic, ephemeral: PublicKey,
                                   signedPrekey: PublicKey, oneTimePrekey: Option<PublicKey>, ciphertext: Ciphertext)
  {
    var at := if oneTimePrekey.Some? then 2592 else 2560;
    && |t| == at + 1088
    && IdentityStands(t, 0, initiator)
    && IdentityStands(t, 1248, responder)
    && Stands(t, 2496, 32, CurveKey(ephemeral))
    && Stands(t, 2528, 32, CurveKey(signedPrekey))
    && (oneTimePrekey.Some? ==> Stands(t, 2560, 32, CurveKey(oneTimePrekey.value)))
    && Stands(t, at, 1088, KemText(ciphertext))
  }

  /** The key material, byte by byte: 32 bytes 0xFF, three agreements, the fourth if
      there is a one-time prekey, and the encapsulated secret. */
  ghost predicate MaterialLayout(m: seq<Symbol>, dh1: Shared, dh2: Shared, dh3: Shared, dh4: Option<Shared>, kem: KemSecret) {
    var at := if dh4.Some? then 160 else 128;
    && |m| == at + 32
    && Stands(m, 0, 32, Prefix)
    && Stands(m, 32, 32, Agreement(dh1))
    && Stands(m, 64, 32, Agreement(dh2))
    && Stands(m, 96, 32, Agreement(dh3))
    && (dh4.Some? ==> Stands(m, 128, 32, Agreement(dh4.value)))
    && Stands(m, at, 32, Encapsulation(kem))
  }

  lemma StandsLeft(x: seq<Symbol>, y: seq<Symbol>, at: nat, len: nat, field: Field)
    requires Stands(x, at, len, field)
    ensures Stands(x + y, at, len, field)
  {
  }

  lemma StandsRight(x: seq<Symbol>, y: seq<Symbol>, at: nat, len: nat, field: Field)
    requires Stands(y, at, len, field)
    ensures Stands(x + y, |x| + at, len, field)
  {
    forall k: nat | k < len
      ensures (x + y)[|x| + at + k] == ByteOf(field, k)
    {
      assert (x + y)[|x| + (at + k)] == y[at + k];
    }
  }

  lemma IdentityStandsLeft(x: seq<Symbol>, y: seq<Symbol>, at: nat, identity: IdentityPublic)
    requires IdentityStands(x, at, identity)
    ensures IdentityStands(x + y, at, identity)
  {
    StandsLeft(x, y, at, 32, SigningKey(identity.sign));
    StandsLeft(x, y, at + 32, 32, CurveKey(identity.dh));
    StandsLeft(x, y, at + 64, 1184, EncapsulationKey(identity.kem));
  }

  lemma IdentityStandsRight(x: seq<Symbol>, y: seq<Symbol>, at: nat, identity: IdentityPublic)
    requires IdentityStands(y, at, identity)
    ensures IdentityStands(x + y, |x| + at, identity)
  {
    StandsRight(x, y, at, 32, SigningKey(identity.sign));
    StandsRight(x, y, at + 32, 32, CurveKey(identity.dh));
    StandsRight(x, y, at + 64, 1184, EncapsulationKey(identity.kem));
  }

  lemma IdentityIsLaidOut(identity: IdentityPublic)
    ensures IdentityStands(IdentityBytes(identity), 0, identity)
  {
    var sign, dh, kem := SignBytes(identity.sign), CurveBytes(identity.dh), KemKeyBytes(identity.kem);
    StandsLeft(sign, dh + kem, 0, 32, SigningKey(identity.sign));
    StandsLeft(dh, kem, 0, 32, CurveKey(identity.dh));
    StandsRight(sign, dh + kem, 0, 32, CurveKey(identity.dh));
    StandsRight(dh, kem, 0, 1184, EncapsulationKey(identity.kem));
    StandsRight(sign, dh + kem, 32, 1184, EncapsulationKey(identity.kem));
  }

  lemma TailIsLaidOut(ephemeral: PublicKey, signedPrekey: PublicKey, oneTimePrekey: Option<PublicKey>, ciphertext: Ciphertext)
    returns (tail: seq<Symbol>)
    ensures tail == CurveBytes(ephemeral) + (CurveBytes(signedPrekey) + (OptionalBytes(oneTimePrekey) + CiphertextBytes(ciphertext)))
    ensures var at := if oneTimePrekey.Some? then 96 else 64;
            && |tail| == at + 1088
            && Stands(tail, 0, 32, CurveKey(ephemeral)) && Stands(tail, 32, 32, CurveKey(signedPrekey))
            && (oneTimePrekey.Some? ==> Stands(tail, 64, 32, CurveKey(oneTimePrekey.value)))
            && Stands(tail, at, 1088, KemText(ciphertext))
  {
    var e, s, o, c := CurveBytes(ephemeral), CurveBytes(signedPrekey), OptionalBytes(oneTimePrekey), CiphertextBytes(ciphertext);
    tail := e + (s + (o + c));
    StandsLeft(e, s + (o + c), 0, 32, CurveKey(ephemeral));
    StandsLeft(s, o + c, 0, 32, CurveKey(signedPrekey));
    StandsRight(e, s + (o + c), 0, 32, CurveKey(signedPrekey));
    if oneTimePrekey.Some? {
      StandsLeft(o, c, 0, 32, CurveKey(oneTimePrekey.value));
      StandsRight(s, o + c, 0, 32, CurveKey(oneTimePrekey.value));
      StandsRight(e, s + (o + c), 32, 32, CurveKey(oneTimePrekey.value));
    }
    StandsRight(o, c, 0, 1088, KemText(ciphertext));
    StandsRight(s, o + c, |o|, 1088, KemText(ciphertext));
    StandsRight(e, s + (o + c), 32 + |o|, 1088, KemText(ciphertext));
  }

  lemma TranscriptIsLaidOut(initiator: IdentityPublic, bundle: PrekeyBundle, message: InitialMessage)
    ensures TranscriptLayout(Transcript(initiator, bundle, message), initiator, bundle.identity, message.ephemeral,
                             bundle.signedPrekey, bundle.oneTimePrekey, message.kemCiphertext)
  {
    var tail := TailIsLaidOut(message.ephemeral, bundle.signedPrekey, bundle.oneTimePrekey, message.kemCiphertext);
    var i, r := IdentityBytes(initiator), IdentityBytes(bundle.identity);
    var at := if bundle.oneTimePrekey.Some? then 96 else 64;
    IdentityIsLaidOut(initiator);
    IdentityIsLaidOut(bundle.identity);
    IdentityStandsLeft(i, r + tail, 0, initiator);
    IdentityStandsLeft(r, tail, 0, bundle.identity);
    IdentityStandsRight(i, r + tail, 0, bundle.identity);
    TailStands(i, r, tail, 0, 32, CurveKey(message.ephemeral));
    TailStands(i, r, tail, 32, 32, CurveKey(bundle.signedPrekey));
    if bundle.oneTimePrekey.Some? {
      TailStands(i, r, tail, 64, 32, CurveKey(bundle.oneTimePrekey.value));
    }
    TailStands(i, r, tail, at, 1088, KemText(message.kemCiphertext));
  }

  lemma TailStands(x: seq<Symbol>, y: seq<Symbol>, z: seq<Symbol>, at: nat, len: nat, field: Field)
    requires Stands(z, at, len, field)
    ensures Stands(x + (y + z), |x| + |y| + at, len, field)
  {
    StandsRight(y, z, at, len, field);
    StandsRight(x, y + z, |y| + at, len, field);
  }

  ghost function FieldOf(secret: Secret): Field {
    match secret
    case Agreed(shared) => Agreement(shared)
    case FromKem(k) => Encapsulation(k)
  }

  lemma {:induction false} SecretStands(secrets: seq<Secret>, i: nat)
    requires i < |secrets|
    ensures Stands(Concat(secrets), 32 * i, 32, FieldOf(secrets[i]))
  {
    var rest := secrets[1..];
    if i == 0 {
      StandsLeft(SecretBytes(secrets[0]), Concat(rest), 0, 32, FieldOf(secrets[0]));
    } else {
      SecretStands(rest, i - 1);
      StandsRight(SecretBytes(secrets[0]), Concat(rest), 32 * (i - 1), 32, FieldOf(rest[i - 1]));
    }
  }

  /** `secrets` are the three or four agreements, then the encapsulated secret. */
  lemma MaterialIsLaidOut(dh1: Shared, dh2: Shared, dh3: Shared, dh4: Option<Shared>, kem: KemSecret, transcript: seq<Symbol>,
                          secrets: seq<Secret>)
    requires secrets == [Agreed(dh1), Agreed(dh2), Agreed(dh3)] + (if dh4.Some? then [Agreed(dh4.value)] else []) + [FromKem(kem)]
    ensures MaterialLayout(DeriveSharedKey(secrets, transcript).material, dh1, dh2, dh3, dh4, kem)
    ensures DeriveSharedKey(secrets, transcript).transcript == transcript
  {
    var prefix := seq(KEY_LEN, _ => Literal(0xFF));
    StandsLeft(prefix, Concat(secrets), 0, 32, Prefix);
    forall i: nat | i < |secrets|
      ensures Stands(prefix + Concat(secrets), 32 + 32 * i, 32, FieldOf(secrets[i]))
    {
      SecretStands(secrets, i);
      StandsRight(prefix, Concat(secrets), 32 * i, 32, FieldOf(secrets[i]));
    }
    assert Stands(prefix + Concat(secrets), 32 + 32 * 0, 32, FieldOf(secrets[0]));
    assert Stands(prefix + Concat(secrets), 32 + 32 * 1, 32, FieldOf(secrets[1]));
    assert Stands(prefix + Concat(secrets), 32 + 32 * 2, 32, FieldOf(secrets[2]));
    assert Stands(prefix + Concat(secrets), 32 + 32 * 3, 32, FieldOf(secrets[3]));
    if dh4.Some? {
      assert Stands(prefix + Concat(secrets), 32 + 32 * 4, 32, FieldOf(secrets[4]));
    }
  }

  /** The key an initiator derives, byte by byte, and its message. */
  lemma InitiatorDerives(i: Initiator, bundle: PrekeyBundle, ephemeral: PrivateKey, encapsulation: (Ciphertext, KemSecret))
    requires i.InitiateWith(bundle, ephemeral, encapsulation).Ok?
    ensures var (key, message) := i.InitiateWith(bundle, ephemeral, encapsulation).value;
            && message == InitialMessage(Pub(ephemeral), encapsulation.0)
            && key.Hybrid?
            && TranscriptLayout(key.transcript, i.identity, bundle.identity, Pub(ephemeral), bundle.signedPrekey,
                                bundle.oneTimePrekey, encapsulation.0)
            && bundle.signedPrekey.Encoding? && bundle.identity.dh.Encoding?
            && (bundle.oneTimePrekey.Some? ==> bundle.oneTimePrekey.value.Encoding?)
            && MaterialLayout(key.material, SharedBetween(i.identityDh.point, bundle.signedPrekey.point),
                              SharedBetween(ephemeral.point, bundle.identity.dh.point),
                              SharedBetween(ephemeral.point, bundle.signedPrekey.point),
                              if bundle.oneTimePrekey.Some?
                              then Some(SharedBetween(ephemeral.point, bundle.oneTimePrekey.value.point)) else None,
                              encapsulation.1)
  {
    var message := InitialMessage(Pub(ephemeral), encapsulation.0);
    var dh1 := SharedBetween(i.identityDh.point, bundle.signedPrekey.point);
    var dh2 := SharedBetween(ephemeral.point, bundle.identity.dh.point);
    var dh3 := SharedBetween(ephemeral.point, bundle.signedPrekey.point);
    var dh4 := if bundle.oneTimePrekey.Some?
    then Some(SharedBetween(ephemeral.point, bundle.oneTimePrekey.value.point)) else None;
    TranscriptIsLaidOut(i.identity, bundle, message);
    MaterialIsLaidOut(dh1, dh2, dh3, dh4, encapsulation.1, Transcript(i.identity, bundle, message),
                      [Agreed(dh1), Agreed(dh2), Agreed(dh3)] + (if dh4.Some? then [Agreed(dh4.value)] else []) +
                      [FromKem(encapsulation.1)]);
    assert dh4.None? ==> [Agreed(dh1), Agreed(dh2), Agreed(dh3)] + [] == [Agreed(dh1), Agreed(dh2), Agreed(dh3)];
  }

  /** The key a responder derives, byte by byte. */
  lemma ResponderDerives(r: Responder, claimed: IdentityPublic, message: InitialMessage)
    requires r.Respond(claimed, message).Ok?
    ensures var key := r.Respond(claimed, message).value;
            && key.Hybrid?
            && TranscriptLayout(key.transcript, claimed, r.identity, message.ephemeral, Pub(r.signedPrekey),
                                if r.oneTimePrekey.Some? then Some(Pub(r.oneTimePrekey.value)) else None, message.kemCiphertext)
            && claimed.dh.Encoding? && message.ephemeral.Encoding?
            && MaterialLayout(key.material, SharedBetween(r.signedPrekey.point, claimed.dh.point),
                              SharedBetween(r.identityDh.point, message.ephemeral.point),
                              SharedBetween(r.signedPrekey.point, message.ephemeral.point),
                              if r.oneTimePrekey.Some?
                              then Some(SharedBetween(r.oneTimePrekey.value.point, message.ephemeral.point)) else None,
                              Decapsulate(r.kem, message.kemCiphertext))
  {
    var dh1 := SharedBetween(r.signedPrekey.point, claimed.dh.point);
    var dh2 := SharedBetween(r.identityDh.point, message.ephemeral.point);
    var dh3 := SharedBetween(r.signedPrekey.point, message.ephemeral.point);
    var dh4 := if r.oneTimePrekey.Some?
    then Some(SharedBetween(r.oneTimePrekey.value.point, message.ephemeral.point)) else None;
    var kem := Decapsulate(r.kem, message.kemCiphertext);
    TranscriptIsLaidOut(claimed, r.Bundle(), message);
    MaterialIsLaidOut(dh1, dh2, dh3, dh4, kem, Transcript(claimed, r.Bundle(), message),
                      [Agreed(dh1), Agreed(dh2), Agreed(dh3)] + (if dh4.Some? then [Agreed(dh4.value)] else []) + [FromKem(kem)]);
    assert dh4.None? ==> [Agreed(dh1), Agreed(dh2), Agreed(dh3)] + [] == [Agreed(dh1), Agreed(dh2), Agreed(dh3)];
  }

  /** What a responder publishes. */
  lemma BundleAnswers(r: Responder)
    ensures r.Bundle().identity == r.identity && r.Bundle().signedPrekey == Pub(r.signedPrekey)
    ensures r.Bundle().oneTimePrekey.Some? <==> r.oneTimePrekey.Some?
    ensures r.oneTimePrekey.Some? ==> r.Bundle().oneTimePrekey == Some(Pub(r.oneTimePrekey.value))
  {
  }

  // ---------- Hybrid secrecy ----------

  ghost predicate KnowsSecret(a: Attacker, secret: Secret) {
    match secret
    case Agreed(shared) => KnowsShared(a, shared)
    case FromKem(k) => KnowsKemSecret(a, k)
  }

  ghost predicate KnowsBytes(a: Attacker, bytes: seq<Symbol>) {
    forall k :: 0 <= k < |bytes| ==> KnowsSymbol(a, bytes[k])
  }

  ghost predicate KnowsSecrets(a: Attacker, secrets: seq<Secret>) {
    forall k :: 0 <= k < |secrets| ==> KnowsSecret(a, secrets[k])
  }

  lemma KnowsConcat(a: Attacker, x: seq<Symbol>, y: seq<Symbol>)
    ensures KnowsBytes(a, x + y) <==> KnowsBytes(a, x) && KnowsBytes(a, y)
  {
    assert forall k :: 0 <= k < |x| ==> (x + y)[k] == x[k];
    if KnowsBytes(a, x + y) {
      forall k | 0 <= k < |y|
        ensures KnowsSymbol(a, y[k])
      {
        assert (x + y)[|x| + k] == y[k];
      }
    }
  }

  lemma OneSecretIsKnown(a: Attacker, secret: Secret)
    ensures KnowsBytes(a, SecretBytes(secret)) <==> KnowsSecret(a, secret)
  {
    var bytes := SecretBytes(secret);
    assert KnowsSymbol(a, bytes[0]) <==> KnowsSecret(a, secret);
  }

  lemma {:induction false} MaterialIsKnown(a: Attacker, secrets: seq<Secret>)
    ensures KnowsBytes(a, Concat(secrets)) <==> KnowsSecrets(a, secrets)
  {
    if secrets != [] {
      MaterialIsKnown(a, secrets[1..]);
      KnowsConcat(a, SecretBytes(secrets[0]), Concat(secrets[1..]));
      OneSecretIsKnown(a, secrets[0]);
      var rest := secrets[1..];
      assert forall k :: 0 <= k < |rest| ==> rest[k] == secrets[k + 1];
      if KnowsSecret(a, secrets[0]) && KnowsSecrets(a, rest) {
        forall k | 0 <= k < |secrets|
          ensures KnowsSecret(a, secrets[k])
        {
          assert k > 0 ==> secrets[k] == rest[k - 1];
        }
      }
    }
  }

  lemma SharedKeyIsKnown(a: Attacker, secrets: seq<Secret>, transcript: seq<Symbol>)
    requires DeriveSharedKey(secrets, transcript) !in a.keys
    ensures Derivable(a, DeriveSharedKey(secrets, transcript)) <==> KnowsSecrets(a, secrets)
  {
    MaterialIsKnown(a, secrets);
    KnowsConcat(a, seq(KEY_LEN, _ => Literal(0xFF)), Concat(secrets));
    assert Derivable(a, DeriveSharedKey(secrets, transcript)) <==>
           KnowsBytes(a, DeriveSharedKey(secrets, transcript).material);
  }

  /** The decapsulation key and one scalar of every Diffie-Hellman pair. */
  ghost predicate Breaks(a: Attacker, i: Initiator, r: Responder, ephemeral: PrivateKey) {
    && r.kem in a.kemPairs
    && (i.identityDh in a.scalars || r.signedPrekey in a.scalars)
    && (ephemeral in a.scalars || r.identityDh in a.scalars)
    && (ephemeral in a.scalars || r.signedPrekey in a.scalars)
    && (r.oneTimePrekey.Some? ==> ephemeral in a.scalars || r.oneTimePrekey.value in a.scalars)
  }

  /** Breaking the session takes breaking both: an eavesdropper computes the key
      exactly when it has the responder's decapsulation key and one scalar of
      every Diffie-Hellman pair. */
  lemma BreakingTakesBoth(a: Attacker, i: Initiator, r: Responder, ephemeral: PrivateKey, randomness: nat)
    requires i.identity.dh == Pub(i.identityDh) && r.Consistent()
    requires i.InitiateWith(r.Bundle(), ephemeral, Encapsulate(r.kem, randomness)).Ok?
    requires i.InitiateWith(r.Bundle(), ephemeral, Encapsulate(r.kem, randomness)).value.0 !in a.keys
    ensures Derivable(a, i.InitiateWith(r.Bundle(), ephemeral, Encapsulate(r.kem, randomness)).value.0) <==>
            Breaks(a, i, r, ephemeral)
  {
    var started := i.InitiateWith(r.Bundle(), ephemeral, Encapsulate(r.kem, randomness)).value;
    var dh1 := SharedBetween(i.identityDh.point, r.signedPrekey.point);
    var dh2 := SharedBetween(ephemeral.point, r.identityDh.point);
    var dh3 := SharedBetween(ephemeral.point, r.signedPrekey.point);
    var secrets := [Agreed(dh1), Agreed(dh2), Agreed(dh3)];
    if r.oneTimePrekey.Some? {
      secrets := secrets + [Agreed(SharedBetween(ephemeral.point, r.oneTimePrekey.value.point))];
      KnowsBetween(a, ephemeral, r.oneTimePrekey.value);
    }
    secrets := secrets + [FromKem(KemShared(r.kem, randomness))];
    assert started.0 == DeriveSharedKey(secrets, Transcript(i.identity, r.Bundle(), started.1));
    SharedKeyIsKnown(a, secrets, Transcript(i.identity, r.Bundle(), started.1));
    KnowsBetween(a, i.identityDh, r.signedPrekey);
    KnowsBetween(a, ephemeral, r.identityDh);
    KnowsBetween(a, ephemeral, r.signedPrekey);
    assert secrets[0] == Agreed(dh1) && secrets[1] == Agreed(dh2) && secrets[2] == Agreed(dh3);
    assert secrets[|secrets| - 1] == FromKem(KemShared(r.kem, randomness));
    if r.oneTimePrekey.Some? {
      assert |secrets| == 5 && secrets[3] == Agreed(SharedBetween(ephemeral.point, r.oneTimePrekey.value.point));
    } else {
      assert |secrets| == 4;
    }
  }

  lemma KnowsBetween(a: Attacker, x: PrivateKey, y: PrivateKey)
    ensures KnowsShared(a, SharedBetween(x.point, y.point)) <==> x in a.scalars || y in a.scalars
  {
  }
}

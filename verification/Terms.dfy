/**
 The cryptographic primitives as free terms. Every derivation is a constructor,
 so two keys are equal exactly when they were derived the same way, and nothing
 about the primitives is assumed beyond what a constructor says:
 a Diffie-Hellman secret is an unordered pair of curve points, a low-order point
 is refused, and a sealed body opens only under the key, nonce and associated
 data it was sealed with.
*/
module Terms {
  import opened Results

  type Byte = b: int | 0 <= b < 0x100
  type U32 = n: int | 0 <= n < 0x1_0000_0000

  const KEY_LEN := 32
  const PLAINTEXT_LEN := 396
  const NONCE_LEN := 24

  type Plaintext = bytes: seq<Byte> | |bytes| == PLAINTEXT_LEN witness seq(PLAINTEXT_LEN, _ => 0)
  type Nonce = bytes: seq<Byte> | |bytes| == NONCE_LEN witness seq(NONCE_LEN, _ => 0)

  datatype CryptoError = InvalidLength | Authentication | Rng | InvalidPublicKey

  // ---------- X25519 ----------

  /** A private scalar, named by the point it generates. */
  datatype PrivateKey = PrivateKey(point: nat)

  /** Every 32-byte string is accepted on the wire. A point has one canonical
      encoding, form 0, and possibly others that only a forger sends; a low-order
      point has no private key. */
  datatype PublicKey = Encoding(point: nat, form: nat) | LowOrder(form: nat)

  /** The shared secret of two points, whichever side computed it. */
  datatype Shared = Shared(low: nat, high: nat)

  function Pub(key: PrivateKey): PublicKey {
    Encoding(key.point, 0)
  }

  function SharedBetween(a: nat, b: nat): Shared {
    if a <= b then Shared(a, b) else Shared(b, a)
  }

  function DiffieHellman(key: PrivateKey, peer: PublicKey): Result<Shared, CryptoError> {
    match peer
    case Encoding(point, _) => Ok(SharedBetween(key.point, point))
    case LowOrder(_) => Err(InvalidPublicKey)
  }

  lemma AgreementIsSymmetric(a: PrivateKey, b: PrivateKey)
    ensures DiffieHellman(a, Pub(b)) == DiffieHellman(b, Pub(a))
    ensures DiffieHellman(a, Pub(b)).Ok?
  {
  }

  // ---------- ML-KEM-768 ----------

  /** A ciphertext made for the key pair `pair`, or any other byte string. */
  datatype Ciphertext = Encapsulated(pair: nat, randomness: nat) | OtherCiphertext(id: nat)

  /** What decapsulation yields: the encapsulated secret, or by implicit
      rejection a secret nobody else holds. */
  datatype KemSecret = KemShared(pair: nat, randomness: nat) | Rejected(pair: nat, ciphertext: Ciphertext)

  function Encapsulate(pair: nat, randomness: nat): (Ciphertext, KemSecret) {
    (Encapsulated(pair, randomness), KemShared(pair, randomness))
  }

  function Decapsulate(pair: nat, ciphertext: Ciphertext): KemSecret {
    match ciphertext
    case Encapsulated(p, randomness) => if p == pair then KemShared(pair, randomness) else Rejected(pair, ciphertext)
    case OtherCiphertext(_) => Rejected(pair, ciphertext)
  }

  /** A key pair opens exactly the ciphertexts made for it; of any other it makes a
      secret that no encapsulation yields. */
  lemma DecapsulatesOnlyItsOwn(pair: nat, ciphertext: Ciphertext, randomness: nat, other: nat)
    ensures Decapsulate(pair, Encapsulate(pair, randomness).0) == Encapsulate(pair, randomness).1
    ensures Decapsulate(pair, ciphertext) == Encapsulate(other, randomness).1 ==>
              other == pair && ciphertext == Encapsulate(pair, randomness).0
  {
  }

  // ---------- Key derivation ----------

  /** One symbolic byte of a key-derivation input: a literal, or the byte at
      some offset of an opaque 32-byte key, encapsulation key or ciphertext. */
  datatype Symbol =
    | Literal(value: Byte)
    | CurveByte(point: PublicKey, at: nat)
    | SignByte(signer: nat, at: nat)
    | KemKeyByte(pair: nat, at: nat)
    | CiphertextByte(ciphertext: Ciphertext, at: nat)
    | SharedByte(shared: Shared, at: nat)
    | KemSecretByte(secret: KemSecret, at: nat)

  /** Symmetric keys. `Hybrid` is the X3DH output; `RootOf` and `ChainOf` are the
      two halves of the root HKDF; `NextOf` and `MessageOf` the two HMACs of the
      symmetric chain. */
  datatype Key =
    | Hybrid(material: seq<Symbol>, transcript: seq<Symbol>)
    | RootOf(parent: Key, shared: Shared)
    | ChainOf(parent: Key, shared: Shared)
    | NextOf(chain: Key)
    | MessageOf(chain: Key)

  /** A byte slice holding key material. */
  datatype Slice = Slice(of: Key, len: nat)

  /** `SecretKey::from_slice`: copies exactly 32 bytes. */
  function FromSlice(slice: Slice): Result<Key, CryptoError> {
    if slice.len != KEY_LEN then Err(InvalidLength) else Ok(slice.of)
  }

  /** The whole of a 32-byte key. */
  function Bytes(key: Key): Slice {
    Slice(key, KEY_LEN)
  }

  /** How many root derivations separate a key from the shared key of X3DH. */
  function Depth(key: Key): nat {
    match key
    case Hybrid(_, _) => 0
    case RootOf(parent, _) => 1 + Depth(parent)
    case ChainOf(parent, _) => 1 + Depth(parent)
    case NextOf(chain) => Depth(chain)
    case MessageOf(chain) => Depth(chain)
  }

  /** A chain key `n` steps on. */
  function Advance(chain: Key, n: nat): Key {
    if n == 0 then chain else NextOf(Advance(chain, n - 1))
  }

  /** The key of frame number `n` of the chain starting at `chain`. */
  function MessageKey(chain: Key, n: nat): Key {
    MessageOf(Advance(chain, n))
  }

  lemma {:induction false} AdvanceAdds(chain: Key, m: nat, n: nat)
    ensures Advance(Advance(chain, m), n) == Advance(chain, m + n)
  {
    if n > 0 {
      AdvanceAdds(chain, m, n - 1);
    }
  }

  lemma {:induction false} AdvanceKeepsDepth(chain: Key, n: nat)
    ensures Depth(Advance(chain, n)) == Depth(chain)
  {
    if n > 0 {
      AdvanceKeepsDepth(chain, n - 1);
    }
  }

  /** Position in a chain is determined by the chain key there. */
  lemma {:induction false} AdvanceIsInjective(a: Key, m: nat, b: Key, n: nat)
    requires a.ChainOf? && b.ChainOf?
    ensures Advance(a, m) == Advance(b, n) <==> a == b && m == n
  {
    if m > 0 && n > 0 {
      AdvanceIsInjective(a, m - 1, b, n - 1);
    }
  }

  // ---------- Frames ----------

  datatype Header<K> = Header(ratchet: K, previousChainLen: U32, messageNumber: U32)

  type RatchetHeader = Header<PublicKey>

  /** The sealed part of a frame: an XChaCha20-Poly1305 box, or bytes that are
      a box under no key. */
  datatype Sealed =
    | Box(key: Key, nonce: Nonce, aad: RatchetHeader, plaintext: Plaintext)
    | Noise(id: nat)

  datatype SealedFrame = SealedFrame(nonce: Nonce, header: RatchetHeader, body: Sealed)

  function Seal(key: Key, nonce: Nonce, header: RatchetHeader, plaintext: Plaintext): SealedFrame {
    SealedFrame(nonce, header, Box(key, nonce, header, plaintext))
  }

  function Open(key: Key, sealed: SealedFrame): Result<Plaintext, CryptoError> {
    if sealed.body.Box? && sealed.body.key == key && sealed.body.nonce == sealed.nonce &&
       sealed.body.aad == sealed.header
    then Ok(sealed.body.plaintext)
    else Err(Authentication)
  }

  /** A frame opens under exactly one key, to exactly what was sealed. */
  lemma OpensOnlyWhatWasSealed(key: Key, sealed: SealedFrame)
    ensures Open(key, sealed).Ok? <==>
            exists p: Plaintext :: sealed == Seal(key, sealed.nonce, sealed.header, p)
    ensures forall p: Plaintext :: sealed == Seal(key, sealed.nonce, sealed.header, p) ==> Open(key, sealed) == Ok(p)
  {
    if Open(key, sealed).Ok? {
      assert sealed == Seal(key, sealed.nonce, sealed.header, sealed.body.plaintext);
    }
  }
}

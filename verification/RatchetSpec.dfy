/**
 What a Double Ratchet session does, as functions on its state. The classes of
 module `Session` are proved against these functions, and the theorems about
 conversations are proved about them.
*/
module RatchetSpec {
  import opened Results
  import opened Terms
  import opened SkippedStore

  const CHAIN_LIMIT := 2000

  datatype Error = Crypto(cause: CryptoError) | SendingBlocked | TooFarAhead

  datatype Chain = Chain(key: Key, next: U32)

  datatype State = State(
    rootKey: Key,
    ownRatchet: PrivateKey,
    remoteRatchet: Option<PublicKey>,
    sending: Option<Chain>,
    receiving: Option<Chain>,
    previousSendingLen: U32,
    skipped: seq<Skipped>)

  /** The next root key and a new chain key. */
  function KdfRoot(rootKey: Key, own: PrivateKey, remote: PublicKey): Result<(Key, Key), CryptoError> {
    match DiffieHellman(own, remote)
    case Ok(shared) => Ok((RootOf(rootKey, shared), ChainOf(rootKey, shared)))
    case Err(e) => Err(e)
  }

  function Initiator(sharedKey: Key, remote: PublicKey, own: PrivateKey): Result<State, Error> {
    match KdfRoot(sharedKey, own, remote)
    case Err(e) => Err(Crypto(e))
    case Ok((rootKey, sending)) =>
      Ok(State(rootKey, own, Some(remote), Some(Chain(sending, 0)), None, 0, []))
  }

  function Responder(sharedKey: Key, signedPrekey: PrivateKey): State {
    State(sharedKey, signedPrekey, None, None, None, 0, [])
  }

  // ---------- Sending ----------

  predicate MaySend(s: State) {
    s.sending.Some? && s.sending.value.next < CHAIN_LIMIT
  }

  function NextHeader(s: State): RatchetHeader
    requires s.sending.Some?
  {
    Header(Pub(s.ownRatchet), s.previousSendingLen, s.sending.value.next)
  }

  function Encrypt(s: State, nonce: Result<Nonce, CryptoError>, plaintext: Plaintext)
    : (State, Result<SealedFrame, Error>)
  {
    match nonce
    case Err(e) => (s, Err(Crypto(e)))
    case Ok(nonce) =>
      if !MaySend(s) then (s, Err(SendingBlocked))
      else
        var Chain(key, next) := s.sending.value;
        (s.(sending := Some(Chain(NextOf(key), next + 1))),
         Ok(Seal(MessageOf(key), nonce, NextHeader(s), plaintext)))
  }

  // ---------- Receiving ----------

  /** The keys passed over when a chain moves on to number `until`. */
  function SkippedBetween(chain: Chain, until: U32): seq<(U32, Key)> {
    if until <= chain.next then []
    else seq(until - chain.next, i requires 0 <= i < until - chain.next =>
             (chain.next + i, MessageKey(chain.key, i)))
  }

  function MovedTo(chain: Chain, until: U32): Chain {
    if until <= chain.next then chain else Chain(Advance(chain.key, until - chain.next), until)
  }

  predicate MaySkipTo(chain: Chain, until: U32) {
    until <= CHAIN_LIMIT && until - chain.next <= MAX_SKIP_PER_CHAIN
  }

  /** Why the key of frame `number` cannot be derived from a chain, if it cannot. */
  function Refusal(chain: Chain, number: U32): Option<Error> {
    if number >= CHAIN_LIMIT then Some(TooFarAhead)
    else if number < chain.next then Some(Crypto(Authentication))
    else if !MaySkipTo(chain, number) then Some(TooFarAhead)
    else None
  }

  /** The one key a frame with some header can open under, and the session once
      it has. Neither depends on the sealed part of the frame. */
  datatype Opening = Opening(key: Key, next: State)

  function Candidate(s: State, header: RatchetHeader, drawn: Result<PrivateKey, CryptoError>): Result<Opening, Error> {
    var index := FirstMatch(s.skipped, NameOf(header));
    if index < |s.skipped| then
      Ok(Opening(s.skipped[index].key, s.(skipped := Without(s.skipped, index))))
    else if s.remoteRatchet == Some(header.ratchet) then
      InReceivingChain(s, header)
    else
      AfterRatchetStep(s, header, drawn)
  }

  function InReceivingChain(s: State, header: RatchetHeader): Result<Opening, Error> {
    var number := header.messageNumber;
    if s.receiving.None? then Err(Crypto(Authentication))
    else
      var chain := s.receiving.value;
      match Refusal(chain, number)
      case Some(e) => Err(e)
      case None =>
        Ok(Opening(
             MessageKey(chain.key, number - chain.next),
             s.(receiving := Some(MovedTo(chain, number + 1)),
                skipped := Extended(s.skipped, header.ratchet,
                                    Labelled(header.ratchet, SkippedBetween(chain, number))))))
  }

  /** The store once the frames left in the previous receiving chain are skipped. */
  function StoredFromPrevious(s: State, previousChainLen: U32): seq<Skipped> {
    if s.receiving.Some? && s.remoteRatchet.Some? then
      var remote := s.remoteRatchet.value;
      Extended(s.skipped, remote, Labelled(remote, SkippedBetween(s.receiving.value, previousChainLen)))
    else s.skipped
  }

  function AfterRatchetStep(s: State, header: RatchetHeader, drawn: Result<PrivateKey, CryptoError>)
    : Result<Opening, Error>
  {
    if s.receiving.Some? && !MaySkipTo(s.receiving.value, header.previousChainLen) then Err(TooFarAhead)
    else
      match KdfRoot(s.rootKey, s.ownRatchet, header.ratchet)
      case Err(e) => Err(Crypto(e))
      case Ok((middleKey, receivingKey)) =>
        match drawn
        case Err(e) => Err(Crypto(e))
        case Ok(own) =>
          match KdfRoot(middleKey, own, header.ratchet)
          case Err(e) => Err(Crypto(e))
          case Ok((rootKey, sendingKey)) =>
            var chain := Chain(receivingKey, 0);
            match Refusal(chain, header.messageNumber)
            case Some(e) => Err(e)
            case None =>
              Ok(Opening(
                   MessageKey(receivingKey, header.messageNumber),
                   State(
                     rootKey,
                     own,
                     Some(header.ratchet),
                     Some(Chain(sendingKey, 0)),
                     Some(MovedTo(chain, header.messageNumber + 1)),
                     if s.sending.Some? then s.sending.value.next else 0,
                     Extended(StoredFromPrevious(s, header.previousChainLen), header.ratchet,
                              Labelled(header.ratchet, SkippedBetween(chain, header.messageNumber))))))
  }

  function Decrypt(s: State, sealed: SealedFrame, drawn: Result<PrivateKey, CryptoError>)
    : (State, Result<Plaintext, Error>)
  {
    match Candidate(s, sealed.header, drawn)
    case Err(e) => (s, Err(e))
    case Ok(opening) =>
      match Open(opening.key, sealed)
      case Err(e) => (s, Err(Crypto(e)))
      case Ok(plaintext) => (opening.next, Ok(plaintext))
  }

  // ---------- Bounds, whatever the headers say ----------

  /** The counters and the store stay small. */
  ghost predicate Bounded(s: State) {
    && (s.sending.Some? ==> s.sending.value.next <= 2000)
    && (s.receiving.Some? ==> s.receiving.value.next <= 2000)
    && s.previousSendingLen <= 2000
    && WithinCaps(s.skipped)
  }

  lemma SessionsStartBounded(sharedKey: Key, remote: PublicKey, own: PrivateKey)
    ensures Bounded(Responder(sharedKey, own))
    ensures Initiator(sharedKey, remote, own).Ok? ==> Bounded(Initiator(sharedKey, remote, own).value)
  {
  }

  lemma EncryptKeepsBounds(s: State, nonce: Result<Nonce, CryptoError>, plaintext: Plaintext)
    requires Bounded(s)
    ensures Bounded(Encrypt(s, nonce, plaintext).0)
  {
  }

  /** No frame, forged or genuine, drives a counter or the store past its limit. */
  lemma DecryptKeepsBounds(s: State, sealed: SealedFrame, drawn: Result<PrivateKey, CryptoError>)
    requires Bounded(s)
    ensures Bounded(Decrypt(s, sealed, drawn).0)
  {
    var header := sealed.header;
    var index := FirstMatch(s.skipped, NameOf(header));
    if index < |s.skipped| {
      RemovingStaysWithinCaps(s.skipped, index);
    } else if s.remoteRatchet == Some(header.ratchet) {
      if s.receiving.Some? {
        ExtendingStaysWithinCaps(s.skipped, header.ratchet,
                                 Labelled(header.ratchet, SkippedBetween(s.receiving.value, header.messageNumber)));
      }
    } else if Candidate(s, header, drawn).Ok? {
      if s.receiving.Some? && s.remoteRatchet.Some? {
        var remote := s.remoteRatchet.value;
        ExtendingStaysWithinCaps(s.skipped, remote,
                                 Labelled(remote, SkippedBetween(s.receiving.value, header.previousChainLen)));
      }
      var chain := Chain(KdfRoot(s.rootKey, s.ownRatchet, header.ratchet).value.1, 0);
      ExtendingStaysWithinCaps(StoredFromPrevious(s, header.previousChainLen), header.ratchet,
                               Labelled(header.ratchet, SkippedBetween(chain, header.messageNumber)));
    }
  }
}

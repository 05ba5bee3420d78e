/**
 The Double Ratchet session as the crate writes it: a mutable `Session` whose
 methods advance a scratch `Cursor` and only then assign the session's fields.
 Every method is proved to do what the function of module `RatchetSpec` says,
 which leaves the state alone whenever it returns an error.
*/
module Session {
  import opened Results
  import opened Terms
  import opened SkippedStore
  import Spec = RatchetSpec
  import opened RatchetSpec

  /** The message key and the next chain key. */
  function KdfChain(chainKey: Key): (Key, Key) {
    (MessageOf(chainKey), NextOf(chainKey))
  }

  function StartChain(key: Key): Result<Chain, Error> {
    match FromSlice(Bytes(key))
    case Ok(k) => Ok(Chain(k, 0))
    case Err(e) => Err(Crypto(e))
  }

  /** The working copy on which keys are derived. A method that fails drops it;
      one that succeeds stores the `Chain` it ends as. */
  class Cursor {
    var key: Key
    var next: U32
    var skipped: seq<(U32, Key)>
    ghost var derivations: nat

    constructor (key: Key)
      ensures AsChain() == Chain(key, 0) && skipped == [] && derivations == 0
    {
      this.key := key;
      next := 0;
      skipped := [];
      derivations := 0;
    }

    constructor At(chain: Chain)
      ensures AsChain() == chain && skipped == [] && derivations == 0
    {
      key := chain.key;
      next := chain.next;
      skipped := [];
      derivations := 0;
    }

    ghost function AsChain(): Chain
      reads this
    {
      Chain(key, next)
    }

    method SkipTo(until: U32) returns (r: Result<(), Error>)
      requires next <= CHAIN_LIMIT && skipped == []
      modifies this
      ensures r == if MaySkipTo(old(AsChain()), until) then Ok(()) else Err(TooFarAhead)
      ensures r.Err? ==> unchanged(this)
      ensures r.Ok? ==> AsChain() == MovedTo(old(AsChain()), until)
      ensures r.Ok? ==> skipped == SkippedBetween(old(AsChain()), until)
      ensures derivations == old(derivations) + |skipped| && |skipped| <= 1000
    {
      var ahead := if until > next then until - next else 0;
      if until > CHAIN_LIMIT || ahead > MAX_SKIP_PER_CHAIN {
        return Err(TooFarAhead);
      }
      ghost var start := AsChain();
      while next < until
        invariant start.next <= next <= CHAIN_LIMIT && (next <= until || next == start.next)
        invariant key == Advance(start.key, next - start.next)
        invariant |skipped| == next - start.next
        invariant forall i :: 0 <= i < |skipped| ==> skipped[i] == (start.next + i, MessageKey(start.key, i))
        invariant derivations == old(derivations) + |skipped|
      {
        var number := next;
        var messageKey := NextMessageKey();
        skipped := skipped + [(number, messageKey)];
      }
      assert skipped == SkippedBetween(start, until);
      return Ok(());
    }

    method DeriveMessageKey(number: U32) returns (r: Result<Key, Error>)
      requires next <= CHAIN_LIMIT && skipped == []
      modifies this
      ensures var refusal := Refusal(old(AsChain()), number);
              r == if refusal.Some? then Err(refusal.value)
                   else Ok(MessageKey(old(key), number - old(next)))
      ensures r.Ok? ==> AsChain() == MovedTo(old(AsChain()), number + 1)
      ensures r.Ok? ==> skipped == SkippedBetween(old(AsChain()), number)
      ensures r.Err? ==> unchanged(this)
      ensures derivations <= old(derivations) + 1001
    {
      if number >= CHAIN_LIMIT {
        return Err(TooFarAhead);
      }
      if number < next {
        return Err(Crypto(Authentication));
      }
      var skip := SkipTo(number);
      if skip.Err? {
        return Err(skip.error);
      }
      var messageKey := NextMessageKey();
      return Ok(messageKey);
    }

    /** The counter cannot overflow: it stays below the chain limit. */
    method NextMessageKey() returns (messageKey: Key)
      requires next < CHAIN_LIMIT
      modifies this`key, this`next, this`derivations
      ensures messageKey == MessageOf(old(key))
      ensures key == NextOf(old(key)) && next == old(next) + 1
      ensures derivations == old(derivations) + 1
    {
      var (message, chain) := KdfChain(key);
      key := chain;
      next := next + 1;
      derivations := derivations + 1;
      return message;
    }

    method TakeSkipped() returns (taken: seq<(U32, Key)>)
      modifies this`skipped
      ensures taken == old(skipped) && skipped == []
    {
      taken := skipped;
      skipped := [];
    }

    method IntoChain() returns (r: Result<Chain, Error>)
      ensures r == Ok(AsChain())
    {
      match FromSlice(Bytes(key))
      case Ok(k) => return Ok(Chain(k, next));
      case Err(e) => return Err(Crypto(e));
    }
  }

  /** What one party keeps between frames. */
  class Session {
    var rootKey: Key
    var ownRatchet: PrivateKey
    var remoteRatchet: Option<PublicKey>
    var sending: Option<Chain>
    var receiving: Option<Chain>
    var previousSendingLen: U32
    const skipped: SkippedKeys
    /** Chain keys derived by the latest `Decrypt`. */
    ghost var work: nat

    ghost function Model(): State
      reads this, skipped
    {
      State(rootKey, ownRatchet, remoteRatchet, sending, receiving, previousSendingLen, skipped.entries)
    }

    ghost predicate Valid()
      reads this, skipped
    {
      Bounded(Model())
    }

    constructor FromState(sharedKey: Key, own: PrivateKey, remote: Option<PublicKey>, sending: Option<Chain>)
      requires sending.Some? ==> sending.value.next == 0
      ensures Valid() && fresh(skipped)
      ensures Model() == State(sharedKey, own, remote, sending, None, 0, [])
    {
      rootKey := sharedKey;
      ownRatchet := own;
      remoteRatchet := remote;
      this.sending := sending;
      receiving := None;
      previousSendingLen := 0;
      skipped := new SkippedKeys();
      work := 0;
    }

    static method InitiatorWith(sharedKey: Key, remote: PublicKey, own: PrivateKey)
      returns (r: Result<Session, Error>)
      ensures r.Ok? ==> r.value.Valid() && fresh(r.value) && fresh(r.value.skipped)
      ensures r.Ok? ==> Spec.Initiator(sharedKey, remote, own) == Ok(r.value.Model())
      ensures r.Err? ==> Spec.Initiator(sharedKey, remote, own) == Err(r.error)
    {
      var derived := KdfRoot(sharedKey, own, remote);
      if derived.Err? {
        return Err(Crypto(derived.error));
      }
      var (root, sendingKey) := derived.value;
      var chain := StartChain(sendingKey);
      if chain.Err? {
        assert false;  // a derived key is always 32 bytes
      }
      var session := new Session.FromState(root, own, Some(remote), Some(chain.value));
      return Ok(session);
    }

    static method Responder(sharedKey: Key, signedPrekey: PrivateKey) returns (session: Session)
      ensures session.Valid() && fresh(session) && fresh(session.skipped)
      ensures session.Model() == Spec.Responder(sharedKey, signedPrekey)
    {
      session := new Session.FromState(sharedKey, signedPrekey, None, None);
    }

    /** Seals `plaintext` under the next message key and the nonce the RNG
        yielded, or fails and leaves the session as it was. */
    method Encrypt(nonce: Result<Nonce, CryptoError>, plaintext: Plaintext)
      returns (r: Result<SealedFrame, Error>)
      requires Valid()
      modifies this
      ensures Valid()
      ensures (Model(), r) == Spec.Encrypt(old(Model()), nonce, plaintext)
      ensures r.Err? ==> Model() == old(Model())
    {
      if nonce.Err? {
        return Err(Crypto(nonce.error));
      }
      if sending.None? {
        return Err(SendingBlocked);
      }
      var chain := sending.value;
      if chain.next >= CHAIN_LIMIT {
        return Err(SendingBlocked);
      }
      var header := Header(Pub(ownRatchet), previousSendingLen, chain.next);
      var cursor := new Cursor.At(chain);
      var derived := cursor.NextMessageKey();
      var messageKey := FromSlice(Bytes(derived));
      if messageKey.Err? {
        assert false;  // a derived key is always 32 bytes
      }
      var sealed := Seal(messageKey.value, nonce.value, header, plaintext);
      var next := cursor.IntoChain();
      if next.Err? {
        assert false;  // likewise
      }
      sending := Some(next.value);
      return Ok(sealed);
    }

    /** Opens a frame of the peer, taking a ratchet step when it carries a new
        ratchet key; `drawn` is what the key generator would yield. */
    method Decrypt(sealed: SealedFrame, drawn: Result<PrivateKey, CryptoError>)
      returns (r: Result<Plaintext, Error>)
      requires Valid()
      modifies this, skipped
      ensures Valid()
      ensures (Model(), r) == Spec.Decrypt(old(Model()), sealed, drawn)
      ensures r.Err? ==> Model() == old(Model())
      ensures work <= 2001  // a full skip of the old chain, one of the new, and the frame's own key
    {
      DecryptKeepsBounds(Model(), sealed, drawn);
      work := 0;
      var header := sealed.header;
      var index := skipped.Position(header);
      if index.Some? {
        var unsealed := Terms.Open(skipped.KeyAt(index.value), sealed);
        if unsealed.Err? {
          return Err(Crypto(unsealed.error));
        }
        skipped.Remove(index.value);
        return Ok(unsealed.value);
      }
      if remoteRatchet == Some(header.ratchet) {
        r := DecryptInReceivingChain(header, sealed);
      } else {
        r := DecryptAfterRatchetStep(header, sealed, drawn);
      }
    }

    /** The session and result that follow from a candidate key, if there is one. */
    ghost predicate Follows(before: State, candidate: Result<Opening, Error>, sealed: SealedFrame,
                            r: Result<Plaintext, Error>)
      reads this, skipped
    {
      match candidate
      case Err(e) => Model() == before && r == Err(e)
      case Ok(opening) =>
        match Terms.Open(opening.key, sealed)
        case Err(e) => Model() == before && r == Err(Crypto(e))
        case Ok(p) => Model() == opening.next && r == Ok(p)
    }

    method DecryptInReceivingChain(header: RatchetHeader, sealed: SealedFrame)
      returns (r: Result<Plaintext, Error>)
      requires Valid() && header == sealed.header
      modifies this, skipped
      ensures Follows(old(Model()), InReceivingChain(old(Model()), header), sealed, r)
      ensures work <= old(work) + 1001
    {
      if receiving.None? {
        return Err(Crypto(Authentication));
      }
      var cursor := new Cursor.At(receiving.value);
      var key := cursor.DeriveMessageKey(header.messageNumber);
      work := work + cursor.derivations;
      if key.Err? {
        return Err(key.error);
      }
      var unsealed := Terms.Open(key.value, sealed);
      if unsealed.Err? {
        return Err(Crypto(unsealed.error));
      }

      var keys := cursor.TakeSkipped();
      skipped.Extend(header.ratchet, keys);
      var chain := cursor.IntoChain();
      if chain.Err? {
        assert false;  // a chain key is always 32 bytes, so this error cannot follow the mutation above
      }
      receiving := Some(chain.value);
      return Ok(unsealed.value);
    }

    method DecryptAfterRatchetStep(header: RatchetHeader, sealed: SealedFrame, drawn: Result<PrivateKey, CryptoError>)
      returns (r: Result<Plaintext, Error>)
      requires Valid() && header == sealed.header
      modifies this, skipped
      ensures Follows(old(Model()), AfterRatchetStep(old(Model()), header, drawn), sealed, r)
      ensures work <= old(work) + 2001
    {
      var previous: Cursor? := null;
      if receiving.Some? {
        previous := new Cursor.At(receiving.value);
        var skip := previous.SkipTo(header.previousChainLen);
        work := work + previous.derivations;
        if skip.Err? {
          return Err(skip.error);
        }
      }
      var middle := KdfRoot(rootKey, ownRatchet, header.ratchet);
      if middle.Err? {
        return Err(Crypto(middle.error));
      }
      if drawn.Err? {
        return Err(Crypto(drawn.error));
      }
      var root := KdfRoot(middle.value.0, drawn.value, header.ratchet);
      if root.Err? {
        assert false;  // the point was just accepted with the other private key
      }
      var cursor := new Cursor(middle.value.1);
      var key := cursor.DeriveMessageKey(header.messageNumber);
      work := work + cursor.derivations;
      if key.Err? {
        return Err(key.error);
      }
      var unsealed := Terms.Open(key.value, sealed);
      if unsealed.Err? {
        return Err(Crypto(unsealed.error));
      }

      Commit(header, root.value, drawn.value, previous, cursor);
      return Ok(unsealed.value);
    }

    /** The mutating half of a ratchet step, once the frame has opened. */
    method Commit(header: RatchetHeader, root: (Key, Key), own: PrivateKey, previous: Cursor?, cursor: Cursor)
      requires previous != null ==> previous != cursor
      modifies this, skipped, previous, cursor
      ensures work == old(work)
      ensures Model() == State(
                           root.0,
                           own,
                           Some(header.ratchet),
                           Some(Chain(root.1, 0)),
                           Some(old(cursor.AsChain())),
                           if old(sending).Some? then old(sending).value.next else 0,
                           Extended(old(if previous != null && remoteRatchet.Some?
                                        then Extended(skipped.entries, remoteRatchet.value,
                                                      Labelled(remoteRatchet.value, previous.skipped))
                                        else skipped.entries),
                                    header.ratchet, Labelled(header.ratchet, old(cursor.skipped))))
    {
      if previous != null && remoteRatchet.Some? {
        var left := previous.TakeSkipped();
        skipped.Extend(remoteRatchet.value, left);
      }
      var keys := cursor.TakeSkipped();
      skipped.Extend(header.ratchet, keys);
      rootKey := root.0;
      ownRatchet := own;
      remoteRatchet := Some(header.ratchet);
      previousSendingLen := if sending.Some? then sending.value.next else 0;
      var started := StartChain(root.1);
      if started.Err? {
        assert false;  // likewise 32 bytes
      }
      sending := Some(started.value);
      var chain := cursor.IntoChain();
      if chain.Err? {
        assert false;  // likewise 32 bytes
      }
      receiving := Some(chain.value);
    }
  }
}

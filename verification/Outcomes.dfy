/**
 What every operation of a session answers, whatever it is given: forged frames,
 low-order keys and a failing generator included.
*/
module Outcomes {
  import opened Results
  import opened Terms
  import opened Attacker
  import opened Schedule
  import opened SkippedStore
  import opened RatchetSpec
  import opened Conversation
  import opened History
  import opened Runs

  // ---------- Starting ----------

  /** An initiator fails exactly on a low-order ratchet key, as an invalid public
      key; otherwise it can seal frame 0 of a chain that whoever holds the other
      private key and the shared key can derive as well. */
  lemma InitiatorExactly(sharedKey: Key, remote: PublicKey, own: PrivateKey, theirs: PrivateKey)
    ensures Initiator(sharedKey, remote, own).Err? <==> remote.LowOrder?
    ensures remote.LowOrder? ==> Initiator(sharedKey, remote, own) == Err(Crypto(InvalidPublicKey))
    ensures remote == Encoding(theirs.point, remote.form) ==>
              var s, shared := Initiator(sharedKey, remote, own).value, DiffieHellman(theirs, Pub(own)).value;
              && s.rootKey == RootOf(sharedKey, shared) && s.sending == Some(Chain(ChainOf(sharedKey, shared), 0))
              && s.ownRatchet == own && s.remoteRatchet == Some(remote) && s.receiving.None?
              && s.previousSendingLen == 0 && s.skipped == []
  {
  }

  // ---------- Sending ----------

  /** What a party answers when asked to seal: the generator's failure first, then
      whether it is blocked, else the next frame of its chain. */
  lemma SendOutcome(w: World, p: Party, nonce: Result<Nonce, CryptoError>, plaintext: Plaintext)
    requires Invariant(w)
    ensures var g, (s, r) := w.Generation(p), Encrypt(w.Of(p), nonce, plaintext);
            && (nonce.Err? ==> r == Err(Crypto(nonce.error)))
            && (nonce.Ok? && (g == 0 || w.sent[g] == 2000) ==> r == Err(SendingBlocked))
            && (nonce.Ok? && g > 0 && w.sent[g] < 2000 ==> r == Ok(FrameAt(w, g, w.sent[g], nonce.value, plaintext)))
            && (r.Err? ==> s == w.Of(p))
  {
    assert InStep(w, p);
  }

  // ---------- Receiving ----------

  /** What a header alone is refused for, if it is. */
  ghost function Complaint(s: State, header: RatchetHeader, drawn: Result<PrivateKey, CryptoError>): Option<Error> {
    var n := header.messageNumber;
    var past := if s.receiving.Some? then s.receiving.value.next else 0;
    if NameOf(header) in Names(s.skipped) then None
    else if s.remoteRatchet == Some(header.ratchet) then
      if s.receiving.None? || n < past then Some(Crypto(Authentication))
      else if n >= 2000 || n > past + 1000 then Some(TooFarAhead)
      else None
    else if s.receiving.Some? && (header.previousChainLen > 2000 || header.previousChainLen > past + 1000) then Some(TooFarAhead)
    else if header.ratchet.LowOrder? then Some(Crypto(InvalidPublicKey))
    else if drawn.Err? then Some(Crypto(drawn.error))
    else if n > 1000 then Some(TooFarAhead)
    else None
  }

  /** A frame whose header is refused changes nothing, whatever its sealed part; any
      other opens or is an authentication failure that changes nothing. */
  lemma RefusalsExactly(s: State, sealed: SealedFrame, drawn: Result<PrivateKey, CryptoError>)
    requires Bounded(s)
    ensures var complaint, r := Complaint(s, sealed.header, drawn), Decrypt(s, sealed, drawn);
            if complaint.Some? then r == (s, Err(complaint.value))
            else r == (s, Err(Crypto(Authentication))) || (sealed.body.Box? && r.1 == Ok(sealed.body.plaintext))
  {
    MatchIsMembership(s.skipped, NameOf(sealed.header));
  }

  /** A frame the peer did not seal is refused by its header alone: for what the
      header is refused for, or as not authentic. */
  lemma ForgedOutcome(a: Attacker, w: World, p: Party, frame: SealedFrame, drawn: Result<PrivateKey, CryptoError>)
    requires Invariant(w) && Outsider(a, w.sk) && CanDeliver(a, w, frame)
    requires forall k :: 0 <= k < |w.log| && Owner(w.log[k].chain) == p.Peer() ==> w.log[k].frame != frame
    ensures var complaint := Complaint(w.Of(p), frame.header, drawn);
            Decrypt(w.Of(p), frame, drawn) ==
            (w.Of(p), Err(if complaint.Some? then complaint.value else Crypto(Authentication)))
  {
    assert Bounded(w.Of(p));
    ForgeriesAreRefused(a, w, p, frame, drawn);
    RefusalsExactly(w.Of(p), frame, drawn);
  }

  /** A low-order ratchet key is refused as an invalid public key, whatever is drawn
      and whatever is sealed, unless its header already asks for too many keys of
      the chain before; and nothing else is, if the generator does not say so. */
  lemma LowOrderKeysExactly(w: World, p: Party, frame: SealedFrame, drawn: Result<PrivateKey, CryptoError>)
    requires Invariant(w)
    ensures var g, r := w.Generation(p), Decrypt(w.Of(p), frame, drawn);
            && (frame.header.ratchet.LowOrder? ==>
                  r == (w.Of(p), Err(if g >= 2 && frame.header.previousChainLen > 2000 then TooFarAhead
                                     else if g >= 2 && frame.header.previousChainLen > Passed(w, p, g - 1) + 1000 then TooFarAhead
                                     else Crypto(InvalidPublicKey))))
            && (r.1 == Err(Crypto(InvalidPublicKey)) && drawn != Err(InvalidPublicKey) ==> frame.header.ratchet.LowOrder?)
  {
    assert Bounded(w.Of(p));
    RefusalsExactly(w.Of(p), frame, drawn);
    ReadsHonestKeys(w, p, frame.header);
  }

  /** What a session keeps and reads is under honest keys. */
  lemma ReadsHonestKeys(w: World, p: Party, header: RatchetHeader)
    requires LockStep(w)
    ensures header.ratchet.LowOrder? ==>
              !Retained(w, p, NameOf(header)) && w.Of(p).remoteRatchet != Some(header.ratchet)
    ensures w.Of(p).receiving.Some? <==> w.Generation(p) >= 2
    ensures w.Generation(p) >= 2 ==> w.Of(p).receiving.value.next == Passed(w, p, w.Generation(p) - 1)
  {
    assert InStep(w, p);
    if Retained(w, p, NameOf(header)) {
      RetainedWentPast(w, p, NameOf(header));
    }
  }
}

/**
 The session refines the reference ratchet: fed exactly the frames the session
 accepts, and drawing the same ratchet keys, the reference yields the same
 plaintexts and byte-identical frames, in every run.
*/
module Refinement {
  import opened Results
  import opened Terms
  import opened Attacker
  import opened Schedule
  import opened SkippedStore
  import opened RatchetSpec
  import opened SimpleRatchet
  import opened Conversation
  import opened LockStepProof
  import opened History
  import opened Runs

  /** A list that has yielded at least one message key, of a chain grown from a
      root key no deeper than `depth`. */
  ghost predicate IsLine(chain: seq<Key>, depth: nat) {
    && |chain| >= 2
    && chain[0].MessageOf? && chain[0].chain.ChainOf?
    && chain == Line(chain[0].chain, |chain| - 1)
    && Depth(chain[0].chain) <= depth
  }

  /** The reference party stands where the session stands: the same keys and
      counters, and every key the session can still use lies on the reference's
      list, unused. */
  ghost predicate Simulates(s: State, p: Simple) {
    SameKeys(s, p) && LinesInStep(s, p) && StoreOnLines(s, p) && ReceivingOnLine(s, p)
  }

  ghost predicate SameKeys(s: State, p: Simple) {
    && p.rootKey == s.rootKey && p.ownRatchet == s.ownRatchet && p.remoteRatchet == s.remoteRatchet
    && p.previousSendingLen == s.previousSendingLen
    && p.sending == (if s.sending.Some? then Some((s.sending.value.key, s.sending.value.next)) else None)
  }

  ghost predicate LinesInStep(s: State, p: Simple) {
    && (forall r :: r in p.receiving ==> IsLine(p.receiving[r], Depth(s.rootKey)))
    && (forall name :: name in p.used ==> name.0 in p.receiving)
  }

  ghost predicate OnLine(e: Skipped, p: Simple) {
    && e.ratchet in p.receiving && p.receiving[e.ratchet] != [] && p.receiving[e.ratchet][0].MessageOf?
    && e.key == MessageKey(p.receiving[e.ratchet][0].chain, e.number)
    && Name(e) !in p.used
  }

  ghost predicate OnLines(store: seq<Skipped>, p: Simple) {
    && (forall i :: 0 <= i < |store| ==> OnLine(store[i], p))
    && (forall i, k :: 0 <= i < k < |store| ==> Name(store[i]) != Name(store[k]))
  }

  ghost predicate StoreOnLines(s: State, p: Simple) {
    OnLines(s.skipped, p)
  }

  ghost predicate ReceivingOnLine(s: State, p: Simple) {
    if s.receiving.None? then s.remoteRatchet.Some? ==> s.remoteRatchet.value !in p.receiving
    else
      && s.remoteRatchet.Some? && s.remoteRatchet.value in p.receiving
      && var r, chain := s.remoteRatchet.value, s.receiving.value;
      && var line := p.receiving[r];
      && |line| == chain.next + 1 && chain.next >= 1 && line[chain.next] == chain.key
      && (forall name :: name in p.used && name.0 == r ==> name.1 < chain.next)
      && (forall i :: 0 <= i < |s.skipped| && s.skipped[i].ratchet == r ==> s.skipped[i].number < chain.next)
  }

  lemma StartsSimulate(sk: Key, remote: PublicKey, own: PrivateKey, labels: seq<PrivateKey>)
    ensures Simulates(Responder(sk, own), Create(sk, own, labels))
    ensures RatchetSpec.Initiator(sk, remote, own).Ok? <==> BeginSending(Create(sk, own, labels), remote).1.Ok?
    ensures RatchetSpec.Initiator(sk, remote, own).Ok? ==>
              Simulates(RatchetSpec.Initiator(sk, remote, own).value, BeginSending(Create(sk, own, labels), remote).0)
  {
  }

  /** Whatever the session seals, the reference seals byte for byte. */
  lemma EncryptSimulates(s: State, p: Simple, nonce: Nonce, plaintext: Plaintext)
    requires Simulates(s, p) && Encrypt(s, Ok(nonce), plaintext).1.Ok?
    ensures SimpleEncrypt(p, nonce, plaintext).1.Ok?
    ensures SimpleEncrypt(p, nonce, plaintext).1.value == Encrypt(s, Ok(nonce), plaintext).1.value
    ensures Simulates(Encrypt(s, Ok(nonce), plaintext).0, SimpleEncrypt(p, nonce, plaintext).0)
    ensures SimpleEncrypt(p, nonce, plaintext).0.receiving == p.receiving
  {
  }

  lemma GrownLine(chain: seq<Key>, depth: nat, number: nat)
    requires IsLine(chain, depth)
    ensures IsLine(Grown(chain, number), depth)
    ensures Grown(chain, number)[0] == chain[0]
    ensures Grown(chain, number)[number] == MessageKey(chain[0].chain, number)
    ensures |Grown(chain, number)| == if |chain| >= number + 2 then |chain| else number + 2
    ensures Grown(chain, number)[|Grown(chain, number)| - 1] == Advance(chain[0].chain, |Grown(chain, number)| - 1)
  {
    var start, last := chain[0].chain, |chain| - 1;
    var grown := Grown(chain, number);
    if last <= number {
      forall i | 0 <= i <= number + 1
        ensures grown[i] == if i <= number then MessageKey(start, i) else Advance(start, i)
      {
        if i >= last {
          AdvanceAdds(start, last, i - last);
        }
      }
      assert grown == Line(start, number + 1);
    }
  }

  lemma FreshLine(start: Key, number: nat)
    requires start.ChainOf?
    ensures IsLine(Grown([start], number), Depth(start))
    ensures Grown([start], number)[0] == MessageOf(start)
    ensures Grown([start], number)[number] == MessageKey(start, number)
    ensures |Grown([start], number)| == number + 2 && Grown([start], number)[number + 1] == Advance(start, number + 1)
  {
  }

  // ---------- One accepted frame ----------

  /** A stored key: the reference finds it on an old list. */
  lemma StoredSimulates(s: State, p: Simple, sealed: SealedFrame, plaintext: Plaintext, drawn: Result<PrivateKey, CryptoError>)
    returns (p': Simple)
    requires Simulates(s, p) && Decrypt(s, sealed, drawn).1 == Ok(plaintext)
    requires FirstMatch(s.skipped, NameOf(sealed.header)) < |s.skipped|
    ensures NoChainEmpty(p.receiving) && SimpleDecrypt(p, sealed) == (p', Ok(plaintext))
    ensures Simulates(Decrypt(s, sealed, drawn).0, p')
    ensures p'.receiving.Keys == p.receiving.Keys + {sealed.header.ratchet} && p'.labels == p.labels
  {
    var header := sealed.header;
    var index := FirstMatch(s.skipped, NameOf(header));
    var e := s.skipped[index];
    assert Name(e) == NameOf(header) && OnLine(e, p);
    p' := ReadsKnownLine(s, p, sealed, plaintext);
    var s' := Decrypt(s, sealed, drawn).0;
    ReadingKeepsLines(s, p, s', p', header);
    StoredKeepsStore(s, p, s', p', header, index);
    StoredKeepsReceiving(s, p, s', p', header, index);
  }

  /** What the reference's own state gains from one decryption on a known list. */
  ghost predicate ReadsOn(p: Simple, p': Simple, header: RatchetHeader) {
    && header.ratchet in p.receiving && p.receiving[header.ratchet] != []
    && p' == p.(receiving := p.receiving[header.ratchet := Grown(p.receiving[header.ratchet], header.messageNumber)],
                used := p.used + {NameOf(header)})
  }

  /** A frame of a list the reference has, under the key that list holds for it. */
  lemma ReadsKnownLine(s: State, p: Simple, sealed: SealedFrame, plaintext: Plaintext)
    returns (p': Simple)
    requires LinesInStep(s, p) && sealed.header.ratchet in p.receiving && NameOf(sealed.header) !in p.used
    requires IsLine(p.receiving[sealed.header.ratchet], Depth(s.rootKey))
    requires Open(MessageKey(p.receiving[sealed.header.ratchet][0].chain, sealed.header.messageNumber), sealed) == Ok(plaintext)
    ensures NoChainEmpty(p.receiving) && SimpleDecrypt(p, sealed) == (p', Ok(plaintext))
    ensures ReadsOn(p, p', sealed.header)
    ensures p'.receiving.Keys == p.receiving.Keys + {sealed.header.ratchet} && p'.labels == p.labels
  {
    GrownLine(p.receiving[sealed.header.ratchet], Depth(s.rootKey), sealed.header.messageNumber);
    p' := SimpleDecrypt(p, sealed).0;
  }

  lemma ReadingKeepsLines(s: State, p: Simple, s': State, p': Simple, header: RatchetHeader)
    requires LinesInStep(s, p) && ReadsOn(p, p', header) && s'.rootKey == s.rootKey
    ensures LinesInStep(s', p')
  {
    GrownLine(p.receiving[header.ratchet], Depth(s.rootKey), header.messageNumber);
  }

  lemma StoredKeepsStore(s: State, p: Simple, s': State, p': Simple, header: RatchetHeader, index: nat)
    requires Simulates(s, p) && ReadsOn(p, p', header) && index < |s.skipped| && Name(s.skipped[index]) == NameOf(header)
    requires s' == s.(skipped := Without(s.skipped, index))
    ensures StoreOnLines(s', p')
  {
    GrownLine(p.receiving[header.ratchet], Depth(s.rootKey), header.messageNumber);
    var t := s'.skipped;
    forall i | 0 <= i < |t|
      ensures t[i] == s.skipped[if i < index then i else i + 1] && OnLine(t[i], p')
    {
      assert OnLine(s.skipped[if i < index then i else i + 1], p);
    }
  }

  lemma StoredKeepsReceiving(s: State, p: Simple, s': State, p': Simple, header: RatchetHeader, index: nat)
    requires Simulates(s, p) && ReadsOn(p, p', header) && index < |s.skipped| && Name(s.skipped[index]) == NameOf(header)
    requires s' == s.(skipped := Without(s.skipped, index))
    ensures ReceivingOnLine(s', p')
  {
  }

  lemma {:induction false} SubsequenceKeepsNamesApart(t: seq<Skipped>, s: seq<Skipped>)
    requires Subsequence(t, s)
    requires forall i, k :: 0 <= i < k < |s| ==> Name(s[i]) != Name(s[k])
    ensures forall i, k :: 0 <= i < k < |t| ==> Name(t[i]) != Name(t[k])
    decreases |s|
  {
    if s != [] {
      var rest := s[1..];
      assert forall i :: 0 <= i < |rest| ==> rest[i] == s[i + 1];
      if Subsequence(t, rest) {
        SubsequenceKeepsNamesApart(t, rest);
      } else {
        var tail := t[1..];
        SubsequenceKeepsNamesApart(tail, rest);
        SubsequenceElements(tail, rest);
        forall i, k | 0 <= i < k < |t|
          ensures Name(t[i]) != Name(t[k])
        {
          assert t[k] == tail[k - 1] && tail[k - 1] in rest;
          if i > 0 {
            assert t[i] == tail[i - 1];
          }
        }
      }
    }
  }

  /** The keys skipped on a chain lie on its line, and stay there when the
      oldest are evicted. */
  lemma ExtendedOnLines(store: seq<Skipped>, p: Simple, r: PublicKey, start: Key, chain: Chain, until: U32)
    returns (t: seq<Skipped>)
    requires OnLines(store, p)
    requires r in p.receiving && p.receiving[r] != [] && p.receiving[r][0] == MessageOf(start)
    requires chain.key == Advance(start, chain.next)
    requires forall i :: 0 <= i < |store| && store[i].ratchet == r ==> store[i].number < chain.next
    requires forall n: nat :: chain.next <= n < until ==> (r, n) !in p.used
    ensures t == Extended(store, r, Labelled(r, SkippedBetween(chain, until)))
    ensures OnLines(t, p)
    ensures forall i :: 0 <= i < |t| && t[i].ratchet == r ==> t[i].number < chain.next || t[i].number < until
    ensures forall e :: e in t ==> e in store || e.ratchet == r
  {
    var added := Labelled(r, SkippedBetween(chain, until));
    var all := store + added;
    t := Extended(store, r, added);
    forall i | 0 <= i < |added|
      ensures OnLine(added[i], p)
    {
      AdvanceAdds(start, chain.next, i);
    }
    assert forall i :: 0 <= i < |all| ==> OnLine(all[i], p);
    forall i, k | 0 <= i < k < |all|
      ensures Name(all[i]) != Name(all[k])
    {
    }
    ExtendedIsSubsequence(store, r, added);
    SubsequenceKeepsNamesApart(t, all);
    SubsequenceElements(t, all);
    forall i | 0 <= i < |t|
      ensures exists k :: 0 <= k < |all| && all[k] == t[i]
    {
      assert t[i] in all;
    }
  }

  /** Where the session stands after a frame of its current chain. */
  ghost predicate MovesInChain(s: State, s': State, header: RatchetHeader, start: Key) {
    && s.remoteRatchet == Some(header.ratchet) && s.receiving.Some?
    && s.receiving.value.next <= header.messageNumber < CHAIN_LIMIT
    && s.receiving.value.key == Advance(start, s.receiving.value.next)
    && s' == s.(receiving := Some(Chain(Advance(start, header.messageNumber + 1), header.messageNumber + 1)),
                skipped := Extended(s.skipped, header.ratchet,
                                    Labelled(header.ratchet, SkippedBetween(s.receiving.value, header.messageNumber))))
  }

  lemma CurrentMoves(s: State, p: Simple, header: RatchetHeader, key: Key, s': State)
    returns (start: Key)
    requires Simulates(s, p) && s.remoteRatchet == Some(header.ratchet)
    requires InReceivingChain(s, header) == Ok(Opening(key, s'))
    ensures header.ratchet in p.receiving && IsLine(p.receiving[header.ratchet], Depth(s.rootKey))
    ensures p.receiving[header.ratchet][0] == MessageOf(start)
    ensures key == MessageKey(start, header.messageNumber) && MovesInChain(s, s', header, start)
    ensures NameOf(header) !in p.used
  {
    var chain, line := s.receiving.value, p.receiving[header.ratchet];
    assert IsLine(line, Depth(s.rootKey));
    start := line[0].chain;
    AdvanceAdds(start, chain.next, header.messageNumber - chain.next);
    AdvanceAdds(start, chain.next, header.messageNumber + 1 - chain.next);
  }

  /** The current chain: the reference grows its list to the same place. */
  lemma CurrentSimulates(s: State, p: Simple, sealed: SealedFrame, plaintext: Plaintext, drawn: Result<PrivateKey, CryptoError>)
    returns (p': Simple)
    requires Simulates(s, p) && Decrypt(s, sealed, drawn).1 == Ok(plaintext)
    requires FirstMatch(s.skipped, NameOf(sealed.header)) == |s.skipped|
    requires s.remoteRatchet == Some(sealed.header.ratchet)
    ensures NoChainEmpty(p.receiving) && SimpleDecrypt(p, sealed) == (p', Ok(plaintext))
    ensures Simulates(Decrypt(s, sealed, drawn).0, p')
    ensures p'.receiving.Keys == p.receiving.Keys + {sealed.header.ratchet} && p'.labels == p.labels
  {
    var header := sealed.header;
    var opening := InReceivingChain(s, header).value;
    var start := CurrentMoves(s, p, header, opening.key, opening.next);
    p' := ReadsKnownLine(s, p, sealed, plaintext);
    CurrentStays(s, p, opening.next, p', header, start);
  }

  lemma CurrentStays(s: State, p: Simple, s': State, p': Simple, header: RatchetHeader, start: Key)
    requires Simulates(s, p) && ReadsOn(p, p', header) && MovesInChain(s, s', header, start)
    requires p.receiving[header.ratchet][0] == MessageOf(start)
    ensures Simulates(s', p')
  {
    CurrentKeepsLines(s, p, s', p', header, start);
    CurrentKeepsStore(s, p, p', header, start);
    CurrentKeepsReceiving(s, p, s', p', header, start);
    CurrentKeepsKeys(s, p, s', p', header, start);
  }

  lemma CurrentKeepsKeys(s: State, p: Simple, s': State, p': Simple, header: RatchetHeader, start: Key)
    requires SameKeys(s, p) && ReadsOn(p, p', header) && MovesInChain(s, s', header, start)
    ensures SameKeys(s', p')
  {
  }

  lemma CurrentKeepsReceiving(s: State, p: Simple, s': State, p': Simple, header: RatchetHeader, start: Key)
    requires ReceivingOnLine(s, p) && ReadsOn(p, p', header) && MovesInChain(s, s', header, start)
    requires var line, number := p'.receiving[header.ratchet], header.messageNumber;
             |line| == number + 2 && line[number + 1] == Advance(start, number + 1)
    requires forall i :: 0 <= i < |s'.skipped| && s'.skipped[i].ratchet == header.ratchet ==>
               s'.skipped[i].number < header.messageNumber + 1
    ensures ReceivingOnLine(s', p')
  {
  }

  lemma CurrentKeepsLines(s: State, p: Simple, s': State, p': Simple, header: RatchetHeader, start: Key)
    requires LinesInStep(s, p) && ReceivingOnLine(s, p) && ReadsOn(p, p', header) && MovesInChain(s, s', header, start)
    requires p.receiving[header.ratchet][0] == MessageOf(start)
    ensures LinesInStep(s', p')
    ensures var line, number := p'.receiving[header.ratchet], header.messageNumber;
            |line| == number + 2 && line[number + 1] == Advance(start, number + 1)
  {
    ReadingKeepsLines(s, p, s', p', header);
    GrownLine(p.receiving[header.ratchet], Depth(s.rootKey), header.messageNumber);
  }

  lemma CurrentKeepsStore(s: State, p: Simple, p': Simple, header: RatchetHeader, start: Key)
    requires Simulates(s, p) && ReadsOn(p, p', header)
    requires s.remoteRatchet == Some(header.ratchet) && s.receiving.Some?
    requires s.receiving.value.next <= header.messageNumber
    requires p.receiving[header.ratchet][0] == MessageOf(start)
    requires s.receiving.value.key == Advance(start, s.receiving.value.next)
    ensures var t := Extended(s.skipped, header.ratchet,
                              Labelled(header.ratchet, SkippedBetween(s.receiving.value, header.messageNumber)));
            && OnLines(t, p')
            && forall i :: 0 <= i < |t| && t[i].ratchet == header.ratchet ==> t[i].number < header.messageNumber + 1
  {
    GrownLine(p.receiving[header.ratchet], Depth(s.rootKey), header.messageNumber);
    forall i | 0 <= i < |s.skipped|
      ensures OnLine(s.skipped[i], p')
    {
      assert OnLine(s.skipped[i], p);
    }
    var t := ExtendedOnLines(s.skipped, p', header.ratchet, start, s.receiving.value, header.messageNumber);
  }

  /** Where the session stands after a ratchet step; `shared` is the secret of
      its old key with the new remote key, `shared'` that of the key drawn. */
  ghost predicate MovesToNext(s: State, s': State, header: RatchetHeader, shared: Shared, shared': Shared) {
    var middle, start := RootOf(s.rootKey, shared), ChainOf(s.rootKey, shared);
    && header.messageNumber < CHAIN_LIMIT
    && DiffieHellman(s.ownRatchet, header.ratchet) == Ok(shared)
    && DiffieHellman(s'.ownRatchet, header.ratchet) == Ok(shared')
    && s'.rootKey == RootOf(middle, shared')
    && s'.remoteRatchet == Some(header.ratchet)
    && s'.sending == Some(Chain(ChainOf(middle, shared'), 0))
    && s'.receiving == Some(Chain(Advance(start, header.messageNumber + 1), header.messageNumber + 1))
    && s'.previousSendingLen == (if s.sending.Some? then s.sending.value.next else 0)
    && s'.skipped == Extended(StoredFromPrevious(s, header.previousChainLen), header.ratchet,
                              Labelled(header.ratchet, SkippedBetween(Chain(start, 0), header.messageNumber)))
  }

  lemma NextMoves(s: State, header: RatchetHeader, drawn: Result<PrivateKey, CryptoError>, key: Key, s': State)
    returns (shared: Shared, shared': Shared)
    requires AfterRatchetStep(s, header, drawn) == Ok(Opening(key, s'))
    ensures MovesToNext(s, s', header, shared, shared')
    ensures key == MessageKey(ChainOf(s.rootKey, shared), header.messageNumber)
    ensures drawn == Ok(s'.ownRatchet)
  {
    shared := DiffieHellman(s.ownRatchet, header.ratchet).value;
    shared' := DiffieHellman(s'.ownRatchet, header.ratchet).value;
  }

  /** Keys the session skips in its previous chain lie on that chain's line. */
  lemma PreviousOnLines(s: State, p: Simple, p': Simple, header: RatchetHeader)
    returns (stored: seq<Skipped>)
    requires Simulates(s, p) && header.ratchet !in p.receiving
    requires p'.used == p.used + {NameOf(header)}
    requires forall r :: r in p.receiving ==> r in p'.receiving && p'.receiving[r] == p.receiving[r]
    ensures stored == StoredFromPrevious(s, header.previousChainLen)
    ensures OnLines(stored, p')
    ensures forall i :: 0 <= i < |stored| ==> stored[i].ratchet != header.ratchet
  {
    forall i | 0 <= i < |s.skipped|
      ensures OnLine(s.skipped[i], p') && s.skipped[i].ratchet in p.receiving
    {
      assert OnLine(s.skipped[i], p);
    }
    stored := StoredFromPrevious(s, header.previousChainLen);
    if s.receiving.Some? {
      var r := s.remoteRatchet.value;
      var line := p.receiving[r];
      assert IsLine(line, Depth(s.rootKey));
      stored := ExtendedOnLines(s.skipped, p', r, line[0].chain, s.receiving.value, header.previousChainLen);
      forall i | 0 <= i < |stored|
        ensures stored[i].ratchet != header.ratchet
      {
        assert stored[i] in stored;
      }
    }
  }

  /** The next chain: both take a ratchet step and open a new line. */
  lemma NextSimulates(s: State, p: Simple, sealed: SealedFrame, plaintext: Plaintext,
                      drawn: Result<PrivateKey, CryptoError>, key: Key, s': State)
    returns (p': Simple)
    requires Simulates(s, p) && AfterRatchetStep(s, sealed.header, drawn) == Ok(Opening(key, s'))
    requires Open(key, sealed) == Ok(plaintext)
    requires sealed.header.ratchet !in p.receiving
    requires p.labels != [] && p.labels[0] == s'.ownRatchet
    ensures NoChainEmpty(p.receiving) && SimpleDecrypt(p, sealed) == (p', Ok(plaintext))
    ensures Simulates(s', p')
    ensures p'.receiving.Keys == p.receiving.Keys + {sealed.header.ratchet} && p'.labels == p.labels[1..]
  {
    var shared, shared' := NextMoves(s, sealed.header, drawn, key, s');
    p' := MovedSimulates(s, p, s', sealed, plaintext, shared, shared');
  }

  lemma MovedSimulates(s: State, p: Simple, s': State, sealed: SealedFrame, plaintext: Plaintext, shared: Shared, shared': Shared)
    returns (p': Simple)
    requires Simulates(s, p) && MovesToNext(s, s', sealed.header, shared, shared')
    requires Open(MessageKey(ChainOf(s.rootKey, shared), sealed.header.messageNumber), sealed) == Ok(plaintext)
    requires sealed.header.ratchet !in p.receiving && p.labels != [] && p.labels[0] == s'.ownRatchet
    ensures NoChainEmpty(p.receiving) && SimpleDecrypt(p, sealed) == (p', Ok(plaintext))
    ensures Simulates(s', p')
    ensures p'.receiving.Keys == p.receiving.Keys + {sealed.header.ratchet} && p'.labels == p.labels[1..]
  {
    p' := StepsTo(p, sealed.header, s', shared);
    StepReads(s, p, s', sealed, shared, shared', plaintext);
    NextStays(s, p, s', p', sealed.header, shared, shared');
  }

  /** The reference's state after a ratchet step and one decryption. */
  ghost function StepsOn(p: Simple, header: RatchetHeader, s': State, shared: Shared): Simple
    requires p.labels != [] && s'.sending.Some?
  {
    Simple(s'.rootKey, p.labels[0], p.labels[1..], Some(header.ratchet),
           Some((s'.sending.value.key, 0)), if p.sending.Some? then p.sending.value.1 else 0,
           p.receiving[header.ratchet := Grown([ChainOf(p.rootKey, shared)], header.messageNumber)],
           p.used + {NameOf(header)})
  }

  lemma StepsTo(p: Simple, header: RatchetHeader, s': State, shared: Shared)
    returns (p': Simple)
    requires p.labels != [] && s'.sending.Some?
    ensures p' == StepsOn(p, header, s', shared)
    ensures p'.receiving.Keys == p.receiving.Keys + {header.ratchet} && p'.labels == p.labels[1..]
  {
    p' := StepsOn(p, header, s', shared);
  }

  lemma StepSteps(s: State, p: Simple, s': State, header: RatchetHeader, shared: Shared, shared': Shared)
    requires Simulates(s, p) && MovesToNext(s, s', header, shared, shared')
    requires p.labels != [] && p.labels[0] == s'.ownRatchet
    ensures RatchetStep(p, header.ratchet) ==
            (Simple(s'.rootKey, p.labels[0], p.labels[1..], Some(header.ratchet),
                    Some((s'.sending.value.key, 0)), if p.sending.Some? then p.sending.value.1 else 0,
                    p.receiving[header.ratchet := [ChainOf(p.rootKey, shared)]], p.used), Ok(()))
  {
  }

  lemma StepReads(s: State, p: Simple, s': State, sealed: SealedFrame, shared: Shared, shared': Shared, plaintext: Plaintext)
    requires Simulates(s, p) && MovesToNext(s, s', sealed.header, shared, shared')
    requires sealed.header.ratchet !in p.receiving && p.labels != [] && p.labels[0] == s'.ownRatchet
    requires Open(MessageKey(ChainOf(s.rootKey, shared), sealed.header.messageNumber), sealed) == Ok(plaintext)
    ensures NoChainEmpty(p.receiving)
    ensures SimpleDecrypt(p, sealed) == (StepsOn(p, sealed.header, s', shared), Ok(plaintext))
  {
    var r, number := sealed.header.ratchet, sealed.header.messageNumber;
    StepSteps(s, p, s', sealed.header, shared, shared');
    assert NameOf(sealed.header) !in p.used;
    ReadsNewChain(RatchetStep(p, r).0, sealed, ChainOf(s.rootKey, shared), plaintext);
    UpdateTwice(p.receiving, r, [ChainOf(s.rootKey, shared)], Grown([ChainOf(s.rootKey, shared)], number));
    assert NoChainEmpty(p.receiving);
  }

  lemma UpdateTwice<K, V>(m: map<K, V>, k: K, x: V, y: V)
    ensures m[k := x][k := y] == m[k := y]
  {
  }

  lemma ReadsNewChain(stepped: Simple, sealed: SealedFrame, start: Key, plaintext: Plaintext)
    requires sealed.header.ratchet in stepped.receiving && stepped.receiving[sealed.header.ratchet] == [start]
    requires NameOf(sealed.header) !in stepped.used && start.ChainOf?
    requires Open(MessageKey(start, sealed.header.messageNumber), sealed) == Ok(plaintext)
    ensures var grown := Grown([start], sealed.header.messageNumber);
            ReadChain(stepped, sealed) ==
            (stepped.(receiving := stepped.receiving[sealed.header.ratchet := grown],
                      used := stepped.used + {NameOf(sealed.header)}), Ok(plaintext))
  {
    FreshLine(start, sealed.header.messageNumber);
  }

  lemma NextStays(s: State, p: Simple, s': State, p': Simple, header: RatchetHeader, shared: Shared, shared': Shared)
    requires Simulates(s, p) && MovesToNext(s, s', header, shared, shared')
    requires header.ratchet !in p.receiving && p.labels != [] && p.labels[0] == s'.ownRatchet
    requires p' == StepsOn(p, header, s', shared)
    ensures Simulates(s', p')
  {
    NextKeys(s, p, s', p', header, shared, shared');
    var stored := PreviousOnLines(s, p, p', header);
    NextUsed(s, p, p', header);
    FreshLine(ChainOf(s.rootKey, shared), header.messageNumber);
    assert p'.receiving[header.ratchet] == Grown([ChainOf(s.rootKey, shared)], header.messageNumber);
    NextAssembles(s, p, s', p', header, shared, shared', stored, p'.receiving[header.ratchet]);
  }

  lemma NextAssembles(s: State, p: Simple, s': State, p': Simple, header: RatchetHeader, shared: Shared, shared': Shared,
                      stored: seq<Skipped>, line: seq<Key>)
    requires LinesInStep(s, p) && MovesToNext(s, s', header, shared, shared')
    requires SameKeys(s', p') && Depth(s'.rootKey) == Depth(s.rootKey) + 2
    requires p'.receiving == p.receiving[header.ratchet := line] && p'.used == p.used + {NameOf(header)}
    requires forall name :: name in p'.used && name.0 == header.ratchet ==> name.1 == header.messageNumber
    requires stored == StoredFromPrevious(s, header.previousChainLen)
    requires OnLines(stored, p') && forall i :: 0 <= i < |stored| ==> stored[i].ratchet != header.ratchet
    requires var start := ChainOf(s.rootKey, shared);
             && IsLine(line, Depth(start)) && line[0] == MessageOf(start) && |line| == header.messageNumber + 2
             && line[header.messageNumber + 1] == Advance(start, header.messageNumber + 1)
    ensures Simulates(s', p')
  {
    NextParts(s, p, s', p', header, ChainOf(s.rootKey, shared), stored, line);
  }

  lemma NextKeys(s: State, p: Simple, s': State, p': Simple, header: RatchetHeader, shared: Shared, shared': Shared)
    requires SameKeys(s, p) && MovesToNext(s, s', header, shared, shared')
    requires p.labels != [] && p.labels[0] == s'.ownRatchet && p' == StepsOn(p, header, s', shared)
    ensures SameKeys(s', p') && Depth(s'.rootKey) == Depth(s.rootKey) + 2
  {
  }

  lemma NextParts(s: State, p: Simple, s': State, p': Simple, header: RatchetHeader, start: Key,
                  stored: seq<Skipped>, line: seq<Key>)
    requires LinesInStep(s, p) && SameKeys(s', p') && header.messageNumber < CHAIN_LIMIT
    requires IsLine(line, Depth(s.rootKey) + 1) && Depth(s'.rootKey) == Depth(s.rootKey) + 2
    requires line[0] == MessageOf(start) && |line| == header.messageNumber + 2
    requires line[header.messageNumber + 1] == Advance(start, header.messageNumber + 1)
    requires p'.receiving == p.receiving[header.ratchet := line] && p'.used == p.used + {NameOf(header)}
    requires forall name :: name in p'.used && name.0 == header.ratchet ==> name.1 == header.messageNumber
    requires s'.remoteRatchet == Some(header.ratchet)
    requires s'.receiving == Some(Chain(Advance(start, header.messageNumber + 1), header.messageNumber + 1))
    requires OnLines(stored, p') && forall i :: 0 <= i < |stored| ==> stored[i].ratchet != header.ratchet
    requires s'.skipped == Extended(stored, header.ratchet,
                                    Labelled(header.ratchet, SkippedBetween(Chain(start, 0), header.messageNumber)))
    ensures Simulates(s', p')
  {
    NextLines(s, p, s', p', header, line);
    NextStore(s', p', header, start, stored);
    NextReceiving(s', p', header, start, line);
  }

  lemma NextUsed(s: State, p: Simple, p': Simple, header: RatchetHeader)
    requires Simulates(s, p) && header.ratchet !in p.receiving && p'.used == p.used + {NameOf(header)}
    ensures forall name :: name in p'.used && name.0 == header.ratchet ==> name.1 == header.messageNumber
  {
  }

  lemma NextLines(s: State, p: Simple, s': State, p': Simple, header: RatchetHeader, line: seq<Key>)
    requires LinesInStep(s, p) && IsLine(line, Depth(s.rootKey) + 1) && Depth(s'.rootKey) == Depth(s.rootKey) + 2
    requires p'.receiving == p.receiving[header.ratchet := line] && p'.used == p.used + {NameOf(header)}
    ensures LinesInStep(s', p')
  {
  }

  lemma NextStore(s': State, p': Simple, header: RatchetHeader, start: Key, stored: seq<Skipped>)
    requires OnLines(stored, p')
    requires forall i :: 0 <= i < |stored| ==> stored[i].ratchet != header.ratchet
    requires header.ratchet in p'.receiving && p'.receiving[header.ratchet] != []
    requires p'.receiving[header.ratchet][0] == MessageOf(start)
    requires forall name :: name in p'.used && name.0 == header.ratchet ==> name.1 >= header.messageNumber
    requires s'.skipped == Extended(stored, header.ratchet,
                                    Labelled(header.ratchet, SkippedBetween(Chain(start, 0), header.messageNumber)))
    ensures StoreOnLines(s', p')
    ensures forall i :: 0 <= i < |s'.skipped| && s'.skipped[i].ratchet == header.ratchet ==>
              s'.skipped[i].number < header.messageNumber
  {
    var t := ExtendedOnLines(stored, p', header.ratchet, start, Chain(start, 0), header.messageNumber);
  }

  lemma NextReceiving(s': State, p': Simple, header: RatchetHeader, start: Key, line: seq<Key>)
    requires header.messageNumber < CHAIN_LIMIT
    requires s'.remoteRatchet == Some(header.ratchet)
    requires s'.receiving == Some(Chain(Advance(start, header.messageNumber + 1), header.messageNumber + 1))
    requires header.ratchet in p'.receiving && p'.receiving[header.ratchet] == line
    requires |line| == header.messageNumber + 2
    requires line[header.messageNumber + 1] == Advance(start, header.messageNumber + 1)
    requires forall name :: name in p'.used && name.0 == header.ratchet ==> name.1 == header.messageNumber
    requires forall i :: 0 <= i < |s'.skipped| && s'.skipped[i].ratchet == header.ratchet ==>
               s'.skipped[i].number < header.messageNumber
    ensures ReceivingOnLine(s', p')
  {
  }

  /** The label the reference needs for a frame: the key the session drew. */
  function LabelsFor(s: State, sealed: SealedFrame, drawn: Result<PrivateKey, CryptoError>): seq<PrivateKey> {
    if OpensNewChain(s, sealed.header) then [Decrypt(s, sealed, drawn).0.ownRatchet] else []
  }

  /** One accepted frame, from any peer: the reference accepts it too, to the
      same plaintext, as long as a ratchet step meets a ratchet key it has not
      read before. */
  lemma AcceptSimulates(s: State, p: Simple, sealed: SealedFrame, plaintext: Plaintext, drawn: Result<PrivateKey, CryptoError>)
    returns (p': Simple)
    requires Simulates(s, p) && Decrypt(s, sealed, drawn).1 == Ok(plaintext)
    requires OpensNewChain(s, sealed.header) ==> sealed.header.ratchet !in p.receiving
    ensures NoChainEmpty(p.receiving)
    ensures SimpleDecrypt(p.(labels := LabelsFor(s, sealed, drawn)), sealed) == (p', Ok(plaintext))
    ensures Simulates(Decrypt(s, sealed, drawn).0, p')
    ensures p'.receiving.Keys == p.receiving.Keys + {sealed.header.ratchet} && p'.labels == []
  {
    var q := p.(labels := LabelsFor(s, sealed, drawn));
    LabelsDoNotMatter(s, p, q);
    if OpensNewChain(s, sealed.header) {
      p' := AcceptNext(s, q, sealed, plaintext, drawn);
    } else {
      p' := AcceptKnown(s, q, sealed, plaintext, drawn);
    }
  }

  lemma AcceptNext(s: State, q: Simple, sealed: SealedFrame, plaintext: Plaintext, drawn: Result<PrivateKey, CryptoError>)
    returns (p': Simple)
    requires Simulates(s, q) && Decrypt(s, sealed, drawn).1 == Ok(plaintext)
    requires OpensNewChain(s, sealed.header) && sealed.header.ratchet !in q.receiving
    requires q.labels == [Decrypt(s, sealed, drawn).0.ownRatchet]
    ensures NoChainEmpty(q.receiving) && SimpleDecrypt(q, sealed) == (p', Ok(plaintext))
    ensures Simulates(Decrypt(s, sealed, drawn).0, p')
    ensures p'.receiving.Keys == q.receiving.Keys + {sealed.header.ratchet} && p'.labels == []
  {
    var key, s' := OpenedByNextChain(s, sealed, plaintext, drawn);
    p' := NextSimulates(s, q, sealed, plaintext, drawn, key, s');
  }

  lemma AcceptKnown(s: State, q: Simple, sealed: SealedFrame, plaintext: Plaintext, drawn: Result<PrivateKey, CryptoError>)
    returns (p': Simple)
    requires Simulates(s, q) && Decrypt(s, sealed, drawn).1 == Ok(plaintext)
    requires !OpensNewChain(s, sealed.header) && q.labels == []
    ensures NoChainEmpty(q.receiving) && SimpleDecrypt(q, sealed) == (p', Ok(plaintext))
    ensures Simulates(Decrypt(s, sealed, drawn).0, p')
    ensures p'.receiving.Keys == q.receiving.Keys + {sealed.header.ratchet} && p'.labels == []
  {
    if FirstMatch(s.skipped, NameOf(sealed.header)) < |s.skipped| {
      p' := StoredSimulates(s, q, sealed, plaintext, drawn);
    } else {
      p' := CurrentSimulates(s, q, sealed, plaintext, drawn);
    }
  }

  lemma LabelsDoNotMatter(s: State, p: Simple, q: Simple)
    requires Simulates(s, p) && q == p.(labels := q.labels)
    ensures Simulates(s, q)
  {
  }

  lemma OpenedByNextChain(s: State, sealed: SealedFrame, plaintext: Plaintext, drawn: Result<PrivateKey, CryptoError>)
    returns (key: Key, s': State)
    requires Decrypt(s, sealed, drawn).1 == Ok(plaintext) && OpensNewChain(s, sealed.header)
    ensures s' == Decrypt(s, sealed, drawn).0 && AfterRatchetStep(s, sealed.header, drawn) == Ok(Opening(key, s'))
    ensures Open(key, sealed) == Ok(plaintext)
  {
    key, s' := AfterRatchetStep(s, sealed.header, drawn).value.key, AfterRatchetStep(s, sealed.header, drawn).value.next;
  }

  /** The condition is exact: when a frame makes the session take a ratchet step
      on a key the reference has already read, which only a peer that reuses its
      ratchet keys can bring about, the reference never opens it. */
  lemma ReusedKeysDiverge(s: State, p: Simple, sealed: SealedFrame, plaintext: Plaintext, drawn: Result<PrivateKey, CryptoError>)
    requires Simulates(s, p) && Decrypt(s, sealed, drawn).1 == Ok(plaintext)
    requires OpensNewChain(s, sealed.header) && sealed.header.ratchet in p.receiving
    ensures NoChainEmpty(p.receiving)
    ensures SimpleDecrypt(p, sealed).1.Err?
    ensures SimpleDecrypt(p.(labels := LabelsFor(s, sealed, drawn)), sealed).1.Err?
  {
    var header := sealed.header;
    var opening := AfterRatchetStep(s, header, drawn).value;
    var shared, _ := NextMoves(s, header, drawn, opening.key, opening.next);
    var line := p.receiving[header.ratchet];
    assert IsLine(line, Depth(s.rootKey));
    GrownLine(line, Depth(s.rootKey), header.messageNumber);
    AdvanceIsInjective(line[0].chain, header.messageNumber, ChainOf(s.rootKey, shared), header.messageNumber);
    ReadsOldChain(p, sealed, opening.key);
    ReadsOldChain(p.(labels := LabelsFor(s, sealed, drawn)), sealed, opening.key);
  }

  lemma ReadsOldChain(p: Simple, sealed: SealedFrame, key: Key)
    requires sealed.header.ratchet in p.receiving && p.receiving[sealed.header.ratchet] != []
    requires Open(key, sealed).Ok?
    requires Grown(p.receiving[sealed.header.ratchet], sealed.header.messageNumber)[sealed.header.messageNumber] != key
    ensures ReadChain(p, sealed).1.Err?
  {
  }

  /** The first frame of a chain the peer opens with ratchet key `remote`. */
  function OpeningFrame(s: State, remote: PrivateKey, previousLen: U32, nonce: Nonce, plaintext: Plaintext): SealedFrame {
    var chain := ChainOf(s.rootKey, SharedBetween(s.ownRatchet.point, remote.point));
    Seal(MessageKey(chain, 0), nonce, Header(Pub(remote), previousLen, 0), plaintext)
  }

  /** A session with an empty store, whose receiving chain has yielded what its
      peer says it sealed. */
  ghost predicate ReadEverything(s: State, previousLen: U32) {
    s.skipped == [] && previousLen <= CHAIN_LIMIT && (s.receiving.Some? ==> s.receiving.value.next == previousLen)
  }

  lemma OpeningFrameOpens(s: State, remote: PrivateKey, previousLen: U32, drawn: PrivateKey, nonce: Nonce, plaintext: Plaintext)
    returns (s': State)
    requires ReadEverything(s, previousLen) && s.remoteRatchet != Some(Pub(remote))
    ensures Decrypt(s, OpeningFrame(s, remote, previousLen, nonce, plaintext), Ok(drawn)) == (s', Ok(plaintext))
    ensures ReadEverything(s', 1) && s'.remoteRatchet == Some(Pub(remote)) && s'.ownRatchet == drawn
  {
    s' := Decrypt(s, OpeningFrame(s, remote, previousLen, nonce, plaintext), Ok(drawn)).0;
  }

  /** Session and reference open such a frame alike, if its ratchet key is new to
      the reference. */
  lemma BothOpen(s: State, p: Simple, remote: PrivateKey, previousLen: U32, nonce: Nonce, plaintext: Plaintext)
    returns (frame: SealedFrame, s': State, p': Simple)
    requires Simulates(s, p) && ReadEverything(s, previousLen) && s.remoteRatchet != Some(Pub(remote))
    requires p.labels != [] && Pub(remote) !in p.receiving
    ensures NoChainEmpty(p.receiving)
    ensures frame.header.ratchet == Pub(remote)
    ensures Decrypt(s, frame, Ok(p.labels[0])) == (s', Ok(plaintext))
    ensures SimpleDecrypt(p, frame) == (p', Ok(plaintext))
    ensures Simulates(s', p') && ReadEverything(s', 1) && s'.remoteRatchet == Some(Pub(remote))
    ensures p'.receiving.Keys == p.receiving.Keys + {Pub(remote)} && p'.labels == p.labels[1..]
  {
    frame := OpeningFrame(s, remote, previousLen, nonce, plaintext);
    s' := OpeningFrameOpens(s, remote, previousLen, p.labels[0], nonce, plaintext);
    var key, _ := OpenedByNextChain(s, frame, plaintext, Ok(p.labels[0]));
    p' := NextSimulates(s, p, frame, plaintext, Ok(p.labels[0]), key, s');
  }

  /** Such peers make them part: session and reference start alike and read a frame
      under one ratchet key and a frame under another; then the session opens a
      frame under the first key again, and the reference fails. */
  lemma ReusedKeysCanDiverge(sk: Key, own: PrivateKey, labels: seq<PrivateKey>, one: PrivateKey, other: PrivateKey,
                             nonce: Nonce, plaintext: Plaintext)
    returns (f0: SealedFrame, s1: State, p1: Simple, f1: SealedFrame, s2: State, p2: Simple, f2: SealedFrame)
    requires |labels| == 3 && one != other
    ensures f0.header.ratchet == f2.header.ratchet == Pub(one) && f1.header.ratchet == Pub(other)
    ensures Decrypt(Responder(sk, own), f0, Ok(labels[0])) == (s1, Ok(plaintext))
    ensures SimpleDecrypt(Create(sk, own, labels), f0) == (p1, Ok(plaintext))
    ensures Decrypt(s1, f1, Ok(labels[1])) == (s2, Ok(plaintext))
    ensures NoChainEmpty(p1.receiving) && SimpleDecrypt(p1, f1) == (p2, Ok(plaintext))
    ensures Decrypt(s2, f2, Ok(labels[2])).1 == Ok(plaintext)
    ensures NoChainEmpty(p2.receiving) && SimpleDecrypt(p2, f2).1.Err?
  {
    StartsSimulate(sk, Pub(one), own, labels);
    f0, s1, p1, f1, s2, p2 := BothOpenTwo(Responder(sk, own), Create(sk, own, labels), one, other, nonce, plaintext);
    f2 := OldKeyDiverges(s2, p2, one, labels[2], nonce, plaintext);
  }

  lemma BothOpenTwo(s: State, p: Simple, one: PrivateKey, other: PrivateKey, nonce: Nonce, plaintext: Plaintext)
    returns (f0: SealedFrame, s1: State, p1: Simple, f1: SealedFrame, s2: State, p2: Simple)
    requires Simulates(s, p) && ReadEverything(s, 0) && s.remoteRatchet.None? && p.receiving == map[]
    requires |p.labels| == 3 && one != other
    ensures f0.header.ratchet == Pub(one) && f1.header.ratchet == Pub(other)
    ensures Decrypt(s, f0, Ok(p.labels[0])) == (s1, Ok(plaintext)) && SimpleDecrypt(p, f0) == (p1, Ok(plaintext))
    ensures NoChainEmpty(p1.receiving)
    ensures Decrypt(s1, f1, Ok(p.labels[1])) == (s2, Ok(plaintext)) && SimpleDecrypt(p1, f1) == (p2, Ok(plaintext))
    ensures Simulates(s2, p2) && ReadEverything(s2, 1)
    ensures s2.remoteRatchet == Some(Pub(other)) && Pub(one) in p2.receiving
  {
    f0, s1, p1 := BothOpen(s, p, one, 0, nonce, plaintext);
    f1, s2, p2 := BothOpen(s1, p1, other, 1, nonce, plaintext);
  }

  lemma OldKeyDiverges(s: State, p: Simple, remote: PrivateKey, drawn: PrivateKey, nonce: Nonce, plaintext: Plaintext)
    returns (frame: SealedFrame)
    requires Simulates(s, p) && ReadEverything(s, 1) && s.remoteRatchet != Some(Pub(remote)) && Pub(remote) in p.receiving
    ensures frame.header.ratchet == Pub(remote) && Decrypt(s, frame, Ok(drawn)).1 == Ok(plaintext)
    ensures NoChainEmpty(p.receiving) && SimpleDecrypt(p, frame).1.Err?
  {
    frame := OpeningFrame(s, remote, 1, nonce, plaintext);
    var _ := OpeningFrameOpens(s, remote, 1, drawn, nonce, plaintext);
    ReusedKeysDiverge(s, p, frame, plaintext, Ok(drawn));
  }

  // ---------- Whole conversations ----------

  /** Two reference parties beside a conversation, with everything they output. */
  datatype Shadow = Shadow(
    alice: Simple,
    bob: Simple,
    sealed: seq<Result<SealedFrame, Failure>>,
    read: seq<Result<Plaintext, Failure>>)
  {
    function Of(p: Party): Simple {
      if p.Alice? then alice else bob
    }

    function With(p: Party, s: Simple): Shadow {
      if p.Alice? then this.(alice := s) else this.(bob := s)
    }

    ghost predicate Usable() {
      NoChainEmpty(alice.receiving) && NoChainEmpty(bob.receiving)
    }
  }

  function StartShadow(sk: Key, prekey: PrivateKey, first: PrivateKey): Shadow {
    Shadow(BeginSending(Create(sk, first, []), Pub(prekey)).0, Create(sk, prekey, []), [], [])
  }

  /** The reference parties are fed exactly what the sessions accepted. */
  function ShadowStep(w: World, shadow: Shadow, action: Action): Shadow
    requires shadow.Usable()
  {
    match action
    case Send(from, nonce, plaintext) =>
      if Encrypt(w.Of(from), nonce, plaintext).1.Err? || nonce.Err? then shadow
      else
        var (p, r) := SimpleEncrypt(shadow.Of(from), nonce.value, plaintext);
        shadow.With(from, p).(sealed := shadow.sealed + [r])
    case Deliver(to, frame, drawn) =>
      if Decrypt(w.Of(to), frame, drawn).1.Err? then shadow
      else
        var (p, r) := SimpleDecrypt(shadow.Of(to).(labels := LabelsFor(w.Of(to), frame, drawn)), frame);
        shadow.With(to, p).(read := shadow.read + [r])
  }

  ghost predicate ReadsKnownChains(w: World, shadow: Shadow, p: Party)
    requires w.Shape()
  {
    forall r :: r in shadow.Of(p).receiving ==> 0 < IndexOf(w.keys, r) < w.Generation(p)
  }

  /** The reference parties stand where the sessions stand, and have output the
      same frames and plaintexts. */
  ghost predicate SameConversation(w: World, shadow: Shadow)
    requires w.Shape()
  {
    SameParties(w, shadow) && SameOutputs(w, shadow)
  }

  ghost predicate SameParties(w: World, shadow: Shadow)
    requires w.Shape()
  {
    shadow.Usable() && forall p :: Simulates(w.Of(p), shadow.Of(p)) && ReadsKnownChains(w, shadow, p)
  }

  ghost predicate SameOutputs(w: World, shadow: Shadow) {
    && |shadow.sealed| == |w.log| && (forall k :: 0 <= k < |w.log| ==> shadow.sealed[k] == Ok(w.log[k].frame))
    && |shadow.read| == |w.accepted|
    && (forall k :: 0 <= k < |w.accepted| ==> shadow.read[k] == Ok(w.accepted[k].plaintext))
  }

  lemma StartsTheSame(sk: Key, prekey: PrivateKey, first: PrivateKey)
    requires prekey != first
    ensures SameConversation(Start(sk, prekey, first), StartShadow(sk, prekey, first))
  {
  }

  lemma SendStaysTheSame(w: World, shadow: Shadow, from: Party, nonce: Result<Nonce, CryptoError>, plaintext: Plaintext)
    requires LockStep(w) && SameConversation(w, shadow)
    ensures Step(w, Send(from, nonce, plaintext)).Shape()
    ensures SameConversation(Step(w, Send(from, nonce, plaintext)), ShadowStep(w, shadow, Send(from, nonce, plaintext)))
  {
    if Encrypt(w.Of(from), nonce, plaintext).1.Ok? {
      var w' := SendMoves(w, from, nonce, plaintext);
      var shadow' := ShadowStep(w, shadow, Send(from, nonce, plaintext));
      assert Simulates(w.Of(from), shadow.Of(from));
      EncryptSimulates(w.Of(from), shadow.Of(from), nonce.value, plaintext);
      forall p
        ensures Simulates(w'.Of(p), shadow'.Of(p)) && ReadsKnownChains(w', shadow', p)
      {
        assert p == from || p == from.Peer();
        assert Simulates(w.Of(p), shadow.Of(p)) && ReadsKnownChains(w, shadow, p);
      }
    }
  }

  /** In an honest conversation every ratchet step meets a new ratchet key. */
  lemma StepsMeetNewKeys(w: World, shadow: Shadow, p: Party, m: Sent, reading: Reading)
    requires LockStep(w) && Genuine(w, m) && Reads(w, p, m.frame, m.chain, reading)
    requires ReadsKnownChains(w, shadow, p)
    ensures OpensNewChain(w.Of(p), m.frame.header) ==> m.frame.header.ratchet !in shadow.Of(p).receiving
  {
  }

  lemma ShadowAccepts(w: World, shadow: Shadow, to: Party, m: Sent, reading: Reading, drawn: Result<PrivateKey, CryptoError>)
    returns (p': Simple)
    requires LockStep(w) && SameConversation(w, shadow)
    requires Genuine(w, m) && Reads(w, to, m.frame, m.chain, reading)
    requires Decrypt(w.Of(to), m.frame, drawn).1 == Ok(m.plaintext)
    ensures SimpleDecrypt(shadow.Of(to).(labels := LabelsFor(w.Of(to), m.frame, drawn)), m.frame) == (p', Ok(m.plaintext))
    ensures Simulates(Decrypt(w.Of(to), m.frame, drawn).0, p')
    ensures p'.receiving.Keys == shadow.Of(to).receiving.Keys + {m.frame.header.ratchet}
  {
    assert Simulates(w.Of(to), shadow.Of(to)) && ReadsKnownChains(w, shadow, to);
    StepsMeetNewKeys(w, shadow, to, m, reading);
    p' := AcceptSimulates(w.Of(to), shadow.Of(to), m.frame, m.plaintext, drawn);
  }

  lemma BothStaySimulated(w: World, w': World, shadow: Shadow, shadow': Shadow, to: Party)
    requires forall q :: Simulates(w.Of(q), shadow.Of(q))
    requires w'.Of(to.Peer()) == w.Of(to.Peer()) && shadow'.Of(to.Peer()) == shadow.Of(to.Peer())
    requires Simulates(w'.Of(to), shadow'.Of(to))
    ensures forall q :: Simulates(w'.Of(q), shadow'.Of(q))
    ensures shadow'.Usable()
  {
  }

  lemma AcceptedBySession(a: Attacker, w: World, to: Party, frame: SealedFrame, drawn: Result<PrivateKey, CryptoError>)
    returns (w': World, m: Sent, reading: Reading)
    requires LockStep(w) && Outsider(a, w.sk) && Enabled(a, w, Deliver(to, frame, drawn))
    requires Decrypt(w.Of(to), frame, drawn).1.Ok?
    ensures w' == Step(w, Deliver(to, frame, drawn)) && OnlyMoves(w, w', to)
    ensures Genuine(w, m) && m.frame == frame && Reads(w, to, frame, m.chain, reading)
    ensures Decrypt(w.Of(to), frame, drawn) == (w'.Of(to), Ok(m.plaintext))
    ensures w'.log == w.log && w'.accepted == w.accepted + [Accepted(to, frame, m.plaintext)]
    ensures m.chain < w'.Generation(to) && frame.header.ratchet == Pub(w.keys[m.chain])
  {
    var k;
    w', k, reading := AcceptKeeps(a, w, to, frame, drawn);
    var _, _ := AcceptGoesPast(a, w, to, frame, drawn);
    m := w.log[k];
    ChainIsBelow(w, w', to, m);
  }

  lemma ShadowFollows(w: World, w': World, shadow: Shadow, shadow': Shadow, to: Party, m: Sent, p': Simple)
    requires LockStep(w) && SameConversation(w, shadow) && OnlyMoves(w, w', to)
    requires Genuine(w, m) && m.chain < w'.Generation(to)
    requires w'.log == w.log && w'.accepted == w.accepted + [Accepted(to, m.frame, m.plaintext)]
    requires Simulates(w'.Of(to), p')
    requires p'.receiving.Keys == shadow.Of(to).receiving.Keys + {m.frame.header.ratchet}
    requires shadow' == shadow.With(to, p').(read := shadow.read + [Ok(m.plaintext)])
    ensures SameConversation(w', shadow')
  {
    PartiesFollow(w, w', shadow, shadow', to, m.frame.header.ratchet, m.chain);
    ReadOutputFollows(w, w', shadow, shadow', to, m);
  }

  lemma PartiesFollow(w: World, w': World, shadow: Shadow, shadow': Shadow, to: Party, ratchet: PublicKey, chain: nat)
    requires LockStep(w) && SameParties(w, shadow) && OnlyMoves(w, w', to)
    requires 0 < chain < |w.keys| && ratchet == Pub(w.keys[chain]) && chain < w'.Generation(to)
    requires Simulates(w'.Of(to), shadow'.Of(to)) && shadow'.Of(to.Peer()) == shadow.Of(to.Peer())
    requires shadow'.Of(to).receiving.Keys == shadow.Of(to).receiving.Keys + {ratchet}
    ensures SameParties(w', shadow')
  {
    BothStaySimulated(w, w', shadow, shadow', to);
    ReadChainsStayKnown(w, w', shadow, shadow', to, ratchet, chain);
  }

  lemma ReadOutputFollows(w: World, w': World, shadow: Shadow, shadow': Shadow, to: Party, m: Sent)
    requires SameOutputs(w, shadow)
    requires w'.log == w.log && w'.accepted == w.accepted + [Accepted(to, m.frame, m.plaintext)]
    requires shadow'.sealed == shadow.sealed && shadow'.read == shadow.read + [Ok(m.plaintext)]
    ensures SameOutputs(w', shadow')
  {
  }

  lemma DeliverStaysTheSame(a: Attacker, w: World, shadow: Shadow, to: Party, frame: SealedFrame,
                            drawn: Result<PrivateKey, CryptoError>)
    requires LockStep(w) && SameConversation(w, shadow)
    requires Outsider(a, w.sk) && Enabled(a, w, Deliver(to, frame, drawn))
    ensures Step(w, Deliver(to, frame, drawn)).Shape()
    ensures SameConversation(Step(w, Deliver(to, frame, drawn)), ShadowStep(w, shadow, Deliver(to, frame, drawn)))
  {
    if Decrypt(w.Of(to), frame, drawn).1.Ok? {
      var w', m, reading := AcceptedBySession(a, w, to, frame, drawn);
      var p' := ShadowAccepts(w, shadow, to, m, reading, drawn);
      ShadowFollows(w, w', shadow, ShadowStep(w, shadow, Deliver(to, frame, drawn)), to, m, p');
    }
  }

  lemma ChainIsBelow(w: World, w': World, p: Party, m: Sent)
    requires LockStep(w) && OnlyMoves(w, w', p) && Genuine(w, m) && WentPast(w', p, NameOf(m.frame.header))
    ensures m.chain < w'.Generation(p) && m.frame.header.ratchet == Pub(w.keys[m.chain])
  {
  }

  lemma ReadChainsStayKnown(w: World, w': World, shadow: Shadow, shadow': Shadow, to: Party, ratchet: PublicKey, chain: nat)
    requires LockStep(w) && OnlyMoves(w, w', to)
    requires forall q :: ReadsKnownChains(w, shadow, q)
    requires shadow'.Of(to.Peer()) == shadow.Of(to.Peer())
    requires shadow'.Of(to).receiving.Keys == shadow.Of(to).receiving.Keys + {ratchet}
    requires 0 < chain < |w.keys| && ratchet == Pub(w.keys[chain]) && chain < w'.Generation(to)
    ensures forall q :: ReadsKnownChains(w', shadow', q)
  {
    forall q, r | r in shadow'.Of(q).receiving
      ensures 0 < IndexOf(w'.keys, r) < w'.Generation(q)
    {
      assert q == to || q == to.Peer();
      assert ReadsKnownChains(w, shadow, q);
      if r in shadow.Of(q).receiving {
        IndexOfExtended(w.keys, w'.keys, r);
      } else {
        assert r in shadow'.Of(to).receiving.Keys;
        IndexOfKey(w'.keys, chain);
      }
    }
  }

  ghost function ShadowRun(a: Attacker, w: World, shadow: Shadow, actions: seq<Action>): Shadow
    requires Admissible(a, w, actions)
    decreases |actions|
  {
    if actions == [] || !shadow.Usable() then shadow
    else ShadowRun(a, Step(w, actions[0]), ShadowStep(w, shadow, actions[0]), actions[1..])
  }

  lemma {:induction false} RunsStayTheSame(a: Attacker, w: World, shadow: Shadow, actions: seq<Action>)
    requires LockStep(w) && SameConversation(w, shadow) && Outsider(a, w.sk) && Admissible(a, w, actions)
    ensures Run(a, w, actions).Shape()
    ensures SameConversation(Run(a, w, actions), ShadowRun(a, w, shadow, actions))
    decreases |actions|
  {
    if actions != [] {
      StepKeepsLockStep(a, w, actions[0]);
      match actions[0] {
        case Send(from, nonce, plaintext) => SendStaysTheSame(w, shadow, from, nonce, plaintext);
        case Deliver(to, frame, drawn) => DeliverStaysTheSame(a, w, shadow, to, frame, drawn);
      }
      RunsStayTheSame(a, Step(w, actions[0]), ShadowStep(w, shadow, actions[0]), actions[1..]);
    }
  }

  /** In every run, with every frame of the network delivered to the sessions and
      only the accepted ones to the reference, the reference never fails, seals
      the same frames and reads the same plaintexts. */
  lemma SessionRefinesReference(a: Attacker, sk: Key, prekey: PrivateKey, first: PrivateKey, actions: seq<Action>)
    requires prekey != first && Outsider(a, sk)
    requires Admissible(a, Start(sk, prekey, first), actions)
    ensures var w := Run(a, Start(sk, prekey, first), actions);
            var shadow := ShadowRun(a, Start(sk, prekey, first), StartShadow(sk, prekey, first), actions);
            && |shadow.sealed| == |w.log| && |shadow.read| == |w.accepted|
            && (forall k :: 0 <= k < |w.log| ==> shadow.sealed[k] == Ok(w.log[k].frame))
            && (forall k :: 0 <= k < |w.accepted| ==> shadow.read[k] == Ok(w.accepted[k].plaintext))
  {
    StartsInStep(sk, prekey, first);
    StartsTheSame(sk, prekey, first);
    RunsStayTheSame(a, Start(sk, prekey, first), StartShadow(sk, prekey, first), actions);
  }
}

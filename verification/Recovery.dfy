/**
 Recovery of authenticity: exactly which frames someone who read a session's memory
 can still forge, told by their headers; and once both parties have left the chains
 in question, every run the thief can bring about keeps the invariant of the
 conversation.
*/
module Recovery {
  import opened Results
  import opened Terms
  import opened Attacker
  import opened Schedule
  import opened SkippedStore
  import opened RatchetSpec
  import opened Conversation
  import opened LockStepProof
  import opened History
  import opened Runs
  import opened Secrecy

  // ---------- One delivery ----------

  /** The thief can compute the key of frame `n` of chain `j`: the session kept it,
      or leads to it, or every link up to that chain is known. */
  ghost predicate InReach(a: Attacker, w: World, keys: seq<PrivateKey>, p: Party, j: nat, n: nat)
    requires w.Shape() && w.keys <= keys && j < |keys|
  {
    if j <= w.Generation(p) then Retained(w, p, (Pub(w.keys[j]), n)) || Ahead(w, p, j, n)
    else LinksKnown(a, keys, w.Generation(p), j)
  }

  lemma KeysInReach(a: Attacker, w: World, w': World, p: Party, j: nat, n: nat)
    requires Continues(a, w, w') && 0 < j < |w'.keys|
    ensures Derivable(Thief(a, w.Of(p)), KeyAt(w'.sk, w'.keys, j, n)) <==> InReach(a, w, w'.keys, p, j, n)
  {
    if j <= w.Generation(p) {
      ScheduleExtended(w.sk, w.keys, w'.keys);
      StolenSessionOpensExactly(a, w, p, j, n);
    } else {
      LaterChainsExactly(a, w, w'.keys, p, j, n);
    }
  }

  /** The key tried for a header that opens a new chain comes from the reader's root
      key and the header's ratchet key. It is in reach if that root key is and the
      thief knows one of the two secrets; or if the reader is still behind the stolen
      session, which sent it the very chain. */
  ghost predicate NewChainInReach(a: Attacker, w: World, w': World, p: Party, q: Party, header: RatchetHeader)
    requires w.Shape() && w'.Shape()
  {
    var g, i := w.Generation(p), w'.Generation(q);
    match DiffieHellman(w'.Of(q).ownRatchet, header.ratchet)
    case Err(_) => false
    case Ok(shared) =>
      if i >= g then LinksKnown(a, w'.keys, g, i) && KnowsShared(a, shared)
      else shared == Link(w.keys, g) && header.messageNumber >= w.sent[g]
  }

  /** The thief can compute the key that `q` tries for a header. */
  ghost predicate KeyTriedInReach(a: Attacker, w: World, w': World, p: Party, q: Party, header: RatchetHeader)
    requires w.Shape() && w'.Shape() && w.keys <= w'.keys
  {
    if OpensNewChain(w'.Of(q), header) then NewChainInReach(a, w, w', p, q, header)
    else
      var j := IndexOf(w'.keys, header.ratchet);
      0 < j && InReach(a, w, w'.keys, p, j, header.messageNumber)
  }

  lemma KeysTriedExactly(a: Attacker, w: World, w': World, p: Party, q: Party, header: RatchetHeader,
                         drawn: Result<PrivateKey, CryptoError>)
    requires Continues(a, w, w') && Candidate(w'.Of(q), header, drawn).Ok?
    ensures Derivable(Thief(a, w.Of(p)), Candidate(w'.Of(q), header, drawn).value.key) <==>
            KeyTriedInReach(a, w, w', p, q, header)
  {
    var s := w'.Of(q);
    if !OpensNewChain(s, header) {
      KnownChainCandidate(w', q, header, drawn);
      KeysInReach(a, w, w', p, IndexOf(w'.keys, header.ratchet), header.messageNumber);
    } else {
      var shared := NextCandidate(w', q, header, drawn);
      NewChainExactly(a, w, w', p, q, shared, header.messageNumber);
    }
  }

  /** The key tried for a header that opens no new chain. */
  lemma KnownChainCandidate(w: World, p: Party, header: RatchetHeader, drawn: Result<PrivateKey, CryptoError>)
    requires LockStep(w) && Candidate(w.Of(p), header, drawn).Ok? && !OpensNewChain(w.Of(p), header)
    ensures 0 < IndexOf(w.keys, header.ratchet)
    ensures Candidate(w.Of(p), header, drawn).value.key ==
            KeyAt(w.sk, w.keys, IndexOf(w.keys, header.ratchet), header.messageNumber)
  {
    if FirstMatch(w.Of(p).skipped, NameOf(header)) < |w.Of(p).skipped| {
      var j := StoredCandidate(w, p, header, drawn);
    } else {
      CurrentCandidate(w, p, header);
      CurrentIndex(w, p, header);
    }
  }

  lemma NewChainExactly(a: Attacker, w: World, w': World, p: Party, q: Party, shared: Shared, n: nat)
    requires Continues(a, w, w')
    ensures var g, i := w.Generation(p), w'.Generation(q);
            Derivable(Thief(a, w.Of(p)), MessageKey(ChainOf(RootAt(w'.sk, w'.keys, i), shared), n)) <==>
            if i >= g then LinksKnown(a, w'.keys, g, i) && KnowsShared(a, shared)
            else shared == Link(w.keys, g) && n >= w.sent[g]
  {
    var g, i := w.Generation(p), w'.Generation(q);
    if i >= g {
      BranchesExactly(a, w, w'.keys, p, i, shared, n);
    } else {
      assert i == g - 1;
      ScheduleExtended(w.sk, w.keys, w'.keys);
      StaleBranchExactly(a, w, p, shared, n);
    }
  }

  lemma CurrentIndex(w: World, p: Party, header: RatchetHeader)
    requires LockStep(w) && w.Of(p).remoteRatchet == Some(header.ratchet) && w.Generation(p) >= 1
    ensures IndexOf(w.keys, header.ratchet) == w.Generation(p) - 1 && Owner(w.Generation(p) - 1) == p.Peer()
  {
    assert InStep(w, p);
    IndexOfKey(w.keys, w.Generation(p) - 1);
  }

  /** A frame with a key to try that opens no new chain has not been opened. */
  lemma KeysTriedAreUnused(w: World, p: Party, header: RatchetHeader, drawn: Result<PrivateKey, CryptoError>)
    requires Invariant(w) && Candidate(w.Of(p), header, drawn).Ok? && !OpensNewChain(w.Of(p), header)
    ensures NameOf(header) !in OpenedNames(w)
  {
    MatchIsMembership(w.Of(p).skipped, NameOf(header));
    if Retained(w, p, NameOf(header)) {
      RetainedWentPast(w, p, NameOf(header));
      assert Accounted(w, p, NameOf(header));
    } else {
      CurrentIsAhead(w, p, header);
      if NameOf(header) in OpenedNames(w) {
        OpenedWentPast(w, p, NameOf(header));
      }
    }
  }

  lemma CurrentIsAhead(w: World, p: Party, header: RatchetHeader)
    requires LockStep(w) && w.Of(p).remoteRatchet == Some(header.ratchet) && InReceivingChain(w.Of(p), header).Ok?
    ensures !WentPast(w, p, NameOf(header)) && !WentPast(w, p.Peer(), NameOf(header))
  {
    assert InStep(w, p);
    CurrentIndex(w, p, header);
  }

  /** Some frame with this header, not one the peer of `q` sealed, can be delivered
      by the thief and opens. */
  ghost predicate Forgeable(a: Attacker, w: World, w': World, p: Party, q: Party, header: RatchetHeader,
                            drawn: Result<PrivateKey, CryptoError>)
  {
    exists frame: SealedFrame ::
      && frame.header == header
      && CanDeliver(Thief(a, w.Of(p)), w', frame) && Decrypt(w'.Of(q), frame, drawn).1.Ok?
      && NotSealedBy(w', q.Peer(), frame)
  }

  ghost predicate NotSealedBy(w: World, p: Party, frame: SealedFrame) {
    forall k :: 0 <= k < |w.log| && Owner(w.log[k].chain) == p ==> w.log[k].frame != frame
  }

  /** Exactly what a thief can forge, whenever and for whichever party: frames whose
      header the reader finds a key for, one that the stolen session kept, leads to,
      or leads to with the ratchet keys known. */
  lemma ForgeableExactly(a: Attacker, w: World, w': World, p: Party, q: Party, header: RatchetHeader,
                         drawn: Result<PrivateKey, CryptoError>)
    requires Continues(a, w, w')
    ensures Forgeable(a, w, w', p, q, header, drawn) <==>
            Candidate(w'.Of(q), header, drawn).Ok? && KeyTriedInReach(a, w, w', p, q, header)
  {
    if Candidate(w'.Of(q), header, drawn).Ok? {
      KeysTriedExactly(a, w, w', p, q, header, drawn);
      forall frame: SealedFrame | frame.header == header && CanDeliver(Thief(a, w.Of(p)), w', frame) &&
                                  Decrypt(w'.Of(q), frame, drawn).1.Ok? && NotSealedBy(w', q.Peer(), frame)
        ensures KeyTriedInReach(a, w, w', p, q, header)
      {
        ForgeriesAreSealedByTheThief(a, w, w', p, q, frame, drawn);
      }
      if KeyTriedInReach(a, w, w', p, q, header) {
        var frame := NewFrame(w', Candidate(w'.Of(q), header, drawn).value.key, header);
        assert Decrypt(w'.Of(q), frame, drawn).1.Ok?;
      }
    }
  }

  lemma ForgeriesAreSealedByTheThief(a: Attacker, w: World, w': World, p: Party, q: Party, frame: SealedFrame,
                                     drawn: Result<PrivateKey, CryptoError>)
    requires Continues(a, w, w') && CanDeliver(Thief(a, w.Of(p)), w', frame)
    requires Decrypt(w'.Of(q), frame, drawn).1.Ok? && NotSealedBy(w', q.Peer(), frame)
    ensures Derivable(Thief(a, w.Of(p)), Candidate(w'.Of(q), frame.header, drawn).value.key)
  {
    if !Derivable(Thief(a, w.Of(p)), frame.body.key) {
      var k, _ := AcceptedIsGenuine(a, w', q, frame, drawn);
    }
  }

  /** A frame under a given key and header that was never sent. */
  lemma NewFrame(w: World, key: Key, header: RatchetHeader) returns (frame: SealedFrame)
    requires Invariant(w)
    ensures frame.header == header && frame.body.Box? && frame.body.key == key && Open(key, frame).Ok?
    ensures forall k :: 0 <= k < |w.log| ==> w.log[k].frame != frame
  {
    var nonce: Nonce := seq(NONCE_LEN, _ => 0);
    var zeros: Plaintext := seq(PLAINTEXT_LEN, _ => 0);
    var ones: Plaintext := seq(PLAINTEXT_LEN, _ => 1);
    assert zeros[0] != ones[0];
    frame := Seal(key, nonce, header, zeros);
    if k :| 0 <= k < |w.log| && w.log[k].frame == frame {
      frame := Seal(key, nonce, header, ones);
      SendDiscipline(w);
    }
  }

  /** Once a party has drawn or read the second new ratchet key, the frames a thief
      can forge for it are exactly those, not opened yet, whose keys the stolen
      session kept or leads to: of its own chains, and of the next one if its ratchet
      key was stolen too. */
  lemma ForgeriesNameOldFrames(a: Attacker, w: World, w': World, p: Party, q: Party, header: RatchetHeader,
                               drawn: Result<PrivateKey, CryptoError>)
    requires GoesOn(a, w, w', p) && w'.Generation(q) >= w.Generation(p) + 2
    ensures Forgeable(a, w, w', p, q, header, drawn) <==>
            && Candidate(w'.Of(q), header, drawn).Ok? && !OpensNewChain(w'.Of(q), header)
            && var j, n, g := IndexOf(w'.keys, header.ratchet), header.messageNumber, w.Generation(p);
               if j <= g then 0 < j && (Retained(w, p, (Pub(w.keys[j]), n)) || Ahead(w, p, j, n))
               else j == g + 1 && w.keys[g] in a.scalars
    ensures Forgeable(a, w, w', p, q, header, drawn) ==> NameOf(header) !in OpenedNames(w')
  {
    ForgeableExactly(a, w, w', p, q, header, drawn);
    OldChainsOnly(a, w, w', p, q, header);
    if Candidate(w'.Of(q), header, drawn).Ok? && !OpensNewChain(w'.Of(q), header) {
      KeysTriedAreUnused(w', q, header, drawn);
    }
  }

  lemma OldChainsOnly(a: Attacker, w: World, w': World, p: Party, q: Party, header: RatchetHeader)
    requires GoesOn(a, w, w', p) && w'.Generation(q) >= w.Generation(p) + 2
    ensures KeyTriedInReach(a, w, w', p, q, header) <==>
            && !OpensNewChain(w'.Of(q), header)
            && var j, n, g := IndexOf(w'.keys, header.ratchet), header.messageNumber, w.Generation(p);
               if j <= g then 0 < j && (Retained(w, p, (Pub(w.keys[j]), n)) || Ahead(w, p, j, n))
               else j == g + 1 && w.keys[g] in a.scalars
  {
    var j, g := IndexOf(w'.keys, header.ratchet), w.Generation(p);
    LinksEnd(a, w, w', p, w'.Generation(q));
    if j >= g + 2 {
      LinksEnd(a, w, w', p, j);
    }
  }

  /** Among them is every frame whose key both the stolen session and the reader
      retain. */
  lemma RetainedKeysOpenForgeries(a: Attacker, w: World, w': World, p: Party, q: Party, header: RatchetHeader,
                                  drawn: Result<PrivateKey, CryptoError>)
    requires Continues(a, w, w') && Retained(w, p, NameOf(header)) && Retained(w', q, NameOf(header))
    ensures Forgeable(a, w, w', p, q, header, drawn)
  {
    ForgeableExactly(a, w, w', p, q, header, drawn);
    MatchIsMembership(w'.Of(q).skipped, NameOf(header));
    RetainedWentPast(w, p, NameOf(header));
    IndexOfExtended(w.keys, w'.keys, header.ratchet);
  }

  // ---------- Whole runs ----------

  /** Both parties read and seal chains past the second new ratchet key, and keep
      no key of an older one. */
  ghost predicate Healed(w: World, w': World, p: Party)
    requires w.Shape() && w'.Shape()
  {
    forall q :: PastChains(w', q, w.Generation(p))
  }

  /** A party past every chain before the second one after key `g`. */
  ghost predicate PastChains(w: World, q: Party, g: nat)
    requires w.Shape()
  {
    w.Generation(q) > g + 2 && StoresFrom(w, q, g + 2)
  }

  ghost predicate StoresFrom(w: World, q: Party, j: nat) {
    forall name :: name in Names(w.Of(q).skipped) ==> IndexOf(w.keys, name.0) >= j
  }

  /** In a healed conversation a thief's own frames open nowhere: what opens is
      something the outsider of before the theft could deliver as well. */
  lemma ForgeriesAreFutile(a: Attacker, w: World, w': World, p: Party, q: Party, frame: SealedFrame,
                           drawn: Result<PrivateKey, CryptoError>)
    requires GoesOn(a, w, w', p) && Healed(w, w', p)
    requires CanDeliver(Thief(a, w.Of(p)), w', frame) && Decrypt(w'.Of(q), frame, drawn).1.Ok?
    ensures CanDeliver(a, w', frame)
  {
    assert PastChains(w', q, w.Generation(p));
    if Derivable(Thief(a, w.Of(p)), frame.body.key) {
      KeysTriedExactly(a, w, w', p, q, frame.header, drawn);
      OldChainsOnly(a, w, w', p, q, frame.header);
      MatchIsMembership(w'.Of(q).skipped, NameOf(frame.header));
      if !Retained(w', q, NameOf(frame.header)) {
        CurrentIndex(w', q, frame.header);
      }
    }
  }

  /** What a step does to the stores: it keeps names and adds some of the chain
      being read or of the next one. */
  lemma StoresStayNew(w: World, w': World, q: Party, header: RatchetHeader, j: nat)
    requires LockStep(w) && OnlyMoves(w, w', q) && GoesPast(w, w', q, header)
    requires w.Generation(q) > j && StoresFrom(w, q, j)
    ensures StoresFrom(w', q, j)
  {
    forall name | name in Names(w'.Of(q).skipped)
      ensures IndexOf(w'.keys, name.0) >= j
    {
      if name in Names(w.Of(q).skipped) {
        RetainedWentPast(w, q, name);
        IndexOfExtended(w.keys, w'.keys, name.0);
      } else {
        assert WentPast(w', q, name) && !WentPast(w, q, name);
        NewlyPastIsNew(w, w', q, name);
      }
    }
  }

  /** A party goes past frames of its current chain and later ones only. */
  lemma NewlyPastIsNew(w: World, w': World, q: Party, name: FrameName)
    requires LockStep(w) && OnlyMoves(w, w', q) && WentPast(w', q, name) && !WentPast(w, q, name)
    ensures IndexOf(w'.keys, name.0) >= w.Generation(q) - 1
  {
    var i := IndexOf(w'.keys, name.0);
    if i < w.Generation(q) {
      assert w'.keys[i] == w.keys[i];
      IndexOfKey(w.keys, i);
    }
  }

  lemma BothStayHealed(w: World, w': World, w'': World, p: Party, q: Party)
    requires w.Shape() && w'.Shape() && Healed(w, w', p) && OnlyMoves(w', w'', q) && LockStep(w')
    requires StoresFrom(w'', q, w.Generation(p) + 2)
    ensures Healed(w, w'', p)
  {
    var other := q.Peer();
    assert PastChains(w', other, w.Generation(p)) && PastChains(w', q, w.Generation(p));
    forall name | name in Names(w''.Of(other).skipped)
      ensures IndexOf(w''.keys, name.0) >= w.Generation(p) + 2
    {
      RetainedWentPast(w', other, name);
      IndexOfExtended(w'.keys, w''.keys, name.0);
    }
    assert PastChains(w'', other, w.Generation(p)) && PastChains(w'', q, w.Generation(p));
    forall r
      ensures PastChains(w'', r, w.Generation(p))
    {
      assert r == q || r == other;
    }
  }

  lemma SendStaysHealed(w: World, w': World, p: Party, from: Party, nonce: Result<Nonce, CryptoError>, plaintext: Plaintext)
    requires Invariant(w) && Invariant(w') && Healed(w, w', p)
    requires Encrypt(w'.Of(from), nonce, plaintext).1.Ok?
    ensures OnlyMoves(w', Step(w', Send(from, nonce, plaintext)), from)
    ensures Healed(w, Step(w', Send(from, nonce, plaintext)), p)
  {
    var w'' := SendMoves(w', from, nonce, plaintext);
    assert PastChains(w', from, w.Generation(p));
    assert w''.Of(from).skipped == w'.Of(from).skipped;
    BothStayHealed(w, w', w'', p, from);
  }

  lemma AcceptStaysHealed(a: Attacker, w: World, w': World, p: Party, to: Party, frame: SealedFrame,
                          drawn: Result<PrivateKey, CryptoError>)
    requires Setting(a, w) && Invariant(w') && w'.sk == w.sk && Healed(w, w', p)
    requires Enabled(a, w', Deliver(to, frame, drawn)) && Decrypt(w'.Of(to), frame, drawn).1.Ok?
    ensures OnlyMoves(w', Step(w', Deliver(to, frame, drawn)), to)
    ensures Healed(w, Step(w', Deliver(to, frame, drawn)), p)
  {
    var w'', _ := AcceptGoesPast(a, w', to, frame, drawn);
    assert PastChains(w', to, w.Generation(p));
    StoresStayNew(w', w'', to, frame.header, w.Generation(p) + 2);
    BothStayHealed(w, w', w'', p, to);
  }

  /** Whatever the thief does to a healed conversation, it stays one. */
  lemma StepStaysHealed(a: Attacker, w: World, w': World, p: Party, action: Action)
    requires GoesOn(a, w, w', p) && Healed(w, w', p) && Enabled(Thief(a, w.Of(p)), w', action)
    ensures GoesOn(a, w, Step(w', action), p) && Healed(w, Step(w', action), p)
  {
    if action.Send? && Encrypt(w'.Of(action.from), action.nonce, action.plaintext).1.Ok? {
      StepKeepsInvariant(a, w', action);
      SendStaysHealed(w, w', p, action.from, action.nonce, action.plaintext);
      KeepsGoingOn(a, w, w', Step(w', action), p, action.from);
    } else if action.Deliver? && Decrypt(w'.Of(action.to), action.frame, action.drawn).1.Ok? {
      ForgeriesAreFutile(a, w, w', p, action.to, action.frame, action.drawn);
      StepKeepsInvariant(a, w', action);
      AcceptStaysHealed(a, w, w', p, action.to, action.frame, action.drawn);
      KeepsGoingOn(a, w, w', Step(w', action), p, action.to);
    }
  }

  lemma KeepsGoingOn(a: Attacker, w: World, w': World, w'': World, p: Party, q: Party)
    requires GoesOn(a, w, w', p) && Healed(w, w', p)
    requires Invariant(w'') && w''.sk == w'.sk && OnlyMoves(w', w'', q)
    ensures GoesOn(a, w, w'', p)
  {
    assert PastChains(w', p, w.Generation(p));
  }

  lemma {:induction false} RunStaysHealed(a: Attacker, w: World, w': World, p: Party, actions: seq<Action>)
    requires GoesOn(a, w, w', p) && Healed(w, w', p) && Admissible(Thief(a, w.Of(p)), w', actions)
    ensures GoesOn(a, w, Run(Thief(a, w.Of(p)), w', actions), p)
    decreases |actions|
  {
    if actions != [] {
      StepStaysHealed(a, w, w', p, actions[0]);
      RunStaysHealed(a, w, Step(w', actions[0]), p, actions[1..]);
    }
  }

  /** Authenticity recovers: over every run in which the thief is the network and
      seals with whatever follows from the stolen session, each accepted frame is
      one the peer sealed, byte for byte, with its plaintext, and none is accepted
      twice. */
  lemma AuthenticityRecovers(a: Attacker, w: World, w': World, p: Party, actions: seq<Action>)
    requires GoesOn(a, w, w', p) && Healed(w, w', p) && Admissible(Thief(a, w.Of(p)), w', actions)
    ensures var end := Run(Thief(a, w.Of(p)), w', actions);
            && Invariant(end)
            && (forall i :: 0 <= i < |end.accepted| ==> SealedByPeer(end, end.accepted[i]))
            && (forall i, j :: 0 <= i < j < |end.accepted| ==> end.accepted[i].frame != end.accepted[j].frame)
  {
    RunStaysHealed(a, w, w', p, actions);
    var end := Run(Thief(a, w.Of(p)), w', actions);
    forall i, j | 0 <= i < j < |end.accepted|
      ensures end.accepted[i].frame != end.accepted[j].frame
    {
      assert NameOf(end.accepted[i].frame.header) != NameOf(end.accepted[j].frame.header);
    }
  }
}

/**
 The lock-step invariant is kept by every send and every delivery, whatever the
 network does.
*/
module LockStepProof {
  import opened Results
  import opened Terms
  import opened Attacker
  import opened Schedule
  import opened SkippedStore
  import opened RatchetSpec
  import opened Conversation

  /** What a step of one party leaves for the other: its own session, the old
      keys, and the counts of every chain but the ones that party seals next. */
  ghost predicate OnlyMoves(w: World, w': World, p: Party)
    requires w.Shape()
  {
    && w'.Shape() && w'.sk == w.sk && w.keys <= w'.keys
    && w'.Of(p.Peer()) == w.Of(p.Peer())
    && w'.Generation(p.Peer()) == w.Generation(p.Peer())
    && w'.Generation(p) >= w.Generation(p)
    && (forall j :: 0 <= j < |w.sent| && j != w.Generation(p) ==> w'.sent[j] == w.sent[j])
    && w.sent[w.Generation(p)] <= w'.sent[w.Generation(p)]
  }

  lemma WentPastIsKept(w: World, w': World, p: Party, name: FrameName)
    requires w.Shape() && OnlyMoves(w, w', p)
    requires WentPast(w, p.Peer(), name)
    ensures WentPast(w', p.Peer(), name) && IndexOf(w'.keys, name.0) == IndexOf(w.keys, name.0)
    ensures KeyAt(w'.sk, w'.keys, IndexOf(w.keys, name.0), name.1) == KeyAt(w.sk, w.keys, IndexOf(w.keys, name.0), name.1)
  {
    IndexOfExtended(w.keys, w'.keys, name.0);
    ScheduleExtended(w.sk, w.keys, w'.keys);
  }

  lemma BystanderStaysInStep(w: World, w': World, p: Party)
    requires LockStep(w) && OnlyMoves(w, w', p)
    ensures InStep(w', p.Peer()) && StoreInStep(w', p.Peer())
  {
    var q := p.Peer();
    assert InStep(w, q) && StoreInStep(w, q);
    ScheduleExtended(w.sk, w.keys, w'.keys);
    var s := w.Of(q).skipped;
    forall i | 0 <= i < |s|
      ensures EntryInStep(w', q, s[i]) && IndexOf(w'.keys, s[i].ratchet) == IndexOf(w.keys, s[i].ratchet)
    {
      assert EntryInStep(w, q, s[i]);
      WentPastIsKept(w, w', p, Name(s[i]));
    }
    forall i, k | 0 <= i < k < |s|
      ensures Before(w'.keys, s[i], s[k])
    {
      assert Before(w.keys, s[i], s[k]);
    }
  }

  lemma LogStaysGenuine(w: World, w': World, p: Party)
    requires LockStep(w) && OnlyMoves(w, w', p)
    ensures forall k :: 0 <= k < |w.log| ==> Genuine(w', w.log[k])
  {
    ScheduleExtended(w.sk, w.keys, w'.keys);
    forall k | 0 <= k < |w.log|
      ensures Genuine(w', w.log[k])
    {
      assert Genuine(w, w.log[k]);
    }
  }

  lemma SendMoves(w: World, from: Party, nonce: Result<Nonce, CryptoError>, plaintext: Plaintext)
    returns (w': World)
    requires LockStep(w) && Encrypt(w.Of(from), nonce, plaintext).1.Ok?
    ensures w' == Step(w, Send(from, nonce, plaintext))
    ensures OnlyMoves(w, w', from) && w'.keys == w.keys && w'.Generation(from) > 0
    ensures w'.sent == w.sent[w.Generation(from) := w.sent[w.Generation(from)] + 1]
    ensures w'.Of(from) == Encrypt(w.Of(from), nonce, plaintext).0
    ensures w'.log == w.log + [Sent(w.Generation(from), Encrypt(w.Of(from), nonce, plaintext).1.value, plaintext)]
    ensures w'.accepted == w.accepted && w'.evicted == w.evicted
  {
    assert InStep(w, from);
    w' := Step(w, Send(from, nonce, plaintext));
  }

  /** A send moves the sending chain on by one, and nothing else. */
  ghost predicate SentOne(w: World, w': World, from: Party)
    requires w.Shape()
  {
    var g, s := w.Generation(from), w.Of(from);
    && OnlyMoves(w, w', from) && w'.keys == w.keys && g > 0
    && w'.sent == w.sent[g := w.sent[g] + 1]
    && s.sending.Some?
    && w'.Of(from) == s.(sending := Some(Chain(NextOf(s.sending.value.key), w.sent[g] + 1)))
  }

  lemma SenderKeepsChain(w: World, w': World, from: Party)
    requires w.Shape() && InStep(w, from) && SentOne(w, w', from)
    ensures InStep(w', from)
  {
  }

  lemma SenderKeepsStore(w: World, w': World, from: Party)
    requires w.Shape() && StoreInStep(w, from) && SentOne(w, w', from)
    ensures StoreInStep(w', from)
  {
  }

  lemma SenderStaysInStep(w: World, from: Party, nonce: Result<Nonce, CryptoError>, plaintext: Plaintext)
    returns (w': World)
    requires LockStep(w) && Encrypt(w.Of(from), nonce, plaintext).1.Ok?
    ensures w' == Step(w, Send(from, nonce, plaintext)) && w'.Shape()
    ensures InStep(w', from) && StoreInStep(w', from)
    ensures |w'.log| == |w.log| + 1 && Genuine(w', w'.log[|w.log|])
  {
    w' := SendMoves(w, from, nonce, plaintext);
    assert InStep(w, from) && StoreInStep(w, from);
    assert SentOne(w, w', from);
    SenderKeepsChain(w, w', from);
    SenderKeepsStore(w, w', from);
  }

  lemma SendKeepsLockStep(w: World, from: Party, nonce: Result<Nonce, CryptoError>, plaintext: Plaintext)
    requires LockStep(w)
    ensures LockStep(Step(w, Send(from, nonce, plaintext)))
  {
    if Encrypt(w.Of(from), nonce, plaintext).1.Ok? {
      var w' := SendMoves(w, from, nonce, plaintext);
      var _ := SenderStaysInStep(w, from, nonce, plaintext);
      BystanderStaysInStep(w, w', from);
      LogStaysGenuine(w, w', from);
      BothParties(w', from);
    }
  }

  lemma BothParties(w: World, p: Party)
    requires w.Shape()
    requires InStep(w, p) && StoreInStep(w, p) && InStep(w, p.Peer()) && StoreInStep(w, p.Peer())
    ensures forall q :: InStep(w, q) && StoreInStep(w, q)
  {
  }

  // ---------- Acceptance keeps the invariant ----------

  lemma {:induction false} SubsequenceStaysSorted(keys: seq<PrivateKey>, t: seq<Skipped>, s: seq<Skipped>)
    requires Subsequence(t, s) && Sorted(keys, s)
    ensures Sorted(keys, t)
    decreases |s|
  {
    if s != [] {
      var rest := s[1..];
      forall i, k | 0 <= i < k < |rest|
        ensures Before(keys, rest[i], rest[k])
      {
        assert Before(keys, s[i + 1], s[k + 1]);
      }
      if Subsequence(t, s[1..]) {
        SubsequenceStaysSorted(keys, t, s[1..]);
      } else {
        SubsequenceStaysSorted(keys, t[1..], s[1..]);
        SubsequenceElements(t[1..], s[1..]);
        forall i, k | 0 <= i < k < |t|
          ensures Before(keys, t[i], t[k])
        {
          if i == 0 {
            assert t[k] == t[1..][k - 1];
            assert t[k] in s[1..];
          } else {
            assert Before(keys, t[1..][i - 1], t[1..][k - 1]);
          }
        }
      }
    }
  }

  /** The keys passed over in chain `j` are its message keys, in order. */
  lemma PassedOverInStep(sk: Key, keys: seq<PrivateKey>, j: nat, chain: Chain, until: U32)
    returns (added: seq<Skipped>)
    requires Distinct(keys) && 0 < j < |keys| && chain.key == Advance(ChainAt(sk, keys, j), chain.next)
    ensures added == Labelled(Pub(keys[j]), SkippedBetween(chain, until))
    ensures forall i :: 0 <= i < |added| ==>
              && IndexOf(keys, added[i].ratchet) == j
              && added[i].number == chain.next + i < until
              && added[i].key == KeyAt(sk, keys, j, added[i].number)
    ensures Sorted(keys, added)
  {
    added := Labelled(Pub(keys[j]), SkippedBetween(chain, until));
    IndexOfKey(keys, j);
    forall i | 0 <= i < |added|
      ensures added[i].key == KeyAt(sk, keys, j, added[i].number)
    {
      AdvanceAdds(ChainAt(sk, keys, j), chain.next, i);
    }
  }

  /** What acceptance does to the accepting party's own bookkeeping. */
  ghost predicate MovesOn(w: World, w': World, p: Party)
    requires w.Shape()
  {
    && w'.Shape() && w'.sk == w.sk && w.keys <= w'.keys
    && w.Generation(p) <= w'.Generation(p)
    && forall j {:trigger Passed(w, p, j)} ::
         0 <= j < w.Generation(p) && Owner(j) == p.Peer() ==> Passed(w, p, j) <= Passed(w', p, j)
  }

  lemma OwnEntryIsKept(w: World, w': World, p: Party, name: FrameName)
    requires w.Shape() && MovesOn(w, w', p) && WentPast(w, p, name)
    ensures WentPast(w', p, name) && IndexOf(w'.keys, name.0) == IndexOf(w.keys, name.0)
    ensures KeyAt(w'.sk, w'.keys, IndexOf(w.keys, name.0), name.1) == KeyAt(w.sk, w.keys, IndexOf(w.keys, name.0), name.1)
  {
    IndexOfExtended(w.keys, w'.keys, name.0);
    ScheduleExtended(w.sk, w.keys, w'.keys);
  }

  lemma OwnStoreIsKept(w: World, w': World, p: Party)
    requires LockStep(w) && MovesOn(w, w', p)
    ensures Sorted(w'.keys, w.Of(p).skipped)
    ensures forall i :: 0 <= i < |w.Of(p).skipped| ==> EntryInStep(w', p, w.Of(p).skipped[i])
  {
    var s := w.Of(p).skipped;
    assert StoreInStep(w, p);
    forall i | 0 <= i < |s|
      ensures EntryInStep(w', p, s[i]) && IndexOf(w'.keys, s[i].ratchet) == IndexOf(w.keys, s[i].ratchet)
    {
      assert EntryInStep(w, p, s[i]);
      OwnEntryIsKept(w, w', p, Name(s[i]));
    }
    forall i, k | 0 <= i < k < |s|
      ensures Before(w'.keys, s[i], s[k])
    {
      assert Before(w.keys, s[i], s[k]);
    }
  }

  /** Every entry belongs to a chain before `j`, or to chain `j` below `number`. */
  ghost predicate Below(keys: seq<PrivateKey>, s: seq<Skipped>, j: nat, number: nat) {
    forall i :: 0 <= i < |s| ==>
      IndexOf(keys, s[i].ratchet) < j || (IndexOf(keys, s[i].ratchet) == j && s[i].number < number)
  }

  ghost predicate Holds(w: World, p: Party, s: seq<Skipped>)
    requires w.Shape()
  {
    Sorted(w.keys, s) && forall i :: 0 <= i < |s| ==> EntryInStep(w, p, s[i])
  }

  lemma SubsequenceHolds(w: World, p: Party, t: seq<Skipped>, s: seq<Skipped>, j: nat, number: nat)
    requires w.Shape() && Subsequence(t, s) && Holds(w, p, s)
    ensures Holds(w, p, t)
    ensures Below(w.keys, s, j, number) ==> Below(w.keys, t, j, number)
  {
    SubsequenceStaysSorted(w.keys, t, s);
    SubsequenceElements(t, s);
    forall i | 0 <= i < |t|
      ensures exists k :: 0 <= k < |s| && s[k] == t[i]
    {
      assert t[i] in s;
    }
  }

  /** A store in step stays so when the next keys of chain `j` are passed over
      and the oldest entries evicted. */
  lemma ExtendedHolds(w: World, p: Party, s: seq<Skipped>, j: nat, chain: Chain, until: U32)
    returns (t: seq<Skipped>)
    requires w.Shape() && Holds(w, p, s) && 0 < j < w.Generation(p) && Owner(j) == p.Peer()
    requires Below(w.keys, s, j, chain.next)
    requires chain.key == Advance(ChainAt(w.sk, w.keys, j), chain.next) && until <= Passed(w, p, j)
    ensures t == Extended(s, Pub(w.keys[j]), Labelled(Pub(w.keys[j]), SkippedBetween(chain, until)))
    ensures Holds(w, p, s + Labelled(Pub(w.keys[j]), SkippedBetween(chain, until)))
    ensures Holds(w, p, t) && Below(w.keys, t, j + 1, 0)
  {
    var added := PassedOverInStep(w.sk, w.keys, j, chain, until);
    var all := s + added;
    assert forall i :: 0 <= i < |added| ==> EntryInStep(w, p, added[i]);
    assert forall i :: 0 <= i < |all| ==> EntryInStep(w, p, all[i]);
    assert Sorted(w.keys, all);
    assert Below(w.keys, all, j + 1, 0);
    t := Extended(s, Pub(w.keys[j]), added);
    ExtendedIsSubsequence(s, Pub(w.keys[j]), added);
    SubsequenceHolds(w, p, t, all, j + 1, 0);
  }

  /** The facts about an accepting session that the three readings share. */
  lemma AcceptShape(a: Attacker, w: World, p: Party, frame: SealedFrame, drawn: Result<PrivateKey, CryptoError>)
    returns (w': World, k: nat, reading: Reading)
    requires LockStep(w) && Outsider(a, w.sk) && Enabled(a, w, Deliver(p, frame, drawn))
    requires Decrypt(w.Of(p), frame, drawn).1.Ok?
    ensures w' == Step(w, Deliver(p, frame, drawn))
    ensures k < |w.log| && w.log[k].frame == frame && Genuine(w, w.log[k])
    ensures Decrypt(w.Of(p), frame, drawn).1 == Ok(w.log[k].plaintext)
    ensures Owner(w.log[k].chain) == p.Peer()
    ensures Reads(w, p, frame, w.log[k].chain, reading)
    ensures w'.sk == w.sk && w'.log == w.log && w'.Of(p.Peer()) == w.Of(p.Peer())
    ensures Candidate(w.Of(p), frame.header, drawn) == Ok(Opening(frame.body.key, w'.Of(p)))
    ensures !reading.InNextChain? ==> w'.keys == w.keys && w'.sent == w.sent
    ensures reading.InNextChain? ==> w'.keys == w.keys + [w'.Of(p).ownRatchet] && w'.sent == w.sent + [0]
    ensures w'.accepted == w.accepted + [Accepted(p, frame, w.log[k].plaintext)]
  {
    k, reading := AcceptedIsGenuine(a, w, p, frame, drawn);
    w' := Step(w, Deliver(p, frame, drawn));
    assert Genuine(w, w.log[k]);
  }

  lemma StoredFrameMoves(w: World, w': World, p: Party, index: nat)
    requires LockStep(w) && index < |w.Of(p).skipped|
    requires w'.keys == w.keys && w'.sent == w.sent && w'.sk == w.sk
    requires w'.Of(p.Peer()) == w.Of(p.Peer())
    requires w'.Of(p) == w.Of(p).(skipped := Without(w.Of(p).skipped, index))
    ensures OnlyMoves(w, w', p) && MovesOn(w, w', p)
    ensures InStep(w', p)
  {
    assert InStep(w, p);
  }

  lemma StoredFrameKeepsStore(w: World, w': World, p: Party, index: nat)
    requires LockStep(w) && index < |w.Of(p).skipped| && MovesOn(w, w', p) && w'.keys == w.keys
    requires w'.Of(p).skipped == Without(w.Of(p).skipped, index)
    ensures StoreInStep(w', p)
  {
    OwnStoreIsKept(w, w', p);
    WithoutIsSubsequence(w.Of(p).skipped, index);
    SubsequenceHolds(w', p, w'.Of(p).skipped, w.Of(p).skipped, 0, 0);
  }

  /** Acceptance in the current chain moves the receiving chain on and touches
      nothing else but the store. */
  ghost predicate AcceptsInChain(w: World, w': World, p: Party, header: RatchetHeader) {
    && LockStep(w)
    && w'.keys == w.keys && w'.sent == w.sent && w'.sk == w.sk && w'.log == w.log
    && w'.Of(p.Peer()) == w.Of(p.Peer())
    && w.Of(p).remoteRatchet == Some(header.ratchet)
    && InReceivingChain(w.Of(p), header).Ok? && InReceivingChain(w.Of(p), header).value.next == w'.Of(p)
    && w.Generation(p) >= 2 && header.messageNumber < w.sent[w.Generation(p) - 1]
  }

  lemma CurrentChainMoves(w: World, w': World, p: Party, header: RatchetHeader)
    requires AcceptsInChain(w, w', p, header)
    ensures OnlyMoves(w, w', p) && MovesOn(w, w', p)
    ensures InStep(w', p)
  {
    CurrentChainStored(w, w', p, header);
    assert InStep(w, p);
    StandsStill(w, w', p);
  }

  lemma StandsStill(w: World, w': World, p: Party)
    requires LockStep(w)
    requires w'.keys == w.keys && w'.sent == w.sent && w'.sk == w.sk
    requires w'.Of(p.Peer()) == w.Of(p.Peer())
    requires forall j {:trigger Passed(w, p, j)} ::
               0 <= j < w.Generation(p) && Owner(j) == p.Peer() ==> Passed(w, p, j) <= Passed(w', p, j)
    ensures OnlyMoves(w, w', p) && MovesOn(w, w', p)
  {
  }

  lemma CurrentChainStored(w: World, w': World, p: Party, header: RatchetHeader)
    requires AcceptsInChain(w, w', p, header)
    ensures w'.Shape()
    ensures header.ratchet == Pub(w.keys[w.Generation(p) - 1])
    ensures w.Of(p).receiving.Some? && w.Of(p).receiving.value.next <= header.messageNumber
    ensures w.Of(p).receiving.value.key ==
            Advance(ChainAt(w.sk, w.keys, w.Generation(p) - 1), w.Of(p).receiving.value.next)
    ensures w'.Of(p).skipped ==
            Extended(w.Of(p).skipped, header.ratchet,
                     Labelled(header.ratchet, SkippedBetween(w.Of(p).receiving.value, header.messageNumber)))
    ensures Passed(w', p, w.Generation(p) - 1) == header.messageNumber + 1
    ensures w'.Of(p).receiving == Some(Chain(Advance(ChainAt(w.sk, w.keys, w.Generation(p) - 1), header.messageNumber + 1),
                                             header.messageNumber + 1))
    ensures w'.Of(p) == w.Of(p).(receiving := w'.Of(p).receiving, skipped := w'.Of(p).skipped)
  {
    assert InStep(w, p);
    var chain := w.Of(p).receiving.value;
    AdvanceAdds(ChainAt(w.sk, w.keys, w.Generation(p) - 1), chain.next, header.messageNumber + 1 - chain.next);
  }

  /** Where the old store and chain stand once a frame of the chain is accepted. */
  lemma CurrentInPlace(w: World, w': World, p: Party, header: RatchetHeader)
    requires AcceptsInChain(w, w', p, header) && MovesOn(w, w', p)
    ensures w'.Generation(p) == w.Generation(p) && Owner(w.Generation(p) - 1) == p.Peer()
    ensures w.Of(p).receiving.Some? && w.Of(p).remoteRatchet == Some(header.ratchet)
    ensures header.ratchet == Pub(w'.keys[w.Generation(p) - 1])
    ensures Holds(w', p, w.Of(p).skipped)
    ensures Below(w'.keys, w.Of(p).skipped, w.Generation(p) - 1, w.Of(p).receiving.value.next)
    ensures w.Of(p).receiving.value.key ==
            Advance(ChainAt(w'.sk, w'.keys, w.Generation(p) - 1), w.Of(p).receiving.value.next)
    ensures header.messageNumber <= Passed(w', p, w.Generation(p) - 1)
    ensures header.messageNumber < w'.sent[w.Generation(p) - 1]
    ensures w'.Of(p).skipped ==
            Extended(w.Of(p).skipped, header.ratchet,
                     Labelled(header.ratchet, SkippedBetween(w.Of(p).receiving.value, header.messageNumber)))
  {
    CurrentChainStored(w, w', p, header);
    StoreIsBelowCurrent(w, p);
    OwnStoreIsKept(w, w', p);
  }

  lemma CurrentChainKeepsStore(w: World, w': World, p: Party, header: RatchetHeader)
    requires AcceptsInChain(w, w', p, header) && MovesOn(w, w', p)
    ensures StoreInStep(w', p)
  {
    CurrentInPlace(w, w', p, header);
    ExtendedStaysInStep(w', p, w.Of(p).skipped, w.Generation(p) - 1, w.Of(p).receiving.value, header.messageNumber);
  }

  /** The same of the store a session ends with. */
  lemma ExtendedStaysInStep(w: World, p: Party, s: seq<Skipped>, j: nat, chain: Chain, until: U32)
    requires w.Shape() && Holds(w, p, s) && 0 < j < w.Generation(p) && Owner(j) == p.Peer()
    requires Below(w.keys, s, j, chain.next)
    requires chain.key == Advance(ChainAt(w.sk, w.keys, j), chain.next) && until <= Passed(w, p, j)
    requires w.Of(p).skipped == Extended(s, Pub(w.keys[j]), Labelled(Pub(w.keys[j]), SkippedBetween(chain, until)))
    ensures StoreInStep(w, p)
  {
    var t := ExtendedHolds(w, p, s, j, chain, until);
  }

  /** Every stored key of the current chain lies below its counter. */
  lemma StoreIsBelowCurrent(w: World, p: Party)
    requires LockStep(w) && w.Generation(p) >= 2
    ensures w.Of(p).receiving.Some?
    ensures Below(w.keys, w.Of(p).skipped, w.Generation(p) - 1, w.Of(p).receiving.value.next)
  {
    var s := w.Of(p).skipped;
    assert InStep(w, p) && StoreInStep(w, p);
    forall i | 0 <= i < |s|
      ensures WentPast(w, p, Name(s[i]))
    {
      assert EntryInStep(w, p, s[i]);
    }
  }

  /** A party draws its next ratchet key. */
  ghost predicate GainsKey(w: World, w': World, p: Party) {
    && LockStep(w)
    && w.Generation(p) + 1 == |w.keys| - 1
    && w'.sk == w.sk && w'.Of(p.Peer()) == w.Of(p.Peer())
    && w'.keys == w.keys + [w'.Of(p).ownRatchet] && w'.Of(p).ownRatchet !in w.keys && w'.sent == w.sent + [0]
  }

  /** Acceptance of a frame of the peer's next chain. */
  ghost predicate AcceptsNext(w: World, w': World, p: Party, header: RatchetHeader) {
    && GainsKey(w, w', p)
    && var g := w.Generation(p);
    && header.ratchet == Pub(w.keys[g + 1]) && header.previousChainLen == PreviousLen(w.sent, g + 1)
    && header.messageNumber < w.sent[g + 1]
    && var next := AfterRatchetStep(w.Of(p), header, Ok(w'.Of(p).ownRatchet));
    && next.Ok? && next.value.next == w'.Of(p)
  }

  lemma NextChainGeneration(w: World, w': World, p: Party)
    requires GainsKey(w, w', p)
    ensures w'.Shape()
    ensures w'.Generation(p) == w.Generation(p) + 2 && w'.Generation(p.Peer()) == w.Generation(p.Peer())
  {
  }

  lemma NextChainMoves(w: World, w': World, p: Party)
    requires GainsKey(w, w', p)
    ensures OnlyMoves(w, w', p) && MovesOn(w, w', p)
    ensures w'.Generation(p) == w.Generation(p) + 2
  {
    NextChainGeneration(w, w', p);
    assert InStep(w, p);
  }

  lemma NextChainKeys(w: World, w': World, p: Party, header: RatchetHeader)
    requires AcceptsNext(w, w', p, header) && w'.Shape()
    requires w'.Generation(p) == w.Generation(p) + 2
    ensures w'.Of(p).rootKey == RootAt(w'.sk, w'.keys, w'.Generation(p))
    ensures w'.Of(p).sending == Some(Chain(ChainAt(w'.sk, w'.keys, w'.Generation(p)), 0))
    ensures w'.Of(p).receiving ==
            Some(MovedTo(Chain(ChainAt(w'.sk, w'.keys, w'.Generation(p) - 1), 0), header.messageNumber + 1))
  {
    assert InStep(w, p);
    RatchetStepFollowsSchedule(w.sk, w.keys, w'.Of(p).ownRatchet, w.Generation(p));
  }

  lemma NextChainStaysInStep(w: World, w': World, p: Party, header: RatchetHeader)
    requires AcceptsNext(w, w', p, header) && w'.Shape()
    requires w'.Generation(p) == w.Generation(p) + 2
    ensures InStep(w', p)
  {
    NextChainKeys(w, w', p, header);
    assert InStep(w, p);
  }

  /** Where the old store and chain stand once the next chain is opened. */
  lemma PreviousInPlace(w: World, w': World, p: Party)
    requires GainsKey(w, w', p) && MovesOn(w, w', p) && w'.Generation(p) == w.Generation(p) + 2
    requires w.Generation(p) >= 2
    ensures w.Of(p).receiving.Some? && w.Of(p).remoteRatchet == Some(Pub(w'.keys[w.Generation(p) - 1]))
    ensures Owner(w.Generation(p) - 1) == p.Peer()
    ensures w'.keys[w.Generation(p) - 1] == w.keys[w.Generation(p) - 1]
    ensures Passed(w', p, w.Generation(p) - 1) == w.sent[w.Generation(p) - 1] == w'.sent[w.Generation(p) - 1]
    ensures Holds(w', p, w.Of(p).skipped)
    ensures Below(w'.keys, w.Of(p).skipped, w.Generation(p) - 1, w.Of(p).receiving.value.next)
    ensures w.Of(p).receiving.value.key ==
            Advance(ChainAt(w'.sk, w'.keys, w.Generation(p) - 1), w.Of(p).receiving.value.next)
  {
    assert InStep(w, p);
    ScheduleExtended(w.sk, w.keys, w'.keys);
    OwnStoreIsKept(w, w', p);
    StoreIsBelowCurrent(w, p);
    BelowExtended(w, w', p, w.Generation(p) - 1, w.Of(p).receiving.value.next);
  }

  lemma PreviousStored(w: World, w': World, p: Party, previousChainLen: U32)
    returns (stored: seq<Skipped>)
    requires GainsKey(w, w', p) && MovesOn(w, w', p) && w'.Generation(p) == w.Generation(p) + 2
    requires previousChainLen == PreviousLen(w.sent, w.Generation(p) + 1)
    ensures stored == StoredFromPrevious(w.Of(p), previousChainLen)
    ensures Holds(w', p, stored) && Below(w'.keys, stored, w.Generation(p) + 1, 0)
  {
    var s, g := w.Of(p), w.Generation(p);
    OwnStoreIsKept(w, w', p);
    assert InStep(w, p);
    if g >= 2 {
      PreviousInPlace(w, w', p);
      stored := ExtendedHolds(w', p, s.skipped, g - 1, s.receiving.value, previousChainLen);
    } else {
      stored := s.skipped;
      StoreIsBelow(w, p);
      BelowExtended(w, w', p, g, 0);
    }
  }

  lemma StoreIsBelow(w: World, p: Party)
    requires LockStep(w)
    ensures Below(w.keys, w.Of(p).skipped, w.Generation(p), 0)
  {
    var s := w.Of(p).skipped;
    assert StoreInStep(w, p);
    forall i | 0 <= i < |s|
      ensures WentPast(w, p, Name(s[i]))
    {
      assert EntryInStep(w, p, s[i]);
    }
  }

  lemma NextChainKeepsStore(w: World, w': World, p: Party, header: RatchetHeader)
    requires AcceptsNext(w, w', p, header) && MovesOn(w, w', p) && InStep(w', p)
    requires w'.Generation(p) == w.Generation(p) + 2
    ensures StoreInStep(w', p)
  {
    var g := w.Generation(p);
    var stored := PreviousStored(w, w', p, header.previousChainLen);
    NextChainStored(w, w', p, header, stored);
    assert Passed(w', p, g + 1) == header.messageNumber + 1 by {
      NextChainKeys(w, w', p, header);
    }
    ExtendedStaysInStep(w', p, stored, g + 1, Chain(ChainAt(w'.sk, w'.keys, g + 1), 0), header.messageNumber);
  }

  lemma NextChainStored(w: World, w': World, p: Party, header: RatchetHeader, stored: seq<Skipped>)
    requires AcceptsNext(w, w', p, header)
    requires stored == StoredFromPrevious(w.Of(p), header.previousChainLen)
    ensures 0 < w.Generation(p) + 1 < |w'.keys| && header.ratchet == Pub(w'.keys[w.Generation(p) + 1])
    ensures w'.Of(p).skipped ==
            Extended(stored, header.ratchet, Labelled(header.ratchet,
              SkippedBetween(Chain(ChainAt(w'.sk, w'.keys, w.Generation(p) + 1), 0), header.messageNumber)))
  {
    assert InStep(w, p);
    ScheduleExtended(w.sk, w.keys, w'.keys);
  }

  lemma BelowExtended(w: World, w': World, p: Party, j: nat, number: nat)
    requires LockStep(w) && MovesOn(w, w', p)
    requires Below(w.keys, w.Of(p).skipped, j, number)
    ensures Below(w'.keys, w.Of(p).skipped, j, number)
  {
    var s := w.Of(p).skipped;
    assert StoreInStep(w, p);
    forall i | 0 <= i < |s|
      ensures IndexOf(w'.keys, s[i].ratchet) == IndexOf(w.keys, s[i].ratchet)
    {
      assert EntryInStep(w, p, s[i]);
      OwnEntryIsKept(w, w', p, Name(s[i]));
    }
  }

  /** What the three readings make of an acceptance. */
  lemma ReadingShape(a: Attacker, w: World, p: Party, frame: SealedFrame, drawn: Result<PrivateKey, CryptoError>)
    returns (w': World, m: Sent, reading: Reading)
    requires LockStep(w) && Outsider(a, w.sk) && Enabled(a, w, Deliver(p, frame, drawn))
    requires Decrypt(w.Of(p), frame, drawn).1.Ok?
    ensures w' == Step(w, Deliver(p, frame, drawn))
    ensures m.frame == frame && Reads(w, p, frame, m.chain, reading)
    ensures reading.FromStore? ==> w'.Of(p).skipped == Without(w.Of(p).skipped, reading.index)
    ensures reading.InCurrentChain? ==> AcceptsInChain(w, w', p, frame.header)
    ensures reading.InNextChain? ==> AcceptsNext(w, w', p, frame.header)
  {
    var k;
    w', k, reading := AcceptShape(a, w, p, frame, drawn);
    m := w.log[k];
  }

  // ---------- Runs ----------

  /** What the accepting party's step does, whichever way the frame is read. */
  lemma AcceptKeeps(a: Attacker, w: World, p: Party, frame: SealedFrame, drawn: Result<PrivateKey, CryptoError>)
    returns (w': World, k: nat, reading: Reading)
    requires LockStep(w) && Outsider(a, w.sk) && Enabled(a, w, Deliver(p, frame, drawn))
    requires Decrypt(w.Of(p), frame, drawn).1.Ok?
    ensures w' == Step(w, Deliver(p, frame, drawn))
    ensures k < |w.log| && w.log[k].frame == frame && Genuine(w, w.log[k])
    ensures Decrypt(w.Of(p), frame, drawn).1 == Ok(w.log[k].plaintext)
    ensures Owner(w.log[k].chain) == p.Peer() && Reads(w, p, frame, w.log[k].chain, reading)
    ensures w'.log == w.log && w'.accepted == w.accepted + [Accepted(p, frame, w.log[k].plaintext)]
    ensures OnlyMoves(w, w', p) && MovesOn(w, w', p)
    ensures InStep(w', p) && StoreInStep(w', p)
  {
    w', k, reading := AcceptShape(a, w, p, frame, drawn);
    match reading
    case FromStore(index) =>
      StoredFrameMoves(w, w', p, index);
      StoredFrameKeepsStore(w, w', p, index);
    case InCurrentChain =>
      CurrentChainMoves(w, w', p, frame.header);
      CurrentChainKeepsStore(w, w', p, frame.header);
    case InNextChain =>
      NextChainMoves(w, w', p);
      NextChainStaysInStep(w, w', p, frame.header);
      NextChainKeepsStore(w, w', p, frame.header);
  }

  lemma DeliverKeepsLockStep(a: Attacker, w: World, p: Party, frame: SealedFrame, drawn: Result<PrivateKey, CryptoError>)
    requires LockStep(w) && Outsider(a, w.sk) && Enabled(a, w, Deliver(p, frame, drawn))
    ensures LockStep(Step(w, Deliver(p, frame, drawn)))
  {
    if Decrypt(w.Of(p), frame, drawn).1.Ok? {
      var w', _, _ := AcceptKeeps(a, w, p, frame, drawn);
      BystanderStaysInStep(w, w', p);
      LogStaysGenuine(w, w', p);
      BothParties(w', p);
    }
  }

  lemma StepKeepsLockStep(a: Attacker, w: World, action: Action)
    requires LockStep(w) && Outsider(a, w.sk) && Enabled(a, w, action)
    ensures LockStep(Step(w, action)) && Step(w, action).sk == w.sk
  {
    match action
    case Send(from, nonce, plaintext) => SendKeepsLockStep(w, from, nonce, plaintext);
    case Deliver(to, frame, drawn) => DeliverKeepsLockStep(a, w, to, frame, drawn);
  }
}

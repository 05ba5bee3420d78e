/**
 What a conversation has done with every frame: each frame a party has gone
 past was opened once, or its key is retained, or its key was evicted, and
 never two of these.
*/
module History {
  import opened Results
  import opened Terms
  import opened Attacker
  import opened Schedule
  import opened SkippedStore
  import opened RatchetSpec
  import opened Conversation
  import opened LockStepProof

  function OpenedNames(w: World): set<FrameName> {
    set i | 0 <= i < |w.accepted| :: NameOf(w.accepted[i].frame.header)
  }

  ghost predicate Retained(w: World, p: Party, name: FrameName) {
    name in Names(w.Of(p).skipped)
  }

  /** The peer sealed exactly this frame, with this plaintext. */
  ghost predicate SealedByPeer(w: World, m: Accepted) {
    exists k :: 0 <= k < |w.log| && w.log[k].frame == m.frame && w.log[k].plaintext == m.plaintext &&
                Owner(w.log[k].chain) == m.receiver.Peer()
  }

  ghost predicate AcceptedInStep(w: World)
    requires w.Shape()
  {
    && (forall i :: 0 <= i < |w.accepted| ==>
          SealedByPeer(w, w.accepted[i]) && WentPast(w, w.accepted[i].receiver, NameOf(w.accepted[i].frame.header)))
    && (forall i, j :: 0 <= i < j < |w.accepted| ==>
          NameOf(w.accepted[i].frame.header) != NameOf(w.accepted[j].frame.header))
  }

  /** One of: opened, retained, evicted. */
  ghost predicate Accounted(w: World, p: Party, name: FrameName) {
    && (name in OpenedNames(w) || Retained(w, p, name) || name in w.evicted)
    && !(name in OpenedNames(w) && Retained(w, p, name))
    && !(name in OpenedNames(w) && name in w.evicted)
    && !(Retained(w, p, name) && name in w.evicted)
  }

  ghost predicate HistoryInStep(w: World)
    requires w.Shape()
  {
    && AcceptedInStep(w)
    && (forall p, name :: WentPast(w, p, name) ==> Accounted(w, p, name))
    && (forall name :: name in w.evicted ==> WentPast(w, Owner(Max0(IndexOf(w.keys, name.0))).Peer(), name))
  }

  function Max0(n: int): nat {
    if n < 0 then 0 else n
  }

  lemma StartsWithHistory(sk: Key, prekey: PrivateKey, first: PrivateKey)
    requires prekey != first
    ensures HistoryInStep(Start(sk, prekey, first))
  {
  }

  // ---------- Names ----------

  lemma MatchIsMembership(s: seq<Skipped>, name: FrameName)
    ensures FirstMatch(s, name) < |s| <==> name in Names(s)
  {
  }

  lemma NamesOfSubsequence(t: seq<Skipped>, s: seq<Skipped>)
    requires Subsequence(t, s)
    ensures Names(t) <= Names(s)
  {
  }

  lemma NamesOfExtended(s: seq<Skipped>, ratchet: PublicKey, chain: Chain, until: U32)
    ensures Names(Extended(s, ratchet, Labelled(ratchet, SkippedBetween(chain, until))))
         <= Names(s) + set n | chain.next <= n < until :: (ratchet, n)
  {
    var added := Labelled(ratchet, SkippedBetween(chain, until));
    ExtendedIsSubsequence(s, ratchet, added);
    NamesOfSubsequence(Extended(s, ratchet, added), s + added);
    forall name | name in Names(s + added)
      ensures name in Names(s) + set n | chain.next <= n < until :: (ratchet, n)
    {
      var i :| 0 <= i < |s + added| && Name((s + added)[i]) == name;
      if i < |s| {
        assert Name(s[i]) == name;
      } else {
        assert name == (ratchet, chain.next + (i - |s|));
      }
    }
  }

  // ---------- What an acceptance goes past ----------

  /** Acceptance goes past exactly the accepted frame and the ones it skips;
      none of these had been gone past, unless the frame came from the store;
      and what is stored afterwards was stored before or has been skipped. */
  ghost predicate GoesPast(w: World, w': World, p: Party, header: RatchetHeader)
    requires w.Shape() && w'.Shape()
  {
    var N, skips := NameOf(header), PassedOver(w.Of(p), header);
    && (forall name: FrameName :: WentPast(w', p, name) <==> (WentPast(w, p, name) || name in skips || name == N))
    && (forall name :: name in skips ==> !WentPast(w, p, name))
    && N !in skips
    && Names(w'.Of(p).skipped) <= Names(w.Of(p).skipped) + skips
    && N !in Names(w'.Of(p).skipped)
    && (Retained(w, p, N) || !WentPast(w, p, N))
  }

  /** A sorted store holds no name twice. */
  lemma SortedNamesAreUnique(keys: seq<PrivateKey>, s: seq<Skipped>, i: nat, k: nat)
    requires Sorted(keys, s) && i < |s| && k < |s|
    ensures Name(s[i]) == Name(s[k]) <==> i == k
  {
  }

  lemma RemovalForgetsTheName(keys: seq<PrivateKey>, s: seq<Skipped>, index: nat)
    requires Sorted(keys, s) && index < |s|
    ensures Names(Without(s, index)) == Names(s) - {Name(s[index])}
  {
    var t := Without(s, index);
    forall name: FrameName
      ensures name in Names(t) <==> name in Names(s) && name != Name(s[index])
    {
      if name in Names(t) {
        var i :| 0 <= i < |t| && Name(t[i]) == name;
        var k := if i < index then i else i + 1;
        assert t[i] == s[k];
        SortedNamesAreUnique(keys, s, k, index);
      }
      if name in Names(s) && name != Name(s[index]) {
        var k :| 0 <= k < |s| && Name(s[k]) == name;
        assert s[k] == t[if k < index then k else k - 1];
      }
    }
  }

  lemma SameProgressSamePast(w: World, w': World, p: Party)
    requires w.Shape() && w'.Shape() && w'.keys == w.keys && w'.sent == w.sent
    requires w'.Of(p).receiving == w.Of(p).receiving
    ensures forall name: FrameName :: WentPast(w', p, name) <==> WentPast(w, p, name)
  {
  }

  lemma StoredFrameGoesPast(w: World, w': World, p: Party, header: RatchetHeader, index: nat)
    requires LockStep(w) && index == FirstMatch(w.Of(p).skipped, NameOf(header)) < |w.Of(p).skipped|
    requires w'.keys == w.keys && w'.sent == w.sent && w'.Shape()
    requires w'.Of(p) == w.Of(p).(skipped := Without(w.Of(p).skipped, index))
    ensures GoesPast(w, w', p, header)
  {
    var s := w.Of(p).skipped;
    assert Sorted(w.keys, s) by {
      assert StoreInStep(w, p);
    }
    RemovalForgetsTheName(w.keys, s, index);
    MatchIsMembership(s, NameOf(header));
    SameProgressSamePast(w, w', p);
    assert PassedOver(w.Of(p), header) == {};
    StoredWentPast(w, p, index);
  }

  lemma StoredWentPast(w: World, p: Party, index: nat)
    requires LockStep(w) && index < |w.Of(p).skipped|
    ensures WentPast(w, p, Name(w.Of(p).skipped[index]))
  {
    assert StoreInStep(w, p);
    assert EntryInStep(w, p, w.Of(p).skipped[index]);
  }

  lemma CurrentFrameGoesPast(w: World, w': World, p: Party, header: RatchetHeader)
    requires AcceptsInChain(w, w', p, header) && w'.Shape()
    requires FirstMatch(w.Of(p).skipped, NameOf(header)) == |w.Of(p).skipped|
    ensures GoesPast(w, w', p, header)
  {
    var s, g := w.Of(p), w.Generation(p);
    assert InStep(w, p);
    CurrentChainStored(w, w', p, header);
    IndexOfKey(w.keys, g - 1);
    MatchIsMembership(s.skipped, NameOf(header));
    NamesOfExtended(s.skipped, header.ratchet, s.receiving.value, header.messageNumber);
    CurrentPast(w, w', p, header);
  }

  lemma CurrentPast(w: World, w': World, p: Party, header: RatchetHeader)
    requires w.Shape() && w'.Shape() && w'.keys == w.keys && w'.sent == w.sent
    requires w.Generation(p) >= 2 && header.ratchet == Pub(w.keys[w.Generation(p) - 1])
    requires w.Of(p).receiving.Some? && w'.Of(p).receiving.Some?
    requires w.Of(p).receiving.value.next <= header.messageNumber == w'.Of(p).receiving.value.next - 1
    ensures forall name: FrameName :: WentPast(w', p, name) <==>
              (WentPast(w, p, name) || name == NameOf(header) ||
               (name.0 == header.ratchet && w.Of(p).receiving.value.next <= name.1 < header.messageNumber))
    ensures forall name: FrameName :: name.0 == header.ratchet && w.Of(p).receiving.value.next <= name.1 ==> !WentPast(w, p, name)
  {
  }

  lemma NextFrameGoesPast(w: World, w': World, p: Party, header: RatchetHeader)
    requires AcceptsNext(w, w', p, header) && InStep(w', p)
    requires w'.Generation(p) == w.Generation(p) + 2
    requires OpensNewChain(w.Of(p), header)
    ensures GoesPast(w, w', p, header)
  {
    NextPast(w, w', p, header);
    NextStored(w, w', p, header);
    MatchIsMembership(w.Of(p).skipped, NameOf(header));
    assert InStep(w, p);
    var s, g := w.Of(p), w.Generation(p);
    IndexOfKey(w.keys, g + 1);
    assert !WentPast(w, p, NameOf(header));
    if g >= 2 {
      IndexOfKey(w.keys, g - 1);
    }
  }

  lemma NextPast(w: World, w': World, p: Party, header: RatchetHeader)
    requires AcceptsNext(w, w', p, header) && OpensNewChain(w.Of(p), header) && w'.Shape()
    requires w'.Generation(p) == w.Generation(p) + 2
    ensures forall name: FrameName :: WentPast(w', p, name) <==>
              (WentPast(w, p, name) || name in PassedOver(w.Of(p), header) || name == NameOf(header))
    ensures forall name: FrameName :: name in PassedOver(w.Of(p), header) ==> !WentPast(w, p, name)
  {
    assert InStep(w, p);
    PassedAfter(w, w', p, header);
    forall name: FrameName
      ensures WentPast(w', p, name) <==>
              (WentPast(w, p, name) || name in PassedOver(w.Of(p), header) || name == NameOf(header))
      ensures name in PassedOver(w.Of(p), header) ==> !WentPast(w, p, name)
    {
      NextPastOf(w, w', p, header, name);
    }
  }

  lemma NextPastOf(w: World, w': World, p: Party, header: RatchetHeader, name: FrameName)
    requires GainsKey(w, w', p) && w'.Shape() && InStep(w, p)
    requires w'.Generation(p) == w.Generation(p) + 2 && OpensNewChain(w.Of(p), header)
    requires header.ratchet == Pub(w.keys[w.Generation(p) + 1])
    requires header.previousChainLen == PreviousLen(w.sent, w.Generation(p) + 1)
    requires forall j {:trigger Passed(w', p, j)} :: 0 <= j < w.Generation(p) ==> Passed(w', p, j) == w.sent[j]
    requires Passed(w', p, w.Generation(p) + 1) == header.messageNumber + 1
    ensures WentPast(w', p, name) <==>
            (WentPast(w, p, name) || name in PassedOver(w.Of(p), header) || name == NameOf(header))
    ensures name in PassedOver(w.Of(p), header) ==> !WentPast(w, p, name)
  {
    var s, g := w.Of(p), w.Generation(p);
    var j := IndexOf(w'.keys, name.0);
    if j < 0 || j > g + 1 {
      NotAnOldKey(w, w', p, name.0);
    } else {
      assert w'.keys[j] == w.keys[j];
      IndexOfKey(w.keys, j);
      IndexOfKey(w.keys, g + 1);
      if g >= 2 {
        IndexOfKey(w.keys, g - 1);
      }
      assert Owner(j) == p.Peer() && j < g ==> j <= g - 1;
      NextPastIn(w, w', p, header, name, j);
    }
  }

  lemma NotAnOldKey(w: World, w': World, p: Party, ratchet: PublicKey)
    requires GainsKey(w, w', p) && w'.Shape()
    requires IndexOf(w'.keys, ratchet) < 0 || IndexOf(w'.keys, ratchet) >= |w.keys|
    ensures IndexOf(w.keys, ratchet) < 0
    ensures forall i :: 0 <= i < |w.keys| ==> Pub(w.keys[i]) != ratchet
  {
  }

  lemma NextPastIn(w: World, w': World, p: Party, header: RatchetHeader, name: FrameName, j: nat)
    requires GainsKey(w, w', p) && w'.Shape() && InStep(w, p)
    requires w'.Generation(p) == w.Generation(p) + 2 && OpensNewChain(w.Of(p), header)
    requires header.ratchet == Pub(w.keys[w.Generation(p) + 1])
    requires header.previousChainLen == PreviousLen(w.sent, w.Generation(p) + 1)
    requires forall j {:trigger Passed(w', p, j)} :: 0 <= j < w.Generation(p) ==> Passed(w', p, j) == w.sent[j]
    requires Passed(w', p, w.Generation(p) + 1) == header.messageNumber + 1
    requires j == IndexOf(w'.keys, name.0) == IndexOf(w.keys, name.0) && j <= w.Generation(p) + 1
    ensures WentPast(w', p, name) <==>
            (WentPast(w, p, name) || name in PassedOver(w.Of(p), header) || name == NameOf(header))
    ensures name in PassedOver(w.Of(p), header) ==> !WentPast(w, p, name)
  {
    PassedOverIn(w, p, header, name, j);
    NextPastCases(w, w', p, header, name, j, name in PassedOver(w.Of(p), header));
  }

  lemma NextPastCases(w: World, w': World, p: Party, header: RatchetHeader, name: FrameName, j: nat, skipped: bool)
    requires w.Shape() && w'.Shape() && w'.Generation(p) == w.Generation(p) + 2
    requires w.Generation(p) + 1 == |w.keys| - 1
    requires j == IndexOf(w'.keys, name.0) == IndexOf(w.keys, name.0) && j <= w.Generation(p) + 1
    requires w.Of(p).receiving.Some? <==> w.Generation(p) >= 2
    requires j < w.Generation(p) ==> Passed(w, p, j) <= w.sent[j] && Passed(w', p, j) == w.sent[j]
    requires Passed(w', p, w.Generation(p) + 1) == header.messageNumber + 1
    requires name.0 == header.ratchet <==> j == w.Generation(p) + 1
    requires skipped <==> (j == w.Generation(p) + 1 && name.1 < header.messageNumber) ||
                          (w.Generation(p) >= 2 && j + 1 == w.Generation(p) && Passed(w, p, j) <= name.1 < w.sent[j])
    requires w.Generation(p) == 1 ==> w.sent[0] == 0
    ensures WentPast(w', p, name) <==> (WentPast(w, p, name) || skipped || name == NameOf(header))
    ensures skipped ==> !WentPast(w, p, name)
  {
  }

  /** The skipped frames of a ratchet step, told by the index of their chain. */
  lemma PassedOverIn(w: World, p: Party, header: RatchetHeader, name: FrameName, j: nat)
    requires w.Shape() && InStep(w, p) && OpensNewChain(w.Of(p), header)
    requires w.Generation(p) + 1 < |w.keys| && header.ratchet == Pub(w.keys[w.Generation(p) + 1])
    requires header.previousChainLen == PreviousLen(w.sent, w.Generation(p) + 1)
    requires j == IndexOf(w.keys, name.0)
    ensures var g := w.Generation(p);
            && (name.0 == header.ratchet <==> j == g + 1)
            && (name in PassedOver(w.Of(p), header) <==>
                (j == g + 1 && name.1 < header.messageNumber) ||
                (g >= 2 && j + 1 == g && Passed(w, p, j) <= name.1 < w.sent[j]))
  {
  }

  lemma PassedAfter(w: World, w': World, p: Party, header: RatchetHeader)
    requires AcceptsNext(w, w', p, header) && w'.Shape()
    requires w'.Generation(p) == w.Generation(p) + 2
    ensures forall j {:trigger Passed(w', p, j)} :: 0 <= j < w.Generation(p) ==>
              Passed(w', p, j) == w.sent[j]
    ensures Passed(w', p, w.Generation(p) + 1) == header.messageNumber + 1
  {
  }

  lemma NextStored(w: World, w': World, p: Party, header: RatchetHeader)
    requires AcceptsNext(w, w', p, header) && OpensNewChain(w.Of(p), header)
    ensures Names(w'.Of(p).skipped) <= Names(w.Of(p).skipped) + PassedOver(w.Of(p), header)
    ensures NameOf(header) !in Names(w'.Of(p).skipped)
  {
    var s := w.Of(p);
    assert InStep(w, p);
    var stored := StoredFromPrevious(s, header.previousChainLen);
    NextChainStored(w, w', p, header, stored);
    if s.receiving.Some? {
      NamesOfExtended(s.skipped, s.remoteRatchet.value, s.receiving.value, header.previousChainLen);
    }
    var chain := Chain(ChainAt(w'.sk, w'.keys, w.Generation(p) + 1), 0);
    NamesOfExtended(stored, header.ratchet, chain, header.messageNumber);
    MatchIsMembership(s.skipped, NameOf(header));
  }

  // ---------- Every step keeps the history accounted for ----------

  /** The other party has gone past the same frames as before. */
  lemma BystanderPast(w: World, w': World, p: Party)
    requires w.Shape() && OnlyMoves(w, w', p)
    ensures forall name: FrameName :: WentPast(w', p.Peer(), name) <==> WentPast(w, p.Peer(), name)
  {
  }

  lemma AcceptGoesPast(a: Attacker, w: World, p: Party, frame: SealedFrame, drawn: Result<PrivateKey, CryptoError>)
    returns (w': World, k: nat)
    requires LockStep(w) && Outsider(a, w.sk) && Enabled(a, w, Deliver(p, frame, drawn))
    requires Decrypt(w.Of(p), frame, drawn).1.Ok?
    ensures w' == Step(w, Deliver(p, frame, drawn))
    ensures k < |w.log| && w.log[k].frame == frame && Owner(w.log[k].chain) == p.Peer()
    ensures Genuine(w, w.log[k])
    ensures w'.log == w.log && w'.accepted == w.accepted + [Accepted(p, frame, w.log[k].plaintext)]
    ensures OnlyMoves(w, w', p) && GoesPast(w, w', p, frame.header)
    ensures w'.evicted == w.evicted + (Names(w.Of(p).skipped) + PassedOver(w.Of(p), frame.header)
                                       - Names(w'.Of(p).skipped) - {NameOf(frame.header)})
  {
    var reading;
    w', k, reading := AcceptKeeps(a, w, p, frame, drawn);
    var w1, k1, r1 := AcceptShape(a, w, p, frame, drawn);
    ReadingGoesPast(w, w', p, w.log[k1], r1);
  }

  lemma ReadingGoesPast(w: World, w': World, p: Party, m: Sent, reading: Reading)
    requires LockStep(w) && w'.Shape() && InStep(w', p) && Reads(w, p, m.frame, m.chain, reading)
    requires reading.FromStore? ==>
               && w'.keys == w.keys && w'.sent == w.sent
               && w'.Of(p) == w.Of(p).(skipped := Without(w.Of(p).skipped, reading.index))
    requires reading.InCurrentChain? ==> AcceptsInChain(w, w', p, m.frame.header)
    requires reading.InNextChain? ==> AcceptsNext(w, w', p, m.frame.header)
    ensures GoesPast(w, w', p, m.frame.header)
  {
    match reading
    case FromStore(index) => StoredFrameGoesPast(w, w', p, m.frame.header, index);
    case InCurrentChain => CurrentFrameGoesPast(w, w', p, m.frame.header);
    case InNextChain =>
      NextChainGeneration(w, w', p);
      NextFrameGoesPast(w, w', p, m.frame.header);
  }

  lemma NamesTellReceivers(w: World, name: FrameName)
    requires w.Shape()
    ensures !(WentPast(w, Alice, name) && WentPast(w, Bob, name))
  {
  }

  /** The names of the frames a party has opened, the rest being its peer's. */
  lemma OpenedNamesGrow(w: World, w': World, m: Accepted)
    requires w'.accepted == w.accepted + [m]
    ensures OpenedNames(w') == OpenedNames(w) + {NameOf(m.frame.header)}
  {
    forall name: FrameName
      ensures name in OpenedNames(w') <==> name in OpenedNames(w) || name == NameOf(m.frame.header)
    {
      if name in OpenedNames(w) {
        var i :| 0 <= i < |w.accepted| && NameOf(w.accepted[i].frame.header) == name;
        assert w'.accepted[i] == w.accepted[i];
      }
      assert w'.accepted[|w.accepted|] == m;
    }
  }

  /** Bookkeeping of an acceptance, in terms of names alone. */
  ghost predicate AcceptsName(w: World, w': World, p: Party, m: Accepted) {
    && LockStep(w) && HistoryInStep(w) && OnlyMoves(w, w', p)
    && m.receiver == p && w'.accepted == w.accepted + [m]
    && GoesPast(w, w', p, m.frame.header)
    && w'.evicted == w.evicted + (Names(w.Of(p).skipped) + PassedOver(w.Of(p), m.frame.header)
                                  - Names(w'.Of(p).skipped) - {NameOf(m.frame.header)})
  }

  lemma RetainedWentPast(w: World, p: Party, name: FrameName)
    requires LockStep(w) && Retained(w, p, name)
    ensures WentPast(w, p, name)
  {
    assert StoreInStep(w, p);
    var i :| 0 <= i < |w.Of(p).skipped| && Name(w.Of(p).skipped[i]) == name;
    assert EntryInStep(w, p, w.Of(p).skipped[i]);
  }

  lemma EvictedByReceiver(w: World, p: Party, name: FrameName)
    requires w.Shape() && HistoryInStep(w) && name in w.evicted
    ensures WentPast(w, p, name) || WentPast(w, p.Peer(), name)
    ensures WentPast(w, p, name) <==> Owner(Max0(IndexOf(w.keys, name.0))).Peer() == p
  {
  }

  lemma OpenedWentPast(w: World, p: Party, name: FrameName)
    requires w.Shape() && HistoryInStep(w) && name in OpenedNames(w)
    ensures WentPast(w, p, name) || WentPast(w, p.Peer(), name)
  {
  }

  /** No name is opened a second time. */
  lemma AcceptedNameIsNew(w: World, w': World, p: Party, m: Accepted)
    requires AcceptsName(w, w', p, m)
    ensures NameOf(m.frame.header) !in OpenedNames(w) && NameOf(m.frame.header) !in w.evicted
  {
    var N := NameOf(m.frame.header);
    assert WentPast(w', p, N);
    if WentPast(w, p, N) {
      assert Accounted(w, p, N);
    } else if N in OpenedNames(w) || N in w.evicted {
      if N in OpenedNames(w) {
        OpenedWentPast(w, p, N);
      } else {
        EvictedByReceiver(w, p, N);
      }
      BystanderPast(w, w', p);
      NamesTellReceivers(w', N);
    }
  }

  lemma OwnNamesStayAccounted(w: World, w': World, p: Party, m: Accepted, name: FrameName)
    requires AcceptsName(w, w', p, m) && WentPast(w', p, name)
    ensures Accounted(w', p, name)
  {
    var N := NameOf(m.frame.header);
    OpenedNamesGrow(w, w', m);
    AcceptedNameIsNew(w, w', p, m);
    if WentPast(w, p, name) {
      assert Accounted(w, p, name);
    } else {
      if name in OpenedNames(w) {
        OpenedWentPast(w, p, name);
        BystanderPast(w, w', p);
        NamesTellReceivers(w', name);
      }
      if name in w.evicted {
        EvictedByReceiver(w, p, name);
        BystanderPast(w, w', p);
        NamesTellReceivers(w', name);
      }
      if Retained(w, p, name) {
        RetainedWentPast(w, p, name);
      }
    }
  }

  lemma OtherNamesStayAccounted(w: World, w': World, p: Party, m: Accepted, name: FrameName)
    requires AcceptsName(w, w', p, m) && WentPast(w', p.Peer(), name)
    ensures Accounted(w', p.Peer(), name)
  {
    assert name in PassedOver(w.Of(p), m.frame.header) ==> WentPast(w', p, name);
    BystanderPast(w, w', p);
    assert Accounted(w, p.Peer(), name);
    OpenedNamesGrow(w, w', m);
    NamesTellReceivers(w', name);
    assert WentPast(w', p, NameOf(m.frame.header));
    if Retained(w, p, name) {
      RetainedWentPast(w, p, name);
      NamesTellReceivers(w, name);
    }
  }

  lemma AcceptKeepsOpened(w: World, w': World, p: Party, m: Accepted)
    requires AcceptsName(w, w', p, m) && SealedByPeer(w, m) && w'.log == w.log
    ensures AcceptedInStep(w')
  {
    AcceptedNameIsNew(w, w', p, m);
    BystanderPast(w, w', p);
    forall i | 0 <= i < |w'.accepted|
      ensures SealedByPeer(w', w'.accepted[i])
      ensures WentPast(w', w'.accepted[i].receiver, NameOf(w'.accepted[i].frame.header))
    {
      if i < |w.accepted| {
        var o := w.accepted[i];
        assert SealedByPeer(w, o) && WentPast(w, o.receiver, NameOf(o.frame.header));
        assert o.receiver == p || o.receiver == p.Peer();
      }
    }
    forall i, j | 0 <= i < j < |w'.accepted|
      ensures NameOf(w'.accepted[i].frame.header) != NameOf(w'.accepted[j].frame.header)
    {
      if j == |w.accepted| {
        assert NameOf(w.accepted[i].frame.header) in OpenedNames(w);
      }
    }
  }

  lemma AcceptKeepsHistory(w: World, w': World, p: Party, m: Accepted)
    requires AcceptsName(w, w', p, m) && SealedByPeer(w, m) && w'.log == w.log
    ensures HistoryInStep(w')
  {
    AcceptKeepsOpened(w, w', p, m);
    forall q, name: FrameName | WentPast(w', q, name)
      ensures Accounted(w', q, name)
    {
      if q == p {
        OwnNamesStayAccounted(w, w', p, m, name);
      } else {
        OtherNamesStayAccounted(w, w', p, m, name);
      }
    }
    forall name | name in w'.evicted
      ensures WentPast(w', Owner(Max0(IndexOf(w'.keys, name.0))).Peer(), name)
    {
      EvictedStays(w, w', p, m, name);
    }
  }

  lemma EvictedStays(w: World, w': World, p: Party, m: Accepted, name: FrameName)
    requires AcceptsName(w, w', p, m) && name in w'.evicted
    ensures WentPast(w', Owner(Max0(IndexOf(w'.keys, name.0))).Peer(), name)
  {
    BystanderPast(w, w', p);
    if name in w.evicted {
      EvictedByReceiver(w, p, name);
    } else if Retained(w, p, name) {
      RetainedWentPast(w, p, name);
    }
    assert WentPast(w', p, name) || WentPast(w', p.Peer(), name);
  }

  lemma SendKeepsHistory(w: World, from: Party, nonce: Result<Nonce, CryptoError>, plaintext: Plaintext)
    requires LockStep(w) && HistoryInStep(w)
    ensures Step(w, Send(from, nonce, plaintext)).Shape()
    ensures HistoryInStep(Step(w, Send(from, nonce, plaintext)))
  {
    if Encrypt(w.Of(from), nonce, plaintext).1.Ok? {
      var w' := SendMoves(w, from, nonce, plaintext);
      BystanderPast(w, w', from);
      SenderPast(w, w', from);
      assert w'.Of(from).skipped == w.Of(from).skipped;
      forall q, name: FrameName
        ensures WentPast(w', q, name) == WentPast(w, q, name) && Accounted(w', q, name) == Accounted(w, q, name)
      {
        assert q == from || q == from.Peer();
      }
      forall i | 0 <= i < |w'.accepted|
        ensures SealedByPeer(w', w'.accepted[i])
      {
        var m := w.accepted[i];
        assert SealedByPeer(w, m);
        var k :| 0 <= k < |w.log| && w.log[k].frame == m.frame && w.log[k].plaintext == m.plaintext &&
                 Owner(w.log[k].chain) == m.receiver.Peer();
        assert w'.log[k] == w.log[k];
      }
    }
  }

  lemma SenderPast(w: World, w': World, p: Party)
    requires w.Shape() && OnlyMoves(w, w', p) && w'.keys == w.keys
    requires w'.Of(p).receiving == w.Of(p).receiving
    ensures forall name: FrameName :: WentPast(w', p, name) <==> WentPast(w, p, name)
  {
  }

  lemma StepKeepsHistory(a: Attacker, w: World, action: Action)
    requires LockStep(w) && HistoryInStep(w) && Outsider(a, w.sk) && Enabled(a, w, action)
    ensures Step(w, action).Shape() && HistoryInStep(Step(w, action))
  {
    match action
    case Send(from, nonce, plaintext) => SendKeepsHistory(w, from, nonce, plaintext);
    case Deliver(to, frame, drawn) =>
      if Decrypt(w.Of(to), frame, drawn).1.Ok? {
        var w', k := AcceptGoesPast(a, w, to, frame, drawn);
        AcceptKeepsHistory(w, w', to, Accepted(to, frame, w.log[k].plaintext));
      }
  }
}

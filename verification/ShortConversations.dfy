/**
 Conversations with at most 1 001 frames in every chain and 10 000 in all lose
 nothing: whatever the order, the losses, the duplicates and the forgeries, every
 frame opens exactly once. With 1 002 in a chain one may be refused.
*/
module ShortConversations {
  import opened Results
  import opened Terms
  import opened Attacker
  import opened Schedule
  import opened SkippedStore
  import opened RatchetSpec
  import opened Conversation
  import opened LockStepProof
  import opened History
  import opened Runs

  /** The last frame of a chain is never skipped by one of the same chain, so a
      chain may be one longer than a store for it. */
  const SHORT_CHAIN := 1001

  ghost predicate Short(w: World) {
    |w.log| <= 10_000 && forall j :: 0 <= j < |w.sent| ==> w.sent[j] <= SHORT_CHAIN
  }

  /** The receiving chain stands behind a frame that was opened. */
  ghost predicate LatestOpened(w: World) {
    forall p {:trigger w.Of(p)} :: w.Of(p).receiving.Some? && w.Of(p).remoteRatchet.Some? ==>
      && w.Of(p).receiving.value.next >= 1
      && (w.Of(p).remoteRatchet.value, w.Of(p).receiving.value.next - 1) in OpenedNames(w)
  }

  // ---------- Counting names ----------

  function SentNames(log: seq<Sent>): set<FrameName> {
    set k | 0 <= k < |log| :: NameOf(log[k].frame.header)
  }

  lemma {:induction false} FewNames(log: seq<Sent>)
    ensures |SentNames(log)| <= |log|
  {
    if log != [] {
      var n := |log| - 1;
      FewNames(log[..n]);
      assert SentNames(log) == SentNames(log[..n]) + {NameOf(log[n].frame.header)} by {
        forall name: FrameName
          ensures name in SentNames(log) <==> name in SentNames(log[..n]) || name == NameOf(log[n].frame.header)
        {
          if name in SentNames(log) {
            var k :| 0 <= k < |log| && NameOf(log[k].frame.header) == name;
            assert k < n ==> log[..n][k] == log[k];
          }
          if name in SentNames(log[..n]) {
            var k :| 0 <= k < n && NameOf(log[..n][k].frame.header) == name;
            assert log[..n][k] == log[k];
          }
        }
      }
    }
  }

  lemma {:induction false} AsManyNames(keys: seq<PrivateKey>, s: seq<Skipped>)
    requires Sorted(keys, s)
    ensures |Names(s)| == |s|
  {
    if s != [] {
      var n := |s| - 1;
      var front := s[..n];
      assert forall i, k :: 0 <= i < k < n ==> Before(keys, s[i], s[k]);
      assert Sorted(keys, front);
      AsManyNames(keys, front);
      RemovalForgetsTheName(keys, s, n);
      assert Without(s, n) == front;
      assert Name(s[n]) in Names(s);
      assert Names(s) == Names(front) + {Name(s[n])};
    }
  }

  lemma SubsetIsSmaller(small: set<FrameName>, large: set<FrameName>)
    requires small <= large
    ensures |small| <= |large|
  {
    assert large == small + (large - small);
  }

  /** Every frame a party has gone past was sent. */
  lemma PastFramesWereSent(w: World, p: Party, name: FrameName)
    requires LockStep(w) && Numbered(w) && WentPast(w, p, name)
    ensures name in SentNames(w.log)
  {
    var j := IndexOf(w.keys, name.0);
    assert InStep(w, p);
    var chain := ChainLog(w.log, j);
    assert |chain| == w.sent[j];
    assert chain[name.1].frame.header.messageNumber == name.1;
    var k := ChainLogEntries(w.log, j, name.1);
    assert Genuine(w, w.log[k]);
  }

  lemma {:induction false} ChainLogEntries(log: seq<Sent>, chain: nat, i: nat) returns (k: nat)
    requires i < |ChainLog(log, chain)|
    ensures k < |log| && log[k] == ChainLog(log, chain)[i] && log[k].chain == chain
  {
    var n := |log| - 1;
    if i < |ChainLog(log[..n], chain)| {
      k := ChainLogEntries(log[..n], chain, i);
    } else {
      k := n;
    }
  }

  /** A store in step holds at most as many keys as frames were sent. */
  lemma HeldAreFew(w: World, p: Party, s: seq<Skipped>)
    requires LockStep(w) && Numbered(w) && Holds(w, p, s)
    ensures |s| <= |w.log|
  {
    AsManyNames(w.keys, s);
    forall name | name in Names(s)
      ensures name in SentNames(w.log)
    {
      var i :| 0 <= i < |s| && Name(s[i]) == name;
      assert EntryInStep(w, p, s[i]);
      PastFramesWereSent(w, p, name);
    }
    SubsetIsSmaller(Names(s), SentNames(w.log));
    FewNames(w.log);
  }

  function NamesBelow(r: PublicKey, m: nat): (names: set<FrameName>)
    ensures forall name :: name in names <==> name.0 == r && name.1 < m
    ensures |names| == m
  {
    if m == 0 then {} else NamesBelow(r, m - 1) + {(r, m - 1)}
  }

  lemma {:induction false} SortedChain(keys: seq<PrivateKey>, s: seq<Skipped>, r: PublicKey)
    requires Sorted(keys, s)
    ensures Sorted(keys, Of(s, r)) && Names(Of(s, r)) <= Names(s)
  {
    OfIsSubsequence(s, r);
    SubsequenceStaysSorted(keys, Of(s, r), s);
    NamesOfSubsequence(Of(s, r), s);
  }

  lemma EntriesAreSent(w: World, p: Party, s: seq<Skipped>, j: nat)
    requires LockStep(w) && Holds(w, p, s) && j < |w.keys|
    ensures forall i :: 0 <= i < |s| && s[i].ratchet == Pub(w.keys[j]) ==> s[i].number < w.sent[j]
  {
    assert InStep(w, p);
    IndexOfKey(w.keys, j);
    forall i | 0 <= i < |s| && s[i].ratchet == Pub(w.keys[j])
      ensures s[i].number < w.sent[j]
    {
      assert EntryInStep(w, p, s[i]);
    }
  }

  /** A store in step that lacks a frame of chain `j` holds fewer keys of that chain
      than it carries frames. */
  lemma ChainHoldsFewer(w: World, p: Party, s: seq<Skipped>, j: nat, missing: nat)
    requires LockStep(w) && Holds(w, p, s) && 0 < j < |w.keys| && missing < w.sent[j]
    requires (Pub(w.keys[j]), missing) !in Names(s)
    ensures |Of(s, Pub(w.keys[j]))| < w.sent[j]
  {
    var r, m := Pub(w.keys[j]), w.sent[j];
    SortedChain(w.keys, s, r);
    AsManyNames(w.keys, Of(s, r));
    EntriesAreSent(w, p, s, j);
    NumbersBelow(s, r, m);
    SubsetIsSmaller(Names(Of(s, r)), NamesBelow(r, m) - {(r, missing)});
  }

  lemma NumbersBelow(s: seq<Skipped>, r: PublicKey, m: nat)
    requires forall i :: 0 <= i < |s| && s[i].ratchet == r ==> s[i].number < m
    ensures Names(Of(s, r)) <= NamesBelow(r, m)
  {
    OfIsSubsequence(s, r);
    forall name | name in Names(Of(s, r))
      ensures name in NamesBelow(r, m)
    {
      var i :| 0 <= i < |Of(s, r)| && Name(Of(s, r)[i]) == name;
      assert Of(s, r)[i] in s;
    }
  }

  lemma NamesOfAppended(s: seq<Skipped>, r: PublicKey, chain: Chain, until: U32)
    ensures Names(s + Labelled(r, SkippedBetween(chain, until)))
         == Names(s) + set n | chain.next <= n < until :: (r, n)
  {
    var added := Labelled(r, SkippedBetween(chain, until));
    var all := s + added;
    forall name: FrameName
      ensures name in Names(all) <==> name in Names(s) || (name.0 == r && chain.next <= name.1 < until)
    {
      if name in Names(all) {
        var i :| 0 <= i < |all| && Name(all[i]) == name;
        if i < |s| {
          assert Name(s[i]) == name;
        }
      }
      if name in Names(s) {
        var i :| 0 <= i < |s| && Name(s[i]) == name;
        assert all[i] == s[i];
      }
      if name.0 == r && chain.next <= name.1 < until {
        assert all[|s| + (name.1 - chain.next)] == added[name.1 - chain.next];
      }
    }
  }

  /** Storing keys of frames that were sent evicts nothing, if one frame of the
      chain is neither stored nor skipped now. */
  lemma NothingIsEvicted(w: World, p: Party, s: seq<Skipped>, j: nat, chain: Chain, until: U32, missing: nat)
    requires LockStep(w) && Numbered(w) && Short(w)
    requires Holds(w, p, s) && 0 < j < w.Generation(p) && Owner(j) == p.Peer()
    requires Below(w.keys, s, j, chain.next)
    requires chain.key == Advance(ChainAt(w.sk, w.keys, j), chain.next) && until <= Passed(w, p, j)
    requires missing < w.sent[j] && (Pub(w.keys[j]), missing) !in Names(s) && !(chain.next <= missing < until)
    ensures var r := Pub(w.keys[j]);
            Names(Extended(s, r, Labelled(r, SkippedBetween(chain, until))))
            == Names(s) + set n | chain.next <= n < until :: (r, n)
  {
    var r := Pub(w.keys[j]);
    var added := Labelled(r, SkippedBetween(chain, until));
    var t := ExtendedHolds(w, p, s, j, chain, until);
    NamesOfAppended(s, r, chain, until);
    HeldAreFew(w, p, s + added);
    ChainHoldsFewer(w, p, s + added, j, missing);
    ExtendingWithinBoundsEvictsNothing(s, r, added);
  }

  // ---------- Nothing is lost ----------

  lemma CurrentLosesNothing(w: World, w': World, p: Party, header: RatchetHeader)
    requires AcceptsInChain(w, w', p, header) && LockStep(w') && Numbered(w') && Short(w')
    requires MovesOn(w, w', p) && FirstMatch(w.Of(p).skipped, NameOf(header)) == |w.Of(p).skipped|
    ensures Names(w'.Of(p).skipped) == Names(w.Of(p).skipped) + PassedOver(w.Of(p), header)
  {
    CurrentInPlace(w, w', p, header);
    GrowsByPassedOver(w', p, w.Of(p), w.Generation(p) - 1, header);
  }

  /** The same of a store that a session `before` held and extended. */
  lemma GrowsByPassedOver(w: World, p: Party, before: State, j: nat, header: RatchetHeader)
    requires LockStep(w) && Numbered(w) && Short(w)
    requires 0 < j < w.Generation(p) && Owner(j) == p.Peer() && header.ratchet == Pub(w.keys[j])
    requires header.messageNumber < w.sent[j]
    requires before.remoteRatchet == Some(header.ratchet) && before.receiving.Some?
    requires FirstMatch(before.skipped, NameOf(header)) == |before.skipped|
    requires Holds(w, p, before.skipped) && Below(w.keys, before.skipped, j, before.receiving.value.next)
    requires before.receiving.value.key == Advance(ChainAt(w.sk, w.keys, j), before.receiving.value.next)
    requires header.messageNumber <= Passed(w, p, j)
    requires w.Of(p).skipped == Extended(before.skipped, header.ratchet,
                                         Labelled(header.ratchet, SkippedBetween(before.receiving.value, header.messageNumber)))
    ensures Names(w.Of(p).skipped) == Names(before.skipped) + PassedOver(before, header)
  {
    MatchIsMembership(before.skipped, NameOf(header));
    NothingIsEvicted(w, p, before.skipped, j, before.receiving.value, header.messageNumber, header.messageNumber);
    CurrentPassedOver(before, header);
  }

  lemma CurrentPassedOver(s: State, header: RatchetHeader)
    requires FirstMatch(s.skipped, NameOf(header)) == |s.skipped| && s.remoteRatchet == Some(header.ratchet)
    requires s.receiving.Some?
    ensures PassedOver(s, header) == set n | s.receiving.value.next <= n < header.messageNumber :: (header.ratchet, n)
  {
  }

  lemma NextLosesNothing(w: World, w': World, p: Party, header: RatchetHeader)
    requires AcceptsNext(w, w', p, header) && LockStep(w') && Numbered(w') && Short(w')
    requires MovesOn(w, w', p) && w'.Generation(p) == w.Generation(p) + 2 && OpensNewChain(w.Of(p), header)
    requires LatestNotKept(w, p)
    ensures Names(w'.Of(p).skipped) == Names(w.Of(p).skipped) + PassedOver(w.Of(p), header)
  {
    var stored := PreviousStored(w, w', p, header.previousChainLen);
    PreviousLosesNothing(w, w', p, header.previousChainLen);
    NewChainLosesNothing(w, w', p, header, stored);
    assert PassedOver(w.Of(p), header) ==
           LeftInPrevious(w.Of(p), header.previousChainLen) + set n | 0 <= n < header.messageNumber :: (header.ratchet, n);
  }

  lemma NewChainLosesNothing(w: World, w': World, p: Party, header: RatchetHeader, stored: seq<Skipped>)
    requires AcceptsNext(w, w', p, header) && LockStep(w') && Numbered(w') && Short(w')
    requires w'.Generation(p) == w.Generation(p) + 2
    requires stored == StoredFromPrevious(w.Of(p), header.previousChainLen)
    requires Holds(w', p, stored) && Below(w'.keys, stored, w.Generation(p) + 1, 0)
    ensures Names(w'.Of(p).skipped) == Names(stored) + set n | 0 <= n < header.messageNumber :: (header.ratchet, n)
  {
    var g := w.Generation(p);
    NextChainStored(w, w', p, header, stored);
    PassedAfter(w, w', p, header);
    assert Owner(g + 1) == p.Peer();
    NothingOfTheNewChain(w', stored, g + 1, header.messageNumber);
    NothingIsEvicted(w', p, stored, g + 1, Chain(ChainAt(w'.sk, w'.keys, g + 1), 0), header.messageNumber,
                     header.messageNumber);
  }

  lemma NothingOfTheNewChain(w: World, s: seq<Skipped>, j: nat, n: nat)
    requires w.Shape() && 0 < j < |w.keys| && Below(w.keys, s, j, 0)
    ensures (Pub(w.keys[j]), n) !in Names(s)
  {
    IndexOfKey(w.keys, j);
  }

  /** The frame the receiving chain stands behind has no key in the store. */
  ghost predicate LatestNotKept(w: World, p: Party)
    requires w.Shape()
  {
    w.Generation(p) >= 2 ==>
      && w.Of(p).receiving.Some? && 1 <= w.Of(p).receiving.value.next <= w.sent[w.Generation(p) - 1]
      && (Pub(w.keys[w.Generation(p) - 1]), w.Of(p).receiving.value.next - 1) !in Names(w.Of(p).skipped)
  }

  lemma LatestIsNotKept(w: World, p: Party)
    requires Invariant(w) && LatestOpened(w)
    ensures LatestNotKept(w, p)
  {
    if w.Generation(p) >= 2 {
      var name := LatestWentPast(w, p);
      assert name in OpenedNames(w);
      assert Accounted(w, p, name);
    }
  }

  lemma LatestWentPast(w: World, p: Party) returns (name: FrameName)
    requires LockStep(w) && LatestOpened(w) && w.Generation(p) >= 2
    ensures w.Of(p).receiving.Some? && 1 <= w.Of(p).receiving.value.next <= w.sent[w.Generation(p) - 1]
    ensures name == (Pub(w.keys[w.Generation(p) - 1]), w.Of(p).receiving.value.next - 1)
    ensures WentPast(w, p, name) && name in OpenedNames(w)
  {
    assert InStep(w, p);
    name := (Pub(w.keys[w.Generation(p) - 1]), w.Of(p).receiving.value.next - 1);
    IndexOfKey(w.keys, w.Generation(p) - 1);
  }

  lemma PreviousLosesNothing(w: World, w': World, p: Party, previousChainLen: U32)
    requires GainsKey(w, w', p) && LockStep(w') && Numbered(w') && Short(w')
    requires MovesOn(w, w', p) && w'.Generation(p) == w.Generation(p) + 2
    requires previousChainLen == PreviousLen(w.sent, w.Generation(p) + 1)
    requires LatestNotKept(w, p)
    ensures Names(StoredFromPrevious(w.Of(p), previousChainLen)) ==
            Names(w.Of(p).skipped) + LeftInPrevious(w.Of(p), previousChainLen)
  {
    var s, g := w.Of(p), w.Generation(p);
    if g >= 2 {
      PreviousInPlace(w, w', p);
      GrowsByLeft(w', p, s, g - 1, previousChainLen);
    } else {
      NothingToRead(w, p);
    }
  }

  lemma NothingToRead(w: World, p: Party)
    requires LockStep(w) && w.Generation(p) < 2
    ensures w.Of(p).receiving.None?
  {
    assert InStep(w, p);
  }

  lemma GrowsByLeft(w: World, p: Party, before: State, j: nat, previousChainLen: U32)
    requires LockStep(w) && Numbered(w) && Short(w)
    requires 0 < j < w.Generation(p) && Owner(j) == p.Peer() && before.remoteRatchet == Some(Pub(w.keys[j]))
    requires before.receiving.Some? && 1 <= before.receiving.value.next <= w.sent[j]
    requires Holds(w, p, before.skipped) && Below(w.keys, before.skipped, j, before.receiving.value.next)
    requires before.receiving.value.key == Advance(ChainAt(w.sk, w.keys, j), before.receiving.value.next)
    requires previousChainLen <= Passed(w, p, j)
    requires (Pub(w.keys[j]), before.receiving.value.next - 1) !in Names(before.skipped)
    ensures Names(StoredFromPrevious(before, previousChainLen)) ==
            Names(before.skipped) + LeftInPrevious(before, previousChainLen)
  {
    NothingIsEvicted(w, p, before.skipped, j, before.receiving.value, previousChainLen, before.receiving.value.next - 1);
  }

  lemma StoredLosesNothing(w: World, p: Party, index: nat)
    requires LockStep(w) && index < |w.Of(p).skipped|
    ensures Names(Without(w.Of(p).skipped, index)) == Names(w.Of(p).skipped) - {Name(w.Of(p).skipped[index])}
  {
    assert StoreInStep(w, p);
    RemovalForgetsTheName(w.keys, w.Of(p).skipped, index);
  }

  /** No name leaves the store but the accepted one. */
  lemma AcceptLosesNothing(a: Attacker, w: World, p: Party, frame: SealedFrame, drawn: Result<PrivateKey, CryptoError>)
    returns (w': World)
    requires Invariant(w) && LatestOpened(w) && Outsider(a, w.sk) && Enabled(a, w, Deliver(p, frame, drawn))
    requires Decrypt(w.Of(p), frame, drawn).1.Ok?
    requires Short(w)
    ensures w' == Step(w, Deliver(p, frame, drawn))
    ensures Names(w.Of(p).skipped) + PassedOver(w.Of(p), frame.header)
         <= Names(w'.Of(p).skipped) + {NameOf(frame.header)}
  {
    var m, reading;
    w', m, reading := ReadingShape(a, w, p, frame, drawn);
    AfterAccepting(a, w, p, frame, drawn);
    LatestIsNotKept(w, p);
    ReadingLosesNothing(w, w', p, m, reading);
  }

  lemma AfterAccepting(a: Attacker, w: World, p: Party, frame: SealedFrame, drawn: Result<PrivateKey, CryptoError>)
    requires Invariant(w) && Short(w) && Outsider(a, w.sk) && Enabled(a, w, Deliver(p, frame, drawn))
    requires Decrypt(w.Of(p), frame, drawn).1.Ok?
    ensures var w' := Step(w, Deliver(p, frame, drawn));
            LockStep(w') && Numbered(w') && Short(w') && MovesOn(w, w', p)
  {
    StepKeepsInvariant(a, w, Deliver(p, frame, drawn));
    AcceptMovesOn(a, w, p, frame, drawn);
    DeliveryStaysShort(w, Deliver(p, frame, drawn));
  }

  lemma DeliveryStaysShort(w: World, action: Action)
    requires w.Shape() && Short(w) && action.Deliver?
    ensures Short(Step(w, action))
  {
  }

  lemma ReadingLosesNothing(w: World, w': World, p: Party, m: Sent, reading: Reading)
    requires LockStep(w) && LatestNotKept(w, p) && LockStep(w') && Numbered(w') && Short(w') && MovesOn(w, w', p)
    requires Reads(w, p, m.frame, m.chain, reading)
    requires reading.FromStore? ==> w'.Of(p).skipped == Without(w.Of(p).skipped, reading.index)
    requires reading.InCurrentChain? ==> AcceptsInChain(w, w', p, m.frame.header)
    requires reading.InNextChain? ==> AcceptsNext(w, w', p, m.frame.header)
    ensures Names(w.Of(p).skipped) + PassedOver(w.Of(p), m.frame.header)
         <= Names(w'.Of(p).skipped) + {NameOf(m.frame.header)}
  {
    match reading
    case FromStore(index) => StoredLosesNothing(w, p, index);
    case InCurrentChain => CurrentLosesNothing(w, w', p, m.frame.header);
    case InNextChain =>
      NextChainGeneration(w, w', p);
      NextLosesNothing(w, w', p, m.frame.header);
  }

  lemma AcceptMovesOn(a: Attacker, w: World, p: Party, frame: SealedFrame, drawn: Result<PrivateKey, CryptoError>)
    requires LockStep(w) && Outsider(a, w.sk) && Enabled(a, w, Deliver(p, frame, drawn))
    requires Decrypt(w.Of(p), frame, drawn).1.Ok?
    ensures MovesOn(w, Step(w, Deliver(p, frame, drawn)), p)
  {
    var _, _, _ := AcceptKeeps(a, w, p, frame, drawn);
  }

  /** Accepting leaves the receiving chain alone or behind the accepted frame. */
  lemma AcceptReadsOn(s: State, frame: SealedFrame, drawn: Result<PrivateKey, CryptoError>)
    requires Decrypt(s, frame, drawn).1.Ok?
    ensures var next := Decrypt(s, frame, drawn).0;
            || (next.receiving == s.receiving && next.remoteRatchet == s.remoteRatchet)
            || (next.receiving.Some? && next.receiving.value.next == frame.header.messageNumber + 1
                && next.remoteRatchet == Some(frame.header.ratchet))
  {
  }

  lemma StepKeepsLatest(w: World, action: Action)
    requires w.Shape() && LatestOpened(w)
    ensures LatestOpened(Step(w, action))
  {
    var w' := Step(w, action);
    if action.Send? {
      assert w'.alice == w'.Of(Alice) && w'.bob == w'.Of(Bob) && w.alice == w.Of(Alice) && w.bob == w.Of(Bob);
    } else if Decrypt(w.Of(action.to), action.frame, action.drawn).1.Ok? {
      AcceptReadsOn(w.Of(action.to), action.frame, action.drawn);
      OpenedNamesGrow(w, w', w'.accepted[|w.accepted|]);
      LatestFollows(w, w', action.to, NameOf(action.frame.header));
    }
  }

  lemma LatestFollows(w: World, w': World, p: Party, name: FrameName)
    requires LatestOpened(w) && w'.Of(p.Peer()) == w.Of(p.Peer()) && OpenedNames(w') == OpenedNames(w) + {name}
    requires var s, t := w.Of(p), w'.Of(p);
             || (t.receiving == s.receiving && t.remoteRatchet == s.remoteRatchet)
             || (t.receiving.Some? && t.receiving.value.next == name.1 + 1 && t.remoteRatchet == Some(name.0))
    ensures LatestOpened(w')
  {
  }

  /** With every chain of at most 1 001 frames, and at most 10 000 in all, no step
      evicts a key. */
  lemma StepLosesNothing(a: Attacker, w: World, action: Action)
    requires Invariant(w) && LatestOpened(w) && w.evicted == {} && Outsider(a, w.sk) && Enabled(a, w, action)
    requires Short(w)
    ensures Step(w, action).evicted == {}
  {
    if action.Deliver? && Decrypt(w.Of(action.to), action.frame, action.drawn).1.Ok? {
      var w' := AcceptLosesNothing(a, w, action.to, action.frame, action.drawn);
    }
  }

  lemma ChainsAreShort(w: World, j: nat)
    requires Invariant(w) && j < |w.sent|
    ensures w.sent[j] <= |w.log|
  {
    assert |ChainLog(w.log, j)| == w.sent[j];
    ChainLogIsPart(w.log, j);
  }

  lemma {:induction false} ChainLogIsPart(log: seq<Sent>, chain: nat)
    ensures |ChainLog(log, chain)| <= |log|
  {
    if log != [] {
      ChainLogIsPart(log[..|log| - 1], chain);
    }
  }

  lemma StepGrows(w: World, action: Action)
    requires LockStep(w) && Short(Step(w, action))
    ensures Short(w)
  {
    var w' := Step(w, action);
    SentGrows(w, action);
    forall j | 0 <= j < |w.sent|
      ensures w.sent[j] <= SHORT_CHAIN
    {
      assert w.sent[j] <= w'.sent[j];
    }
  }

  lemma SentGrows(w: World, action: Action)
    requires LockStep(w)
    ensures |w.log| <= |Step(w, action).log| && |w.sent| <= |Step(w, action).sent|
    ensures forall j :: 0 <= j < |w.sent| ==> w.sent[j] <= Step(w, action).sent[j]
  {
    if action.Send? && Encrypt(w.Of(action.from), action.nonce, action.plaintext).1.Ok? {
      var w' := SendMoves(w, action.from, action.nonce, action.plaintext);
    }
  }

  lemma {:induction false} RunLosesNothing(a: Attacker, w: World, actions: seq<Action>)
    requires Invariant(w) && LatestOpened(w) && w.evicted == {} && Outsider(a, w.sk) && Admissible(a, w, actions)
    requires Short(Run(a, w, actions))
    ensures Run(a, w, actions).evicted == {} && LatestOpened(Run(a, w, actions)) && Short(w)
    decreases |actions|
  {
    if actions != [] {
      StepKeepsInvariant(a, w, actions[0]);
      StepKeepsLatest(w, actions[0]);
      RunWasShort(a, Step(w, actions[0]), actions[1..]);
      StepGrows(w, actions[0]);
      StepLosesNothing(a, w, actions[0]);
      RunLosesNothing(a, Step(w, actions[0]), actions[1..]);
    }
  }

  lemma {:induction false} RunWasShort(a: Attacker, w: World, actions: seq<Action>)
    requires Invariant(w) && Outsider(a, w.sk) && Admissible(a, w, actions) && Short(Run(a, w, actions))
    ensures Short(w)
    decreases |actions|
  {
    if actions != [] {
      StepKeepsInvariant(a, w, actions[0]);
      RunWasShort(a, Step(w, actions[0]), actions[1..]);
      StepGrows(w, actions[0]);
    }
  }

  /** In every run with at most 1 001 frames sent in each chain and 10 000 in all, a
      genuine frame opens, to what the peer sealed, if and only if it has not opened
      before; a replay is an authentication failure. */
  lemma EveryFrameOpensExactlyOnce(
    a: Attacker, sk: Key, prekey: PrivateKey, first: PrivateKey, actions: seq<Action>,
    p: Party, k: nat, drawn: PrivateKey)
    requires prekey != first && Outsider(a, sk) && Admissible(a, Start(sk, prekey, first), actions)
    requires Short(Run(a, Start(sk, prekey, first), actions))
    requires k < |Run(a, Start(sk, prekey, first), actions).log|
    requires Owner(Run(a, Start(sk, prekey, first), actions).log[k].chain) == p.Peer()
    ensures var w := Run(a, Start(sk, prekey, first), actions);
            Decrypt(w.Of(p), w.log[k].frame, Ok(drawn)).1 ==
            if NameOf(w.log[k].frame.header) in OpenedNames(w) then Err(Crypto(Authentication))
            else Ok(w.log[k].plaintext)
  {
    var w := Run(a, Start(sk, prekey, first), actions);
    StartsInvariant(sk, prekey, first);
    RunKeepsInvariant(a, Start(sk, prekey, first), actions);
    RunLosesNothing(a, Start(sk, prekey, first), actions);
    ShortVerdict(w, p, k, drawn);
  }

  lemma ShortVerdict(w: World, p: Party, k: nat, drawn: PrivateKey)
    requires Invariant(w) && LatestOpened(w) && w.evicted == {} && Short(w) && k < |w.log|
    requires Owner(w.log[k].chain) == p.Peer()
    ensures Decrypt(w.Of(p), w.log[k].frame, Ok(drawn)).1 ==
            if NameOf(w.log[k].frame.header) in OpenedNames(w) then Err(Crypto(Authentication))
            else Ok(w.log[k].plaintext)
  {
    assert Genuine(w, w.log[k]);
    LatestIsNotKept(w, p);
    if NameOf(w.log[k].frame.header) in OpenedNames(w) {
      ReplayIsNotAuthentic(w, p, w.log[k], drawn);
    } else {
      UnopenedOpens(w, p, w.log[k], drawn);
    }
  }

  lemma ReplayIsNotAuthentic(w: World, p: Party, m: Sent, drawn: PrivateKey)
    requires Invariant(w) && Short(w) && LatestNotKept(w, p) && Genuine(w, m) && Owner(m.chain) == p.Peer()
    requires NameOf(m.frame.header) in OpenedNames(w)
    ensures Decrypt(w.Of(p), m.frame, Ok(drawn)).1 == Err(Crypto(Authentication))
  {
    GoneKeysAreRefused(w, p, m, Ok(drawn));
    assert 1 <= m.chain < w.Generation(p) && w.Generation(p) >= 2;
    assert Passed(w, p, w.Generation(p) - 1) >= 1 && PreviousLen(w.sent, m.chain) <= SHORT_CHAIN;
  }

  lemma UnopenedOpens(w: World, p: Party, m: Sent, drawn: PrivateKey)
    requires Invariant(w) && Short(w) && LatestNotKept(w, p) && Genuine(w, m) && Owner(m.chain) == p.Peer()
    requires NameOf(m.frame.header) !in OpenedNames(w) && w.evicted == {}
    ensures Decrypt(w.Of(p), m.frame, Ok(drawn)).1 == Ok(m.plaintext)
  {
    StillToCome(w, p, m);
    assert Retained(w, p, NameOf(m.frame.header)) || WithinReach(w, p, m);
    ExactAcceptance(w, p, m, Ok(drawn));
  }
}

/**
 Runs that show what can happen. Some break promises the code keeps only in part:
 the error documentation says a replay is reported as an authentication failure,
 and that a blocked party can send again once a frame from the peer is received;
 module `Runs` (lemmas `GoneKeysAreRefused`, `OnlyANewChainUnblocks`) says exactly
 when each holds. Others reach the limits of a chain and of the store, and what a
 theft leaves behind: a frame that can still be forged after a round trip, and a
 conversation that has healed.
*/
module Witnesses {
  import opened Results
  import opened Terms
  import opened Attacker
  import opened Schedule
  import opened SkippedStore
  import opened RatchetSpec
  import opened Conversation
  import opened History
  import opened Runs
  import opened RunBuilding
  import opened Secrecy
  import opened Recovery
  import Short = ShortConversations

  // ---------- The runs ----------

  /** Five distinct ratchet keys, in the order they come into use. */
  ghost predicate FiveKeys(keys: seq<PrivateKey>) {
    |keys| == 5 && Distinct(keys)
  }

  lemma Begin(a: Attacker, sk: Key, keys: seq<PrivateKey>) returns (w: World)
    requires FiveKeys(keys) && Outsider(a, sk)
    ensures w == Start(sk, keys[0], keys[1]) && Reached(a, w, [], w)
    ensures w.keys == [keys[0], keys[1]]
  {
    w := Start(sk, keys[0], keys[1]);
    StartsInvariant(sk, keys[0], keys[1]);
    WhatReachedMeans(a, w, [], w);
  }

  /** The frames sent so far are numbers 0 to `count - 1` of chain 1. */
  ghost predicate OneChain(w: World, count: nat) {
    |w.log| == count && forall k :: 0 <= k < count ==> w.log[k].chain == 1 && w.log[k].frame.header.messageNumber == k
  }

  /** Alice sends `count` frames in a row. */
  lemma AliceSends(a: Attacker, sk: Key, keys: seq<PrivateKey>, count: nat, nonce: Nonce, plaintext: Plaintext)
    returns (actions: seq<Action>, w: World)
    requires FiveKeys(keys) && Outsider(a, sk) && count <= CHAIN_LIMIT
    ensures Reached(a, Start(sk, keys[0], keys[1]), actions, w)
    ensures w.keys == keys[..2] && w.sent[1] == count && OneChain(w, count) && w.accepted == []
    ensures w.bob.receiving.None? && w.alice.receiving.None?
  {
    var start := Begin(a, sk, keys);
    assert start.Generation(Alice) == 1;
    actions, w := SendMany(a, start, [], start, Alice, count, nonce, plaintext);
  }

  /** ... and Bob receives number `read`. */
  lemma FirstReceived(a: Attacker, sk: Key, keys: seq<PrivateKey>, count: nat, read: nat, nonce: Nonce, plaintext: Plaintext)
    returns (actions: seq<Action>, w: World)
    requires FiveKeys(keys) && Outsider(a, sk) && read < count <= CHAIN_LIMIT && read <= MAX_SKIP_PER_CHAIN
    ensures Reached(a, Start(sk, keys[0], keys[1]), actions, w)
    ensures w.keys == keys[..3] && w.sent[1] == count && w.sent[2] == 0 && OneChain(w, count)
    ensures w.accepted == [Accepted(Bob, w.log[read].frame, w.log[read].plaintext)]
    ensures w.bob.receiving.Some? && w.bob.receiving.value.next == read + 1 && w.alice.receiving.None?
  {
    var start, w1 := Start(sk, keys[0], keys[1]), Start(sk, keys[0], keys[1]);
    actions, w1 := AliceSends(a, sk, keys, count, nonce, plaintext);
    assert w1.Generation(Bob) == 0 && w1.log[read].chain == 1;
    LogIsGenuine(a, start, actions, w1, read);
    actions, w := DeliverOne(a, start, actions, w1, Bob, read, keys[2]);
    assert w.keys == keys[..3];
  }

  /** Alice sends a long chain; Bob receives number 1 000 and then the last one. */
  lemma LongChain(a: Attacker, sk: Key, keys: seq<PrivateKey>, count: nat, nonce: Nonce, plaintext: Plaintext)
    returns (actions: seq<Action>, w: World)
    requires FiveKeys(keys) && Outsider(a, sk) && 1001 < count <= CHAIN_LIMIT
    ensures Reached(a, Start(sk, keys[0], keys[1]), actions, w)
    ensures w.keys == keys[..3] && w.sent[1] == count && w.sent[2] == 0 && OneChain(w, count)
    ensures w.accepted == [Accepted(Bob, w.log[1000].frame, w.log[1000].plaintext),
                           Accepted(Bob, w.log[count - 1].frame, w.log[count - 1].plaintext)]
    ensures w.bob.receiving.Some? && w.bob.receiving.value.next == count && w.alice.receiving.None?
  {
    var start, w1 := Start(sk, keys[0], keys[1]), Start(sk, keys[0], keys[1]);
    actions, w1 := FirstReceived(a, sk, keys, count, 1000, nonce, plaintext);
    assert w1.Generation(Bob) == 2 && Passed(w1, Bob, 1) == 1001 && w1.log[count - 1].chain == 1;
    LogIsGenuine(a, start, actions, w1, count - 1);
    actions, w := DeliverOne(a, start, actions, w1, Bob, count - 1, keys[3]);
  }

  /** `w'` is `w` after one party sent a frame that the other has read, drawing
      a new key. */
  ghost predicate Replied(w: World, w': World, from: Party, drawn: PrivateKey)
    requires w.Shape()
  {
    var n := |w.keys|;
    && w'.Shape() && w'.keys == w.keys + [drawn]
    && w'.sent[n] == 0 && w'.sent[n - 1] == 1 && (forall j :: 0 <= j < n - 1 ==> w'.sent[j] == w.sent[j])
    && |w'.log| == |w.log| + 1 && w'.log[..|w.log|] == w.log && w.accepted <= w'.accepted
    && w'.Of(from).receiving == w.Of(from).receiving
    && w'.Of(from.Peer()).receiving.Some? && w'.Of(from.Peer()).receiving.value.next == 1
    && |w'.accepted| == |w.accepted| + 1 && w'.accepted[|w.accepted|].frame == w'.log[|w.log|].frame
    && w'.log[|w.log|].chain == n - 1
  }

  /** The party whose turn it is to open a chain can have its first frame read. */
  ghost predicate MayReply(w: World, from: Party)
    requires w.Shape()
  {
    && w.Generation(from) == |w.keys| - 1 && w.sent[|w.keys| - 1] == 0
    && (w.Of(from.Peer()).receiving.Some? ==>
          |w.keys| >= 4 && w.sent[|w.keys| - 3] - w.Of(from.Peer()).receiving.value.next <= MAX_SKIP_PER_CHAIN)
  }

  /** One party sends a frame that opens the peer's next chain. */
  lemma OneReply(a: Attacker, start: World, actions: seq<Action>, w: World, from: Party, drawn: PrivateKey,
                 nonce: Nonce, plaintext: Plaintext)
    returns (actions': seq<Action>, w': World)
    requires Reached(a, start, actions, w) && drawn !in w.keys && MayReply(w, from)
    ensures Reached(a, start, actions', w') && Replied(w, w', from, drawn)
  {
    var w1;
    actions', w1 := SendNext(a, start, actions, w, from, nonce, plaintext);
    actions', w' := ReplyIsRead(a, start, actions', w, w1, from, drawn);
  }

  lemma ReplyIsRead(a: Attacker, start: World, actions: seq<Action>, w: World, w1: World, from: Party, drawn: PrivateKey)
    returns (actions': seq<Action>, w': World)
    requires Reached(a, start, actions, w1) && w.Shape() && drawn !in w.keys
    requires MayReply(w, from) && Sends(w, w1, from, 1)
    ensures Reached(a, start, actions', w') && Replied(w, w', from, drawn)
  {
    assert Invariant(w1) by {
      WhatReachedMeans(a, start, actions, w1);
    }
    ReplyIsWithinReach(w, w1, from);
    actions', w' := DeliverOne(a, start, actions, w1, from.Peer(), |w.log|, drawn);
  }

  lemma ReplyIsWithinReach(w: World, w1: World, from: Party)
    requires w.Shape() && Invariant(w1) && Sends(w, w1, from, 1) && MayReply(w, from)
    ensures w1.Generation(from.Peer()) == |w.keys| - 2
    ensures Genuine(w1, w1.log[|w.log|]) && WithinReach(w1, from.Peer(), w1.log[|w.log|])
    ensures w1.log[|w.log|].chain == |w.keys| - 1 && Owner(|w.keys| - 1) == from
  {
    var p := from.Peer();
    assert Genuine(w1, w1.log[|w.log|]);
    assert InStep(w1, p);
    assert w1.Generation(p) == |w.keys| - 2;
    assert w1.Of(p).receiving == w.Of(p).receiving;
  }

  // ---------- A replay that is not an authentication failure ----------

  /** Frame 1 501 of chain 1 has been opened. */
  ghost predicate ReadLast(w: World) {
    && |w.log| > 1501 && w.log[1501].chain == 1 && w.log[1501].frame.header.messageNumber == 1501
    && NameOf(w.log[1501].frame.header) in OpenedNames(w)
  }

  lemma ReadLastIsKept(w: World, w': World)
    requires ReadLast(w) && |w.log| <= |w'.log| && w'.log[..|w.log|] == w.log && w.accepted <= w'.accepted
    ensures ReadLast(w')
  {
  }

  /** The long chain, and Bob has replied. */
  lemma LongChainAnswered(a: Attacker, sk: Key, keys: seq<PrivateKey>, nonce: Nonce, plaintext: Plaintext)
    returns (actions: seq<Action>, w: World)
    requires FiveKeys(keys) && Outsider(a, sk)
    ensures Reached(a, Start(sk, keys[0], keys[1]), actions, w)
    ensures w.keys == keys[..4] && w.sent[1] == 1502 && w.sent[3] == 0 && ReadLast(w)
    ensures w.bob.receiving.Some? && w.bob.receiving.value.next == 1502
  {
    var w1;
    actions, w1 := LongChain(a, sk, keys, 1502, nonce, plaintext);
    assert w1.accepted[1].frame == w1.log[1501].frame;
    assert MayReply(w1, Bob);
    actions, w := OneReply(a, Start(sk, keys[0], keys[1]), actions, w1, Bob, keys[3], nonce, plaintext);
    assert w.keys == keys[..4];
    ReadLastIsKept(w1, w);
  }

  /** Number 1 501 of a chain the receiver has left, opened once, is delivered
      again: the documentation promises an authentication failure. */
  lemma ReplayCanBeTooFarAhead(a: Attacker, sk: Key, keys: seq<PrivateKey>, nonce: Nonce, plaintext: Plaintext, drawn: PrivateKey)
    returns (actions: seq<Action>, w: World)
    requires FiveKeys(keys) && Outsider(a, sk)
    ensures ReachedBy(a, Start(sk, keys[0], keys[1]), actions, w) && |w.log| > 1501
    ensures NameOf(w.log[1501].frame.header) in OpenedNames(w)
    ensures Decrypt(w.bob, w.log[1501].frame, Ok(drawn)).1 == Err(TooFarAhead)
  {
    var w1;
    actions, w1 := LongChainAnswered(a, sk, keys, nonce, plaintext);
    assert MayReply(w1, Alice);
    actions, w := OneReply(a, Start(sk, keys[0], keys[1]), actions, w1, Alice, keys[4], nonce, plaintext);
    ReadLastIsKept(w1, w);
    WhatReachedMeans(a, Start(sk, keys[0], keys[1]), actions, w);
    LeftChainReplay(w, drawn);
  }

  lemma LeftChainReplay(w: World, drawn: PrivateKey)
    requires Invariant(w) && |w.keys| == 5 && w.sent[1] == 1502 && ReadLast(w)
    requires w.bob.receiving.Some? && w.bob.receiving.value.next == 1
    ensures Decrypt(w.bob, w.log[1501].frame, Ok(drawn)).1 == Err(TooFarAhead)
  {
  }

  // ---------- A received frame that does not unblock ----------

  /** Every frame sent has been opened. */
  ghost predicate AllRead(w: World) {
    forall k :: 0 <= k < |w.log| ==> NameOf(w.log[k].frame.header) in OpenedNames(w)
  }

  lemma StillAllRead(w: World, w': World, from: Party, drawn: PrivateKey)
    requires w.Shape() && AllRead(w) && Replied(w, w', from, drawn)
    ensures AllRead(w')
  {
    forall k | 0 <= k < |w'.log|
      ensures NameOf(w'.log[k].frame.header) in OpenedNames(w')
    {
      assert w'.accepted[|w.accepted|].frame == w'.log[|w.log|].frame;
      if k < |w.log| {
        assert w'.log[k] == w.log[k];
        var i :| 0 <= i < |w.accepted| && NameOf(w.accepted[i].frame.header) == NameOf(w.log[k].frame.header);
        assert w'.accepted[i] == w.accepted[i];
      }
    }
  }

  lemma OneFrame(a: Attacker, sk: Key, keys: seq<PrivateKey>, nonce: Nonce, plaintext: Plaintext)
    returns (actions: seq<Action>, w: World)
    requires FiveKeys(keys) && Outsider(a, sk)
    ensures Reached(a, Start(sk, keys[0], keys[1]), actions, w)
    ensures w.keys == keys[..3] && w.sent[1] == 1 && w.sent[2] == 0 && w.alice.receiving.None?
    ensures w.bob.receiving.Some? && w.bob.receiving.value.next == 1 && AllRead(w) && |w.log| == 1
  {
    var start := Begin(a, sk, keys);
    assert MayReply(start, Alice);
    actions, w := OneReply(a, start, [], start, Alice, keys[2], nonce, plaintext);
    assert w.keys == keys[..3];
    StillAllRead(start, w, Alice, keys[2]);
  }

  /** Alice and Bob have each sent and read one frame. */
  lemma OneRound(a: Attacker, sk: Key, keys: seq<PrivateKey>, nonce: Nonce, plaintext: Plaintext)
    returns (actions: seq<Action>, w: World)
    requires FiveKeys(keys) && Outsider(a, sk)
    ensures Reached(a, Start(sk, keys[0], keys[1]), actions, w)
    ensures w.keys == keys[..4] && w.sent[1] == 1 && w.sent[2] == 1 && w.sent[3] == 0
    ensures w.alice.receiving.Some? && w.alice.receiving.value.next == 1
    ensures w.bob.receiving.Some? && w.bob.receiving.value.next == 1 && AllRead(w) && |w.log| == 2
  {
    var w1;
    actions, w1 := OneFrame(a, sk, keys, nonce, plaintext);
    assert MayReply(w1, Bob);
    actions, w := OneReply(a, Start(sk, keys[0], keys[1]), actions, w1, Bob, keys[3], nonce, plaintext);
    assert w.keys == keys[..4];
    StillAllRead(w1, w, Bob, keys[3]);
  }

  /** Frame `k` is Bob's second frame of the chain Alice reads. */
  ghost predicate LateFrame(w: World, k: nat) {
    && w.alice.receiving.Some? && w.alice.receiving.value.next == 1
    && k < |w.log| && w.log[k].chain == 2 && w.log[k].frame.header.messageNumber == 1
  }

  lemma SecondFrame(a: Attacker, sk: Key, keys: seq<PrivateKey>, nonce: Nonce, plaintext: Plaintext)
    returns (actions: seq<Action>, w: World, k: nat)
    requires FiveKeys(keys) && Outsider(a, sk)
    ensures Reached(a, Start(sk, keys[0], keys[1]), actions, w)
    ensures w.keys == keys[..4] && w.sent[3] == 0 && LateFrame(w, k)
  {
    var w1;
    actions, w1 := OneRound(a, sk, keys, nonce, plaintext);
    assert w1.Generation(Bob) == 2;
    k := |w1.log|;
    actions, w := SendMany(a, Start(sk, keys[0], keys[1]), actions, w1, Bob, 1, nonce, plaintext);
  }

  /** Alice has filled her next chain. */
  lemma FilledChain(a: Attacker, sk: Key, keys: seq<PrivateKey>, nonce: Nonce, plaintext: Plaintext)
    returns (actions: seq<Action>, w: World, k: nat)
    requires FiveKeys(keys) && Outsider(a, sk)
    ensures Reached(a, Start(sk, keys[0], keys[1]), actions, w)
    ensures w.keys == keys[..4] && w.sent[3] == CHAIN_LIMIT && LateFrame(w, k)
  {
    var w1;
    actions, w1, k := SecondFrame(a, sk, keys, nonce, plaintext);
    assert w1.Generation(Alice) == 3;
    actions, w := SendMany(a, Start(sk, keys[0], keys[1]), actions, w1, Alice, CHAIN_LIMIT, nonce, plaintext);
    assert w.log[..|w1.log|][k] == w1.log[k];
  }

  /** Alice is blocked, Bob's frame `k`, of the chain she already reads, is then
      delivered to her and opens, and she is still blocked: the documentation
      promises that she can send again. */
  lemma LateFramesDoNotUnblock(a: Attacker, sk: Key, keys: seq<PrivateKey>, nonce: Nonce, plaintext: Plaintext)
    returns (actions: seq<Action>, before: World, k: nat, after: World)
    requires FiveKeys(keys) && Outsider(a, sk)
    ensures ReachedBy(a, Start(sk, keys[0], keys[1]), actions, before)
    ensures Encrypt(before.alice, Ok(nonce), plaintext).1 == Err(SendingBlocked)
    ensures k < |before.log| && Owner(before.log[k].chain) == Bob
    ensures Decrypt(before.alice, before.log[k].frame, Ok(keys[4])).1 == Ok(before.log[k].plaintext)
    ensures var delivery := Deliver(Alice, before.log[k].frame, Ok(keys[4]));
            after == Step(before, delivery) && ReachedBy(a, Start(sk, keys[0], keys[1]), actions + [delivery], after)
    ensures Encrypt(after.alice, Ok(nonce), plaintext).1 == Err(SendingBlocked)
  {
    var start := Start(sk, keys[0], keys[1]);
    actions, before, k := FilledChain(a, sk, keys, nonce, plaintext);
    LogIsGenuine(a, start, actions, before, k);
    assert before.Generation(Alice) == 3 && Passed(before, Alice, 2) == 1;
    var more;
    more, after := DeliverOne(a, start, actions, before, Alice, k, keys[4]);
    WhatReachedMeans(a, start, actions, before);
    WhatReachedMeans(a, start, more, after);
    LateFrameOpens(before, after, k, keys[4], nonce, plaintext);
  }

  lemma LateFrameOpens(before: World, after: World, k: nat, drawn: PrivateKey, nonce: Nonce, plaintext: Plaintext)
    requires Invariant(before) && Invariant(after) && k < |before.log|
    requires before.Generation(Alice) == 3 && before.sent[3] == CHAIN_LIMIT
    requires Genuine(before, before.log[k]) && WithinReach(before, Alice, before.log[k]) && before.log[k].chain == 2
    requires Receives(before, after, Alice, k, drawn)
    ensures Encrypt(before.alice, Ok(nonce), plaintext).1 == Err(SendingBlocked)
    ensures Decrypt(before.alice, before.log[k].frame, Ok(drawn)).1 == Ok(before.log[k].plaintext)
    ensures Encrypt(after.alice, Ok(nonce), plaintext).1 == Err(SendingBlocked)
  {
    ExactAcceptance(before, Alice, before.log[k], Ok(drawn));
    BlockedExactly(before, Alice, nonce, plaintext);
    BlockedExactly(after, Alice, nonce, plaintext);
  }

  // ---------- A conversation that heals ----------

  /** Alice, Bob and Alice again have sent a frame each, and each was read. */
  lemma TwoRounds(a: Attacker, sk: Key, keys: seq<PrivateKey>, nonce: Nonce, plaintext: Plaintext)
    returns (actions: seq<Action>, w: World)
    requires FiveKeys(keys) && Outsider(a, sk)
    ensures ReachedBy(a, Start(sk, keys[0], keys[1]), actions, w)
    ensures w.keys == keys && AllRead(w) && |w.log| == 3
  {
    var w1;
    actions, w1 := OneRound(a, sk, keys, nonce, plaintext);
    assert MayReply(w1, Alice);
    actions, w := OneReply(a, Start(sk, keys[0], keys[1]), actions, w1, Alice, keys[4], nonce, plaintext);
    assert w.keys == keys;
    StillAllRead(w1, w, Alice, keys[4]);
    WhatReachedMeans(a, Start(sk, keys[0], keys[1]), actions, w);
  }

  /** No key is kept of a frame that was opened. */
  lemma NothingKept(w: World, p: Party)
    requires Invariant(w) && AllRead(w)
    ensures Names(w.Of(p).skipped) == {}
  {
    forall name | WentPast(w, p, name)
      ensures !Retained(w, p, name)
    {
      Short.PastFramesWereSent(w, p, name);
      assert Accounted(w, p, name);
    }
    forall name | Retained(w, p, name)
      ensures WentPast(w, p, name)
    {
      RetainedWentPast(w, p, name);
    }
    assert forall name :: name in Names(w.Of(p).skipped) ==> Retained(w, p, name);
  }

  lemma BothArePast(w: World)
    requires Invariant(w) && AllRead(w) && |w.keys| == 5
    ensures forall q :: PastChains(w, q, 0)
  {
    forall q
      ensures PastChains(w, q, 0)
    {
      NothingKept(w, q);
    }
  }

  /** Bob's session is stolen before the first frame, with his signed prekey if the
      thief has that. Once three frames have been sent and read the conversation has
      healed: the conditions of `AuthenticityRecovers` can be met. */
  lemma TheftsHeal(a: Attacker, sk: Key, keys: seq<PrivateKey>, nonce: Nonce, plaintext: Plaintext)
    returns (actions: seq<Action>, w: World)
    requires FiveKeys(keys) && Outsider(a, sk) && sk.Hybrid? && keys[1] !in a.scalars && keys[2] !in a.scalars
    ensures ReachedBy(a, Start(sk, keys[0], keys[1]), actions, w) && |w.log| == 3 && AllRead(w)
    ensures GoesOn(a, Start(sk, keys[0], keys[1]), w, Bob) && Healed(Start(sk, keys[0], keys[1]), w, Bob)
  {
    actions, w := TwoRounds(a, sk, keys, nonce, plaintext);
    StartsInvariant(sk, keys[0], keys[1]);
    BothArePast(w);
  }

  // ---------- A frame that is forged after a round trip ----------

  /** Alice has sent frames 0 and 1, and Bob has read number 1. */
  lemma OneSkipped(a: Attacker, sk: Key, keys: seq<PrivateKey>, nonce: Nonce, plaintext: Plaintext)
    returns (actions: seq<Action>, w: World)
    requires FiveKeys(keys) && Outsider(a, sk)
    ensures ReachedBy(a, Start(sk, keys[0], keys[1]), actions, w)
    ensures w.keys == keys[..3] && w.sent[1] == 2 && w.sent[2] == 0 && |w.log| == 2 && OneChain(w, 2)
    ensures w.accepted == [Accepted(Bob, w.log[1].frame, w.log[1].plaintext)]
    ensures w.bob.receiving.Some? && w.bob.receiving.value.next == 2 && w.alice.receiving.None?
  {
    actions, w := FirstReceived(a, sk, keys, 2, 1, nonce, plaintext);
    WhatReachedMeans(a, Start(sk, keys[0], keys[1]), actions, w);
  }

  /** From there, one round trip: Bob's reply and Alice's, both read. */
  lemma RoundTrip(a: Attacker, w: World, keys: seq<PrivateKey>, nonce: Nonce, plaintext: Plaintext)
    returns (actions: seq<Action>, w': World)
    requires FiveKeys(keys) && Outsider(a, w.sk) && Invariant(w) && w.keys == keys[..3]
    requires w.sent[1] == 2 && w.sent[2] == 0 && |w.log| == 2
    requires w.bob.receiving.Some? && w.bob.receiving.value.next == 2 && w.alice.receiving.None?
    ensures ReachedBy(a, w, actions, w') && w'.keys == keys && w'.sent[1] == 2
    ensures |w'.log| == 4 && w'.log[..2] == w.log
    ensures |w'.accepted| == |w.accepted| + 2 && w'.accepted[..|w.accepted|] == w.accepted
    ensures w'.accepted[|w.accepted|].frame == w'.log[2].frame && w'.log[2].chain == 2
    ensures w'.accepted[|w.accepted| + 1].frame == w'.log[3].frame && w'.log[3].chain == 3
  {
    var w1;
    WhatReachedMeans(a, w, [], w);
    assert MayReply(w, Bob);
    actions, w1 := OneReply(a, w, [], w, Bob, keys[3], nonce, plaintext);
    assert w1.keys == keys[..4];
    assert MayReply(w1, Alice);
    actions, w' := OneReply(a, w, actions, w1, Alice, keys[4], nonce, plaintext);
    assert w'.keys == keys;
    assert w'.log[..|w1.log|][2] == w1.log[2];
    WhatReachedMeans(a, w, actions, w');
  }

  /** Frame 0 of chain 1 has been sent, gone past by Bob and not opened. */
  ghost predicate FrameZeroWaits(w: World) {
    && Invariant(w) && w.sent[1] == 2 && w.Generation(Bob) >= 2
    && (w.Generation(Bob) == 2 ==> Passed(w, Bob, 1) == 2)
    && forall i :: 0 <= i < |w.accepted| ==> NameOf(w.accepted[i].frame.header) != (Pub(w.keys[1]), 0)
  }

  /** ... so Bob keeps its key, if nothing was evicted. */
  lemma FrameZeroIsKept(w: World)
    requires FrameZeroWaits(w) && w.evicted == {}
    ensures Retained(w, Bob, (Pub(w.keys[1]), 0))
  {
    IndexOfKey(w.keys, 1);
    assert WentPast(w, Bob, (Pub(w.keys[1]), 0));
    assert Accounted(w, Bob, (Pub(w.keys[1]), 0));
  }

  lemma NothingLost(a: Attacker, w: World, actions: seq<Action>, w': World)
    requires ReachedBy(a, w, actions, w') && w.evicted == {} && Short.LatestOpened(w) && |w'.log| <= 4
    ensures w'.evicted == {} && Short.LatestOpened(w')
  {
    forall j | 0 <= j < |w'.sent|
      ensures w'.sent[j] <= Short.SHORT_CHAIN
    {
      Short.ChainsAreShort(w', j);
    }
    Short.RunLosesNothing(a, w, actions);
  }

  lemma OpenedNamesAreOthers(w: World, w': World)
    requires w'.Shape() && |w'.log| == 4 && Genuine(w', w'.log[2]) && Genuine(w', w'.log[3])
    requires OneChain(w, 2) && w.accepted == [Accepted(Bob, w.log[1].frame, w.log[1].plaintext)]
    requires |w'.accepted| == 3 && w'.accepted[..1] == w.accepted
    requires w'.accepted[1].frame == w'.log[2].frame && w'.log[2].chain == 2
    requires w'.accepted[2].frame == w'.log[3].frame && w'.log[3].chain == 3
    ensures forall i :: 0 <= i < 3 ==> NameOf(w'.accepted[i].frame.header) != (Pub(w'.keys[1]), 0)
  {
    assert w'.accepted[0] == w'.accepted[..1][0];
    OtherChainOtherName(w', 2);
    OtherChainOtherName(w', 3);
  }

  lemma OtherChainOtherName(w: World, k: nat)
    requires w.Shape() && k < |w.log| && Genuine(w, w.log[k]) && w.log[k].chain != 1
    ensures NameOf(w.log[k].frame.header) != (Pub(w.keys[1]), 0)
  {
  }

  lemma KeptAtTheft(a: Attacker, sk: Key, keys: seq<PrivateKey>, actions: seq<Action>, w: World)
    requires FiveKeys(keys) && ReachedBy(a, Start(sk, keys[0], keys[1]), actions, w)
    requires w.keys == keys[..3] && w.sent[1] == 2 && |w.log| == 2 && OneChain(w, 2)
    requires w.accepted == [Accepted(Bob, w.log[1].frame, w.log[1].plaintext)]
    requires w.bob.receiving.Some? && w.bob.receiving.value.next == 2
    ensures Retained(w, Bob, (Pub(w.keys[1]), 0)) && w.evicted == {} && Short.LatestOpened(w)
  {
    NothingLost(a, Start(sk, keys[0], keys[1]), actions, w);
    FrameZeroIsKept(w);
  }

  lemma KeptAfterTheTrip(a: Attacker, w: World, actions: seq<Action>, w': World)
    requires ReachedBy(a, w, actions, w') && w.evicted == {} && Short.LatestOpened(w)
    requires w.keys <= w'.keys && |w.keys| == 3 && |w'.keys| == 5 && w'.sent[1] == 2
    requires |w'.log| == 4 && w'.log[..2] == w.log && OneChain(w, 2)
    requires w.accepted == [Accepted(Bob, w.log[1].frame, w.log[1].plaintext)]
    requires |w'.accepted| == 3 && w'.accepted[..1] == w.accepted
    requires w'.accepted[1].frame == w'.log[2].frame && w'.log[2].chain == 2
    requires w'.accepted[2].frame == w'.log[3].frame && w'.log[3].chain == 3
    ensures Retained(w', Bob, (Pub(w'.keys[1]), 0))
  {
    NothingLost(a, w, actions, w');
    assert Genuine(w', w'.log[2]) && Genuine(w', w'.log[3]);
    OpenedNamesAreOthers(w, w');
    FrameZeroIsKept(w');
  }

  /** Bob keeps the key of frame 0, his session is stolen, and one round trip
      follows. Under the header of frame 0 the thief then still forges frames that
      Bob opens. */
  lemma OldKeysForge(a: Attacker, sk: Key, keys: seq<PrivateKey>, nonce: Nonce, plaintext: Plaintext, drawn: PrivateKey)
    returns (actions: seq<Action>, w: World, more: seq<Action>, w': World)
    requires FiveKeys(keys) && Outsider(a, sk) && sk.Hybrid? && keys[3] !in a.scalars && keys[4] !in a.scalars
    ensures ReachedBy(a, Start(sk, keys[0], keys[1]), actions, w) && ReachedBy(a, w, more, w')
    ensures w'.Generation(Bob) == w.Generation(Bob) + 2 && GoesOn(a, w, w', Bob)
    ensures Forgeable(a, w, w', Bob, Bob, Header(Pub(keys[1]), 0, 0), Ok(drawn))
  {
    actions, w := OneSkipped(a, sk, keys, nonce, plaintext);
    KeptAtTheft(a, sk, keys, actions, w);
    more, w' := RoundTrip(a, w, keys, nonce, plaintext);
    KeptAfterTheTrip(a, w, more, w');
    TheTripGoesOn(a, w, w', keys);
    RetainedKeysOpenForgeries(a, w, w', Bob, Bob, Header(Pub(keys[1]), 0, 0), Ok(drawn));
  }

  lemma TheTripGoesOn(a: Attacker, w: World, w': World, keys: seq<PrivateKey>)
    requires FiveKeys(keys) && w.keys == keys[..3] && w'.keys == keys && keys[3] !in a.scalars && keys[4] !in a.scalars
    requires Invariant(w) && Invariant(w') && Outsider(a, w.sk) && w.sk.Hybrid? && w'.sk == w.sk
    ensures w.Generation(Bob) == 2 && w'.Generation(Bob) == 4 && GoesOn(a, w, w', Bob)
  {
  }

  // ---------- The limits of a chain and of the store ----------

  /** A chain of 1 002 frames: delivered first, the last one is refused, although it
      was never opened. */
  lemma LongChainsLoseFrames(a: Attacker, sk: Key, keys: seq<PrivateKey>, nonce: Nonce, plaintext: Plaintext, drawn: PrivateKey)
    returns (actions: seq<Action>, w: World)
    requires FiveKeys(keys) && Outsider(a, sk)
    ensures ReachedBy(a, Start(sk, keys[0], keys[1]), actions, w)
    ensures |w.log| == 1002 && Owner(w.log[1001].chain) == Alice && w.accepted == [] && w.evicted == {}
    ensures Decrypt(w.bob, w.log[1001].frame, Ok(drawn)).1 == Err(TooFarAhead)
  {
    actions, w := AliceSends(a, sk, keys, 1002, nonce, plaintext);
    WhatReachedMeans(a, Start(sk, keys[0], keys[1]), actions, w);
    NothingGone(w);
    LastIsTooFar(w, drawn);
  }

  lemma NothingGone(w: World)
    requires Invariant(w) && w.Generation(Alice) == 1 && w.Generation(Bob) == 0
    ensures w.evicted == {} && w.bob.skipped == []
  {
    assert StoreInStep(w, Bob);
    assert forall p, name :: !WentPast(w, p, name);
    assert w.bob.skipped != [] ==> EntryInStep(w, Bob, w.bob.skipped[0]);
  }

  lemma LastIsTooFar(w: World, drawn: PrivateKey)
    requires Invariant(w) && OneChain(w, 1002) && w.Generation(Bob) == 0 && w.bob.skipped == []
    ensures Decrypt(w.bob, w.log[1001].frame, Ok(drawn)).1 == Err(TooFarAhead)
  {
    assert Genuine(w, w.log[1001]);
    ExactOutcome(w, Bob, w.log[1001], Ok(drawn));
  }

  /** All keys Bob keeps are of the one chain there is, at most 1 000. */
  lemma FewAreKept(w: World)
    requires Invariant(w) && w.Generation(Bob) == 2
    ensures |Names(w.bob.skipped)| <= MAX_SKIP_PER_CHAIN
  {
    var s, r := w.bob.skipped, Pub(w.keys[1]);
    assert s == w.Of(Bob).skipped && StoreInStep(w, Bob) && Bounded(w.Of(Bob));
    forall i | 0 <= i < |s|
      ensures s[i].ratchet == r
    {
      assert EntryInStep(w, Bob, s[i]);
    }
    OneRatchetOnly(s, r, r);
    Short.AsManyNames(w.keys, s);
  }

  /** Every frame of the chain was opened, is kept or was evicted. */
  lemma ManyAreEvicted(w: World)
    requires Invariant(w) && w.Generation(Bob) == 2 && Passed(w, Bob, 1) == CHAIN_LIMIT && |w.accepted| == 2
    ensures |w.evicted| >= CHAIN_LIMIT - MAX_SKIP_PER_CHAIN - 2
  {
    var all, kept := Short.NamesBelow(Pub(w.keys[1]), CHAIN_LIMIT), Names(w.bob.skipped);
    IndexOfKey(w.keys, 1);
    forall name | name in all
      ensures name in OpenedNames(w) + kept + w.evicted
    {
      assert WentPast(w, Bob, name);
      assert Accounted(w, Bob, name);
    }
    Short.SubsetIsSmaller(all, OpenedNames(w) + kept + w.evicted);
    FewAreKept(w);
    TwoNames(w);
  }

  lemma TwoNames(w: World)
    requires |w.accepted| == 2
    ensures |OpenedNames(w)| <= 2
  {
    assert OpenedNames(w) == {NameOf(w.accepted[0].frame.header), NameOf(w.accepted[1].frame.header)};
  }

  lemma EvictedFrame(w: World, drawn: PrivateKey) returns (k: nat)
    requires Invariant(w) && OneChain(w, CHAIN_LIMIT) && w.Generation(Bob) == 2 && w.evicted != {}
    ensures k < |w.log| && NameOf(w.log[k].frame.header) in w.evicted
    ensures Decrypt(w.bob, w.log[k].frame, Ok(drawn)).1 == Err(Crypto(Authentication))
  {
    k := EvictedWasSent(w);
    assert Genuine(w, w.log[k]) && w.log[k].chain == 1;
    GoneKeysAreRefused(w, Bob, w.log[k], Ok(drawn));
  }

  lemma EvictedWasSent(w: World) returns (k: nat)
    requires Invariant(w) && w.evicted != {}
    ensures k < |w.log| && NameOf(w.log[k].frame.header) in w.evicted
  {
    var name :| name in w.evicted;
    EvictedByReceiver(w, Bob, name);
    Short.PastFramesWereSent(w, if WentPast(w, Bob, name) then Bob else Alice, name);
    k :| 0 <= k < |w.log| && NameOf(w.log[k].frame.header) == name;
  }

  /** Numbers 1 000 and 1 999 of a full chain, and only these, are delivered: at
      least 998 keys are evicted, and their frames do not open any more. */
  lemma FullChainsEvict(a: Attacker, sk: Key, keys: seq<PrivateKey>, nonce: Nonce, plaintext: Plaintext, drawn: PrivateKey)
    returns (actions: seq<Action>, w: World, k: nat)
    requires FiveKeys(keys) && Outsider(a, sk)
    ensures ReachedBy(a, Start(sk, keys[0], keys[1]), actions, w)
    ensures OneChain(w, CHAIN_LIMIT) && |w.accepted| == 2 && |w.evicted| >= 998
    ensures k < |w.log| && NameOf(w.log[k].frame.header) in w.evicted
    ensures Decrypt(w.bob, w.log[k].frame, Ok(drawn)).1 == Err(Crypto(Authentication))
  {
    actions, w := LongChain(a, sk, keys, CHAIN_LIMIT, nonce, plaintext);
    WhatReachedMeans(a, Start(sk, keys[0], keys[1]), actions, w);
    ManyAreEvicted(w);
    k := EvictedFrame(w, drawn);
  }
}

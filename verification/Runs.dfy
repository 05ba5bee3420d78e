/**
 Whole runs: the theorems about every conversation, of any length, that starts
 from a shared key no outsider can compute.
*/
module Runs {
  import opened Results
  import opened Terms
  import opened Attacker
  import opened Schedule
  import opened SkippedStore
  import opened RatchetSpec
  import opened Conversation
  import opened LockStepProof
  import opened History

  /** A run the network can bring about. */
  ghost predicate Admissible(a: Attacker, w: World, actions: seq<Action>)
    decreases |actions|
  {
    actions == [] ||
    (w.Shape() && Enabled(a, w, actions[0]) && Admissible(a, Step(w, actions[0]), actions[1..]))
  }

  ghost function Run(a: Attacker, w: World, actions: seq<Action>): World
    requires Admissible(a, w, actions)
    decreases |actions|
  {
    if actions == [] then w else Run(a, Step(w, actions[0]), actions[1..])
  }

  /** The frames of one chain, in the order they were sent. */
  function ChainLog(log: seq<Sent>, chain: nat): seq<Sent> {
    if log == [] then []
    else
      var last := log[|log| - 1];
      ChainLog(log[..|log| - 1], chain) + (if last.chain == chain then [last] else [])
  }

  /** Every chain is numbered 0, 1, 2, ... without gaps or repeats. */
  ghost predicate Numbered(w: World)
    requires w.Shape()
  {
    forall j :: 0 <= j < |w.sent| ==>
      && |ChainLog(w.log, j)| == w.sent[j]
      && forall i :: 0 <= i < |ChainLog(w.log, j)| ==> ChainLog(w.log, j)[i].frame.header.messageNumber == i
  }

  /** Both sessions are within the limits of the specification. */
  ghost predicate BothBounded(w: World) {
    forall p :: Bounded(w.Of(p))
  }

  ghost predicate Invariant(w: World) {
    LockStep(w) && HistoryInStep(w) && Numbered(w) && BothBounded(w)
  }

  lemma OneMoreNumber(w: World, w': World, m: Sent)
    requires w.Shape() && w'.Shape() && Numbered(w) && m.chain < |w.sent|
    requires m.frame.header.messageNumber < 2000
    requires w'.log == w.log + [m] && w'.sent == w.sent[m.chain := m.frame.header.messageNumber + 1]
    requires m.frame.header.messageNumber == w.sent[m.chain]
    ensures Numbered(w')
  {
    assert w'.log[..|w.log|] == w.log;
    forall j | 0 <= j < |w'.sent|
      ensures ChainLog(w'.log, j) == ChainLog(w.log, j) + (if j == m.chain then [m] else [])
      ensures |ChainLog(w'.log, j)| == w'.sent[j]
    {
      assert |ChainLog(w.log, j)| == w.sent[j];
    }
  }

  lemma SendKeepsNumbering(w: World, from: Party, nonce: Result<Nonce, CryptoError>, plaintext: Plaintext)
    requires LockStep(w) && Numbered(w)
    ensures Step(w, Send(from, nonce, plaintext)).Shape()
    ensures Numbered(Step(w, Send(from, nonce, plaintext)))
  {
    if Encrypt(w.Of(from), nonce, plaintext).1.Ok? {
      var w' := SendMoves(w, from, nonce, plaintext);
      assert InStep(w, from);
      OneMoreNumber(w, w', w'.log[|w.log|]);
    }
  }

  lemma {:induction false} NoFramesYet(log: seq<Sent>, chain: nat)
    requires forall k :: 0 <= k < |log| ==> log[k].chain < chain
    ensures ChainLog(log, chain) == []
  {
    if log != [] {
      NoFramesYet(log[..|log| - 1], chain);
    }
  }

  lemma NewChainIsEmpty(w: World)
    requires LockStep(w)
    ensures ChainLog(w.log, |w.keys|) == []
  {
    forall k | 0 <= k < |w.log|
      ensures w.log[k].chain < |w.keys|
    {
      assert Genuine(w, w.log[k]);
    }
    NoFramesYet(w.log, |w.keys|);
  }

  lemma SameLogSameNumbers(w: World, w': World)
    requires w.Shape() && w'.Shape() && Numbered(w) && w'.log == w.log
    requires w'.sent == w.sent || (w'.sent == w.sent + [0] && ChainLog(w.log, |w.sent|) == [])
    ensures Numbered(w')
  {
    forall j | 0 <= j < |w'.sent|
      ensures |ChainLog(w.log, j)| == w'.sent[j]
    {
      assert j < |w.sent| ==> |ChainLog(w.log, j)| == w.sent[j];
    }
  }

  lemma DeliverKeepsNumbering(a: Attacker, w: World, p: Party, frame: SealedFrame, drawn: Result<PrivateKey, CryptoError>)
    requires LockStep(w) && Numbered(w) && Outsider(a, w.sk) && Enabled(a, w, Deliver(p, frame, drawn))
    requires Step(w, Deliver(p, frame, drawn)).Shape()
    ensures Numbered(Step(w, Deliver(p, frame, drawn)))
  {
    if Decrypt(w.Of(p), frame, drawn).1.Ok? {
      var w', _, _ := AcceptShape(a, w, p, frame, drawn);
      NewChainIsEmpty(w);
      SameLogSameNumbers(w, w');
    }
  }

  lemma MoverStaysBounded(w: World, w': World, p: Party)
    requires BothBounded(w) && w'.Of(p.Peer()) == w.Of(p.Peer()) && Bounded(w'.Of(p))
    ensures BothBounded(w')
  {
    forall q
      ensures Bounded(w'.Of(q))
    {
      assert Bounded(w.Of(q));
    }
  }

  /** Counters and stores stay within their limits, whatever is delivered. */
  lemma StepKeepsBounds(w: World, action: Action)
    requires w.Shape() && BothBounded(w)
    ensures BothBounded(Step(w, action))
  {
    assert Bounded(w.alice) == Bounded(w.Of(Alice)) && Bounded(w.bob) == Bounded(w.Of(Bob));
    match action
    case Send(from, nonce, plaintext) =>
      EncryptKeepsBounds(w.Of(from), nonce, plaintext);
      MoverStaysBounded(w, Step(w, action), from);
    case Deliver(to, frame, drawn) =>
      DecryptKeepsBounds(w.Of(to), frame, drawn);
      MoverStaysBounded(w, Step(w, action), to);
  }

  lemma StepKeepsInvariant(a: Attacker, w: World, action: Action)
    requires Invariant(w) && Outsider(a, w.sk) && Enabled(a, w, action)
    ensures Invariant(Step(w, action)) && Step(w, action).sk == w.sk
  {
    StepKeepsLockStep(a, w, action);
    StepKeepsHistory(a, w, action);
    StepKeepsBounds(w, action);
    match action
    case Send(from, nonce, plaintext) => SendKeepsNumbering(w, from, nonce, plaintext);
    case Deliver(to, frame, drawn) => DeliverKeepsNumbering(a, w, to, frame, drawn);
  }

  lemma StartsInvariant(sk: Key, prekey: PrivateKey, first: PrivateKey)
    requires prekey != first
    ensures Invariant(Start(sk, prekey, first))
  {
    StartsInStep(sk, prekey, first);
    StartsWithHistory(sk, prekey, first);
    SessionsStartBounded(sk, Pub(prekey), first);
    SessionsStartBounded(sk, Pub(prekey), prekey);
  }

  /** The invariant holds throughout every run. */
  lemma {:induction false} RunKeepsInvariant(a: Attacker, w: World, actions: seq<Action>)
    requires Invariant(w) && Outsider(a, w.sk) && Admissible(a, w, actions)
    ensures Invariant(Run(a, w, actions)) && Run(a, w, actions).sk == w.sk
    decreases |actions|
  {
    if actions != [] {
      StepKeepsInvariant(a, w, actions[0]);
      RunKeepsInvariant(a, Step(w, actions[0]), actions[1..]);
    }
  }

  // ---------- Safety ----------

  /** Whatever the network does, every accepted frame is one the peer sealed,
      byte for byte, it yields exactly the plaintext the peer sealed in it, and
      no frame is accepted twice. */
  lemma EveryRunIsSafe(a: Attacker, sk: Key, prekey: PrivateKey, first: PrivateKey, actions: seq<Action>)
    requires prekey != first && Outsider(a, sk)
    requires Admissible(a, Start(sk, prekey, first), actions)
    ensures var w := Run(a, Start(sk, prekey, first), actions);
            && (forall i :: 0 <= i < |w.accepted| ==> SealedByPeer(w, w.accepted[i]))
            && (forall i, j :: 0 <= i < j < |w.accepted| ==> w.accepted[i].frame != w.accepted[j].frame)
  {
    StartsInvariant(sk, prekey, first);
    RunKeepsInvariant(a, Start(sk, prekey, first), actions);
    var w := Run(a, Start(sk, prekey, first), actions);
    forall i, j | 0 <= i < j < |w.accepted|
      ensures w.accepted[i].frame != w.accepted[j].frame
    {
      assert NameOf(w.accepted[i].frame.header) != NameOf(w.accepted[j].frame.header);
    }
  }

  /** A frame that differs in any way from every frame sent is refused, and the
      session stays as it was. */
  lemma ForgeriesAreRefused(a: Attacker, w: World, p: Party, frame: SealedFrame, drawn: Result<PrivateKey, CryptoError>)
    requires Invariant(w) && Outsider(a, w.sk) && CanDeliver(a, w, frame)
    requires forall k :: 0 <= k < |w.log| && Owner(w.log[k].chain) == p.Peer() ==> w.log[k].frame != frame
    ensures Decrypt(w.Of(p), frame, drawn).1.Err? && Decrypt(w.Of(p), frame, drawn).0 == w.Of(p)
  {
    if Decrypt(w.Of(p), frame, drawn).1.Ok? {
      var k, _ := AcceptedIsGenuine(a, w, p, frame, drawn);
    }
  }

  // ---------- Agreement of the two sessions ----------

  /** Lock step in terms of the two sessions alone. A party that reads the chain
      its peer is sealing reaches the peer's chain key by stepping its own on. A
      party that has yet to read the peer's newest ratchet key derives from its
      own root key and ratchet key the peer's root key, and the chain the peer is
      sealing. One of the two always holds. */
  lemma SessionsMeet(w: World, p: Party)
    requires Invariant(w)
    ensures var s, t := w.Of(p), w.Of(p.Peer());
            if w.Generation(p) > w.Generation(p.Peer()) then
              w.Generation(p.Peer()) == 0 ||
              (&& s.receiving.Some? && t.sending.Some? && s.receiving.value.next <= t.sending.value.next
               && Advance(s.receiving.value.key, t.sending.value.next - s.receiving.value.next) == t.sending.value.key)
            else
              && t.sending.Some?
              && KdfRoot(s.rootKey, s.ownRatchet, Pub(t.ownRatchet)).Ok?
              && var (rootKey, chainKey) := KdfRoot(s.rootKey, s.ownRatchet, Pub(t.ownRatchet)).value;
              && rootKey == t.rootKey && Advance(chainKey, t.sending.value.next) == t.sending.value.key
  {
    if w.Generation(p) < w.Generation(p.Peer()) {
      BehindDerivesAhead(w, p);
    } else if w.Generation(p) >= 2 {
      ReaderReachesSealer(w, p);
    }
  }

  lemma ReaderReachesSealer(w: World, p: Party)
    requires LockStep(w) && w.Generation(p) >= 2 && w.Generation(p) > w.Generation(p.Peer())
    ensures var s, t := w.Of(p), w.Of(p.Peer());
            && s.receiving.Some? && t.sending.Some? && s.receiving.value.next <= t.sending.value.next
            && Advance(s.receiving.value.key, t.sending.value.next - s.receiving.value.next) == t.sending.value.key
  {
    var g := w.Generation(p);
    assert InStep(w, p) && InStep(w, p.Peer());
    AdvanceAdds(ChainAt(w.sk, w.keys, g - 1), w.Of(p).receiving.value.next,
                w.sent[g - 1] - w.Of(p).receiving.value.next);
  }

  lemma BehindDerivesAhead(w: World, p: Party)
    requires LockStep(w) && w.Generation(p) < w.Generation(p.Peer())
    ensures var s, t := w.Of(p), w.Of(p.Peer());
            && t.sending.Some?
            && KdfRoot(s.rootKey, s.ownRatchet, Pub(t.ownRatchet)).Ok?
            && var (rootKey, chainKey) := KdfRoot(s.rootKey, s.ownRatchet, Pub(t.ownRatchet)).value;
            && rootKey == t.rootKey && Advance(chainKey, t.sending.value.next) == t.sending.value.key
  {
    var g := w.Generation(p);
    assert InStep(w, p) && InStep(w, p.Peer());
    assert w.Generation(p.Peer()) == g + 1;
    assert RootAt(w.sk, w.keys, g + 1) == RootOf(RootAt(w.sk, w.keys, g), Link(w.keys, g + 1));
  }

  // ---------- Sending ----------

  /** Each chain carries frames 0, 1, 2, ... up to its count, at most 2 000 of
      them, and no two frames ever share a message key. */
  lemma SendDiscipline(w: World)
    requires Invariant(w)
    ensures Numbered(w) && forall j :: 0 <= j < |w.sent| ==> w.sent[j] <= 2000
    ensures forall k, l :: 0 <= k < l < |w.log| ==>
              w.log[k].frame.body.Box? && w.log[l].frame.body.Box? &&
              w.log[k].frame.body.key != w.log[l].frame.body.key &&
              NameOf(w.log[k].frame.header) != NameOf(w.log[l].frame.header)
  {
    forall k, l | 0 <= k < l < |w.log|
      ensures w.log[k].frame.body.Box? && w.log[l].frame.body.Box?
      ensures w.log[k].frame.body.key != w.log[l].frame.body.key
      ensures NameOf(w.log[k].frame.header) != NameOf(w.log[l].frame.header)
    {
      var m, n := w.log[k], w.log[l];
      assert Genuine(w, m) && Genuine(w, n);
      MessageKeysAreDistinct(w.sk, w.keys, m.chain, m.frame.header.messageNumber, n.chain, n.frame.header.messageNumber);
      IndexOfKey(w.keys, m.chain);
      IndexOfKey(w.keys, n.chain);
      if m.chain == n.chain {
        NumberingIsStrict(w.log, m.chain, k, l);
      }
    }
  }

  /** A frame's place in its chain's log. */
  lemma {:induction false} PlaceInChain(log: seq<Sent>, chain: nat, k: nat) returns (i: nat)
    requires k < |log| && log[k].chain == chain
    ensures i < |ChainLog(log, chain)| && ChainLog(log, chain)[i] == log[k]
    ensures i == |ChainLog(log[..k], chain)|
  {
    if k == |log| - 1 {
      i := |ChainLog(log[..k], chain)|;
    } else {
      assert log[..|log| - 1][..k] == log[..k];
      i := PlaceInChain(log[..|log| - 1], chain, k);
    }
  }

  lemma {:induction false} ChainLogGrows(log: seq<Sent>, chain: nat, k: nat)
    requires k <= |log|
    ensures |ChainLog(log[..k], chain)| <= |ChainLog(log, chain)|
  {
    if k < |log| {
      assert log[..|log| - 1][..k] == log[..k];
      ChainLogGrows(log[..|log| - 1], chain, k);
    } else {
      assert log[..k] == log;
    }
  }

  lemma NumberingIsStrict(log: seq<Sent>, chain: nat, k: nat, l: nat)
    requires k < l < |log| && log[k].chain == chain && log[l].chain == chain
    requires forall i :: 0 <= i < |ChainLog(log, chain)| ==> ChainLog(log, chain)[i].frame.header.messageNumber == i
    ensures log[k].frame.header.messageNumber < log[l].frame.header.messageNumber
  {
    var i := PlaceInChain(log, chain, k);
    var j := PlaceInChain(log, chain, l);
    ChainLogGrows(log[..l], chain, k + 1);
    assert log[..l][..k + 1] == log[..k + 1];
    assert log[..k + 1][..k] == log[..k];
  }

  /** Sending is blocked exactly for the responder before its first frame and
      for a party whose current chain is full. */
  lemma BlockedExactly(w: World, p: Party, nonce: Nonce, plaintext: Plaintext)
    requires Invariant(w)
    ensures Encrypt(w.Of(p), Ok(nonce), plaintext).1 == Err(SendingBlocked) <==>
            w.Generation(p) == 0 || w.sent[w.Generation(p)] == 2000
    ensures Encrypt(w.Of(p), Ok(nonce), plaintext).1.Ok? <==>
            w.Generation(p) > 0 && w.sent[w.Generation(p)] < 2000
  {
    assert InStep(w, p);
  }

  /** Receiving unblocks a full chain only when the frame opens a new one: a late
      frame of the peer's current chain does not. */
  lemma OnlyANewChainUnblocks(s: State, sealed: SealedFrame, drawn: Result<PrivateKey, CryptoError>)
    requires !MaySend(s) && Decrypt(s, sealed, drawn).1.Ok?
    ensures MaySend(Decrypt(s, sealed, drawn).0) <==> OpensNewChain(s, sealed.header)
  {
  }

  // ---------- Exactly what opens ----------

  /** The outcome of delivering a frame the peer sealed, told from the counts of
      the conversation. */
  ghost function Verdict(w: World, p: Party, m: Sent, drawn: Result<PrivateKey, CryptoError>): Result<Plaintext, Error>
    requires w.Shape() && Genuine(w, m) && Owner(m.chain) == p.Peer()
  {
    var g, number := w.Generation(p), m.frame.header.messageNumber;
    if Retained(w, p, NameOf(m.frame.header)) then Ok(m.plaintext)
    else if m.chain == g - 1 then
      if number < Passed(w, p, g - 1) then Err(Crypto(Authentication))
      else if number - Passed(w, p, g - 1) > 1000 then Err(TooFarAhead)
      else Ok(m.plaintext)
    else if g >= 2 && PreviousLen(w.sent, m.chain) - Passed(w, p, g - 1) > 1000 then Err(TooFarAhead)
    else if drawn.Err? then Err(Crypto(drawn.error))
    else if number > 1000 then Err(TooFarAhead)
    else if m.chain == g + 1 then Ok(m.plaintext)
    else Err(Crypto(Authentication))
  }

  lemma RetainedVerdict(w: World, p: Party, m: Sent, drawn: Result<PrivateKey, CryptoError>)
    requires Invariant(w) && Genuine(w, m) && Owner(m.chain) == p.Peer()
    requires Retained(w, p, NameOf(m.frame.header))
    ensures Decrypt(w.Of(p), m.frame, drawn).1 == Ok(m.plaintext)
  {
    MatchIsMembership(w.Of(p).skipped, NameOf(m.frame.header));
    var j := StoredCandidate(w, p, m.frame.header, drawn);
    IndexOfKey(w.keys, m.chain);
  }

  /** When the receiving chain yields a key, and what is wrong when it does not. */
  lemma CurrentRefusal(w: World, p: Party, m: Sent)
    requires LockStep(w) && Genuine(w, m) && w.Generation(p) >= 2
    ensures var number, past := m.frame.header.messageNumber, Passed(w, p, w.Generation(p) - 1);
            var r := InReceivingChain(w.Of(p), m.frame.header);
            if number < past then r == Err(Crypto(Authentication))
            else if number - past > 1000 then r == Err(TooFarAhead)
            else r.Ok?
  {
    assert InStep(w, p);
  }

  lemma CurrentVerdict(w: World, p: Party, m: Sent, drawn: Result<PrivateKey, CryptoError>)
    requires LockStep(w) && Genuine(w, m) && Owner(m.chain) == p.Peer()
    requires !Retained(w, p, NameOf(m.frame.header)) && m.chain == w.Generation(p) - 1
    ensures Decrypt(w.Of(p), m.frame, drawn).1 == Verdict(w, p, m, drawn)
  {
    MatchIsMembership(w.Of(p).skipped, NameOf(m.frame.header));
    assert w.Of(p).remoteRatchet == Some(m.frame.header.ratchet) by {
      assert InStep(w, p);
    }
    var r := InReceivingChain(w.Of(p), m.frame.header);
    assert Candidate(w.Of(p), m.frame.header, drawn) == r;
    CurrentRefusal(w, p, m);
    if r.Ok? {
      CurrentCandidate(w, p, m.frame.header);
    }
  }

  /** When a ratchet step yields a key, and what is wrong when it does not. */
  lemma OtherRefusal(w: World, p: Party, m: Sent, drawn: Result<PrivateKey, CryptoError>)
    requires LockStep(w) && Genuine(w, m)
    ensures var g, number := w.Generation(p), m.frame.header.messageNumber;
            var r := AfterRatchetStep(w.Of(p), m.frame.header, drawn);
            if g >= 2 && PreviousLen(w.sent, m.chain) - Passed(w, p, g - 1) > 1000
            then r == Err(TooFarAhead)
            else if drawn.Err? then r == Err(Crypto(drawn.error))
            else if number > 1000 then r == Err(TooFarAhead)
            else r.Ok?
  {
    assert InStep(w, p);
  }

  lemma OtherIsNotCurrent(w: World, p: Party, m: Sent)
    requires LockStep(w) && Genuine(w, m) && m.chain != w.Generation(p) - 1
    ensures w.Of(p).remoteRatchet != Some(m.frame.header.ratchet)
  {
    assert InStep(w, p);
    IndexOfKey(w.keys, m.chain);
    if w.Generation(p) > 0 {
      IndexOfKey(w.keys, w.Generation(p) - 1);
    }
  }

  lemma OtherVerdict(w: World, p: Party, m: Sent, drawn: Result<PrivateKey, CryptoError>)
    requires LockStep(w) && Genuine(w, m) && Owner(m.chain) == p.Peer()
    requires !Retained(w, p, NameOf(m.frame.header)) && m.chain != w.Generation(p) - 1
    ensures Decrypt(w.Of(p), m.frame, drawn).1 == Verdict(w, p, m, drawn)
  {
    MatchIsMembership(w.Of(p).skipped, NameOf(m.frame.header));
    OtherIsNotCurrent(w, p, m);
    var g, header := w.Generation(p), m.frame.header;
    var r := AfterRatchetStep(w.Of(p), header, drawn);
    assert Candidate(w.Of(p), header, drawn) == r;
    OtherRefusal(w, p, m, drawn);
    if r.Ok? {
      var shared := NextCandidate(w, p, header, drawn);
      assert m.chain == g + 1 ==> shared == Link(w.keys, g + 1) by {
        assert InStep(w, p);
      }
      if r.value.key == m.frame.body.key {
        NextChainOnly(w.sk, w.keys, g, shared, header.messageNumber, m.chain, header.messageNumber);
      }
    }
  }

  /** Delivering a genuine frame has exactly this outcome. */
  lemma ExactOutcome(w: World, p: Party, m: Sent, drawn: Result<PrivateKey, CryptoError>)
    requires Invariant(w) && Genuine(w, m) && Owner(m.chain) == p.Peer()
    ensures Decrypt(w.Of(p), m.frame, drawn).1 == Verdict(w, p, m, drawn)
  {
    if Retained(w, p, NameOf(m.frame.header)) {
      RetainedVerdict(w, p, m, drawn);
    } else if m.chain == w.Generation(p) - 1 {
      CurrentVerdict(w, p, m, drawn);
    } else {
      OtherVerdict(w, p, m, drawn);
    }
  }

  /** A frame not yet gone past is within reach: at most 1 000 ahead in the
      current chain; or of the next chain, numbered at most 1 000, with at most
      1 000 frames left unreceived in the previous one. */
  ghost predicate WithinReach(w: World, p: Party, m: Sent)
    requires w.Shape() && Genuine(w, m)
  {
    var g, number := w.Generation(p), m.frame.header.messageNumber;
    || (m.chain == g - 1 && 0 <= number - Passed(w, p, g - 1) <= 1000)
    || (m.chain == g + 1 && number <= 1000 &&
        (g >= 2 ==> w.sent[g - 1] - Passed(w, p, g - 1) <= 1000))
  }

  /** A genuine frame opens if and only if its key is retained or it is within
      reach; and a frame gone past is retained if and only if it was neither
      opened nor evicted. */
  lemma ExactAcceptance(w: World, p: Party, m: Sent, drawn: Result<PrivateKey, CryptoError>)
    requires Invariant(w) && Genuine(w, m) && Owner(m.chain) == p.Peer() && drawn.Ok?
    ensures Decrypt(w.Of(p), m.frame, drawn).1 == Ok(m.plaintext) <==> Decrypt(w.Of(p), m.frame, drawn).1.Ok?
    ensures Decrypt(w.Of(p), m.frame, drawn).1.Ok? <==>
            Retained(w, p, NameOf(m.frame.header)) || WithinReach(w, p, m)
    ensures WentPast(w, p, NameOf(m.frame.header)) ==>
              (Retained(w, p, NameOf(m.frame.header)) <==>
               NameOf(m.frame.header) !in OpenedNames(w) && NameOf(m.frame.header) !in w.evicted)
    ensures WithinReach(w, p, m) ==> !WentPast(w, p, NameOf(m.frame.header))
  {
    ExactOutcome(w, p, m, drawn);
    GenuineNames(w, p, m);
    if WentPast(w, p, NameOf(m.frame.header)) {
      assert Accounted(w, p, NameOf(m.frame.header));
    }
  }

  /** Going past a frame the peer sealed, told by its chain and number. */
  lemma GenuineNames(w: World, p: Party, m: Sent)
    requires LockStep(w) && Genuine(w, m) && Owner(m.chain) == p.Peer()
    ensures WentPast(w, p, NameOf(m.frame.header)) <==>
            m.chain < w.Generation(p) && m.frame.header.messageNumber < Passed(w, p, m.chain)
    ensures m.chain < w.Generation(p) ==> Passed(w, p, m.chain) <= w.sent[m.chain]
  {
    IndexOfKey(w.keys, m.chain);
    assert InStep(w, p);
  }

  /** Where a frame whose key is not gone stands. */
  lemma StillToCome(w: World, p: Party, m: Sent)
    requires Invariant(w) && Genuine(w, m) && Owner(m.chain) == p.Peer()
    requires NameOf(m.frame.header) !in OpenedNames(w) && NameOf(m.frame.header) !in w.evicted
    ensures var g, n := w.Generation(p), m.frame.header.messageNumber;
            || Retained(w, p, NameOf(m.frame.header))
            || (g >= 2 && m.chain == g - 1 && Passed(w, p, g - 1) <= n)
            || (m.chain == g + 1 && (g >= 2 ==> Passed(w, p, g - 1) <= w.sent[g - 1]))
  {
    GenuineNames(w, p, m);
    assert InStep(w, p);
    if WentPast(w, p, NameOf(m.frame.header)) {
      assert Accounted(w, p, NameOf(m.frame.header));
    }
  }

  /** A frame whose key is gone, opened before or evicted, never opens. It is
      reported as an authentication failure exactly when its chain is the current
      one, or its header asks for no more than 1 000 keys of either chain and the
      key generator works; otherwise the error is another one. */
  lemma GoneKeysAreRefused(w: World, p: Party, m: Sent, drawn: Result<PrivateKey, CryptoError>)
    requires Invariant(w) && Genuine(w, m) && Owner(m.chain) == p.Peer()
    requires NameOf(m.frame.header) in OpenedNames(w) || NameOf(m.frame.header) in w.evicted
    ensures Decrypt(w.Of(p), m.frame, drawn).1.Err? && Decrypt(w.Of(p), m.frame, drawn).0 == w.Of(p)
    ensures m.chain < w.Generation(p)
    ensures Decrypt(w.Of(p), m.frame, drawn).1 == Err(Crypto(Authentication)) <==>
            m.chain == w.Generation(p) - 1 ||
            (PreviousLen(w.sent, m.chain) - Passed(w, p, w.Generation(p) - 1) <= 1000 &&
             (if drawn.Err? then drawn.error == Authentication else m.frame.header.messageNumber <= 1000))
  {
    ExactOutcome(w, p, m, drawn);
    IndexOfKey(w.keys, m.chain);
    if NameOf(m.frame.header) in OpenedNames(w) {
      OpenedWentPast(w, p, NameOf(m.frame.header));
    } else {
      EvictedByReceiver(w, p, NameOf(m.frame.header));
    }
    assert Accounted(w, p, NameOf(m.frame.header));
  }
}

/**
 Two sessions and a hostile network. A conversation is any interleaving of
 sends and deliveries; what is delivered may be lost, late, repeated, sent back
 to its sender, or made up by anyone who does not hold the shared key.
*/
module Conversation {
  import opened Results
  import opened Terms
  import opened Attacker
  import opened Schedule
  import opened SkippedStore
  import opened RatchetSpec

  /** A frame a party sealed, and what it sealed. */
  datatype Sent = Sent(chain: nat, frame: SealedFrame, plaintext: Plaintext)

  /** A frame a session accepted, and what it returned. */
  datatype Accepted = Accepted(receiver: Party, frame: SealedFrame, plaintext: Plaintext)

  /** The two sessions with the history of the conversation: every ratchet key
      in use so far, how many frames each chain carries, every frame sent and
      accepted, and the names of the skipped keys that were evicted. */
  datatype World = World(
    sk: Key,
    alice: State,
    bob: State,
    keys: seq<PrivateKey>,
    sent: seq<U32>,
    log: seq<Sent>,
    accepted: seq<Accepted>,
    evicted: set<FrameName>)
  {
    function Of(p: Party): State {
      if p.Alice? then alice else bob
    }

    function With(p: Party, s: State): World {
      if p.Alice? then this.(alice := s) else this.(bob := s)
    }

    ghost predicate Shape() {
      && 2 <= |keys| == |sent|
      && sent[0] == 0
      && Distinct(keys)
      && forall j :: 0 <= j < |sent| ==> sent[j] <= CHAIN_LIMIT
    }

    /** The latest key a party owns; the other party's is the one before or after. */
    function Generation(p: Party): (g: nat)
      requires 2 <= |keys|
      ensures |keys| - 2 <= g < |keys| && Owner(g) == p
    {
      var last := |keys| - 1;
      assert p.Alice? || p.Bob?;
      if Owner(last) == p then last else last - 1
    }
  }

  datatype Action =
    | Send(from: Party, nonce: Result<Nonce, CryptoError>, plaintext: Plaintext)
    | Deliver(to: Party, frame: SealedFrame, drawn: Result<PrivateKey, CryptoError>)

  /** The sessions started from a shared key: Bob's signed prekey is key 0. */
  function Start(sk: Key, prekey: PrivateKey, first: PrivateKey): (w: World)
    requires prekey != first
    ensures w.Shape()
  {
    World(sk, Initiator(sk, Pub(prekey), first).value, Responder(sk, prekey), [prekey, first], [0, 0], [], [], {})
  }

  /** Whether a frame with this header makes the session take a ratchet step. */
  predicate OpensNewChain(s: State, header: RatchetHeader) {
    FirstMatch(s.skipped, NameOf(header)) == |s.skipped| && s.remoteRatchet != Some(header.ratchet)
  }

  /** The names of the frames left in the receiving chain, up to its announced length. */
  function LeftInPrevious(s: State, previousChainLen: U32): set<FrameName> {
    if s.receiving.None? || s.remoteRatchet.None? then {}
    else set n | s.receiving.value.next <= n < previousChainLen :: (s.remoteRatchet.value, n)
  }

  /** The names of the keys a session passes over to reach a frame. */
  function PassedOver(s: State, header: RatchetHeader): set<FrameName> {
    if FirstMatch(s.skipped, NameOf(header)) < |s.skipped| then {}
    else if s.remoteRatchet == Some(header.ratchet) then
      if s.receiving.None? then {}
      else set n | s.receiving.value.next <= n < header.messageNumber :: (header.ratchet, n)
    else
      LeftInPrevious(s, header.previousChainLen) + (set n | 0 <= n < header.messageNumber :: (header.ratchet, n))
  }

  function Step(w: World, action: Action): World
    requires w.Shape()
  {
    match action
    case Send(from, nonce, plaintext) =>
      var (s, r) := Encrypt(w.Of(from), nonce, plaintext);
      if r.Err? then w
      else
        w.With(from, s).(
        sent := w.sent[w.Generation(from) := s.sending.value.next],
        log := w.log + [Sent(w.Generation(from), r.value, plaintext)])
    case Deliver(to, frame, drawn) =>
      var before := w.Of(to);
      var (s, r) := Decrypt(before, frame, drawn);
      if r.Err? then w
      else
        w.With(to, s).(
        keys := if OpensNewChain(before, frame.header) then w.keys + [s.ownRatchet] else w.keys,
        sent := if OpensNewChain(before, frame.header) then w.sent + [0] else w.sent,
        accepted := w.accepted + [Accepted(to, frame, r.value)],
        evicted := w.evicted
        + (Names(before.skipped) + PassedOver(before, frame.header) - Names(s.skipped) - {NameOf(frame.header)}))
  }

  /** The network can replay the sealed part of any frame under any header and
      nonce, and can seal under any key it can compute. */
  ghost predicate CanDeliver(a: Attacker, w: World, frame: SealedFrame) {
    || frame.body.Noise?
    || Derivable(a, frame.body.key)
    || exists k :: 0 <= k < |w.log| && w.log[k].frame.body == frame.body
  }

  /** Fresh ratchet keys have not been in use before. */
  ghost predicate Enabled(a: Attacker, w: World, action: Action) {
    match action
    case Send(_, _, _) => true
    case Deliver(_, frame, drawn) => CanDeliver(a, w, frame) && (drawn.Ok? ==> drawn.value !in w.keys)
  }

  // ---------- What every reachable conversation satisfies ----------

  /** The length a frame of chain `j` announces for its sender's chain before it. */
  function PreviousLen(sent: seq<U32>, j: nat): U32
    requires j < |sent|
  {
    if j < 2 then 0 else sent[j - 2]
  }

  function FrameAt(w: World, j: nat, number: U32, nonce: Nonce, plaintext: Plaintext): SealedFrame
    requires w.Shape() && 0 < j < |w.keys|
  {
    Seal(KeyAt(w.sk, w.keys, j, number), nonce,
         Header(Pub(w.keys[j]), PreviousLen(w.sent, j), number), plaintext)
  }

  /** The lock-step invariant: a party's session is determined by the key
      schedule, its generation and how far its receiving chain has got. */
  ghost predicate InStep(w: World, p: Party)
    requires w.Shape()
  {
    var s, g := w.Of(p), w.Generation(p);
    && s.rootKey == RootAt(w.sk, w.keys, g)
    && s.ownRatchet == w.keys[g]
    && s.remoteRatchet == (if g == 0 then None else Some(Pub(w.keys[g - 1])))
    && s.sending == (if g == 0 then None
                     else Some(Chain(Advance(ChainAt(w.sk, w.keys, g), w.sent[g]), w.sent[g])))
    && (s.receiving.Some? <==> g >= 2)
    && (g >= 2 ==>
          && s.receiving.value.key == Advance(ChainAt(w.sk, w.keys, g - 1), s.receiving.value.next)
          && s.receiving.value.next <= w.sent[g - 1])
    && s.previousSendingLen == PreviousLen(w.sent, g)
  }

  /** How many frames of the peer's chain `j` a party has gone past. */
  function Passed(w: World, p: Party, j: nat): nat
    requires w.Shape() && j < w.Generation(p)
  {
    if j < w.Generation(p) - 1 then w.sent[j]
    else if w.Of(p).receiving.Some? then w.Of(p).receiving.value.next
    else 0
  }

  /** `name` is a frame of the peer that a party has gone past. */
  ghost predicate WentPast(w: World, p: Party, name: FrameName)
    requires w.Shape()
  {
    var j := IndexOf(w.keys, name.0);
    0 < j < w.Generation(p) && Owner(j) == p.Peer() && name.1 < Passed(w, p, j)
  }

  ghost predicate EntryInStep(w: World, p: Party, e: Skipped)
    requires w.Shape()
  {
    WentPast(w, p, Name(e)) && e.key == KeyAt(w.sk, w.keys, IndexOf(w.keys, e.ratchet), e.number)
  }

  ghost predicate Before(keys: seq<PrivateKey>, a: Skipped, b: Skipped) {
    var i, j := IndexOf(keys, a.ratchet), IndexOf(keys, b.ratchet);
    i < j || (i == j && a.number < b.number)
  }

  ghost predicate Sorted(keys: seq<PrivateKey>, s: seq<Skipped>) {
    forall i, k :: 0 <= i < k < |s| ==> Before(keys, s[i], s[k])
  }

  /** The store is an index: sorted by chain and number, no name twice, and
      under every name the message key of that frame. */
  ghost predicate StoreInStep(w: World, p: Party)
    requires w.Shape()
  {
    && Sorted(w.keys, w.Of(p).skipped)
    && forall i :: 0 <= i < |w.Of(p).skipped| ==> EntryInStep(w, p, w.Of(p).skipped[i])
  }

  ghost predicate Genuine(w: World, m: Sent)
    requires w.Shape()
  {
    && 0 < m.chain < |w.keys|
    && m.frame.header.messageNumber < w.sent[m.chain]
    && m.frame == FrameAt(w, m.chain, m.frame.header.messageNumber, m.frame.nonce, m.plaintext)
  }

  ghost predicate LogInStep(w: World)
    requires w.Shape()
  {
    forall k :: 0 <= k < |w.log| ==> Genuine(w, w.log[k])
  }

  ghost predicate LockStep(w: World) {
    && w.Shape()
    && LogInStep(w)
    && forall p :: InStep(w, p) && StoreInStep(w, p)
  }

  lemma StartsInStep(sk: Key, prekey: PrivateKey, first: PrivateKey)
    requires prekey != first
    ensures LockStep(Start(sk, prekey, first))
  {
    var w := Start(sk, prekey, first);
    assert w.keys[0] == prekey && w.keys[1] == first;
    assert RootAt(sk, w.keys, 0) == sk;
    forall p
      ensures InStep(w, p) && StoreInStep(w, p)
    {
    }
  }

  // ---------- Whatever opens is genuine ----------

  /** A sealed body whose key descends from the shared key was sealed by one of
      the two parties. */
  lemma OnlyThePartiesSeal(a: Attacker, w: World, frame: SealedFrame) returns (k: nat)
    requires LockStep(w) && Outsider(a, w.sk) && CanDeliver(a, w, frame)
    requires frame.body.Box? && RootedIn(w.sk, frame.body.key)
    ensures k < |w.log| && w.log[k].frame.body == frame.body
  {
    OutsidersDeriveNothing(a, w.sk, frame.body.key);
    k :| 0 <= k < |w.log| && w.log[k].frame.body == frame.body;
  }

  /** The key tried for a stored name is that frame's message key. */
  lemma StoredCandidate(w: World, p: Party, header: RatchetHeader, drawn: Result<PrivateKey, CryptoError>)
    returns (j: nat)
    requires LockStep(w)
    requires FirstMatch(w.Of(p).skipped, NameOf(header)) < |w.Of(p).skipped|
    ensures j == IndexOf(w.keys, header.ratchet) && 0 < j < w.Generation(p) && Owner(j) == p.Peer()
    ensures Candidate(w.Of(p), header, drawn).value.key == KeyAt(w.sk, w.keys, j, header.messageNumber)
  {
    var s := w.Of(p).skipped;
    assert StoreInStep(w, p);
    assert EntryInStep(w, p, s[FirstMatch(s, NameOf(header))]);
    j := IndexOf(w.keys, header.ratchet);
  }

  /** The key tried in the current chain is that chain's message key. */
  lemma CurrentCandidate(w: World, p: Party, header: RatchetHeader)
    requires LockStep(w)
    requires w.Of(p).remoteRatchet == Some(header.ratchet) && InReceivingChain(w.Of(p), header).Ok?
    ensures w.Generation(p) >= 2
    ensures InReceivingChain(w.Of(p), header).value.key ==
            KeyAt(w.sk, w.keys, w.Generation(p) - 1, header.messageNumber)
  {
    assert InStep(w, p);
    var chain := w.Of(p).receiving.value;
    AdvanceAdds(ChainAt(w.sk, w.keys, w.Generation(p) - 1), chain.next, header.messageNumber - chain.next);
  }

  /** The key tried after a ratchet step belongs to a chain grown from the
      session's root key. */
  lemma NextCandidate(w: World, p: Party, header: RatchetHeader, drawn: Result<PrivateKey, CryptoError>)
    returns (shared: Shared)
    requires LockStep(w)
    requires AfterRatchetStep(w.Of(p), header, drawn).Ok?
    ensures DiffieHellman(w.Of(p).ownRatchet, header.ratchet) == Ok(shared)
    ensures AfterRatchetStep(w.Of(p), header, drawn).value.key ==
            MessageKey(ChainOf(RootAt(w.sk, w.keys, w.Generation(p)), shared), header.messageNumber)
  {
    assert InStep(w, p);
    shared := DiffieHellman(w.Of(p).ownRatchet, header.ratchet).value;
  }

  /** Every key a session tries descends from the shared key. */
  lemma CandidatesAreRooted(w: World, p: Party, header: RatchetHeader, drawn: Result<PrivateKey, CryptoError>)
    requires LockStep(w)
    requires Candidate(w.Of(p), header, drawn).Ok?
    ensures RootedIn(w.sk, Candidate(w.Of(p), header, drawn).value.key)
  {
    var s, g := w.Of(p), w.Generation(p);
    if FirstMatch(s.skipped, NameOf(header)) < |s.skipped| {
      var j := StoredCandidate(w, p, header, drawn);
      ScheduleIsRooted(w.sk, w.keys, j - 1, Link(w.keys, j), header.messageNumber);
    } else if s.remoteRatchet == Some(header.ratchet) {
      CurrentCandidate(w, p, header);
      ScheduleIsRooted(w.sk, w.keys, g - 2, Link(w.keys, g - 1), header.messageNumber);
    } else {
      var shared := NextCandidate(w, p, header, drawn);
      ScheduleIsRooted(w.sk, w.keys, g, shared, header.messageNumber);
    }
  }

  /** How an accepted frame stands to the session that accepts it. */
  datatype Reading = FromStore(index: nat) | InCurrentChain | InNextChain

  ghost predicate Reads(w: World, p: Party, frame: SealedFrame, chain: nat, reading: Reading)
    requires w.Shape()
  {
    var s, g := w.Of(p), w.Generation(p);
    match reading
    case FromStore(index) =>
      && index < |s.skipped| && Name(s.skipped[index]) == NameOf(frame.header)
      && FirstMatch(s.skipped, NameOf(frame.header)) == index
      && chain == IndexOf(w.keys, frame.header.ratchet) && 0 < chain < g && Owner(chain) == p.Peer()
    case InCurrentChain =>
      && FirstMatch(s.skipped, NameOf(frame.header)) == |s.skipped|
      && g >= 2 && chain == g - 1 && s.remoteRatchet == Some(frame.header.ratchet)
      && s.receiving.Some? && s.receiving.value.next <= frame.header.messageNumber
    case InNextChain =>
      && OpensNewChain(s, frame.header)
      && chain == g + 1 && chain == |w.keys| - 1
  }

  /** Which chain a genuine frame is of, given that it opens under the key a
      session tries for its header. */
  lemma OpenedFrameIsRead(w: World, p: Party, frame: SealedFrame, chain: nat, drawn: Result<PrivateKey, CryptoError>)
    returns (reading: Reading)
    requires LockStep(w) && 0 < chain < |w.keys|
    requires Candidate(w.Of(p), frame.header, drawn).Ok?
    requires Candidate(w.Of(p), frame.header, drawn).value.key == KeyAt(w.sk, w.keys, chain, frame.header.messageNumber)
    ensures Reads(w, p, frame, chain, reading)
    ensures Owner(chain) == p.Peer()
  {
    var s, header := w.Of(p), frame.header;
    var index := FirstMatch(s.skipped, NameOf(header));
    if index < |s.skipped| {
      var j := StoredCandidate(w, p, header, drawn);
      MessageKeysAreDistinct(w.sk, w.keys, chain, header.messageNumber, j, header.messageNumber);
      reading := FromStore(index);
    } else if s.remoteRatchet == Some(header.ratchet) {
      CurrentFrameIsRead(w, p, frame, chain);
      reading := InCurrentChain;
    } else {
      var shared := NextCandidate(w, p, header, drawn);
      NextChainOnly(w.sk, w.keys, w.Generation(p), shared, header.messageNumber, chain, header.messageNumber);
      assert Owner(chain) == p.Peer();
      reading := InNextChain;
    }
  }

  lemma CurrentFrameIsRead(w: World, p: Party, frame: SealedFrame, chain: nat)
    requires LockStep(w) && 0 < chain < |w.keys|
    requires FirstMatch(w.Of(p).skipped, NameOf(frame.header)) == |w.Of(p).skipped|
    requires w.Of(p).remoteRatchet == Some(frame.header.ratchet) && InReceivingChain(w.Of(p), frame.header).Ok?
    requires InReceivingChain(w.Of(p), frame.header).value.key == KeyAt(w.sk, w.keys, chain, frame.header.messageNumber)
    ensures Reads(w, p, frame, chain, InCurrentChain) && Owner(chain) == p.Peer()
  {
    CurrentCandidate(w, p, frame.header);
    MessageKeysAreDistinct(w.sk, w.keys, chain, frame.header.messageNumber,
                           w.Generation(p) - 1, frame.header.messageNumber);
    assert Owner(w.Generation(p) - 1) == p.Peer();
  }

  /** Safety of one delivery: whatever a session accepts is a frame its peer
      sealed, unchanged in header, nonce and body, and it returns what the peer
      sealed in it. */
  lemma AcceptedIsGenuine(a: Attacker, w: World, p: Party, frame: SealedFrame, drawn: Result<PrivateKey, CryptoError>)
    returns (k: nat, reading: Reading)
    requires LockStep(w) && Outsider(a, w.sk) && CanDeliver(a, w, frame)
    requires Decrypt(w.Of(p), frame, drawn).1.Ok?
    ensures k < |w.log| && w.log[k].frame == frame
    ensures Decrypt(w.Of(p), frame, drawn).1 == Ok(w.log[k].plaintext)
    ensures 0 < w.log[k].chain && Owner(w.log[k].chain) == p.Peer()
    ensures Reads(w, p, frame, w.log[k].chain, reading)
  {
    CandidatesAreRooted(w, p, frame.header, drawn);
    k := OnlyThePartiesSeal(a, w, frame);
    assert Genuine(w, w.log[k]);
    assert w.log[k].frame == frame;
    reading := OpenedFrameIsRead(w, p, frame, w.log[k].chain, drawn);
  }
}

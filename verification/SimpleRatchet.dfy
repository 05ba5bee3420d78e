/**
 The reference ratchet behind the crate's test vectors. It remembers every message
 key of every chain it has read, and which of them it has used; there is no store
 of skipped keys, no eviction and no limit.
*/
module SimpleRatchet {
  import opened Results
  import opened Terms
  import opened SkippedStore
  import opened RatchetSpec

  /** The Python exceptions an operation can end in. */
  datatype Failure =
    | NoSendingChain
    | CounterOverflow
    | LowOrderKey
    | NoLabelLeft
    | AlreadyUsed
    | NotAuthentic

  /** A party: `labels` are the ratchet keys it will use next, and `receiving`
      holds, for every ratchet key read, the chain's message keys so far followed
      by its current chain key. */
  datatype Simple = Simple(
    rootKey: Key,
    ownRatchet: PrivateKey,
    labels: seq<PrivateKey>,
    remoteRatchet: Option<PublicKey>,
    sending: Option<(Key, nat)>,
    previousSendingLen: nat,
    receiving: map<PublicKey, seq<Key>>,
    used: set<FrameName>)

  function Create(rootKey: Key, own: PrivateKey, labels: seq<PrivateKey>): Simple {
    Simple(rootKey, own, labels, None, None, 0, map[], {})
  }

  ghost predicate NoChainEmpty(receiving: map<PublicKey, seq<Key>>) {
    forall r :: r in receiving ==> receiving[r] != []
  }

  function BeginSending(s: Simple, remote: PublicKey): (Simple, Result<(), Failure>) {
    match KdfRoot(s.rootKey, s.ownRatchet, remote)
    case Err(_) => (s, Err(LowOrderKey))
    case Ok((rootKey, chainKey)) =>
      (s.(rootKey := rootKey, sending := Some((chainKey, 0)), remoteRatchet := Some(remote)), Ok(()))
  }

  function SimpleEncrypt(s: Simple, nonce: Nonce, plaintext: Plaintext): (Simple, Result<SealedFrame, Failure>) {
    if s.sending.None? then (s, Err(NoSendingChain))
    else
      var (chainKey, number) := s.sending.value;
      var next := s.(sending := Some((NextOf(chainKey), number + 1)));
      if s.previousSendingLen >= 0x1_0000_0000 || number >= 0x1_0000_0000 then (next, Err(CounterOverflow))
      else
        (next, Ok(Seal(MessageOf(chainKey), nonce, Header(Pub(s.ownRatchet), s.previousSendingLen, number), plaintext)))
  }

  function RatchetStep(s: Simple, remote: PublicKey): (Simple, Result<(), Failure>) {
    match KdfRoot(s.rootKey, s.ownRatchet, remote)
    case Err(_) => (s, Err(LowOrderKey))
    case Ok((rootKey, chainKey)) =>
      var read := s.(rootKey := rootKey,
      receiving := s.receiving[remote := [chainKey]],
      previousSendingLen := if s.sending.Some? then s.sending.value.1 else 0);
      if s.labels == [] then (read, Err(NoLabelLeft))
      else BeginSending(read.(ownRatchet := s.labels[0], labels := s.labels[1..]), remote)
  }

  /** `n` message keys of the chain from `start` on, then the chain key after them. */
  function Line(start: Key, n: nat): (keys: seq<Key>)
    ensures |keys| == n + 1 && keys[n] == Advance(start, n)
    ensures forall i :: 0 <= i < n ==> keys[i] == MessageKey(start, i)
  {
    seq(n, i requires 0 <= i < n => MessageKey(start, i)) + [Advance(start, n)]
  }

  lemma LineGrows(start: Key, n: nat)
    ensures Line(start, n)[..n] + [MessageKey(start, n), Advance(start, n + 1)] == Line(start, n + 1)
  {
    var grown, line := Line(start, n)[..n] + [MessageKey(start, n), Advance(start, n + 1)], Line(start, n + 1);
    forall i | 0 <= i < |line|
      ensures grown[i] == line[i]
    {
    }
  }

  /** One more key at the end of a list. */
  lemma OneMoreKey(front: seq<Key>, start: Key, n: nat)
    ensures var list := front + Line(start, n);
            && list[|list| - 1] == Advance(start, n)
            && list[..|list| - 1] + [MessageKey(start, n), Advance(start, n + 1)] == front + Line(start, n + 1)
  {
    var list := front + Line(start, n);
    LineGrows(start, n);
    assert list[..|list| - 1] == front + Line(start, n)[..n];
    assert front + Line(start, n)[..n] + [MessageKey(start, n), Advance(start, n + 1)]
        == front + (Line(start, n)[..n] + [MessageKey(start, n), Advance(start, n + 1)]);
  }

  lemma NoMoreKeys(list: seq<Key>)
    requires list != []
    ensures list[..|list| - 1] + Line(list[|list| - 1], 0) == list
  {
  }

  /** A chain list grown until it holds the key of frame `number`. */
  function Grown(chain: seq<Key>, number: nat): (grown: seq<Key>)
    requires chain != []
    ensures number < |grown| - 1
  {
    var last := |chain| - 1;
    if last > number then chain else chain[..last] + Line(chain[last], number + 1 - last)
  }

  /** Opening a frame of a chain the party already reads. */
  function ReadChain(s: Simple, sealed: SealedFrame): (Simple, Result<Plaintext, Failure>)
    requires sealed.header.ratchet in s.receiving && s.receiving[sealed.header.ratchet] != []
  {
    var ratchet, number := sealed.header.ratchet, sealed.header.messageNumber;
    var chain := Grown(s.receiving[ratchet], number);
    var grown := s.(receiving := s.receiving[ratchet := chain]);
    if (ratchet, number) in s.used then (grown, Err(AlreadyUsed))
    else
      var marked := grown.(used := s.used + {(ratchet, number)});
      match Open(chain[number], sealed)
      case Ok(p) => (marked, Ok(p))
      case Err(_) => (marked, Err(NotAuthentic))
  }

  function SimpleDecrypt(s: Simple, sealed: SealedFrame): (Simple, Result<Plaintext, Failure>)
    requires NoChainEmpty(s.receiving)
  {
    var ratchet := sealed.header.ratchet;
    if ratchet in s.receiving then ReadChain(s, sealed)
    else
      var (stepped, r) := RatchetStep(s, ratchet);
      match r
      case Err(f) => (stepped, Err(f))
      case Ok(_) => ReadChain(stepped, sealed)
  }

  /** The party as the script writes it. */
  class RatchetParty {
    var rootKey: Key
    var ownRatchet: PrivateKey
    var labels: seq<PrivateKey>
    var remoteRatchet: Option<PublicKey>
    var sending: Option<(Key, nat)>
    var previousSendingLen: nat
    var receiving: map<PublicKey, seq<Key>>
    var used: set<FrameName>

    ghost function Model(): Simple
      reads this
    {
      Simple(rootKey, ownRatchet, labels, remoteRatchet, sending, previousSendingLen, receiving, used)
    }

    ghost predicate Valid()
      reads this
    {
      NoChainEmpty(receiving)
    }

    constructor (rootKey: Key, ownRatchet: PrivateKey, labels: seq<PrivateKey>)
      ensures Valid() && Model() == Create(rootKey, ownRatchet, labels)
    {
      this.rootKey := rootKey;
      this.ownRatchet := ownRatchet;
      this.labels := labels;
      remoteRatchet := None;
      sending := None;
      previousSendingLen := 0;
      receiving := map[];
      used := {};
    }

    method StartSending(remote: PublicKey) returns (r: Result<(), Failure>)
      requires Valid()
      modifies this
      ensures Valid()
      ensures (Model(), r) == BeginSending(old(Model()), remote)
    {
      var derived := KdfRoot(rootKey, ownRatchet, remote);
      if derived.Err? {
        return Err(LowOrderKey);
      }
      rootKey := derived.value.0;
      sending := Some((derived.value.1, 0));
      remoteRatchet := Some(remote);
      return Ok(());
    }

    method Encrypt(nonce: Nonce, plaintext: Plaintext) returns (r: Result<SealedFrame, Failure>)
      requires Valid()
      modifies this
      ensures Valid()
      ensures (Model(), r) == SimpleEncrypt(old(Model()), nonce, plaintext)
    {
      if sending.None? {
        return Err(NoSendingChain);
      }
      var (chainKey, number) := sending.value;
      sending := Some((NextOf(chainKey), number + 1));
      if previousSendingLen >= 0x1_0000_0000 || number >= 0x1_0000_0000 {
        return Err(CounterOverflow);
      }
      var header := Header(Pub(ownRatchet), previousSendingLen, number);
      return Ok(Seal(MessageOf(chainKey), nonce, header, plaintext));
    }

    method Decrypt(sealed: SealedFrame) returns (r: Result<Plaintext, Failure>)
      requires Valid()
      modifies this
      ensures Valid()
      ensures (Model(), r) == SimpleDecrypt(old(Model()), sealed)
    {
      var ratchet, number := sealed.header.ratchet, sealed.header.messageNumber;
      if ratchet !in receiving {
        var step := TakeRatchetStep(ratchet);
        if step.Err? {
          return Err(step.error);
        }
      }
      var messageKey := DeriveMessageKey(ratchet, number);
      if (ratchet, number) in used {
        return Err(AlreadyUsed);
      }
      used := used + {(ratchet, number)};
      var plaintext := Open(messageKey, sealed);
      if plaintext.Err? {
        return Err(NotAuthentic);
      }
      return Ok(plaintext.value);
    }

    method TakeRatchetStep(remote: PublicKey) returns (r: Result<(), Failure>)
      requires Valid()
      modifies this
      ensures Valid() && used == old(used)
      ensures r.Ok? ==> remote in receiving
      ensures (Model(), r) == RatchetStep(old(Model()), remote)
    {
      var derived := KdfRoot(rootKey, ownRatchet, remote);
      if derived.Err? {
        return Err(LowOrderKey);
      }
      rootKey := derived.value.0;
      receiving := receiving[remote := [derived.value.1]];
      previousSendingLen := if sending.Some? then sending.value.1 else 0;
      if labels == [] {
        return Err(NoLabelLeft);
      }
      ownRatchet := labels[0];
      labels := labels[1..];
      r := StartSending(remote);
    }

    method DeriveMessageKey(ratchet: PublicKey, number: nat) returns (messageKey: Key)
      requires Valid() && ratchet in receiving
      modifies this`receiving
      ensures Valid()
      ensures receiving == old(receiving)[ratchet := Grown(old(receiving)[ratchet], number)]
      ensures messageKey == receiving[ratchet][number]
    {
      ghost var start := receiving[ratchet];
      ghost var last := |start| - 1;
      var chain := receiving[ratchet];
      while |chain| <= number + 1
        invariant receiving == old(receiving)
        invariant |start| <= |chain|
        invariant |chain| <= if |start| <= number + 1 then number + 2 else |start|
        invariant chain == start[..last] + Line(start[last], |chain| - |start|)
        decreases number + 2 - |chain|
      {
        OneMoreKey(start[..last], start[last], |chain| - |start|);
        var chainKey := chain[|chain| - 1];
        chain := chain[..|chain| - 1] + [MessageOf(chainKey), NextOf(chainKey)];
      }
      NoMoreKeys(start);
      messageKey := chain[number];
      receiving := receiving[ratchet := chain];
    }
  }
}

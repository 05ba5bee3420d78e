/**
 What the reference ratchet does on its own, with any peer: every way its operations
 can end and what each leaves changed, and that it never reads a frame twice.
*/
module ReferenceLaws {
  import opened Results
  import opened Terms
  import opened Attacker
  import opened Schedule
  import opened SkippedStore
  import opened SimpleRatchet
  import opened Conversation
  import opened LockStepProof
  import opened History
  import opened Runs
  import opened Refinement

  // ---------- Sending ----------

  /** Sealing uses up the next message key, whether or not the counters fit. */
  lemma SealsExactly(p: Simple, nonce: Nonce, plaintext: Plaintext)
    ensures var (q, r) := SimpleEncrypt(p, nonce, plaintext);
            if p.sending.None? then q == p && r == Err(NoSendingChain)
            else
              var (key, n) := p.sending.value;
              && q == p.(sending := Some((NextOf(key), n + 1)))
              && (r.Err? ==> r == Err(CounterOverflow))
              && (r.Err? <==> n > 0xFFFF_FFFF || p.previousSendingLen > 0xFFFF_FFFF)
              && (r.Ok? ==>
                    && r.value.header.ratchet == Pub(p.ownRatchet) && r.value.header.messageNumber == n
                    && r.value.header.previousChainLen == p.previousSendingLen
                    && r.value.nonce == nonce && Open(MessageOf(key), r.value) == Ok(plaintext))
  {
  }

  /** A low-order key ends the start of a sending chain and changes nothing. */
  lemma StartsExactly(p: Simple, remote: PublicKey)
    ensures var (q, r) := BeginSending(p, remote);
            match remote
            case LowOrder(_) => q == p && r == Err(LowOrderKey)
            case Encoding(point, _) =>
              var shared := SharedBetween(p.ownRatchet.point, point);
              && r == Ok(())
              && q == p.(rootKey := RootOf(p.rootKey, shared), sending := Some((ChainOf(p.rootKey, shared), 0)),
                         remoteRatchet := Some(remote))
  {
  }

  // ---------- Receiving ----------

  /** A ratchet step ends early on a low-order key, with nothing changed, or without a
      label left, with the receiving list opened and the old sending chain counted. */
  lemma StepsExactly(p: Simple, remote: PublicKey)
    ensures var (q, r) := RatchetStep(p, remote);
            match remote
            case LowOrder(_) => q == p && r == Err(LowOrderKey)
            case Encoding(point, _) =>
              var shared := SharedBetween(p.ownRatchet.point, point);
              var read := p.(rootKey := RootOf(p.rootKey, shared),
              receiving := p.receiving[remote := [ChainOf(p.rootKey, shared)]],
              previousSendingLen := if p.sending.Some? then p.sending.value.1 else 0);
              if |p.labels| == 0 then q == read && r == Err(NoLabelLeft)
              else
                var own := p.labels[0];
                var next := SharedBetween(own.point, point);
                && r == Ok(())
                && q == read.(rootKey := RootOf(read.rootKey, next), ownRatchet := own, labels := p.labels[1..],
                              sending := Some((ChainOf(read.rootKey, next), 0)), remoteRatchet := Some(remote))
  {
  }

  /** A list that already holds the key of frame `number` stays; a shorter one gains
      the message keys up to it and ends in the chain key after them. */
  ghost predicate GrownTo(list: seq<Key>, number: nat, grown: seq<Key>)
    requires list != []
  {
    var last := |list| - 1;
    if number < last then grown == list
    else
      && |grown| == number + 2 && grown[..last] == list[..last]
      && (forall i :: last <= i <= number ==> grown[i] == MessageKey(list[last], i - last))
      && grown[number + 1] == Advance(list[last], number + 1 - last)
  }

  lemma ListsGrow(list: seq<Key>, number: nat)
    requires list != []
    ensures GrownTo(list, number, Grown(list, number))
  {
  }

  /** A frame under a ratchet key already read: a used name is refused, and any other
      is used up whether or not the frame is authentic. Only the list and the names
      change. */
  lemma ReadsExactly(p: Simple, sealed: SealedFrame)
    requires NoChainEmpty(p.receiving) && sealed.header.ratchet in p.receiving
    ensures var (q, r) := SimpleDecrypt(p, sealed);
            var ratchet, name := sealed.header.ratchet, NameOf(sealed.header);
            && ratchet in q.receiving && sealed.header.messageNumber < |q.receiving[ratchet]|
            && GrownTo(p.receiving[ratchet], sealed.header.messageNumber, q.receiving[ratchet])
            && q == p.(receiving := p.receiving[ratchet := q.receiving[ratchet]], used := p.used + {name})
            && (name in p.used ==> r == Err(AlreadyUsed))
            && (name !in p.used ==>
                  match Open(q.receiving[ratchet][sealed.header.messageNumber], sealed)
                  case Ok(plaintext) => r == Ok(plaintext)
                  case Err(_) => r == Err(NotAuthentic))
  {
    assert sealed.header.ratchet in p.receiving && p.receiving[sealed.header.ratchet] != [];
    ListsGrow(p.receiving[sealed.header.ratchet], sealed.header.messageNumber);
    assert NameOf(sealed.header) in p.used ==> p.used + {NameOf(sealed.header)} == p.used;
  }

  /** A frame under a new ratchet key is refused as the ratchet step is, or read on the
      list the step opened. */
  lemma ReadsNewKeysExactly(p: Simple, sealed: SealedFrame)
    requires NoChainEmpty(p.receiving) && sealed.header.ratchet !in p.receiving
    ensures var (q, r) := SimpleDecrypt(p, sealed);
            && (sealed.header.ratchet.LowOrder? ==> q == p && r == Err(LowOrderKey))
            && (sealed.header.ratchet.Encoding? && p.labels == [] ==> r == Err(NoLabelLeft) && q == RatchetStep(p, sealed.header.ratchet).0)
            && (sealed.header.ratchet.Encoding? && p.labels != [] ==>
                  NoChainEmpty(RatchetStep(p, sealed.header.ratchet).0.receiving) &&
                  (q, r) == SimpleDecrypt(RatchetStep(p, sealed.header.ratchet).0, sealed))
  {
  }

  /** Opening a frame uses its name, a used name never opens, and names stay used. */
  lemma NamesOpenOnce(p: Simple, sealed: SealedFrame)
    requires NoChainEmpty(p.receiving)
    ensures var (q, r) := SimpleDecrypt(p, sealed);
            && NoChainEmpty(q.receiving) && p.used <= q.used
            && (r.Ok? ==> NameOf(sealed.header) !in p.used && NameOf(sealed.header) in q.used)
  {
  }

  /** Reading frames one after the other, with their results. */
  function ReadAll(p: Simple, frames: seq<SealedFrame>): (r: (Simple, seq<Result<Plaintext, Failure>>))
    requires NoChainEmpty(p.receiving)
    ensures NoChainEmpty(r.0.receiving) && |r.1| == |frames|
  {
    if frames == [] then (p, [])
    else
      var n := |frames| - 1;
      var (before, results) := ReadAll(p, frames[..n]);
      NamesOpenOnce(before, frames[n]);
      var (after, result) := SimpleDecrypt(before, frames[n]);
      (after, results + [result])
  }

  /** Whatever arrives, in whatever order, from any peer: no name opens twice. */
  lemma {:induction false} NoNameOpensTwice(p: Simple, frames: seq<SealedFrame>)
    requires NoChainEmpty(p.receiving)
    ensures var (q, results) := ReadAll(p, frames);
            && (forall i :: 0 <= i < |frames| && results[i].Ok? ==> NameOf(frames[i].header) in q.used)
            && (forall i, j :: 0 <= i < j < |frames| && results[i].Ok? && results[j].Ok? ==>
                  NameOf(frames[i].header) != NameOf(frames[j].header))
  {
    if frames != [] {
      var n := |frames| - 1;
      var front := frames[..n];
      NoNameOpensTwice(p, front);
      var (before, results) := ReadAll(p, front);
      NamesOpenOnce(before, frames[n]);
      assert forall i :: 0 <= i < n ==> front[i] == frames[i];
    }
  }

  // ---------- Replays ----------

  /** The reference parties have used the name of every frame accepted. */
  ghost predicate Remembers(w: World, shadow: Shadow) {
    forall k :: 0 <= k < |w.accepted| ==>
      NameOf(w.accepted[k].frame.header) in shadow.Of(w.accepted[k].receiver).used
  }

  lemma StepRemembers(w: World, shadow: Shadow, action: Action)
    requires w.Shape() && shadow.Usable() && Remembers(w, shadow)
    requires Step(w, action).accepted != w.accepted ==>
               var read := ShadowStep(w, shadow, action).read;
               |read| == |shadow.read| + 1 && read[|shadow.read|].Ok?
    ensures Remembers(Step(w, action), ShadowStep(w, shadow, action))
  {
    var w', shadow' := Step(w, action), ShadowStep(w, shadow, action);
    match action
    case Send(from, nonce, plaintext) =>
      assert forall p :: shadow'.Of(p).used == shadow.Of(p).used;
    case Deliver(to, frame, drawn) =>
      if RatchetSpec.Decrypt(w.Of(to), frame, drawn).1.Ok? {
        var fed := shadow.Of(to).(labels := LabelsFor(w.Of(to), frame, drawn));
        NamesOpenOnce(fed, frame);
        forall k | 0 <= k < |w'.accepted|
          ensures NameOf(w'.accepted[k].frame.header) in shadow'.Of(w'.accepted[k].receiver).used
        {
          assert k < |w.accepted| ==> w'.accepted[k] == w.accepted[k];
        }
      }
  }

  lemma {:induction false} RunsRemember(a: Attacker, w: World, shadow: Shadow, actions: seq<Action>)
    requires LockStep(w) && SameConversation(w, shadow) && Outsider(a, w.sk) && Admissible(a, w, actions)
    requires Remembers(w, shadow)
    ensures Remembers(Run(a, w, actions), ShadowRun(a, w, shadow, actions))
    decreases |actions|
  {
    if actions != [] {
      StepKeepsLockStep(a, w, actions[0]);
      match actions[0] {
        case Send(from, nonce, plaintext) => SendStaysTheSame(w, shadow, from, nonce, plaintext);
        case Deliver(to, frame, drawn) => DeliverStaysTheSame(a, w, shadow, to, frame, drawn);
      }
      StepRemembers(w, shadow, actions[0]);
      RunsRemember(a, Step(w, actions[0]), ShadowStep(w, shadow, actions[0]), actions[1..]);
    }
  }

  /** In every run, a frame that was accepted is refused when it is delivered again,
      by the session and by the reference alike. */
  lemma ReplaysAreRefusedAlike(a: Attacker, sk: Key, prekey: PrivateKey, first: PrivateKey, actions: seq<Action>, i: nat,
                               drawn: Result<PrivateKey, CryptoError>)
    requires prekey != first && Outsider(a, sk) && Admissible(a, Start(sk, prekey, first), actions)
    requires i < |Run(a, Start(sk, prekey, first), actions).accepted|
    ensures var w := Run(a, Start(sk, prekey, first), actions);
            var shadow := ShadowRun(a, Start(sk, prekey, first), StartShadow(sk, prekey, first), actions);
            var (p, frame) := (w.accepted[i].receiver, w.accepted[i].frame);
            && RatchetSpec.Decrypt(w.Of(p), frame, drawn).1.Err?
            && RatchetSpec.Decrypt(w.Of(p), frame, drawn).0 == w.Of(p)
            && NoChainEmpty(shadow.Of(p).receiving)
            && SimpleDecrypt(shadow.Of(p), frame).1 == Err(AlreadyUsed)
  {
    var start, shadow := Start(sk, prekey, first), StartShadow(sk, prekey, first);
    StartsInvariant(sk, prekey, first);
    StartsTheSame(sk, prekey, first);
    RunKeepsInvariant(a, start, actions);
    RunsStayTheSame(a, start, shadow, actions);
    RunsRemember(a, start, shadow, actions);
    ReplayIsRefusedAlike(Run(a, start, actions), ShadowRun(a, start, shadow, actions), i, drawn);
  }

  lemma ReplayIsRefusedAlike(w: World, shadow: Shadow, i: nat, drawn: Result<PrivateKey, CryptoError>)
    requires Invariant(w) && SameConversation(w, shadow) && Remembers(w, shadow) && i < |w.accepted|
    ensures var (p, frame) := (w.accepted[i].receiver, w.accepted[i].frame);
            && RatchetSpec.Decrypt(w.Of(p), frame, drawn).1.Err?
            && RatchetSpec.Decrypt(w.Of(p), frame, drawn).0 == w.Of(p)
            && NoChainEmpty(shadow.Of(p).receiving)
            && SimpleDecrypt(shadow.Of(p), frame).1 == Err(AlreadyUsed)
  {
    var m := w.accepted[i];
    assert SealedByPeer(w, m);
    var k :| 0 <= k < |w.log| && w.log[k].frame == m.frame && Owner(w.log[k].chain) == m.receiver.Peer();
    assert Genuine(w, w.log[k]) && NameOf(m.frame.header) in OpenedNames(w);
    GoneKeysAreRefused(w, m.receiver, w.log[k], drawn);
    assert Simulates(w.Of(m.receiver), shadow.Of(m.receiver));
    UsedNameIsRefused(w.Of(m.receiver), shadow.Of(m.receiver), m.frame);
  }

  lemma UsedNameIsRefused(s: RatchetSpec.State, p: Simple, frame: SealedFrame)
    requires LinesInStep(s, p) && NameOf(frame.header) in p.used
    ensures NoChainEmpty(p.receiving) && SimpleDecrypt(p, frame).1 == Err(AlreadyUsed)
  {
    ReadsExactly(p, frame);
  }
}

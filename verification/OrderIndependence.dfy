/**
 The order of arrival does not matter: frames of the chains read so far and of one
 new chain leave the session in a state their set determines, as long as all are
 accepted and no key is evicted on the way.
*/
module OrderIndependence {
  import opened Results
  import opened Terms
  import opened SkippedStore
  import opened RatchetSpec
  import opened Schedule
  import opened Conversation
  import LockStepProof
  import History

  /** A session reading the chain of `r`: the stored keys have distinct names, and
      those of that chain lie below its counter. */
  ghost predicate ReadsChain(s: State, r: PublicKey) {
    && s.remoteRatchet == Some(r) && s.receiving.Some? && s.receiving.value.next <= CHAIN_LIMIT
    && (forall i :: 0 <= i < |s.skipped| && s.skipped[i].ratchet == r ==> s.skipped[i].number < s.receiving.value.next)
    && NamedOnce(s.skipped)
  }

  ghost predicate NamedOnce(s: seq<Skipped>) {
    forall i, k :: 0 <= i < k < |s| ==> Name(s[i]) != Name(s[k])
  }

  /** The new chain its frames may open: its ratchet key, and the length they
      announce for the chain before it. */
  datatype NewChain = NewChain(ratchet: PublicKey, previousLen: U32)

  function Receive(s: State, frame: SealedFrame, drawn: Result<PrivateKey, CryptoError>): State {
    Decrypt(s, frame, drawn).0
  }

  function ReceiveAll(s: State, frames: seq<SealedFrame>, drawn: Result<PrivateKey, CryptoError>): State {
    if frames == [] then s
    else Receive(ReceiveAll(s, frames[..|frames| - 1], drawn), frames[|frames| - 1], drawn)
  }

  /** The store with the keys left in the receiving chain, before eviction. */
  function WithPrevious(s: State, previousLen: U32): seq<Skipped> {
    if s.receiving.Some? && s.remoteRatchet.Some? then
      s.skipped + Labelled(s.remoteRatchet.value, SkippedBetween(s.receiving.value, previousLen))
    else s.skipped
  }

  /** The store after a frame, before eviction. */
  function Unevicted(s: State, frame: SealedFrame): seq<Skipped> {
    var header := frame.header;
    var index := FirstMatch(s.skipped, NameOf(header));
    if index < |s.skipped| then Without(s.skipped, index)
    else if s.remoteRatchet == Some(header.ratchet) then WithPrevious(s, header.messageNumber)
    else
      match KdfRoot(s.rootKey, s.ownRatchet, header.ratchet)
      case Err(_) => s.skipped
      case Ok((_, chainKey)) =>
        WithPrevious(s, header.previousChainLen)
        + Labelled(header.ratchet, SkippedBetween(Chain(chainKey, 0), header.messageNumber))
  }

  /** All frames are accepted, nothing is evicted, and no chain is opened but the
      given one. */
  ghost predicate AllOpen(s: State, frames: seq<SealedFrame>, drawn: Result<PrivateKey, CryptoError>, next: Option<NewChain>) {
    frames == [] ||
    var before, last := ReceiveAll(s, frames[..|frames| - 1], drawn), frames[|frames| - 1];
    && AllOpen(s, frames[..|frames| - 1], drawn, next)
    && (OpensNewChain(before, last.header) ==>
          next == Some(NewChain(last.header.ratchet, last.header.previousChainLen)))
    && Decrypt(before, last, drawn).1.Ok?
    && Receive(before, last, drawn).skipped == Unevicted(before, last)
  }

  function FrameNames(frames: seq<SealedFrame>): set<FrameName> {
    set i | 0 <= i < |frames| :: NameOf(frames[i].header)
  }

  /** One past the highest number received of the chain of `r`. */
  function Furthest(next: nat, r: PublicKey, frames: seq<SealedFrame>): (f: nat)
    ensures f >= next
    ensures forall n :: (r, n) in FrameNames(frames) ==> n < f
    ensures f == next || (r, f - 1) in FrameNames(frames)
  {
    if frames == [] then next
    else
      var last := |frames| - 1;
      var f := Furthest(next, r, frames[..last]);
      assert FrameNames(frames) == FrameNames(frames[..last]) + {NameOf(frames[last].header)} by {
        NamesOfLast(frames);
      }
      if frames[last].header.ratchet == r && frames[last].header.messageNumber >= f
      then frames[last].header.messageNumber + 1
      else f
  }

  lemma NamesOfLast(frames: seq<SealedFrame>)
    requires frames != []
    ensures FrameNames(frames) == FrameNames(frames[..|frames| - 1]) + {NameOf(frames[|frames| - 1].header)}
  {
  }

  lemma FurthestDependsOnTheSet(next: nat, r: PublicKey, one: seq<SealedFrame>, other: seq<SealedFrame>)
    requires FrameNames(one) == FrameNames(other)
    ensures Furthest(next, r, one) == Furthest(next, r, other)
  {
  }

  /** `s` without the keys of the named frames. */
  function Leaving(s: seq<Skipped>, received: set<FrameName>): seq<Skipped> {
    if s == [] then []
    else if Name(s[0]) in received then Leaving(s[1..], received)
    else [s[0]] + Leaving(s[1..], received)
  }

  lemma {:induction false} LeavingConcat(s: seq<Skipped>, t: seq<Skipped>, received: set<FrameName>)
    ensures Leaving(s + t, received) == Leaving(s, received) + Leaving(t, received)
  {
    if s == [] {
      assert s + t == t;
    } else {
      assert (s + t)[1..] == s[1..] + t;
      LeavingConcat(s[1..], t, received);
    }
  }

  lemma {:induction false} LeavingSame(s: seq<Skipped>, received: set<FrameName>, name: FrameName)
    requires forall i :: 0 <= i < |s| ==> Name(s[i]) != name
    ensures Leaving(s, received + {name}) == Leaving(s, received)
  {
    if s != [] {
      LeavingSame(s[1..], received, name);
    }
  }

  lemma {:induction false} LeavingAll(s: seq<Skipped>, received: set<FrameName>)
    requires forall i :: 0 <= i < |s| ==> Name(s[i]) !in received
    ensures Leaving(s, received) == s
  {
    if s != [] {
      LeavingAll(s[1..], received);
    }
  }

  /** `t` without the oldest entry of the named frame. */
  function Removed(t: seq<Skipped>, name: FrameName): seq<Skipped> {
    if t == [] then []
    else if Name(t[0]) == name then t[1..]
    else [t[0]] + Removed(t[1..], name)
  }

  lemma WithoutLater(t: seq<Skipped>, index: nat)
    requires index + 1 < |t|
    ensures Without(t, index + 1) == [t[0]] + Without(t[1..], index)
  {
    assert t[..index + 1] == [t[0]] + t[1..][..index];
    assert t[index + 2..] == t[1..][index + 1..];
  }

  lemma {:induction false} RemovedIsWithout(t: seq<Skipped>, name: FrameName)
    ensures Removed(t, name) == if FirstMatch(t, name) < |t| then Without(t, FirstMatch(t, name)) else t
  {
    if t != [] && Name(t[0]) != name {
      RemovedIsWithout(t[1..], name);
      var index := FirstMatch(t[1..], name);
      if index < |t| - 1 {
        WithoutLater(t, index);
      }
    }
  }

  /** Taking one more frame out of a store that holds it once. */
  lemma {:induction false} LeavingOneMore(s: seq<Skipped>, received: set<FrameName>, name: FrameName)
    requires NamedOnce(s)
    ensures Leaving(s, received + {name}) == Removed(Leaving(s, received), name)
  {
    if s != [] {
      var rest := s[1..];
      assert forall i :: 0 <= i < |rest| ==> rest[i] == s[i + 1];
      LeavingOneMore(rest, received, name);
      var t := Leaving(rest, received);
      if Name(s[0]) !in received {
        assert ([s[0]] + t)[1..] == t;
        if Name(s[0]) == name {
          LeavingSame(rest, received, name);
        }
      }
    }
  }

  /** The state after a set of frames: the chain has moved past the furthest of
      them, and every other key passed over is in the store, in order. */
  ghost function After(s: State, r: PublicKey, furthest: U32, received: set<FrameName>): State
    requires ReadsChain(s, r) && furthest >= s.receiving.value.next
  {
    var chain := s.receiving.value;
    s.(receiving := Some(MovedTo(chain, furthest)),
       skipped := Leaving(s.skipped + Labelled(r, SkippedBetween(chain, furthest)), received))
  }

  lemma MovesCompose(chain: Chain, m: U32, n: U32)
    requires chain.next <= m <= n
    ensures MovedTo(MovedTo(chain, m), n) == MovedTo(chain, n)
    ensures SkippedBetween(chain, n) == SkippedBetween(chain, m) + SkippedBetween(MovedTo(chain, m), n)
  {
    AdvanceAdds(chain.key, m - chain.next, n - m);
    forall i | 0 <= i < n - m
      ensures MessageKey(chain.key, m - chain.next + i) == MessageKey(MovedTo(chain, m).key, i)
    {
      AdvanceAdds(chain.key, m - chain.next, i);
    }
  }

  lemma LabelledConcat(r: PublicKey, a: seq<(U32, Key)>, b: seq<(U32, Key)>)
    ensures Labelled(r, a + b) == Labelled(r, a) + Labelled(r, b)
  {
  }

  /** The keys up to and with frame `n`, split at `m` and at `n`. */
  lemma PassingOverSplits(r: PublicKey, chain: Chain, m: U32, n: U32) returns (own: Skipped)
    requires chain.next <= m <= n < 0xFFFF_FFFF
    ensures own.number == n && own.ratchet == r
    ensures Labelled(r, SkippedBetween(chain, n + 1)) ==
            Labelled(r, SkippedBetween(chain, m)) + Labelled(r, SkippedBetween(MovedTo(chain, m), n)) + [own]
  {
    MovesCompose(chain, m, n);
    MovesCompose(chain, n, n + 1);
    LabelledConcat(r, SkippedBetween(chain, m), SkippedBetween(MovedTo(chain, m), n));
    LabelledConcat(r, SkippedBetween(chain, n), SkippedBetween(MovedTo(chain, n), n + 1));
    own := Labelled(r, SkippedBetween(MovedTo(chain, n), n + 1))[0];
    assert Labelled(r, SkippedBetween(MovedTo(chain, n), n + 1)) == [own];
  }

  lemma LeavingAhead(full: seq<Skipped>, ahead: seq<Skipped>, own: Skipped, received: set<FrameName>)
    requires forall i :: 0 <= i < |full| ==> Name(full[i]) != Name(own)
    requires forall i :: 0 <= i < |ahead| ==> Name(ahead[i]) !in received && Name(ahead[i]) != Name(own)
    ensures Leaving(full + ahead + [own], received + {Name(own)}) == Leaving(full, received) + ahead
  {
    var more := received + {Name(own)};
    LeavingConcat(full + ahead, [own], more);
    LeavingConcat(full, ahead, more);
    LeavingSame(full, received, Name(own));
    LeavingAll(ahead, more);
    assert Leaving([own], more) == Leaving([own][1..], more) == [];
  }

  /** One more frame ahead of all received so far. */
  lemma AfterAhead(s: State, r: PublicKey, furthest: U32, received: set<FrameName>, n: U32)
    requires ReadsChain(s, r) && s.receiving.value.next <= furthest <= n < 0xFFFF_FFFF
    requires forall m :: (r, m) in received ==> m < furthest
    ensures var t := After(s, r, furthest, received);
            After(s, r, n + 1, received + {(r, n)}) ==
            t.(receiving := Some(MovedTo(t.receiving.value, n + 1)),
               skipped := t.skipped + Labelled(r, SkippedBetween(t.receiving.value, n)))
  {
    var chain := s.receiving.value;
    var full := s.skipped + Labelled(r, SkippedBetween(chain, furthest));
    var ahead := Labelled(r, SkippedBetween(MovedTo(chain, furthest), n));
    FullHoldsEachOnce(s, r, furthest);
    MovesCompose(chain, furthest, n + 1);
    var own := PassingOverSplits(r, chain, furthest, n);
    assert s.skipped + Labelled(r, SkippedBetween(chain, n + 1)) == full + ahead + [own];
    LeavingAhead(full, ahead, own, received);
  }

  lemma FullHoldsEachOnce(s: State, r: PublicKey, f: U32)
    requires ReadsChain(s, r) && f >= s.receiving.value.next
    ensures var full := s.skipped + Labelled(r, SkippedBetween(s.receiving.value, f));
            NamedOnce(full) && forall i :: 0 <= i < |full| && full[i].ratchet == r ==> full[i].number < f
  {
  }

  // ---------- Frames of the chains read so far ----------

  /** Receiving frames of the chain being read and of older ones, in whatever
      order, ends in the state their set of names determines. */
  lemma {:induction false} OnlyTheSetMatters(s: State, r: PublicKey, frames: seq<SealedFrame>, drawn: Result<PrivateKey, CryptoError>)
    requires ReadsChain(s, r) && AllOpen(s, frames, drawn, None)
    ensures Furthest(s.receiving.value.next, r, frames) <= CHAIN_LIMIT
    ensures ReceiveAll(s, frames, drawn) == After(s, r, Furthest(s.receiving.value.next, r, frames), FrameNames(frames))
  {
    if frames == [] {
      NothingReceived(s, r);
      assert FrameNames(frames) == {};
    } else {
      var front, last := frames[..|frames| - 1], frames[|frames| - 1];
      OnlyTheSetMatters(s, r, front, drawn);
      NamesOfLast(frames);
      OneMoreFrame(s, r, front, last, drawn);
    }
  }

  lemma NothingReceived(s: State, r: PublicKey)
    requires ReadsChain(s, r)
    ensures After(s, r, s.receiving.value.next, {}) == s
  {
    LeavingAll(s.skipped, {});
    assert s.skipped + Labelled(r, SkippedBetween(s.receiving.value, s.receiving.value.next)) == s.skipped;
  }

  lemma OneMoreFrame(s: State, r: PublicKey, front: seq<SealedFrame>, last: SealedFrame, drawn: Result<PrivateKey, CryptoError>)
    requires ReadsChain(s, r)
    requires Furthest(s.receiving.value.next, r, front) <= CHAIN_LIMIT
    requires var before := After(s, r, Furthest(s.receiving.value.next, r, front), FrameNames(front));
             && !OpensNewChain(before, last.header)
             && Decrypt(before, last, drawn).1.Ok? && Receive(before, last, drawn).skipped == Unevicted(before, last)
    ensures var f, n := Furthest(s.receiving.value.next, r, front), last.header.messageNumber;
            var g := if last.header.ratchet == r && n >= f then n + 1 else f;
            && g <= CHAIN_LIMIT
            && Receive(After(s, r, f, FrameNames(front)), last, drawn)
               == After(s, r, g, FrameNames(front) + {NameOf(last.header)})
  {
    var f := Furthest(s.receiving.value.next, r, front);
    var before := After(s, r, f, FrameNames(front));
    if FirstMatch(before.skipped, NameOf(last.header)) < |before.skipped| {
      OneMoreStored(s, r, f, FrameNames(front), last, drawn);
    } else {
      OneMoreAhead(s, r, f, FrameNames(front), last, drawn);
    }
  }

  lemma OneMoreStored(s: State, r: PublicKey, f: U32, received: set<FrameName>, last: SealedFrame, drawn: Result<PrivateKey, CryptoError>)
    requires ReadsChain(s, r) && f >= s.receiving.value.next
    requires var before := After(s, r, f, received);
             && FirstMatch(before.skipped, NameOf(last.header)) < |before.skipped|
             && Decrypt(before, last, drawn).1.Ok?
    ensures last.header.ratchet == r ==> last.header.messageNumber < f
    ensures Receive(After(s, r, f, received), last, drawn) == After(s, r, f, received + {NameOf(last.header)})
  {
    var before, name := After(s, r, f, received), NameOf(last.header);
    var full := s.skipped + Labelled(r, SkippedBetween(s.receiving.value, f));
    FullHoldsEachOnce(s, r, f);
    LeavingOneMore(full, received, name);
    RemovedIsWithout(before.skipped, name);
    LeavingIsSubsequence(full, received);
    SubsequenceElements(before.skipped, full);
    assert before.skipped[FirstMatch(before.skipped, name)] in full;
  }

  lemma OneMoreAhead(s: State, r: PublicKey, f: U32, received: set<FrameName>, last: SealedFrame, drawn: Result<PrivateKey, CryptoError>)
    requires ReadsChain(s, r) && s.receiving.value.next <= f
    requires forall m :: (r, m) in received ==> m < f
    requires var before := After(s, r, f, received);
             && FirstMatch(before.skipped, NameOf(last.header)) == |before.skipped|
             && !OpensNewChain(before, last.header)
             && Decrypt(before, last, drawn).1.Ok? && Receive(before, last, drawn).skipped == Unevicted(before, last)
    ensures var n := last.header.messageNumber;
            && last.header.ratchet == r && f <= n < CHAIN_LIMIT
            && Receive(After(s, r, f, received), last, drawn) == After(s, r, n + 1, received + {(r, n)})
  {
    var before := After(s, r, f, received);
    assert InReceivingChain(before, last.header).Ok?;
    AfterAhead(s, r, f, received, last.header.messageNumber);
  }

  lemma {:induction false} LeavingIsSubsequence(s: seq<Skipped>, received: set<FrameName>)
    ensures Subsequence(Leaving(s, received), s)
  {
    if s != [] {
      LeavingIsSubsequence(s[1..], received);
      var rest := Leaving(s[1..], received);
      assert ([s[0]] + rest)[1..] == rest;
    }
  }

  // ---------- Frames that open a new chain among them ----------

  /** A session that has not read the new chain, and whose receiving chain, if it
      has one, is not past its announced length. */
  ghost predicate ReadyFor(s: State, next: NewChain) {
    && s.remoteRatchet != Some(next.ratchet)
    && KdfRoot(s.rootKey, s.ownRatchet, next.ratchet).Ok?
    && (forall i :: 0 <= i < |s.skipped| ==> s.skipped[i].ratchet != next.ratchet)
    && if s.receiving.None? then s.skipped == []
       else s.remoteRatchet.Some? && ReadsChain(s, s.remoteRatchet.value) && s.receiving.value.next <= next.previousLen
  }

  /** The session that has taken the ratchet step and read nothing yet. */
  function Stepped(s: State, next: NewChain, own: PrivateKey): State
    requires KdfRoot(s.rootKey, s.ownRatchet, next.ratchet).Ok?
  {
    var (middleKey, receivingKey) := KdfRoot(s.rootKey, s.ownRatchet, next.ratchet).value;
    var (rootKey, sendingKey) := KdfRoot(middleKey, own, next.ratchet).value;
    State(rootKey, own, Some(next.ratchet), Some(Chain(sendingKey, 0)), Some(Chain(receivingKey, 0)),
          if s.sending.Some? then s.sending.value.next else 0, WithPrevious(s, next.previousLen))
  }

  lemma SteppedReadsChain(s: State, next: NewChain, own: PrivateKey)
    requires ReadyFor(s, next)
    ensures ReadsChain(Stepped(s, next, own), next.ratchet)
  {
    if s.receiving.Some? {
      FullHoldsEachOnce(s, s.remoteRatchet.value, next.previousLen);
    }
  }

  /** A frame that opens the new chain: the step, and the frame read. */
  lemma StepAndRead(s: State, next: NewChain, own: PrivateKey, frame: SealedFrame)
    requires OpensNewChain(s, frame.header) && next == NewChain(frame.header.ratchet, frame.header.previousChainLen)
    requires Decrypt(s, frame, Ok(own)).1.Ok? && Receive(s, frame, Ok(own)).skipped == Unevicted(s, frame)
    ensures frame.header.messageNumber < CHAIN_LIMIT
    ensures KdfRoot(s.rootKey, s.ownRatchet, next.ratchet).Ok?
    ensures var t, n := Stepped(s, next, own), frame.header.messageNumber;
            Receive(s, frame, Ok(own)) ==
            t.(receiving := Some(MovedTo(t.receiving.value, n + 1)),
               skipped := t.skipped + Labelled(next.ratchet, SkippedBetween(t.receiving.value, n)))
  {
    assert AfterRatchetStep(s, frame.header, Ok(own)).Ok?;
  }

  /** Stepping after a set of older frames, or those frames after stepping. */
  lemma StepCommutes(s: State, next: NewChain, own: PrivateKey, f: U32, received: set<FrameName>)
    requires ReadyFor(s, next) && s.receiving.Some?
    requires s.receiving.value.next <= f <= next.previousLen
    requires forall m :: (s.remoteRatchet.value, m) in received ==> m < f
    ensures ReadsChain(Stepped(s, next, own), next.ratchet)
    ensures Stepped(After(s, s.remoteRatchet.value, f, received), next, own)
         == After(Stepped(s, next, own), next.ratchet, 0, received)
  {
    var stepped := Stepped(s, next, own);
    SteppedReadsChain(s, next, own);
    RestCommutes(s, s.remoteRatchet.value, f, next.previousLen, received);
    assert Labelled(next.ratchet, SkippedBetween(stepped.receiving.value, 0)) == [];
    assert stepped.skipped + [] == stepped.skipped;
  }

  /** Storing the rest of a chain after a set of frames, or those frames after it. */
  lemma RestCommutes(s: State, r: PublicKey, f: U32, until: U32, received: set<FrameName>)
    requires ReadsChain(s, r) && s.receiving.value.next <= f <= until
    requires forall m :: (r, m) in received ==> m < f
    ensures WithPrevious(After(s, r, f, received), until) == Leaving(WithPrevious(s, until), received)
  {
    var chain := s.receiving.value;
    var full := s.skipped + Labelled(r, SkippedBetween(chain, f));
    var rest := Labelled(r, SkippedBetween(MovedTo(chain, f), until));
    MovesCompose(chain, f, until);
    LabelledConcat(r, SkippedBetween(chain, f), SkippedBetween(MovedTo(chain, f), until));
    assert WithPrevious(s, until) == full + rest;
    LeavingConcat(full, rest, received);
    LeavingAll(rest, received);
  }

  /** Whether one of the frames is of the new chain. */
  ghost predicate Opened(frames: seq<SealedFrame>, next: NewChain) {
    exists n :: (next.ratchet, n) in FrameNames(frames)
  }

  /** Where a set of frames leads: with a frame of the new chain among them, past
      the ratchet step. */
  ghost predicate LeadsTo(s: State, next: NewChain, own: PrivateKey, frames: seq<SealedFrame>, t: State)
    requires ReadyFor(s, next)
  {
    if Opened(frames, next) then
      var f := Furthest(0, next.ratchet, frames);
      && f <= CHAIN_LIMIT && ReadsChain(Stepped(s, next, own), next.ratchet)
      && t == After(Stepped(s, next, own), next.ratchet, f, FrameNames(frames))
    else if s.receiving.Some? then
      var f := Furthest(s.receiving.value.next, s.remoteRatchet.value, frames);
      && f <= CHAIN_LIMIT
      && t == After(s, s.remoteRatchet.value, f, FrameNames(frames))
    else frames == [] && t == s
  }

  /** The frames of the chain before the new one lie below its announced length. */
  ghost predicate BelowAnnounced(s: State, next: NewChain, frames: seq<SealedFrame>) {
    forall n :: s.remoteRatchet.Some? && (s.remoteRatchet.value, n) in FrameNames(frames) ==> n < next.previousLen
  }

  /** The same with the frames of one new chain among them, whichever of them
      comes first and takes the ratchet step. */
  lemma {:induction false} OnlyTheSetMattersAcrossAStep(s: State, next: NewChain, own: PrivateKey, frames: seq<SealedFrame>)
    requires ReadyFor(s, next) && AllOpen(s, frames, Ok(own), Some(next)) && BelowAnnounced(s, next, frames)
    ensures LeadsTo(s, next, own, frames, ReceiveAll(s, frames, Ok(own)))
  {
    if frames == [] {
      if s.receiving.Some? {
        NothingReceived(s, s.remoteRatchet.value);
      }
      assert FrameNames(frames) == {};
    } else {
      var front := frames[..|frames| - 1];
      NamesOfLast(frames);
      OnlyTheSetMattersAcrossAStep(s, next, own, front);
      OneMoreLeadsOn(s, next, own, frames, ReceiveAll(s, front, Ok(own)));
    }
  }

  /** What `AllOpen` says of the last frame. */
  ghost predicate OpensNext(before: State, last: SealedFrame, next: NewChain, own: PrivateKey) {
    && (OpensNewChain(before, last.header) ==> next == NewChain(last.header.ratchet, last.header.previousChainLen))
    && Decrypt(before, last, Ok(own)).1.Ok?
    && Receive(before, last, Ok(own)).skipped == Unevicted(before, last)
  }

  lemma OneMoreLeadsOn(s: State, next: NewChain, own: PrivateKey, frames: seq<SealedFrame>, before: State)
    requires ReadyFor(s, next) && frames != [] && BelowAnnounced(s, next, frames[..|frames| - 1])
    requires LeadsTo(s, next, own, frames[..|frames| - 1], before)
    requires OpensNext(before, frames[|frames| - 1], next, own)
    ensures LeadsTo(s, next, own, frames, Receive(before, frames[|frames| - 1], Ok(own)))
  {
    if Opened(frames[..|frames| - 1], next) {
      OneMoreAfterTheStepLeadsOn(s, next, own, frames, before);
    } else if frames[|frames| - 1].header.ratchet == next.ratchet {
      TheStepLeadsOn(s, next, own, frames, before);
    } else {
      OneMoreBeforeTheStepLeadsOn(s, next, own, frames, before);
    }
  }

  lemma OneMoreAfterTheStepLeadsOn(s: State, next: NewChain, own: PrivateKey, frames: seq<SealedFrame>, before: State)
    requires ReadyFor(s, next) && frames != [] && Opened(frames[..|frames| - 1], next)
    requires LeadsTo(s, next, own, frames[..|frames| - 1], before)
    requires OpensNext(before, frames[|frames| - 1], next, own)
    ensures LeadsTo(s, next, own, frames, Receive(before, frames[|frames| - 1], Ok(own)))
  {
    NamesOfLast(frames);
    StaysOpened(frames, next);
    OneMoreInTheNewChain(s, next, own, frames[..|frames| - 1], frames[|frames| - 1], before);
  }

  lemma TheStepLeadsOn(s: State, next: NewChain, own: PrivateKey, frames: seq<SealedFrame>, before: State)
    requires ReadyFor(s, next) && frames != [] && BelowAnnounced(s, next, frames[..|frames| - 1])
    requires !Opened(frames[..|frames| - 1], next) && frames[|frames| - 1].header.ratchet == next.ratchet
    requires LeadsTo(s, next, own, frames[..|frames| - 1], before)
    requires OpensNext(before, frames[|frames| - 1], next, own)
    ensures LeadsTo(s, next, own, frames, Receive(before, frames[|frames| - 1], Ok(own)))
  {
    NamesOfLast(frames);
    StaysOpened(frames, next);
    FirstOfTheNewChain(s, next, own, frames[..|frames| - 1], frames[|frames| - 1], before);
  }

  lemma OneMoreBeforeTheStepLeadsOn(s: State, next: NewChain, own: PrivateKey, frames: seq<SealedFrame>, before: State)
    requires ReadyFor(s, next) && frames != []
    requires !Opened(frames[..|frames| - 1], next) && frames[|frames| - 1].header.ratchet != next.ratchet
    requires LeadsTo(s, next, own, frames[..|frames| - 1], before)
    requires OpensNext(before, frames[|frames| - 1], next, own)
    ensures LeadsTo(s, next, own, frames, Receive(before, frames[|frames| - 1], Ok(own)))
  {
    NamesOfLast(frames);
    StaysOpened(frames, next);
    OneMoreBeforeTheStep(s, next, own, frames[..|frames| - 1], frames[|frames| - 1], before);
  }

  lemma StaysOpened(frames: seq<SealedFrame>, next: NewChain)
    requires frames != []
    ensures Opened(frames, next) <==>
            Opened(frames[..|frames| - 1], next) || frames[|frames| - 1].header.ratchet == next.ratchet
  {
    var last := frames[|frames| - 1];
    NamesOfLast(frames);
    assert last.header.ratchet == next.ratchet ==> (next.ratchet, last.header.messageNumber) in FrameNames(frames);
  }

  lemma OneMoreInTheNewChain(s: State, next: NewChain, own: PrivateKey, front: seq<SealedFrame>, last: SealedFrame, before: State)
    requires ReadyFor(s, next) && Opened(front, next)
    requires LeadsTo(s, next, own, front, before) && OpensNext(before, last, next, own)
    ensures ReadsChain(Stepped(s, next, own), next.ratchet)
    ensures var f, n := Furthest(0, next.ratchet, front), last.header.messageNumber;
            var g := if last.header.ratchet == next.ratchet && n >= f then n + 1 else f;
            && g <= CHAIN_LIMIT
            && Receive(before, last, Ok(own))
               == After(Stepped(s, next, own), next.ratchet, g, FrameNames(front) + {NameOf(last.header)})
  {
    SteppedReadsChain(s, next, own);
    OneMoreFrame(Stepped(s, next, own), next.ratchet, front, last, Ok(own));
  }

  lemma FirstOfTheNewChain(s: State, next: NewChain, own: PrivateKey, front: seq<SealedFrame>, last: SealedFrame, before: State)
    requires ReadyFor(s, next) && BelowAnnounced(s, next, front) && !Opened(front, next)
    requires LeadsTo(s, next, own, front, before) && OpensNext(before, last, next, own)
    requires last.header.ratchet == next.ratchet
    ensures last.header.messageNumber < CHAIN_LIMIT && ReadsChain(Stepped(s, next, own), next.ratchet)
    ensures Furthest(0, next.ratchet, front) == 0
    ensures Receive(before, last, Ok(own)) ==
            After(Stepped(s, next, own), next.ratchet, last.header.messageNumber + 1, FrameNames(front) + {NameOf(last.header)})
  {
    SteppedReadsChain(s, next, own);
    NewChainIsNotStored(s, next, own, front, before);
    StepAndRead(before, next, own, last);
    if s.receiving.Some? {
      var f := Furthest(s.receiving.value.next, s.remoteRatchet.value, front);
      StepCommutes(s, next, own, f, FrameNames(front));
    } else {
      NothingReceived(Stepped(s, next, own), next.ratchet);
      assert FrameNames(front) == {};
    }
    AfterAhead(Stepped(s, next, own), next.ratchet, 0, FrameNames(front), last.header.messageNumber);
  }

  lemma NewChainIsNotStored(s: State, next: NewChain, own: PrivateKey, front: seq<SealedFrame>, before: State)
    requires ReadyFor(s, next) && !Opened(front, next) && LeadsTo(s, next, own, front, before)
    ensures before.remoteRatchet == s.remoteRatchet
    ensures forall i :: 0 <= i < |before.skipped| ==> before.skipped[i].ratchet != next.ratchet
  {
    if s.receiving.Some? {
      var r := s.remoteRatchet.value;
      var f := Furthest(s.receiving.value.next, r, front);
      var full := s.skipped + Labelled(r, SkippedBetween(s.receiving.value, f));
      LeavingIsSubsequence(full, FrameNames(front));
      SubsequenceElements(before.skipped, full);
      forall i | 0 <= i < |before.skipped|
        ensures before.skipped[i].ratchet != next.ratchet
      {
        assert before.skipped[i] in full;
      }
    }
  }

  lemma OneMoreBeforeTheStep(s: State, next: NewChain, own: PrivateKey, front: seq<SealedFrame>, last: SealedFrame, before: State)
    requires ReadyFor(s, next) && !Opened(front, next) && last.header.ratchet != next.ratchet
    requires LeadsTo(s, next, own, front, before) && OpensNext(before, last, next, own)
    ensures s.receiving.Some?
    ensures var r := s.remoteRatchet.value;
            var f := Furthest(s.receiving.value.next, r, front);
            var g := if last.header.ratchet == r && last.header.messageNumber >= f then last.header.messageNumber + 1 else f;
            && g <= CHAIN_LIMIT
            && Receive(before, last, Ok(own))
               == After(s, r, g, FrameNames(front) + {NameOf(last.header)})
  {
    if s.receiving.Some? {
      OneMoreFrame(s, s.remoteRatchet.value, front, last, Ok(own));
    }
  }

  // ---------- Any two orders ----------

  /** Two orders of the same frames end in the same session: the same keys,
      counters and store. */
  lemma AnyOrderEndsTheSame(s: State, r: PublicKey, one: seq<SealedFrame>, other: seq<SealedFrame>, drawn: Result<PrivateKey, CryptoError>)
    requires ReadsChain(s, r) && AllOpen(s, one, drawn, None) && AllOpen(s, other, drawn, None)
    requires FrameNames(one) == FrameNames(other)
    ensures ReceiveAll(s, one, drawn) == ReceiveAll(s, other, drawn)
  {
    OnlyTheSetMatters(s, r, one, drawn);
    OnlyTheSetMatters(s, r, other, drawn);
    FurthestDependsOnTheSet(s.receiving.value.next, r, one, other);
  }

  /** ... also when they open a new chain, and each order by another frame. */
  lemma AnyOrderAcrossAStepEndsTheSame(s: State, next: NewChain, own: PrivateKey, one: seq<SealedFrame>, other: seq<SealedFrame>)
    requires ReadyFor(s, next) && AllOpen(s, one, Ok(own), Some(next)) && AllOpen(s, other, Ok(own), Some(next))
    requires BelowAnnounced(s, next, one) && FrameNames(one) == FrameNames(other)
    ensures ReceiveAll(s, one, Ok(own)) == ReceiveAll(s, other, Ok(own))
  {
    OnlyTheSetMattersAcrossAStep(s, next, own, one);
    OnlyTheSetMattersAcrossAStep(s, next, own, other);
    FurthestDependsOnTheSet(0, next.ratchet, one, other);
    if s.receiving.Some? {
      FurthestDependsOnTheSet(s.receiving.value.next, s.remoteRatchet.value, one, other);
    }
  }

  // ---------- Reachable sessions ----------

  /** Every reachable session that has a receiving chain meets the first condition. */
  lemma ReachableSessionsReadChains(w: World, p: Party)
    requires LockStep(w) && w.Generation(p) >= 2
    ensures ReadsChain(w.Of(p), Pub(w.keys[w.Generation(p) - 1]))
  {
    var s, g := w.Of(p), w.Generation(p);
    assert InStep(w, p) && StoreInStep(w, p);
    LockStepProof.StoreIsBelowCurrent(w, p);
    IndexOfKey(w.keys, g - 1);
    forall i, k | 0 <= i < k < |s.skipped|
      ensures Name(s.skipped[i]) != Name(s.skipped[k])
    {
      History.SortedNamesAreUnique(w.keys, s.skipped, i, k);
    }
  }

  /** Every reachable session whose peer has a new chain meets the second, and so
      do the peer's frames, of the new chain and of the one before it. */
  lemma ReachableSessionsAreReady(w: World, p: Party, m: Sent)
    requires LockStep(w) && Genuine(w, m) && Owner(m.chain) == p.Peer()
    requires w.Generation(p) + 1 < |w.keys|
    ensures var g := w.Generation(p);
            var next := NewChain(Pub(w.keys[g + 1]), PreviousLen(w.sent, g + 1));
            && ReadyFor(w.Of(p), next)
            && (m.chain == g + 1 ==> NewChain(m.frame.header.ratchet, m.frame.header.previousChainLen) == next)
            && (w.Of(p).remoteRatchet == Some(m.frame.header.ratchet) ==> m.frame.header.messageNumber < next.previousLen)
  {
    var s, g := w.Of(p), w.Generation(p);
    assert InStep(w, p);
    IndexOfKey(w.keys, g + 1);
    IndexOfKey(w.keys, m.chain);
    LockStepProof.StoreIsBelow(w, p);
    if g > 0 {
      IndexOfKey(w.keys, g - 1);
    }
    if g >= 2 {
      ReachableSessionsReadChains(w, p);
    } else {
      NothingStoredYet(w, p);
    }
  }

  lemma NothingStoredYet(w: World, p: Party)
    requires LockStep(w) && w.Generation(p) <= 1
    ensures w.Of(p).skipped == []
  {
    FirstStored(w, p);
  }

  lemma FirstStored(w: World, p: Party)
    requires LockStep(w)
    ensures w.Of(p).skipped != [] ==> 0 < IndexOf(w.keys, w.Of(p).skipped[0].ratchet) < w.Generation(p)
  {
    assert StoreInStep(w, p);
    if w.Of(p).skipped != [] {
      assert EntryInStep(w, p, w.Of(p).skipped[0]);
    }
  }
}

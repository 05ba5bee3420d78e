/**
 Building runs step by step: sends in a row, and deliveries of frames that are
 within reach.
*/
module RunBuilding {
  import opened Results
  import opened Terms
  import opened Attacker
  import opened Schedule
  import opened SkippedStore
  import opened RatchetSpec
  import opened Conversation
  import opened LockStepProof
  import opened History
  import opened Runs

  lemma {:induction false} RunsCompose(a: Attacker, w: World, xs: seq<Action>, ys: seq<Action>)
    requires Admissible(a, w, xs) && Admissible(a, Run(a, w, xs), ys)
    ensures Admissible(a, w, xs + ys) && Run(a, w, xs + ys) == Run(a, Run(a, w, xs), ys)
    decreases |xs|
  {
    if xs == [] {
      assert xs + ys == ys;
    } else {
      assert (xs + ys)[1..] == xs[1..] + ys;
      RunsCompose(a, Step(w, xs[0]), xs[1..], ys);
    }
  }

  lemma OneStep(a: Attacker, w: World, action: Action)
    requires w.Shape() && Enabled(a, w, action)
    ensures Admissible(a, w, [action]) && Run(a, w, [action]) == Step(w, action)
  {
  }

  ghost predicate ReachedBy(a: Attacker, start: World, actions: seq<Action>, w: World) {
    && Invariant(start) && Outsider(a, start.sk)
    && Admissible(a, start, actions) && Run(a, start, actions) == w
    && Invariant(w) && w.sk == start.sk
  }

  /** Names the quantifier below, so that a step of a run is unfolded only where
      a proof asks for it. */
  ghost predicate Asked(i: int) {
    true
  }

  /** A reachable conversation, with the run that leads to it. */
  ghost predicate Reached(a: Attacker, start: World, actions: seq<Action>, w: World) {
    w.Shape() && forall i :: Asked(i) ==> ReachedBy(a, start, actions, w)
  }

  lemma WhatReachedMeans(a: Attacker, start: World, actions: seq<Action>, w: World)
    ensures Reached(a, start, actions, w) <==> ReachedBy(a, start, actions, w)
  {
    assert Asked(0);
  }

  lemma Extend(a: Attacker, start: World, actions: seq<Action>, w: World, action: Action)
    requires ReachedBy(a, start, actions, w) && Enabled(a, w, action)
    ensures ReachedBy(a, start, actions + [action], Step(w, action))
  {
    OneStep(a, w, action);
    RunsCompose(a, start, actions, [action]);
    StepKeepsInvariant(a, w, action);
  }

  /** From `w` to `w'`, one party sent `n` frames in a row. */
  ghost predicate Sends(w: World, w': World, from: Party, n: nat)
    requires w.Shape()
  {
    var g := w.Generation(from);
    && w'.keys == w.keys && w'.accepted == w.accepted
    && w.sent[g] + n <= CHAIN_LIMIT && w'.sent == w.sent[g := w.sent[g] + n]
    && w'.alice.receiving == w.alice.receiving && w'.bob.receiving == w.bob.receiving
    && |w'.log| == |w.log| + n && w'.log[..|w.log|] == w.log
    && forall k :: |w.log| <= k < |w'.log| ==>
         w'.log[k].chain == g && w'.log[k].frame.header.messageNumber == w.sent[g] + k - |w.log|
  }

  lemma SendOne(w: World, from: Party, nonce: Nonce, plaintext: Plaintext) returns (w': World)
    requires Invariant(w) && w.Generation(from) > 0 && w.sent[w.Generation(from)] < CHAIN_LIMIT
    ensures w' == Step(w, Send(from, Ok(nonce), plaintext)) && Sends(w, w', from, 1)
  {
    assert InStep(w, from);
    assert Encrypt(w.Of(from), Ok(nonce), plaintext).1.Ok?;
    w' := SendMoves(w, from, Ok(nonce), plaintext);
  }

  lemma SendsCompose(w: World, w1: World, w': World, from: Party, n: nat)
    requires w.Shape() && w1.Shape() && Sends(w, w1, from, n) && Sends(w1, w', from, 1)
    ensures Sends(w, w', from, n + 1)
  {
  }

  lemma SendNext(a: Attacker, start: World, actions: seq<Action>, w: World, from: Party, nonce: Nonce, plaintext: Plaintext)
    returns (actions': seq<Action>, w': World)
    requires Reached(a, start, actions, w) && w.Generation(from) > 0 && w.sent[w.Generation(from)] < CHAIN_LIMIT
    ensures Reached(a, start, actions', w') && Sends(w, w', from, 1)
  {
    WhatReachedMeans(a, start, actions, w);
    w' := SendOne(w, from, nonce, plaintext);
    actions' := actions + [Send(from, Ok(nonce), plaintext)];
    Extend(a, start, actions, w, Send(from, Ok(nonce), plaintext));
    WhatReachedMeans(a, start, actions', w');
  }

  /** A party that may send `n` more frames sends them. */
  lemma {:induction false} SendMany(
    a: Attacker, start: World, actions: seq<Action>, w: World, from: Party, n: nat, nonce: Nonce, plaintext: Plaintext)
    returns (actions': seq<Action>, w': World)
    requires Reached(a, start, actions, w)
    requires w.Generation(from) > 0 && w.sent[w.Generation(from)] + n <= CHAIN_LIMIT
    ensures Reached(a, start, actions', w') && Sends(w, w', from, n)
  {
    if n == 0 {
      actions', w' := actions, w;
    } else {
      var w1;
      actions', w1 := SendMany(a, start, actions, w, from, n - 1, nonce, plaintext);
      actions', w' := SendNext(a, start, actions', w1, from, nonce, plaintext);
      SendsCompose(w, w1, w', from, n - 1);
    }
  }

  /** From `w` to `w'`, party `p` accepted frame `k`, drawing `drawn` if it opens
      a chain. */
  ghost predicate Receives(w: World, w': World, p: Party, k: nat, drawn: PrivateKey)
    requires w.Shape() && k < |w.log|
  {
    && w'.log == w.log && w'.accepted == w.accepted + [Accepted(p, w.log[k].frame, w.log[k].plaintext)]
    && w'.Of(p.Peer()) == w.Of(p.Peer())
    && w'.Of(p).receiving.Some? && w'.Of(p).receiving.value.next == w.log[k].frame.header.messageNumber + 1
    && if w.log[k].chain == w.Generation(p) + 1 then w'.keys == w.keys + [drawn] && w'.sent == w.sent + [0]
       else w'.keys == w.keys && w'.sent == w.sent
  }

  lemma StepReceives(a: Attacker, w: World, p: Party, k: nat, drawn: PrivateKey) returns (w': World)
    requires Invariant(w) && Outsider(a, w.sk) && k < |w.log| && drawn !in w.keys
    requires Genuine(w, w.log[k]) && Owner(w.log[k].chain) == p.Peer() && WithinReach(w, p, w.log[k])
    ensures Enabled(a, w, Deliver(p, w.log[k].frame, Ok(drawn)))
    ensures w' == Step(w, Deliver(p, w.log[k].frame, Ok(drawn))) && Receives(w, w', p, k, drawn)
  {
    var m := w.log[k];
    ExactAcceptance(w, p, m, Ok(drawn));
    var l, reading;
    w', l, reading := AcceptShape(a, w, p, m.frame, Ok(drawn));
    SameFrameSameEntry(w, k, l);
    NotFromStore(w, p, m, reading);
    AcceptedAhead(w.Of(p), m.frame, Ok(drawn));
  }

  /** A frame within reach is delivered. */
  lemma DeliverOne(a: Attacker, start: World, actions: seq<Action>, w: World, p: Party, k: nat, drawn: PrivateKey)
    returns (actions': seq<Action>, w': World)
    requires Reached(a, start, actions, w) && k < |w.log| && drawn !in w.keys
    requires Genuine(w, w.log[k]) && Owner(w.log[k].chain) == p.Peer() && WithinReach(w, p, w.log[k])
    ensures actions' == actions + [Deliver(p, w.log[k].frame, Ok(drawn))]
    ensures w' == Step(w, Deliver(p, w.log[k].frame, Ok(drawn)))
    ensures Reached(a, start, actions', w') && Receives(w, w', p, k, drawn)
  {
    WhatReachedMeans(a, start, actions, w);
    w' := StepReceives(a, w, p, k, drawn);
    actions' := actions + [Deliver(p, w.log[k].frame, Ok(drawn))];
    Extend(a, start, actions, w, Deliver(p, w.log[k].frame, Ok(drawn)));
    WhatReachedMeans(a, start, actions', w');
  }

  lemma SameFrameSameEntry(w: World, k: nat, l: nat)
    requires Invariant(w) && k < |w.log| && l < |w.log| && w.log[k].frame == w.log[l].frame
    ensures k == l
  {
    SendDiscipline(w);
  }

  lemma NotFromStore(w: World, p: Party, m: Sent, reading: Reading)
    requires Invariant(w) && Genuine(w, m) && WithinReach(w, p, m)
    requires Reads(w, p, m.frame, m.chain, reading)
    ensures !reading.FromStore?
    ensures FirstMatch(w.Of(p).skipped, NameOf(m.frame.header)) == |w.Of(p).skipped|
  {
    MatchIsMembership(w.Of(p).skipped, NameOf(m.frame.header));
    IndexOfKey(w.keys, m.chain);
    if Retained(w, p, NameOf(m.frame.header)) {
      RetainedWentPast(w, p, NameOf(m.frame.header));
    }
  }

  lemma AcceptedAhead(s: State, frame: SealedFrame, drawn: Result<PrivateKey, CryptoError>)
    requires Decrypt(s, frame, drawn).1.Ok? && FirstMatch(s.skipped, NameOf(frame.header)) == |s.skipped|
    ensures var next := Decrypt(s, frame, drawn).0;
            && next.receiving.Some? && next.receiving.value.next == frame.header.messageNumber + 1
            && (OpensNewChain(s, frame.header) ==> drawn == Ok(next.ownRatchet))
  {
  }

  lemma LogIsGenuine(a: Attacker, start: World, actions: seq<Action>, w: World, k: nat)
    requires Reached(a, start, actions, w) && k < |w.log|
    ensures Genuine(w, w.log[k])
  {
    WhatReachedMeans(a, start, actions, w);
  }
}

/**
 Liveness: whatever has happened, a frame can still be read exactly if it was not
 opened before and its key was not evicted. Delivering the rest of the peer's
 chains in order is enough.
*/
module Liveness {
  import opened Results
  import opened Terms
  import opened Attacker
  import opened Schedule
  import opened SkippedStore
  import opened Conversation
  import opened History
  import opened Runs
  import opened RunBuilding
  import Short = ShortConversations

  // ---------- Delivering what was sent ----------

  /** Only frames of the log are delivered, and only to `p`. */
  ghost predicate Redeliveries(w: World, p: Party, actions: seq<Action>) {
    forall i :: 0 <= i < |actions| ==>
      actions[i].Deliver? && actions[i].to == p && exists k :: 0 <= k < |w.log| && w.log[k].frame == actions[i].frame
  }

  /** `w'` is `w` after delivering such frames. */
  ghost predicate RedeliveredBy(a: Attacker, w: World, p: Party, actions: seq<Action>, w': World) {
    && Admissible(a, w, actions) && Run(a, w, actions) == w' && Redeliveries(w, p, actions)
    && Outsider(a, w.sk) && Invariant(w') && w'.sk == w.sk && w'.log == w.log
  }

  /** The same, unfolded only where a proof asks for it. */
  ghost predicate Redelivered(a: Attacker, w: World, p: Party, actions: seq<Action>, w': World) {
    w'.Shape() && w'.log == w.log && forall i :: Asked(i) ==> RedeliveredBy(a, w, p, actions, w')
  }

  lemma WhatRedeliveredMeans(a: Attacker, w: World, p: Party, actions: seq<Action>, w': World)
    ensures Redelivered(a, w, p, actions, w') <==> RedeliveredBy(a, w, p, actions, w')
  {
    assert Asked(0);
  }

  function FreshPoint(keys: seq<PrivateKey>): (point: nat)
    ensures forall i :: 0 <= i < |keys| ==> keys[i].point < point
  {
    if keys == [] then 0
    else
      var last, point := |keys| - 1, FreshPoint(keys[..|keys| - 1]);
      assert forall i :: 0 <= i < last ==> keys[..last][i] == keys[i];
      if keys[last].point < point then point else keys[last].point + 1
  }

  lemma FrameNumbered(w: World, j: nat, n: nat) returns (k: nat)
    requires Invariant(w) && j < |w.sent| && n < w.sent[j]
    ensures k < |w.log| && Genuine(w, w.log[k])
    ensures w.log[k].chain == j && w.log[k].frame.header.messageNumber == n
  {
    assert |ChainLog(w.log, j)| == w.sent[j];
    k := Short.ChainLogEntries(w.log, j, n);
  }

  /** One more delivery, of a frame within reach. */
  lemma OneMore(a: Attacker, w: World, p: Party, actions: seq<Action>, w1: World, k: nat)
    returns (actions': seq<Action>, w': World, drawn: PrivateKey)
    requires Redelivered(a, w, p, actions, w1)
    requires k < |w1.log| && Genuine(w1, w1.log[k]) && Owner(w1.log[k].chain) == p.Peer() && WithinReach(w1, p, w1.log[k])
    ensures Redelivered(a, w, p, actions', w') && Receives(w1, w', p, k, drawn)
  {
    WhatRedeliveredMeans(a, w, p, actions, w1);
    drawn := PrivateKey(FreshPoint(w1.keys));
    w' := StepReceives(a, w1, p, k, drawn);
    actions' := AppendDelivery(a, w, p, actions, w1, k, drawn);
    WhatRedeliveredMeans(a, w, p, actions', w');
  }

  lemma AppendDelivery(a: Attacker, w: World, p: Party, actions: seq<Action>, w1: World, k: nat, drawn: PrivateKey)
    returns (actions': seq<Action>)
    requires RedeliveredBy(a, w, p, actions, w1) && k < |w.log|
    requires Enabled(a, w1, Deliver(p, w.log[k].frame, Ok(drawn)))
    requires Step(w1, Deliver(p, w.log[k].frame, Ok(drawn))).log == w.log
    ensures RedeliveredBy(a, w, p, actions', Step(w1, Deliver(p, w.log[k].frame, Ok(drawn))))
  {
    var delivery := Deliver(p, w.log[k].frame, Ok(drawn));
    OneStep(a, w1, delivery);
    RunsCompose(a, w, actions, [delivery]);
    StepKeepsInvariant(a, w1, delivery);
    actions' := actions + [delivery];
    StillRedeliveries(w, p, actions, delivery, k);
  }

  lemma StillRedeliveries(w: World, p: Party, actions: seq<Action>, delivery: Action, k: nat)
    requires Redeliveries(w, p, actions) && k < |w.log|
    requires delivery.Deliver? && delivery.to == p && delivery.frame == w.log[k].frame
    ensures Redeliveries(w, p, actions + [delivery])
  {
  }

  lemma NothingRedelivered(a: Attacker, w: World, p: Party)
    requires Invariant(w) && Outsider(a, w.sk)
    ensures Redelivered(a, w, p, [], w)
  {
    WhatRedeliveredMeans(a, w, p, [], w);
  }

  // ---------- One chain in order ----------

  /** The next frame of the chain being read is within reach. */
  lemma NextInChain(w: World, p: Party) returns (k: nat)
    requires Invariant(w) && w.Generation(p) >= 2
    requires Passed(w, p, w.Generation(p) - 1) < w.sent[w.Generation(p) - 1]
    ensures k < |w.log| && Genuine(w, w.log[k]) && Owner(w.log[k].chain) == p.Peer() && WithinReach(w, p, w.log[k])
    ensures w.log[k].chain == w.Generation(p) - 1
    ensures w.log[k].frame.header.messageNumber == Passed(w, p, w.Generation(p) - 1)
  {
    assert Owner(w.Generation(p) - 1) == p.Peer();
    k := FrameNumbered(w, w.Generation(p) - 1, Passed(w, p, w.Generation(p) - 1));
  }

  lemma PassedOneMore(w: World, w': World, p: Party, k: nat, drawn: PrivateKey)
    requires w.Shape() && w'.Shape() && k < |w.log| && Receives(w, w', p, k, drawn)
    requires w.Generation(p) >= 2 && w.log[k].chain == w.Generation(p) - 1
    ensures w'.keys == w.keys && w'.sent == w.sent && w'.Generation(p) == w.Generation(p)
    ensures Passed(w', p, w.Generation(p) - 1) == w.log[k].frame.header.messageNumber + 1
  {
  }

  /** `w'` is `w` with the chain `p` reads gone past up to frame `n`. */
  ghost predicate CaughtUp(w: World, w': World, p: Party, n: nat)
    requires w.Shape() && w'.Shape() && w.Generation(p) >= 1
  {
    w'.keys == w.keys && w'.sent == w.sent && w'.Generation(p) == w.Generation(p) && Passed(w', p, w.Generation(p) - 1) == n
  }

  /** The chain being read can be delivered in order, up to any frame sent. */
  lemma {:induction false} CatchUp(a: Attacker, w: World, p: Party, actions: seq<Action>, w1: World, n: nat)
    returns (actions': seq<Action>, w': World)
    requires Redelivered(a, w, p, actions, w1) && w1.Generation(p) >= 2
    requires Passed(w1, p, w1.Generation(p) - 1) <= n <= w1.sent[w1.Generation(p) - 1]
    ensures Redelivered(a, w, p, actions', w') && CaughtUp(w1, w', p, n)
    decreases n
  {
    if n == Passed(w1, p, w1.Generation(p) - 1) {
      actions', w' := actions, w1;
    } else {
      var w2;
      actions', w2 := CatchUp(a, w, p, actions, w1, n - 1);
      actions', w' := OneMoreInChain(a, w, p, actions', w2);
    }
  }

  lemma OneMoreInChain(a: Attacker, w: World, p: Party, actions: seq<Action>, w1: World)
    returns (actions': seq<Action>, w': World)
    requires Redelivered(a, w, p, actions, w1) && w1.Generation(p) >= 2
    requires Passed(w1, p, w1.Generation(p) - 1) < w1.sent[w1.Generation(p) - 1]
    ensures Redelivered(a, w, p, actions', w') && CaughtUp(w1, w', p, Passed(w1, p, w1.Generation(p) - 1) + 1)
  {
    var k, drawn;
    InvariantOf(a, w, p, actions, w1);
    k := NextInChain(w1, p);
    actions', w', drawn := OneMore(a, w, p, actions, w1, k);
    PassedOneMore(w1, w', p, k, drawn);
  }

  lemma InvariantOf(a: Attacker, w: World, p: Party, actions: seq<Action>, w': World)
    requires Redelivered(a, w, p, actions, w')
    ensures Invariant(w')
  {
    WhatRedeliveredMeans(a, w, p, actions, w');
  }

  // ---------- Every frame whose key is not gone ----------

  /** The last frame accepted is frame `k` of the log. */
  ghost predicate JustRead(w: World, p: Party, k: nat) {
    k < |w.log| && w.accepted != [] &&
    w.accepted[|w.accepted| - 1] == Accepted(p, w.log[k].frame, w.log[k].plaintext)
  }

  lemma ReadInCurrentChain(a: Attacker, w: World, p: Party, actions: seq<Action>, w1: World, k: nat)
    returns (actions': seq<Action>, w': World)
    requires Redelivered(a, w, p, actions, w1) && k < |w1.log|
    requires w1.Generation(p) >= 2 && w1.log[k].chain == w1.Generation(p) - 1
    requires Passed(w1, p, w1.Generation(p) - 1) <= w1.log[k].frame.header.messageNumber < w1.sent[w1.Generation(p) - 1]
    ensures Redelivered(a, w, p, actions', w') && JustRead(w', p, k)
  {
    var w2, drawn;
    actions', w2 := CatchUp(a, w, p, actions, w1, w1.log[k].frame.header.messageNumber);
    InvariantOf(a, w, p, actions', w2);
    assert Genuine(w2, w2.log[k]) && Owner(w2.log[k].chain) == p.Peer();
    actions', w', drawn := OneMore(a, w, p, actions', w2, k);
  }

  /** Once the chain being read has been gone past, the first frame of the next one
      is within reach. */
  lemma OpenNextChain(a: Attacker, w: World, p: Party, actions: seq<Action>, w1: World)
    returns (actions': seq<Action>, w': World, k: nat)
    requires Redelivered(a, w, p, actions, w1) && w1.Generation(p) + 1 < |w1.keys| && w1.sent[w1.Generation(p) + 1] > 0
    requires w1.Generation(p) >= 2 ==> Passed(w1, p, w1.Generation(p) - 1) == w1.sent[w1.Generation(p) - 1]
    ensures Redelivered(a, w, p, actions', w') && JustRead(w', p, k)
    ensures w'.Generation(p) == w1.Generation(p) + 2 && Passed(w', p, w1.Generation(p) + 1) == 1
    ensures w'.sent == w1.sent + [0]
    ensures k < |w.log| && w.log[k].chain == w1.Generation(p) + 1 && w.log[k].frame.header.messageNumber == 0
  {
    var drawn;
    InvariantOf(a, w, p, actions, w1);
    assert Owner(w1.Generation(p) + 1) == p.Peer();
    k := FrameNumbered(w1, w1.Generation(p) + 1, 0);
    actions', w', drawn := OneMore(a, w, p, actions, w1, k);
  }

  lemma ReadInNextChain(a: Attacker, w: World, p: Party, actions: seq<Action>, w1: World, k: nat)
    returns (actions': seq<Action>, w': World)
    requires Redelivered(a, w, p, actions, w1) && k < |w1.log|
    requires w1.log[k].chain == w1.Generation(p) + 1 < |w1.keys|
    requires w1.log[k].frame.header.messageNumber < w1.sent[w1.Generation(p) + 1]
    requires w1.Generation(p) >= 2 ==> Passed(w1, p, w1.Generation(p) - 1) == w1.sent[w1.Generation(p) - 1]
    ensures Redelivered(a, w, p, actions', w') && JustRead(w', p, k)
  {
    var w2, first;
    actions', w2, first := OpenNextChain(a, w, p, actions, w1);
    if w1.log[k].frame.header.messageNumber == 0 {
      InvariantOf(a, w, p, actions', w2);
      w' := w2;
      SameNameSameEntry(w2, k, first);
    } else {
      actions', w' := ReadInCurrentChain(a, w, p, actions', w2, k);
    }
  }

  lemma SameNameSameEntry(w: World, k: nat, l: nat)
    requires Invariant(w) && k < |w.log| && l < |w.log| && w.log[k].chain == w.log[l].chain
    requires w.log[k].frame.header.messageNumber == w.log[l].frame.header.messageNumber
    ensures k == l
  {
    SendDiscipline(w);
    assert Genuine(w, w.log[k]) && Genuine(w, w.log[l]);
  }

  /** Liveness: from every reachable state, a frame the peer sealed that was neither
      opened nor evicted is opened by a run that only delivers frames already sent. */
  lemma FramesCanStillBeRead(a: Attacker, w: World, p: Party, k: nat)
    returns (actions: seq<Action>, w': World)
    requires Invariant(w) && Outsider(a, w.sk) && k < |w.log| && Owner(w.log[k].chain) == p.Peer()
    requires NameOf(w.log[k].frame.header) !in OpenedNames(w) && NameOf(w.log[k].frame.header) !in w.evicted
    ensures Admissible(a, w, actions) && Run(a, w, actions) == w' && Redeliveries(w, p, actions)
    ensures JustRead(w', p, k) && w'.log == w.log
  {
    var g := w.Generation(p);
    assert Genuine(w, w.log[k]);
    StillToCome(w, p, w.log[k]);
    NothingRedelivered(a, w, p);
    if Retained(w, p, NameOf(w.log[k].frame.header)) {
      actions, w' := ReadFromStore(a, w, p, k);
    } else if w.log[k].chain + 1 == g {
      actions, w' := ReadInCurrentChain(a, w, p, [], w, k);
    } else if g >= 2 {
      var w1;
      actions, w1 := CatchUp(a, w, p, [], w, w.sent[g - 1]);
      actions, w' := ReadInNextChain(a, w, p, actions, w1, k);
    } else {
      actions, w' := ReadInNextChain(a, w, p, [], w, k);
    }
    WhatRedeliveredMeans(a, w, p, actions, w');
  }

  lemma ReadFromStore(a: Attacker, w: World, p: Party, k: nat) returns (actions: seq<Action>, w': World)
    requires Invariant(w) && Outsider(a, w.sk) && k < |w.log| && Owner(w.log[k].chain) == p.Peer()
    requires Genuine(w, w.log[k]) && Retained(w, p, NameOf(w.log[k].frame.header))
    ensures Redelivered(a, w, p, actions, w') && JustRead(w', p, k)
  {
    var drawn := PrivateKey(FreshPoint(w.keys));
    ExactAcceptance(w, p, w.log[k], Ok(drawn));
    w' := Step(w, Deliver(p, w.log[k].frame, Ok(drawn)));
    WhatRedeliveredMeans(a, w, p, [], w);
    actions := AppendDelivery(a, w, p, [], w, k, drawn);
    WhatRedeliveredMeans(a, w, p, actions, w');
  }

  // ---------- Every frame whose key is gone ----------

  lemma StepRemembers(w: World, action: Action)
    requires w.Shape()
    ensures w.accepted <= Step(w, action).accepted && w.evicted <= Step(w, action).evicted
  {
  }

  lemma {:induction false} RunRemembers(a: Attacker, w: World, actions: seq<Action>)
    requires Admissible(a, w, actions)
    ensures w.accepted <= Run(a, w, actions).accepted && w.evicted <= Run(a, w, actions).evicted
    decreases |actions|
  {
    if actions != [] {
      StepRemembers(w, actions[0]);
      RunRemembers(a, Step(w, actions[0]), actions[1..]);
    }
  }

  /** Frames of this name have been accepted between `w` and `w'`. */
  ghost predicate ReadSince(w: World, w': World, name: FrameName) {
    exists i :: |w.accepted| <= i < |w'.accepted| && NameOf(w'.accepted[i].frame.header) == name
  }

  /** A frame that was opened or evicted is never opened again, over any run. */
  lemma GoneFramesAreNeverRead(a: Attacker, w: World, actions: seq<Action>, name: FrameName)
    requires Invariant(w) && Outsider(a, w.sk) && Admissible(a, w, actions)
    requires name in OpenedNames(w) || name in w.evicted
    ensures !ReadSince(w, Run(a, w, actions), name)
  {
    var w' := Run(a, w, actions);
    RunKeepsInvariant(a, w, actions);
    RunRemembers(a, w, actions);
    OpenedOnce(w, w', name);
  }

  lemma OpenedOnce(w: World, w': World, name: FrameName)
    requires Invariant(w') && w.accepted <= w'.accepted && w.evicted <= w'.evicted
    requires name in OpenedNames(w) || name in w.evicted
    ensures !ReadSince(w, w', name)
  {
    if name in OpenedNames(w) {
      var i :| 0 <= i < |w.accepted| && NameOf(w.accepted[i].frame.header) == name;
      assert w'.accepted[i] == w.accepted[i];
    } else {
      EvictedByReceiver(w', Alice, name);
      assert forall p :: WentPast(w', p, name) ==> Accounted(w', p, name);
      assert name !in OpenedNames(w');
    }
  }

  /** So a frame of the peer can still be read exactly if it was neither opened nor
      evicted. */
  lemma CanStillBeReadExactly(a: Attacker, w: World, p: Party, k: nat)
    requires Invariant(w) && Outsider(a, w.sk) && k < |w.log| && Owner(w.log[k].chain) == p.Peer()
    ensures var name := NameOf(w.log[k].frame.header);
            (exists actions :: Admissible(a, w, actions) && ReadSince(w, Run(a, w, actions), name)) <==>
            name !in OpenedNames(w) && name !in w.evicted
  {
    var name := NameOf(w.log[k].frame.header);
    if name in OpenedNames(w) || name in w.evicted {
      forall actions | Admissible(a, w, actions)
        ensures !ReadSince(w, Run(a, w, actions), name)
      {
        GoneFramesAreNeverRead(a, w, actions, name);
      }
    } else {
      var actions, w' := FramesCanStillBeRead(a, w, p, k);
      RunRemembers(a, w, actions);
      ReadNow(w, w', p, k);
    }
  }

  lemma ReadNow(w: World, w': World, p: Party, k: nat)
    requires k < |w.log| && w'.log == w.log && w.accepted <= w'.accepted && JustRead(w', p, k)
    requires NameOf(w.log[k].frame.header) !in OpenedNames(w)
    ensures ReadSince(w, w', NameOf(w.log[k].frame.header))
  {
    var last := |w'.accepted| - 1;
    assert NameOf(w'.accepted[last].frame.header) == NameOf(w.log[k].frame.header);
    forall i | 0 <= i < |w.accepted|
      ensures NameOf(w'.accepted[i].frame.header) in OpenedNames(w)
    {
      assert w.accepted[i] == w'.accepted[i];
    }
  }
}

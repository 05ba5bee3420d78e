/**
 What a stolen device gives away: exactly which message keys follow from the
 secrets a session holds, for everyone who could not follow the conversation
 before. Past keys are gone, and from the second new ratchet key on the new keys
 are out of reach again, as long as nobody seals with what was stolen meanwhile.
 Module `Recovery` is about those who do.
*/
module Secrecy {
  import opened Terms
  import opened Attacker
  import opened Schedule
  import opened SkippedStore
  import opened RatchetSpec
  import opened Conversation
  import opened History
  import opened Runs

  /** The symmetric keys in a session. */
  ghost predicate HoldsKey(s: State, key: Key) {
    || key == s.rootKey
    || (s.sending.Some? && key == s.sending.value.key)
    || (s.receiving.Some? && key == s.receiving.value.key)
    || exists i :: 0 <= i < |s.skipped| && s.skipped[i].key == key
  }

  /** `a` after reading a session's memory; the stolen ratchet key may be among
      the scalars `a` has from the start. */
  ghost function Thief(a: Attacker, s: State): Attacker {
    a.(keys := a.keys + iset key | HoldsKey(s, key))
  }

  /** The setting of every theorem here: a reachable conversation, and someone
      outside it. */
  ghost predicate Setting(a: Attacker, w: World) {
    Invariant(w) && Outsider(a, w.sk) && w.sk.Hybrid?
  }

  lemma HeldKeys(w: World, p: Party, key: Key)
    requires Invariant(w)
    ensures HoldsKey(w.Of(p), key) ==>
              var g := w.Generation(p);
              || key == RootAt(w.sk, w.keys, g)
              || (g >= 1 && key == Advance(ChainAt(w.sk, w.keys, g), w.sent[g]))
              || (g >= 2 && key == Advance(ChainAt(w.sk, w.keys, g - 1), Passed(w, p, g - 1)))
              || key.MessageOf?
  {
    assert InStep(w, p) && StoreInStep(w, p);
    if HoldsKey(w.Of(p), key) {
      forall i | 0 <= i < |w.Of(p).skipped|
        ensures w.Of(p).skipped[i].key.MessageOf?
      {
        assert EntryInStep(w, p, w.Of(p).skipped[i]);
      }
    }
  }

  lemma AdvancedIsChainKey(chain: Key, n: nat)
    requires chain.ChainOf?
    ensures Advance(chain, n).ChainOf? || Advance(chain, n).NextOf?
  {
  }

  /** Root keys before the current one are lost. */
  lemma {:induction false} PastRootsAreLost(a: Attacker, w: World, p: Party, i: nat)
    requires Setting(a, w) && i < w.Generation(p)
    ensures !Derivable(Thief(a, w.Of(p)), RootAt(w.sk, w.keys, i))
  {
    var g, root := w.Generation(p), RootAt(w.sk, w.keys, i);
    RootDepth(w.sk, w.keys, i);
    RootDepth(w.sk, w.keys, g);
    HeldKeys(w, p, root);
    if g >= 1 {
      AdvancedIsChainKey(ChainAt(w.sk, w.keys, g), w.sent[g]);
    }
    if g >= 2 {
      AdvancedIsChainKey(ChainAt(w.sk, w.keys, g - 1), Passed(w, p, g - 1));
    }
    if i == 0 {
      forall k | 0 <= k < |w.sk.material|
        ensures KnowsSymbol(Thief(a, w.Of(p)), w.sk.material[k]) == KnowsSymbol(a, w.sk.material[k])
      {
      }
    } else {
      PastRootsAreLost(a, w, p, i - 1);
    }
  }

  /** Which chain keys a session of generation `g` still leads to. */
  ghost predicate Ahead(w: World, p: Party, j: nat, n: nat)
    requires w.Shape()
  {
    var g := w.Generation(p);
    (j == g && n >= w.sent[g]) || (j == g - 1 && n >= Passed(w, p, g - 1))
  }

  lemma OnlyTheseChainKeys(w: World, p: Party, keys: seq<PrivateKey>, j: nat, n: nat)
    requires Invariant(w) && w.sk.Hybrid? && w.keys <= keys && 0 < j < |keys|
    requires HoldsKey(w.Of(p), Advance(ChainAt(w.sk, keys, j), n))
    ensures var g := w.Generation(p);
            (j == g && n == w.sent[g]) || (j == g - 1 && n == Passed(w, p, g - 1))
  {
    var g, key := w.Generation(p), Advance(ChainAt(w.sk, keys, j), n);
    ScheduleExtended(w.sk, w.keys, keys);
    AdvancedIsChainKey(ChainAt(w.sk, keys, j), n);
    HeldKeys(w, p, key);
    if g >= 1 {
      ChainPositionsAreDistinct(w.sk, keys, j, n, g, w.sent[g]);
    }
    if g >= 2 {
      ChainPositionsAreDistinct(w.sk, keys, j, n, g - 1, Passed(w, p, g - 1));
    }
  }

  /** A session holds two chain keys, at the positions its chains have reached. */
  lemma HeldChainKeys(w: World, p: Party, keys: seq<PrivateKey>, j: nat, n: nat)
    requires Invariant(w) && w.sk.Hybrid? && w.keys <= keys && 0 < j < |keys|
    ensures HoldsKey(w.Of(p), Advance(ChainAt(w.sk, keys, j), n)) <==>
            var g := w.Generation(p);
            (j == g && n == w.sent[g]) || (j == g - 1 && n == Passed(w, p, g - 1))
  {
    if HoldsKey(w.Of(p), Advance(ChainAt(w.sk, keys, j), n)) {
      OnlyTheseChainKeys(w, p, keys, j, n);
    } else {
      ScheduleExtended(w.sk, w.keys, keys);
      assert InStep(w, p);
    }
  }

  lemma {:induction false} ChainKeysExactly(a: Attacker, w: World, p: Party, j: nat, n: nat)
    requires Setting(a, w) && 0 < j <= w.Generation(p)
    ensures Derivable(Thief(a, w.Of(p)), Advance(ChainAt(w.sk, w.keys, j), n)) <==> Ahead(w, p, j, n)
  {
    var key := Advance(ChainAt(w.sk, w.keys, j), n);
    HeldChainKeys(w, p, w.keys, j, n);
    assert key !in a.keys by {
      RootDepth(w.sk, w.keys, j - 1);
      AdvancedIsRooted(w.sk, ChainAt(w.sk, w.keys, j), n);
    }
    if n == 0 {
      PastRootsAreLost(a, w, p, j - 1);
    } else {
      ChainKeysExactly(a, w, p, j, n - 1);
    }
  }

  lemma StoredKeysExactly(w: World, p: Party, j: nat, n: nat)
    requires Invariant(w) && 0 < j <= w.Generation(p)
    ensures HoldsKey(w.Of(p), KeyAt(w.sk, w.keys, j, n)) <==> Retained(w, p, (Pub(w.keys[j]), n))
  {
    var key, s, name := KeyAt(w.sk, w.keys, j, n), w.Of(p).skipped, (Pub(w.keys[j]), n);
    assert InStep(w, p) && StoreInStep(w, p);
    var g := w.Generation(p);
    AdvancedIsChainKey(ChainAt(w.sk, w.keys, g), w.sent[g]);
    if g >= 2 {
      AdvancedIsChainKey(ChainAt(w.sk, w.keys, g - 1), Passed(w, p, g - 1));
    }
    assert RootAt(w.sk, w.keys, g).RootOf?;
    forall i | 0 <= i < |s|
      ensures s[i].key == key <==> Name(s[i]) == name
    {
      assert EntryInStep(w, p, s[i]);
      MessageKeysAreDistinct(w.sk, w.keys, IndexOf(w.keys, s[i].ratchet), s[i].number, j, n);
      IndexOfKey(w.keys, j);
    }
  }

  // ---------- How deep the held keys lie ----------

  /** A session holds nothing derived after its own root key. */
  lemma HeldKeysAreShallow(w: World, p: Party, key: Key)
    requires Invariant(w) && HoldsKey(w.Of(p), key)
    ensures Depth(key) <= Depth(w.sk) + w.Generation(p)
  {
    var g, s := w.Generation(p), w.Of(p).skipped;
    assert InStep(w, p) && StoreInStep(w, p);
    RootDepth(w.sk, w.keys, g);
    if g >= 1 {
      AdvancedDepth(w.sk, w.keys, g, w.sent[g]);
    }
    if g >= 2 {
      AdvancedDepth(w.sk, w.keys, g - 1, Passed(w, p, g - 1));
    }
    forall i | 0 <= i < |s|
      ensures Depth(s[i].key) <= Depth(w.sk) + g
    {
      assert EntryInStep(w, p, s[i]);
      AdvancedDepth(w.sk, w.keys, IndexOf(w.keys, s[i].ratchet), s[i].number);
    }
  }

  lemma AdvancedDepth(sk: Key, keys: seq<PrivateKey>, j: nat, n: nat)
    requires 0 < j < |keys|
    ensures Depth(Advance(ChainAt(sk, keys, j), n)) == Depth(KeyAt(sk, keys, j, n)) == Depth(sk) + j
    ensures RootedIn(sk, ChainAt(sk, keys, j))
    ensures RootedIn(sk, Advance(ChainAt(sk, keys, j), n)) && RootedIn(sk, KeyAt(sk, keys, j, n))
  {
    RootDepth(sk, keys, j - 1);
    AdvanceKeepsDepth(ChainAt(sk, keys, j), n);
    AdvancedIsRooted(sk, ChainAt(sk, keys, j), n);
  }

  /** Keys below a session's root key are not in a thief's hands. */
  lemma DeepKeysAreNotHeld(a: Attacker, w: World, p: Party, key: Key)
    requires Setting(a, w) && RootedIn(w.sk, key) && Depth(key) > Depth(w.sk) + w.Generation(p)
    ensures key !in Thief(a, w.Of(p)).keys
  {
    if HoldsKey(w.Of(p), key) {
      HeldKeysAreShallow(w, p, key);
    }
  }

  // ---------- What follows from the stolen root key ----------

  /** From ratchet key `g` to ratchet key `j`, one of any two neighbours is known. */
  ghost predicate LinksKnown(a: Attacker, keys: seq<PrivateKey>, g: nat, j: nat)
    requires j < |keys|
  {
    forall i :: g < i <= j ==> keys[i - 1] in a.scalars || keys[i] in a.scalars
  }

  lemma LinksAreKeys(a: Attacker, keys: seq<PrivateKey>, i: nat)
    requires 0 < i < |keys|
    ensures KnowsShared(a, Link(keys, i)) <==> keys[i - 1] in a.scalars || keys[i] in a.scalars
  {
    assert keys[i - 1] == PrivateKey(keys[i - 1].point) && keys[i] == PrivateKey(keys[i].point);
  }

  /** A later root key follows from the stolen one exactly for those who know every
      link in between. */
  lemma {:induction false} RootsExactly(a: Attacker, w: World, keys: seq<PrivateKey>, p: Party, j: nat)
    requires Setting(a, w) && w.keys <= keys && w.Generation(p) <= j < |keys|
    ensures Derivable(Thief(a, w.Of(p)), RootAt(w.sk, keys, j)) <==> LinksKnown(a, keys, w.Generation(p), j)
  {
    var g := w.Generation(p);
    if j == g {
      ScheduleExtended(w.sk, w.keys, keys);
      assert InStep(w, p);
    } else {
      RootsExactly(a, w, keys, p, j - 1);
      RootFollows(a, w, keys, p, j);
      LinksAreKeys(a, keys, j);
      LinksOneMore(a, keys, g, j);
    }
  }

  lemma LinksOneMore(a: Attacker, keys: seq<PrivateKey>, g: nat, j: nat)
    requires g < j < |keys|
    ensures LinksKnown(a, keys, g, j) <==> LinksKnown(a, keys, g, j - 1) && (keys[j - 1] in a.scalars || keys[j] in a.scalars)
  {
  }

  lemma RootFollows(a: Attacker, w: World, keys: seq<PrivateKey>, p: Party, j: nat)
    requires Setting(a, w) && w.Generation(p) < j < |keys|
    ensures var thief := Thief(a, w.Of(p));
            Derivable(thief, RootAt(w.sk, keys, j)) <==>
            Derivable(thief, RootAt(w.sk, keys, j - 1)) && KnowsShared(thief, Link(keys, j))
  {
    RootDepth(w.sk, keys, j);
    DeepKeysAreNotHeld(a, w, p, RootAt(w.sk, keys, j));
  }

  /** A chain opened from such a root key, with whatever secret, follows exactly for
      those who know the secret as well. */
  lemma {:induction false} BranchesExactly(a: Attacker, w: World, keys: seq<PrivateKey>, p: Party, i: nat, shared: Shared, n: nat)
    requires Setting(a, w) && w.keys <= keys && w.Generation(p) <= i < |keys|
    ensures var chain := ChainOf(RootAt(w.sk, keys, i), shared);
            && (Derivable(Thief(a, w.Of(p)), Advance(chain, n)) <==>
                LinksKnown(a, keys, w.Generation(p), i) && KnowsShared(a, shared))
            && (Derivable(Thief(a, w.Of(p)), MessageKey(chain, n)) <==>
                LinksKnown(a, keys, w.Generation(p), i) && KnowsShared(a, shared))
  {
    var chain := ChainOf(RootAt(w.sk, keys, i), shared);
    RootDepth(w.sk, keys, i);
    AdvanceKeepsDepth(chain, n);
    AdvancedIsRooted(w.sk, chain, n);
    DeepKeysAreNotHeld(a, w, p, Advance(chain, n));
    DeepKeysAreNotHeld(a, w, p, MessageKey(chain, n));
    if n == 0 {
      RootsExactly(a, w, keys, p, i);
    } else {
      BranchesExactly(a, w, keys, p, i, shared, n - 1);
    }
  }

  /** Of all chains after the session's own, a thief follows exactly those up to
      the first link of which neither ratchet key is known. */
  lemma LaterChainsExactly(a: Attacker, w: World, keys: seq<PrivateKey>, p: Party, j: nat, n: nat)
    requires Setting(a, w) && w.keys <= keys && w.Generation(p) < j < |keys|
    ensures var known := LinksKnown(a, keys, w.Generation(p), j);
            && (Derivable(Thief(a, w.Of(p)), Advance(ChainAt(w.sk, keys, j), n)) <==> known)
            && (Derivable(Thief(a, w.Of(p)), KeyAt(w.sk, keys, j, n)) <==> known)
  {
    BranchesExactly(a, w, keys, p, j - 1, Link(keys, j), n);
    LinksAreKeys(a, keys, j);
    LinksOneMore(a, keys, w.Generation(p), j);
  }

  /** The peer's next chain follows from the stolen root key exactly for those who
      have one of its two ratchet keys, the session's own or the peer's. */
  lemma NextChainExactly(a: Attacker, w: World, keys: seq<PrivateKey>, p: Party, n: nat)
    requires Setting(a, w) && w.keys <= keys && w.Generation(p) + 1 < |keys|
    ensures var g := w.Generation(p);
            && (Derivable(Thief(a, w.Of(p)), Advance(ChainAt(w.sk, keys, g + 1), n)) <==>
                keys[g] in a.scalars || keys[g + 1] in a.scalars)
            && (Derivable(Thief(a, w.Of(p)), KeyAt(w.sk, keys, g + 1, n)) <==>
                keys[g] in a.scalars || keys[g + 1] in a.scalars)
  {
    LaterChainsExactly(a, w, keys, p, w.Generation(p) + 1, n);
  }

  /** Of all frames of all chains so far, a stolen session opens exactly those whose
      keys it retains, those its two chains have not reached, and those of the
      peer's next chain if one of that chain's ratchet keys is known. */
  lemma StolenSessionOpensExactly(a: Attacker, w: World, p: Party, j: nat, n: nat)
    requires Setting(a, w) && 0 < j < |w.keys|
    ensures var g := w.Generation(p);
            Derivable(Thief(a, w.Of(p)), KeyAt(w.sk, w.keys, j, n)) <==>
            || Retained(w, p, (Pub(w.keys[j]), n))
            || Ahead(w, p, j, n)
            || (j == g + 1 && (w.keys[g] in a.scalars || w.keys[g + 1] in a.scalars))
  {
    if j <= w.Generation(p) {
      ChainKeysExactly(a, w, p, j, n);
      StoredKeysExactly(w, p, j, n);
      ScheduleIsRooted(w.sk, w.keys, j - 1, Link(w.keys, j), n);
    } else {
      NextChainExactly(a, w, w.keys, p, n);
      IndexOfKey(w.keys, j);
      if Retained(w, p, (Pub(w.keys[j]), n)) {
        RetainedWentPast(w, p, (Pub(w.keys[j]), n));
      }
    }
  }

  /** A chain opened from the root key before the stolen one follows only if it is
      the session's own sending chain, from where that stands. */
  lemma StaleBranchExactly(a: Attacker, w: World, p: Party, shared: Shared, n: nat)
    requires Setting(a, w) && w.Generation(p) >= 1
    ensures var g := w.Generation(p);
            Derivable(Thief(a, w.Of(p)), MessageKey(ChainOf(RootAt(w.sk, w.keys, g - 1), shared), n)) <==>
            shared == Link(w.keys, g) && n >= w.sent[g]
  {
    var g := w.Generation(p);
    if shared == Link(w.keys, g) {
      StolenSessionOpensExactly(a, w, p, g, n);
      IndexOfKey(w.keys, g);
      if Retained(w, p, (Pub(w.keys[g]), n)) {
        RetainedWentPast(w, p, (Pub(w.keys[g]), n));
      }
    } else {
      OtherBranchIsOut(a, w, p, shared, n);
    }
  }

  lemma {:induction false} OtherBranchIsOut(a: Attacker, w: World, p: Party, shared: Shared, n: nat)
    requires Setting(a, w) && w.Generation(p) >= 1 && shared != Link(w.keys, w.Generation(p))
    ensures var chain := ChainOf(RootAt(w.sk, w.keys, w.Generation(p) - 1), shared);
            !Derivable(Thief(a, w.Of(p)), Advance(chain, n)) && !Derivable(Thief(a, w.Of(p)), MessageKey(chain, n))
  {
    var g := w.Generation(p);
    var chain := ChainOf(RootAt(w.sk, w.keys, g - 1), shared);
    RootDepth(w.sk, w.keys, g - 1);
    AdvancedIsRooted(w.sk, chain, n);
    OtherBranchIsNotHeld(w, p, chain, n);
    if n == 0 {
      PastRootsAreLost(a, w, p, g - 1);
    } else {
      OtherBranchIsOut(a, w, p, shared, n - 1);
    }
  }

  lemma OtherBranchIsNotHeld(w: World, p: Party, chain: Key, n: nat)
    requires Invariant(w) && w.sk.Hybrid? && w.Generation(p) >= 1 && chain.ChainOf?
    requires chain.parent == RootAt(w.sk, w.keys, w.Generation(p) - 1) && chain.shared != Link(w.keys, w.Generation(p))
    ensures !HoldsKey(w.Of(p), Advance(chain, n)) && !HoldsKey(w.Of(p), MessageKey(chain, n))
  {
    var g := w.Generation(p);
    assert InStep(w, p);
    AdvancedIsChainKey(chain, n);
    OtherChainsKey(w, g, chain, n, g, w.sent[g]);
    if g >= 2 {
      OtherChainsKey(w, g, chain, n, g - 1, Passed(w, p, g - 1));
    }
    OtherBranchIsNotStored(w, p, chain, n);
    assert RootAt(w.sk, w.keys, g).RootOf?;
  }

  lemma OtherBranchIsNotStored(w: World, p: Party, chain: Key, n: nat)
    requires LockStep(w) && w.Generation(p) >= 1 && chain.ChainOf?
    requires chain.parent == RootAt(w.sk, w.keys, w.Generation(p) - 1)
    ensures forall i :: 0 <= i < |w.Of(p).skipped| ==>
              w.Of(p).skipped[i].key.MessageOf? && w.Of(p).skipped[i].key != MessageKey(chain, n)
  {
    var g, s := w.Generation(p), w.Of(p).skipped;
    assert StoreInStep(w, p);
    forall i | 0 <= i < |s|
      ensures s[i].key.MessageOf? && s[i].key != MessageKey(chain, n)
    {
      assert EntryInStep(w, p, s[i]);
      OtherChainsKey(w, g, chain, n, IndexOf(w.keys, s[i].ratchet), s[i].number);
    }
  }

  lemma OtherChainsKey(w: World, g: nat, chain: Key, n: nat, j: nat, m: nat)
    requires 0 < j <= g < |w.keys| && chain.ChainOf? && chain.parent == RootAt(w.sk, w.keys, g - 1)
    requires j == g ==> chain.shared != Link(w.keys, g)
    ensures KeyAt(w.sk, w.keys, j, m) != MessageKey(chain, n)
    ensures Advance(ChainAt(w.sk, w.keys, j), m) != Advance(chain, n)
    ensures Advance(ChainAt(w.sk, w.keys, j), m).ChainOf? || Advance(ChainAt(w.sk, w.keys, j), m).NextOf?
  {
    OtherChain(w, g, chain, j);
    AdvanceIsInjective(chain, n, ChainAt(w.sk, w.keys, j), m);
    AdvancedIsChainKey(ChainAt(w.sk, w.keys, j), m);
  }

  lemma OtherChain(w: World, g: nat, chain: Key, j: nat)
    requires 0 < j <= g < |w.keys| && chain.ChainOf? && chain.parent == RootAt(w.sk, w.keys, g - 1)
    requires j == g ==> chain.shared != Link(w.keys, g)
    ensures ChainAt(w.sk, w.keys, j) != chain
  {
    RootDepth(w.sk, w.keys, g - 1);
    RootDepth(w.sk, w.keys, j - 1);
  }

  /** Forward secrecy: no message key a party has used, to open or to seal, can
      be computed from its session, even with every ratchet key ever drawn. */
  lemma UsedKeysAreLost(a: Attacker, w: World, p: Party, k: nat)
    requires Setting(a, w) && k < |w.log|
    requires Owner(w.log[k].chain) == p || NameOf(w.log[k].frame.header) in OpenedNames(w)
    ensures w.log[k].frame.body.Box? && !Derivable(Thief(a, w.Of(p)), w.log[k].frame.body.key)
  {
    var m := w.log[k];
    var name := NameOf(m.frame.header);
    assert Genuine(w, m);
    IndexOfKey(w.keys, m.chain);
    if Owner(m.chain) == p {
      assert Retained(w, p, name) ==> WentPast(w, p, name) by {
        if Retained(w, p, name) {
          RetainedWentPast(w, p, name);
        }
      }
    } else {
      OpenedWentPast(w, p, name);
      assert Accounted(w, p, name);
    }
    StolenSessionOpensExactly(a, w, p, m.chain, name.1);
  }

  // ---------- Healing ----------

  /** A later state of the conversation, in which nothing forged has opened. */
  ghost predicate Continues(a: Attacker, w: World, w': World) {
    Setting(a, w) && Invariant(w') && w'.sk == w.sk && w.keys <= w'.keys
  }

  /** The conversation goes on after the theft, and the next two ratchet keys, one
      of either party, are ones the thief has not seen. */
  ghost predicate GoesOn(a: Attacker, w: World, w': World, p: Party) {
    && Continues(a, w, w')
    && forall i :: w.Generation(p) < i <= w.Generation(p) + 2 && i < |w'.keys| ==> w'.keys[i] !in a.scalars
  }

  lemma {:induction false} RootedIsTransitive(origin: Key, middle: Key, key: Key)
    requires RootedIn(origin, middle) && RootedIn(middle, key)
    ensures RootedIn(origin, key) && Depth(middle) <= Depth(key)
    decreases key
  {
    if key != middle {
      match key
      case RootOf(parent, _) => RootedIsTransitive(origin, middle, parent);
      case ChainOf(parent, _) => RootedIsTransitive(origin, middle, parent);
      case NextOf(chain) => RootedIsTransitive(origin, middle, chain);
      case MessageOf(chain) => RootedIsTransitive(origin, middle, chain);
    }
  }

  /** Whoever has neither a key nor the secret it was derived with stays outside
      everything that is derived from it. */
  lemma ThiefIsOutside(a: Attacker, w: World, p: Party, origin: Key)
    requires Setting(a, w) && RootedIn(w.sk, origin) && Depth(origin) > Depth(w.sk) + w.Generation(p)
    requires origin.RootOf? || origin.ChainOf?
    requires !KnowsShared(Thief(a, w.Of(p)), origin.shared)
    ensures Outsider(Thief(a, w.Of(p)), origin)
  {
    DeepKeysAreNotHeld(a, w, p, origin);
    forall key | RootedIn(origin, key)
      ensures key !in Thief(a, w.Of(p)).keys
    {
      RootedIsTransitive(w.sk, origin, key);
      DeepKeysAreNotHeld(a, w, p, key);
    }
  }

  /** The second new ratchet key heals: to the root key and the chain it opens,
      the thief is an outsider again. */
  lemma OutsideAgain(a: Attacker, w: World, w': World, p: Party)
    requires GoesOn(a, w, w', p) && w.Generation(p) + 2 < |w'.keys|
    ensures var g := w.Generation(p);
            && Outsider(Thief(a, w.Of(p)), RootAt(w'.sk, w'.keys, g + 2))
            && Outsider(Thief(a, w.Of(p)), ChainAt(w'.sk, w'.keys, g + 2))
  {
    var g := w.Generation(p);
    RootDepth(w'.sk, w'.keys, g + 2);
    RootDepth(w'.sk, w'.keys, g + 1);
    assert !KnowsShared(Thief(a, w.Of(p)), Link(w'.keys, g + 2));
    ThiefIsOutside(a, w, p, RootAt(w'.sk, w'.keys, g + 2));
    ThiefIsOutside(a, w, p, ChainAt(w'.sk, w'.keys, g + 2));
  }

  /** Post-compromise security: from the second new ratchet key on, no root, chain
      or message key is within the thief's reach, even if all later ratchet keys are
      known. */
  lemma SessionsHeal(a: Attacker, w: World, w': World, p: Party, j: nat, n: nat)
    requires GoesOn(a, w, w', p) && w.Generation(p) + 2 <= j < |w'.keys|
    ensures !Derivable(Thief(a, w.Of(p)), RootAt(w'.sk, w'.keys, j))
    ensures !Derivable(Thief(a, w.Of(p)), Advance(ChainAt(w'.sk, w'.keys, j), n))
    ensures !Derivable(Thief(a, w.Of(p)), KeyAt(w'.sk, w'.keys, j, n))
  {
    RootsExactly(a, w, w'.keys, p, j);
    LinksEnd(a, w, w', p, j);
    LaterChainsExactly(a, w, w'.keys, p, j, n);
  }

  lemma LinksEnd(a: Attacker, w: World, w': World, p: Party, j: nat)
    requires GoesOn(a, w, w', p) && w.Generation(p) + 2 <= j < |w'.keys|
    ensures !LinksKnown(a, w'.keys, w.Generation(p), j)
  {
    var i := w.Generation(p) + 2;
    assert w'.keys[i - 1] !in a.scalars && w'.keys[i] !in a.scalars;
  }

  /** If a step opens a frame, one of the parties sealed it. */
  ghost predicate OpensOnlySealed(w: World, action: Action) {
    action.Deliver? && Decrypt(w.Of(action.to), action.frame, action.drawn).1.Ok? ==>
      exists k :: 0 <= k < |w.log| && w.log[k].frame == action.frame
  }

  /** ... and so does every step of a run. */
  ghost predicate NothingForgedOpens(w: World, actions: seq<Action>)
    decreases |actions|
  {
    actions != [] ==>
      w.Shape() && OpensOnlySealed(w, actions[0]) && NothingForgedOpens(Step(w, actions[0]), actions[1..])
  }

  lemma QuietStepContinues(a: Attacker, w: World, w': World, p: Party, action: Action)
    requires Continues(a, w, w') && Enabled(Thief(a, w.Of(p)), w', action) && OpensOnlySealed(w', action)
    ensures Continues(a, w, Step(w', action))
  {
    if action.Send? || Decrypt(w'.Of(action.to), action.frame, action.drawn).1.Ok? {
      StepKeepsInvariant(a, w', action);
      StepExtendsTheSchedule(w', action);
    }
  }

  lemma StepExtendsTheSchedule(w: World, action: Action)
    requires w.Shape()
    ensures w.keys <= Step(w, action).keys
  {
  }

  /** A run in which the thief is the network, but nothing forged opens, keeps the
      invariant. */
  lemma {:induction false} QuietRunContinues(a: Attacker, w: World, w': World, p: Party, actions: seq<Action>)
    requires Continues(a, w, w') && Admissible(Thief(a, w.Of(p)), w', actions) && NothingForgedOpens(w', actions)
    ensures Continues(a, w, Run(Thief(a, w.Of(p)), w', actions))
    decreases |actions|
  {
    if actions != [] {
      QuietStepContinues(a, w, w', p, actions[0]);
      QuietRunContinues(a, w, Step(w', actions[0]), p, actions[1..]);
    }
  }

  lemma {:induction false} MoreKeysDeriveMore(a: Attacker, b: Attacker, key: Key)
    requires a.keys <= b.keys && a.scalars == b.scalars && a.kemPairs == b.kemPairs && Derivable(a, key)
    ensures Derivable(b, key)
    decreases key
  {
    if key !in b.keys {
      match key
      case Hybrid(material, _) =>
        assert forall i :: 0 <= i < |material| ==> KnowsSymbol(b, material[i]) == KnowsSymbol(a, material[i]);
      case RootOf(parent, _) => MoreKeysDeriveMore(a, b, parent);
      case ChainOf(parent, _) => MoreKeysDeriveMore(a, b, parent);
      case NextOf(chain) => MoreKeysDeriveMore(a, b, chain);
      case MessageOf(chain) => MoreKeysDeriveMore(a, b, chain);
    }
  }

  /** Every run of the outsider of before the theft is one of these. */
  lemma {:induction false} OutsidersForgeNothing(a: Attacker, w: World, w': World, p: Party, actions: seq<Action>)
    requires Continues(a, w, w') && Admissible(a, w', actions)
    ensures Admissible(Thief(a, w.Of(p)), w', actions) && NothingForgedOpens(w', actions)
    ensures Run(Thief(a, w.Of(p)), w', actions) == Run(a, w', actions)
    decreases |actions|
  {
    if actions != [] {
      var action := actions[0];
      if action.Deliver? {
        if action.frame.body.Box? && Derivable(a, action.frame.body.key) {
          MoreKeysDeriveMore(a, Thief(a, w.Of(p)), action.frame.body.key);
        }
        if Decrypt(w'.Of(action.to), action.frame, action.drawn).1.Ok? {
          var k, _ := AcceptedIsGenuine(a, w', action.to, action.frame, action.drawn);
        }
      }
      assert OpensOnlySealed(w', action) && Enabled(Thief(a, w.Of(p)), w', action);
      QuietStepContinues(a, w, w', p, action);
      OutsidersForgeNothing(a, w, Step(w', action), p, actions[1..]);
    }
  }

  /** Healing, over every run after the theft in which nothing forged opens, whatever
      the thief delivers: of the chains opened since, the thief follows exactly those
      up to the first link of which neither ratchet key is known. */
  lemma EveryRunHeals(a: Attacker, w: World, actions: seq<Action>, p: Party, j: nat, n: nat)
    requires Setting(a, w) && Admissible(Thief(a, w.Of(p)), w, actions) && NothingForgedOpens(w, actions)
    requires w.Generation(p) < j < |Run(Thief(a, w.Of(p)), w, actions).keys|
    ensures var w' := Run(Thief(a, w.Of(p)), w, actions);
            Derivable(Thief(a, w.Of(p)), KeyAt(w.sk, w'.keys, j, n)) <==> LinksKnown(a, w'.keys, w.Generation(p), j)
  {
    QuietRunContinues(a, w, w, p, actions);
    LaterChainsExactly(a, w, Run(Thief(a, w.Of(p)), w, actions).keys, p, j, n);
  }

  /** ... and not before: the peer's next chain follows from the stolen root key
      exactly when the session's ratchet key was stolen with it. */
  lemma HealingTakesARoundTrip(a: Attacker, w: World, w': World, p: Party, n: nat)
    requires GoesOn(a, w, w', p) && w.Generation(p) + 1 < |w'.keys|
    ensures Derivable(Thief(a, w.Of(p)), KeyAt(w'.sk, w'.keys, w.Generation(p) + 1, n)) <==>
            w.keys[w.Generation(p)] in a.scalars
  {
    NextChainExactly(a, w, w'.keys, p, n);
  }
}

/**
 What eviction costs: a key lost to the total cap is older than every key retained,
 and a key lost to its chain's cap older than the 1 000 retained of that chain.
*/
module Eviction {
  import opened Results
  import opened Terms
  import opened Attacker
  import opened Schedule
  import opened SkippedStore
  import opened RatchetSpec
  import opened Conversation
  import opened LockStepProof
  import opened History
  import opened Runs
  import Short = ShortConversations

  /** Why a key may be missing from `t`: it is older than everything there, or its
      chain is full there and it is older than that chain's keys. */
  ghost predicate Outlived(keys: seq<PrivateKey>, e: Skipped, t: seq<Skipped>) {
    || (forall f :: f in t ==> Before(keys, e, f))
    || (|Of(t, e.ratchet)| == 1000 && forall f :: f in t && f.ratchet == e.ratchet ==> Before(keys, e, f))
  }

  ghost predicate LosesTheOldest(keys: seq<PrivateKey>, all: seq<Skipped>, t: seq<Skipped>) {
    forall e :: e in all && e !in t ==> Outlived(keys, e, t)
  }

  // ---------- One extension ----------

  lemma {:induction false} OfHolds(s: seq<Skipped>, ratchet: PublicKey, e: Skipped)
    ensures e in Of(s, ratchet) <==> e in s && e.ratchet == ratchet
  {
    if s != [] {
      OfHolds(s[1..], ratchet, e);
      assert s == [s[0]] + s[1..];
    }
  }

  lemma {:induction false} OfOthers(s: seq<Skipped>, ratchet: PublicKey, e: Skipped)
    ensures e in Others(s, ratchet) <==> e in s && e.ratchet != ratchet
  {
    if s != [] {
      OfOthers(s[1..], ratchet, e);
      assert s == [s[0]] + s[1..];
    }
  }

  lemma PrefixIsBefore(keys: seq<PrivateKey>, s: seq<Skipped>, from: nat, e: Skipped)
    requires Sorted(keys, s) && from <= |s| && e in s && e !in s[from..]
    ensures forall f :: f in s[from..] ==> Before(keys, e, f)
  {
    assert s == s[..from] + s[from..];
    var i :| 0 <= i < from && s[..from][i] == e;
    assert e == s[i];
    forall f | f in s[from..]
      ensures Before(keys, e, f)
    {
      var k :| 0 <= k < |s[from..]| && s[from..][k] == f;
      assert Before(keys, s[i], s[from + k]);
    }
  }

  /** The chain's cap loses the oldest of that chain, when it is full. */
  lemma ChainCapLosesTheOldest(keys: seq<PrivateKey>, s: seq<Skipped>, ratchet: PublicKey, e: Skipped)
    requires Sorted(keys, s) && e in s && e !in CappedChain(s, ratchet)
    ensures e.ratchet == ratchet && |Of(CappedChain(s, ratchet), ratchet)| == 1000
    ensures forall f :: f in CappedChain(s, ratchet) && f.ratchet == ratchet ==> Before(keys, e, f)
  {
    var capped, chain := CappedChain(s, ratchet), Of(s, ratchet);
    ChainEvictionKeepsTheNewest(s, ratchet);
    OfOthers(s, ratchet, e);
    OfOthers(capped, ratchet, e);
    OfHolds(s, ratchet, e);
    OfHolds(capped, ratchet, e);
    OfIsSubsequence(s, ratchet);
    SubsequenceStaysSorted(keys, chain, s);
    PrefixIsBefore(keys, chain, Excess(|chain|, MAX_SKIP_PER_CHAIN), e);
    forall f | f in capped && f.ratchet == ratchet
      ensures Before(keys, e, f)
    {
      OfHolds(capped, ratchet, f);
    }
  }

  /** The total cap loses the oldest of all, and empties no full chain unless that
      chain is now the oldest. */
  lemma ExtensionLosesTheOldest(keys: seq<PrivateKey>, s: seq<Skipped>, ratchet: PublicKey, added: seq<Skipped>)
    requires Sorted(keys, s + added)
    ensures LosesTheOldest(keys, s + added, Extended(s, ratchet, added))
  {
    var all, t := s + added, Extended(s, ratchet, added);
    forall e | e in all && e !in t
      ensures Outlived(keys, e, t)
    {
      LostEntry(keys, all, ratchet, e);
    }
  }

  lemma LostEntry(keys: seq<PrivateKey>, all: seq<Skipped>, ratchet: PublicKey, e: Skipped)
    requires Sorted(keys, all) && e in all && e !in Newest(CappedChain(all, ratchet), MAX_SKIPPED_TOTAL)
    ensures Outlived(keys, e, Newest(CappedChain(all, ratchet), MAX_SKIPPED_TOTAL))
  {
    var capped := CappedChain(all, ratchet);
    var from := Excess(|capped|, MAX_SKIPPED_TOTAL);
    DropOldestIsSubsequence(all, ratchet, Excess(|Of(all, ratchet)|, MAX_SKIP_PER_CHAIN));
    SubsequenceStaysSorted(keys, capped, all);
    if e in capped {
      PrefixIsBefore(keys, capped, from, e);
    } else {
      ChainCapLosesTheOldest(keys, all, ratchet, e);
      CutOrWhole(keys, capped, from, ratchet, e);
    }
  }

  /** Cutting the front of a store either cuts a key of a chain, or leaves it whole. */
  lemma CutOrWhole(keys: seq<PrivateKey>, s: seq<Skipped>, from: nat, ratchet: PublicKey, e: Skipped)
    requires Sorted(keys, s) && from <= |s| && e.ratchet == ratchet && |Of(s, ratchet)| == 1000
    requires forall f :: f in s && f.ratchet == ratchet ==> Before(keys, e, f)
    ensures Outlived(keys, e, s[from..])
  {
    OfConcat(s[..from], s[from..], ratchet);
    assert s[..from] + s[from..] == s;
    if Of(s[..from], ratchet) != [] {
      var c := Of(s[..from], ratchet)[0];
      OfHolds(s[..from], ratchet, c);
      var i :| 0 <= i < from && s[..from][i] == c;
      assert c == s[i];
      forall f | f in s[from..]
        ensures Before(keys, e, f)
      {
        var k :| 0 <= k < |s[from..]| && s[from..][k] == f;
        assert Before(keys, s[i], s[from + k]);
      }
    }
  }

  // ---------- Two extensions in a row ----------

  lemma BeforeIsTransitive(keys: seq<PrivateKey>, a: Skipped, b: Skipped, c: Skipped)
    requires Before(keys, a, b) && Before(keys, b, c)
    ensures Before(keys, a, c)
  {
  }

  /** Everything of `newer` is of another chain and newer than everything of `older`. */
  ghost predicate Newer(keys: seq<PrivateKey>, older: seq<Skipped>, newer: seq<Skipped>) {
    forall e, f :: e in older && f in newer ==> Before(keys, e, f) && e.ratchet != f.ratchet
  }

  /** What the first extension lost has been outlived after the second. */
  lemma StillOutlived(keys: seq<PrivateKey>, stored: seq<Skipped>, added: seq<Skipped>, t: seq<Skipped>, e: Skipped)
    requires Outlived(keys, e, stored) && Sorted(keys, stored + added) && Subsequence(t, stored + added) && WithinCaps(t)
    requires LosesTheOldest(keys, stored + added, t)
    requires forall f :: f in added ==> Before(keys, e, f) && e.ratchet != f.ratchet
    ensures Outlived(keys, e, t)
  {
    SubsequenceElements(t, stored + added);
    if forall f :: f in stored ==> Before(keys, e, f) {
      assert forall f :: f in t ==> Before(keys, e, f);
    } else if c :| c in stored && c.ratchet == e.ratchet && c !in t {
      assert c in stored + added;
      assert Outlived(keys, c, t);
      OutlivedByMore(keys, e, c, t, stored, added);
    } else {
      WholeChainStays(keys, stored, added, t, e.ratchet);
    }
  }

  lemma OutlivedByMore(keys: seq<PrivateKey>, e: Skipped, c: Skipped, t: seq<Skipped>, stored: seq<Skipped>, added: seq<Skipped>)
    requires Outlived(keys, c, t) && Before(keys, e, c) && e.ratchet == c.ratchet
    ensures Outlived(keys, e, t)
  {
    forall f | f in t && Before(keys, c, f)
      ensures Before(keys, e, f)
    {
      BeforeIsTransitive(keys, e, c, f);
    }
  }

  /** A full chain of which no key is lost stays full. */
  lemma WholeChainStays(keys: seq<PrivateKey>, stored: seq<Skipped>, added: seq<Skipped>, t: seq<Skipped>, ratchet: PublicKey)
    requires Sorted(keys, stored + added) && Subsequence(t, stored + added) && WithinCaps(t)
    requires |Of(stored, ratchet)| == 1000 && forall c :: c in stored && c.ratchet == ratchet ==> c in t
    ensures |Of(t, ratchet)| == 1000
  {
    SubsequenceStaysSorted(keys, t, stored + added);
    Short.SortedChain(keys, t, ratchet);
    FrontIsSorted(keys, stored, added);
    Short.SortedChain(keys, stored, ratchet);
    Short.AsManyNames(keys, Of(t, ratchet));
    Short.AsManyNames(keys, Of(stored, ratchet));
    forall name | name in Names(Of(stored, ratchet))
      ensures name in Names(Of(t, ratchet))
    {
      var i :| 0 <= i < |Of(stored, ratchet)| && Name(Of(stored, ratchet)[i]) == name;
      OfHolds(stored, ratchet, Of(stored, ratchet)[i]);
      OfHolds(t, ratchet, Of(stored, ratchet)[i]);
    }
    Short.SubsetIsSmaller(Names(Of(stored, ratchet)), Names(Of(t, ratchet)));
  }

  lemma FrontIsSorted(keys: seq<PrivateKey>, s: seq<Skipped>, added: seq<Skipped>)
    requires Sorted(keys, s + added)
    ensures Sorted(keys, s)
  {
    forall i, k | 0 <= i < k < |s|
      ensures Before(keys, s[i], s[k])
    {
      assert Before(keys, (s + added)[i], (s + added)[k]);
    }
  }

  lemma TwoExtensions(keys: seq<PrivateKey>, all: seq<Skipped>, stored: seq<Skipped>, added: seq<Skipped>, t: seq<Skipped>)
    requires LosesTheOldest(keys, all, stored) && LosesTheOldest(keys, stored + added, t) && Newer(keys, all, added)
    requires Sorted(keys, stored + added) && Subsequence(t, stored + added) && WithinCaps(t)
    ensures LosesTheOldest(keys, all + added, t)
  {
    forall e | e in all + added && e !in t
      ensures Outlived(keys, e, t)
    {
      if e in all && e !in stored {
        StillOutlived(keys, stored, added, t, e);
      } else {
        assert e in stored + added;
      }
    }
  }

  // ---------- Deliveries ----------

  /** A store that holds a frame's name holds its key. */
  lemma NamedEntry(w: World, p: Party, s: seq<Skipped>, e: Skipped)
    requires w.Shape() && EntryInStep(w, p, e) && Name(e) in Names(s)
    requires forall i :: 0 <= i < |s| ==> EntryInStep(w, p, s[i])
    ensures e in s
  {
    var i :| 0 <= i < |s| && Name(s[i]) == Name(e);
    assert EntryInStep(w, p, s[i]);
    assert s[i] == e;
  }

  /** `t` is what is left of a store in step, `all`, whose entries have these names. */
  ghost predicate LeftOf(w: World, p: Party, all: seq<Skipped>, names: set<FrameName>, t: seq<Skipped>)
    requires w.Shape()
  {
    && (forall i :: 0 <= i < |all| ==> EntryInStep(w, p, all[i]))
    && Names(all) == names && LosesTheOldest(w.keys, all, t)
  }

  lemma NamedLosses(w: World, p: Party, all: seq<Skipped>, names: set<FrameName>, t: seq<Skipped>, e: Skipped)
    requires w.Shape() && LeftOf(w, p, all, names, t)
    requires EntryInStep(w, p, e) && Name(e) in names && Name(e) !in Names(t)
    ensures Outlived(w.keys, e, t)
  {
    NamedEntry(w, p, all, e);
    forall i | 0 <= i < |t|
      ensures Name(t[i]) in Names(t)
    {
    }
  }

  lemma CurrentLosses(w: World, w': World, p: Party, header: RatchetHeader) returns (all: seq<Skipped>)
    requires AcceptsInChain(w, w', p, header) && MovesOn(w, w', p)
    requires FirstMatch(w.Of(p).skipped, NameOf(header)) == |w.Of(p).skipped|
    ensures LeftOf(w', p, all, Names(w.Of(p).skipped) + PassedOver(w.Of(p), header), w'.Of(p).skipped)
  {
    var s, j := w.Of(p), w.Generation(p) - 1;
    CurrentInPlace(w, w', p, header);
    all := ExtendedLosses(w', p, s.skipped, j, s.receiving.value, header.messageNumber);
    Short.CurrentPassedOver(s, header);
  }

  /** One extension of a store in step. */
  lemma ExtendedLosses(w: World, p: Party, s: seq<Skipped>, j: nat, chain: Chain, until: U32) returns (all: seq<Skipped>)
    requires w.Shape() && Holds(w, p, s) && 0 < j < w.Generation(p) && Owner(j) == p.Peer()
    requires Below(w.keys, s, j, chain.next)
    requires chain.key == Advance(ChainAt(w.sk, w.keys, j), chain.next) && until <= Passed(w, p, j)
    ensures all == s + Labelled(Pub(w.keys[j]), SkippedBetween(chain, until))
    ensures Holds(w, p, all)
    ensures LeftOf(w, p, all, Names(s) + set n | chain.next <= n < until :: (Pub(w.keys[j]), n),
                   Extended(s, Pub(w.keys[j]), Labelled(Pub(w.keys[j]), SkippedBetween(chain, until))))
  {
    var r := Pub(w.keys[j]);
    var added := Labelled(r, SkippedBetween(chain, until));
    all := s + added;
    var t := ExtendedHolds(w, p, s, j, chain, until);
    ExtensionLosesTheOldest(w.keys, s, r, added);
    Short.NamesOfAppended(s, r, chain, until);
  }

  /** The first of the two extensions of a ratchet step. */
  lemma PreviousLosses(w: World, w': World, p: Party, previousChainLen: U32) returns (all: seq<Skipped>, stored: seq<Skipped>)
    requires GainsKey(w, w', p) && MovesOn(w, w', p) && w'.Generation(p) == w.Generation(p) + 2
    requires previousChainLen == PreviousLen(w.sent, w.Generation(p) + 1)
    ensures stored == StoredFromPrevious(w.Of(p), previousChainLen)
    ensures LeftOf(w', p, all, Names(w.Of(p).skipped) + LeftInPrevious(w.Of(p), previousChainLen), stored)
    ensures Below(w'.keys, all, w.Generation(p) + 1, 0)
    ensures Holds(w', p, stored) && Below(w'.keys, stored, w.Generation(p) + 1, 0)
  {
    stored := PreviousStored(w, w', p, previousChainLen);
    if w.Generation(p) >= 2 {
      PreviousInPlace(w, w', p);
      all := LeftLosses(w', p, w.Of(p), w.Generation(p) - 1, previousChainLen);
    } else {
      Short.NothingToRead(w, p);
      all := w.Of(p).skipped;
    }
  }

  lemma LeftLosses(w: World, p: Party, before: State, j: nat, previousChainLen: U32) returns (all: seq<Skipped>)
    requires w.Shape() && 0 < j < w.Generation(p) && Owner(j) == p.Peer() && before.remoteRatchet == Some(Pub(w.keys[j]))
    requires before.receiving.Some? && Holds(w, p, before.skipped)
    requires Below(w.keys, before.skipped, j, before.receiving.value.next)
    requires before.receiving.value.key == Advance(ChainAt(w.sk, w.keys, j), before.receiving.value.next)
    requires previousChainLen <= Passed(w, p, j)
    ensures LeftOf(w, p, all, Names(before.skipped) + LeftInPrevious(before, previousChainLen),
                   StoredFromPrevious(before, previousChainLen))
    ensures Below(w.keys, all, j + 2, 0)
  {
    all := ExtendedLosses(w, p, before.skipped, j, before.receiving.value, previousChainLen);
    AppendedIsBelow(w.keys, before.skipped, j, before.receiving.value, previousChainLen);
  }

  lemma AppendedIsBelow(keys: seq<PrivateKey>, s: seq<Skipped>, j: nat, chain: Chain, until: U32)
    requires Distinct(keys) && j < |keys| && Below(keys, s, j, chain.next)
    ensures Below(keys, s + Labelled(Pub(keys[j]), SkippedBetween(chain, until)), j + 2, 0)
  {
    IndexOfKey(keys, j);
  }

  lemma NextLosses(w: World, w': World, p: Party, header: RatchetHeader) returns (all: seq<Skipped>)
    requires AcceptsNext(w, w', p, header) && MovesOn(w, w', p) && InStep(w', p) && OpensNewChain(w.Of(p), header)
    requires w'.Generation(p) == w.Generation(p) + 2 && WithinCaps(w'.Of(p).skipped)
    ensures LeftOf(w', p, all, Names(w.Of(p).skipped) + PassedOver(w.Of(p), header), w'.Of(p).skipped)
  {
    var g := w.Generation(p);
    var before, stored := PreviousLosses(w, w', p, header.previousChainLen);
    NextInPlace(w, w', p, header, stored);
    all := SecondLosses(w', p, before, stored, Names(w.Of(p).skipped) + LeftInPrevious(w.Of(p), header.previousChainLen),
                        g + 1, header.messageNumber);
    NextPassedOver(w.Of(p), header);
  }

  /** Where the new chain stands once its first frame is accepted. */
  lemma NextInPlace(w: World, w': World, p: Party, header: RatchetHeader, stored: seq<Skipped>)
    requires AcceptsNext(w, w', p, header) && w'.Shape() && w'.Generation(p) == w.Generation(p) + 2
    requires stored == StoredFromPrevious(w.Of(p), header.previousChainLen)
    ensures var j := w.Generation(p) + 1;
            && j < |w'.keys| && header.ratchet == Pub(w'.keys[j]) && Owner(j) == p.Peer()
            && header.messageNumber <= Passed(w', p, j)
            && w'.Of(p).skipped == Extended(stored, Pub(w'.keys[j]), Labelled(Pub(w'.keys[j]),
                                              SkippedBetween(Chain(ChainAt(w'.sk, w'.keys, j), 0), header.messageNumber)))
  {
    NextChainStored(w, w', p, header, stored);
    PassedAfter(w, w', p, header);
  }

  lemma NextPassedOver(s: State, header: RatchetHeader)
    requires OpensNewChain(s, header)
    ensures PassedOver(s, header) ==
            LeftInPrevious(s, header.previousChainLen) + set n | 0 <= n < header.messageNumber :: (header.ratchet, n)
  {
  }

  /** The second extension, of what the first one left. */
  lemma SecondLosses(w: World, p: Party, before: seq<Skipped>, stored: seq<Skipped>, names: set<FrameName>, j: nat, until: U32)
    returns (all: seq<Skipped>)
    requires w.Shape() && LeftOf(w, p, before, names, stored) && Below(w.keys, before, j, 0)
    requires Holds(w, p, stored) && Below(w.keys, stored, j, 0)
    requires 0 < j < w.Generation(p) && Owner(j) == p.Peer() && until <= Passed(w, p, j)
    requires w.Of(p).skipped == Extended(stored, Pub(w.keys[j]),
                                         Labelled(Pub(w.keys[j]), SkippedBetween(Chain(ChainAt(w.sk, w.keys, j), 0), until)))
    requires WithinCaps(w.Of(p).skipped)
    ensures LeftOf(w, p, all, names + set n | 0 <= n < until :: (Pub(w.keys[j]), n), w.Of(p).skipped)
  {
    var r, chain := Pub(w.keys[j]), Chain(ChainAt(w.sk, w.keys, j), 0);
    var added, t := Labelled(r, SkippedBetween(chain, until)), w.Of(p).skipped;
    var second := ExtendedLosses(w, p, stored, j, chain, until);
    ExtendedIsSubsequence(stored, r, added);
    AddedIsNewer(w.keys, before, j, chain, until);
    TwoExtensions(w.keys, before, stored, added, t);
    Short.NamesOfAppended(before, r, chain, until);
    all := before + added;
    forall i | 0 <= i < |all|
      ensures EntryInStep(w, p, all[i])
    {
      assert i >= |before| ==> all[i] == second[|stored| + i - |before|];
    }
  }

  lemma AddedIsNewer(keys: seq<PrivateKey>, before: seq<Skipped>, j: nat, chain: Chain, until: U32)
    requires Distinct(keys) && j < |keys| && Below(keys, before, j, 0)
    ensures Newer(keys, before, Labelled(Pub(keys[j]), SkippedBetween(chain, until)))
  {
    var added := Labelled(Pub(keys[j]), SkippedBetween(chain, until));
    IndexOfKey(keys, j);
    forall e, f | e in before && f in added
      ensures Before(keys, e, f) && e.ratchet != f.ratchet
    {
      var i :| 0 <= i < |before| && before[i] == e;
      var k :| 0 <= k < |added| && added[k] == f;
    }
  }

  /** A key of the accepting party that was stored before or passed over now, is not
      the accepted frame's, and is gone. */
  ghost predicate Lost(w: World, w': World, p: Party, header: RatchetHeader, e: Skipped)
    requires w.Shape() && w'.Shape()
  {
    && EntryInStep(w', p, e) && Name(e) in Names(w.Of(p).skipped) + PassedOver(w.Of(p), header)
    && Name(e) !in Names(w'.Of(p).skipped) && Name(e) != NameOf(header)
  }

  /** Every reachable delivery: a key that a frame's acceptance loses, stored before or
      passed over now, is older than every key retained, or its chain keeps 1 000
      keys and it is older than these. */
  lemma DeliveriesLoseTheOldest(a: Attacker, w: World, p: Party, frame: SealedFrame, drawn: Result<PrivateKey, CryptoError>,
                                e: Skipped)
    requires Invariant(w) && Outsider(a, w.sk) && Enabled(a, w, Deliver(p, frame, drawn))
    requires Decrypt(w.Of(p), frame, drawn).1.Ok?
    ensures var w' := Step(w, Deliver(p, frame, drawn));
            w'.Shape() && (Lost(w, w', p, frame.header, e) ==> Outlived(w'.keys, e, w'.Of(p).skipped))
  {
    var w', m, reading := Accepting(a, w, p, frame, drawn);
    if Lost(w, w', p, frame.header, e) {
      ReadingLosesTheOldest(w, w', p, m, reading, e);
    }
  }

  lemma Accepting(a: Attacker, w: World, p: Party, frame: SealedFrame, drawn: Result<PrivateKey, CryptoError>)
    returns (w': World, m: Sent, reading: Reading)
    requires Invariant(w) && Outsider(a, w.sk) && Enabled(a, w, Deliver(p, frame, drawn))
    requires Decrypt(w.Of(p), frame, drawn).1.Ok?
    ensures w' == Step(w, Deliver(p, frame, drawn)) && MovesOn(w, w', p) && InStep(w', p)
    ensures WithinCaps(w'.Of(p).skipped)
    ensures m.frame == frame && Reads(w, p, frame, m.chain, reading)
    ensures reading.FromStore? ==> w'.Of(p).skipped == Without(w.Of(p).skipped, reading.index)
    ensures reading.InCurrentChain? ==> AcceptsInChain(w, w', p, frame.header)
    ensures reading.InNextChain? ==> AcceptsNext(w, w', p, frame.header)
  {
    w', m, reading := ReadingShape(a, w, p, frame, drawn);
    AcceptingKeeps(a, w, p, frame, drawn);
    AcceptingStaysCapped(w, p, frame, drawn);
  }

  lemma AcceptingKeeps(a: Attacker, w: World, p: Party, frame: SealedFrame, drawn: Result<PrivateKey, CryptoError>)
    requires LockStep(w) && Outsider(a, w.sk) && Enabled(a, w, Deliver(p, frame, drawn))
    requires Decrypt(w.Of(p), frame, drawn).1.Ok?
    ensures MovesOn(w, Step(w, Deliver(p, frame, drawn)), p) && InStep(Step(w, Deliver(p, frame, drawn)), p)
  {
    var _, _, _ := AcceptKeeps(a, w, p, frame, drawn);
  }

  lemma AcceptingStaysCapped(w: World, p: Party, frame: SealedFrame, drawn: Result<PrivateKey, CryptoError>)
    requires BothBounded(w)
    ensures WithinCaps(Decrypt(w.Of(p), frame, drawn).0.skipped)
  {
    assert Bounded(w.Of(p));
    DecryptKeepsBounds(w.Of(p), frame, drawn);
  }

  lemma ReadingLosesTheOldest(w: World, w': World, p: Party, m: Sent, reading: Reading, e: Skipped)
    requires LockStep(w) && MovesOn(w, w', p) && InStep(w', p) && WithinCaps(w'.Of(p).skipped)
    requires Reads(w, p, m.frame, m.chain, reading)
    requires reading.FromStore? ==> w'.Of(p).skipped == Without(w.Of(p).skipped, reading.index)
    requires reading.InCurrentChain? ==> AcceptsInChain(w, w', p, m.frame.header)
    requires reading.InNextChain? ==> AcceptsNext(w, w', p, m.frame.header)
    requires Lost(w, w', p, m.frame.header, e)
    ensures Outlived(w'.keys, e, w'.Of(p).skipped)
  {
    var names := Names(w.Of(p).skipped) + PassedOver(w.Of(p), m.frame.header);
    match reading
    case FromStore(index) => Short.StoredLosesNothing(w, p, index);
    case InCurrentChain =>
      var all := CurrentLosses(w, w', p, m.frame.header);
      NamedLosses(w', p, all, names, w'.Of(p).skipped, e);
    case InNextChain =>
      NextChainGeneration(w, w', p);
      var all := NextLosses(w, w', p, m.frame.header);
      NamedLosses(w', p, all, names, w'.Of(p).skipped, e);
  }
}

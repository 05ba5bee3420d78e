/**
 The store of message keys whose frames have not arrived: a deque, oldest
 first, bounded per ratchet key and in total.
*/
module SkippedStore {
  import opened Results
  import opened Terms

  const MAX_SKIP_PER_CHAIN := 1000
  const MAX_SKIPPED_TOTAL := 10_000

  datatype Skipped = Skipped(ratchet: PublicKey, number: U32, key: Key)

  /** A frame is named by its chain's ratchet key and its number. */
  type FrameName = (PublicKey, nat)

  /** The frame a stored key belongs to. */
  function Name(entry: Skipped): FrameName {
    (entry.ratchet, entry.number)
  }

  function Names(s: seq<Skipped>): set<FrameName> {
    set i | 0 <= i < |s| :: Name(s[i])
  }

  function NameOf(header: RatchetHeader): FrameName {
    (header.ratchet, header.messageNumber)
  }

  /** The index of the oldest entry of the named frame, or `|s|`. */
  function FirstMatch(s: seq<Skipped>, name: FrameName): (index: nat)
    ensures index <= |s|
    ensures index < |s| ==> Name(s[index]) == name
    ensures forall i :: 0 <= i < index ==> Name(s[i]) != name
  {
    if s == [] || Name(s[0]) == name then 0 else 1 + FirstMatch(s[1..], name)
  }

  /** The entries of one chain, in order. */
  function Of(s: seq<Skipped>, ratchet: PublicKey): seq<Skipped> {
    if s == [] then []
    else if s[0].ratchet == ratchet then [s[0]] + Of(s[1..], ratchet)
    else Of(s[1..], ratchet)
  }

  /** The entries of every other chain, in order. */
  function Others(s: seq<Skipped>, ratchet: PublicKey): seq<Skipped> {
    if s == [] then []
    else if s[0].ratchet != ratchet then [s[0]] + Others(s[1..], ratchet)
    else Others(s[1..], ratchet)
  }

  /** `s` without the first `excess` entries of one chain. */
  function DropOldest(s: seq<Skipped>, ratchet: PublicKey, excess: nat): seq<Skipped> {
    if s == [] then []
    else if excess > 0 && s[0].ratchet == ratchet then DropOldest(s[1..], ratchet, excess - 1)
    else [s[0]] + DropOldest(s[1..], ratchet, excess)
  }

  function Excess(count: nat, limit: nat): nat {
    if count > limit then count - limit else 0
  }

  /** The last `limit` elements. */
  function Newest<T>(s: seq<T>, limit: nat): seq<T> {
    s[Excess(|s|, limit)..]
  }

  /** `s` with only the newest 1 000 entries of one chain. */
  function CappedChain(s: seq<Skipped>, ratchet: PublicKey): seq<Skipped> {
    DropOldest(s, ratchet, Excess(|Of(s, ratchet)|, MAX_SKIP_PER_CHAIN))
  }

  /** The store after `added`, keys of the chain of `ratchet`, are appended. */
  function Extended(s: seq<Skipped>, ratchet: PublicKey, added: seq<Skipped>): seq<Skipped> {
    Newest(CappedChain(s + added, ratchet), MAX_SKIPPED_TOTAL)
  }

  function Without<T>(s: seq<T>, index: nat): seq<T>
    requires index < |s|
  {
    s[..index] + s[index + 1..]
  }

  ghost predicate WithinCaps(s: seq<Skipped>) {
    && |s| <= 10_000
    && forall ratchet :: |Of(s, ratchet)| <= 1000
  }

  /** `t` is `s` with some entries left out. */
  ghost predicate Subsequence<T>(t: seq<T>, s: seq<T>)
    decreases |s|
  {
    if s == [] then t == []
    else Subsequence(t, s[1..]) || (t != [] && t[0] == s[0] && Subsequence(t[1..], s[1..]))
  }

  // ---------- What eviction keeps ----------

  lemma {:induction false} OfConcat(s: seq<Skipped>, t: seq<Skipped>, ratchet: PublicKey)
    ensures Of(s + t, ratchet) == Of(s, ratchet) + Of(t, ratchet)
    ensures Others(s + t, ratchet) == Others(s, ratchet) + Others(t, ratchet)
  {
    if s == [] {
      assert s + t == t;
    } else {
      assert (s + t)[1..] == s[1..] + t;
      OfConcat(s[1..], t, ratchet);
    }
  }

  lemma {:induction false} DropOldestOfChain(s: seq<Skipped>, ratchet: PublicKey, excess: nat)
    requires excess <= |Of(s, ratchet)|
    ensures Of(DropOldest(s, ratchet, excess), ratchet) == Of(s, ratchet)[excess..]
    ensures Others(DropOldest(s, ratchet, excess), ratchet) == Others(s, ratchet)
  {
    if s != [] {
      if excess > 0 && s[0].ratchet == ratchet {
        DropOldestOfChain(s[1..], ratchet, excess - 1);
      } else {
        assert s[0].ratchet == ratchet || excess <= |Of(s[1..], ratchet)|;
        DropOldestOfChain(s[1..], ratchet, excess);
        var rest := DropOldest(s[1..], ratchet, excess);
        assert ([s[0]] + rest)[1..] == rest;
      }
    }
  }

  lemma {:induction false} OthersHoldEveryOtherChain(s: seq<Skipped>, ratchet: PublicKey, other: PublicKey)
    requires ratchet != other
    ensures Of(s, other) == Of(Others(s, ratchet), other)
  {
    if s != [] {
      OthersHoldEveryOtherChain(s[1..], ratchet, other);
      var rest := Others(s[1..], ratchet);
      assert ([s[0]] + rest)[1..] == rest;
    }
  }

  /** Per-chain eviction keeps exactly the newest 1 000 keys of the chain, and
      every key of every other chain, in their order. */
  lemma ChainEvictionKeepsTheNewest(s: seq<Skipped>, ratchet: PublicKey)
    ensures |Of(CappedChain(s, ratchet), ratchet)| == if |Of(s, ratchet)| <= 1000 then |Of(s, ratchet)| else 1000
    ensures Of(CappedChain(s, ratchet), ratchet) == Newest(Of(s, ratchet), MAX_SKIP_PER_CHAIN)
    ensures Others(CappedChain(s, ratchet), ratchet) == Others(s, ratchet)
    ensures forall other :: other != ratchet ==> Of(CappedChain(s, ratchet), other) == Of(s, other)
  {
    DropOldestOfChain(s, ratchet, Excess(|Of(s, ratchet)|, MAX_SKIP_PER_CHAIN));
    forall other | other != ratchet
      ensures Of(CappedChain(s, ratchet), other) == Of(s, other)
    {
      OthersHoldEveryOtherChain(s, ratchet, other);
      OthersHoldEveryOtherChain(CappedChain(s, ratchet), ratchet, other);
    }
  }

  /** The total cap then leaves a suffix: whole up to 10 000 entries, and exactly the
      newest 10 000 of more. */
  lemma TotalEvictionKeepsTheNewest(s: seq<Skipped>, ratchet: PublicKey, added: seq<Skipped>)
    ensures var capped, t := CappedChain(s + added, ratchet), Extended(s, ratchet, added);
            && |t| == (if |capped| <= 10_000 then |capped| else 10_000)
            && t == capped[|capped| - |t|..]
  {
  }

  lemma {:induction false} SuffixHoldsNoMore(s: seq<Skipped>, from: nat, ratchet: PublicKey)
    requires from <= |s|
    ensures |Of(s[from..], ratchet)| <= |Of(s, ratchet)|
  {
    OfConcat(s[..from], s[from..], ratchet);
    assert s[..from] + s[from..] == s;
  }

  lemma {:induction false} OneRatchetOnly(s: seq<Skipped>, ratchet: PublicKey, other: PublicKey)
    requires forall i :: 0 <= i < |s| ==> s[i].ratchet == ratchet
    ensures Of(s, ratchet) == s
    ensures other != ratchet ==> Of(s, other) == []
  {
    if s != [] {
      OneRatchetOnly(s[1..], ratchet, other);
    }
  }

  /** Storing keys of one chain keeps every chain and the total within bounds,
      whatever the keys are. */
  lemma ExtendingStaysWithinCaps(s: seq<Skipped>, ratchet: PublicKey, added: seq<Skipped>)
    requires WithinCaps(s)
    requires forall i :: 0 <= i < |added| ==> added[i].ratchet == ratchet
    ensures WithinCaps(Extended(s, ratchet, added))
  {
    var capped := CappedChain(s + added, ratchet);
    ChainEvictionKeepsTheNewest(s + added, ratchet);
    forall other
      ensures |Of(Extended(s, ratchet, added), other)| <= MAX_SKIP_PER_CHAIN
    {
      OfConcat(s, added, other);
      OneRatchetOnly(added, ratchet, other);
      SuffixHoldsNoMore(capped, Excess(|capped|, MAX_SKIPPED_TOTAL), other);
    }
  }

  /** Using a stored key keeps the bounds. */
  lemma RemovingStaysWithinCaps(s: seq<Skipped>, index: nat)
    requires WithinCaps(s) && index < |s|
    ensures WithinCaps(Without(s, index))
  {
    forall other
      ensures |Of(Without(s, index), other)| <= MAX_SKIP_PER_CHAIN
    {
      OfConcat(s[..index], s[index + 1..], other);
      OfConcat(s[..index], s[index..], other);
      assert s[..index] + s[index..] == s;
      SuffixHoldsNoMore(s[index..], 1, other);
      assert s[index..][1..] == s[index + 1..];
    }
  }

  lemma {:induction false} DroppingNothing(s: seq<Skipped>, ratchet: PublicKey)
    ensures DropOldest(s, ratchet, 0) == s
  {
    if s != [] {
      DroppingNothing(s[1..], ratchet);
    }
  }

  /** Nothing is evicted while both bounds hold. */
  lemma ExtendingWithinBoundsEvictsNothing(s: seq<Skipped>, ratchet: PublicKey, added: seq<Skipped>)
    requires |Of(s + added, ratchet)| <= MAX_SKIP_PER_CHAIN && |s + added| <= MAX_SKIPPED_TOTAL
    ensures Extended(s, ratchet, added) == s + added
  {
    DroppingNothing(s + added, ratchet);
  }

  lemma {:induction false} SubsequenceOfItself<T>(s: seq<T>)
    ensures Subsequence(s, s)
  {
    if s != [] {
      SubsequenceOfItself(s[1..]);
    }
  }

  lemma {:induction false} SuffixIsSubsequence<T>(s: seq<T>, from: nat)
    requires from <= |s|
    ensures Subsequence(s[from..], s)
  {
    if from == 0 {
      SubsequenceOfItself(s);
    } else {
      assert s[1..][from - 1..] == s[from..];
      SuffixIsSubsequence(s[1..], from - 1);
    }
  }

  lemma {:induction false} DropOldestIsSubsequence(s: seq<Skipped>, ratchet: PublicKey, excess: nat)
    ensures Subsequence(DropOldest(s, ratchet, excess), s)
  {
    if s != [] {
      if excess > 0 && s[0].ratchet == ratchet {
        DropOldestIsSubsequence(s[1..], ratchet, excess - 1);
      } else {
        DropOldestIsSubsequence(s[1..], ratchet, excess);
        var rest := DropOldest(s[1..], ratchet, excess);
        assert ([s[0]] + rest)[1..] == rest;
      }
    }
  }

  lemma {:induction false} WithoutIsSubsequence<T>(s: seq<T>, index: nat)
    requires index < |s|
    ensures Subsequence(Without(s, index), s)
  {
    if index == 0 {
      assert Without(s, 0) == s[1..];
      SubsequenceOfItself(s[1..]);
    } else {
      WithoutIsSubsequence(s[1..], index - 1);
      assert Without(s, index)[1..] == Without(s[1..], index - 1);
    }
  }

  lemma {:induction false} OfIsSubsequence(s: seq<Skipped>, r: PublicKey)
    ensures Subsequence(Of(s, r), s)
    ensures forall i :: 0 <= i < |Of(s, r)| ==> Of(s, r)[i].ratchet == r && Of(s, r)[i] in s
  {
    if s != [] {
      OfIsSubsequence(s[1..], r);
      var rest := Of(s[1..], r);
      assert ([s[0]] + rest)[1..] == rest;
    }
  }

  lemma {:induction false} SubsequenceIsTransitive<T>(r: seq<T>, t: seq<T>, s: seq<T>)
    requires Subsequence(r, t) && Subsequence(t, s)
    ensures Subsequence(r, s)
    decreases |s|
  {
    if s != [] {
      if Subsequence(t, s[1..]) {
        SubsequenceIsTransitive(r, t, s[1..]);
      } else if Subsequence(r, t[1..]) {
        SubsequenceIsTransitive(r, t[1..], s[1..]);
      } else {
        SubsequenceIsTransitive(r[1..], t[1..], s[1..]);
      }
    }
  }

  /** Eviction never reorders: what remains is the old store followed by the
      added keys, with some entries left out. */
  lemma ExtendedIsSubsequence(s: seq<Skipped>, ratchet: PublicKey, added: seq<Skipped>)
    ensures Subsequence(Extended(s, ratchet, added), s + added)
  {
    var capped := CappedChain(s + added, ratchet);
    DropOldestIsSubsequence(s + added, ratchet, Excess(|Of(s + added, ratchet)|, MAX_SKIP_PER_CHAIN));
    SuffixIsSubsequence(capped, Excess(|capped|, MAX_SKIPPED_TOTAL));
    SubsequenceIsTransitive(Extended(s, ratchet, added), capped, s + added);
  }

  lemma {:induction false} SubsequenceElements<T>(t: seq<T>, s: seq<T>)
    requires Subsequence(t, s)
    ensures forall e :: e in t ==> e in s
    ensures |t| <= |s|
    decreases |s|
  {
    if s != [] {
      if Subsequence(t, s[1..]) {
        SubsequenceElements(t, s[1..]);
      } else {
        SubsequenceElements(t[1..], s[1..]);
        assert t == [t[0]] + t[1..];
      }
    }
  }

  // ---------- The deque ----------

  class SkippedKeys {
    var entries: seq<Skipped>

    constructor ()
      ensures entries == []
    {
      entries := [];
    }

    method Position(header: RatchetHeader) returns (index: Option<nat>)
      ensures index.Some? ==> index.value < |entries|
      ensures FirstMatch(entries, NameOf(header)) == if index.Some? then index.value else |entries|
    {
      var i := 0;
      while i < |entries|
        invariant i <= |entries|
        invariant FirstMatch(entries, NameOf(header)) == i + FirstMatch(entries[i..], NameOf(header))
      {
        if entries[i].ratchet == header.ratchet && entries[i].number == header.messageNumber {
          return Some(i);
        }
        i := i + 1;
      }
      return None;
    }

    function KeyAt(index: nat): Key
      requires index < |entries|
      reads this
    {
      entries[index].key
    }

    method Remove(index: nat)
      requires index < |entries|
      modifies this
      ensures entries == Without(old(entries), index)
    {
      entries := entries[..index] + entries[index + 1..];
    }

    method Extend(ratchet: PublicKey, keys: seq<(U32, Key)>)
      modifies this
      ensures entries == Extended(old(entries), ratchet, Labelled(ratchet, keys))
    {
      entries := entries + Labelled(ratchet, keys);
      EvictOldestOfChain(ratchet);
      ghost var capped := entries;
      while |entries| > MAX_SKIPPED_TOTAL
        invariant Newest(entries, MAX_SKIPPED_TOTAL) == Newest(capped, MAX_SKIPPED_TOTAL)
      {
        entries := entries[1..];
      }
    }

    method CountOf(ratchet: PublicKey) returns (count: nat)
      ensures count == |Of(entries, ratchet)|
    {
      count := 0;
      var i := 0;
      while i < |entries|
        invariant i <= |entries|
        invariant count + |Of(entries[i..], ratchet)| == |Of(entries, ratchet)|
      {
        assert entries[i..][1..] == entries[i + 1..];
        if entries[i].ratchet == ratchet {
          count := count + 1;
        }
        i := i + 1;
      }
    }

    method EvictOldestOfChain(ratchet: PublicKey)
      modifies this
      ensures entries == CappedChain(old(entries), ratchet)
    {
      var inChain := CountOf(ratchet);
      var excess: nat := if inChain > MAX_SKIP_PER_CHAIN then inChain - MAX_SKIP_PER_CHAIN else 0;
      entries := Retain(ratchet, excess);
    }

    /** Goes once through the deque, leaving out the first `excess` entries of
        the chain; the countdown never falls below zero. */
    method Retain(ratchet: PublicKey, count: nat) returns (kept: seq<Skipped>)
      ensures kept == DropOldest(entries, ratchet, count)
    {
      var excess := count;
      kept := [];
      var i := 0;
      while i < |entries|
        invariant i <= |entries|
        invariant kept + DropOldest(entries[i..], ratchet, excess) == DropOldest(entries, ratchet, count)
      {
        ghost var rest := entries[i..];
        assert rest[0] == entries[i] && rest[1..] == entries[i + 1..];
        var evicted := excess > 0 && entries[i].ratchet == ratchet;
        if evicted {
          excess := excess - 1;
        } else {
          assert kept + ([entries[i]] + DropOldest(rest[1..], ratchet, excess))
              == (kept + [entries[i]]) + DropOldest(rest[1..], ratchet, excess);
          kept := kept + [entries[i]];
        }
        i := i + 1;
      }
    }
  }

  /** Numbered keys of a chain as store entries. */
  function Labelled(ratchet: PublicKey, keys: seq<(U32, Key)>): (entries: seq<Skipped>)
    ensures |entries| == |keys|
    ensures forall i :: 0 <= i < |keys| ==> entries[i] == Skipped(ratchet, keys[i].0, keys[i].1)
  {
    seq(|keys|, i requires 0 <= i < |keys| => Skipped(ratchet, keys[i].0, keys[i].1))
  }
}

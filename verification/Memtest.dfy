/**
 The scanning allocator of the memory-hygiene tests: watches in a fixed array of
 slots, each counting the freed blocks that still held its target.
*/
module Memtest {
  import opened Results
  import opened Terms

  const MAX_WATCHES := 16
  const MAX_PATTERN_LEN := 64

  datatype WatchError = InvalidPattern | Full

  /** A pattern in a fixed-size array, with its length. */
  datatype Pattern = Pattern(bytes: seq<Byte>, len: nat)

  datatype Target = Bytes(pattern: Pattern) | BlocksOfSize(size: nat)

  datatype Slot = Slot(target: Target, unwipedFrees: nat)

  // ---------- Searching a freed block ----------

  /** A freed block is the bytes it held; `ByteAt` is the byte load. */
  function ByteAt(block: seq<Byte>, offset: nat): Option<Byte> {
    if offset < |block| then Some(block[offset]) else None
  }

  predicate IsAllZero(block: seq<Byte>) {
    forall offset :: 0 <= offset < |block| ==> ByteAt(block, offset) == Some(0)
  }

  predicate MatchesAt(block: seq<Byte>, start: nat, pattern: seq<Byte>) {
    forall i :: 0 <= i < |pattern| ==> ByteAt(block, start + i) == Some(pattern[i])
  }

  predicate Contains(block: seq<Byte>, pattern: seq<Byte>) {
    |pattern| <= |block| && exists start :: 0 <= start <= |block| - |pattern| && MatchesAt(block, start, pattern)
  }

  /** The scan finds exactly the substrings. */
  lemma ContainsIsSubstring(block: seq<Byte>, pattern: seq<Byte>)
    ensures Contains(block, pattern) <==> exists before, after :: block == before + pattern + after
  {
    if Contains(block, pattern) {
      var start :| 0 <= start <= |block| - |pattern| && MatchesAt(block, start, pattern);
      forall i | 0 <= i < |pattern|
        ensures block[start + i] == pattern[i]
      {
        assert ByteAt(block, start + i) == Some(pattern[i]);
      }
      assert block == block[..start] + pattern + block[start + |pattern|..];
    }
    if before, after :| block == before + pattern + after {
      assert MatchesAt(block, |before|, pattern);
    }
  }

  function NewPattern(secret: seq<Byte>): Option<Pattern> {
    if |secret| <= MAX_PATTERN_LEN && exists i :: 0 <= i < |secret| && secret[i] != 0
    then Some(Pattern(secret + seq(MAX_PATTERN_LEN - |secret|, _ => 0), |secret|))
    else None
  }

  ghost predicate Recognisable(target: Target) {
    target.Bytes? ==> exists secret :: NewPattern(secret) == Some(target.pattern)
  }

  function AsBytes(pattern: Pattern): seq<Byte> {
    if pattern.len <= |pattern.bytes| then pattern.bytes[..pattern.len] else pattern.bytes
  }

  predicate IsLeftIn(target: Target, block: seq<Byte>) {
    match target
    case Bytes(pattern) => Contains(block, AsBytes(pattern))
    case BlocksOfSize(size) => |block| == size && !IsAllZero(block)
  }

  /** What a watch reports: a block that still holds the secret somewhere, or one of the
      watched size with a byte that is not zero. */
  ghost predicate StillHolds(target: Target, block: seq<Byte>) {
    match target
    case Bytes(pattern) =>
      exists before, secret, after :: NewPattern(secret) == Some(pattern) && block == before + secret + after
    case BlocksOfSize(size) => |block| == size && exists i :: 0 <= i < |block| && block[i] != 0
  }

  /** Exactly the secrets of at most 64 bytes with one that is not zero can be
      watched, and the pattern keeps the secret. */
  lemma PatternsExactly(secret: seq<Byte>)
    ensures NewPattern(secret).Some? <==> |secret| <= 64 && exists i :: 0 <= i < |secret| && secret[i] != 0
    ensures NewPattern(secret).Some? ==> AsBytes(NewPattern(secret).value) == secret
  {
  }

  /** The scan reports exactly these blocks. */
  lemma LeftInExactly(target: Target, block: seq<Byte>)
    requires Recognisable(target)
    ensures IsLeftIn(target, block) <==> StillHolds(target, block)
  {
    if target.Bytes? {
      var secret :| NewPattern(secret) == Some(target.pattern);
      PatternsExactly(secret);
      ContainsIsSubstring(block, secret);
      forall other | NewPattern(other) == Some(target.pattern)
        ensures other == secret
      {
        PatternsExactly(other);
      }
    } else if |block| == target.size && !IsAllZero(block) {
      var i :| 0 <= i < |block| && ByteAt(block, i) != Some(0);
      assert block[i] != 0;
    } else if i :| 0 <= i < |block| && block[i] != 0 {
      assert ByteAt(block, i) == Some(block[i]);
    }
  }

  /** A wiped block is never reported, by any watch that can be started. */
  lemma WipedBlocksAreNeverCounted(target: Target, block: seq<Byte>)
    requires Recognisable(target) && IsAllZero(block)
    ensures !IsLeftIn(target, block)
  {
  }

  // ---------- The slots ----------

  type Slots = s: seq<Option<Slot>> | |s| == MAX_WATCHES witness seq(MAX_WATCHES, _ => None)

  /** The first free slot, or `|slots|`. */
  function FirstFree(slots: seq<Option<Slot>>): (index: nat)
    ensures index <= |slots|
    ensures index < |slots| ==> slots[index].None?
    ensures forall i :: 0 <= i < index ==> slots[i].Some?
  {
    if slots == [] || slots[0].None? then 0 else 1 + FirstFree(slots[1..])
  }

  function Inspected(slot: Option<Slot>, block: seq<Byte>): Option<Slot> {
    if slot.Some? && IsLeftIn(slot.value.target, block)
    then Some(Slot(slot.value.target, slot.value.unwipedFrees + 1))
    else slot
  }

  // ---------- The ledger over a history ----------

  /** What happens to an allocator. A watch is known by the position of the event
      that started it; only a live watch can be dropped. */
  datatype Event = Start(target: Target) | Drop(watch: nat) | Free(block: seq<Byte>)

  datatype Ledger = Ledger(slots: Slots, live: map<nat, nat>)

  function InspectAll(slots: Slots, block: seq<Byte>): Slots {
    seq(MAX_WATCHES, i requires 0 <= i < MAX_WATCHES => Inspected(slots[i], block))
  }

  /** The ledger after event number `n`. */
  function Apply(ledger: Ledger, n: nat, event: Event): Ledger
    requires forall watch :: watch in ledger.live ==> ledger.live[watch] < MAX_WATCHES
  {
    var Ledger(slots, live) := ledger;
    match event
    case Start(target) =>
      var index := FirstFree(slots);
      if index < MAX_WATCHES then Ledger(slots[index := Some(Slot(target, 0))], live[n := index]) else ledger
    case Drop(watch) =>
      if watch in live then Ledger(slots[live[watch] := None], live - {watch}) else ledger
    case Free(block) => Ledger(InspectAll(slots, block), live)
  }

  function After(events: seq<Event>): (ledger: Ledger)
    ensures forall watch :: watch in ledger.live ==> ledger.live[watch] < MAX_WATCHES && watch < |events|
  {
    if events == [] then Ledger(seq(MAX_WATCHES, _ => None), map[])
    else
      var n := |events| - 1;
      Apply(After(events[..n]), n, events[n])
  }

  lemma AfterOneMore(events: seq<Event>, event: Event)
    ensures After(events + [event]) == Apply(After(events), |events|, event)
  {
    assert (events + [event])[..|events|] == events;
  }

  /** How many of these frees a target is left in. */
  function Left(events: seq<Event>, target: Target): nat {
    if events == [] then 0
    else
      var n := |events| - 1;
      Left(events[..n], target) + (if events[n].Free? && IsLeftIn(target, events[n].block) then 1 else 0)
  }

  /** Live watches own distinct slots, every occupied slot is owned, and each
      count is the number of frees since the watch started that its target was
      left in. */
  ghost predicate Exact(ledger: Ledger, events: seq<Event>) {
    && (forall watch :: watch in ledger.live ==>
          watch < |events| && ledger.live[watch] < MAX_WATCHES && CountIsExact(ledger, events, watch))
    && (forall one, other :: one in ledger.live && other in ledger.live && one != other ==>
          ledger.live[one] != ledger.live[other])
    && (forall i :: 0 <= i < MAX_WATCHES && ledger.slots[i].Some? ==> Owned(ledger.live, i))
  }

  ghost predicate CountIsExact(ledger: Ledger, events: seq<Event>, watch: nat)
    requires watch in ledger.live && watch < |events| && ledger.live[watch] < MAX_WATCHES
  {
    && events[watch].Start?
    && ledger.slots[ledger.live[watch]] ==
       Some(Slot(events[watch].target, Left(events[watch + 1..], events[watch].target)))
  }

  ghost predicate Owned(live: map<nat, nat>, i: nat) {
    exists watch :: watch in live && live[watch] == i
  }

  lemma LeftAfterEvent(front: seq<Event>, event: Event, from: nat, target: Target)
    requires from <= |front|
    ensures Left((front + [event])[from..], target) ==
            Left(front[from..], target) + (if event.Free? && IsLeftIn(target, event.block) then 1 else 0)
  {
    var rest := (front + [event])[from..];
    assert rest[..|rest| - 1] == front[from..];
  }

  /** A count stays exact when its slot changes as the event says. */
  lemma CountStaysExact(before: Ledger, after: Ledger, front: seq<Event>, event: Event, watch: nat)
    requires watch in before.live && watch < |front| && before.live[watch] < MAX_WATCHES
    requires CountIsExact(before, front, watch)
    requires watch in after.live && after.live[watch] == before.live[watch]
    requires var slot := before.slots[before.live[watch]];
             after.slots[after.live[watch]] == if event.Free? then Inspected(slot, event.block) else slot
    ensures CountIsExact(after, front + [event], watch)
  {
    LeftAfterEvent(front, event, watch + 1, front[watch].target);
  }

  lemma SlotStaysOwned(before: map<nat, nat>, after: map<nat, nat>, i: nat)
    requires Owned(before, i)
    requires forall watch :: watch in before && before[watch] == i ==> watch in after && after[watch] == i
    ensures Owned(after, i)
  {
  }

  lemma StartKeepsCounts(before: Ledger, front: seq<Event>, target: Target)
    requires Exact(before, front) && FirstFree(before.slots) < MAX_WATCHES
    ensures var index := FirstFree(before.slots);
            Exact(Ledger(before.slots[index := Some(Slot(target, 0))], before.live[|front| := index]),
                  front + [Start(target)])
  {
    var index := FirstFree(before.slots);
    var after := Ledger(before.slots[index := Some(Slot(target, 0))], before.live[|front| := index]);
    StartKeepsOldCounts(before, after, front, target, index);
    StartKeepsOwners(before, after, |front|, index);
    NewCountIsExact(after, front, target);
    StartKeepsSlotsDistinct(before.live, after.live, |front|, index);
    Assemble(after, front + [Start(target)]);
  }

  lemma Assemble(ledger: Ledger, events: seq<Event>)
    requires forall watch :: watch in ledger.live ==>
               watch < |events| && ledger.live[watch] < MAX_WATCHES && CountIsExact(ledger, events, watch)
    requires forall one, other :: one in ledger.live && other in ledger.live && one != other ==>
               ledger.live[one] != ledger.live[other]
    requires forall i :: 0 <= i < MAX_WATCHES && ledger.slots[i].Some? ==> Owned(ledger.live, i)
    ensures Exact(ledger, events)
  {
  }

  lemma StartKeepsSlotsDistinct(before: map<nat, nat>, after: map<nat, nat>, started: nat, index: nat)
    requires after == before[started := index] && started !in before
    requires forall watch :: watch in before ==> before[watch] != index
    requires forall one, other :: one in before && other in before && one != other ==> before[one] != before[other]
    ensures forall one, other :: one in after && other in after && one != other ==> after[one] != after[other]
  {
  }

  lemma NewCountIsExact(after: Ledger, front: seq<Event>, target: Target)
    requires |front| in after.live && after.live[|front|] < MAX_WATCHES
    requires after.slots[after.live[|front|]] == Some(Slot(target, 0))
    ensures CountIsExact(after, front + [Start(target)], |front|)
  {
    assert (front + [Start(target)])[|front| + 1..] == [];
  }

  lemma StartKeepsOwners(before: Ledger, after: Ledger, started: nat, index: nat)
    requires index < MAX_WATCHES && started !in before.live
    requires forall i :: 0 <= i < MAX_WATCHES && before.slots[i].Some? ==> Owned(before.live, i)
    requires forall i :: 0 <= i < MAX_WATCHES && i != index ==> after.slots[i] == before.slots[i]
    requires after.live == before.live[started := index]
    ensures forall i :: 0 <= i < MAX_WATCHES && after.slots[i].Some? ==> Owned(after.live, i)
  {
    forall i | 0 <= i < MAX_WATCHES && after.slots[i].Some?
      ensures Owned(after.live, i)
    {
      if i == index {
        assert after.live[started] == i;
      } else {
        SlotStaysOwned(before.live, after.live, i);
      }
    }
  }

  lemma StartKeepsOldCounts(before: Ledger, after: Ledger, front: seq<Event>, target: Target, index: nat)
    requires Exact(before, front) && index < MAX_WATCHES && before.slots[index].None?
    requires after.slots == before.slots[index := Some(Slot(target, 0))] && after.live == before.live[|front| := index]
    ensures forall watch :: watch in before.live ==>
              && watch < |front| && before.live[watch] < MAX_WATCHES && before.live[watch] != index
              && watch in after.live && after.live[watch] == before.live[watch]
              && CountIsExact(after, front + [Start(target)], watch)
  {
    forall watch | watch in before.live
      ensures before.live[watch] != index && CountIsExact(after, front + [Start(target)], watch)
    {
      assert CountIsExact(before, front, watch);
      CountStaysExact(before, after, front, Start(target), watch);
    }
  }

  lemma DropKeepsCounts(before: Ledger, front: seq<Event>, dropped: nat)
    requires Exact(before, front) && dropped in before.live
    ensures Exact(Ledger(before.slots[before.live[dropped] := None], before.live - {dropped}), front + [Drop(dropped)])
  {
    var after := Ledger(before.slots[before.live[dropped] := None], before.live - {dropped});
    forall watch | watch in after.live
      ensures CountIsExact(after, front + [Drop(dropped)], watch)
    {
      CountStaysExact(before, after, front, Drop(dropped), watch);
    }
    forall i | 0 <= i < MAX_WATCHES && after.slots[i].Some?
      ensures Owned(after.live, i)
    {
      SlotStaysOwned(before.live, after.live, i);
    }
  }

  lemma QuietEventKeepsCounts(before: Ledger, front: seq<Event>, event: Event)
    requires Exact(before, front)
    ensures Exact(Ledger(if event.Free? then InspectAll(before.slots, event.block) else before.slots, before.live),
                  front + [event])
  {
    var after := Ledger(if event.Free? then InspectAll(before.slots, event.block) else before.slots, before.live);
    forall watch | watch in before.live
      ensures CountIsExact(after, front + [event], watch)
    {
      CountStaysExact(before, after, front, event, watch);
    }
    forall i | 0 <= i < MAX_WATCHES && after.slots[i].Some?
      ensures Owned(after.live, i)
    {
      SlotStaysOwned(before.live, after.live, i);
    }
  }

  lemma {:induction false} LedgerIsExact(events: seq<Event>)
    ensures Exact(After(events), events)
  {
    if events != [] {
      var n := |events| - 1;
      var front, event := events[..n], events[n];
      LedgerIsExact(front);
      assert events == front + [event];
      if event.Start? && FirstFree(After(front).slots) < MAX_WATCHES {
        StartKeepsCounts(After(front), front, event.target);
      } else if event.Drop? && event.watch in After(front).live {
        DropKeepsCounts(After(front), front, event.watch);
      } else {
        QuietEventKeepsCounts(After(front), front, event);
      }
    }
  }

  /** Which frees since event `start` still held the target of the watch it started. */
  ghost function UnwipedSince(events: seq<Event>, start: nat): set<nat>
    requires start < |events| && events[start].Start?
  {
    set i | start < i < |events| && events[i].Free? && StillHolds(events[start].target, events[i].block)
  }

  lemma {:induction false} LeftCounts(events: seq<Event>, start: nat)
    requires start < |events| && events[start].Start? && Recognisable(events[start].target)
    ensures Left(events[start + 1..], events[start].target) == |UnwipedSince(events, start)|
    decreases |events|
  {
    var n := |events| - 1;
    if start == n {
      assert events[start + 1..] == [];
      assert UnwipedSince(events, start) == {};
    } else {
      var front, event := events[..n], events[n];
      LeftCounts(front, start);
      assert events == front + [event];
      LeftAfterEvent(front, event, start + 1, events[start].target);
      if event.Free? {
        LeftInExactly(events[start].target, event.block);
      }
      OneMoreUnwiped(front, event, start);
    }
  }

  lemma OneMoreUnwiped(front: seq<Event>, event: Event, start: nat)
    requires start < |front| && front[start].Start?
    ensures |UnwipedSince(front + [event], start)| ==
            |UnwipedSince(front, start)| + (if event.Free? && StillHolds(front[start].target, event.block) then 1 else 0)
  {
    var n, before, after := |front|, UnwipedSince(front, start), UnwipedSince(front + [event], start);
    forall i
      ensures i in after <==> i in before || (i == n && event.Free? && StillHolds(front[start].target, event.block))
    {
      assert 0 <= i < n ==> (front + [event])[i] == front[i];
    }
    assert after == if event.Free? && StillHolds(front[start].target, event.block) then before + {n} else before;
  }

  ghost predicate AllRecognisable(events: seq<Event>) {
    forall i :: 0 <= i < |events| && events[i].Start? ==> Recognisable(events[i].target)
  }

  /** Whatever the interleaving of starts, drops and frees: live watches own distinct
      slots, no other slot is occupied, and each count is the number of frees since
      the watch was started that still held its target. */
  lemma CountsAreExact(events: seq<Event>)
    requires AllRecognisable(events)
    ensures var ledger := After(events);
            && (forall start :: start in ledger.live ==>
                  && start < |events| && events[start].Start? && ledger.live[start] < 16
                  && ledger.slots[ledger.live[start]] == Some(Slot(events[start].target, |UnwipedSince(events, start)|)))
            && (forall one, other :: one in ledger.live && other in ledger.live && one != other ==>
                  ledger.live[one] != ledger.live[other])
            && (forall i :: 0 <= i < 16 && ledger.slots[i].Some? ==> Owned(ledger.live, i))
  {
    var ledger := After(events);
    LedgerIsExact(events);
    forall start | start in ledger.live
      ensures start < |events| && events[start].Start?
      ensures ledger.slots[ledger.live[start]] == Some(Slot(events[start].target, |UnwipedSince(events, start)|))
    {
      assert CountIsExact(ledger, events, start);
      LeftCounts(events, start);
    }
  }

  lemma {:induction false} SizeOfDistinct(live: map<nat, nat>, bound: nat)
    requires forall watch :: watch in live ==> live[watch] < bound
    requires forall one, other :: one in live && other in live && one != other ==> live[one] != live[other]
    ensures |live| <= bound
    decreases bound
  {
    if bound == 0 {
      assert live == map[];
    } else if watch :| watch in live && live[watch] == bound - 1 {
      SizeOfDistinct(live - {watch}, bound - 1);
      assert live.Keys == (live - {watch}).Keys + {watch};
    } else {
      SizeOfDistinct(live, bound - 1);
    }
  }

  lemma {:induction false} SizeOfAll(live: map<nat, nat>, bound: nat)
    requires forall i :: 0 <= i < bound ==> Owned(live, i)
    ensures |live| >= bound
    decreases bound
  {
    if bound > 0 {
      assert Owned(live, bound - 1);
      var watch :| watch in live && live[watch] == bound - 1;
      var rest := live - {watch};
      forall i | 0 <= i < bound - 1
        ensures Owned(rest, i)
      {
        SlotStaysOwned(live, rest, i);
      }
      SizeOfAll(rest, bound - 1);
      assert live.Keys == rest.Keys + {watch};
    }
  }

  lemma {:induction false} SizeWithAGap(live: map<nat, nat>, bound: nat, gap: nat)
    requires gap < bound && forall watch :: watch in live ==> live[watch] < bound && live[watch] != gap
    requires forall one, other :: one in live && other in live && one != other ==> live[one] != live[other]
    ensures |live| < bound
    decreases bound
  {
    if gap == bound - 1 {
      SizeOfDistinct(live, bound - 1);
    } else if watch :| watch in live && live[watch] == bound - 1 {
      SizeWithAGap(live - {watch}, bound - 1, gap);
      assert live.Keys == (live - {watch}).Keys + {watch};
    } else {
      SizeWithAGap(live, bound - 1, gap);
    }
  }

  /** A watch is refused as full exactly when sixteen watches are live; there are
      never more. */
  lemma FullExactly(events: seq<Event>)
    ensures |After(events).live| <= 16
    ensures FirstFree(After(events).slots) == MAX_WATCHES <==> |After(events).live| == 16
  {
    LedgerIsExact(events);
    LiveCount(After(events), events);
  }

  lemma LiveCount(ledger: Ledger, events: seq<Event>)
    requires Exact(ledger, events)
    ensures |ledger.live| <= MAX_WATCHES
    ensures FirstFree(ledger.slots) == MAX_WATCHES <==> |ledger.live| == MAX_WATCHES
  {
    SizeOfDistinct(ledger.live, MAX_WATCHES);
    var free := FirstFree(ledger.slots);
    if free == MAX_WATCHES {
      SizeOfAll(ledger.live, MAX_WATCHES);
    } else {
      forall watch | watch in ledger.live
        ensures ledger.live[watch] != free
      {
        assert CountIsExact(ledger, events, watch);
      }
      SizeWithAGap(ledger.live, MAX_WATCHES, free);
    }
  }

  // ---------- The allocator ----------

  /** The slots, with the history they are the outcome of. */
  class ScanningAllocator {
    const slots: array<Option<Slot>>
    ghost var events: seq<Event>

    ghost predicate Valid()
      reads this, slots
    {
      slots.Length == 16 && slots[..] == After(events).slots && AllRecognisable(events)
    }

    constructor ()
      ensures Valid() && fresh(slots) && events == []
    {
      slots := new Option<Slot>[MAX_WATCHES](_ => None);
      events := [];
    }

    /** The outcome of starting a watch: it owns a slot from here on, or sixteen
        others do. */
    ghost predicate Started(before: seq<Event>, target: Target, r: Result<Watch, WatchError>)
      reads this, slots
    {
      && Valid() && events == before + [Start(target)]
      && match r
         case Err(e) => e == Full && |After(before).live| == 16 && After(events) == After(before)
         case Ok(watch) =>
           && |After(before).live| < 16
           && watch.allocator == this && watch.IsStartedBy(|before|)
           && After(events).live == After(before).live[|before| := watch.index]
    }

    method WatchBytes(secret: seq<Byte>) returns (r: Result<Watch, WatchError>)
      requires Valid()
      modifies this, slots
      ensures r == Err(InvalidPattern) <==> |secret| > 64 || forall i :: 0 <= i < |secret| ==> secret[i] == 0
      ensures match NewPattern(secret)
              case None => r == Err(InvalidPattern) && Valid() && events == old(events)
              case Some(pattern) => Started(old(events), Bytes(pattern), r)
    {
      PatternsExactly(secret);
      var pattern := NewPattern(secret);
      if pattern.None? {
        return Err(InvalidPattern);
      }
      r := StartWatch(Bytes(pattern.value));
    }

    method WatchBlocksOfSize(size: nat) returns (r: Result<Watch, WatchError>)
      requires Valid()
      modifies this, slots
      ensures Started(old(events), BlocksOfSize(size), r)
    {
      r := StartWatch(BlocksOfSize(size));
    }

    method StartWatch(target: Target) returns (r: Result<Watch, WatchError>)
      requires Valid() && Recognisable(target)
      modifies this, slots
      ensures Started(old(events), target, r)
    {
      var index := 0;
      while index < slots.Length && slots[index].Some?
        invariant index <= slots.Length
        invariant FirstFree(slots[..]) == index + FirstFree(slots[index..])
      {
        index := index + 1;
      }
      FullExactly(events);
      AfterOneMore(events, Start(target));
      events := events + [Start(target)];
      if index == slots.Length {
        return Err(Full);
      }
      slots[index] := Some(Slot(target, 0));
      return Ok(Watch(this, index));
    }

    method Inspect(block: seq<Byte>)
      requires Valid()
      modifies this, slots
      ensures Valid() && events == old(events) + [Free(block)]
    {
      var i := 0;
      while i < slots.Length
        invariant i <= slots.Length
        invariant events == old(events)
        invariant forall k :: 0 <= k < i ==> slots[k] == Inspected(old(slots[k]), block)
        invariant forall k :: i <= k < slots.Length ==> slots[k] == old(slots[k])
      {
        if slots[i].Some? && IsLeftIn(slots[i].value.target, block) {
          slots[i] := Some(Slot(slots[i].value.target, slots[i].value.unwipedFrees + 1));
        }
        i := i + 1;
      }
      AfterOneMore(events, Free(block));
      events := events + [Free(block)];
    }
  }

  /** An active watch: its allocator and the slot it owns. */
  datatype Watch = Watch(allocator: ScanningAllocator, index: nat)
  {
    /** The watch that event number `start` started, and that is live. */
    ghost predicate IsStartedBy(start: nat)
      reads allocator
    {
      var live := After(allocator.events).live;
      start in live && live[start] == index
    }

    /** How many blocks freed since the watch was started still held its target. */
    method UnwipedFrees() returns (count: nat)
      requires allocator.Valid() && index < MAX_WATCHES
      ensures forall start: nat :: IsStartedBy(start) ==>
                && start < |allocator.events| && allocator.events[start].Start?
                && count == |UnwipedSince(allocator.events, start)|
      ensures !Owned(After(allocator.events).live, index) ==> count == 0
    {
      count := if allocator.slots[index].Some? then allocator.slots[index].value.unwipedFrees else 0;
      CountsAreExact(allocator.events);
      assert allocator.slots[index] == After(allocator.events).slots[index];
    }

    /** Ends the watch, and only this one. */
    method Drop(ghost start: nat)
      requires allocator.Valid() && index < MAX_WATCHES && IsStartedBy(start)
      modifies allocator, allocator.slots
      ensures allocator.Valid() && allocator.events == old(allocator.events) + [Event.Drop(start)]
      ensures After(allocator.events).live == After(old(allocator.events)).live - {start}
    {
      AfterOneMore(allocator.events, Event.Drop(start));
      allocator.slots[index] := None;
      allocator.events := allocator.events + [Event.Drop(start)];
    }
  }
}

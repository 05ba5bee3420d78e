/**
 The key schedule of a conversation. The ratchet keys of the two parties form
 one sequence: key 0 is the responder's signed prekey, key 1 the initiator's
 first ratchet key, and from there on they alternate. Consecutive keys give the
 root keys and the chains: chain `j` is sealed by the owner of key `j`.
*/
module Schedule {
  import opened Terms
  import opened Attacker

  datatype Party = Alice | Bob {
    function Peer(): Party {
      if Alice? then Bob else Alice
    }
  }

  /** Alice, the initiator, owns the odd keys and seals the odd chains. */
  function Owner(chain: nat): Party {
    if chain % 2 == 1 then Alice else Bob
  }

  ghost predicate Distinct(keys: seq<PrivateKey>) {
    forall i, j :: 0 <= i < j < |keys| ==> keys[i] != keys[j]
  }

  function Link(keys: seq<PrivateKey>, i: nat): Shared
    requires 0 < i < |keys|
  {
    SharedBetween(keys[i - 1].point, keys[i].point)
  }

  function RootAt(sk: Key, keys: seq<PrivateKey>, i: nat): Key
    requires i < |keys|
  {
    if i == 0 then sk else RootOf(RootAt(sk, keys, i - 1), Link(keys, i))
  }

  function ChainAt(sk: Key, keys: seq<PrivateKey>, j: nat): Key
    requires 0 < j < |keys|
  {
    ChainOf(RootAt(sk, keys, j - 1), Link(keys, j))
  }

  /** The key of frame `number` of chain `j`. */
  function KeyAt(sk: Key, keys: seq<PrivateKey>, j: nat, number: nat): Key
    requires 0 < j < |keys|
  {
    MessageKey(ChainAt(sk, keys, j), number)
  }

  /** The chain named by a ratchet key, or -1. */
  function IndexOf(keys: seq<PrivateKey>, ratchet: PublicKey): (index: int)
    ensures -1 <= index < |keys|
    ensures index >= 0 ==> Pub(keys[index]) == ratchet
    ensures index < 0 ==> forall i :: 0 <= i < |keys| ==> Pub(keys[i]) != ratchet
  {
    if keys == [] then -1
    else if Pub(keys[|keys| - 1]) == ratchet then |keys| - 1
    else IndexOf(keys[..|keys| - 1], ratchet)
  }

  lemma IndexOfKey(keys: seq<PrivateKey>, i: nat)
    requires Distinct(keys) && i < |keys|
    ensures IndexOf(keys, Pub(keys[i])) == i
  {
  }

  /** Drawing a new key leaves the names of the old chains alone. */
  lemma IndexOfExtended(keys: seq<PrivateKey>, more: seq<PrivateKey>, ratchet: PublicKey)
    requires keys <= more && Distinct(more) && IndexOf(keys, ratchet) >= 0
    ensures IndexOf(more, ratchet) == IndexOf(keys, ratchet)
  {
  }

  lemma {:induction false} RootExtended(sk: Key, keys: seq<PrivateKey>, more: seq<PrivateKey>, i: nat)
    requires keys <= more && i < |keys|
    ensures RootAt(sk, more, i) == RootAt(sk, keys, i)
  {
    if i > 0 {
      RootExtended(sk, keys, more, i - 1);
    }
  }

  /** ... and their keys. */
  lemma ScheduleExtended(sk: Key, keys: seq<PrivateKey>, more: seq<PrivateKey>)
    requires keys <= more
    ensures forall i :: 0 <= i < |keys| ==> RootAt(sk, more, i) == RootAt(sk, keys, i)
    ensures forall j :: 0 < j < |keys| ==> ChainAt(sk, more, j) == ChainAt(sk, keys, j)
  {
    forall i | 0 <= i < |keys|
      ensures RootAt(sk, more, i) == RootAt(sk, keys, i)
    {
      RootExtended(sk, keys, more, i);
    }
    forall j | 0 < j < |keys|
      ensures ChainAt(sk, more, j) == ChainAt(sk, keys, j)
    {
      RootExtended(sk, keys, more, j - 1);
    }
  }

  lemma {:induction false} RootDepth(sk: Key, keys: seq<PrivateKey>, i: nat)
    requires i < |keys|
    ensures Depth(RootAt(sk, keys, i)) == Depth(sk) + i
    ensures RootedIn(sk, RootAt(sk, keys, i))
  {
    if i > 0 {
      RootDepth(sk, keys, i - 1);
    }
  }

  /** A chain key names its chain and its position. */
  lemma ChainPositionsAreDistinct(sk: Key, keys: seq<PrivateKey>, i: nat, m: nat, j: nat, n: nat)
    requires 0 < i < |keys| && 0 < j < |keys|
    ensures Advance(ChainAt(sk, keys, i), m) == Advance(ChainAt(sk, keys, j), n) <==> i == j && m == n
  {
    AdvanceIsInjective(ChainAt(sk, keys, i), m, ChainAt(sk, keys, j), n);
    RootDepth(sk, keys, i - 1);
    RootDepth(sk, keys, j - 1);
  }

  /** No message key is ever used for two frames. */
  lemma MessageKeysAreDistinct(sk: Key, keys: seq<PrivateKey>, i: nat, m: nat, j: nat, n: nat)
    requires 0 < i < |keys| && 0 < j < |keys|
    ensures KeyAt(sk, keys, i, m) == KeyAt(sk, keys, j, n) <==> i == j && m == n
  {
    ChainPositionsAreDistinct(sk, keys, i, m, j, n);
  }

  /** A chain opened from root key `g` can only be chain `g + 1`. */
  lemma NextChainOnly(sk: Key, keys: seq<PrivateKey>, g: nat, shared: Shared, m: nat, j: nat, n: nat)
    requires g < |keys| && 0 < j < |keys|
    requires MessageKey(ChainOf(RootAt(sk, keys, g), shared), m) == KeyAt(sk, keys, j, n)
    ensures j == g + 1 && m == n
  {
    AdvanceIsInjective(ChainOf(RootAt(sk, keys, g), shared), m, ChainAt(sk, keys, j), n);
    RootDepth(sk, keys, g);
    RootDepth(sk, keys, j - 1);
  }

  lemma ScheduleIsRooted(sk: Key, keys: seq<PrivateKey>, g: nat, shared: Shared, n: nat)
    requires g < |keys|
    ensures RootedIn(sk, MessageKey(ChainOf(RootAt(sk, keys, g), shared), n))
  {
    RootDepth(sk, keys, g);
    AdvancedIsRooted(sk, ChainOf(RootAt(sk, keys, g), shared), n);
  }

  /** The two root derivations of a ratchet step, by the owner of key `g` who
      reads key `g + 1` and draws key `g + 2`, follow the schedule. */
  lemma RatchetStepFollowsSchedule(sk: Key, keys: seq<PrivateKey>, own: PrivateKey, g: nat)
    requires g + 2 == |keys|
    ensures var more := keys + [own];
            var middle := RootOf(RootAt(sk, keys, g), SharedBetween(keys[g].point, keys[g + 1].point));
            var shared := SharedBetween(own.point, keys[g + 1].point);
            && ChainAt(sk, more, g + 1) == ChainOf(RootAt(sk, keys, g), SharedBetween(keys[g].point, keys[g + 1].point))
            && RootAt(sk, more, g + 2) == RootOf(middle, shared)
            && ChainAt(sk, more, g + 2) == ChainOf(middle, shared)
  {
    var more := keys + [own];
    RootExtended(sk, keys, more, g);
    assert more[g] == keys[g] && more[g + 1] == keys[g + 1] && more[g + 2] == own;
    assert RootAt(sk, more, g + 1) == RootOf(RootAt(sk, more, g), Link(more, g + 1));
  }
}

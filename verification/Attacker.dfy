/**
 What someone can compute from the secrets they hold, when the primitives are
 free terms: every point, ciphertext and sealed body is public, and a key is
 derivable when it is held or when everything it was derived from is.
*/
module Attacker {
  import opened Terms

  datatype Attacker = Attacker(keys: iset<Key>, scalars: iset<PrivateKey>, kemPairs: iset<nat>)

  ghost predicate KnowsShared(a: Attacker, shared: Shared) {
    PrivateKey(shared.low) in a.scalars || PrivateKey(shared.high) in a.scalars
  }

  /** Only the decapsulation key opens a ciphertext. */
  ghost predicate KnowsKemSecret(a: Attacker, secret: KemSecret) {
    secret.pair in a.kemPairs
  }

  ghost predicate KnowsSymbol(a: Attacker, symbol: Symbol) {
    match symbol
    case SharedByte(shared, _) => KnowsShared(a, shared)
    case KemSecretByte(secret, _) => KnowsKemSecret(a, secret)
    case _ => true
  }

  ghost predicate Derivable(a: Attacker, key: Key)
    decreases key
  {
    key in a.keys ||
    match key
    case Hybrid(material, _) => forall i :: 0 <= i < |material| ==> KnowsSymbol(a, material[i])
    case RootOf(parent, shared) => Derivable(a, parent) && KnowsShared(a, shared)
    case ChainOf(parent, shared) => Derivable(a, parent) && KnowsShared(a, shared)
    case NextOf(chain) => Derivable(a, chain)
    case MessageOf(chain) => Derivable(a, chain)
  }

  /** `key` was derived from `origin`, directly or through other keys. */
  ghost predicate RootedIn(origin: Key, key: Key)
    decreases key
  {
    key == origin ||
    match key
    case Hybrid(_, _) => false
    case RootOf(parent, _) => RootedIn(origin, parent)
    case ChainOf(parent, _) => RootedIn(origin, parent)
    case NextOf(chain) => RootedIn(origin, chain)
    case MessageOf(chain) => RootedIn(origin, chain)
  }

  /** Anyone but the two parties: they may hold any scalar, even every ratchet
      key, but neither the shared key nor anything derived from it. */
  ghost predicate Outsider(a: Attacker, sharedKey: Key) {
    && !Derivable(a, sharedKey)
    && forall key :: key in a.keys ==> !RootedIn(sharedKey, key)
  }

  /** Without the shared key, nothing derived from it is within reach. */
  lemma {:induction false} OutsidersDeriveNothing(a: Attacker, sharedKey: Key, key: Key)
    requires Outsider(a, sharedKey) && RootedIn(sharedKey, key)
    ensures !Derivable(a, key)
    decreases key
  {
    if key != sharedKey {
      match key
      case Hybrid(_, _) =>
      case RootOf(parent, _) => OutsidersDeriveNothing(a, sharedKey, parent);
      case ChainOf(parent, _) => OutsidersDeriveNothing(a, sharedKey, parent);
      case NextOf(chain) => OutsidersDeriveNothing(a, sharedKey, chain);
      case MessageOf(chain) => OutsidersDeriveNothing(a, sharedKey, chain);
    }
  }

  lemma {:induction false} AdvancedIsRooted(origin: Key, chain: Key, n: nat)
    requires RootedIn(origin, chain)
    ensures RootedIn(origin, Advance(chain, n)) && RootedIn(origin, MessageKey(chain, n))
  {
    if n > 0 {
      AdvancedIsRooted(origin, chain, n - 1);
    }
  }
}

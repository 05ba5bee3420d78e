/**
 The handshake hands over to the ratchet: the two sessions started from an X3DH
 exchange are a conversation of module `Conversation`, for which every theorem
 there holds.
*/
module Handover {
  import opened Results
  import opened Terms
  import opened Attacker
  import opened Conversation
  import Ratchet = RatchetSpec
  import X = X3dh
  import Runs

  /** Alice starts her session from the key and the bundle she used, Bob his from
      the key he derived and his signed prekey; together they are in lock step,
      and whoever cannot break the handshake and holds no key derived from the
      shared key is an outsider to them. */
  lemma HandshakeStartsAConversation(
    a: Attacker, alice: X.Initiator, bob: X.Responder, ephemeral: PrivateKey, randomness: nat, first: PrivateKey)
    requires alice.identity.dh == Pub(alice.identityDh) && bob.Consistent()
    requires first != bob.signedPrekey && !X.Breaks(a, alice, bob, ephemeral)
    ensures var started := alice.InitiateWith(bob.Bundle(), ephemeral, Encapsulate(bob.kem, randomness));
            && started.Ok?
            && var (sk, message) := started.value;
            && var answered := bob.Respond(alice.identity, message);
            && answered.Ok? && answered.value == sk
            && var w := Start(sk, bob.signedPrekey, first);
            && Ratchet.Initiator(sk, bob.Bundle().signedPrekey, first) == Ok(w.alice)
            && Ratchet.Responder(answered.value, bob.signedPrekey) == w.bob
            && Runs.Invariant(w) && w.sk.Hybrid?
            && ((forall key :: key in a.keys ==> !RootedIn(sk, key)) ==> Outsider(a, sk))
  {
    X.BothSidesAgree(alice, bob, ephemeral, randomness);
    var (sk, message) := alice.InitiateWith(bob.Bundle(), ephemeral, Encapsulate(bob.kem, randomness)).value;
    Runs.StartsInvariant(sk, bob.signedPrekey, first);
    if forall key :: key in a.keys ==> !RootedIn(sk, key) {
      assert RootedIn(sk, sk);
      X.BreakingTakesBoth(a, alice, bob, ephemeral, randomness);
    }
  }
}

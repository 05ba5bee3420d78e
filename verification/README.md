# QUIETWIRE in Dafny

A model of QUIETWIRE's end-to-end layer and of two small components beside it,
with machine-checked proofs of what they promise:

- the **Double Ratchet session** (`Session.dfy`, `SkippedStore.dfy`): mutable classes
  in the shape of the crate's, proved against functions on session states (`RatchetSpec.dfy`), with
  the exact answer to everything they can be given (`Outcomes.dfy`);
- **conversations** of two sessions over a hostile network (`Schedule.dfy`, `Conversation.dfy`,
  `LockStepProof.dfy`, `History.dfy`, `Runs.dfy`, `Eviction.dfy`, `ShortConversations.dfy`,
  `Liveness.dfy`): what every step keeps and loses, what follows for every run, and which frames some
  run can still open;
- **secrecy** of a stolen session (`Attacker.dfy`, `Secrecy.dfy`), **recovery** of authenticity after
  the theft (`Recovery.dfy`), **order independence** (`OrderIndependence.dfy`) and **runs that break a
  documented promise** or reach a limit (`RunBuilding.dfy`, `Witnesses.dfy`);
- the **reference ratchet** of the test-vector script (`SimpleRatchet.dfy`, `ReferenceLaws.dfy`) and
  the proof that the session refines it (`Refinement.dfy`);
- **hybrid X3DH** (`X3dh.dfy`) and its hand-over to the ratchet (`Handover.dfy`);
- the ratchet **header codec** (`HeaderCodec.dfy`), the **512-byte cell** and its relays (`Cell.dfy`);
- the **scanning allocator** of the memory-hygiene tests (`Memtest.dfy`).

`dafny verify dfyconfig.toml` checks everything.

## How to read it

Cryptography is modelled by free terms (`Terms.dfy`): a key is the way it was derived, a
Diffie-Hellman secret is an unordered pair of points, and a sealed body opens only under the key,
nonce and header it was sealed with. Nothing else is assumed of the primitives. A point may have
non-canonical encodings, so a forger can present the same point under another name.

A conversation starts from a shared key and two ratchet keys. Its ratchet keys form one sequence, in
which the two parties alternate; consecutive keys give the root keys and the chains. The network may
reorder, drop, repeat or reflect frames, put any sealed body under any header and nonce, and seal
under any key that can be computed by someone who has neither the shared key nor anything derived
from it. Such an outsider may know every ratchet scalar. Freshly drawn ratchet keys are required to
differ from those in use, and nothing more. Randomness, nonces included, is an input, and so is its
failure.

A thief is an outsider who has read one session's memory. Secrecy after the theft is stated for runs
in which nothing the thief seals opens. `Recovery.ForgeableExactly` says what would, and
`Recovery.AuthenticityRecovers` from when on nothing does; what follows once a forged frame has been
accepted is left out.

The history of a conversation records what happened and is never consulted by a session: the keys
in use, the frames sent and accepted, and the names of evicted keys.

## Where code and documentation differ

The model follows the code.

- The error documentation says that a frame whose key is gone, a replay or one older than the kept
  keys, is an authentication failure (`ratchet.rs:42-45`), and the property tests and the fuzz target
  assert it of replays. Such a frame of a chain the receiver has left goes through the ratchet-step
  branch, where its header can instead be refused as too far ahead. `Runs.GoneKeysAreRefused` gives the
  exact condition, `Witnesses.ReplayCanBeTooFarAhead` a run, and
  `ShortConversations.EveryFrameOpensExactlyOnce` shows that with at most 1 001 frames in a chain and
  10 000 in all the promise holds.
- The same documentation says that a blocked party can send again once a frame from the peer is
  received (`ratchet.rs:47-49`). Only a frame that opens a new chain unblocks:
  `Runs.OnlyANewChainUnblocks` and `Witnesses.LateFramesDoNotUnblock`.
- The session and the reference ratchet agree on every run with an honest peer. A peer that reuses an
  old ratchet key makes them part: `Refinement.ReusedKeysCanDiverge` has the frames, and
  `Refinement.AcceptSimulates` and `Refinement.ReusedKeysDiverge` show that this is the only case.
- The protocol document promises healing after one round trip (`PROTOCOL.md:91`). For new frames that
  holds if the next two ratchet keys are unknown to the thief (`Secrecy.LaterChainsExactly`). For frames
  of the old chains it does not: those the stolen session kept a key for or leads to, and that the
  reader has not opened, can still be read and forged. `Recovery.ForgeableExactly` and
  `Recovery.ForgeriesNameOldFrames` give the exact conditions, `Witnesses.OldKeysForge` a run.

## Model

| member | source | states |
|---|---|---|
| `Terms.AgreementIsSymmetric` | crates/quietwire-crypto/src/x25519.rs:44-52 | Both sides of a Diffie-Hellman exchange hold the same secret, and an honest key is never refused. |
| `Terms.DecapsulatesOnlyItsOwn` | crates/quietwire-crypto/src/mlkem.rs:47-52 | A decapsulation key yields the encapsulated secret exactly for the ciphertexts made for it. |
| `Terms.OpensOnlyWhatWasSealed` | crates/quietwire-e2e/src/ratchet.rs:431-438 | A frame opens under a key exactly when it was sealed under that key with the same nonce and header, and to exactly what was sealed. |
| `SkippedStore.SkippedKeys.Position` | crates/quietwire-e2e/src/ratchet.rs:389-393 | The search returns the oldest entry of the named frame, or none exactly when there is none. |
| `SkippedStore.SkippedKeys.Remove` | crates/quietwire-e2e/src/ratchet.rs:399-401 | Removes the entry at an index and keeps all others in order. |
| `SkippedStore.SkippedKeys.Extend` | crates/quietwire-e2e/src/ratchet.rs:403-414 | Appends the keys under their ratchet key, caps the chain at its newest 1 000 and the deque at its newest 10 000. |
| `SkippedStore.SkippedKeys.EvictOldestOfChain` | crates/quietwire-e2e/src/ratchet.rs:416-428 | Drops exactly the oldest excess entries of one chain. |
| `SkippedStore.SkippedKeys.Retain` | crates/quietwire-e2e/src/ratchet.rs:423-427 | One pass leaves out the first entries of the chain, up to the count; the countdown never underflows. |
| `SkippedStore.ChainEvictionKeepsTheNewest` | crates/quietwire-e2e/src/ratchet.rs:416-428 | Per-chain eviction keeps exactly the newest 1 000 of that chain and every entry of every other chain, in order. |
| `SkippedStore.TotalEvictionKeepsTheNewest` | crates/quietwire-e2e/src/ratchet.rs:411-413 | The total cap leaves a suffix of that: all of it up to 10 000 entries, and exactly the newest 10 000 of more. |
| `SkippedStore.ExtendingStaysWithinCaps` | crates/quietwire-e2e/src/ratchet.rs:403-428 | After storing any keys, at most 1 000 entries remain per ratchet key, for every ratchet key, and 10 000 in total. |
| `SkippedStore.RemovingStaysWithinCaps` | crates/quietwire-e2e/src/ratchet.rs:399-401 | Using a stored key keeps both caps. |
| `SkippedStore.ExtendedIsSubsequence` | crates/quietwire-e2e/src/ratchet.rs:403-428 | Eviction never reorders: the new store is the old one followed by the added keys, with some left out. |
| `SkippedStore.ExtendingWithinBoundsEvictsNothing` | crates/quietwire-e2e/src/ratchet.rs:403-428 | Nothing is evicted while both bounds hold. |
| `RatchetSpec.SessionsStartBounded` | crates/quietwire-e2e/src/ratchet.rs:113-143 | Both kinds of session start within the limits: counters at most 2 000 and the store within its caps. |
| `RatchetSpec.EncryptKeepsBounds` | crates/quietwire-e2e/src/ratchet.rs:155-179 | Sending never takes the counter past 2 000. |
| `RatchetSpec.DecryptKeepsBounds` | crates/quietwire-e2e/src/ratchet.rs:196-258 | No frame whatever, forged or genuine, drives a counter past 2 000 or the store past its caps. |
| `Outcomes.InitiatorExactly` | crates/quietwire-e2e/src/ratchet.rs:103-129 | Starting fails exactly on a low-order ratchet key, as an invalid public key; otherwise the root key and chain are those the other side can derive. |
| `Outcomes.SendOutcome` | crates/quietwire-e2e/src/ratchet.rs:155-179 | The answer to every request to seal in every reachable state: the generator's error, else blocked, else the next frame of the chain; nothing changes on an error. |
| `Outcomes.RefusalsExactly` | crates/quietwire-e2e/src/ratchet.rs:181-258 | For every frame and bounded session: which error the header alone is refused with, if any, whatever is sealed; any other frame opens to what was sealed or is an authentication failure; nothing changes on an error. |
| `Outcomes.ForgedOutcome` | crates/quietwire-e2e/src/ratchet.rs:181-258 | The exact error of every frame the peer did not seal, told by its header. |
| `Outcomes.LowOrderKeysExactly` | crates/quietwire-e2e/src/ratchet.rs:187-188 | A low-order ratchet key is an invalid public key, whatever is drawn and sealed, unless the header already asks for too many keys of the chain before; and nothing else is. |
| `Session.Cursor.SkipTo` | crates/quietwire-e2e/src/ratchet.rs:335-345 | Refuses, changing nothing, exactly beyond 2 000 or more than 1 000 ahead; otherwise lists every key passed over, and derives one chain step each. |
| `Session.Cursor.DeriveMessageKey` | crates/quietwire-e2e/src/ratchet.rs:347-356 | The key of a numbered frame, or the exact error, leaving the cursor alone on error; at most 1 001 derivations. |
| `Session.Cursor.NextMessageKey` | crates/quietwire-e2e/src/ratchet.rs:358-363 | One symmetric step; the counter cannot overflow. |
| `Session.Cursor.TakeSkipped` | crates/quietwire-e2e/src/ratchet.rs:365-367 | Hands over the passed-over keys and leaves none. |
| `Session.Cursor.IntoChain` | crates/quietwire-e2e/src/ratchet.rs:369-374 | Never fails: a chain key is 32 bytes. |
| `Session.Session.InitiatorWith` | crates/quietwire-e2e/src/ratchet.rs:113-129 | The initiator's first state, or the error of a low-order prekey. |
| `Session.Session.Responder` | crates/quietwire-e2e/src/ratchet.rs:133-143 | The responder's first state: no remote key, no chains. |
| `Session.Session.Encrypt` | crates/quietwire-e2e/src/ratchet.rs:151-179 | Seals under the next message key and moves the chain on by one; on any error the session is as it was. |
| `Session.Session.Decrypt` | crates/quietwire-e2e/src/ratchet.rs:189-212 | The state and result of the specification function for every frame; on any error the session is as it was; at most 2 001 chain derivations. |
| `Session.Session.DecryptInReceivingChain` | crates/quietwire-e2e/src/ratchet.rs:214-229 | Opens a frame of the current chain and stores the keys skipped, or changes nothing. |
| `Session.Session.DecryptAfterRatchetStep` | crates/quietwire-e2e/src/ratchet.rs:231-258 | Opens a frame of a new chain with both root derivations, or changes nothing. |
| `Session.Session.Commit` | crates/quietwire-e2e/src/ratchet.rs:245-257 | The assignments after authentication; the conversions among them cannot fail. |
| `Attacker.OutsidersDeriveNothing` | docs/PROTOCOL.md:87-91 | Whoever cannot compute the shared key can compute nothing derived from it, even knowing every ratchet scalar. |
| `Schedule.MessageKeysAreDistinct` | crates/quietwire-e2e/src/ratchet.rs:441-466 | Two frames of the schedule share a message key only if they are the same frame of the same chain. |
| `Schedule.NextChainOnly` | crates/quietwire-e2e/src/ratchet.rs:231-243 | A chain opened from root key g can only be chain g + 1, so old chains and reflected frames never open. |
| `Schedule.RatchetStepFollowsSchedule` | crates/quietwire-e2e/src/ratchet.rs:237-239 | The two root derivations of a ratchet step yield the schedule's next root and chain keys on both sides. |
| `Conversation.StartsInStep` | crates/quietwire-e2e/src/ratchet.rs:113-143 | The two initial sessions satisfy the lock-step invariant. |
| `Conversation.AcceptedIsGenuine` | crates/quietwire-e2e/src/ratchet.rs:196-258 | Safety of one delivery: what opens is a frame the peer sealed, unchanged, and yields what was sealed in it. |
| `LockStepProof.SendKeepsLockStep` | crates/quietwire-e2e/src/ratchet.rs:155-179 | Sending keeps both sessions and both stores in step with the key schedule. |
| `LockStepProof.DeliverKeepsLockStep` | crates/quietwire-e2e/src/ratchet.rs:196-258 | So does every delivery, genuine or forged: root keys, chain keys, counters, and stores that stay sorted indexes without duplicates. |
| `LockStepProof.StepKeepsLockStep` | crates/quietwire-e2e/src/ratchet.rs:113-258 | Every step of a conversation keeps the lock-step invariant. |
| `LockStepProof.SubsequenceStaysSorted` | crates/quietwire-e2e/src/ratchet.rs:403-428 | Eviction keeps the store sorted by chain and number. |
| `LockStepProof.StoreIsBelowCurrent` | crates/quietwire-e2e/src/ratchet.rs:226-227 | Every stored key of the current chain has a number below the chain's counter. |
| `Eviction.ExtensionLosesTheOldest` | crates/quietwire-e2e/src/ratchet.rs:403-428 | Of a sorted store, each key an extension loses is older than every key left, or its chain keeps 1 000 keys and it is older than these. |
| `Eviction.DeliveriesLoseTheOldest` | crates/quietwire-e2e/src/ratchet.rs:403-428 | The same of every reachable delivery, with the two extensions of a ratchet step together. |
| `History.AcceptedNameIsNew` | crates/quietwire-e2e/src/ratchet.rs:201-211 | An accepted frame was neither opened nor evicted before. |
| `History.AcceptKeepsHistory` | crates/quietwire-e2e/src/ratchet.rs:196-258 | After an acceptance every frame gone past is still exactly one of opened, retained, evicted. |
| `History.StepKeepsHistory` | crates/quietwire-e2e/src/ratchet.rs:196-258 | Every step keeps that account of every frame. |
| `Runs.StepKeepsBounds` | crates/quietwire-e2e/src/ratchet.rs:29-31 | Every step keeps both sessions within those limits, whatever the network delivers, so every reachable session is. |
| `Runs.RunKeepsInvariant` | crates/quietwire-e2e/src/ratchet.rs:145-258 | Lock step, history, numbering, counter limits and store caps hold throughout every run. |
| `Runs.SessionsMeet` | crates/quietwire-e2e/src/ratchet.rs:231-258 | Of the two sessions alone: whoever reads the chain its peer is sealing reaches the peer's chain key, and whoever is behind derives the peer's root key and chain key from its own root key and ratchet key. |
| `Runs.EveryRunIsSafe` | crates/quietwire-e2e/tests/ratchet_properties.rs:113-131 | Over every interleaving, loss, duplication and forgery: accepted frames are the peer's, yield the peer's plaintexts, and are never accepted twice. |
| `Runs.ForgeriesAreRefused` | crates/quietwire-e2e/src/ratchet.rs:8-9 | A frame that differs from every frame the peer sent is refused and leaves the session as it was. |
| `Runs.SendDiscipline` | crates/quietwire-e2e/src/ratchet.rs:155-179 | Every chain is numbered 0, 1, 2, ... up to at most 2 000, and no two frames share a message key or a name. |
| `Runs.BlockedExactly` | crates/quietwire-e2e/src/ratchet.rs:160-163 | Sending is blocked exactly for the responder before its first frame and for a full chain. |
| `Runs.OnlyANewChainUnblocks` | crates/quietwire-e2e/src/ratchet.rs:47-49 | A received frame unblocks a blocked session if and only if it opens a new chain. |
| `Runs.ExactOutcome` | crates/quietwire-e2e/src/ratchet.rs:196-258 | The exact result of delivering any genuine frame, error included, told from the counts of the conversation. |
| `Runs.ExactAcceptance` | crates/quietwire-e2e/src/ratchet.rs:196-258 | A genuine frame opens if and only if its key is retained or it is within the 1 000-frame reach; a frame gone past is retained if and only if it was neither opened nor evicted. |
| `Runs.GoneKeysAreRefused` | crates/quietwire-e2e/src/ratchet.rs:42-45 | A frame whose key is gone, a replay or one whose stored key was evicted, never opens and changes nothing; it is an authentication failure exactly when its chain is current or its header asks for at most 1 000 keys of either chain and the key generator works. |
| `ShortConversations.EveryFrameOpensExactlyOnce` | crates/quietwire-e2e/tests/ratchet_properties.rs:113-131 | In every run of at most 1 001 frames in each chain and 10 000 in all, a genuine frame opens if and only if it has not opened before, and a replay is an authentication failure. |
| `ShortConversations.StepLosesNothing` | crates/quietwire-e2e/src/ratchet.rs:403-428 | With at most 1 001 frames in each chain and 10 000 in all, no step evicts a key. |
| `Witnesses.LongChainsLoseFrames` | crates/quietwire-e2e/src/ratchet.rs:335-345 | The bound per chain is the best: a run of 1 002 frames in which the last one, delivered first, is refused as too far ahead. |
| `Witnesses.FullChainsEvict` | crates/quietwire-e2e/src/ratchet.rs:403-428 | A run in which two frames of a full chain are delivered, at least 998 keys are evicted, and an evicted frame is refused. |
| `Liveness.FramesCanStillBeRead` | crates/quietwire-e2e/src/ratchet.rs:196-258 | From every reachable state, a frame of the peer that was neither opened nor evicted is opened by a run that only delivers frames already sent. |
| `Liveness.GoneFramesAreNeverRead` | crates/quietwire-e2e/src/ratchet.rs:201-211 | A frame that was opened or evicted is never opened again, over any run. |
| `Liveness.CanStillBeReadExactly` | crates/quietwire-e2e/src/ratchet.rs:196-258 | So a frame of the peer can still be opened by some run if and only if it was neither opened nor evicted. |
| `Witnesses.ReplayCanBeTooFarAhead` | crates/quietwire-e2e/src/ratchet.rs:42-45 | A run in which a replay is refused as too far ahead instead of as an authentication failure. |
| `Witnesses.LateFramesDoNotUnblock` | crates/quietwire-e2e/src/ratchet.rs:47-49 | A run after which a party is blocked; a frame of its peer is then delivered and opens; and the party is still blocked. |
| `Witnesses.TheftsHeal` | docs/PROTOCOL.md:91 | A run of three frames after which a conversation whose session was stolen at the start meets the conditions under which authenticity has recovered. |
| `Witnesses.OldKeysForge` | docs/PROTOCOL.md:91 | A run in which a session that retains a key is stolen and one round trip follows, after which the thief can still forge a frame under that key. |
| `Secrecy.StolenSessionOpensExactly` | docs/PROTOCOL.md:91 | Of the frames of all chains so far, a stolen session opens exactly those whose keys it retains, those its chains have not reached and, if one of the two ratchet keys of the peer's next chain is known, those of that chain. |
| `Secrecy.NextChainExactly` | docs/PROTOCOL.md:91 | Chain and message keys of the peer's next chain follow from the stolen session if and only if one of its two ratchet keys is known. |
| `Secrecy.RootsExactly` | docs/PROTOCOL.md:91 | A later root key follows from the stolen session if and only if of every two neighbouring ratchet keys in between one is known. |
| `Secrecy.LaterChainsExactly` | docs/PROTOCOL.md:91 | The same of the chain and message keys of every later chain. |
| `Secrecy.BranchesExactly` | crates/quietwire-e2e/src/ratchet.rs:231-243 | A chain that any header opens from such a root key follows if and only if the root key does and one of the two secrets is known. |
| `Secrecy.StaleBranchExactly` | crates/quietwire-e2e/src/ratchet.rs:231-243 | A message key of a chain opened from the root key before the stolen one follows if and only if the chain is the session's own sending chain and the key is not behind it. |
| `Secrecy.UsedKeysAreLost` | docs/PROTOCOL.md:91 | Forward secrecy: no message key used to seal or open can be computed from the session that used it. |
| `Secrecy.OutsideAgain` | docs/PROTOCOL.md:91 | To the root key and the chain of the second ratchet key drawn after the theft, the thief is an outsider again. |
| `Secrecy.SessionsHeal` | docs/PROTOCOL.md:91 | From that ratchet key on, no root, chain or message key is within the thief's reach, even if every later ratchet key is known; only the next two must be unseen. |
| `Secrecy.EveryRunHeals` | docs/PROTOCOL.md:91 | Over every run with the thief as the network in which nothing forged opens, of the chains opened since the theft the thief follows exactly those up to the first link of which neither ratchet key is known. |
| `Secrecy.OutsidersForgeNothing` | docs/PROTOCOL.md:91 | Every run of an outsider is one of these. |
| `Secrecy.HealingTakesARoundTrip` | docs/PROTOCOL.md:91 | Not before: the peer's next chain follows from what was stolen if and only if the session's ratchet key was stolen too. |
| `Recovery.KeysTriedExactly` | crates/quietwire-e2e/src/ratchet.rs:196-258 | The key a session tries for a header, of whatever chain, is in the thief's reach if and only if the stolen session kept it, leads to it, or leads to it with the ratchet keys known. |
| `Recovery.ForgeableExactly` | docs/PROTOCOL.md:91 | A thief can have a frame with some header accepted that the peer did not seal if and only if the reader finds a key for it and that key is in reach. |
| `Recovery.ForgeriesNameOldFrames` | docs/PROTOCOL.md:91 | Once the reader has drawn or read the second new ratchet key, these are exactly the headers, of frames not opened yet, whose keys the stolen session kept or leads to on its own chains, and of the next chain if its ratchet key was stolen too. |
| `Recovery.RetainedKeysOpenForgeries` | crates/quietwire-e2e/src/ratchet.rs:201-207 | Among them is every frame whose key both the stolen session and the reader retain. |
| `Recovery.StepStaysHealed` | docs/PROTOCOL.md:91 | Once both parties are past the old chains and keep none of their keys, no step the thief can cause changes that. |
| `Recovery.AuthenticityRecovers` | docs/PROTOCOL.md:91 | From then on, over every run in which the thief is the network and seals with the stolen keys: accepted frames are the peer's, yield the peer's plaintexts, and are never accepted twice. |
| `OrderIndependence.OnlyTheSetMatters` | crates/quietwire-e2e/src/ratchet.rs:201-229 | Frames of the chain being read and of older ones, all accepted and none evicted, lead to a state determined by the set of their names. |
| `OrderIndependence.OnlyTheSetMattersAcrossAStep` | crates/quietwire-e2e/src/ratchet.rs:196-258 | The same with frames of a new chain among them, whichever of those comes first and takes the ratchet step, and whether older frames come before or after it. |
| `OrderIndependence.AnyOrderEndsTheSame` | crates/quietwire-e2e/src/ratchet.rs:335-375 | Two orders of the same frames end in the same session. |
| `OrderIndependence.AnyOrderAcrossAStepEndsTheSame` | crates/quietwire-e2e/src/ratchet.rs:231-258 | Two orders of the same frames end in the same session, also when they open a new chain, each by another frame. |
| `OrderIndependence.ReachableSessionsReadChains` | crates/quietwire-e2e/src/ratchet.rs:214-229 | Every reachable session with a receiving chain meets the first condition. |
| `OrderIndependence.ReachableSessionsAreReady` | crates/quietwire-e2e/src/ratchet.rs:231-258 | Every reachable session whose peer has a new chain meets the second, and the peer's frames meet theirs. |
| `SimpleRatchet.RatchetParty.constructor` | crates/quietwire-e2e/tests/fixtures/derived/generate.py:193-201 | A new reference party reads and sends nothing yet. |
| `SimpleRatchet.RatchetParty.StartSending` | crates/quietwire-e2e/tests/fixtures/derived/generate.py:203-206 | Derives the sending chain, or fails on a low-order key. |
| `SimpleRatchet.RatchetParty.Encrypt` | crates/quietwire-e2e/tests/fixtures/derived/generate.py:208-217 | Seals under the next message key; counters that do not fit four bytes fail after the chain has moved. |
| `SimpleRatchet.RatchetParty.Decrypt` | crates/quietwire-e2e/tests/fixtures/derived/generate.py:219-228 | Reads a frame on its chain's list, marking it used, with the script's failures and what they leave changed. |
| `SimpleRatchet.RatchetParty.TakeRatchetStep` | crates/quietwire-e2e/tests/fixtures/derived/generate.py:230-235 | Opens a list for the new key and starts sending under the next label. |
| `SimpleRatchet.RatchetParty.DeriveMessageKey` | crates/quietwire-e2e/tests/fixtures/derived/generate.py:237-242 | Grows the list until it holds the frame's key and returns it. |
| `ReferenceLaws.SealsExactly` | crates/quietwire-e2e/tests/fixtures/derived/generate.py:208-217 | Sealing uses up the next message key, fails exactly without a chain or on a counter beyond four bytes, and what is sealed opens under that key. |
| `ReferenceLaws.StartsExactly` | crates/quietwire-e2e/tests/fixtures/derived/generate.py:203-206 | Starting to send fails exactly on a low-order key, changing nothing. |
| `ReferenceLaws.StepsExactly` | crates/quietwire-e2e/tests/fixtures/derived/generate.py:230-235 | A ratchet step fails on a low-order key, changing nothing, or without a label left, with the receiving list opened; otherwise both root derivations are taken. |
| `ReferenceLaws.ReadsExactly` | crates/quietwire-e2e/tests/fixtures/derived/generate.py:219-228 | Under a key already read, a used name is refused and any other is used up, authentic or not; nothing but the list and the names changes. |
| `ReferenceLaws.ReadsNewKeysExactly` | crates/quietwire-e2e/tests/fixtures/derived/generate.py:219-228 | Under a new key, a frame is refused as the ratchet step is, with what that leaves changed, or read on the list the step opened. |
| `ReferenceLaws.NoNameOpensTwice` | crates/quietwire-e2e/tests/fixtures/derived/generate.py:226 | Over every sequence of frames, from any peer, no name opens twice. |
| `ReferenceLaws.ReplaysAreRefusedAlike` | crates/quietwire-e2e/tests/fixtures/derived/generate.py:226 | In every run, a frame accepted once is refused by session and reference alike when it comes again. |
| `Refinement.EncryptSimulates` | crates/quietwire-e2e/tests/fixtures/derived/generate.py:208-217 | Whatever the session seals, the reference seals byte for byte, previous chain length included. |
| `Refinement.AcceptSimulates` | crates/quietwire-e2e/tests/fixtures/derived/generate.py:219-242 | Whatever the session accepts, from any peer, the reference accepts to the same plaintext, as long as a ratchet step meets a new ratchet key. |
| `Refinement.ReusedKeysDiverge` | crates/quietwire-e2e/tests/fixtures/derived/generate.py:223-224 | Otherwise, for a peer that reuses an old ratchet key, the reference never opens the frame: the condition is exact. |
| `Refinement.ReusedKeysCanDiverge` | crates/quietwire-e2e/tests/fixtures/derived/generate.py:219-228 | Three frames from such a peer that a new session opens, while a new reference party opens two and fails on the third. |
| `Refinement.SessionRefinesReference` | crates/quietwire-e2e/tests/fixtures/derived/generate.py:188-242 | In every run, fed exactly the accepted frames, the reference never fails and outputs the same frames and plaintexts. |
| `X3dh.BothSidesAgree` | crates/quietwire-e2e/src/x3dh.rs:92-160 | The responder derives the initiator's key from its message, with and without a one-time prekey. |
| `X3dh.OnlyLowOrderKeysFail` | crates/quietwire-e2e/src/x3dh.rs:84-85 | Each side fails exactly on a low-order key of the other, as an invalid public key. |
| `X3dh.InitiatorDerives` | crates/quietwire-e2e/src/x3dh.rs:92-182 | The key an initiator derives, byte by byte: which byte of which key, prekey or ciphertext stands at every offset of transcript and key material, their lengths, and the message. |
| `X3dh.ResponderDerives` | crates/quietwire-e2e/src/x3dh.rs:145-192 | The same of the key a responder derives. |
| `X3dh.BundleAnswers` | crates/quietwire-e2e/src/x3dh.rs:133-139 | A bundle holds the identity and the public halves of the prekeys. |
| `X3dh.TranscriptIsInjective` | crates/quietwire-e2e/src/x3dh.rs:163-182 | The transcript determines both identities, the prekeys, the absence of a one-time prekey and the message. |
| `X3dh.SharedKeyIsInjective` | crates/quietwire-e2e/src/x3dh.rs:185-192 | Equal shared keys come from equal secrets and equal transcripts. |
| `X3dh.KeysBindTheHandshake` | docs/PROTOCOL.md:75-77 | Both sides hold the same key if and only if they agree on identities, bundle and message. |
| `X3dh.BreakingTakesBoth` | docs/PROTOCOL.md:79 | An eavesdropper computes the key exactly with the decapsulation key and one scalar of every Diffie-Hellman pair. |
| `Handover.HandshakeStartsAConversation` | crates/quietwire-e2e/src/ratchet.rs:104-143 | The sessions started from a handshake satisfy the conversation invariant, and whoever lacks the decapsulation key or both scalars of some Diffie-Hellman pair, and holds no key derived from the shared key, is an outsider. |
| `HeaderCodec.ToBytes` | crates/quietwire-e2e/src/ratchet.rs:281-288 | Fills the 40-byte buffer with key, previous length and number, little-endian. |
| `HeaderCodec.HeadersAreByteStrings` | crates/quietwire-e2e/src/ratchet.rs:271-288 | Headers and 40-byte strings are in bijection. |
| `HeaderCodec.HeadersAreLaidOut` | crates/quietwire-e2e/src/ratchet.rs:271-288 | The key in bytes 0..32, the previous length in 32..36 and the number in 36..40, lowest byte first, written and read. |
| `Cell.ToBytes` | crates/quietwire-packet/src/cell.rs:221-232 | Fills the 512-byte buffer field by field. |
| `Cell.FromBytes` | crates/quietwire-packet/src/cell.rs:193-217 | Reads a cell or reports what is wrong with the input. |
| `Cell.WriteAad` | crates/quietwire-packet/src/cell.rs:104-111 | Fills the 42-byte associated data. |
| `Cell.CellRoundTrip` | crates/quietwire-packet/src/cell.rs:193-232 | A cell written is read back. |
| `Cell.CellsAreLaidOut` | crates/quietwire-packet/src/cell.rs:221-232 | Every field at its wire offset, by number. |
| `Cell.HopsExactly` | crates/quietwire-packet/src/cell.rs:128-157 | Hop budgets are built exactly with ttl at most 64 and copies at most 15, and spent one hop at a time until none is left. |
| `Cell.ReadsExactlyTheCells` | crates/quietwire-packet/src/cell.rs:193-217 | Reads exactly the 512-byte inputs of version 1 with ttl at most 64 and copies at most 15, writes them back unchanged, and reports the first defect of any other. |
| `Cell.AadIsTheImmutableRuns` | docs/PROTOCOL.md:198 | The associated data is bytes 0..2 and 4..44 and determines the authenticated head. |
| `Cell.PathsSpendTheBudget` | crates/quietwire-packet/src/cell.rs:285-288 | A cell passes k relays exactly when k is at most its ttl, and arrives changed in byte 2 only. |
| `Memtest.ContainsIsSubstring` | crates/quietwire-crypto-memtest/src/freed_block.rs:35-47 | The scan finds a pattern exactly when it is a substring of the block. |
| `Memtest.LeftInExactly` | crates/quietwire-crypto-memtest/src/lib.rs:183-190 | A watch reports a block exactly when it contains the secret somewhere, or has the watched size and a byte that is not zero. |
| `Memtest.PatternsExactly` | crates/quietwire-crypto-memtest/src/lib.rs:198-213 | Exactly the secrets of at most 64 bytes with one that is not zero can be watched, and the pattern keeps the secret. |
| `Memtest.WipedBlocksAreNeverCounted` | crates/quietwire-crypto-memtest/src/lib.rs:198-209 | No watch that can be started reports an all-zero block. |
| `Memtest.ScanningAllocator.constructor` | crates/quietwire-crypto-memtest/src/lib.rs:43-49 | A new allocator has an empty history and sixteen free slots. |
| `Memtest.ScanningAllocator.StartWatch` | crates/quietwire-crypto-memtest/src/lib.rs:73-87 | A watch is live from here on and owns a slot, or is refused, exactly when sixteen are live. |
| `Memtest.ScanningAllocator.WatchBytes` | crates/quietwire-crypto-memtest/src/lib.rs:57-60 | Refuses exactly all-zero, empty and overlong secrets, changing nothing; otherwise starts a watch. |
| `Memtest.ScanningAllocator.WatchBlocksOfSize` | crates/quietwire-crypto-memtest/src/lib.rs:69-71 | Starts a watch for blocks of one size. |
| `Memtest.ScanningAllocator.Inspect` | crates/quietwire-crypto-memtest/src/lib.rs:93-97 | Going over the slots keeps them the outcome of the history, with the freed block added to it. |
| `Memtest.Watch.UnwipedFrees` | crates/quietwire-crypto-memtest/src/lib.rs:141-145 | The number of frees since the watch was started whose block contains the secret, or has the watched size and a byte that is not zero. |
| `Memtest.Watch.Drop` | crates/quietwire-crypto-memtest/src/lib.rs:148-152 | Ends this watch and no other, and frees its slot. |
| `Memtest.CountsAreExact` | crates/quietwire-crypto-memtest/src/lib.rs:57-152 | Over every history, live watches own distinct slots and each count is the number of such frees since its start. |
| `Memtest.FullExactly` | crates/quietwire-crypto-memtest/src/lib.rs:73-79 | There are never more than sixteen live watches, and no slot is free exactly when there are sixteen. |

## Left out

- Primitives: X25519, Ed25519, ML-KEM-768, XChaCha20-Poly1305, HKDF, HMAC, BLAKE3 and Argon2id are free terms, and the numbers of the primitives' own test vectors play no part.
- Zeroization, locked memory, stack scrubbing, constant-time comparison, inline assembly and the `/proc` scan: not visible at the level of values. The byte load of a freed block is a read of the block.
- Drawing randomness: a nonce or ratchet key is an argument, with the generator's failure as an error value. Whether the generator was called by a refused frame is not modelled.
- Plaintexts are opaque: nothing is learnt about keys from reading one.
- `HeaderCodec` works on 32-byte keys while sessions work on points; the bijection between headers and byte strings is what justifies using the header itself as associated data.
- SkippedStore.SkippedKeys.Extend: the deque is a sequence in a field, so its memory layout and amortised cost are not modelled.
- Session.Session.DecryptAfterRatchetStep: the assignments after authentication are a method of their own, `Commit`, which the crate writes in line.
- X3dh.BreakingTakesBoth: the randomness of the encapsulation is taken to be known to the initiator alone.
- Refinement.SessionRefinesReference: the reference's list of future ratchet keys is supplied one at a time, each being the key the session draws.
- Secrecy.EveryRunHeals: what follows once a session has accepted a frame the thief forged.
- OrderIndependence.OnlyTheSetMattersAcrossAStep: at most one new chain is opened along the way, and sends in between are not modelled.
- Memtest.Watch.Drop: that a watch is dropped once, which the borrow checker sees to, is a precondition, with the event that started it as a ghost argument.
- Memtest.ScanningAllocator.Inspect: the mutex is not modelled, since every operation holds it throughout; a count is unbounded where the crate's is 64 bits wide.
- The wrappers of `hierarchy.rs` and `kdf.rs`: their round trips follow in one step from the sealing model.
- Verification of prekey signatures, safety numbers and contact establishment happen before a bundle reaches the modelled code.
- Epoch tags, spray-and-wait routing, digests, cover traffic, the duty-cycle ledger, reassembly and the duress store: specified, but not implemented in the repository.
- The sealing of a frame into a cell is not implemented either; a cell's payload is opaque bytes.
- The random choice of a cell's flags byte: a statistical property.
- Continuous-integration scripts, the timing harness, foreign-function bindings, fixtures and error display text.

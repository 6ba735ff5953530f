# Verified model of a Lightning node's core

This Dafny project models the parts of the Node-Lightning monorepo that carry its protocols, and
proves what they are for. It stands alone; `dafny verify dfyconfig.toml` checks all of it.

| files | what they model | main results |
|---|---|---|
| `CommitmentSecrets` | the 49-slot store of per-commitment secrets (BOLT #3) | `StoreAgreesWithLog`, `AcceptedIffConsistent`, `HonestSecretsAccepted`, `OneBitIsOneHash` |
| `NoiseState`, `NoiseSocket`, `NoiseStream`, `KeyRotation`, `NoiseHandshake`, `NoiseWire` | the handshake, message framing and key rotation of BOLT #8 | `HandshakeIs`, `StreamDelivered`, `AnyBytesRead`, `RotationSchedule`, `EndsAgreeIff`, `TwoWayDelivered`, `CrossedRotations` |
| `CommitmentTx`, `CommitmentLaws`, `CommitmentOutputs`, `ChannelOpening`, `ChannelLimits` | commitment transactions and the checks before them | `OutputsAre`, `Conservation`, `PeersAgree`, `OrderDoesNotMatter`, `OpenedIff`, `OpenedChannelWorks` |
| `BlockSync` | the block differ and the block watcher | `ReferenceIsRight`, `BothAgree` |
| `GossipFilter`, `GossipOrder`, `GossipSignatures` | the gossip filter with its pending store (BOLT #7) | `RunSettles`, `PublicIsSigned`, `RelayedIsNew`, `OrderDoesNotMatter`, `NewestHeldIff` |
| `GossipRelay`, `RelayRuns`, `RelayQueue` | the rumour queue | `QueuedIsNewest`, `NeverSentTwice`, `AllDeliveredIff` |
| `StateTree`, `ChannelEvents`, `ChannelRuns`, `ChannelPhases`, `ChannelManager`, `ManagerHearing` | the hierarchical state machine that opens a channel (BOLT #2) | `ConstructHandles`, `BroadcastAfterSigned`, `ReadySentAfterDepth`, `NormalIff`, `FailingIff`, `OnDiskIff`, `HeardIff`, `MessageReachesIff` |
| `EventQueue`, `EventQueueRuns` | the serialising event queue, as steps | `RunTally`, `ReachedInTurn`, `Drains` |
| `LinkedList` | the doubly linked list and the queue on it | `LinkedList.Remove`, `Queue.Dequeue` |
| `Bech32`, `Bech32Field`, `WordConversion`, `Base58`, `Base32`, `Crc32c` | codecs and a checksum | `StepIsRemainder`, `DecodesIffEncoded`, `OneSymbolErrorDetected`, `RoundTripIff`, `CrcIsRemainder` |
| `WordCursor`, `InvoiceAmount`, `InvoiceFields`, `Invoice`, `InvoiceText` | payment requests of BOLT #11 | `InvoiceRoundTrip`, `DecodedIsSigned`, `PrefixRoundTripIff`, `FieldsBack` |
| `BufferIo`, `CountedLists`, `TxCodec`, `TxLayout`, `TxStreams`, `BlockCodec` | Bitcoin transactions and blocks as bytes | `TransactionIs`, `TxBackIff`, `BlockBackIff`, `CalcSize` |
| `Bits`, `Common` | shifts, masks and exclusive or on natural numbers; optional values | |

Hashes, signatures, key agreement, key derivation and authenticated encryption are function-valued
parameters. What is asked of them is stated where it is used: `NoiseState.Lawful` (decryption undoes
encryption, the tag is 16 bytes, both sides of a key agreement compute the same value),
`Invoice.Lawful` (the signer's public key verifies a signature and is recovered from it) and
`KeyRotation.Apart` (the derivations that two ends make do not collide). JavaScript numbers are modelled
as natural numbers, with each mask, shift and 32-bit truncation written out. An exception is a
result (`None`, `Err`, `Throw`, `Crashed`).

Objects whose methods update their fields are classes. The method of a class is proved equal to a
function of its old state, and the results about runs are lemmas about those functions. What those
functions compute is stated once more without them, in the terms of the standard: see the lemmas whose
names end in Is, Are or Iff. Where the
program's handlers are asynchronous, the events of a channel, of the manager and of the relay are
taken one at a time: a handler that waits is finished before the next event. Only the event queue is
modelled with what happens while a handler waits.

## Where the code does less than it seems to

- `BlockSync.Diff`: for a prior block higher than the current one the loop keeps the height gap and
  always fails.
- `GossipOrder.NewestHeldIff`: a message that waits is replaced by a later one whatever their
  timestamps, so an older update can become the public one (`OlderReplacesNewer`).
- `RelayRuns.AllDeliveredIff`: taking an entry out of the queue does not move the peers' indices, so
  a replacement behind a peer's index makes that peer skip an entry (`ReplacementNeverSent`,
  `ReplacementSkips`).
- `KeyRotation.EndsAgreeIff`: one chaining key serves both directions, so rotations that cross on the
  wire leave the two ends with different keys (`CrossedRotations`).
- `ChannelRuns.EarlyReadyLost`: the state before confirmation has no handler for channel_ready, so a
  peer that sent its only one then never makes the channel normal (`NormalIff`).
- `ChannelRuns.ConfirmingBlockWaits`: with a minimum depth of 1 the confirming block is deep enough,
  but channel_ready waits for another block.
- `ChannelRuns.OnDiskIff`: entering the abandoned state saves the channel again right after its
  removal from disk, and a channel_ready that arrives while awaiting depth is not saved
  (`ReadyNotSaved`).
- `ChannelManager.MessageReachesIff`: comparing with a channel that has no id is an exception, so
  funding_signed and channel_ready for a channel are lost while one opened before it has not come as
  far as funding_created. One that failed or was abandoned before that stays in the list, and then
  they are lost for ever (`LostForever`, `FailedFirstLosesSecond`).
- The comment on `createChannelReadyMessage` (packages/lightning/lib/channels/Helpers.ts:866-879)
  promises the second per-commitment point. Nothing in the program advances the commitment number
  before, so the message carries the point of number 0.
- `LinkedList.NodeAt`: the length itself counts as in range and gives null; removing there is a null
  dereference that leaves the list as it was.
- `Base58.RoundTripIff`: a buffer of n zero bytes decodes to n + 1; an empty one cannot be encoded.
- `Base32.LeftOfForeignIsLost`: a character outside the alphabet counts as -1 and is no error; its ones
  cover all that stands to the left of it.
- The comment on `sortCommitmentOutputs` promises a length-first comparison of scripts; the code
  compares bytes, and the model follows the code.
- `TxCodec.TxBackIff`: a transaction with outputs and no inputs is taken for a marked one. The comment
  on `parse` expects an exception, after which the second attempt of `fromBuffer` would give it back;
  that happens for many (`RefusedComesBack`), but others are read without one, as another transaction
  (`RoundValueMisread`); `KeyHashBackIff` draws the line for the most usual output.
- `WordCursor.NumberRoundTripIff`: the shifts are those of signed 32-bit integers, so a timestamp or an
  expiry of 2^31 or more does not come back.
- A field of type 0 in an invoice is called padding, but its length is read and its words are not
  skipped (`InvoiceFields.ReadField`).
- An invoice amount of zero is written as no amount, and no prefix with amount zero is accepted
  (`InvoiceAmount.PrefixRoundTripIff`).
- `usedSigRecovery` of a decoded invoice is true when a payee is named, that is when no key was
  recovered.

## Model

| member | source | states |
|---|---|---|
| `CommitmentSecrets.Derive` | packages/lightning/lib/channels/CommitmentSecret.ts:28-41 | the loop equals the recursive derivation, for every seed, index and bit count |
| `CommitmentSecrets.PrefixLaw` | packages/lightning/lib/channels/CommitmentSecret.ts:28-41 | deriving i is deriving i with its low b bits cleared, and from there the low b bits |
| `CommitmentSecrets.CalcIndex` | packages/lightning/lib/channels/CommitmentSecretStore.ts:21-28 | the slot of an index is the number of its trailing zero bits |
| `CommitmentSecrets.LowestBitMeaning` | packages/lightning/lib/channels/CommitmentSecretStore.ts:21-28 | slot b exactly when bit b is the lowest bit set, 48 only for zero |
| `CommitmentSecrets.MaskIsPrefix` | packages/lightning/lib/channels/CommitmentSecretStore.ts:69-83 | the mask test of the lookup is equality of all bits from b up |
| `CommitmentSecrets.CommitmentSecretStore.constructor` | packages/lightning/lib/channels/CommitmentSecretStore.ts:30-35 | 49 empty slots |
| `CommitmentSecrets.CommitmentSecretStore.Insert` | packages/lightning/lib/channels/CommitmentSecretStore.ts:45-61 | refuses, changing nothing, when a lower slot is not derived from the secret; otherwise overwrites one slot |
| `CommitmentSecrets.CommitmentSecretStore.Find` | packages/lightning/lib/channels/CommitmentSecretStore.ts:69-83 | finds what the slot invariant says, or nothing |
| `CommitmentSecrets.ReplayKeepsInv` | packages/lightning/lib/channels/CommitmentSecretStore.ts:45-61 | after any accepted descending log every filled slot b holds the smallest index received with b trailing zeros |
| `CommitmentSecrets.StoreAgreesWithLog` | packages/lightning/lib/channels/CommitmentSecretStore.ts:45-83 | 49 slots agree with the full log: every accepted secret is derived back exactly, every index not yet received throws |
| `CommitmentSecrets.AcceptedIffConsistent` | packages/lightning/lib/channels/CommitmentSecretStore.ts:45-61 | a log is accepted if and only if each secret derives every earlier one that its index is a prefix of |
| `CommitmentSecrets.AcceptedIffPrefixConsistent` | packages/lightning/lib/channels/CommitmentSecretStore.ts:45-61 | the same for one more secret after an accepted log |
| `CommitmentSecrets.HonestSecretsAccepted` | packages/lightning/lib/channels/CommitmentSecretStore.ts:45-61 | secrets derived from one seed in descending order are never refused |
| `CommitmentSecrets.LastSecretIsTheSeed` | packages/lightning/lib/channels/CommitmentSecretStore.ts:45-83 | once index 0 is accepted, every secret is derived from it alone |
| `CommitmentSecrets.OneBitIsOneHash` | packages/lightning/lib/channels/CommitmentSecret.ts:28-41 | the secret for 2^b is the hash of the seed with bit b % 8 of byte b / 8 flipped and nothing else |
| `CommitmentSecrets.HighestBitIsFlipped` | packages/lightning/lib/channels/CommitmentSecret.ts:28-41 | any index: the first hash taken is of the prefix with the highest set bit of the index flipped, and the lower bits follow |
| `NoiseState.NoiseState.InitiatorFirstAct` | packages/noise/lib/noise-state.ts:132-164 | writes act 1 as the act function, from any state |
| `NoiseState.NoiseState.ReceiveFirstAct` | packages/noise/lib/noise-state.ts:251-288 | the checks of act 1 in order, with what each failure leaves behind |
| `NoiseState.NoiseState.ReceiverSecondAct` | packages/noise/lib/noise-state.ts:290-319 | writes act 2 |
| `NoiseState.NoiseState.InitiatorSecondAct` | packages/noise/lib/noise-state.ts:166-205 | the checks of act 2 |
| `NoiseState.NoiseState.InitiatorThirdAct` | packages/noise/lib/noise-state.ts:207-249 | writes act 3 and derives the message keys |
| `NoiseState.NoiseState.ReceiveThirdAct` | packages/noise/lib/noise-state.ts:321-370 | the checks of act 3; learns the initiator static key |
| `NoiseState.NoiseState.EncryptMessage` | packages/noise/lib/noise-state.ts:372-395 | two seals under consecutive nonces, rotating only after the body; too long a message is refused |
| `NoiseState.NoiseState.DecryptLength` | packages/noise/lib/noise-state.ts:397-407 | opens the length under the receiving nonce and advances it |
| `NoiseState.NoiseState.DecryptMessage` | packages/noise/lib/noise-state.ts:409-420 | opens the body, advances and rotates at 1000 |
| `NoiseState.HandshakeMirrors` | packages/noise/lib/noise-state.ts:132-370 | three honest acts all succeed and leave mirrored keys; the responder learns who calls |
| `NoiseSocket.NoiseSocket.InitiateHandshake` | packages/noise/lib/noise-socket.ts:205-214 | act 1 is written and the reply awaited |
| `NoiseSocket.NoiseSocket.ProcessInitiator` | packages/noise/lib/noise-socket.ts:216-235 | act 1 is read once 50 bytes are there |
| `NoiseSocket.NoiseSocket.ProcessInitiatorReply` | packages/noise/lib/noise-socket.ts:237-257 | act 3 is read once 66 bytes are there |
| `NoiseSocket.NoiseSocket.ProcessResponderReply` | packages/noise/lib/noise-socket.ts:259-282 | act 2 is read once 50 bytes are there |
| `NoiseSocket.NoiseSocket.ProcessPacketLength` | packages/noise/lib/noise-socket.ts:284-308 | a length is read once 18 bytes are there |
| `NoiseSocket.NoiseSocket.ProcessPacketBody` | packages/noise/lib/noise-socket.ts:310-344 | a body is read once all of it is there, pushed, and reading blocks when the push is refused |
| `NoiseSocket.NoiseSocket.OnData` | packages/noise/lib/noise-socket.ts:153-203 | the do/while loop runs turns until one makes no progress; an error destroys the socket |
| `NoiseSocket.NoiseSocket.Read` | packages/noise/lib/noise-socket.ts:346-361 | unblocks, or does nothing |
| `NoiseSocket.NoiseSocket.Write` | packages/noise/lib/noise-socket.ts:364-367 | what is written is the two seals |
| `NoiseStream.HonestPairPlays` | packages/noise/lib/noise-state.ts:132-370 | every honest pair has a transcript the following results are about |
| `NoiseStream.TranscriptMirrors` | packages/noise/lib/noise-state.ts:132-370 | in it no act fails and the ends are mirrored |
| `NoiseStream.StreamDelivered` | packages/noise/lib/noise-socket.ts:153-361 | for any messages, any chunking, any backpressure and up to 499 messages written meanwhile: the socket never fails, what it pushed is a prefix of what was sent, its key, nonce and chaining key are the sender's at that point, and all is pushed once all is read |
| `NoiseStream.OnDataSettles` | packages/noise/lib/noise-socket.ts:153-203 | after the loop another turn would change nothing |
| `NoiseStream.RotationSchedule` | packages/noise/lib/noise-state.ts:438-464 | after n messages exactly n / 500 rotations, never between a length and its body |
| `KeyRotation.MessageIsTwoUses` | packages/noise/lib/noise-state.ts:372-420 | a message sent or received advances its channel twice |
| `KeyRotation.EndIsRotated` | packages/noise/lib/noise-state.ts:372-464 | whatever order an end sends and receives in, its two keys and chaining key are the starting ones rotated in the order its 1000th uses fell |
| `KeyRotation.NonceIsCount` | packages/noise/lib/noise-state.ts:422-464 | each nonce counts the uses of its own direction since its last rotation |
| `KeyRotation.ChainAgreesIff` | packages/noise/lib/noise-state.ts:450-464 | two histories leave the same chaining key if and only if they are the same, when the derivations made in them neither collide nor give a starting value |
| `KeyRotation.KeyAgreesIff` | packages/noise/lib/noise-state.ts:450-464 | they leave the same key of a direction if and only if they are the same up to its last rotation |
| `KeyRotation.EndsAgreeIff` | packages/noise/lib/noise-state.ts:372-464 | two mirrored ends, each sending and receiving in any order: they hold the same keys if and only if they rotated in the same order, and so for the key of each direction up to its last rotation |
| `KeyRotation.OneWay` | packages/noise/lib/noise-state.ts:422-464 | uses of one direction rotate it every 1000, whatever the other did before |
| `KeyRotation.CrossedRotations` | packages/noise/lib/noise-state.ts:450-464 | 500 messages each way before either is read: the key one end reads under is not the one the other writes under, at the same nonce |
| `KeyRotation.CrossingCanBeApart` | packages/noise/lib/noise-state.ts:450-464 | a derivation of 64 bytes from keys of 32 can meet what the crossing asks of it |
| `KeyRotation.TwoWayDelivered` | packages/noise/lib/noise-state.ts:372-464 | traffic both ways after which both ends have rotated in the same order: what one end seals at any point of it the other opens when it has used that direction as often |
| `NoiseHandshake.HandshakeIs` | packages/noise/lib/noise-state.ts:132-370 | the three acts of an honest pair, spelled: the chaining key takes in three shared secrets, the hash takes in the prologue, the static key and all that is sent, and the message keys are the halves of a last derivation |
| `NoiseHandshake.Act1Judged` | packages/noise/lib/noise-state.ts:251-288 | any bytes: act 1 is accepted if and only if it has 50 bytes, version 0 and a tag that opens under the agreed key; otherwise which error |
| `NoiseHandshake.Act2Judged` | packages/noise/lib/noise-state.ts:166-205 | the same for act 2, and the state it leaves |
| `NoiseHandshake.Act3Judged` | packages/noise/lib/noise-state.ts:321-370 | the same for act 3: the static key it names and the message keys it leaves |
| `NoiseWire.MessageIs` | packages/noise/lib/noise-state.ts:372-464 | the bytes of the n-th message: its length and itself, sealed under the key of its five hundred with nonces that count both |
| `NoiseWire.AnyBytesRead` | packages/noise/lib/noise-socket.ts:153-361 | any bytes of any peer, cut up anyhow: what is pushed is what opens, in order, and the socket is destroyed if and only if something does not open, with nothing pushed after it |
| `NoiseWire.DestroyedForever` | packages/noise/lib/noise-socket.ts:153-203 | a destroyed socket pushes and sends nothing from what still arrives |
| `NoiseWire.ActsTaken` | packages/noise/lib/noise-socket.ts:216-282 | an act is answered, and the socket ready, if and only if it is accepted; a refused one destroys the socket with nothing sent |
| `CommitmentTx.CreateCommitment` | packages/lightning/lib/channels/TxFactory.ts:71-203 | the transaction and HTLC list of the specification, for any HTLCs, either orientation |
| `CommitmentTx.FindUnpruned` | packages/lightning/lib/channels/TxFactory.ts:104-127 | keeps exactly the HTLCs that pay dust and their second-stage fee |
| `CommitmentTx.AddHtlcs` | packages/lightning/lib/channels/TxFactory.ts:137-172 | one output per kept HTLC, with the script its direction demands |
| `CommitmentTx.RevealUndoesObscure` | packages/lightning/lib/channels/CommitmentNumber.ts:28-88 | the number hidden in sequence and lock time is revealed again, for every 48-bit number and hash |
| `CommitmentTx.SortSorts` | packages/lightning/lib/channels/TxFactory.ts:317-332 | the result is sorted and a permutation |
| `CommitmentTx.KeyLeTotal` | packages/lightning/lib/channels/TxFactory.ts:317-332 | the order of the comparator is total, and equal only for equal keys |
| `CommitmentTx.SortedKeysUnique` | packages/lightning/lib/channels/TxFactory.ts:317-332 | two sorted lists with the same keys are the same list |
| `CommitmentTx.SortingForgetsOrder` | packages/lightning/lib/channels/TxFactory.ts:317-332 | permuted entries sort to the same keys |
| `CommitmentLaws.Conservation` | packages/lightning/lib/channels/TxFactory.ts:105-203 | outputs + trimmed HTLCs + trimmed balances + min(fee, funder balance) = local + remote + HTLCs, exactly |
| `CommitmentLaws.KeptIffSpendable` | packages/lightning/lib/channels/TxFactory.ts:105-304 | an HTLC is kept if and only if its second-stage transaction pays at least dust without clamping to zero |
| `CommitmentLaws.SortNeverThrows` | packages/lightning/lib/channels/TxFactory.ts:317-332 | no two entries of a commitment meet the comparator case that has no HTLC to compare |
| `CommitmentLaws.ReverseIsFlip` | packages/lightning/lib/channels/TxFactory.ts:105-203 | building with reverseHtlcs equals building with every direction flipped |
| `CommitmentLaws.OrderDoesNotMatter` | packages/lightning/lib/channels/TxFactory.ts:105-203 | the values and scripts of the outputs do not depend on the order of the HTLCs |
| `CommitmentOutputs.OutputsAre` | packages/lightning/lib/channels/TxFactory.ts:104-203 | the outputs as a multiset: each HTLC worth its second stage under the script of its direction, the balance after the fee of the holder to the delayed script and of the counterparty to its key, unless dust |
| `CommitmentOutputs.BalancesPaidIff` | packages/lightning/lib/channels/TxFactory.ts:174-190 | an output to the delayed script exists if and only if the holder's balance after the fee is no dust, and is that balance; the same for the counterparty's key; any other output is that of an HTLC |
| `CommitmentOutputs.OutputsInOrder` | packages/lightning/lib/channels/TxFactory.ts:317-332 | outputs stand by satoshis and then by the first script byte that differs |
| `CommitmentOutputs.HtlcsFollowOutputs` | packages/lightning/lib/channels/TxFactory.ts:192-203 | the list of HTLCs follows the outputs, and outputs that look the same stand by expiry |
| `CommitmentOutputs.FieldsAre` | packages/lightning/lib/channels/TxFactory.ts:90-102 | version 2, the funding outpoint, and the obscured number in the low three bytes of sequence and lock time under 0x80 and 0x20 |
| `ChannelOpening.PeersAgree` | packages/lightning/lib/channels/Helpers.ts:670-806 | for mirrored channels the remote commitment one peer builds is the local commitment of the other |
| `ChannelOpening.OpenedChannelWorks` | packages/lightning/lib/channels/Helpers.ts:253-394 | a channel that passes createChannel and the acceptance checks gives both first commitments an unclamped fee and at least one output |
| `ChannelLimits.OpenedIff` | packages/lightning/lib/channels/Helpers.ts:253-394 | createChannel succeeds if and only if no limit of BOLT #2 is broken, and reports one that is |
| `ChannelLimits.TakenIff` | packages/lightning/lib/channels/Helpers.ts:531-625 | accept_channel is taken if and only if it offends no limit, and what is reported is one that it offends |
| `ChannelLimits.ChannelIs` | packages/lightning/lib/channels/Channel.ts:178-201 | what the channel holds after request and answer: balances that add up, and each limit and key on the side it binds or belongs to |
| `ChannelLimits.LocalIs` | packages/lightning/lib/channels/Helpers.ts:763-806 | our first commitment: who funds, delays, balances and from which points each key is derived |
| `ChannelLimits.RemoteIs` | packages/lightning/lib/channels/Helpers.ts:670-713 | the same for theirs |
| `BlockSync.Diff` | packages/lightning-bitcoind/lib/BlockDiffer.ts:35-68 | returns the specified difference exactly when prior is not higher than current, and fails otherwise |
| `BlockSync.ReferenceIsRight` | packages/lightning-bitcoind/lib/BlockDiffer.ts:35-68 | the difference meets at the highest common ancestor, and undoing then applying it turns one chain into the other |
| `BlockSync.Lookup` | packages/lightning-bitcoind/lib/BlockWatcher.ts:70-107 | what bitcoind answers about a header: on the best chain or not, and the next |
| `BlockSync.BlockWatcher.Sync` | packages/lightning-bitcoind/lib/BlockWatcher.ts:70-107 | one sync fires all pending disconnects and connects and ends on the tip |
| `BlockSync.BlockWatcher.Follow` | packages/lightning-bitcoind/lib/BlockWatcher.ts:70-107 | the inner loop, from any known block of the tree |
| `BlockSync.UndoFirst` | packages/lightning-bitcoind/lib/BlockWatcher.ts:84-92 | off the best chain the first thing pending is to disconnect the known block |
| `BlockSync.ConnectFirst` | packages/lightning-bitcoind/lib/BlockWatcher.ts:93-105 | on it, to connect its successor |
| `BlockSync.BothAgree` | packages/lightning-bitcoind/lib/BlockDiffer.ts:35-68 | the differ and the watcher, run on the same tree, produce the same disconnects and connects |
| `GossipFilter.GossipMemoryStore.SaveChannelAnnouncement` | packages/lightning/lib/gossip/GossipMemoryStore.ts:33-41 | stores the announcement and indexes it under both nodes |
| `GossipFilter.GossipMemoryStore.SaveChannelUpdate` | packages/lightning/lib/gossip/GossipMemoryStore.ts:43-45 | stores it under channel and direction |
| `GossipFilter.GossipMemoryStore.SaveNodeAnnouncement` | packages/lightning/lib/gossip/GossipMemoryStore.ts:47-49 | stores it under its node |
| `GossipFilter.GossipMemoryStore.DeleteChannelUpdate` | packages/lightning/lib/gossip/GossipMemoryStore.ts:115-117 | removes one key |
| `GossipFilter.GossipMemoryStore.DeleteNodeAnnouncement` | packages/lightning/lib/gossip/GossipMemoryStore.ts:119-122 | removes one key |
| `GossipFilter.GossipFilter.ValidateMessage` | packages/lightning/lib/gossip/GossipFilter.ts:40-51 | any message: new stores and result as specified, stores well keyed |
| `GossipFilter.GossipFilter.ValidateNodeAnnouncement` | packages/lightning/lib/gossip/GossipFilter.ts:57-84 | old ones are dropped, ones of unknown nodes wait, others need a signature |
| `GossipFilter.GossipFilter.ValidateChannelUpdate` | packages/lightning/lib/gossip/GossipFilter.ts:210-244 | updates of unknown channels wait; older ones are dropped |
| `GossipFilter.GossipFilter.ValidateChannelAnnouncement` | packages/lightning/lib/gossip/GossipFilter.ts:86-205 | a new channel replays what waited for it and for its nodes, stopping at the first error |
| `GossipFilter.AnnouncementValidated` | packages/lightning/lib/gossip/GossipFilter.ts:181-244 | an announcement and the replay of what waited for it keep both stores well keyed, at each step |
| `GossipFilter.ValidatedKeepsValid` | packages/lightning/lib/gossip/GossipFilter.ts:40-244 | every message keeps both stores well keyed |
| `GossipOrder.RunSettles` | packages/lightning/lib/gossip/GossipFilter.ts:57-244 | for every signed sequence, any timestamps: both stores hold exactly what a function of the sequence says, and no message fails |
| `GossipOrder.KeyedSettles` | packages/lightning/lib/gossip/GossipFilter.ts:57-84 | one update or node announcement keeps that |
| `GossipOrder.AnnouncementSettles` | packages/lightning/lib/gossip/GossipFilter.ts:86-205 | one announcement keeps that: what waited moves over, nothing else moves |
| `GossipOrder.AnnouncementDrains` | packages/lightning/lib/gossip/GossipFilter.ts:86-205 | the four replays empty the pending store of the channel and its nodes, also when both nodes are one |
| `GossipOrder.LastMessageIsHeld` | packages/lightning/lib/gossip/GossipFilter.ts:57-244 | timestamps rising per key: each public key holds its last message, the pending store exactly the rest |
| `GossipOrder.OrderDoesNotMatter` | packages/lightning/lib/gossip/GossipFilter.ts:57-244 | any two interleavings of the same streams end with the same stores |
| `GossipOrder.NewestHeldIff` | packages/lightning/lib/gossip/GossipFilter.ts:210-244 | any timestamps: the newest message is the one held if and only if the last to wait was the newest to wait or one no older than all of those came later |
| `GossipOrder.OlderReplacesNewer` | packages/lightning/lib/gossip/GossipFilter.ts:210-244 | a pending newer update is replaced by an older one, which then becomes public |
| `GossipSignatures.PublicIsSigned` | packages/lightning/lib/gossip/GossipFilter.ts:57-244 | after any messages, signed or not, every public message has its signature, updates by the node that the announcement names for their direction |
| `GossipSignatures.RelayedIsNew` | packages/lightning/lib/gossip/GossipFilter.ts:57-244 | after any messages: what is passed on is exactly what became public, none of it twice, and nothing public is replaced but by something newer |
| `GossipSignatures.ForgeryRefused` | packages/lightning/lib/gossip/GossipFilter.ts:57-244 | after any messages a bad signature changes neither store and passes nothing on; unless the message is stale it is an error |
| `GossipSignatures.AnnouncementErrsIff` | packages/lightning/lib/gossip/GossipFilter.ts:86-205 | after any messages: a signed announcement of a new channel is an error if and only if a forgery waited for it |
| `GossipRelay.GossipRelay.AddPeer` | packages/lightning/lib/gossip/GossipRelay.ts:128-130 | a peer starts at the end of the queue, also one already there |
| `GossipRelay.GossipRelay.RemovePeer` | packages/lightning/lib/gossip/GossipRelay.ts:136-138 | forgets the index |
| `GossipRelay.GossipRelay.EnqueueMessage` | packages/lightning/lib/gossip/GossipRelay.ts:144-217 | ignores, appends, or takes the old entry out and appends the newer |
| `GossipRelay.GossipRelay.FindInQueue` | packages/lightning/lib/gossip/GossipRelay.ts:223-257 | the first entry of a key |
| `GossipRelay.GossipRelay.FlushToPeer` | packages/lightning/lib/gossip/GossipRelay.ts:277-283 | sends what is from the index on, in order |
| `GossipRelay.GossipRelay.PruneQueue` | packages/lightning/lib/gossip/GossipRelay.ts:288-306 | drops the excess at the front and lowers every index by as much |
| `GossipRelay.GossipRelay.OnTimer` | packages/lightning/lib/gossip/GossipRelay.ts:263-270 | flushes every peer in any order, then prunes |
| `RelayRuns.Play` | packages/lightning/lib/gossip/GossipRelay.ts:60-306 | the class, call by call, goes through the runs these results are about |
| `RelayRuns.RunIsSafe` | packages/lightning/lib/gossip/GossipRelay.ts:128-306 | in every run each index is within the queue and the queue holds one entry at most per channel, per direction and per node |
| `RelayRuns.NeverSentTwice` | packages/lightning/lib/gossip/GossipRelay.ts:128-306 | in every run no accepted entry is sent to a peer twice, not even across removal and return |
| `RelayRuns.AllDeliveredIff` | packages/lightning/lib/gossip/GossipRelay.ts:128-306 | a peer gets all it is owed since it was added, in order, if and only if nothing behind its index was replaced since |
| `RelayRuns.TickDelivers` | packages/lightning/lib/gossip/GossipRelay.ts:263-306 | after a tick the same holds of what was actually sent, and the queue is no longer than its maximum |
| `RelayRuns.ReplacementNeverSent` | packages/lightning/lib/gossip/GossipRelay.ts:177-211 | in every run, what replaces an entry while a peer is up to date is never sent to that peer, whatever comes later |
| `RelayRuns.ReplacementSkips` | packages/lightning/lib/gossip/GossipRelay.ts:177-190 | a run of six events in which that happens, and no later event makes up for it |
| `RelayRuns.TickKeeps` | packages/lightning/lib/gossip/GossipRelay.ts:263-306 | flushing and pruning keep indices, order and keys, and leave nothing pending |
| `RelayQueue.EnqueueIs` | packages/lightning/lib/gossip/GossipRelay.ts:144-217 | in every run: a message of a new key goes to the end, one of a queued key takes its entry's place at the end if and only if it is newer, and otherwise nothing happens |
| `RelayQueue.QueuedIsNewest` | packages/lightning/lib/gossip/GossipRelay.ts:144-217 | in every run a queued entry is the newest of all messages of its key enqueued since that key last entered the queue |
| `RelayQueue.TickIs` | packages/lightning/lib/gossip/GossipRelay.ts:263-306 | a tick leaves the last entries of the queue up to the maximum, and nobody else is sent anything |
| `RelayQueue.ActiveIs` | packages/lightning/lib/gossip/GossipRelay.ts:104-122 | the relay runs exactly from a start to the next stop, and these change nothing else |
| `RelayQueue.PeersAre` | packages/lightning/lib/gossip/GossipRelay.ts:128-138 | a peer is added with nothing to be sent, and once removed is sent nothing |
| `StateTree.FindState` | packages/lightning/lib/channels/ChannelManager.ts:59-71 | the breadth-first search finds the state with an id if there is one, in any tree with distinct siblings |
| `StateTree.CollectHandlers` | packages/lightning/lib/channels/StateMachine.ts:85-99 | the walk up the hierarchy ends at the nearest state that handles the event |
| `StateTree.NearestHandles` | packages/lightning/lib/channels/StateMachine.ts:85-99 | its handlers are those of the lowest state at or above that handles it |
| `StateTree.ConstructIsDistinct` | packages/lightning/lib/channels/StateMachineFactory.ts:20-76 | the tree the factory builds has distinct siblings |
| `StateTree.ConstructHandles` | packages/lightning/lib/channels/StateMachineFactory.ts:20-76 | in each of its eight leaf states each event runs exactly the handlers of a table |
| `ChannelEvents.ContainsOutPoint` | packages/lightning/lib/channels/TransitionFactory.ts:215-223 | true exactly when a transaction of the block has that output |
| `ChannelEvents.OpeningChannel.OnAccept` | packages/lightning/lib/channels/TransitionFactory.ts:21-64 | an invalid message fails the channel; a valid one attaches it and the funding transaction and sends funding_created |
| `ChannelEvents.OpeningChannel.OnSigned` | packages/lightning/lib/channels/TransitionFactory.ts:66-88 | an invalid signature fails the channel; a valid one broadcasts |
| `ChannelEvents.OpeningChannel.OnReady` | packages/lightning/lib/channels/TransitionFactory.ts:90-110 | an invalid point fails the channel; a valid one is counted |
| `ChannelEvents.OpeningChannel.OnBlock` | packages/lightning/lib/channels/TransitionFactory.ts:112-157 | confirmation, and channel_ready at the ready height |
| `ChannelEvents.OpeningChannel.OnEvent` | packages/lightning/lib/channels/StateMachine.ts:85-101 | runs handlers until one leads somewhere |
| `ChannelEvents.OpeningChannel.TransitionState` | packages/lightning/lib/channels/ChannelManager.ts:86-119 | enters the new state and saves the channel, unless it is the state already |
| `ChannelRuns.StepIsTableStep` | packages/lightning/lib/channels/ChannelManager.ts:171-248 | search, cascade and transition over the factory tree do what the table says |
| `ChannelRuns.StepKeeps` | packages/lightning/lib/channels/ChannelManager.ts:86-119 | every event keeps the invariant of a channel and no event throws |
| `ChannelRuns.SentAtMostOnce` | packages/lightning/lib/channels/TransitionFactory.ts:21-157 | in every run at most one broadcast, one channel_ready and one funding_created |
| `ChannelRuns.BroadcastAfterSigned` | packages/lightning/lib/channels/TransitionFactory.ts:66-88 | in every run the funding transaction is broadcast only on a funding_signed that validates |
| `ChannelRuns.ReadySentAfterDepth` | packages/lightning/lib/channels/TransitionFactory.ts:128-157 | in every run channel_ready is sent only on a block at or above confirmed height + minimum depth - 1, which comes strictly after the one that confirmed the funding output |
| `ChannelRuns.ConfirmedByBlock` | packages/lightning/lib/channels/TransitionFactory.ts:112-126 | the confirmed height is that of a block with the funding output |
| `ChannelRuns.NormalIff` | packages/lightning/lib/channels/TransitionFactory.ts:90-157 | in every run: normal if and only if channel_ready was sent and a valid one came while it was awaited |
| `ChannelRuns.NeverBack` | packages/lightning/lib/channels/StateMachineFactory.ts:20-76 | in every run phases never go back and failing, normal and abandoned are absorbing |
| `ChannelRuns.AbandonedIff` | packages/lightning/lib/channels/TransitionFactory.ts:195-205 | in every run a channel is abandoned if and only if its peer disconnected while it was initializing |
| `ChannelRuns.EarlyReadyLost` | packages/lightning/lib/channels/StateMachineFactory.ts:45-52 | a run with a channel_ready before confirmation that awaits another for ever after |
| `ChannelRuns.ConfirmingBlockWaits` | packages/lightning/lib/channels/TransitionFactory.ts:112-126 | a run with minimum depth 1 where the confirming block is deep enough and channel_ready is not sent |
| `ChannelRuns.ReadyNotSaved` | packages/lightning/lib/channels/ChannelManager.ts:86-119 | a run after which the copy on disk lacks the channel_ready that was counted |
| `ChannelRuns.OnDiskIff` | packages/lightning/lib/channels/ChannelManager.ts:86-119 | in every run the copy on disk is the channel, also after abandonment removed it, except if and only if a channel_ready came while awaiting depth |
| `ChannelPhases.RunGoesTo` | packages/lightning/lib/channels/StateMachineFactory.ts:20-76 | in every run each event takes the channel from state to state as a table says, and nowhere else |
| `ChannelPhases.HandledInTurn` | packages/lightning/lib/channels/StateMachine.ts:85-101 | any number of handlers run in turn on what those before them left, until one leads somewhere |
| `ChannelPhases.TransitionIs` | packages/lightning/lib/channels/ChannelManager.ts:86-119 | in any tree a transition enters and saves the state it leads to, unless it is the current one; an unknown one throws and changes nothing |
| `ChannelPhases.FailingIff` | packages/lightning/lib/channels/TransitionFactory.ts:66-110 | in every run the channel fails if and only if a message came that was awaited and not valid |
| `ChannelPhases.TermsAreAccepted` | packages/lightning/lib/channels/TransitionFactory.ts:21-64 | in every run minimum depth, funding transaction and channel id are those of the accept_channel that was taken, or absent |
| `ChannelPhases.SignatureIsTaken` | packages/lightning/lib/channels/TransitionFactory.ts:66-88 | in every run the signature kept is that of the funding_signed that was taken |
| `ChannelManager.ChannelManager.FindChannelById` | packages/lightning/lib/channels/ChannelManager.ts:38-40 | the loop equals that search |
| `ChannelManager.ChannelManager.FindChannelByTempId` | packages/lightning/lib/channels/ChannelManager.ts:47-49 | the first channel of the peer with the temporary id |
| `ChannelManager.ChannelManager.OpenChannel` | packages/lightning/lib/channels/ChannelManager.ts:129-164 | a ready peer gives one more channel, saved, awaiting accept_channel |
| `ChannelManager.ChannelManager.OnAcceptChannelMessage` | packages/lightning/lib/channels/ChannelManager.ts:171-183 | one channel takes the event, the others stay as they are |
| `ChannelManager.ChannelManager.OnFundingSignedMessage` | packages/lightning/lib/channels/ChannelManager.ts:190-201 | the same by channel id |
| `ChannelManager.ChannelManager.OnChannelReadyMessage` | packages/lightning/lib/channels/ChannelManager.ts:222-232 | the same by channel id |
| `ChannelManager.ChannelManager.OnBlockConnected` | packages/lightning/lib/channels/ChannelManager.ts:207-215 | every channel takes the block |
| `ChannelManager.ChannelManager.OnPeerDisconnected` | packages/lightning/lib/channels/ChannelManager.ts:239-248 | exactly the channels of the peer take it |
| `ChannelManager.ManagedKeeps` | packages/lightning/lib/channels/ChannelManager.ts:129-248 | every event of the manager keeps the invariant of every channel |
| `ChannelManager.MessageReachesIff` | packages/lightning/lib/channels/ChannelManager.ts:38-40 | in every run of the manager a message for a channel reaches it if and only if funding_created was sent for every channel opened before it; otherwise it is an exception that changes nothing |
| `ChannelManager.EndedForever` | packages/lightning/lib/channels/ChannelManager.ts:129-248 | a channel that failed or was abandoned stays in its place for ever, as it is |
| `ChannelManager.LostForever` | packages/lightning/lib/channels/ChannelManager.ts:38-40 | one that ended before funding_created keeps every message from every channel opened after it, for ever |
| `ChannelManager.FailedFirstLosesSecond` | packages/lightning/lib/channels/ChannelManager.ts:38-40 | such a run: an invalid accept_channel of one peer, then a channel with another that never hears from its peer |
| `ChannelManager.EachIsRun` | packages/lightning/lib/channels/ChannelManager.ts:129-248 | in every run of the manager each channel is in a run of its own, so all of the above holds of it |
| `ManagerHearing.HeardIff` | packages/lightning/lib/channels/ChannelManager.ts:129-248 | in every run which channel hears which event: the first of its peer with the temporary id, the first with the id if all before have one, all, or all of the peer |
| `ManagerHearing.AddedIff` | packages/lightning/lib/channels/ChannelManager.ts:129-164 | a channel is added at the end for each peer that is ready, and by nothing else |
| `EventQueue.LightningEventQueue.PushEvent` | packages/lightning/lib/LightningEventQueue.ts:33-36 | appends, and starts a handler if none runs |
| `EventQueue.LightningEventQueue.Process` | packages/lightning/lib/LightningEventQueue.ts:38-87 | takes events off until one has something to handle; a readable event goes back to the end |
| `EventQueue.LightningEventQueue.FinishHandler` | packages/lightning/lib/LightningEventQueue.ts:83-86 | lowers the flag and tries the next item |
| `EventQueueRuns.Play` | packages/lightning/lib/LightningEventQueue.ts:33-87 | the class, step by step, goes through the runs these results are about |
| `EventQueueRuns.RunTally` | packages/lightning/lib/LightningEventQueue.ts:33-87 | in every run: pushed events handled once in push order, each peer's messages in arrival order, one handler at a time, and rest only with an empty queue |
| `EventQueueRuns.ReachedInTurn` | packages/lightning/lib/LightningEventQueue.ts:38-87 | an event at position i is taken off after exactly i others, whatever is pushed or requeued meanwhile |
| `EventQueueRuns.ProcessedKeeps` | packages/lightning/lib/LightningEventQueue.ts:38-87 | taking events off loses, reorders and repeats nothing |
| `EventQueueRuns.Drains` | packages/lightning/lib/LightningEventQueue.ts:83-87 | when handlers finish and nothing more comes, everything pushed is handled and every watched stream is read to its end |
| `EventQueueRuns.FlushedWhenAtRest` | packages/lightning/lib/LightningEventQueue.ts:38-87 | a flush is reported by exactly those pushes and finished handlers that leave the queue at rest |
| `LinkedList.LinkedList.Add` | packages/lightning/lib/LinkedList.ts:17-34 | appends one node; the list stays linked both ways without sharing |
| `LinkedList.LinkedList.NodeAt` | packages/lightning/lib/LinkedList.ts:47-63 | the node at the position, null at the length, out of range otherwise |
| `LinkedList.LinkedList.ValueAt` | packages/lightning/lib/LinkedList.ts:39-42 | the value at the position |
| `LinkedList.LinkedList.Remove` | packages/lightning/lib/LinkedList.ts:69-110 | deletes one position and returns its value if and only if it is inside the list; otherwise fails and changes nothing |
| `LinkedList.Queue.Enqueue` | packages/lightning/lib/Queue.ts:26-28 | puts a value last |
| `LinkedList.Queue.Dequeue` | packages/lightning/lib/Queue.ts:33-35 | takes the first value, or throws when there is none |
| `LinkedList.Queue.Peak` | packages/lightning/lib/Queue.ts:12-14 | the first value |
| `Bech32.ComputePolymod` | packages/bitcoin/lib/Bech32.ts:240-252 | the loop equals the recursive polynomial |
| `Bech32.PolymodLinear` | packages/bitcoin/lib/Bech32.ts:240-252 | the checksum polynomial is linear over exclusive or |
| `Bech32.ChecksumUnique` | packages/bitcoin/lib/Bech32.ts:266-279 | six words give a version's constant if and only if they are the created checksum |
| `Bech32.ExpandHrp` | packages/bitcoin/lib/Bech32.ts:254-264 | high bits, a zero, low bits |
| `Bech32.CreateChecksum` | packages/bitcoin/lib/Bech32.ts:271-279 | the words of the specification |
| `Bech32.Encode` | packages/bitcoin/lib/Bech32.ts:33-46 | the text of the specification |
| `Bech32.Decode` | packages/bitcoin/lib/Bech32.ts:54-111 | the result or the exception of the specification, for every string |
| `Bech32.DecodesIffEncoded` | packages/bitcoin/lib/Bech32.ts:54-111 | a string decodes to a prefix, words and version if and only if it is their encoding, in one case, with a legal prefix |
| `Bech32.RoundTripIffLegal` | packages/bitcoin/lib/Bech32.ts:33-111 | encoding and decoding gives back the input if and only if the prefix is legal |
| `Bech32.OneSymbolErrorDetected` | packages/bitcoin/lib/Bech32.ts:54-111 | two strings that differ in one data symbol never both decode as the same version |
| `Bech32Field.StepIsRemainder` | packages/bitcoin/lib/Bech32.ts:240-252 | a step is the register times x plus the word, modulo the generator polynomial of BIP173 over the field of 32 elements |
| `Bech32Field.EncodingIs` | packages/bitcoin/lib/Bech32.ts:33-46 | the text is prefix, one and symbols, with the only six words that bring the checksum to its constant |
| `Bech32Field.DecodingIs` | packages/bitcoin/lib/Bech32.ts:54-111 | a text without capitals: refused without a prefix, with a character outside 33 to 126 in it, or under six symbols; else decoded under the constant its checksum comes to, if it is one of the two |
| `Bech32Field.CaseIs` | packages/bitcoin/lib/Bech32.ts:54-111 | capitals and small letters together are refused, capitals alone are read as small ones |
| `WordConversion.ConvertWords` | packages/bitcoin/lib/Bech32.ts:190-231 | regrouping equals cutting the bit stream, with its padding and its two exceptions |
| `WordConversion.WordsRoundTrip` | packages/bitcoin/lib/Bech32.ts:123-145 | which word lists a buffer comes back from, exactly |
| `WordConversion.BufferRoundTrip` | packages/bitcoin/lib/Bech32.ts:123-145 | every buffer comes back from its words |
| `Base58.Encode` | packages/bitcoin/lib/Base58.ts:30-49 | leading zeros as ones, then the digits of the number; an empty buffer throws |
| `Base58.Decode` | packages/bitcoin/lib/Base58.ts:56-72 | leading ones as zeros, then the bytes of the number, also for characters outside the alphabet |
| `Base58.RoundTripIff` | packages/bitcoin/lib/Base58.ts:30-72 | an empty buffer is refused, and any other comes back if and only if it has a nonzero byte |
| `Base58.TextRoundTripIff` | packages/bitcoin/lib/Base58.ts:30-72 | a string over the alphabet comes back if and only if some character is not a one |
| `Base32.Encode` | packages/lightning/lib/Base32.ts:9-114 | the right-to-left loop gives the left-to-right grouping and padding of section 6 of RFC 4648 |
| `Base32.Decode` | packages/lightning/lib/Base32.ts:120-221 | for any text: the right-to-left loop gives the bytes of the groups without the fill bits, where a character outside the alphabet and all to the left of it are groups of ones |
| `Base32.RoundTrip` | packages/lightning/lib/Base32.ts:9-221 | every buffer comes back |
| `Base32.LeftOfForeignIsLost` | packages/lightning/lib/Base32.ts:120-221 | with a character outside the alphabet nothing to the left of it has a say in the result |
| `Crc32c.GenerateReversedTable` | packages/checksum/lib/crc32c.ts:47-62 | each of the 256 entries is eight steps of the shift register |
| `Crc32c.Crc32c` | packages/checksum/lib/crc32c.ts:20-40 | the table loop equals the bit-at-a-time register, for every buffer |
| `Crc32c.TableStep` | packages/checksum/lib/crc32c.ts:20-40 | one table step is eight single steps, by linearity |
| `Crc32c.CrcIsRemainder` | packages/checksum/lib/crc32c.ts:20-62 | the result is the reflected remainder of the message polynomial, section 12.1 of RFC 3720 |
| `Crc32c.PolynomialReflected` | packages/checksum/lib/crc32c.ts:47-62 | the constant is the Castagnoli polynomial reflected |
| `Crc32c.DetectsOneByte` | packages/checksum/lib/crc32c.ts:20-40 | changing one byte changes the checksum |
| `WordCursor.WordCursor.WriteUIntBE` | packages/invoice/lib/word-cursor.ts:16-25 | appends the five-bit digits of the number as signed 32-bit shifts make them; no words to write to throws |
| `WordCursor.WordCursor.WriteBytes` | packages/invoice/lib/word-cursor.ts:27-30 | appends the padded words of the bytes |
| `WordCursor.WordCursor.ReadUIntBE` | packages/invoice/lib/word-cursor.ts:32-41 | the loop of shifts over the slice at the position, which moves on even past the end |
| `WordCursor.WordCursor.ReadBytes` | packages/invoice/lib/word-cursor.ts:43-47 | the bytes of the slice at the position, or the exception of the regrouping |
| `WordCursor.ReadIsNumber` | packages/invoice/lib/word-cursor.ts:32-41 | what is read is the number the words stand for, wrapped to a signed 32-bit integer |
| `WordCursor.NumberRoundTripIff` | packages/invoice/lib/word-cursor.ts:16-41 | a number comes back from n words if and only if it is under 2^31 and fits n words |
| `WordCursor.BytesTakeSize` | packages/bitcoin/lib/Bech32.ts:163-178 | bytes take exactly the words their size says, and come back from them without padding |
| `WordCursor.SizeOfNumber` | packages/bitcoin/lib/Bech32.ts:150-153 | the least number of words that holds the number |
| `InvoiceAmount.LsdIndex` | packages/invoice/lib/encode-pico.ts:35-40 | the loop counts the trailing zeros, and throws when there is nothing else |
| `InvoiceAmount.EncodePico` | packages/invoice/lib/encode-pico.ts:16-21 | the amount in its largest whole unit; an absent or zero amount is written as nothing |
| `InvoiceAmount.AmountIsWhole` | packages/invoice/lib/encode-pico.ts:53-59 | the multiplier chosen divides the amount exactly, for every amount |
| `InvoiceAmount.ParsePrefix` | packages/invoice/lib/decoder.ts:168-210 | the loop splits a prefix into letters, digits and last letter, with each of its exceptions |
| `InvoiceAmount.PrefixRoundTripIff` | packages/invoice/lib/decoder.ts:168-224 | network and exact amount come back if and only if the network is one of the five and the amount is not zero |
| `InvoiceFields.WriteField` | packages/invoice/lib/encoder.ts:47-146 | type, length and payload of each kind of field |
| `InvoiceFields.EncodeData` | packages/invoice/lib/encoder.ts:47-146 | the loop appends every field in order |
| `InvoiceFields.ReadHops` | packages/invoice/lib/decoder.ts:53-68 | the loop reads routes of 51 bytes to the end; a part of one throws |
| `InvoiceFields.RoutesBack` | packages/invoice/lib/decoder.ts:53-68 | any number of routes comes back |
| `InvoiceFields.ReadField` | packages/invoice/lib/decoder.ts:37-116 | one turn of the field loop: known, unknown, padding or exception |
| `InvoiceFields.DecodeFields` | packages/invoice/lib/decoder.ts:32-117 | the loop ends for any words, with the known and the unknown fields in order |
| `InvoiceFields.FieldBack` | packages/invoice/lib/decoder.ts:36-116 | a field written between any words is read back whole, and known exactly when its form is standard |
| `InvoiceFields.FieldsBack` | packages/invoice/lib/decoder.ts:36-117 | any list of fields comes back in order, the standard ones apart from the others, and the reading stops at the signature |
| `Invoice.Encode` | packages/invoice/lib/encoder.ts:19-45 | the text is the bech32 form of timestamp, fields and signature over the prefix and the padded words |
| `Invoice.Decode` | packages/invoice/lib/decoder.ts:19-154 | every check in order, for any text |
| `Invoice.InvoiceRoundTrip` | packages/invoice/lib/decoder.ts:19-154 | a well-formed invoice is decoded if and only if it names no payee or one whose key verifies; naming none or the signer, it gives the network, exact amount, timestamp and fields it was encoded from, the same hash and the signer's key |
| `InvoiceText.FieldIs` | packages/invoice/lib/encoder.ts:47-146 | a field is its type, its length in two words and its payload, numbers without leading zeros and hops in 51 bytes |
| `InvoiceText.FieldsFollow` | packages/invoice/lib/encoder.ts:47-146 | the fields follow one another in order, nothing between them |
| `InvoiceText.StandardIff` | packages/invoice/lib/decoder.ts:36-116 | which fields are read under their name, by type and size |
| `InvoiceText.AmountIs` | packages/invoice/lib/encode-pico.ts:16-59 | the amount is numeral times unit, and no larger unit divides it |
| `InvoiceText.PrefixReadIff` | packages/invoice/lib/decoder.ts:168-224 | for any text: it is read as network and amount if and only if it is ln, one of the five networks and nothing, or a positive numeral and letters of which the last is a multiplier |
| `InvoiceText.InvoiceIs` | packages/invoice/lib/encoder.ts:19-45 | timestamp in seven words, fields, signature in 103 and flag in one; the hash that is signed is of prefix and words as bytes |
| `InvoiceText.DecodedIsSigned` | packages/invoice/lib/decoder.ts:119-154 | for any text: what is decoded has a signature that verifies the hash of the text's own prefix and words under the payee's or the recovered key |
| `BufferIo.VarIntBack` | packages/bufio/lib/StreamReader.ts:37-43 | every number below 2^64 comes back from its variable-length form, whatever follows |
| `BufferIo.VarIntTakes` | packages/bufio/lib/StreamReader.ts:37-43 | no number is read from fewer bytes than writing it takes |
| `BufferIo.StreamReader.TakeBytes` | packages/bufio/lib/StreamReader.ts:84-90 | the bytes asked for, or an exception when there are fewer |
| `BufferIo.StreamReader.TakeVarInt` | packages/bufio/lib/StreamReader.ts:37-43 | the marker byte chooses the width |
| `BufferIo.BufferWriter.Expand` | packages/bufio/lib/BufferWriter.ts:257-279 | room to the next power of two, nothing written lost; a fixed buffer too small throws, and so does growing beyond 2^30 |
| `BufferIo.BufferWriter.WriteBytes` | packages/bufio/lib/BufferWriter.ts:156-161 | what is written is what was written before and the new bytes, across reallocation |
| `BufferIo.BufferWriter.WriteVarInt` | packages/bufio/lib/BufferWriter.ts:172-187 | appends the variable-length form, in two writes: without room for the second the marker is left behind |
| `CountedLists.CountedBack` | packages/bitcoin/lib/Tx.ts:80-107 | a counted list comes back when its items do |
| `CountedLists.CountedTakes` | packages/bitcoin/lib/Tx.ts:80-107 | a counted list takes at least the sizes of what was read |
| `TxCodec.LegacyBack` | packages/bitcoin/lib/Tx.ts:30-107 | the legacy form gives back everything but the witnesses, read either way |
| `TxCodec.SegWitBack` | packages/bitcoin/lib/Tx.ts:30-107 | the segregated witness form of BIP144 gives everything back |
| `TxCodec.TxBack` | packages/bitcoin/lib/Tx.ts:30-107 | every transaction with an input is read back from exactly its own bytes, whatever follows them |
| `TxCodec.TxTakes` | packages/bitcoin/lib/Tx.ts:30-107 | whatever bytes a transaction is read from, they are at least as many as its own, and more when it has outputs and no inputs |
| `TxCodec.TxBackIff` | packages/bitcoin/lib/Tx.ts:30-107 | a transaction comes back if and only if it has an input or no outputs |
| `TxCodec.FromBufferBackIff` | packages/bitcoin/lib/Tx.ts:116-131 | the second attempt gives back just those that the first refuses |
| `TxCodec.RefusedComesBack` | packages/bitcoin/lib/Tx.ts:116-131 | under 253 outputs but no inputs: given back by the second attempt when the low byte of the first value, as a number of inputs of 41 bytes, asks for more than there is |
| `TxCodec.RoundValueMisread` | packages/bitcoin/lib/Tx.ts:22-57 | under 253 outputs but no inputs: read without an exception as having neither when the first value is a multiple of 2^16 |
| `TxCodec.KeyHashBackIff` | packages/bitcoin/lib/Tx.ts:116-131 | one pay to witness key hash output, no inputs, low bytes of the value under 253: given back if and only if the value modulo 2^16 is neither 0 nor 256 |
| `TxCodec.NoInputsMisread` | packages/bitcoin/lib/Tx.ts:22-32 | one output of no value without inputs is read, without an exception, as no output at all |
| `TxCodec.SizesOfBytes` | packages/bitcoin/lib/Tx.ts:378-456 | the sums of the size calculation are the lengths of the two forms |
| `TxCodec.AnyFlagBack` | packages/bitcoin/lib/Tx.ts:30-57 | behind the marker any flag but zero is taken: odd ones with a witness for each input, even ones without |
| `TxStreams.ParseTx` | packages/bitcoin/lib/Tx.ts:30-73 | the loops over the stream give what the function of the bytes gives, with each exception |
| `TxStreams.ParseInputs` | packages/bitcoin/lib/Tx.ts:82-90 | the loop reads the counted inputs or throws |
| `TxStreams.ParseOutputs` | packages/bitcoin/lib/Tx.ts:97-107 | the loop reads the counted outputs or throws |
| `TxStreams.ParseWitnesses` | packages/bitcoin/lib/Tx.ts:60-67 | each input gets its own stack |
| `TxStreams.SerializeLegacy` | packages/bitcoin/lib/Tx.ts:285-305 | the writer ends with the legacy form |
| `TxStreams.SerializeSegWit` | packages/bitcoin/lib/Tx.ts:309-344 | the writer ends with the segregated witness form |
| `TxStreams.SerializeTx` | packages/bitcoin/lib/Tx.ts:233-236 | the second form exactly when some input has a witness |
| `TxStreams.CalcSize` | packages/bitcoin/lib/Tx.ts:378-456 | size is the length of the serialized form, weight that plus three times the legacy length (BIP141), virtual size a quarter of it rounded up |
| `TxLayout.TransactionIs` | packages/bitcoin/lib/Tx.ts:285-344 | both forms byte by byte: every number lowest byte first, every list behind its count, witnesses behind marker and flag |
| `BlockCodec.HeaderBack` | packages/bitcoin/lib/BlockHeader.ts:34-43 | a header takes 80 bytes and comes back |
| `BlockCodec.BlockBackIff` | packages/bitcoin/lib/Block.ts:23-102 | a block of any number of transactions comes back if and only if each has an input or no outputs |
| `BlockCodec.FromBuffer` | packages/bitcoin/lib/Block.ts:23-52 | the loop over the transactions equals the counted list after the header; leftover bytes are ignored |
| `BlockCodec.HeaderBytes` | packages/bitcoin/lib/BlockHeader.ts:111-122 | seven writes fill the buffer of 80 bytes exactly and in order |
| `BlockCodec.ToBuffer` | packages/bitcoin/lib/Block.ts:87-102 | header, count and every transaction in its own form |
| `TxLayout.HeaderIs` | packages/bitcoin/lib/BlockHeader.ts:111-122 | the 80 bytes of a header, field by field |

## Left out

- TCP and Noise socket lifecycle outside reading and writing: `end`, `destroy` and `final` only close the connection.
- Timers and polling: a tick of the relay or a sync of the watcher is an event that may happen at any time.
- The insides of SHA-256, HKDF, ChaCha20-Poly1305, ECDSA and curve arithmetic.
- Public keys, scripts and the funding transaction: scripts are parameters of the commitment builder, and the only thing asked of them is stated at `CommitmentTx.KindsApart`.
- CommitmentTx.CreateCommitment: does not model how the in-place sort of the JavaScript engine proceeds, only that its result is sorted by the comparator and a permutation.
- ChannelOpening.OpenedChannelWorks: createChannel is modelled on values, not as the assignments to the fields of a new object.
- ChannelOpening.PeersAgree: the program passes no HTLCs to its commitment builders yet; the model lets them be any mirrored lists.
- BlockSync.BlockWatcher.Sync: the best chain does not change during one sync, and failures of the RPC client are not modelled.
- GossipFilter.GossipMemoryStore.SaveChannelAnnouncement: the index by funding outpoint, filled by extended announcements only, is not modelled.
- GossipFilter.GossipFilter.ValidateChannelAnnouncement: the optional chain client (output lookup before announcing) is not modelled, nor are extended announcements with capacity.
- Gossip deletion of channels by outpoint: the program deletes direction 0 twice, so no claim is made across it.
- GossipRelay.GossipRelay.OnTimer: peers are flushed in an arbitrary order; the program's order is that of insertion, which no result depends on.
- StateTree.FindState: states are values in a tree and ids their paths, so parent pointers and the joining of names with dots are not modelled.
- ChannelEvents.OpeningChannel.TransitionState: enter and exit hooks are not modelled; the factory sets none, so the loop goes round once.
- ChannelEvents.OpeningChannel.OnAccept: of accept_channel only the minimum depth is attached; the other terms appear in `ChannelOpening`.
- Calls of the channel logic that fail (wallet or storage errors) and blocks without a height in their coinbase are not modelled.
- Handlers of the event queue that throw: they leave the processing flag up, and the queue stops.
- Bech32.Decode: case mapping beyond ASCII letters is not modelled.
- NoiseStream.StreamDelivered: the socket writes fewer than 500 messages of its own; with more, `KeyRotation.TwoWayDelivered` and `EndsAgreeIff` say what the two ends can still open, message by message and not for the bytes of the stream.
- TxCodec.FromBufferBackIff: for a transaction with outputs and no inputs the condition is what the first attempt does with the bytes; `RefusedComesBack`, `RoundValueMisread` and, exactly for one usual output, `KeyHashBackIff` settle it from the values, not for all.
- ChannelManager.ChannelManager.OpenChannel: whether the channel could be created is a flag.
- Noise errors leave fields partly updated; after the socket is destroyed nothing reads them.
- Invoice.Encode: descriptions and prefixes are bytes; their UTF-8 form is not modelled. Values of a type the encoder refuses are not modelled.
- WordCursor.SizeOfNumber: the quotient of floating-point logarithms is modelled by its meaning in whole numbers.
- BufferIo.BufferWriter.Expand: growing beyond 2^30 bytes is an exception up to 2^31; beyond that, where the shift count wraps around, it is not modelled.
- ChannelEvents.OpeningChannel.OnBlock: which per-commitment point channel_ready carries is not modelled.
- TxStreams.SerializeTx: values outside the ranges of their fields, which throw when written, are excluded; amounts are whole satoshis.
- TxStreams.CalcSize: the cache of sizes and identifiers is not modelled.
- Parsing scripts into commands, coinbase heights and Merkle roots.
- Wire messages, TLV records, gossip queries, address encodings, HD keys and value comparisons: easy members of the same kind as those above.

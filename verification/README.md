# Verified model of the Keybase chat engine

A Dafny 4.11 model of the parts of the Go client that keep state over long runs or must undo each other
exactly. `dafny verify dfyconfig.toml` checks all of it.

- **Boxer** (`BoxerTypes`, `Boxer`, `BoxerRoundTrip`, `UnboxMessage`, `BoxerWire`, `BoxerHashes`,
  `BoxerChecks`): boxing and
  unboxing in message versions 1 to 4 with exploding keys and pairwise MACs, over any primitives that meet the
  laws in `BoxerTypes.Laws`, and the first-writer-wins checks as a machine of threads.
- **Sign-encrypt streams** (`SignEncrypt`, `SignEncryptCodec`, `ReadSeeker`): the packet format under the boxer's
  headers and under attachments, its incremental encoder and decoder, and cached random access.
- **Ephemeral purger** (`PurgeHeap`, `Purger`, `PurgerLoop`, `PriorityQueue`, `BackgroundPurger`): the indexed
  min-heap, one purge pass, and the timer loop.
- **Ephemeral tracker** (`Tracker`, `TrackerRun`, `EphemeralTracker`): a write-back LRU over a database against
  the plain map its callers think they use.
- **Deliverer** (`Outbox`, `Deliverer`, `ReactionParity`, `DeliveryMachine`, `ReactionRuns`, `DeliveryOrder`,
  `DeliveryOvertaken`): delivery passes over the outbox, cancelling of duplicate reactions, and delivery order, with
  the passes of all conversations interleaved, each turn in two steps around its send.
- **Conversation loader** (`JobQueue`, `SuspendResume`): the stable priority queue with waiters and the counted
  suspend and resume protocol.
- **Emoji source** (`EmojiDecorate`, `EmojiAliases`, `EmojiListing`): splicing at a running offset, and alias
  numbering.
- **Flip manager** (`FlipInjection`, `FlipManager`, `FlipVisualizer`): gap-filling injection, and rounded rows.
- **Conversation source** (`ConvSource`): merging local and remote messages and filling holes.
- **Credential authority** (`Credential`, `CredentialChecks`, `CredentialAuthority`): double-checked loading under a
  read/write lock, key comparison and cache cleaning.

State that the source changes in place is a class whose methods are proved against functions on values; the
lemmas about whole runs use those functions. Clocks, the network, the database, random nonces and anything else
outside the modelled files are parameters.

Where a promised property does not hold for the code as it is, there is a lemma with a failing case and one that
says exactly when it holds:

- A purge pass sends a prefix of the heap array but pops the earliest entries, and can drop one it did not send
  (`Purger.PassPopsWhatItSentIff`, `Purger.PassCanMissAnEntry`).
- A reaction settled earlier in a delivery pass comes back when the connection is lost before its turn
  (`ReactionParity.PassParity`, `ReactionRuns.RunCounts`, `ReactionParity.SettledReactionCanComeBack`).
- Re-inserting a failed record re-sorts the outbox by ctime, which a retry renews
  (`DeliveryOrder.SortKeepsOrderIff`, `DeliveryOvertaken.UnguardedIsOvertaken`,
  `DeliveryOvertaken.RetriedRecordIsOvertaken`).
- Evicting an unsaved tracker entry loses it (`Tracker.PutRefinesIff`, `Tracker.GetRefinesIff`,
  `TrackerRun.StepRefines`, `TrackerRun.UnsavedEntryIsLost`).
- Queueing a purge while the first start is under way can use a timer that does not exist yet
  (`PurgerLoop.CrashesIff`, `PurgerLoop.FirstStartCanCrash`).
- The hash table checks look and write separately, so two unboxing threads can both pass
  (`BoxerChecks.PassedChecksAgreeIff`, `BoxerChecks.RaceLetsReplayThrough`).
- An exploding message whose signed header names who exploded it is refused, because ExplodedBy is compared as a
  pointer (`BoxerRoundTrip.HeadersCompare`, `BoxerRoundTrip.ExplodedByIsRefused`).
- The key sets of a cached user never shrink, and compared key lists may hide a difference behind a duplicate
  (`CredentialChecks.LatestReplyIff`, `CredentialChecks.DroppedKeyStillAccepted`, `CredentialChecks.CompareKeysIff`,
  `CredentialChecks.DuplicatesPass`), although the comments in the source speak of equal sets.
- A suspend ignored while the loader is stopped lets its resume end another suspension
  (`SuspendResume.CountIsOutstandingIff`, `SuspendResume.IgnoredSuspendEndsAnother`).
- A decoration that fails to marshal would empty the body (`EmojiDecorate.DecorateSplicesIff`,
  `EmojiDecorate.MarshalErrorEmptiesBody`); the error branch is taken as given, and no decoration is known to make
  it run. And alias lengths are checked before colons are dropped
  (`EmojiAliases.StoredLengthIff`, `EmojiAliases.StoredAliasCanBeEmpty`).
- An own flip message older than what the dealer has seen sets the game's mark back
  (`FlipInjection.OwnKeepsInvIff`, `FlipInjection.OlderOwnMessageReinjects`).

## Model

| member | source | states |
|---|---|---|
| `UnboxMessage.ReceivedIff` | go/chat/boxer.go:324-427 | UnboxMessage up to the hash table: whatever BoxMessage lets out, in version 1, 2, 3 or 4, a receiver with the matching keys takes if and only if the listed conditions hold (visibility, conversation ID, type, a sender key that is listed and was not revoked by then, MACs, nothing already exploded), and then gets the same body, the same signed header fields, with canonical TLF name, newest merkle root and the ephemeral generation filled in, the hashes of what was boxed, the key the sender is held to, its revocation and the time of receipt |
| `UnboxMessage.AcceptedIff` | go/chat/boxer.go:324-482 | UnboxMessage as a whole: accepted if and only if those conditions hold and the table of hashes says nothing else of the message or of its prev pointers; an accepted message is accepted again and changes nothing; a refusal by the table is a replay exactly when another message has the body hash |
| `UnboxMessage.UnboxesV2` | go/chat/boxer.go:1473-1598 | Key and version choice of GetEncryptionInfo composed with boxing and unboxing: the receiver finds both keys by the generations in the message, and the three version paths open exactly under the stated conditions |
| `UnboxMessage.UnboxesV1` | go/chat/boxer.go:1566-1733 | The version 1 path composed end to end |
| `UnboxMessage.InfoOf` | go/chat/boxer.go:1473-1551 | From version 2, exploding messages leave as version 3, MAC'd ones as 4 and others as 2; MACs come with the dummy signing key and with nothing else, plain messages keep version and signing key |
| `UnboxMessage.DigitsAre` | go/protocol/chat1/extras.go:1289-1299 | The topic type is hashed as its decimal digits, without a leading zero |
| `UnboxMessage.DerivableNames` | go/protocol/chat1/extras.go:1307-1316 | A conversation ID belongs to a triple if and only if it has the length of the hash of the triple and agrees with it from the third byte on |
| `BoxerWire.BoxesIff` | go/chat/boxer.go:1473-1680 | BoxMessage lets a message out if and only if its names are not blank, a delete-history body is named in the header, the version is 1 to 4, and the root, keys, recipients and nonce that the version needs are there |
| `BoxerWire.BodySealedUnder` | go/chat/boxer.go:1786-1876 | In versions 2 to 4 an exploding body is sealed under the key derived from the ephemeral key, any other under the one derived from the key of the conversation; pins in body version 2 |
| `BoxerWire.BodyKeysSeparate` | go/chat/boxer.go:1786-1876 | So an exploding body opens under the ephemeral key and does not depend on the key of the conversation, and the other way round |
| `BoxerWire.HeaderSealedUnder` | go/chat/boxer.go:1786-1876 | What is signed in versions 2 to 4, with the dummy secret for MACs and the signing secret otherwise, the hash of version, nonce and ciphertext of the body in it, and the key the header is sealed under |
| `BoxerWire.MacsOnTheWire` | go/chat/boxer.go:1735-1769 | A MAC of the hash of the sealed header for each recipient and for nobody else, or the ones the plaintext came with |
| `BoxerWire.SealedV1` | go/chat/boxer.go:1681-1733 | Version 1 seals body and self-signed header under the key of the conversation itself |
| `BoxerWire.AcceptedIsVouched` | go/chat/boxer.go:846-1021 | Whatever is accepted in versions 2 to 4, from anybody: its header was sign-opened under the conversation and verify keys, a key vouches for the sender and holds at ctime, the header sent along says the same, and the body has the signed hash and opens under the right key; and exactly that is returned |
| `BoxerWire.VouchedIsAccepted` | go/chat/boxer.go:846-1021 | And everything of that kind is accepted |
| `BoxerWire.AcceptedIsVouchedV1` | go/chat/boxer.go:573-730 | The same for version 1 |
| `BoxerWire.VouchedIsAcceptedV1` | go/chat/boxer.go:573-730 | The same for version 1 |
| `BoxerRoundTrip.ValidSenderKeyIff` | go/chat/boxer.go:2096-2158 | A sender key passes if and only if it is listed and its owner is deleted, or it was never revoked, or only at a known time after ctime; what revocation is reported; an unknown key and a failed load are told apart |
| `BoxerRoundTrip.CheckSenderIff` | go/chat/boxer.go:2096-2158 | In full mode that is asked of the sender, otherwise nothing is |
| `BoxerRoundTrip.UnboxBoxV2` | go/chat/boxer.go:846-1021 | For any encryption info and any plaintext, including MACs the plaintext already carries: unboxing accepts if and only if the sender is acceptable and no signed ExplodedBy is present, and returns body, header, hashes, time of receipt, the key the sender is held to and its revocation |
| `BoxerRoundTrip.UnboxBoxV1` | go/chat/boxer.go:573-730 | Version 1 round trip, both directions of acceptance; the header comes back without merkle root, exploding metadata and bot |
| `BoxerRoundTrip.SenderKeyIff` | go/chat/boxer.go:745-804 | With MACs made for recipients the receiver needs its device among them, with MACs the plaintext came with they must check, in both cases with the dummy signing key unless the version is 3; without MACs the dummy key is refused; and which key is then checked |
| `BoxerRoundTrip.HeadersCompare` | go/chat/boxer.go:1119-1194 | The unsigned header passes the comparison with the signed one unless the version is above 2 and ExplodedBy is set |
| `BoxerRoundTrip.ExplodedByIsRefused` | go/chat/boxer.go:1119-1194 | An exploding message with ExplodedBy set is boxed in version 3 and refused by every receiver |
| `BoxerRoundTrip.HeaderOpens` | go/chat/boxer.go:1930-2014 | A sign-sealed header opens to the same signed header |
| `BoxerRoundTrip.BodyOpens` | go/chat/boxer.go:1879-1916 | A sealed body is never empty and opens to the same versioned body |
| `BoxerRoundTrip.MacsAre` | go/chat/boxer.go:1749-1769 | The MAC table has exactly the recipients as keys, each with the MAC under the shared key |
| `Boxer.MakeAllPairwiseMacs` | go/chat/boxer.go:1735-1769 | The loop over recipients builds that table, or fails on a bad nonce size, a missing device key or a bad KID |
| `BoxerHashes.AcceptedHeaderIsSigned` | go/chat/boxer.go:1119-1194 | Nothing accepted in versions 2 to 4 differs from its signed header in a compared field, lacks a merkle root, or uses the dummy key without MACs |
| `BoxerHashes.SenderKeyExpiresOnce` | go/chat/boxer.go:2100-2158 | A sender key valid at some time is valid, with the same revocation, at every earlier time, and stops being valid exactly at its revocation unless its owner is deleted |
| `BoxerHashes.HeaderHashPins` | go/chat/boxer.go:1196-1216 | Without hash collisions, equal header hashes mean equal sealed headers |
| `BoxerHashes.BodyHashAmbiguous` | go/chat/boxer.go:1218-1233 | The body hash alone does not: bytes can move between nonce and ciphertext |
| `BoxerHashes.UnboxedHashesPin` | go/chat/boxer.go:1094-1108 | Yet two unboxed messages with equal body hashes have equal body ciphertexts, because opening checks the nonce size |
| `BoxerChecks.PassedChecksAgreeIff` | go/chat/boxer.go:407-482 | Over every interleaving of any number of unboxing threads on a working table: all checks passed agree if and only if no thread wrote over a different value recorded between its look and its write |
| `BoxerChecks.AcceptedMessagesAgree` | go/chat/boxer.go:407-482 | Then no two accepted messages share a body hash, each message ID has one header hash, and prev pointers agree with the header hash of the message they name |
| `BoxerChecks.AtomicIsRaceFree` | go/chat/boxer.go:407-482 | Runs in which every write directly follows its own look lose no race, so the lemmas above cover them all |
| `BoxerChecks.RaceLetsReplayThrough` | go/chat/boxer.go:1391-1436 | Two unboxing threads that look before either writes both accept one body hash under different message IDs |
| `BoxerTable.CheckAllIff` | go/chat/storage/checkers.go:27-94 | Without interference the checks of a message pass if and only if neither the table nor one of them says otherwise, and nothing recorded ever changes |
| `BoxerTable.FaultsLetThrough` | go/chat/storage/checkers.go:27-94 | Database errors only let more through: what is compatible passes, and nothing recorded changes |
| `BoxerTable.FaultyCheckIs` | go/chat/storage/checkers.go:27-94 | An unreadable table lets everything pass and records nothing, an unwritable one checks and records nothing |
| `BoxerTable.HashTable.CheckAndRecord` | go/chat/storage/checkers.go:27-52 | First writer wins; an unreadable table lets the check pass, an unwritable one lets it pass unrecorded |
| `BoxerTable.HashTable.CheckInvariants` | go/chat/boxer.go:407-482 | The checks are made in order up to the first failure, under any pattern of database errors; without errors they pass exactly when compatible |
| `SignEncrypt.RoundTrip` | go/chat/signencrypt/codec.go:549-566 | Opening a sealed stream gives back the plaintext, for every length |
| `SignEncrypt.TruncationIsNoticed` | go/chat/signencrypt/codec.go:364-378 | A stream cut after any number of its full packets does not open |
| `SignEncrypt.SealedLength` | go/chat/signencrypt/codec.go:530-538 | The sealed length is the one computed in advance |
| `SignEncrypt.SizesInvert` | go/chat/signencrypt/codec.go:530-546 | Plaintext and sealed size are inverse |
| `SignEncrypt.PacketRoundTrip` | go/chat/signencrypt/codec.go:189-216 | A packet is 80 bytes longer than its chunk and opens to it |
| `SignEncrypt.PacketOpensIff` | go/chat/signencrypt/codec.go:163-216 | Whatever opens as a packet, from anybody, is sealed under the chunk nonce and carries a valid signature of prefix, null byte, key, nonce and hash of its plaintext; and whatever does, opens |
| `SignEncrypt.ChunkNonceIs` | go/chat/signencrypt/codec.go:154-161 | The nonce of a chunk is that of the stream and the chunk number in eight bytes |
| `SignEncrypt.ChunkNoncesDiffer` | go/chat/signencrypt/codec.go:154-161 | No two of the 2^64 chunk numbers share a nonce |
| `SignEncrypt.SignatureInputPins` | go/chat/signencrypt/codec.go:163-179 | What is signed determines prefix, key, nonce and hash, as the prefix has no null byte |
| `SignEncryptCodec.EncodeAll` | go/chat/signencrypt/codec.go:260-280 | However the plaintext is cut into writes, the sealed stream is the same |
| `SignEncryptCodec.DecodeAll` | go/chat/signencrypt/codec.go:339-378 | However a stream is cut into writes, valid or not, it decodes, or fails, as the whole does |
| `SignEncryptCodec.StreamsRoundTrip` | go/chat/signencrypt/codec.go:242-378 | Written in any pieces and read in any other pieces, the plaintext comes back |
| `SignEncryptCodec.Encoder.Write` | go/chat/signencrypt/codec.go:260-269 | Emits exactly the full packets and keeps the rest |
| `SignEncryptCodec.Encoder.Finish` | go/chat/signencrypt/codec.go:274-280 | Emits the last, short packet |
| `SignEncryptCodec.Decoder.Write` | go/chat/signencrypt/codec.go:339-358 | Opens exactly the full packets, or fails for good |
| `SignEncryptCodec.Decoder.Finish` | go/chat/signencrypt/codec.go:364-378 | Opens the rest as the short packet |
| `SignEncryptCodec.OpenFullTwice` | go/chat/signencrypt/codec.go:339-358 | Opening in two goes equals opening at once |
| `SignEncryptCodec.SignSealLawHolds` | go/chat/boxer.go:1961-2014 | The law assumed of sign-sealing in the boxer is met when it is done by signencrypt |
| `ReadSeeker.DecodesSpan` | go/chat/signencrypt/seeker.go:144-168 | Opening only the packets of a range of chunks gives exactly their plaintext, with the failing Finish ignored when the range ends before the last packet |
| `ReadSeeker.DropPackets` | go/chat/signencrypt/codec.go:495-523 | Dropping n packets of a stream leaves the stream of the rest of the plaintext with chunk numbers from n on |
| `ReadSeeker.GetChunksInRange` | go/chat/signencrypt/codec.go:510-523 | The chunks that cover a range, the last one clamped to the sizes of plaintext and ciphertext |
| `ReadSeeker.DecodingReadSeeker.Read` | go/chat/signencrypt/seeker.go:128-179 | Read takes the next bytes off what is left to read, whatever is cached or evicted; end of file exactly at the end, a panic exactly less than a chunk before the start, an error exactly further back |
| `ReadSeeker.DecodingReadSeeker.FetchAhead` | go/chat/signencrypt/seeker.go:140-169 | The prefetched chunks cover the wanted ones, and the cache stays right |
| `ReadSeeker.DecodingReadSeeker.GetChunksFromCache` | go/chat/signencrypt/seeker.go:51-62 | A full hit is the plaintext of all the chunks |
| `ReadSeeker.DecodingReadSeeker.WriteChunksToCache` | go/chat/signencrypt/seeker.go:64-73 | Every cached chunk is the plaintext of its index, under any eviction |
| `ReadSeeker.DecodingReadSeeker.Seek` | go/chat/signencrypt/seeker.go:181-192 | What is left to read after a seek: everything from a position, what was left but the next bytes, or the last bytes |
| `PurgeHeap.UpRestores` | go/chat/ephemeral_purger.go:57-85 | Sift-up restores the heap order broken at one slot and keeps the entries |
| `PurgeHeap.DownRestores` | go/chat/ephemeral_purger.go:57-97 | Sift-down restores the heap order broken at one slot and keeps the entries |
| `PurgeHeap.FixReplaces` | go/chat/ephemeral_purger.go:247-255 | Replacing any slot and calling Fix gives a heap with that one entry replaced, whichever way the time moved |
| `PurgeHeap.PopRemovesEarliest` | go/chat/ephemeral_purger.go:87-97 | Pop leaves a heap without one earliest entry |
| `PurgeHeap.PushInserts` | go/chat/ephemeral_purger.go:77-85 | Push leaves a heap with the entry added |
| `Purger.UpdateRefinesMap` | go/chat/ephemeral_purger.go:247-255 | updateQueue is a map update on the schedule: heap order, one entry per conversation and active entries are kept |
| `Purger.InitQueueHolds` | go/chat/ephemeral_purger.go:228-245 | The queue built at start holds the last active entry of every conversation |
| `Purger.LatestActiveIs` | go/chat/ephemeral_purger.go:228-245 | Those are the entries that no later active one of the conversation follows, and no others |
| `Purger.PassPopsOnlyExpired` | go/chat/ephemeral_purger.go:283-319 | With a non-decreasing clock a pass pops as many entries as it sent, all expired, and at least one if the head had expired |
| `Purger.PopManyTakesEarliest` | go/chat/ephemeral_purger.go:307-311 | Popping n times takes out the n earliest entries |
| `Purger.PopManyRefinesMap` | go/chat/ephemeral_purger.go:283-319 | The queue left by a pass is a healthy heap for the schedule without the popped entries |
| `Purger.PassPopsWhatItSentIff` | go/chat/ephemeral_purger.go:283-319 | The pass sends the first n slots and pops the n earliest entries; both have the same purge times if and only if no later slot is earlier, and are the same entries if no later slot is as early |
| `Purger.PassPopsWhatItSent` | go/chat/ephemeral_purger.go:283-319 | In particular when nothing expired lies after the first unexpired slot |
| `Purger.PassLosesUnsentEntry` | go/chat/ephemeral_purger.go:283-319 | When a later slot is earlier, some entry is popped without having been sent and is no longer queued |
| `Purger.PassCanMissAnEntry` | go/chat/ephemeral_purger.go:283-319 | A queue that a start leaves behind, on which a pass at time 5 pops the entry of conversation 5 without having sent it |
| `Purger.HeapIsReached` | go/chat/ephemeral_purger.go:228-245 | Filling the initial queue with the entries of any heap, in array order, gives that heap |
| `PurgerLoop.RunKeepsInv` | go/chat/ephemeral_purger.go:143-319 | Over every run of start in its two steps, stop, queueing, ticks and passes the queue is a heap that holds exactly the schedule, one active entry per conversation, and a started purger with a queued entry has a wake-up pending or a timer no later than the head |
| `PurgerLoop.QueueSchedules` | go/chat/ephemeral_purger.go:183-225 | Queue against the schedule: an inactive entry or one scheduled as it is changes nothing, another that is due is handed to the loader and nothing else happens, every other one is scheduled and moves the timer up if it is the earliest |
| `PurgerLoop.ArmsIff` | go/chat/ephemeral_purger.go:183-225 | When Queue arms the timer, in terms of the schedule: the entry is news, active and in the future, and comes first or finds something overdue |
| `PurgerLoop.DueHeadIsNeverForgotten` | go/chat/ephemeral_purger.go:259-343 | Whenever the head of a started purger is due, a wake-up is pending |
| `PurgerLoop.DueHeadCanBeSent` | go/chat/ephemeral_purger.go:259-319 | From every such state, with no steps but those of the timer and the loop, a pass can be reached that sends the head |
| `PurgerLoop.WakeupsArePasses` | go/chat/ephemeral_purger.go:259-319 | Over every run each wake-up leads to one pass or is still on its way, but for ticks lost to a waiting tick or to a new timer |
| `PurgerLoop.CrashesIff` | go/chat/ephemeral_purger.go:143-160 | Over every run, a step uses a timer that does not exist yet if and only if it is a Queue that arms the timer while the first Start has filled the queue and not made its timer |
| `PurgerLoop.FirstStartCanCrash` | go/chat/ephemeral_purger.go:143-225 | Any active future entry queued at that moment, with nothing stored, does so |
| `PurgerLoop.EnqueueKeepsInv` | go/chat/ephemeral_purger.go:183-225 | Queueing keeps that with the schedule updated by an active future entry and no other, also when the head itself is moved later |
| `PurgePriorityQueue.PriorityQueue.Swap` | go/chat/ephemeral_purger.go:64-75 | Swaps two slots, their items' indices, and nothing else |
| `PurgePriorityQueue.PriorityQueue.Up` | go/chat/ephemeral_purger.go:64-85 | In place, with the index of every item its slot: equals the specified sift-up |
| `PurgePriorityQueue.PriorityQueue.Down` | go/chat/ephemeral_purger.go:64-97 | Likewise for sift-down, and reports whether anything moved |
| `PurgePriorityQueue.PriorityQueue.Push` | go/chat/ephemeral_purger.go:77-85 | Push of a conversation not yet queued |
| `PurgePriorityQueue.PriorityQueue.Fix` | go/chat/ephemeral_purger.go:247-255 | Fix of one slot |
| `PurgePriorityQueue.PriorityQueue.Pop` | go/chat/ephemeral_purger.go:87-97 | Drops the last slot and its map entry |
| `PurgePriorityQueue.PriorityQueue.PopEarliest` | go/chat/ephemeral_purger.go:87-97 | heap.Pop: returns the earliest item |
| `PurgePriorityQueue.PriorityQueue.Peek` | go/chat/ephemeral_purger.go:99-107 | The head, or nil |
| `PurgePriorityQueue.PriorityQueue.Update` | go/chat/ephemeral_purger.go:247-255 | updateQueue on the objects: itemMap and queue stay one to one |
| `BackgroundPurger.BackgroundEphemeralPurger.Queue` | go/chat/ephemeral_purger.go:183-225 | Queue on the objects: error before Start, straight to the loader when due, timer moved up for a new head |
| `BackgroundPurger.BackgroundEphemeralPurger.InitQueue` | go/chat/ephemeral_purger.go:228-245 | The initial queue from the tracker's entries |
| `BackgroundPurger.BackgroundEphemeralPurger.Start` | go/chat/ephemeral_purger.go:143-160 | The two steps of a start, the queue and then the timer, or nothing when started |
| `BackgroundPurger.BackgroundEphemeralPurger.SendExpired` | go/chat/ephemeral_purger.go:290-306 | Sends the leading expired slots |
| `BackgroundPurger.BackgroundEphemeralPurger.PopSent` | go/chat/ephemeral_purger.go:307-311 | Pops once per entry sent |
| `BackgroundPurger.BackgroundEphemeralPurger.QueuePurges` | go/chat/ephemeral_purger.go:283-319 | The whole pass, and the timer for the new head |
| `ReactionParity.PassParity` | go/chat/deliverer.go:709-789 | A pass without concurrent push keeps, for every reaction, toggles received plus toggles pending modulo 2, if and only if the turn that stops it neither puts back a reaction already settled nor drops one |
| `ReactionRuns.ServerEndsWhereUserLeftIt` | go/chat/deliverer.go:665-789 | Over every interleaving of pushes, retries, removals and the passes of all conversations, also while a record is being sent: once no toggle of a reaction is pending the server has it where the user left it, if and only if an even number of steps flipped it |
| `ReactionRuns.RunCounts` | go/chat/deliverer.go:665-789 | Toggles pushed, received and pending are even in number over every such run, but for those the user took back and the flipping steps |
| `ReactionParity.SettledReactionCanComeBack` | go/chat/deliverer.go:709-789 | Two equal reactions settle each other, then the second is put back when the connection is lost |
| `ReactionParity.StaleEntryCancelsPushes` | go/chat/deliverer.go:587-629 | A snapshot entry that has left the outbox removes equal reactions pushed meanwhile, so the parity survives exactly when they are even in number |
| `ReactionParity.TurnParity` | go/chat/deliverer.go:717-789 | Over one turn on any outbox the parity moves to the server if and only if the turn does not flip it, a condition on the outbox, the record and the answers of the world |
| `ReactionParity.GivenIff` | go/chat/deliverer.go:709-760 | The sender is called exactly for a record in time, whose background task is done and, if a reaction, that is still pending with an even number of equal ones beside it |
| `ReactionParity.TurnOutcome` | go/chat/deliverer.go:709-789 | What each turn leaves in the outbox, and that only a failure of anything but an unfurl ends the pass |
| `Deliverer.FailureLeavesPending` | go/chat/deliverer.go:324-413 | What a failure leaves of a pending record, error by error: at the last attempt the conversation fails, after too long off line the record fails, passing errors count an attempt, a duplicate connection changes nothing, duplicates and deleted messages go, all else fails with its type |
| `ReactionParity.HalfParity` | go/chat/deliverer.go:717-789 | The same for each half of a turn, up to the send and from its answer on, whatever happened to the outbox in between |
| `Deliverer.TurnIsTwoHalves` | go/chat/deliverer.go:717-789 | With nothing in between the two halves are the loop body |
| `ReactionParity.ReactionTurn` | go/chat/deliverer.go:587-629 | Cancelling and, if need be, sending moves the parity of a pending reaction to the server unless its failed send drops it |
| `ReactionParity.CancelEffect` | go/chat/deliverer.go:587-629 | Cancelling leaves just the reaction itself, and the number cancelled is odd exactly when the number pending is even |
| `ReactionParity.FailureEffect` | go/chat/deliverer.go:366-413 | The failure branch keeps every pending record and puts back one that has left |
| `DeliveryOrder.SenderGetsPlainRecordsInOrder` | go/chat/deliverer.go:665-789 | Over every interleaving of pushes, retries, removals and passes of all conversations, also while records are being sent, a plain record is given to the sender only after every plain record pushed before it for its conversation was sent, removed or marked failed, as long as no record is put back while ctimes of this conversation are out of push order |
| `DeliveryOrder.RunKeepsLine` | go/chat/deliverer.go:665-789 | The conversation stays in line over every such run, in the outbox and in the pass under way |
| `DeliveryOrder.UntouchedRunsDeliverInOrder` | go/chat/deliverer.go:665-789 | In particular over every run in which the conversation's plain records are pushed at later and later times and none is retried, whatever happens to all others |
| `DeliveryMachine.RunKeepsInv` | go/chat/deliverer.go:665-789 | Every record is in the outbox at most once, is one that was pushed, and is released or still sending; every pass under way has a record to go on with |
| `DeliveryMachine.PassesHaveTurns` | go/chat/deliverer.go:665-789 | In every reachable state each pass under way has a record to go on with |
| `DeliveryMachine.PullComesAgain` | go/chat/deliverer.go:665-707 | The deliverer never gets stuck: from every such state, whatever the world keeps answering, the next steps of the passes can be taken until all have ended and a pull comes again |
| `DeliveryMachine.PassRuns` | go/chat/deliverer.go:709-789 | A pass that runs in the machine with nothing in between is deliverForConv: the same outbox and the same deliveries |
| `DeliveryOrder.SortKeepsOrderIff` | go/chat/storage/outbox.go:257-307 | Re-sorting by ctime, with equal ctimes in any order, keeps every waiting plain record ahead of those pushed after it if and only if its ctime is strictly earlier than theirs |
| `DeliveryMachine.ReinsertedOutbox` | go/chat/storage/outbox.go:257-307 | A failing record that has left the outbox is put back, and the list computed is one that the sort may leave |
| `DeliveryOvertaken.RetriedRecordIsOvertaken` | go/chat/storage/outbox.go:257-307 | A run with a rising clock in which a retry renewed a ctime and a re-insertion re-sorted the outbox, after which at any time of the next hour the later record is given to the sender while the earlier one waits |
| `DeliveryOvertaken.OutOfLineIsOvertaken` | go/chat/deliverer.go:665-789 | From every state in which a waiting record is behind one pushed later, whatever passes are under way, some run gives the later one to the sender first, if no record has expired and none ahead in the conversation's pass is at its last attempt |
| `DeliveryOvertaken.UnguardedIsOvertaken` | go/chat/storage/outbox.go:257-307 | Whenever a step puts a record back and the order theorem does not cover it, because ctimes are out of push order, some outcome of the sort and some run after it have a record overtaken |
| `DeliveryOvertaken.RefusedRunKeepsPair` | go/chat/deliverer.go:324-364 | Sends refused with a duplicate-connection error leave the plain records of the conversation as they are, over any number of turns of any conversations |
| `DeliveryOrder.PlainTurn` | go/chat/deliverer.go:709-789 | A plain record that the loop moves on from is no longer pending |
| `OutboxStorage.OutboxStore.PushMessage` | go/chat/storage/outbox.go:139-212 | The record is pending last in its conversation, no other conversation changes, and IDs stay distinct |
| `OutboxStorage.OutboxStore.PullConversation` | go/chat/storage/outbox.go:216-253 | The conversation's pending records in stored order |
| `OutboxStorage.OutboxStore.RemoveMessage` | go/chat/storage/outbox.go:481-505 | Removes the record |
| `OutboxStorage.OutboxStore.CancelDuplicates` | go/chat/storage/outbox.go:449-479 | Removes equal reactions and reports how many, and whether the reaction itself is there |
| `OutboxStorage.OutboxStore.RecordFailedAttempt` | go/chat/storage/outbox.go:257-307 | Counts the attempt in place, or puts the record back sorted by ctime |
| `OutboxStorage.OutboxStore.MarkAsError` | go/chat/storage/outbox.go:340-374 | Marks the record in place, or puts it back as failed |
| `OutboxStorage.OutboxStore.MarkConvAsError` | go/chat/storage/outbox.go:309-336 | Marks every pending record of the conversation |
| `DelivererLoop.ConvDeliverer.HandleFailure` | go/chat/deliverer.go:324-413 | The choice between giving up and retrying, and its effect on the outbox |
| `DelivererLoop.ConvDeliverer.CancelPendingDuplicateReactions` | go/chat/deliverer.go:587-629 | What is cancelled, and when the send is dropped |
| `DelivererLoop.ConvDeliverer.DeliverOne` | go/chat/deliverer.go:717-786 | The loop body, with its early failures, background tasks, send and break |
| `DelivererLoop.ConvDeliverer.DeliverForConv` | go/chat/deliverer.go:709-789 | The loop over the snapshot |
| `TrackerRun.RunRefines` | go/chat/ephemeral_purge_tracker.go:125-351 | Through any run of sets, updates, inactivations, lookups, flushes, listings and clears that evicts no unsaved entry, the cache over the database answers as a plain map does |
| `Tracker.PutRefinesIff` | go/chat/ephemeral_purge_tracker.go:159-165 | A put is a map update if and only if it evicts no unsaved entry |
| `Tracker.GetRefinesIff` | go/chat/ephemeral_purge_tracker.go:125-157 | A lookup gives the last value put, and leaves the rest as it was if and only if its reload evicts no unsaved entry |
| `Tracker.FlushRefines` | go/chat/ephemeral_purge_tracker.go:167-197 | A flush saves every unsaved entry and is invisible to callers |
| `Tracker.ClearRefines` | go/chat/ephemeral_purge_tracker.go:343-351 | Clear removes the conversation from cache and database and nothing else |
| `Tracker.GetAllReturnsEverythingOnce` | go/chat/ephemeral_purge_tracker.go:237-266 | The listing returns every stored entry exactly once, in any order of the database keys |
| `TrackerRun.MergeOrder` | go/chat/ephemeral_purge_tracker.go:286-318 | The merged purge time does not depend on the order of updates; the merged message ID does exactly when one of the two is unset |
| `TrackerRun.MergeIs` | go/chat/ephemeral_purge_tracker.go:286-318 | The merge is active when either info is, has the earlier of the purge times that are set, and the stored message ID unless the new one is set and smaller |
| `TrackerRun.UpdateOnlyTightens` | go/chat/ephemeral_purge_tracker.go:286-318 | An update keeps an active entry active and purges it no later, an empty one changes nothing, other conversations are unaffected, and the result is queued exactly when it is news |
| `TrackerRun.PlainMapSees` | go/chat/ephemeral_purge_tracker.go:199-351 | What a caller sees after every other operation on the plain map |
| `Tracker.OtherVersionsAreAbsent` | go/chat/ephemeral_purge_tracker.go:125-157 | An entry stored under another version is as good as absent |
| `Tracker.FoundIsNewest` | go/chat/ephemeral_purge_tracker.go:125-157 | A lookup that finds something makes it the newest entry of the cache and keeps the order of the others |
| `Tracker.PutIsNewest` | go/chat/ephemeral_purge_tracker.go:159-165 | So does a put |
| `TrackerRun.StepRefines` | go/chat/ephemeral_purge_tracker.go:199-351 | Each operation gives the answer of the plain map and queues the same; the new state is that of the plain map if and only if the operation pushes no unsaved entry out |
| `TrackerRun.UnsavedEntryIsLost` | go/chat/ephemeral_purge_tracker.go:159-165 | With room for one entry a second put makes the tracker answer that it has no first one |
| `EphemeralTrackerObject.EphemeralTracker.Get` | go/chat/ephemeral_purge_tracker.go:125-157 | Lookup in place |
| `EphemeralTrackerObject.EphemeralTracker.Put` | go/chat/ephemeral_purge_tracker.go:159-165 | Put in place |
| `EphemeralTrackerObject.EphemeralTracker.FlushLocked` | go/chat/ephemeral_purge_tracker.go:173-197 | The loop over all cached keys, which re-adds each entry clean and so keeps their order |
| `EphemeralTrackerObject.EphemeralTracker.GetAllPurgeInfo` | go/chat/ephemeral_purge_tracker.go:237-266 | Flush, then one lookup per database key |
| `EphemeralTrackerObject.EphemeralTracker.SetPurgeInfo` | go/chat/ephemeral_purge_tracker.go:268-282 | Set, and queue for the purger |
| `EphemeralTrackerObject.EphemeralTracker.MaybeUpdatePurgeInfo` | go/chat/ephemeral_purge_tracker.go:286-318 | Merge with the stored info |
| `EphemeralTrackerObject.EphemeralTracker.InactivatePurgeInfo` | go/chat/ephemeral_purge_tracker.go:320-337 | Turn the entry inactive |
| `EphemeralTrackerObject.EphemeralTracker.Clear` | go/chat/ephemeral_purge_tracker.go:343-351 | Remove |
| `JobQueue.RunKeepsInv` | go/chat/convloader.go:51-106 | Over every run of Push, PopFront and Wait: ordered by priority with ties in push order, within its size, every name in the map queued, no generic job twice, no waiter open while there is work, no channel both open and closed |
| `JobQueue.FrontIsEarliestOfHighest` | go/chat/convloader.go:64-106 | The next job out has the highest priority and was pushed first among those |
| `JobQueue.InsertOrdered` | go/chat/convloader.go:83-91 | Insertion before the first task of lower priority keeps the order |
| `JobQueue.PushQueuesIff` | go/chat/convloader.go:64-93 | A push fails exactly when the queue is full, is skipped exactly when the same generic job is queued, and otherwise adds just that task and releases every waiter |
| `JobQueue.RunConserves` | go/chat/convloader.go:51-106 | Over every run each job taken in is handed out once or still queued, and nothing else is |
| `JobQueue.WaitClosedIff` | go/chat/convloader.go:51-62 | A waiter gets a fresh channel, closed exactly when there is work |
| `JobQueueObject.JobList.Push` | go/chat/convloader.go:64-93 | The walk along the list, the duplicate check and the closing of waiters |
| `JobQueueObject.JobList.PopFront` | go/chat/convloader.go:95-106 | Takes the front and its name |
| `JobQueueObject.JobList.Wait` | go/chat/convloader.go:51-62 | A channel, closed already if there is work |
| `SuspendResume.RunKeepsInv` | go/chat/convloader.go:202-320 | Over every run of suspend, resume, start, stop and loop steps, with no channel closed twice |
| `SuspendResume.BlockedOnlyWhileSuspended` | go/chat/convloader.go:287-419 | At most one resume channel is open, it is the current one, it is open exactly while suspended, and loops wait on no other open one |
| `SuspendResume.SuspendBlocks` | go/chat/convloader.go:287-305 | Suspending a started loader opens one new channel, which the loops get unless the buffer of ten is full; suspending again only counts; suspending a stopped one does nothing |
| `SuspendResume.ResumeReleases` | go/chat/convloader.go:307-320 | The last resume closes the open channel, so nobody is blocked any more; earlier ones only count |
| `SuspendResume.LoopGoesOnAfterResume` | go/chat/convloader.go:348-419 | A loop goes on only once the suspension it waited for has ended |
| `SuspendResume.StartedIs` | go/chat/convloader.go:202-240 | The loader is started exactly when its last start or stop was a start |
| `SuspendResume.StepKeepsInv` | go/chat/convloader.go:287-320 | No step closes a closed channel |
| `SuspendResume.CountIsOutstandingIff` | go/chat/convloader.go:287-320 | The loader counts what its callers count, if and only if as many suspends came while it was stopped as resumes came while it was not suspended |
| `SuspendResume.CountIs` | go/chat/convloader.go:287-320 | The count after every run: suspends minus resumes, minus ignored suspends, plus ignored resumes |
| `SuspendResume.IgnoredSuspendEndsAnother` | go/chat/convloader.go:287-296 | A suspend ignored while stopped lets its resume end another suspension |
| `SuspendResume.ConvLoader.DoSuspendLocked` | go/chat/convloader.go:287-304 | Suspend in place |
| `SuspendResume.ConvLoader.DoResumeLocked` | go/chat/convloader.go:307-320 | Resume in place; closes only an open channel |
| `EmojiDecorate.DecorateSplicesIff` | go/chat/emojisource.go:908-975 | For every body and every ascending list of matches, splicing at a running offset equals joining the original gaps with the replacements, if and only if no decoration fails to marshal |
| `EmojiDecorate.LoopSplices` | go/chat/emojisource.go:934-974 | After k turns the body is the assembled prefix and the untouched rest, displaced by the offset |
| `EmojiDecorate.LoopLosesBody` | go/chat/emojisource.go:934-974 | A marshalling error empties the body for good |
| `EmojiDecorate.MarshalErrorEmptiesBody` | go/chat/emojisource.go:934-974 | A body around one failing decoration comes out empty |
| `EmojiDecorate.DecorateBody` | go/chat/emojisource.go:908-975 | The loop itself |
| `EmojiDecorate.BuildEmojiMap` | go/chat/emojisource.go:926-933 | The first emoji harvested under an alias wins |
| `EmojiDecorate.ReplacementIs` | go/chat/emojisource.go:926-970 | A match becomes what the first emoji under its name is: text, decoration, or itself when the source is unknown |
| `EmojiDecorate.NoReplacement` | go/chat/emojisource.go:926-970 | A match without an emoji stays as it is |
| `EmojiDecorate.DecorationIsMarked` | go/chat/utils/utils.go:2558-2569 | A decoration stands between its two markers |
| `EmojiListing.GetNoSet` | go/chat/emojisource.go:540-637 | The loops over conversations and mappings list every listable emoji once, own team first, with its creation info where wanted and found, numbered by how often its alias was seen, index them by name, and group them by conversation |
| `EmojiListing.EntriesAre` | go/chat/emojisource.go:566-637 | What is listed: exactly the resolvable entries of the readable mappings, aliases and other teams only if wanted |
| `EmojiListing.OwnTeamFirst` | go/chat/emojisource.go:626-637 | Emojis of the own team come before those of others |
| `EmojiListing.TeamsAre` | go/chat/emojisource.go:566-622 | There is a group for every readable conversation |
| `EmojiListing.ListedNames` | go/chat/emojisource.go:614-621 | With no # in stored aliases, all listed names are distinct and stripping one gives back the stored alias |
| `EmojiListing.LookupIsComplete` | go/chat/emojisource.go:614-621 | So no emoji is overwritten in the lookup table |
| `EmojiAliases.NamesDistinct` | go/chat/emojisource.go:614-621 | Numbered names of two occurrences differ |
| `EmojiAliases.StripName` | go/chat/emojisource.go:678-680 | Stripping undoes the numbering |
| `EmojiAliases.HashAliasCollides` | go/chat/emojisource.go:614-621 | A stored alias with # can take the name of a numbered one |
| `EmojiAliases.AcceptedHasNoHash` | go/chat/emojisource.go:224-247 | What is validated and normalised has neither # nor colon |
| `EmojiAliases.ValidIff` | go/chat/emojisource.go:228-247 | A name is taken if and only if it is no stock emoji, has 2 to 48 characters and no hash sign, and which of these is reported |
| `EmojiAliases.StoredLengthIff` | go/chat/emojisource.go:228-264 | The length is checked before colons are dropped: the stored alias has the minimum length exactly when enough of it is not colons |
| `EmojiAliases.StoredAliasCanBeEmpty` | go/chat/emojisource.go:224-264 | Two colons are stored as the empty alias |
| `FlipInjection.DealtIDsIncrease` | go/chat/flipmanager.go:1102-1183 | Over every run, with messages arriving in any order, through refills, own and invalid messages, the dealer of each game gets strictly increasing message IDs, as long as threads come newest first and no own message is older than what was dealt by then |
| `FlipInjection.InOrderIsOrderly` | go/chat/flipmanager.go:1237-1265 | Which holds whenever the messages of each game arrive in order |
| `FlipInjection.RefillIsComplete` | go/chat/flipmanager.go:1137-1183 | A refill deals exactly the injectable messages between the mark and the arrival, but for the two oldest of the thread |
| `FlipInjection.ArrivalIsDealtIff` | go/chat/flipmanager.go:1130-1183 | An injectable arrival is dealt last and becomes the mark exactly when it is ahead of the mark and any gap could be pulled; otherwise nothing changes |
| `FlipInjection.InjectsIff` | go/chat/flipmanager.go:1102-1128 | A valid flip message that this device has not sent is dealt and becomes the mark; any other changes nothing |
| `FlipInjection.DirectIgnoresThread` | go/chat/flipmanager.go:1130-1155 | A message in sequence, or the first of a game, is dealt without looking at the thread |
| `FlipManagerObject.ErrorIs` | go/chat/flipmanager.go:1102-1183 | The error of an arrival, case by case |
| `FlipInjection.ScanIs` | go/chat/flipmanager.go:1168-1181 | On a newest-first thread the loop with its skip and early stop picks exactly that interval, oldest first |
| `FlipInjection.OwnKeepsInvIff` | go/chat/flipmanager.go:1244-1250 | An own message keeps the marks right exactly when it is not older than what was dealt |
| `FlipInjection.OlderOwnMessageReinjects` | go/chat/flipmanager.go:1244-1250 | Otherwise the next message in sequence is dealt out of order |
| `FlipInjection.RunKeepsInv` | go/chat/flipmanager.go:1102-1265 | Marks are never behind what was dealt, over every such run |
| `FlipManagerObject.NoErrorIsDealt` | go/chat/flipmanager.go:1130-1183 | An arrival without error is dealt last unless this device sent it; the past and a failed pull change nothing |
| `FlipManagerObject.FlipManager.InjectIncomingChat` | go/chat/flipmanager.go:1102-1128 | Which messages are dealt and move the mark, and which are errors |
| `FlipManagerObject.FlipManager.UpdateActiveGame` | go/chat/flipmanager.go:1130-1183 | Direct, past, gapped and unknown arrivals, and the error each returns |
| `FlipManagerObject.FlipManager.InjectGap` | go/chat/flipmanager.go:1168-1181 | The refill loop |
| `FlipManagerObject.FlipManager.OwnMessage` | go/chat/flipmanager.go:1244-1250 | Deals nothing and makes the message the mark: what the game got up to it is the past, the next one goes straight to the dealer, later ones refill from it, other games are unaffected |
| `FlipVisualizer.RowsTile` | go/chat/flipmanager.go:1612-1637 | Rows start at 0, end at the height, follow each other, and each is within less than one pixel of the exact height |
| `FlipVisualizer.RoundedSteps` | go/chat/flipmanager.go:1622-1635 | Rounding what is left after a rounded mark does not drift |
| `FlipVisualizer.LineHasOneRow` | go/chat/flipmanager.go:1612-1637 | Every line lies in exactly one row |
| `FlipVisualizer.Visualize` | go/chat/flipmanager.go:1612-1640 | Both pictures, pixel by pixel: the row of each participant shows its commitment, in the colours that say whether it was revealed, and what was revealed, one cell for each byte |
| `FlipVisualizer.FillRow` | go/chat/flipmanager.go:1602-1610 | One cell for each byte from the left, the rest of the picture as it was; points outside are ignored |
| `ConvSource.ResolveHoles` | go/chat/convsource.go:588-629 | Succeeds if and only if the thread does not end in a hole and every hole has a message of its ID on either side; then IDs and other messages are unchanged and holes hold their messages; otherwise the reported ID is that of the first hole without a message, and exactly the holes before it are filled |
| `ConvSource.NoHoleRemainsIff` | go/chat/convsource.go:588-629 | A placeholder remains exactly when a fetched message is itself one |
| `ConvSource.GetMessages` | go/chat/convsource.go:894-971 | Local and remote messages in request order; only what is missing locally is asked for |
| `ConvSource.PickHasID` | go/chat/convsource.go:962-970 | Each result has the requested ID unless neither side had the message |
| `ConvSource.MissingAre` | go/chat/convsource.go:905-935 | Exactly what is not stored locally is asked of the server |
| `ConvSource.CompleteWhenServerIs` | go/chat/convsource.go:894-971 | When the server knows what it is asked for, every message comes back, the local ones as stored |
| `ConvSource.GatherHoles` | go/chat/convsource.go:592-603 | The placeholders' IDs in order, or a miss when the last message is one |
| `ConvSource.FillHoles` | go/chat/convsource.go:614-628 | The loop that overwrites the slots up to the first hole without a message |
| `Credential.LoadsAreSpaced` | go/auth/credential_authority.go:319-368 | In every interleaving of any number of checks on one user object with a non-decreasing clock, successful loads start more than the timeout apart, failed loads in between included; a user that was invalidated is a new object and loads at once |
| `Credential.ChecksReadFinishedLoads` | go/auth/credential_authority.go:404-420 | A check that gets past repopulate reads what the loads finished at its read made of the user, the latest of them fresh when the check looked |
| `Credential.WriterIsAlone` | go/auth/credential_authority.go:319-361 | While a thread loads or writes, no other holds the lock |
| `Credential.NeverStuck` | go/auth/credential_authority.go:319-368 | In every reachable state with a check not over, one can act; without a writer everybody who wants the read lock gets it |
| `Credential.ActAdvances` | go/auth/credential_authority.go:319-368 | Every action takes its check further, so every check comes to an end |
| `Credential.RunKeepsInv` | go/auth/credential_authority.go:319-420 | The invariant of lock, data, times and threads over every run |
| `Credential.WritesLoad` | go/auth/credential_authority.go:348-360 | The single writes of a load, one field or key at a time, add up to the load |
| `CredentialChecks.KeysAccumulate` | go/auth/credential_authority.go:349-354 | A cached key set is the union of all finished loads |
| `CredentialChecks.LatestReplyIff` | go/auth/credential_authority.go:348-360 | It equals the latest reply exactly when that reply still lists every key ever listed; name and deletion are always the latest |
| `CredentialChecks.DroppedKeyStillAccepted` | go/auth/credential_authority.go:467-475 | A key that a later reply dropped is accepted as long as the object lives |
| `CredentialChecks.CheckMeans` | go/auth/credential_authority.go:370-420 | Across every interleaving, for the loads finished at its read, a check accepts an argument exactly when name and deletion are as last replied, the key was ever replied, and the key lists compare |
| `CredentialChecks.RefusalIs` | go/auth/credential_authority.go:436-475 | Which check refuses, in the order deletion, name, key, key lists |
| `CredentialChecks.ReadRecordsLoads` | go/auth/credential_authority.go:404-420 | The number of loads a check stands on is the number finished when it read |
| `CredentialChecks.AcceptedIff` | go/auth/credential_authority.go:370-402 | The same for one history of loads |
| `CredentialChecks.CompareKeysIff` | go/auth/credential_authority.go:454-464 | Comparing length and membership is set equality exactly for lists without duplicates |
| `CredentialChecks.DuplicatesPass` | go/auth/credential_authority.go:454-464 | A list with a duplicate that passes against a different set |
| `CredentialUserObject.RepopulatesIff` | go/auth/credential_authority.go:319-368 | A user loaded no more than three hours before either look is left alone; otherwise a failed load makes it not OK and a reply adds its keys and replaces the rest |
| `CredentialUserObject.CachedUser.Repopulate` | go/auth/credential_authority.go:319-361 | One call without interference: no-op, failure or load |
| `CredentialUserObject.CachedUser.CompareKeys` | go/auth/credential_authority.go:454-464 | The loop |
| `CredentialUserObject.CachedUser.CheckAfterPopulated` | go/auth/credential_authority.go:370-402 | The first failing check decides |
| `CredentialAuthority.Authority.Clean` | go/auth/credential_authority.go:282-296 | Removes exactly the users that a due item covers, and the due items |
| `CredentialAuthority.EvictedWasIdle` | go/auth/credential_authority.go:282-296 | No user asked for within the cache timeout is evicted by cleaning |
| `CredentialAuthority.AskedAgainIsNeverCleaned` | go/auth/credential_authority.go:282-296 | A user asked for after every item scheduled for it survives every cleaning until another load |
| `CredentialAuthority.Authority.MakeUser` | go/auth/credential_authority.go:301-310 | One object per user, reused and its access time renewed |
| `CredentialAuthority.Authority.Invalidate` | go/auth/credential_authority.go:259-264 | Drops the user object |

## Left out

- Cryptographic strength: the primitives are functions with inverse laws, so nothing is proved about forged or altered ciphertexts beyond what the checks themselves establish.
- msgpack and JSON encoding: packing is a function with an inverse; nil and empty slices are not told apart, and encoding errors are not modelled.
- Boxer: mentions, emojis, usernames and device names of an unboxed message, the finalized TLF name, key lookup errors by kind, and permanent against transient errors.
- BoxerChecks.PassedChecksAgreeIff: speaks of runs in which the table can be read and written; unreadable and unwritable tables are steps of the machine, and after them the checks promise nothing.
- SignEncryptCodec: the io.Reader wrappers, the chunk length set for tests, and associated data.
- ReadSeeker.DecodingReadSeeker.Read: short reads and errors of the underlying source are left out, except that it cannot seek before its start, and the LRU order of the cache is any eviction; a panic is a result.
- BackgroundPurger.BackgroundEphemeralPurger.Start: the method takes the two steps of a start, filling the queue and making the timer, one after the other; what comes between them, the crash included, is covered by the runs of the loop.
- PurgerLoop.RunKeepsInv: the clock may advance between steps but not inside one that holds the lock, except for the readings of a purge pass.
- Outbox: storage errors, previews and the purge of old records; outbox IDs are numbered in push order. The outbox methods sort records of equal ctime in stored order, one of the orders that sort.Sort may leave; the runs allow them all.
- ReactionRuns.RunCounts: a failed send never reached the server, so a reaction dropped as a duplicate, which the server may have got before, counts as a flip.
- DeliveryOrder.SenderGetsPlainRecordsInOrder: the KBFS deliver loop, which runs the same pass, is not a separate thread.
- DeliveryOvertaken.OutOfLineIsOvertaken: states with a record at its last attempt ahead in the conversation's own pass are left out, as its failure releases the whole conversation.
- TrackerRun.RunRefines: one user, and infos stored under their own conversation; database errors, OnDbNuke and logout are left out.
- JobQueue and SuspendResume: the retry rules of load and loadLoop, cancelled loads and the monitoring of the app state.
- EmojiDecorate: the regular expression that finds the matches, HTML escaping, and the JSON and base64 encoding of a decoration; matches are given in ascending order as the expression yields them.
- EmojiListing.GetNoSet: sources and creation infos are numbers, and a mapping is listed in any order.
- FlipInjection.DealtIDsIncrease: no eviction from the table of marks; the dealer's own protocol, rate limiting and messages dropped when the queue is full.
- FlipVisualizer.Visualize: exact reals instead of floating point, palettes by name instead of colours, hexadecimal decoding and the PNG encoding of the pictures.
- ConvSource.GetMessages: locking, notification, writing back what was fetched, resolving superseded messages, and the explosion of expired messages by storage.
- Credential: logging, which formats the user under its own lock, shutdown, and the poll for changes beyond the invalidation of one user.
- Conversation ID shards, identify and rekey handling, inbox, search, attachments over HTTP, the user interface and the platform glue.

# Middlebox and ordered hash map: a Dafny model

The system is a DPDK middlebox in front of memcached. It takes `gets` requests from clients, merges their keys into one packet, and steers the server's replies back to every client that asked (`middlebox/`). An insertion-ordered hash map with tombstones stands beside it (`deprecated/map.c`).

The project has three parts.

1. **The middlebox protocol.** `Protocol.dfy` is `middlebox/src/api.c` as a state machine: one function for each C function, on the value of the static variables, with a log of what went out, what was freed and what was registered. `Middlebox.dfy` is the same code in its own form: arrays, chains of packet buffers linked through `next`, loops and fields. Each of its methods is proved to do exactly what the function says; the datagrams it sends and the buffers it gives back are fields of the class, tied to the log of the state machine. `Serve` ties any sequence of events without a stray completion and without a copy of a freed packet (see below) to a run of the state machine. What holds of every run is proved in `Batching.dfy`, `Aging.dfy`, `Chains.dfy`, `Steering.dfy`, `Ledger.dfy`, `Accounting.dfy`, `Replies.dfy`, `Runs.dfy`, `Lifetime.dfy`, `Copies.dfy`, `Breakage.dfy`, `Sending.dfy`, `Service.dfy` and `Requests.dfy`; `Counterexamples.dfy` and `LongRuns.dfy` show where the obvious claims fail.
2. **The hash map.** `HashMap.dfy` is `deprecated/map.c` on a bucket array with a list threaded through the slots, tombstones, and the doubling rehash that relinks the list in place. `Buckets.dfy` holds the facts about the array as a value. `OrderedMap.dfy` is what the map is for, given twice: as operations on a sequence of pairs, and straight from the history of calls. The hash function is arbitrary.
3. **Text and frames.** `Text.dfy` and `Wire.dfy` cover the parsers and packers and the memcached datagram. `Frame.dfy` covers the header building of `udp.c`, `ip.c` and `eth.c` in the packet buffer, with the scratch structures laid over it, and the IPv4 checksum (section 3.1 of RFC 791; sections 1 and 2(B) of RFC 1071).

Main results, all for every input or every run:

- Batches are the first-occurrence lists of consecutive windows of the requested keys, a full batch leaves exactly when the next key would make the message longer than 1462 bytes, every batch is accepted by the UDP layer and reads back as it was packed, and the 600 rows of `ukey` are never outgrown.
- A row of the client table is at most 1200 batches old, so ids modulo 60000 never alias; the table never outgrows its ring.
- A chain is exactly the list of registrations under its id and key since the row was created; a value of d consecutive datagrams, arriving anywhere in a run, reaches each of them d times, under its own request id, and the row goes with the d-th.
- In a run without stray completions a registration leaves its row exactly when a ring slot naming its signature is reused or a reply completes the row; until then a value that answers its batch for its key reaches it, if it was not left over (see below).
- In every run without stray completions each key of each request is registered for the client that asked; unless it is left over by an overflow or its ring slot is reused, the first value that answers its batch for it reaches that client, under the id of its request. A datagram that names no key goes where the newest value begun before it went, whatever came between.
- A batch leaves only because the next key did not fit, or because fewer than 1000 requests were outstanding, or because 100 ms had passed since the newest batch.
- After a run every client packet is in exactly one place if and only if no reply of the run was a stray completion.
- The key of a registration travels in the batch of its own epoch if and only if it did not overflow that batch; one that did is served by no reply to a recent batch that carries its key.
- While the server answers only what it was asked, the outstanding counter is the number of open requests plus that of batches sent under an id still open since the last timeout, modulo 65536; it is exact if and only if the latter is a multiple of 65536, and no batch is closed twice. In every run keys wait only while the counter is at least 1000.
- In runs without stray completions and without copies of freed packets the code sends exactly the datagrams of the run, reads no client packet it has given back and gives none back twice, and gives back every reference it takes on a reply.
- The hash map answers every sequence of calls as the ordered map does, through all collisions, tombstones and resizes, at an amortised rehash cost below two moves for each insertion; contents and answers are described from the history of calls alone.
- Frames depend on nothing the buffer held before except the payload; their headers verify, and read as source, destination and lengths require.

Where the code differs from what one would expect, the model follows the code and says exactly when the expectation holds:

- The key that overflows a batch is registered under the old id and travels under the new one, under which it has no row (`Counterexamples.OverflowHappens` gives a first request that does it); a registration is found by the replies to the batch carrying its key if and only if it was not left over in this way (`Batching.CarriedByItsBatch`, `Service.RowOfBatch`).
- A stray completion: completing a row deletes the row of `key_hold`, although a continuation was looked up by `last_key`, so the row of `last_key` keeps a freed chain (`Counterexamples.InterleavingHappens` gives the packets; `Breakage.ConservedIffTidy` the exact condition). What the code does with a freed chain is not modelled, so whatever concerns chains or the class is claimed for runs without stray completions.
- A copy of a freed packet: every key of a request but the first is registered with a copy of the packet, which may have been evicted with the row of the first key by then (`LongRuns.CopyOfFreedHappens` gives a request of 82 bytes that does it; `Copies.CopyOfOwnPacket` and `Copies.GivenBackAfter` the exact condition). The class is claimed for runs in which this does not happen (`Copies.CleanRun`).
- `strip_keys` repeats the previous key for an empty piece (`Text.FaithfulIffNoGap`).
- `hashmap_iterate` stops after 1002 list nodes, although `deprecated/map.h` promises every element (`HashMaps.HashMap.Iterate`, `HashMaps.IterateFallsShort`).
- `outstanding_req` is 16 bits wide and wraps (`LongRuns.CounterWraps` gives the run; `Accounting.OutstandingMeaning` what the counter then means).

Conventions. Values of successive `clock()` calls are an arbitrary function of the call number. `rte_hash` is a finite map. An mbuf of a client is a buffer with its datagram, source address and `next`; its `serial` in the abstract state tells registrations apart. In the class, `model` is a ghost field that the representation invariant ties to all other fields. Quantified invariants are written through small named predicates (`Listed`, `Apart`, `Stands`, `Window`), which keeps the proofs short.

## Model

| member | source | states |
|---|---|---|
| OrderedMap.ContentsTellHistory | deprecated/map.h:36-68 | After any run the map holds exactly the keys inserted and not removed since, ordered by latest (re-)insertion, each with its newest value and the right key pointer |
| OrderedMap.HistoryIsUnique | deprecated/map.h:65-66 | That description determines the contents, order included |
| OrderedMap.HistoryStep | deprecated/map.c:215-342 | Each single call keeps contents and history in step |
| OrderedMap.AnswersTellHistory | deprecated/map.c:215-353 | What every call of a run hands back, told from the calls before it alone: values and flags of look-ups, the pairs the callback sees, the size |
| HashMaps.Replay | deprecated/map.c:46-353 | Every run of calls, under any hash function, answers as the ordered map; capacity is 20 * 2^resizes, load at most 3/4 with tombstones, and all resizes move fewer than twice the entries inserted |
| HashMaps.PerformNext | deprecated/map.c:215-353 | One more call keeps a run in step with the ordered map and with the count of insertions |
| HashMaps.Perform | deprecated/map.c:215-353 | One call of a run changes and answers as the ordered map |
| HashMaps.HashMap.constructor | deprecated/map.c:46-64 | A new map is valid and empty, with the imaginary bucket as its last |
| HashMaps.HashMap.FindEntry | deprecated/map.c:170-213 | Terminates at the live slot of the key, or, if the key is nowhere, at the free slot its probe sequence leads to |
| HashMaps.HashMap.ResizeEntry | deprecated/map.c:73-88 | Copies an old bucket, stale next included, into the first keyless slot of its probe sequence |
| HashMaps.HashMap.SkipTombstone | deprecated/map.c:109-118 | Relinks past a tombstone; the moved pairs stay what they were |
| HashMaps.HashMap.MoveEntry | deprecated/map.c:120-121 | Moves one live bucket to the end of the new list; the moved pairs grow by it |
| HashMaps.HashMap.Rehash | deprecated/map.c:90-125 | The rehash terminates and keeps exactly the live pairs, in order, without tombstones, with all slot, probe and list invariants |
| HashMaps.HashMap.Resize | deprecated/map.c:90-125 | In addition the capacity doubles and the moves are paid for by past insertions |
| HashMaps.Doubled | deprecated/map.c:94-122 | A full array has exactly 15 * 2^j entries, and doubling it leaves room and stays within the bound on moves |
| HashMaps.HashMap.MakeRoom | deprecated/map.c:217-218 | After the load check one more entry fits and the contents are unchanged |
| HashMaps.HashMap.Insert | deprecated/map.c:222-233 | A new pair joins the end of the list and all invariants hold |
| HashMaps.HashMap.Set | deprecated/map.c:215-235 | Overwrites the value in place or appends, as the ordered map |
| HashMaps.HashMap.GetSet | deprecated/map.c:237-261 | Reports the existing value or inserts the given one |
| HashMaps.HashMap.SetFree | deprecated/map.c:263-293 | The callback sees the old pointer and value exactly once; both are then replaced |
| HashMaps.HashMap.Get | deprecated/map.c:295-304 | Presence and value as the ordered map, whose answers `OrderedMap.AnswersTellHistory` tells from the history |
| HashMaps.HashMap.Remove | deprecated/map.c:309-324 | The pair leaves the map; its bucket stays as a tombstone |
| HashMaps.HashMap.RemoveFree | deprecated/map.c:326-342 | As remove, after showing the pair to the callback once |
| HashMaps.HashMap.Size | deprecated/map.c:345-353 | The number of live pairs |
| HashMaps.HashMap.Iterate | deprecated/map.c:355-380 | The callback sees exactly the live pairs among the first 1002 nodes of the list, in order, and so the whole map if and only if only tombstones lie beyond |
| HashMaps.IterateFallsShort | deprecated/map.h:65 | A map of 1003 pairs on which iteration does not reach every element |
| Buckets.AbsentKey | deprecated/map.c:174-212 | If probing meets a free slot before the key, no slot holds the key |
| Buckets.SomeFree | deprecated/map.c:217 | A list shorter than the array leaves a free slot, so probing ends |
| Buckets.Appended | deprecated/map.c:222-232 | Filling the free slot and linking it behind the last bucket keeps slot, probe and list invariants |
| Buckets.MoveOne | deprecated/map.c:120-121 | The same while the old list is still the tail of the new one |
| Buckets.SkipOne | deprecated/map.c:111-117 | Dropping a tombstone from the tail keeps the rehash invariant |
| Buckets.Bury | deprecated/map.c:317-322 | A tombstone keeps every probe path and removes exactly one pair |
| Buckets.Rewrite | deprecated/map.c:288-292 | Overwriting a live bucket changes exactly one pair |
| Text.StripKeys | middlebox/src/api.c:404-432 | The loop with its word buffer finds exactly the keys of the request |
| Text.FaithfulIffNoGap | middlebox/src/api.c:417-431 | The keys read are the pieces of the request if and only if no piece is empty |
| Text.SegmentsRejoin | middlebox/src/api.c:404-432 | The pieces of a request hold no space and, joined by single spaces, are what follows its first word |
| Text.GapRepeats | middlebox/src/api.c:417-431 | An empty piece is read as the nearest piece before it that is not empty |
| Text.RequestKeysValid | middlebox/src/api.c:271-273 | What is read is at least one key, and each fits its row |
| Text.ConstructKeysPacket | middlebox/src/api.c:435-445 | The packing loop writes "gets" and the keys |
| Text.CommandRead | middlebox/src/api.c:404-432 | Whatever the command word, the keys of a request are what follows it |
| Text.MessageLength | middlebox/src/api.c:320 | The length of the message from the number and total size of the keys |
| Text.MessageRoundTrip | middlebox/src/api.c:404-445 | Reading a packed message gives back exactly its keys |
| Text.SignatureInjective | middlebox/src/api.c:284 | Two registrations share a signature only if they share id and key |
| Wire.WireRoundTrip | middlebox/src/api.c:462-542 | The datagram to the server reads back as its id, sequence 0, count 1 and exactly its keys, and fits unless the text is too long |
| Wire.RequestBytes | middlebox/src/api.c:462-505 | The same datagram byte by byte: id in network order, fixed header, "gets ", CR LF |
| Wire.GetRequestReads | middlebox/src/api.c:404-432 | A client's "get" request that fits is legal and read as its id and keys |
| Wire.ReaddressedOnlyId | middlebox/src/api.c:508-513 | Restoring a client's id changes the first two bytes and nothing else |
| Wire.StripKeyValue | middlebox/src/api.c:388-401 | Finds what `NamesNoneIffNoValue` and `NamedKeyIsAt14` say |
| Wire.ReplyNamesKey | middlebox/src/api.c:388-401 | A reply "VALUE key ..." names its key and is one the parser can read |
| Wire.NamesNoneIffNoValue | middlebox/src/api.c:390-391 | A reply of any length names no key if and only if the bytes of "VALUE" stand nowhere in its text before a NUL |
| Wire.NamedKeyIsAt14 | middlebox/src/api.c:393-400 | The key named is the longest run without space or NUL from byte 14 on, wherever "VALUE" stood |
| Batching.FirstsMeaning | middlebox/src/api.c:448-459 | First occurrences keep every key, invent none and repeat none |
| Batching.OverfullMeansTooLong | middlebox/src/api.c:320 | The size check fires exactly when the message is longer than MAX_PAYLOAD_LEN |
| Batching.TakeKeyBatched | middlebox/src/api.c:278-322 | One key of a request keeps the window invariant, overflowing or not |
| Batching.SendAll | middlebox/src/api.c:82-96 | A partial batch closes the window at the last registration |
| Batching.SendFull | middlebox/src/api.c:74-96 | A full batch closes it just before the overflowing key, which opens the next |
| Batching.OverflowCloses | middlebox/src/api.c:320-321 | An overflowing registration closes the window just before itself, and its key is not among the keys that travel |
| Batching.CarriedByItsBatch | middlebox/src/api.c:74-96 | The key of a registration is in the batch of its epoch if and only if it did not overflow that batch; one that did comes first in the next batch |
| Batching.CarriedWasRegistered | middlebox/src/api.c:85 | Every key of a batch was registered in its window |
| Batching.WindowIsItsEpoch | middlebox/src/api.c:284 | Every registration in the window of a batch was made in its epoch, except a first one left over from the overflow of the batch before |
| Batching.RowsSuffice | middlebox/src/api.c:3 | At most 571 of the 600 rows of ukey are ever used, by counting one-character keys; total_ukey_size never wraps |
| Aging.NoAlias | middlebox/src/api.c:294 | A row found under the current id was created in the current epoch |
| Aging.RegisterAges | middlebox/src/api.c:293-317 | After a registration the newest creation belongs to the current epoch |
| Aging.VictimIsOldest | middlebox/src/api.c:299-305 | The ring slot about to be reused holds the creation 600 before |
| Aging.TakeKeyAges | middlebox/src/api.c:278-322 | One key of a request keeps ring, births and pacing: at most two batches go out between creations |
| Aging.SendAllAges | middlebox/src/api.c:82-96 | So does a partial batch |
| Aging.YoungRow | middlebox/src/api.c:294-309 | Every row is at most 1200 batches old |
| Aging.TableBounded | middlebox/src/api.c:297-309 | The table never holds more than 600 rows, and fewer when a row is added |
| Aging.EvictionTime | middlebox/src/api.c:298-305 | The evicted row is that of the creation 600 before if and only if its signature was not created again since |
| Chains.RegisterChains | middlebox/src/api.c:309-317 | A registration prepends to its chain, which stays the list of waiting registrations |
| Chains.ChainMeaning | middlebox/src/api.c:311-314 | A chain holds each registration it should hold once, and nothing else |
| Chains.RegisterConserves | middlebox/src/api.c:297-314 | Registering keeps every packet in one place, the evicted ones freed |
| Chains.OnePlaceEach | middlebox/src/api.c:297-314 | A conserved packet is freed once and in no chain, or in exactly one chain, once |
| Steering.FanOutAt | middlebox/src/api.c:191-212 | Each client of the chain receives the reply under its own id, in chain order |
| Steering.ValueAsWritten | middlebox/src/api.c:158-180 | Datagrams of which the first starts with "VALUE" and a key, and no other holds those bytes, are one value for that key |
| Steering.ValueIsSteered | middlebox/src/api.c:162-248 | A value of d consecutive datagrams goes to the whole chain d times; the row goes with the d-th and not before |
| Steering.EveryClientIsServed | middlebox/src/api.c:191-248 | The deliveries are, one by one, those to the registrations since the row's creation, newest first, each under its own request id |
| Steering.ServerConserves | middlebox/src/api.c:242-248 | A reply that is no stray completion keeps every packet in one place |
| Steering.ConservedIffNotStray | middlebox/src/api.c:180-248 | Packets stay conserved if and only if the reply is not a stray completion |
| Ledgers.OldSizeStays | middlebox/src/api.c:78-86 | Recording the size of a new batch overwrites that of no batch whose id is still its own |
| Ledgers.SendBooks | middlebox/src/api.c:78-92 | Sending keeps the books in every run: sizes recorded, and an id closed at most once for each time it was sent |
| Ledgers.CloseBooks | middlebox/src/api.c:225-229 | So does closing an id, which was sent again since it was last closed |
| Ledgers.ClosedOnce | middlebox/src/api.c:218-229 | Two closings never close the same batch |
| Accounting.OutstandingMeaning | middlebox/src/api.c:91-92 | The counter is the number of open requests plus that of batches sent under an id still open, modulo 65536: exactly when it is exact, and exactly when it is too small |
| Accounting.SendAccounts | middlebox/src/api.c:91-96 | Sending opens its id and keeps the account |
| Accounting.CloseAccounts | middlebox/src/api.c:225-229 | Closing an open id finds something owed, so the counter does not underflow |
| Accounting.ServerAccounts | middlebox/src/api.c:218-235 | A reply to an issued id keeps the account |
| Accounting.RefreshAccounts | middlebox/src/api.c:122-133 | So does the timer, which forgives everything owed |
| Accounting.StepKeepsBusy | middlebox/src/api.c:325-327 | After every event, pending keys imply at least 1000 outstanding requests |
| Accounting.TimerFlushes | middlebox/src/api.c:115-133 | After the timer nothing is pending, or the timeout had not passed |
| Sending.TimerSendsIffLate | middlebox/src/api.c:115-133 | The timer sends if and only if it is late; then exactly the pending keys go and every other id is closed, otherwise nothing but the clock changes |
| Sending.TimerReads | middlebox/src/api.c:115-122 | Late means keys pending and 100 ms since last_send_clock, or since now when that is unset; how often clock() is called, and what is kept |
| Sending.KeySendsIffTooLong | middlebox/src/api.c:319-321 | A key sends a batch if and only if it is new and the message would be too long with it |
| Sending.RequestSends | middlebox/src/api.c:325-327 | After its last key a request sends what is pending if and only if fewer than 1000 are outstanding |
| Sending.ReplySends | middlebox/src/api.c:182-232 | A reply sends what is pending if and only if it finds its row and closes its id and fewer than 1000 stay outstanding; without a row it counts nothing |
| Sending.WhySent | middlebox/src/api.c:62-327 | Every batch of every event overflowed, or took all pending keys with fewer than 1000 outstanding, or left with a late timer |
| Sending.StepReads | middlebox/src/api.c:97 | A request or a reply calls clock() once for each batch and keeps what the last call said |
| Sending.LastSendTold | middlebox/src/api.c:97-122 | In every run last_send_clock is what clock() said when the newest batch was sent, so lateness counts from there |
| Sending.BeforeAnySend | middlebox/src/api.c:115-116 | Before any batch it is unset, or what a timer call that found it unset was told |
| Replies.ValueCountsOnce | middlebox/src/api.c:218-239 | Whatever is lost, a value is counted at most once while its id is open, and exactly once if its first datagram arrives |
| Replies.AsideLeaves | middlebox/src/api.c:218-235 | A request, a reply to another id or a timer call in time leaves the counters of an id alone unless a batch goes out under it |
| Replies.BatchCloses | middlebox/src/api.c:220-228 | Whatever requests, replies to other ids and timer calls come between: m values never count for more than m; with every first datagram the id closes exactly at more than half of its keys |
| Runs.GoodStep | middlebox/src/api.c:101-332 | Every legal event keeps the invariants of the state machine |
| Runs.RunIsGood | middlebox/src/api.c:101-332 | Every run keeps batching, aging, book-keeping and work-conservation invariants, and a run without stray completions keeps chains and packets as well |
| Runs.EveryBatchArrives | middlebox/src/udp.c:64-69 | In every run each batch is accepted whole by the UDP layer, reads back as its id and distinct keys, and has its size in keys_sent until its id comes round again |
| Runs.IdsNeverAlias | middlebox/src/api.c:96 | In every run the table is bounded and no row is older than 1200 batches |
| Runs.HonestRunsAccount | middlebox/src/api.c:91-131 | In every run whose server answers only issued ids the counter of outstanding requests means just that |
| Runs.EachIssueClosesOnce | middlebox/src/api.c:91-131 | In such runs every closing closes a batch sent before under its id, and no batch is closed twice |
| Runs.TidyRunsConserve | middlebox/src/api.c:241-314 | In runs without stray completions chains and packets stay in order throughout |
| Lifetime.CreationEnds | middlebox/src/api.c:297-306 | A new row ends the registrations whose signature its ring slot named, and no others |
| Lifetime.CompletionEnds | middlebox/src/api.c:241-248 | A completed row ends the registrations of its signature, and no others |
| Lifetime.StepLasts | middlebox/src/api.c:101-332 | Every event but a stray completion keeps the account of which registrations have ended |
| Lifetime.WaitsUntilEnded | middlebox/src/api.c:293-314 | In every run without stray completions a registration is in its row if and only if since then no creation reused a ring slot naming its signature and no reply completed the row; otherwise its packet has been freed |
| Copies.CopyOfOwnPacket | middlebox/src/api.c:286-306 | The copy for a key is taken of a packet not given back if and only if no row created by the keys before it reused a ring slot naming the signature of the first key |
| Copies.GivenBackAfter | middlebox/src/api.c:286-306 | Equivalently, at most as many rows were created since the first key as ring slots lay before the next one naming its row |
| Copies.OwnSlotAhead | middlebox/src/api.c:304-305 | There is always such a slot within the next 600 |
| Breakage.StrayIsBroken | middlebox/src/api.c:241-248 | A stray completion leaves a freed packet in a chain |
| Breakage.StepBroken | middlebox/src/api.c:101-332 | No later event puts right a packet freed twice, or freed and left in a chain |
| Breakage.ConservedIffTidy | middlebox/src/api.c:180-248 | After any run packets are conserved if and only if no reply of the run was a stray completion |
| Service.RowOfBatch | middlebox/src/api.c:166-180 | The row a reply to a recent batch looks up holds exactly the registrations of its key made for that batch since the row's creation, none of them left over by an overflow |
| Service.LeftOverIsNotServed | middlebox/src/api.c:284 | In every run without stray completions, a left-over registration is in no chain that a reply to a batch carrying its key looks up |
| Service.ValueIsTidy | middlebox/src/api.c:158-180 | A value of consecutive datagrams adds no stray completion to a run |
| Service.ValueInRunIsServed | middlebox/src/api.c:162-248 | Anywhere in such a run, a value sends each registration waiting in its row every one of its datagrams, under that registration's request id, and the row goes |
| Service.FromRegistrationToDelivery | middlebox/src/api.c:162-317 | In such a run, when the batch of a registration that was not left over is answered for its key, the registration receives every datagram under its own id, unless it has ended, and then its packet is freed and no longer in the row |
| Requests.RequestRegisters | middlebox/src/api.c:278-317 | A request that fits registers each of its keys, in order, for its client and under its id; nothing else registers, and what does not fit changes nothing |
| Requests.TakeKeyCounts | middlebox/src/api.c:316-317 | Registering starts the count of the row afresh, and touches that of no other row |
| Requests.FromRequestToDelivery | middlebox/src/api.c:162-317 | In every run without stray completions, key i of any request stands registered for its client and under its id, and when the batch carrying it is answered first that client receives every datagram, unless the ring slot was reused or the key left over |
| Requests.StepRemembers | middlebox/src/api.c:166-284 | What every event leaves in last_key, last_seq_id and key_hold |
| Requests.ContinuationFollowsHead | middlebox/src/api.c:158-180 | In every run a reply that names no key is looked up in the row named by the newest reply that began a value of several datagrams, whatever came between |
| Requests.UndisturbedIsNotStray | middlebox/src/api.c:241-247 | Unless a request was merged or another key named since then, no continuation is a stray completion |
| Counterexamples.OverflowKeyHasNoRow | middlebox/src/api.c:284 | After an overflow no signature of the new id is in the table, the overflowing key's included |
| Counterexamples.OverflowHappens | middlebox/src/api.c:278-327 | A first request for two keys of 1457 characters together is enough, and the server's answer for the second reaches nobody |
| Counterexamples.InterleavingBreaks | middlebox/src/api.c:246-247 | Two interleaved values leave a packet both freed and in a chain |
| Counterexamples.InterleavingHappens | middlebox/src/api.c:158-161 | One request for two keys and three crossing replies to it leave a packet in two places |
| Counterexamples.UnaskedReplyMiscounts | middlebox/src/api.c:218-229 | One continuation under an id that was never sent leaves the counter at 0 while the only request is still open |
| LongRuns.CounterWraps | middlebox/src/api.c:7 | 65537 requests to a silent server leave 60000 ids open and the counter at 1 |
| LongRuns.AskedMade | middlebox/src/api.c:278-327 | While there is no room at the server, new keys asked for one by one each make a row |
| LongRuns.SlotReused | middlebox/src/api.c:298-306 | The last request makes enough rows to reuse the ring slot of its own first key |
| LongRuns.CopyOfFreedHappens | middlebox/src/api.c:286-302 | A request of 34 keys, after 1570 others, whose last copy is taken of its own freed packet |
| Middleboxes.Serve | middlebox/src/udp.c:35-57 | The code, fed any legal events without a stray completion and without a copy of a freed packet from its initial state on, is in the state of the run, has sent the server and the clients exactly the run's datagrams, and has given back exactly the packets the run frees, none of them twice |
| Middleboxes.BuffersInOnePlace | middlebox/src/api.c:297-314 | Every buffer ever chained has been given back once and is in no chain, or not given back and in exactly one chain |
| Middleboxes.Middlebox.constructor | middlebox/src/api.c:3-21 | The static initialisers give the initial state |
| Middleboxes.Middlebox.AppSend | middlebox/src/api.c:545-565 | The framed message joins what went to the server, or nothing does when it is longer than 1462 bytes |
| Middleboxes.Middlebox.TakeBatch | middlebox/src/api.c:74-89 | The packed payload and the shifted rows of ukey are those of the batch |
| Middleboxes.Middlebox.ConstructPktAndSendToServer | middlebox/src/api.c:62-98 | Does to the state, and sends, what sending a batch means |
| Middleboxes.Middlebox.RefreshBacklog | middlebox/src/api.c:101-134 | Does to the state, and sends, what the timer means (`Sending.TimerSendsIffLate`), and keeps all invariants |
| Middleboxes.Middlebox.InsertUkeyGroup | middlebox/src/api.c:448-459 | A key not yet among the rows joins them, within bounds |
| Middleboxes.Middlebox.FreeChain | middlebox/src/api.c:302 | The walk along next gives back every buffer of a chain, none of them given back before |
| Middleboxes.Middlebox.Evict | middlebox/src/api.c:298-303 | The row of the oldest ring slot goes and its whole chain is given back |
| Middleboxes.Middlebox.Link | middlebox/src/api.c:308-317 | The buffer heads the chain of its row, and every other chain still stands |
| Middleboxes.Middlebox.RegisterKey | middlebox/src/api.c:283-317 | Does to the state what a registration means, on chains and ring, giving back the evicted chain |
| Middleboxes.Middlebox.TakeOneKey | middlebox/src/api.c:278-322 | One round of the request loop |
| Middleboxes.Middlebox.TakeNextKey | middlebox/src/api.c:286-289 | The first key is registered with the packet, every other one with a copy of the packet, which has not been given back |
| Middleboxes.Middlebox.AppClientIn | middlebox/src/api.c:256-332 | Does to the state, sends and gives back what a request means (`Requests.RequestRegisters`, `Sending.RequestSends`) whose copies are taken of a packet not given back, and keeps all invariants |
| Middleboxes.Middlebox.FanToClients | middlebox/src/api.c:191-212 | The walk along buffers not given back sends exactly the fan-out of the chain, and leaves no reference on the reply |
| Middleboxes.Middlebox.AppSendToClient | middlebox/src/api.c:206-208 | One delivery under the client's own id, using up the reference taken for it |
| Middleboxes.Middlebox.HandOut | middlebox/src/api.c:189-213 | The reply goes out to the clients of its row and all its references are given back |
| Middleboxes.Middlebox.CountAnswer | middlebox/src/api.c:218-235 | Does to the state what counting a reply means |
| Middleboxes.Middlebox.TallyRow | middlebox/src/api.c:241-248 | Counts a datagram against its row, or gives back the chain and deletes the row of key_hold |
| Middleboxes.Middlebox.AppServerIn | middlebox/src/api.c:137-253 | Does to the state, sends and gives back what a reply that is no stray completion means, drops the reply's last reference on every path, and keeps all invariants |
| Frames.HeaderVerifies | middlebox/src/ip.c:54-78 | Every header built sums to all ones in either byte order, also in the branch that stores 0xffff |
| Frames.EveryFrameVerifies | middlebox/src/ip.c:54-78 | So does the header inside every frame |
| Frames.HeadersRead | middlebox/src/ip.c:54-65 | What a receiver reads in every frame: both MAC addresses, lengths, flags, lifetime, protocol, source 10.1.0.2, the destination, ports and checksum fields |
| Frames.SwapSum | middlebox/src/ip.c:77 | Swapping the bytes of all words multiplies the sum by 256 modulo 65535 |
| Frames.FoldMeaning | middlebox/src/ip.c:77 | Folding keeps the residue modulo 65535 and turns no positive sum into zero |
| Frames.InitNetSge | middlebox/src/api.c:369-377 | The scratch holds the length and touches only bytes 12 to 35 |
| Frames.InitIpTuple | middlebox/src/udp.c:5-14 | The scratch tuple touches only bytes 0 to 11 |
| Frames.IpOut | middlebox/src/ip.c:45-87 | The 20 header bytes, checksum included, and nothing else |
| Frames.UdpOut | middlebox/src/udp.c:17-33 | All 42 header bytes, from the scratch they cover |
| Frames.UdpSend | middlebox/src/udp.c:60-70 | Sends if and only if the scratch length is at most UDP_MAX_LEN |
| Frames.AppSendToServer | middlebox/src/api.c:488-506 | The frame is the headers, which read as they should, and the framed message, whatever the buffer held |
| Frames.AppSendToClient | middlebox/src/api.c:508-513 | The reply keeps its length and every byte but the id, under fresh headers, and can be sent on |

## Left out

- Start-up, polling, the transmit loop, memory pools and the program timeout: input and output, or switched off in `middlebox/inc/api.h`.
- Internals of `rte_hash`, `rte_jhash` and `rte_pktmbuf_*`: library code; adding to the table is taken to succeed below its capacity, which `Aging.TableBounded` shows is always the case.
- The use of a freed chain after a stray completion: `Serve` and everything about chains stop short of it.
- Middleboxes.Middlebox.AppClientIn: does not cover requests that copy their own packet after it was freed; `Serve` stops short of them.
- `memcached_pkt` with its reference count, the buffer of a request too long to read, which is freed at once, and reuse of pooled buffers: the class gives every registration a buffer of its own and keeps the freed ones apart.
- Packets shorter than a frame header and tail, requests with an empty first word, with NULs or with keys over 1436 bytes, replies whose key is empty or too long, and ids of 60000 or more: there the C code leaves its buffers, so they are not legal events.
- Memory behind a datagram that `strstr` could reach: the search ends with the datagram.
- Runs.HonestRunsAccount: as `Runs.EachIssueClosesOnce`, needs the server to answer only ids that were sent, because `keys_rcvd` starts at 0 for all of them (`Counterexamples.UnaskedReplyMiscounts`).
- Steering.ValueIsSteered: as `Service.ValueInRunIsServed`, takes the datagrams of a value as consecutive, with nothing in between, as the source assumes.
- The ARP table (`middlebox/src/arp.c`) and address formatting (`middlebox/src/utils.c`): the MAC address of the destination is a parameter, and a missing one aborts in the source.
- IP options, multi-segment buffers and the driver reading a buffer that is being rewritten for the next client.
- `hash_data` arithmetic, callbacks that call back into the map, failing `malloc`, capacities beyond `int`, and rounding of the load test above 2^24 entries.
- `hashmap_free`, `deprecated/api.c`, `deprecated/processing.c`, `deprecated/dynamic_array.c`, clients, servers and scripts: easy members or superseded code.

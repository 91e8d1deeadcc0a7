# Verified models of the configuration, replication and secret components

This project models the stateful core of the repository in Dafny and proves what its parts promise. `dafny verify
dfyconfig.toml` checks all of it.

**Configuration delivery.** Writers commit configuration rows with growing sequence numbers (`ConfigTable`). A pump dumps
the table up to a mark and then scans by sequence, page by page, while writers go on (`Pump`). The server keeps a
two-level selector store and long-poll listeners. `ServerModel` is its state as a value and the atomic steps its lock
allows; `ServerInvariant` proves what every step keeps, `ServerDelivery` what waiting requests are promised,
`ServerHistory` that the store refines a flat event history; `ServerCore` holds the objects and loops, proved against
those steps. `Delivery` puts writers, pump and server together in any interleaving. `ClientCore` is the polling client's
object, `Client` one client and a server, `EndToEnd` the way from the table to the client.

**Write-ahead log** (`Wal`). Record framing over `Bytes`, the writer over arrays, the scanner, recovery, and any number
of restarts over one log file. `WalCut` says what recovery makes of a file cut anywhere.

**Key hierarchy** (`KeyMaterial`, `VersionTable`, `KeyStore`, `KeyRotation`, `KeyOverlap`, `KeyStorage`). Root keys wrap
level-1 keys, level-1 keys wrap level-2 keys; each call is several separate statements, so the model interleaves them
and lets the process restart. The envelopes are in `Envelope`, over `Decimal`, `Base64` and the hexadecimal text of
`Bytes`. `Certs` is the certificate table with its two chain walks, `CertWalks` says when the recursive one ends,
`CertSaves` lets saves overlap.

**Canonical selectors** (`Selectors`, over `Text` and `Order`) and the **id generator** (`IdGen`, over `Bits`).

In the state machines a run is a list of steps, each enabled when it is taken; a theorem over runs holds for every
interleaving. Methods of classes that share a database let any steps of others happen between their own statements.
Clocks, nonces, file contents, the results of file writes and the choices of other processes are parameters.

What was found on the way, where the code is not what one may expect (each is a lemma below):

- Without the caller's cancel between two batches the server panics (`UncancelledRequestPanics`); a batch is free of
  channel faults exactly when no closed channel is still registered for a key the batch saves first (`BatchSafeIff`).
- A save over a deleted row leaves it deleted (`DeletedIff`), and a dumped row is cached whatever its status, so the
  cache also holds exactly the rows that were already deleted at the dump and untouched since (`Converged`); every
  configuration can be such a row (`DeletedAtDumpIsCached`).
- A log cut inside a header can open, because the header buffer is reused: exactly when the size field, part new and part
  left from the record before, is zero. The index recovered is then that of the last whole record, except where the low
  bytes of the next index are zero; there it was never handed out, or belongs to the record cut off (`CutLogOpensIff`,
  `OpensPlainly`, with the instance `RecoversUnwrittenPosition`).
- Two groups can share a `group||key` name exactly when one goes on after the other with the separator (`CollideIff`,
  `ClashIff`), and exactly then lookups of one can be answered by the other (`NeverMixedIff`).
- Ids keep their order only within 48 signed bits of time (`OrderIff`, `WindowIsExact`); one millisecond later it is
  reversed (`ReversedPastWindow`).
- A selector map survives print and parse exactly when it is clean, as every map over the documented alphabet is
  (`RoundTripIff`). Clean maps have different strings, but a map shares its string with some other map exactly when it has
  two entries or more, or a `=` in a key or value (`SharesStringIff`): so even a documented map of two entries shares its
  string, with a map that is not clean (`TwoMapsOneKey`).
- Saving a certificate keeps a sound table sound exactly when its parent is stored already or there is none
  (`SaveKeepsIff`). On any table saves can build, the recursive walk from a saved certificate ends exactly when it has no
  parent or the way up from the parent stops, at another name than the new one (`WalkEndsIff`); so every walk in the
  table ends exactly when no save closed a cycle (`EveryWalkEndsIff`). The code does not check for one: a certificate that
  is its own parent (`OwnParentNeverEnds`) or two that name each other (`CycleOfTwo`) keep the walk going for ever.
- A level-2 key survives a change of root keys exactly when the one root key above it is kept (`LoadsIffRootKept`).

Two places where the documentation and the code differ, and the model follows the code: the design document requires a
default configuration for every optional one, while the code falls back to the default store only when the optional
store was never created (configure/ConfigureDesign.md:126-128 against configure/configserver/server.core.go:281-295);
and the comment on merging events in a batch describes a merge, while every event is kept
(configure/configserver/server.core.go:211-223).

## Model

| member | source | states |
|---|---|---|
| ConfigTable.WriteKeepsInv | configure/cfgimpl/datawriter.go:68-213 | under any interleaving of transactions, committed sequences are positive, distinct and grow with commit order; only the lock holder has an uncommitted number, above all committed ones |
| ConfigTable.WritesKeepInv | configure/cfgimpl/datawriter.go:46-213 | the same over whole runs of writers |
| ConfigTable.StepIsOneCommit | configure/cfgimpl/datawriter.go:68-122 | a reader sees of each writer step nothing, or one row whose number is above every committed one |
| ConfigTable.DeletedIff | configure/cfgimpl/datawriter.go:179-213 | after any run a row is deleted exactly when it was before or a delete of the run hit it; no save brings it back |
| ConfigTable.OnlyCommitsChangeRows | configure/cfgimpl/datawriter.go:68-122 | rows change only by a commit of an updated transaction or by a delete that hits |
| ConfigTable.OthersAreStable | configure/cfgimpl/ddl_pg.sql:1-36 | while a transaction holds the advisory lock nobody else commits or deletes |
| ConfigTable.DataWriter.SaveConfiguration | configure/cfgimpl/datawriter.go:46-123 | success means the row holds exactly this configuration with the highest sequence of the table, whatever others did meanwhile, and is still deleted if it was; a failed save commits nothing of its own, and fails only on a bad signature, because another transaction inserted the row first, or because all ten attempts met a held lock or a used up sequence |
| ConfigTable.UndisturbedSaves | configure/cfgimpl/datawriter.go:91-121 | when nobody else takes a step, the lock is free, no other transaction has inserted the row and a sequence number is left, neither reason applies: a signed save succeeds |
| ConfigTable.TryFailsIff | configure/cfgimpl/datawriter.go:179-192 | one update attempt leaves the row as it was exactly when another transaction holds the advisory lock or the sequence is used up |
| ConfigTable.DataWriter.DeleteConfiguration | configure/cfgimpl/datawriter.go:194-213 | deletes exactly when the row exists, the lock is free and a sequence number is left; keeps the content, marks the row, gives it the highest sequence, leaves every other row alone |
| Pump.PageIsComplete | configure/cfgimpl/datapump.go:218-247 | a page holds current rows in sequence order inside its bounds and skips nothing up to its last row |
| Pump.PageIsFull | configure/cfgimpl/datapump.go:218-247 | a page has as many rows as the limit and the rows between its bounds allow |
| Pump.StepIsLater | configure/cfgimpl/datapump.go:95-127 | seen from the pump, a writer step leaves each row alone or moves it above everything committed |
| Pump.WindowShrinks | configure/cfgimpl/datapump.go:95-127 | the number of rows between cursor and mark never grows while writers commit: the measure of the dump |
| Pump.DataPump.QueryMaxSequence | configure/cfgimpl/datapump.go:198-216 | the greatest sequence, zero on an empty table |
| Pump.DataPump.TriggerDump | configure/cfgimpl/datapump.go:75-138 | the mark is the highest sequence at the start, zero on an empty table; the dump ends although writers keep committing, and delivers in order rows of the table as it was at the start, each configuration at most once, among them every row that still stands |
| Pump.DataPump.ScanRound | configure/cfgimpl/datapump.go:140-196 | the next page after the cursor becomes events in order, and the cursor moves to its last row |
| Order.LessIff | configure/configserver/version.go:8-10 | a string comes before another exactly when it is a proper prefix of it or has the smaller character at the first place where they differ |
| ServerDelivery.CheckMeans | configure/configserver/server.core.go:51-68 | what the check answers: unknown exactly when no store resolves or an entry is missing; otherwise, in request order, the stored configurations of exactly the entries whose stored version comes after the client's at the first difference or goes on after it; up to date when there are none |
| ServerDelivery.FirstCheckIff | configure/configserver/server.core.go:51-82 | a request goes on to the second check exactly when every entry is stored and none is newer; it is answered at once, on a closed channel with those configurations, exactly when one is |
| ServerDelivery.SecondCheckIff | configure/configserver/server.core.go:95-147 | the same for the locked check: it is left waiting, on an open empty channel with room for every entry, or answered at once, exactly then |
| ServerInvariant.StepKeepsInv | configure/configserver/server.core.go:42-245 | every step keeps: buffered plus registered never exceeds a channel's capacity, a registered request waits and its key is stored, request ids are unique, exactly the channels that carried something are closed |
| ServerInvariant.Reachable | configure/configserver/server.core.go:42-245 | the same in every reachable state |
| ServerInvariant.DistinctKeys | configure/configserver/server.core.go:117-121 | a request registers at most as many listeners as its channel has room for, with duplicate keys as well |
| ServerInvariant.SaveSpendsOne | configure/configserver/server.core.go:369-381 | each send uses up one registration of its request |
| ServerDelivery.PumpNeverBlocks | configure/configserver/server.core.go:369-381 | in every reachable state, at every event of every batch, each channel about to be sent to has room even if nobody reads |
| ServerDelivery.BatchSafeIff | configure/configserver/server.core.go:206-240 | a batch runs without a send on a closed channel if and only if no key whose first change is a save has a closed channel registered |
| ServerDelivery.SafeBatchClosesOnce | configure/configserver/server.core.go:235-240 | what a fault-free batch closes was open |
| ServerDelivery.CancelledInTimeIsFaultFree | configure/configserver/server.core.go:172-245 | when every notified request is cancelled before the next batch, no run sends on or closes a closed channel |
| ServerDelivery.UncancelledRequestPanics | configure/configserver/server.core.go:369-381 | without that cancel a concrete run of two batches sends on a closed channel |
| ServerDelivery.WaitingIsUpToDate | configure/configserver/server.core.go:95-130 | whatever happened in the unlocked gap, a request left waiting is registered for each key against a stored configuration it does not lag behind |
| ServerDelivery.NoLostUpdate | configure/configserver/server.core.go:51-130 | for any run before and after the second check: each key is still registered and unchanged, or its closed channel carries a configuration for it, or the key was deleted |
| ServerDelivery.ClosedChannelCarried | configure/configserver/server.core.go:206-240 | a closed channel of a waiting request carried at least one event, at most one per requested entry, each for another requested key |
| ServerHistory.CollideIff | configure/configserver/server.core.go:339-341 | two groups can share a `group\|\|key` name if and only if one with its separator is a prefix of the other with its own |
| ServerHistory.ClashIff | configure/configserver/server.core.go:339-341 | for different groups that is: one is a proper prefix of the other, and the rest is one separator character or starts with two |
| ServerHistory.ApartInjective | configure/configserver/server.core.go:339-341 | groups that are apart in this sense give every pair its own name, whatever the keys hold |
| ServerHistory.NeverMixedIff | configure/configserver/server.core.go:149-161 | lookups of one group are never answered by another group's configurations, over all runs, if and only if the groups are apart |
| ServerHistory.ForeignAnswer | configure/configserver/server.core.go:339-345 | where two groups share a name, one saved configuration answers the lookup of the other group |
| ServerHistory.LookupIsFlat | configure/configserver/server.core.go:149-161 | after any run, cut into batches in any way, a lookup of a group that is apart from the events' groups returns the last surviving event for the resolved selectors, the default store's exactly when no event was ever seen for the optional one |
| ServerCore.SelectorsStore.RegisterListener | configure/configserver/server.core.go:347-358 | adds exactly this listener |
| ServerCore.SelectorsStore.CancelWait | configure/configserver/server.core.go:360-367 | removes exactly this request's listeners for the listed keys |
| ServerCore.SelectorsStore.SaveConfigurationWithNotification | configure/configserver/server.core.go:369-381 | stores, sends to exactly the listeners of the key, collects them, drops the key's listeners; succeeds exactly when no send would panic or block |
| ServerCore.SelectorsStore.DeleteConfiguration | configure/configserver/server.core.go:383-387 | removes the configuration and the key's listeners and nothing else |
| ServerCore.Server.GetSelectorsGeneral | configure/configserver/server.core.go:281-295 | the object found in the two-level map is the one of the resolved flat store |
| ServerCore.Server.GetOrCreateSelectorsGeneral | configure/configserver/server.core.go:297-323 | creates at most the default and the optional store, and leaves every other one in place |
| ServerCore.Server.ApplyBatch | configure/configserver/server.core.go:206-240 | the loop over the events and the closing loop refine the batch step; it fails exactly where a channel fault would occur |
| ServerCore.Server.DumpFromPump | configure/configserver/server.core.go:163-170 | every dumped row is saved whatever its status |
| ServerCore.Server.RetrieveFirst | configure/configserver/server.core.go:42-93 | the first check refines the arrival step: fresh id, direct answer on a closed channel, or on to the second check |
| ServerCore.Server.RetrieveSecond | configure/configserver/server.core.go:95-147 | the locked check refines the waiting step: direct answer, error, or registration of every key |
| ServerCore.Server.CancelWaiter | configure/configserver/server.core.go:121-129 | the cancel function removes the request's registrations and nothing else |
| ServerCore.Server.GetConfigurationViaPlainRequest | configure/configserver/server.core.go:149-161 | the plain lookup is the lookup the history theorem is about |
| ServerCore.AwaitAnswer | configure/configserver/server.go:113-147 | the handler answers with everything its channel carried, in order; not-modified only when the timer fired |
| ServerCore.DrainNeverEmpty | configure/configserver/server.go:113-147 | in every reachable state the drain loop of an unread closed channel finds at least one configuration, so the empty-result branch is not reached |
| Delivery.StepKeepsInv | configure/cfgimpl/datapump.go:75-196 | every step of writers, pump and server keeps queue, cursor, table and cache in agreement |
| Delivery.CacheAgreesWithTable | configure/cfgimpl/datapump.go:75-196 | for every interleaving, each row at or below the last applied sequence has an agreeing cache entry |
| Delivery.Converged | configure/configserver/server.core.go:163-245 | with nothing newer and nothing in flight the cache is exactly the live rows plus those already deleted at the dump and untouched since |
| Delivery.DeletedAtDumpIsCached | configure/configserver/server.core.go:163-170 | any configuration, saved and deleted before the dump, is in the cache once the server has taken the dump, although its row is deleted |
| Delivery.EveryScheduleCatchesUp | configure/cfgimpl/datapump.go:75-196 | left alone by writers, no schedule of pump, server and requests has more productive steps than there is work, and once one had that many, cache and table agree |
| Delivery.ProductiveUntilCaughtUp | configure/cfgimpl/datapump.go:140-196 | until then some productive step can be taken |
| Delivery.BatchPutsAll | configure/configserver/server.core.go:224-234 | a batch of scanned rows changes the cache row by row as save or delete |
| ClientCore.ConfigClient.AddConfigurationRequirement | configure/configclient/client.go:124-144 | appends with its callback exactly when the list is not locked and the key was not required before (the code panics otherwise), so requested keys stay distinct and are exactly those with an entry for a callback |
| ClientCore.ConfigClient.AbsorbResponse | configure/configclient/client.go:187-206 | runs the callbacks of the delivered configurations in order and gives each entry the version of the last configuration matching it; nothing else changes |
| ClientCore.ConfigClient.ProcessRound | configure/configclient/client.go:152-218 | a round goes on at once exactly when the list is locked, not empty and the request did not fail; only an answer with configurations changes versions and runs callbacks |
| ClientCore.EachItsOwnIff | configure/configclient/client.go:187-196 | every delivered configuration triggers its own callback, once and in order, if and only if each has one |
| ClientCore.CalledIff | configure/configclient/client.go:187-196 | a callback is run with a configuration exactly when that was delivered and the callback is the one given for its group and key |
| ClientCore.DirectAnswerCallsBack | configure/configserver/server.core.go:51-93 | every configuration of a direct answer is of a required key, so it triggers its own callback |
| ClientCore.WaitingAnswerCallsBack | configure/configserver/server.core.go:206-240 | so does everything a closed channel brings a client that waited, whatever the server did |
| Client.MoveKeepsInv | configure/configclient/client.go:152-218 | every move of client, server, pushes and other requests keeps the client at or below the server, per key |
| Client.VersionsMoveForward | configure/configclient/client.go:152-218 | over any run a recorded version never goes back and never exceeds the server's |
| Client.FreshWorldInv | configure/configclient/client.go:107-144 | whatever the server did before, a fresh client that is not ahead of it starts in the invariant |
| Client.FreshClientMovesForward | configure/configclient/client.go:152-218 | so from any server run and any such client no recorded version goes back or passes the server's |
| Client.WaitingMeansEqual | configure/configserver/server.core.go:95-130 | a request left waiting holds the server's version of every key |
| Client.FreshRoundEqualizes | configure/configserver/version.go:8-10 | when updates have stopped one fresh poll makes all versions equal |
| EndToEnd.PollGivesTable | configure/configserver/server.core.go:42-93 | next to a server that has caught up with the table, one poll round gives any client in the invariant the table's version of every key |
| EndToEnd.ClientGetsTable | configure/configserver/server.core.go:247-254 | after any run of writers, pump, server and requests, served once the dump is taken: when writers stop and a schedule has done all the work, one poll round gives a client exactly the table's version of each required key |
| Wal.PositionRoundTrip | db/alpha/replication/model.go:10-27 | every position the log can reach survives its 16 bytes |
| Wal.PrepareWriteEntry | db/alpha/replication/wal.go:179-189 | builds in the buffer the whole record with a zero position |
| Wal.ReadLastPos | db/alpha/replication/wal.go:297-316 | the loop computes the last index of the frames the scan visits, or the error of a cut payload |
| Wal.ScanPrefix | db/alpha/replication/wal.go:297-316 | whole records in front of anything are visited one by one, whatever the payload bytes |
| Wal.ScanUndoesLog | db/alpha/replication/wal.go:179-189 | scanning what was written visits exactly the written records |
| Wal.RecoverLast | db/alpha/replication/wal.go:217-316 | recovery gives the index of the last record, zero on an empty log |
| WalCut.CutLogOpensIff | db/alpha/replication/wal.go:297-316 | what recovery makes of a log cut after any byte: the number of whole records at a boundary, an error inside a payload, and inside a header an error unless the record's size fits the bytes not yet overwritten and the size before is zero in them; then index k, or a whole step more where the bytes of the index k + 1 not yet written are zero |
| WalCut.OpensPlainly | db/alpha/replication/wal.go:297-316 | cut within the position it opens exactly behind a record without payload or none, cut after the size exactly for a record without payload; the index is right up to the middle of the position, and that of the record cut off after it |
| WalCut.CutAfterPositionOpens | db/alpha/replication/wal.go:297-316 | cut right after a position, behind a record without payload or none, the log opens and recovery reports an index whose size and payload were never written |
| WalCut.CutInsidePositionMixes | db/alpha/replication/wal.go:297-316 | cut one byte earlier it opens with a position mixed from two records |
| WalCut.RecoversUnwrittenPosition | db/alpha/replication/wal.go:297-316 | a log of 255 records, cut inside the next header, recovers position 511, which was never handed out |
| Wal.WriteAheadLog.Startup | db/alpha/replication/wal.go:70-83 | recovers exactly the number of records on disk |
| Wal.WriteAheadLog.DoWrite | db/alpha/replication/wal.go:165-177 | numbers the record in place, appends it, moves the position; a failed write changes nothing on disk and no position |
| Wal.WriteAheadLog.WriteLoop | db/alpha/replication/wal.go:135-163 | every caller gets the index of its own record, failed ones an error, indices without a gap |
| Wal.RunSession | db/alpha/replication/wal.go:106-163 | one process lifetime: start, concurrent writes in queue order, their answers |
| Wal.Lifetimes | db/alpha/replication/wal.go:70-201 | across any number of restarts every write holds the index of its own record in the final log, the positions handed out are 1, 2, 3, ..., and startup recovers exactly the last one |
| IdGen.Generator.Next | utility/idgen/id.go:138-174 | fails exactly when the clock stands behind the last id; otherwise the id holds the time read and the next counter within the same millisecond, the time read and counter 0 in a new one, and the first later reading and counter 0 when the counter is used up |
| IdGen.Generator.TillNextMillisecond | utility/idgen/id.go:189-197 | returns the first reading above the given time |
| IdGen.AnswersOnce | utility/idgen/id.go:138-174 | the step that the theorems over runs use is the only state and outcome such a call can have |
| IdGen.EveryCallIssues | utility/idgen/id.go:138-174 | while the clock does not go back every call of a run issues an id |
| IdGen.RunIncreases | utility/idgen/id.go:138-174 | time and counter of everything issued strictly increase for any clock readings and rewind option |
| IdGen.IdsIncrease | utility/idgen/id.go:26-38 | all ids of any run strictly increase under CompareTo within the 48-bit time domain |
| IdGen.OrderIff | utility/idgen/id.go:26-38 | exactly how CompareTo orders any two ids of one generator, at any times: by the times as 48 bits hold them, then by the counters |
| IdGen.ReversedPastWindow | utility/idgen/id.go:184-187 | one millisecond past the domain the later id compares as the smaller one |
| IdGen.WindowIsExact | utility/idgen/id.go:184-187 | inside one 48-bit turn the order of times is kept if and only if the later time is still in the domain |
| IdGen.Packed | utility/idgen/id.go:84-95 | shifts, masks and ors put time, node, element and counter where they belong, negative times included |
| IdGen.Recovered | utility/idgen/id.go:184-187 | node, element and counter are read back from every id, the time exactly inside the domain |
| IdGen.NeverCollide | utility/idgen/id.go:84-95 | generators that differ in node or element never issue the same id |
| IdGen.HexRoundTrip | utility/idgen/id.go:40-63 | hex decode undoes hex encode for every id |
| IdGen.HexSortsLikeIds | utility/idgen/id.go:26-63 | for ids with non-negative words hex strings sort as CompareTo orders |
| Bits.HighWord | utility/idgen/id.go:184-187 | the shifted time or-ed with the node mask is the wrapped 48-bit time beside the node |
| Bits.LowWord | utility/idgen/id.go:184-187 | the shifted element or-ed with the counter is element beside counter, as a signed word |
| Selectors.SelectorSet.Cache | configure/configapi/protocol.go:16-40 | from whatever order the map is iterated in, the cache becomes the one canonical string: the entries in the order of their keys' first differing characters, a prefix first |
| Selectors.SelectorSet.Fill | configure/configapi/protocol.go:42-58 | fills exactly when the text parses, and then with what it parses to; an error changes nothing |
| Selectors.ParsesIff | configure/configapi/protocol.go:42-58 | a text parses exactly when it is blank or each of its parts has a separator in it |
| Selectors.SortForgetsOrder | configure/configapi/protocol.go:24-28 | any two orders of the same keys sort to the same list |
| Selectors.RoundTripIff | configure/configapi/protocol.go:16-58 | parsing the canonical string gives the map back if and only if the map is clean |
| Selectors.DocumentedMapsMatchExactly | configure/ConfigureDesign.md:104-113 | for all maps over the documented alphabet the string gives the map back, and two maps share a string exactly when they are equal |
| Selectors.SharesStringIff | configure/configapi/protocol.go:16-40 | a map shares its canonical string with some other map if and only if it has two entries or more, or a separator in a key or value |
| Selectors.TwoMapsOneKey | configure/configapi/protocol.go:16-58 | an instance: a documented map of two entries and a map with a separator in a value share one key, which parses to the documented one |
| Selectors.CanonicalInjective | configure/configapi/protocol.go:16-58 | two clean maps share a key exactly when they are equal |
| Envelope.EnvelopeRoundTrip | configure/secretimpl/secret.pg.utils.go:95-127 | parsing undoes formatting for any byte strings, empty ones included, and exactly the 64-bit ids |
| Envelope.EnvelopeInjective | configure/secret/unseal.local.go:113-136 | no two envelopes share a text |
| Base64.DecodeOfEncode | configure/secretimpl/secret.pg.utils.go:52-93 | base64 decode undoes encode, padding included |
| Decimal.ScanOfPrint | configure/secret/unseal.local.go:113-122 | the `%d` scan undoes the `%d` print exactly for 64-bit numbers and stops where the digits stop |
| Bytes.UnHexOfHex | configure/secret/unseal.local.go:113-136 | hex decode undoes hex encode |
| KeyMaterial.NewProvider | configure/secret/unseal.local.go:23-65 | all files become key sets and the greatest id the latest key; refused exactly when a file is unreadable or fails its checksum; no files is the panic case |
| KeyMaterial.RootSealOpens | configure/secret/unseal.local.go:86-111 | what the latest root key seals opens to the same bytes and names that key |
| VersionTable.RotateKeepsOk | configure/secretimpl/secret.pg.go:168-211 | insert and retire keep the table sound |
| VersionTable.NextIsLetInIff | configure/secretimpl/ddl_pg.sql:1-40 | the next version after the highest that was read is let in if and only if a serial id is left and no row of the name was added since |
| KeyStore.L2Loads | configure/secretimpl/secret.pg.go:547-577 | an unsealed store loads a level-2 row as the type and bytes stored under it |
| KeyRotation.StepKeepsInv | configure/secretimpl/secret.pg.go:80-577 | every step of every call, restart and root change keeps rows openable, versions dense, types uniform and plans sound |
| KeyRotation.Finish1KeepsInv | configure/secretimpl/secret.pg.go:168-211 | the level-1 commit, refused or not |
| KeyRotation.Finish2KeepsInv | configure/secretimpl/secret.pg.go:319-362 | the level-2 commit, refused, panicking on an unnamed type, or not |
| KeyRotation.NeverStranded | configure/secretimpl/secret.pg.go:275-577 | whatever runs before and after, an unsealed store loads every level-2 key by id with exactly the type and bytes stored, key sets as key sets |
| KeyRotation.RunKeepsSecrets | configure/secretimpl/secret.pg.go:275-481 | nothing stored is ever changed or removed |
| KeyRotation.FetchFindsNewest | configure/secretimpl/secret.pg.go:371-404 | the fetch query finds the last key stored under a name, if there is one |
| KeyRotation.VersionsAndLinks | configure/secretimpl/secret.pg.go:283-362 | dense versions, one active row, one type per name, and each level-2 row names a present level-1 row, the one in its envelope |
| KeyRotation.LoadsIffRootKept | configure/secret/unseal.local.go:94-106 | when root keys are dropped, a level-2 key loads if and only if the root key above it was kept |
| KeyRotation.RestartCanUnseal | configure/secretimpl/secret.pg.go:80-136 | a restarted store with a token is unsealed by every provider that keeps the root keys used before |
| KeyRotation.UnsealsIffTokenKeyKept | configure/secretimpl/secret.pg.go:80-136 | of the providers that do not replace a key under its id, exactly those that keep the root key of the token unseal a sealed store |
| KeyOverlap.Rotation1LetInIff | configure/secretimpl/secret.pg.go:146-216 | with any steps of others between the statements of a level-1 rotation, its insert is let in if and only if a serial id is left and no row of the name was added since the version was read |
| KeyOverlap.Rotation2LetInIff | configure/secretimpl/secret.pg.go:294-362 | the same for level-2 key sets and data keys, whose type must have a name |
| KeyStorage.PostgresKeyStorage.SetupUnsealProviderAndWait | configure/secretimpl/secret.pg.go:80-136 | installs the provider; with a stored token it always succeeds for a provider that keeps the old keys, and without one it fails only when its root key does not seal the token, another call stored the token first, no serial id is left, or a provider with yet other keys came in between |
| KeyStorage.PostgresKeyStorage.StoreLevel1KeySet | configure/secretimpl/secret.pg.go:138-216 | success means a new row that is the only active one of its name and loads as the key; a failed call had a reserved name or a bad checksum, no root key that seals it, no serial id left, or saw another row of the name added during the call |
| KeyStorage.PostgresKeyStorage.StoreLevel2KeySet | configure/secretimpl/secret.pg.go:275-369 | success means a new id that holds the key set and is the newest of its name, and earlier keys stay; a failed call had a reserved name or a bad checksum, no level-1 key that seals it, a name of another type, no serial id left, or another row of the name added since it read the version |
| KeyStorage.PostgresKeyStorage.StoreL2DataKey | configure/secretimpl/secret.pg.go:406-481 | the same for a typed data key; only named types succeed, and a failed call had one of the same causes |
| KeyStorage.PostgresKeyStorage.LoadL2DataKeyById | configure/secretimpl/secret.pg.go:547-577 | the stored type and bytes for every id ever stored, nothing for any other |
| KeyStorage.PostgresKeyStorage.LoadLevel2KeySetById | configure/secretimpl/secret.pg.go:515-545 | the stored key set; for a data key whatever its bytes decode to |
| KeyStorage.PostgresKeyStorage.FetchL2DataKey | configure/secretimpl/secret.pg.go:483-513 | id, type and bytes of the last key stored under the name |
| KeyStorage.PostgresKeyStorage.FetchLevel2KeySet | configure/secretimpl/secret.pg.go:371-404 | the last key set stored under the name, or what a data key stored under the key-set type decodes to; an error for any other type |
| Certs.SerialRoundTrip | configure/secretapi/cert.go:40-59 | a serial number text gives its number back up to the sign, and numbers do not share one |
| Certs.CanonicalSerial | configure/secretapi/cert.go:40-59 | bytes print as their number's text exactly when no zero byte leads |
| Certs.SaveKeepsIff | configure/secretimpl/secret.pg.cert.go:15-95 | a save keeps the table well formed if and only if the parent it records is stored already, or none |
| CertSaves.CertStorage.SaveInternal | configure/secretimpl/secret.pg.cert.go:15-95 | while other saves run between its statements: a success is the last save committed, made undivided into the table as the others left it, none of them of its type and name; a failure commits nothing, and the serial number is taken or a save of the same type and name came first |
| CertSaves.OverlapIff | configure/secretimpl/secret.pg.cert.go:43-88 | the primary key and the unique index let an insert in if and only if the serial number is free and no save of the same type and name was committed since the version was read; it then equals one undivided save |
| CertSaves.StepKeepsInv | configure/secretimpl/secret.pg.cert.go:43-95 | every statement of every save keeps the versions of a type and name 1..n, the newest the active one, and the table the result of the committed saves in order |
| CertSaves.Serializable | configure/secretimpl/secret.pg.cert.go:15-95 | however saves overlap, the table is what the committed ones make of the empty one in turn, and every walk in it ends if and only if none of them closed a cycle |
| Certs.RecursiveIsChain | configure/secretserver/controller.cert.manage.go:217-233 | on a well-formed table the recursive walk succeeds and, reversed, is the chain to the root |
| Certs.ChainUnique | configure/secretimpl/secret.pg.cert.go:154-172 | a certificate has only one chain |
| CertSaves.CertStorage.WalkUp | configure/secretimpl/secret.pg.cert.go:174-198 | the bounded loop computes the climb with at most so many parent loads, on any table |
| CertSaves.CertStorage.LoadCertChainByName | configure/secretimpl/secret.pg.cert.go:174-198 | climbs at most ten levels from the newest certificate of the type and name, an error when there is none |
| Certs.ClimbFindsChain | configure/secretimpl/secret.pg.cert.go:180-197 | the climb finds exactly the chain when it is no longer than the levels allowed |
| Certs.WalksAgree | configure/secretimpl/secret.pg.cert.go:174-198 | the loop succeeds exactly for at most 9 ancestors and returns the reverse of the recursive result |
| CertWalks.WalkFollowsTop | configure/secretserver/controller.cert.manage.go:217-233 | where going up by names leads within as many loads as rows decides whether the recursive walk ends, and whether with a chain |
| CertWalks.WalkEndsIff | configure/secretserver/controller.cert.manage.go:217-233 | on any table of saved rows, the walk from a newly saved certificate ends if and only if it has no parent or the way up from the parent stops, and not at the new name; it succeeds if and only if that stops at a stored row |
| CertWalks.SaveKeepsWalksIff | configure/secretimpl/secret.pg.cert.go:15-95 | a save leaves a table in which every walk ends if and only if every walk ended before and the way up from the parent does not lead to the new name |
| CertWalks.EveryWalkEndsIff | configure/secretimpl/secret.pg.cert.go:15-95 | after any saves into an empty table every walk ends if and only if none of them closed a cycle |
| CertWalks.WalkEndsOnWellFormed | configure/secretserver/controller.cert.manage.go:217-233 | saved into a well-formed table, the walk ends unless the certificate was saved as its own parent, and succeeds exactly when it names no parent or a stored one |
| CertWalks.EnoughCalls | configure/secretserver/controller.cert.manage.go:217-233 | on a well-formed table the walk cut off after more calls than there are older rows is the walk |
| CertWalks.CycleOfTwo | configure/secretserver/controller.cert.manage.go:217-233 | an instance: two saves into an empty table, the second under a parent that is stored and another certificate, and the walk never ends |
| CertWalks.OwnParentNeverEnds | configure/secretserver/controller.cert.manage.go:217-233 | from a stored certificate that is its own parent, of any type and in any table, the recursive walk never ends |

## Left out

- Configurations are compared by group, key, version, value, signature and canonical selector strings; the timestamp is not modelled, and events without a configuration (a panic in the code) do not occur.
- Channels are values in a map: a receive and a close are steps, goroutine scheduling and the sleeps between batches are not modelled.
- Shutdown of server, pump, client and log.
- Several servers behind one client: with servers that lag behind each other a waiting client may be given an older version.
- HTTP, routing, CBOR, JSON, PEM and X.509 encoding, and the arguments read from them; stored certificates are read back as they were.
- AES-GCM, JSON of key sets and CRC32 are parameters with decrypt-of-encrypt and decode-of-encode laws; the Adler-32 sum is written into log records but, as in the code, never checked.
- Configurations are delivered and polled for groups without the separator character, as the documented alphabet has it; the lookup of the server itself is described for all groups (ServerHistory.NeverMixedIff).
- All calls of the key storage share one root provider, and the process restarts only between calls of the storage object; the state machine behind it has a restart at any point.
- The caches of the key storage are empty stubs in the code and do nothing here.
- Transactions commit or roll back as a whole; a lost connection is the Abandon step of the key store and a rollback of the writers and of certificate saves. Running out of sequence numbers is a failed attempt.
- Wal.Lifetimes: one log file; directories with several files, rotation and the rough reader are unfinished in the code.
- Wal.WriteAheadLog.DoWrite: a failed file write leaves no bytes behind, so records torn by the file system inside a write are only covered by WalCut.CutLogOpensIff.
- What a client's callback does itself, the pause after a round that failed, and the signal that the first response has arrived.
- CertSaves.CertStorage.SaveInternal: the connection is not lost in the middle of the call; the state machine behind it can roll a save back at any point.
- CertSaves.CertStorage.LoadCertChainByName: its queries see one state of the table, as if no save were committed between them.
- IdGen.Generator.Next: the reading of the clock before the lock and the readings of the spin loop are inputs; the spin loop ends because one of them is later.
- NextN of the id generator: its same-millisecond branch starts at a counter that may already be issued, so it does not keep the ids distinct.
- The failures of the storage calls are described, but which of them a caller is told is not.
- KeyStorage.PostgresKeyStorage.LoadL2DataKeyById: asked of an unsealed store; before the unseal the code fails on a missing provider, and the loads give nothing.
- Key type names, JWT and permission checks, certificate creation, the other certificate columns, bbolt and etcd adapters, data generators and command-line programs.

# LedgerLine in Dafny

LedgerLine is an append-only log that feeds an idempotent consumer, tiered
pricing, a double-entry ledger and invoices. This project models that pipeline
and proves what it is for: an acknowledged event survives, no event is billed
twice, money is conserved, replay is deterministic, and the invoice is right to
the cent.

`dafny verify dfyconfig.toml` checks everything.

## How it is put together

**The log.** `Bytes`, `Crc` (CRC-32C), `Record` and `RecordRun` are the bytes on
disk; `Castagnoli` proves the checksum to be the remainder that section 12.1 of
RFC 3720 defines. `Index` and `Segment` are classes with the
source's loops; `Scan` holds the functions on values they are proved against.
`Log` rolls segments and is proved against a plain sequence of payloads.
`Recovery` says what recovering twice does, `ReadBound` how far a read skips.

**Group commit.** `GroupCommit` is a step system over any number of writers:
taking the log lock, deciding to roll, syncing the outgoing segment, marking it
synced, creating the next one, writing, arriving at the coordinator, becoming
the syncer with a captured target, looking up the active segment, starting and
ending its fsync, settling. A write that fails partway, power loss and reopening
are steps as well. An fsync that succeeds makes durable what the segment claimed
when it started. Power loss keeps of each file a prefix no shorter than its
durable part, and of each index any prefix. `GroupCommitSafety`,
`GroupCommitProgress`, `GroupCommitOutcome`, `GroupCommitLiveness`,
`GroupCommitSizes`, `GroupCommitTidy` and `GroupCommitGrowth` are about every step
and every run. `LoneWriter` is one append with nobody else about, `SharedSync` two
with one fsync; `Leftovers` has runs built from them.

**Arithmetic.** `Int64` is Go's wrapping int64. `Decimal`, `FixedPoint`,
`Amount`, `Quantity` and `Fingerprint` are parsing, printing, canonical
quantities and the hashed preimage. `Pricing`, `Meters` and `Rating` are tiers,
rounding and `Rate`.

**Consumer.** `Consumer` gives the tables as a fold over the log and the runs in
which batches commit, roll back, rewind and start from stale offsets. `Drain`
is the draining object with its counts. `LiveConsumer` is the log's step system
and the consumer together: batches read whatever the running log holds, and the
tables outlive a power loss.

**Ledger and invoices.** `Ledger` and `LedgerStore` build and post transactions.
`EventTable`, `Invoicing` and `InvoicingEntry` are one close. `InvoicingRuns`,
`InvoicingMoney` and `CloseOutcome` are about runs in which a close gathers at
one step and marks at a later one, and `InvoiceLines` about what each invoice
carries. `Anomalies` holds reachable runs where a promise fails. `FlatPlan`,
`EndToEnd` and `Pipeline` put the whole pipeline together.

Tables are values. A database transaction works on its own copy, and committing
assigns it; rolling back is keeping the old one.

## Where the code and its promises part

- Recovering a recovered segment may add index entries. Records, file and size
  never change. `SecondRecovery` has the exact condition,
  `SecondRecoveryCanIndexMore` a reachable case.
- The comment on `err` in broker/log/sync.go:40-42 says it is cleared when the
  next sync begins. The code never gets there with an error set, so a failed
  group sync is final. The model follows the code.
- The consumer drains the live log (cmd/ingest/main.go:84-87, 136-156), flushed
  or not, and docs/adr/0018-durable-log-type.md:66-67 calls durability irrelevant
  to it. It is not. The tables follow the log exactly when no reopening finds the
  log shorter than the highest offset committed (`TablesFollowLogIff`), which
  reading only durable records ensures (`DurableReadsNeverBehind`). In
  `ConsumerAheadLosesUsage` a record is drained, then lost; another takes its
  offset and is never read. Two keys are acknowledged and one event is billed.
- A recovered log is promised to be a prefix of what was written. It is one
  exactly unless the power loss kept a whole record that a failed write had left
  past the last segment's size (`PowerLossKeepsDurablePrefix`); it always is when
  no failed write leaves a byte and segments stay within 2^32 bytes
  (`CleanRunsKeepPrefix`). In `FailedAppendComesBack` an append that returned an
  error is in the log after the next open.
- What a failed write left past a shorter record is read as records too, so
  MaxSegmentBytes can be exceeded by a segment of two records. `HarmlessIff` says
  for exactly which numbers of bytes left, `OversizedRun` is the run.
- broker/log/segment.go:296-299 bounds a read's scan by the index interval. A
  recovery that drops an index entry breaks that (`ReadsCanBeLong`).
  `ReadsStayShortIff` says exactly when it holds, `ReadsAreBounded` what holds
  always.
- The overflow guard in `parseDigits` lets some overflows through:
  `GuardPassesIff` says exactly which, `FirstOverflow` what then becomes of the
  string. `ParseAmount` and `ParseQuantity` are exact all the same.
- The comment at billing/invoicing/invoicing.go:251-257 relies on gathering and
  marking seeing the same rows. No isolation level is asked for, so each statement
  sees what has been committed by then. Usage is conserved exactly when the two
  do agree (`UsageConservedIff`). `UsageCanBeLost` and `UsageCanBeBilledTwice`
  are runs where they do not. `ArrivalIsLost` and `OverlappingClosesBillTwice`
  say by how much.
- `TransactionKey` is not injective when a tenant id holds a colon, and `Close`
  does not look at whether its transaction was already posted. Ledger and
  invoices agree exactly while no close reuses a key (`LedgerAgreesIff`). With
  colon-free tenants none does (`LedgerAgrees`). `LedgerCanDisagree` is a run in
  which one does.

## Model

| member | source | states |
|---|---|---|
| Crc.ChecksumDetectsBursts | broker/log/record.go:43-46 | two messages whose differing bits lie within 32 consecutive ones have different checksums |
| Castagnoli.ChecksumIsRemainder | broker/log/record.go:43-46 | the checksum is the complemented remainder of the message, its first 32 bits complemented and 32 zeros appended, on division by the Castagnoli generator given as its exponents, whatever the quotient |
| Castagnoli.DivisionExists | broker/log/record.go:43-46 | every message has such a quotient and remainder |
| Castagnoli.RemainderUnique | broker/log/record.go:43-46 | two divisions of one dividend leave the same remainder |
| Record.FrameLayout | broker/log/record.go:64-87 | byte by byte: length and checksum most significant byte first, then the payload |
| Record.EncodeRecord | broker/log/record.go:64-87 | the buffer filled in place is the frame of the payload, refused just when it is over the maximum |
| Record.ReadFrame | broker/log/record.go:94-129 | a frame followed by any bytes reads as its payload and consumes exactly the frame |
| Record.WholeIsFrame | broker/log/record.go:94-129 | whatever reads as a whole record is the frame of that payload |
| Record.ReadingKinds | broker/log/record.go:94-129 | nothing left is the end; torn exactly when the header or the length it declares is cut short; a declared length above the maximum is corrupt |
| Record.StrictPrefixIsTorn | broker/log/record.go:94-129 | every non-empty strict prefix of a frame reads as torn |
| Record.BurstDamageIsCorrupt | broker/log/record.go:43-129 | any change of the payload within 32 consecutive bits, or of the checksum alone in any way, reads as corrupt |
| Record.OneByteDamageIsCorrupt | broker/log/record.go:43-129 | any change confined to one payload byte or one checksum byte reads as corrupt |
| RecordRun.ParseDecomposes | broker/log/segment.go:217-244 | a scan splits any bytes into frames of the records it found and a tail that is no record |
| RecordRun.ParsePrefix | broker/log/segment.go:217-244 | fewer bytes, of any kind, scan to fewer of the same records |
| RecordRun.ParseCut | broker/log/segment.go:169-183 | cutting a run of frames anywhere leaves exactly the records wholly inside the cut |
| RecordRun.WithinIsMaximal | broker/log/segment.go:169-183 | the records inside a cut are the longest such prefix |
| SparseIndex.DecodeAppended | broker/log/index.go:68-123 | an entry written after the whole ones is read back after them, over any partial entry |
| SparseIndex.DecodeCut | broker/log/index.go:68-105 | an index file cut anywhere keeps its whole entries before the cut and no others |
| SparseIndex.DecodeTorn | broker/log/index.go:108-123 | an entry written in part is not an entry |
| SparseIndex.EntryLayout | broker/log/index.go:113-115 | byte by byte: relative offset, then position, most significant byte first |
| SparseIndex.SearchAbove | broker/log/log.go:322-327 | the binary search returns the first key above the target |
| SparseIndex.Index.constructor | broker/log/index.go:68-105 | the entries in memory are those the file decodes to |
| SparseIndex.Index.Append | broker/log/index.go:108-123 | the entry goes to the end of the file and of memory, unless its position does not fit 32 bits or the write fails, when memory and the whole entries on file stay |
| SparseIndex.Index.Lookup | broker/log/index.go:127-137 | the entry with the greatest offset at or below the wanted one, if there is one |
| SparseIndex.Index.TruncateFrom | broker/log/index.go:154-168 | drops from the first entry at or past the position, in memory and in the file |
| SparseIndex.Index.Reset | broker/log/index.go:172-178 | empties memory and file |
| Scan.HeaderLayout | broker/log/segment.go:75-110 | byte by byte: magic, version, base offset |
| Scan.CreatedHolds | broker/log/segment.go:75-110 | a new segment holds no records |
| Scan.AppendHolds | broker/log/segment.go:267-294 | an append adds its record at the next offset with a true sparse index, or leaves the records alone |
| Scan.FailedAppendHolds | broker/log/segment.go:276-288 | an append that fails after any number of bytes changes no record |
| Scan.UnclaimedIsAdopted | broker/log/segment.go:276-288 | one that failed after its last byte is in the log after the next recovery |
| Scan.LeftoversAreAdopted | broker/log/segment.go:273-278 | so are records nobody appended, where its leftovers frame them |
| Scan.RelativeOffsetsFit | broker/log/segment.go:280-294 | relative offsets never wrap 32 bits in a segment |
| Scan.ScanLands | broker/log/segment.go:217-244 | from any record boundary the scan ends after the last whole record, keeping the index true |
| Scan.RecoverRefinesFullScan | broker/log/segment.go:184-249 | recovery from a surviving index ends with the size, offset and records of a scan from the header; every entry is on a true boundary, entries stay an interval apart |
| Scan.RemainsSurvive | broker/log/segment.go:169-183 | any prefix of the file, unclaimed bytes included, with any prefix of the index can be recovered from, to the records wholly inside it and at most some behind them |
| SegmentFiles.SegmentFile.Create | broker/log/segment.go:75-110 | the object starts as the empty segment |
| SegmentFiles.SegmentFile.StartAt | broker/log/segment.go:184-207 | where the scan starts: the last entry inside the file, else the header with the index reset |
| SegmentFiles.SegmentFile.Recover | broker/log/segment.go:184-249 | the loop leaves the segment the recovery function gives, or fails as it does |
| SegmentFiles.SegmentFile.Open | broker/log/segment.go:117-162 | refuses foreign bytes, fails just when recovery does, and otherwise holds the full scan's records |
| SegmentFiles.HeaderFields | broker/log/segment.go:129-138 | magic, version and base are right exactly when the header bytes are those written for that base |
| SegmentFiles.SegmentFile.Append | broker/log/segment.go:267-294 | one record more at the end, or the same records and the reason: too large, index full, or a write of the record or of its entry that failed partway |
| SegmentFiles.SegmentFile.Seek | broker/log/segment.go:306-313 | the start of the record the nearest index entry names |
| SegmentFiles.SegmentFile.Read | broker/log/segment.go:301-352 | in range exactly the record at the offset, else an error; the bytes skipped are those from its index entry |
| SegmentFiles.SkipMatchesRead | broker/log/segment.go:360-374 | skipping a record moves as far as reading it |
| Logs.Log.constructor | broker/log/log.go:138-174 | a log opened on nothing holds nothing |
| Logs.Log.NextOffset | broker/log/log.go:336-340 | the number of records in the log |
| Logs.Log.RollIfFull | broker/log/log.go:218-246 | a fresh segment if and only if the active one holds a record and this one would take it past its size, and the sequence unchanged |
| Logs.Log.AppendActive | broker/log/log.go:248-252 | the active segment grows by the record; segments stay contiguous and within their size or at one record |
| Logs.Log.Append | broker/log/log.go:215-252 | the log's sequence grows by exactly this payload at the offset returned; a refused or failed one leaves it alone even after a roll |
| Logs.Log.Read | broker/log/log.go:318-332 | exactly the o-th appended payload below NextOffset, an error otherwise |
| Recovery.SecondRecovery | broker/log/segment.go:184-249 | a second recovery changes no record, file or size, and changes the index just when an interval has been left open |
| Recovery.SecondRecoveryCanIndexMore | broker/log/segment.go:228-234 | a run of appends and crashes after which a second recovery adds an entry |
| ReadBound.ReadsStayShortIff | broker/log/segment.go:255-352 | over any run of appends, failed appends, crashes and recoveries every read skips less than an interval exactly when no append goes unindexed an interval or more past the last entry |
| ReadBound.FreshReadsAreShort | broker/log/segment.go:255-294 | so they do while the segment has not been recovered |
| ReadBound.ReadsAreBounded | broker/log/segment.go:184-352 | in any run a read skips less than an interval plus one interval and longest record for each recovery that dropped an entry |
| ReadBound.ReadsCanBeLong | broker/log/segment.go:296-299 | a run after which a read skips more than an interval |
| ReadBound.AppendNear | broker/log/segment.go:255-294 | an append keeps reads within a reach exactly when an entry is due or the record starts within that reach of the last one |
| ReadBound.OfferNear | broker/log/segment.go:255-264 | the same for one record offered to the index, in an append or a recovery |
| ReadBound.RecoveryKeepsReadsShort | broker/log/segment.go:184-249 | a recovery of any cut of a segment leaves every surviving read as short as it was |
| GroupCommitSafety.StepInv | broker/log/sync.go:60-129 | every step keeps the invariant: each sequence number up to synced is on disk, every segment but the active one is durable in full |
| GroupCommitSafety.FsyncEndInv | broker/log/sync.go:87-108 | a finished fsync claims only its captured target, though the log rolled meanwhile |
| GroupCommitSafety.RollCreateInv | broker/log/log.go:226-246 | a roll keeps the invariant because the outgoing segment was synced first |
| GroupCommitSafety.WriteInv | broker/log/log.go:248-258 | a write keeps the invariant and gives the record its offset and sequence number; one that fills the index keeps it too |
| GroupCommitSafety.WriteErrorInv | broker/log/segment.go:276-288 | so does a write that fails after any number of bytes |
| GroupCommitSafety.RunInv | broker/log/log.go:215-306 | the invariant holds in every run |
| GroupCommitSafety.AcknowledgedMeansDurable | broker/log/log.go:215-306 | in every run of writers, rolls, failed writes and syncs, power losses and reopenings, under any segment size, a log that is up and its files hold each acknowledged payload at its offset |
| GroupCommitSafety.PowerLossKeepsDurablePrefix | broker/log/segment.go:169-249 | at any moment of any run, power loss and a successful open leave a log no shorter than what was claimed as synced; it is a prefix of the log there was if and only if no whole record was kept past the last segment's size, and otherwise that log and the records kept there |
| GroupCommitTidy.CleanRunsKeepPrefix | broker/log/segment.go:169-249 | in every run whose failed writes leave no byte, files hold exactly the log, and after any power losses the reopened log is a prefix of the log there was |
| GroupCommitTidy.CleanPowerLossCuts | broker/log/segment.go:169-249 | in particular one power loss and a successful open cut the log to a prefix no shorter than its durable part |
| Leftovers.FailedAppendComesBack | broker/log/segment.go:276-288 | a run in which an append fails, power is lost, and the reopened log holds its record |
| GroupCommitSafety.OpenSucceeds | broker/log/log.go:138-174 | opening succeeds when every segment kept its header and fits its index |
| GroupCommitGrowth.StepKeeps | broker/log/log.go:138-306 | only reopening takes records out of the log, nothing takes one out of its durable part, and a reopened log is more or less of the same one |
| GroupCommitProgress.CoordinatorProgress | broker/log/sync.go:60-113 | in every run at most one group fsync is in flight, a writer sleeps only while one is, and a second finished sync lets any writer out |
| GroupCommitProgress.SyncerNeedsOneRound | broker/log/sync.go:76-112 | the writer that synced successfully is acknowledged without another round |
| GroupCommitProgress.FailStop | broker/log/sync.go:60-113 | no step takes back a claim, forgets a failed sync or starts another after it |
| GroupCommitProgress.FailStopUntilPowerLoss | broker/log/sync.go:60-113 | nor does any run of steps, until the power is lost |
| GroupCommitOutcome.AppendOutcome | broker/log/sync.go:60-113 | in every run, whatever step a writer takes: one that looks is acknowledged when its record is claimed as synced, even after a failure, and turned away when it is not and a sync has failed; one whose own fsync returned is acknowledged just when it succeeded, and a failed group fsync is recorded; the append fails before that just when the roll, the new segment or the write does |
| GroupCommitOutcome.LeavesUnacknowledgedOnlyIf | broker/log/sync.go:60-113 | a writer whose record is written leaves unacknowledged only when its own fsync failed, when it looks after a failed sync with its record unclaimed, or on power loss |
| GroupCommitOutcome.NoLostWakeup | broker/log/sync.go:76-131 | in every run a writer sleeps only while its record is unclaimed and no sync has failed |
| GroupCommitOutcome.CoveredIsAcknowledged | broker/log/sync.go:66-71 | once a waiting writer's record is claimed as synced, by whoever's fsync or a roll, every continuation without power loss has it waiting or acknowledged, never turned away |
| GroupCommitOutcome.OneSyncServesAll | broker/log/sync.go:94-108 | when a group fsync has succeeded, every other waiting writer up to its target is awake and acknowledged by its next step |
| GroupCommitOutcome.AcknowledgementsStand | broker/log/log.go:215-292 | no continuation of a run takes an acknowledgement back |
| GroupCommitLiveness.CanGoOn | broker/log/sync.go:60-113 | in every run a writer's next step is enabled unless it sleeps or wants a log that is locked |
| GroupCommitLiveness.NoDeadlock | broker/log/sync.go:60-113 | in every run, while anyone is appending, some writer can take its next step |
| SharedSync.OneFsyncAcknowledgesTwo | broker/log/sync.go:60-113 | from any quiet moment of any run, two appends and one fsync, both acknowledged at consecutive offsets |
| GroupCommitSizes.SegmentsStaySmall | broker/log/log.go:218-246 | in every run, crashes, recoveries and failed writes included, each segment fits MaxSegmentBytes or holds at most one record, as long as what each failed write leaves is under 16 bytes or fits an empty segment |
| Leftovers.OversizedRun | broker/log/segment.go:273-278 | for every other number of bytes, a run with one such failed write that ends with two records past MaxSegmentBytes |
| Leftovers.HarmlessIff | broker/log/log.go:218-246 | so for each number of bytes a failed write can leave, all runs whose failed writes leave that many keep the size bound if and only if the number is harmless in that sense |
| Int64.CheckedAddExact | billing/ledger/amount.go:45-61 | the direction test refuses exactly the sums that do not fit |
| Decimal.ParseDigitsLoop | billing/ledger/amount.go:167-183 | the loop over wrapping int64 computes the function the lemmas are about |
| Decimal.ParseDigitsExact | billing/ledger/amount.go:167-183 | exact on every value that fits; otherwise an overflow or a value above a known ceiling |
| Decimal.GuardPassesIff | billing/ledger/amount.go:176-179 | a step that overflows passes the guard exactly when the value lies in [k*2^64 + n, k*2^64 + 2^63) for some k >= 1, and then as its wrapped value |
| Decimal.FirstOverflow | billing/ledger/amount.go:167-183 | at the first prefix too large a string is refused for good, or read on from that wrapped value |
| Decimal.GuardMissesAnOverflow | billing/ledger/amount.go:176-179 | the guard alone accepts 21 followed by eighteen zeros |
| FixedPoint.ProductCheck | billing/ledger/amount.go:146-154 | the divide-back check catches every product that does not fit |
| Amounts.NegateIsOpposite | billing/ledger/amount.go:63-71 | negating gives the amount that adds up to zero, and is refused exactly when there is none |
| Amounts.ParseAmountExact | billing/ledger/amount.go:108-160 | a well-formed amount is read as its exact signed value just when its magnitude fits |
| Amounts.OnlyWellFormedAmounts | billing/ledger/amount.go:108-137 | nothing else is accepted |
| Amounts.AmountStringSpells | billing/ledger/amount.go:78-106 | every amount, the most negative too, prints as its sign, its whole units without leading zeros, a point and exactly six decimals of its value |
| Amounts.ParseAmountString | billing/ledger/amount.go:78-160 | parsing undoes printing for every amount but the most negative |
| Quantities.ParseQuantityExact | billing/pricing/quantity.go:42-124 | a plain decimal is read as its exact value just when it fits |
| Quantities.OnlyPlainQuantities | billing/pricing/quantity.go:42-85 | nothing else is accepted |
| Quantities.QuantityStringSpells | billing/pricing/quantity.go:86-92 | a quantity that is not negative prints as its whole units, a point and exactly nine decimals |
| Quantities.ParseQuantityString | billing/pricing/quantity.go:42-92 | parsing undoes printing exactly for the non-negative quantities |
| Quantities.AllDigitsLoop | billing/ingest/validate.go:182-189 | true for a non-empty run of digits and nothing else |
| Quantities.AcceptedIff | billing/ingest/validate.go:112-189 | what ingest accepts is exactly the plain decimals of at most nine places below 10^29, as the column NUMERIC(38, 9) holds |
| Quantities.AcceptedNeverMalformed | billing/ingest/validate.go:112-154 | a quantity ingest accepts is never malformed for pricing: exact, or too large |
| Quantities.CanonicalIsOfValue | billing/event/event.go:124-140 | the canonical form depends on the value alone |
| Quantities.CanonicalDecidesEquality | billing/event/event.go:124-140 | canonical forms are equal exactly when the values are |
| Quantities.CanonicalParsesTheSame | billing/event/event.go:124-140 | canonicalising first never changes what is parsed |
| Fingerprints.FieldsInjective | billing/event/event.go:105-112 | length-prefixed fields determine the fields |
| Fingerprints.PreimageLayout | billing/event/event.go:86-112 | tenant, meter, canonical quantity and time in that order, each behind its length in eight bytes |
| Fingerprints.PreimageDecidesContent | billing/event/event.go:86-112 | two preimages are equal exactly when tenant, meter, time text and numeric quantity are |
| Pricing.RoundNearest | billing/pricing/pricing.go:342-371 | rounding is off by at most half a unit and odd |
| Pricing.RoundTiesAway | billing/pricing/pricing.go:361-371 | nothing as near is larger in magnitude |
| Pricing.MultiplyNearest | billing/pricing/pricing.go:345-378 | the amount nearest the exact product; an overflow only when no amount is nearer than half a unit |
| Pricing.ValidateTiers | billing/pricing/pricing.go:301-328 | accepts exactly strictly rising positive bounds ending in one unbounded tier |
| Pricing.ValidTiersIff | billing/pricing/pricing.go:301-328 | that condition, spelled out pairwise on the bounds |
| Pricing.PortionsPartition | billing/pricing/pricing.go:237-255 | the portions charged add up to the quantity |
| Pricing.PortionIsLanded | billing/pricing/pricing.go:237-255 | each tier's portion is the number of units that land in it |
| Pricing.RunningFitsIff | billing/pricing/pricing.go:234-273 | the total is lost exactly when a charge or a partial sum on the way does not fit |
| Pricing.ApplyGraduated | billing/pricing/pricing.go:229-274 | the loop is the running sum of rounded portions and fees over the tiers, refusing bad tiers |
| Pricing.RunningIsCharges | billing/pricing/pricing.go:234-273 | whenever it stays in range it is the sum of each portion at its price plus the fee of each tier reached |
| Pricing.NonNegativeFits | billing/pricing/pricing.go:257-269 | with no negative price or fee it overflows exactly when the charge does not fit |
| Pricing.GraduatedErrorBound | billing/pricing/pricing.go:229-274 | within k/2 micro-units of the exact charge for k tiers reached |
| Pricing.GraduatedMonotone | billing/pricing/pricing.go:229-274 | more usage never costs less, for non-negative prices and fees |
| Pricing.Landing | billing/pricing/pricing.go:287-295 | the tier found is one the total lands in |
| Pricing.LandsInOne | billing/pricing/pricing.go:276-299 | there is only one such tier |
| Pricing.VolumeExact | billing/pricing/pricing.go:276-299 | the price is the whole quantity at that tier's rate plus its fee wherever that fits |
| Pricing.ApplyVolume | billing/pricing/pricing.go:277-299 | every unit at that tier's rate plus its fee, nothing for nothing, and never the error after the loop |
| Pricing.PriceMeans | billing/pricing/pricing.go:215-299 | a price applies exactly when every amount on the way fits, and then charges the rounded product when flat, the sum of the tiers' charges when graduated, the landing tier's rate and fee when volume; an unknown model or bad tiers never apply |
| Pricing.ApplyPrice | billing/pricing/pricing.go:215-226 | the switch over models computes the function the lemma above is about |
| Pricing.NothingCostsNothing | billing/pricing/pricing.go:281-285 | a quantity of zero is charged zero under every model |
| Meters.SortedKeys | billing/pricing/pricing.go:174-180 | keys pulled out in any order come back as the one sorted sequence of them |
| Meters.LessIff | billing/pricing/pricing.go:180 | the order is that of the first character that differs, or of the length |
| Meters.SortedOnce | billing/pricing/pricing.go:180 | strictly sorted with the same members is the same sequence |
| Rating.FindPrice | billing/pricing/pricing.go:206-213 | the plan's first price for the meter |
| Rating.Rate | billing/pricing/pricing.go:158-201 | both loops compute the rating function, errors included |
| Rating.GatherExact | billing/pricing/pricing.go:159-172 | sums per meter are exact and refused exactly for an unknown meter, negative usage or a total that does not fit |
| Rating.RateIsBill | billing/pricing/pricing.go:158-201 | succeeds exactly when every meter used can be priced, and then has one line per meter, strictly sorted, for all its usage at its price |
| Rating.RateCharges | billing/pricing/pricing.go:158-226 | told from the plan: succeeds exactly when usage is acceptable and each meter's first price reaches an amount for its total, and each line costs what that price sets by its model |
| Rating.RejectionNames | billing/pricing/pricing.go:159-172 | usage is refused for the first usage that makes it unacceptable, with the reason |
| Rating.RefusalNames | billing/pricing/pricing.go:182-199 | pricing is refused for the first meter in order without a price, or whose price does not apply, and says which |
| Rating.BillIsUnique | billing/pricing/pricing.go:148-157 | there is only one such list of lines for given totals |
| Rating.RateIgnoresOrder | billing/pricing/pricing.go:148-157 | permuting the usage changes neither success nor output |
| Rating.RateIgnoresSplits | billing/pricing/pricing.go:148-157 | nor does splitting one usage into non-negative parts |
| Rating.BillConserves | billing/pricing/pricing.go:158-201 | for every meter the lines carry exactly the usage given |
| Consumer.FirstWins | billing/consumer/consumer.go:37-42 | the row stored for a tenant and key is the first event on the log that carries them |
| Consumer.EventsAreFirsts | billing/consumer/consumer.go:37-42 | the events table is, in order, the usable records whose tenant and key no earlier usable record has |
| Consumer.KeysDistinct | migrations/000001_create_events.up.sql:58-59 | no two rows share tenant and key |
| Consumer.LettersAreTheDead | billing/consumer/consumer.go:217-262 | the dead letters are exactly the undecodable offsets and those reusing a key with another fingerprint, with their reason and bytes |
| Consumer.ReuseIsByContent | billing/consumer/consumer.go:381-405 | told from the records alone: a later event of a tenant and key is dead-lettered as a reuse if and only if the first carries a fingerprint and the later one's bytes differ from it |
| Consumer.RedeliveryChangesNothing | billing/consumer/consumer.go:381-405 | a record already folded in changes nothing when it comes again |
| Consumer.RangeExtendsFold | billing/consumer/consumer.go:197-281 | a batch from any earlier offset extends the fold or leaves it |
| Consumer.ExactlyOnce | billing/consumer/consumer.go:197-281 | over a log that only grows, after any run of appends, batches, roll-backs, rewinds and stale readers the tables are the fold of the log up to the highest offset committed |
| Consumer.ReplayIsDeterministic | billing/consumer/consumer.go:53-61 | two runs that committed the same log hold the same tables |
| Drain.VerdictIsFate | billing/consumer/consumer.go:209-263 | against the tables a record meets, new or replayed: inserted if first of its tenant and key and not yet folded in, a conflict if dead, a duplicate otherwise |
| Drain.FirstPassLetters | billing/consumer/consumer.go:217-262 | on a first pass every rejection is a new dead letter |
| Drain.ProcessRecord | billing/consumer/consumer.go:209-263 | one record applied and counted once under its verdict, failing just when its quantity does not cast |
| Drain.Drainer.constructor | billing/consumer/consumer.go:140-148 | starts at offset zero with empty tables |
| Drain.Drainer.ProcessBatch | billing/consumer/consumer.go:197-281 | the whole batch and its offset, or nothing; inserted, duplicates, conflicts and new dead letters are the numbers of such offsets on the log, up to the record that failed if one did |
| Drain.Drainer.Drain | billing/consumer/consumer.go:169-194 | ends caught up with the fold of the whole log, or at the start of the batch whose quantity does not cast; either way the counts are those of the offsets read, told from the log, and inserted + duplicates + conflicts = read when it succeeds |
| Drain.Drainer.LogGrows | billing/consumer/consumer.go:178 | records appended while it drains change nothing it has done |
| LiveConsumer.LogRuns | cmd/ingest/main.go:84-87 | the log's part of a joint run is a run of the log |
| LiveConsumer.TablesFollowLogIff | cmd/ingest/main.go:136-156 | over any joint run of the log, with power losses and reopenings, and of the consumer that drains it live, the tables are at every moment the fold of the log up to the highest offset committed, exactly when no reopening found the log shorter than that |
| LiveConsumer.DurableReadsNeverBehind | docs/adr/0018-durable-log-type.md:64-67 | none does when every batch ends within the durable part of the log |
| Ledger.Balance | billing/ledger/ledger.go:209-219 | the checked running total of the postings |
| Ledger.BalanceIsSum | billing/ledger/ledger.go:209-219 | when it does not overflow it is their sum |
| Ledger.RunningTotalAlternates | billing/ledger/ledger.go:176-187 | the running total alternates between zero and the transfer being posted, however many there are |
| Ledger.NewTransaction | billing/ledger/ledger.go:134-195 | succeeds exactly on acceptable input with an equal debit and credit per transfer; never overflows, never unbalanced |
| LedgerStore.EnsureAccountKeeps | billing/ledger/store.go:109-130 | an account made on demand clashes with none and asking again finds it |
| LedgerStore.PostTx | billing/ledger/store.go:188-223 | the tables after posting: a new key and its rows, or nothing for a key already there |
| LedgerStore.PostedIff | billing/ledger/store.go:188-223 | posted exactly when the postings come to nothing and the key is known, which changes nothing, or every posting moves something on an account there is |
| LedgerStore.PostIdempotent | billing/ledger/store.go:201-212 | posting twice stores once and returns the same id |
| LedgerStore.PostKeepsTrialBalance | billing/ledger/store.go:188-223 | posting any transaction leaves the trial balance where it was |
| LedgerStore.PostMoves | billing/ledger/store.go:188-237 | under a new key each account moves by exactly its transfers |
| EventTable.MarkMovesDue | billing/invoicing/invoicing.go:131-133 | marking takes exactly what was due out of the tenant's unbilled usage and loses nothing |
| Invoicing.SumTextParses | billing/invoicing/invoicing.go:300-305 | the text of a sum reads back exactly, or fails when it is negative or does not fit |
| Invoicing.GatherUsage | billing/invoicing/invoicing.go:283-313 | the loop over the groups computes the gathering function |
| Invoicing.GatherIsExact | billing/invoicing/invoicing.go:124-129 | gathering succeeds exactly when every sum can be read, and names every meter with something due |
| Invoicing.GatherConserves | billing/invoicing/invoicing.go:124-129 | for every meter the usage gathered is what was due |
| Invoicing.BuildEntry | billing/invoicing/invoicing.go:316-370 | the loop computes accounts opened, transfers and checked total |
| Invoicing.EnsurePeriodIs | billing/invoicing/invoicing.go:98-102 | refused exactly for bad bounds or empty names; a known period is found as it stands, a new one opened with these bounds |
| Invoicing.EnsurePeriodAgain | billing/invoicing/invoicing.go:98-102 | asking again finds the period made the first time, whatever bounds are given |
| Invoicing.Service.EnsurePeriod | billing/invoicing/invoicing.go:156-166 | the period of that name, made open if there is none; bad bounds and empty names refused |
| Invoicing.Service.Close | billing/invoicing/invoicing.go:173-279 | the database after a close is that of the close function when an invoice is issued, and untouched otherwise |
| Invoicing.Service.IssueInvoice | billing/invoicing/invoicing.go:212-268 | the same for the half after pricing |
| InvoicingEntry.NamesSay | billing/invoicing/accounts.go:18-34 | the account names: kind, colon, tenant or meter |
| InvoicingEntry.KeySays | billing/invoicing/accounts.go:36-45 | the transaction key, character by character |
| InvoicingEntry.NamesApart | billing/invoicing/accounts.go:18-34 | no receivable account is a revenue account |
| InvoicingEntry.EntryIsExact | billing/invoicing/invoicing.go:316-370 | the total is the sum of the lines; the tenant's receivable moves by it, each meter's revenue by minus its lines, every other account by nothing |
| InvoicingRuns.RunGrows | migrations/000006_periods_and_invoices.up.sql:99-128 | in every run issued invoices never change, billed events never move, periods only close |
| InvoicingRuns.RunKeepsShape | migrations/000006_periods_and_invoices.up.sql:26-41 | in every run a period is closed exactly when it has an invoice, has at most one, and a billed event is its tenant's from before the period's end |
| InvoicingRuns.IssueExcess | billing/invoicing/invoicing.go:199-268 | a close is out by the difference between what it gathered and what it marked, and by nothing else |
| InvoicingRuns.StepConservesIff | billing/invoicing/invoicing.go:251-260 | a step conserves usage exactly when it is not a close whose gather and mark disagree |
| InvoicingRuns.UsageConservedIff | billing/invoicing/invoicing.go:173-279 | over any run, for every tenant and meter, invoiced plus unbilled equals stored at every point exactly when every issuing close marked what it gathered |
| InvoiceLines.InvoicesItemisedIff | billing/invoicing/invoicing.go:244-260 | over any run each invoice carries, meter by meter, exactly the events stamped with it, if and only if every issuing close marked what it gathered |
| InvoicingMoney.KeysCollideIff | billing/invoicing/accounts.go:36-45 | exactly which tenants and labels share a transaction key |
| InvoicingMoney.KeysInjective | billing/invoicing/accounts.go:36-45 | none do when tenants are colon-free |
| InvoicingMoney.KeysCanCollide | billing/invoicing/accounts.go:43-45 | a pair that does |
| InvoicingMoney.IssueMoves | billing/invoicing/invoicing.go:212-235 | issuing moves each account by its charge under a new key, by nothing under an old one |
| InvoicingMoney.IssueTotal | billing/invoicing/invoicing.go:212-249 | an invoice is positive and its total the sum of its lines |
| InvoicingMoney.IssueAgreesIff | billing/invoicing/invoicing.go:222-249 | a close keeps ledger and invoices in agreement exactly when its key is new |
| InvoicingMoney.LedgerAgreesIff | billing/invoicing/invoicing.go:173-279 | over any run they agree at every point exactly when no close reuses a key |
| InvoicingMoney.LedgerAgrees | billing/invoicing/invoicing.go:173-279 | with colon-free tenants, in every run: trial balance zero, receivable = sum of totals, revenue = minus sum of lines, total = sum of lines |
| CloseOutcome.CloseIssuesIff | billing/invoicing/invoicing.go:173-279 | exactly when closing an open period issues an invoice |
| CloseOutcome.NothingToBillIff | billing/invoicing/invoicing.go:199-221 | exactly when closing finds nothing to bill: no unbilled event of the tenant before the end, or lines that are all zero |
| CloseOutcome.CloseAgain | billing/invoicing/invoicing.go:186-197 | closing again returns the same invoice and writes nothing, whatever the plan |
| CloseOutcome.ClosedStaysClosed | billing/invoicing/invoicing.go:186-197 | and so at any later point of any run |
| CloseOutcome.NothingLeftDue | billing/invoicing/invoicing.go:111-133 | a close bills every unbilled event of the tenant from before the period's end, and touches no other row |
| CloseOutcome.RunIsTraced | migrations/000006_periods_and_invoices.up.sql:50-52 | in every run an invoice names the ledger transaction under its period's key |
| CloseOutcome.UndisturbedAgrees | billing/invoicing/invoicing.go:251-260 | a close that nothing came between conserves usage |
| CloseOutcome.ArrivalIsLost | billing/invoicing/invoicing.go:251-260 | an event that lands between gather and mark is billed to nobody, by exactly its quantity |
| CloseOutcome.OverlappingClosesBillTwice | billing/invoicing/invoicing.go:103-112 | two closes of one tenant that gathered the same rows bill them twice |
| FlatPlan.FlatClose | billing/invoicing/invoicing.go:173-279 | with one meter at a flat price the invoice is one line for all that was due, rounded once |
| Anomalies.UsageCanBeLost | billing/invoicing/invoicing.go:251-260 | a run in which a unit of usage is lost |
| Anomalies.UsageCanBeBilledTwice | billing/invoicing/invoicing.go:104-112 | a run in which a unit of usage is billed twice |
| Anomalies.LedgerCanDisagree | billing/invoicing/invoicing.go:231-234 | a run in which a close with a colliding key issues an invoice the ledger knows nothing of |
| EndToEnd.CorrectToTheCent | chaos/harness.go:146-160 | after any joint run with crashes, failed writes, retries, duplicates, aborts and rewinds, drained, in which no reopening found the log shorter than what was committed, the close's total, the receivable and minus the revenue are the unit price times the number of distinct acknowledged keys |
| Pipeline.LoneAppend | broker/log/log.go:215-292 | from any moment of any joint run with the log up, nobody appending, no sync failed and room in the last segment, a lone append under group commit runs through to its acknowledgement |
| Pipeline.LoneRollAppend | broker/log/log.go:218-292 | and when the record does not fit: the full segment is flushed and claimed, and the append is acknowledged at the next offset in a segment of its own |
| Pipeline.OneEventIsBilled | chaos/harness.go:146-160 | one event, from an acknowledged append to an invoice of one unit price, with every hypothesis of the theorem above met |
| Pipeline.ConsumerAheadLosesUsage | cmd/ingest/main.go:136-156 | a run that meets every hypothesis but the one on reopening: two keys acknowledged, both records in a drained log, one event stored and billed |

## Left out

- Logs.Log.constructor: an empty directory; opening one that holds segments is SegmentFiles.SegmentFile.Open for each and the reopening step for the whole log.
- Consumer.ExactlyOnce: its log only grows; LiveConsumer.TablesFollowLogIff is the theorem for the log that can lose records.
- GroupCommitSizes.SegmentsStaySmall: not for failed writes that leave more; Leftovers.HarmlessIff shows the condition on their number exact, while which of their bytes frame records is not characterised.
- GroupCommitTidy.CleanRunsKeepPrefix: for MaxSegmentBytes up to 2^32; above it a full index leaves a record past the size, and GroupCommitSafety.PowerLossKeepsDurablePrefix has the exact condition.
- EndToEnd.CorrectToTheCent: one tenant, one meter and unit quantities, as the chaos suite has them; other shapes follow from the general theorems on closes.
- LedgerStore.PostTx: on table values, as a transaction's own copy; two transactions writing the ledger at once are not interleaved.
- Record.BurstDamageIsCorrupt: damage to the payload or to the checksum, not to both, and not to the length field.
- Log.Close and appends racing with it; SyncNever and SyncEveryN, which promise nothing about power loss.
- An index write that reports an error though the whole entry reached the file, and index writes that fail during recovery.
- Damage in the middle of a segment, loss of directory entries, a new segment whose header was lost, and a createSegment that fails after making its file.
- A stale index file found when a segment is created; file names and listing a directory.
- Offsets that exceed uint64.
- HTTP, JSON, timers, contexts and logging; decoding a record and casting its quantity are one partial function.
- SHA-256 and the RFC 3339 text of a time; only the hashed preimage is modelled.
- Postgres locking and triggers beyond unique keys, row locks on a period, and what each statement sees.
- Building the meter registry, time-window and string-field validation, account kinds by name, listing dead letters, descriptions, display units and the late flag of a line.
- The order of the grouped rows: by name here, which Rating.RateIgnoresOrder makes immaterial.

# Verification of the Unlucky21 pool

Unlucky21 is a Bitcoin pool. A Go reward service records shares, ranks miners and decides who is paid; a patched C
gateway turns that into a coinbase transaction that miners hash in two halves around an extranonce; a small proxy
completes signet blocks. This project models the parts where money and protocol meet and proves what they keep:

* **Assembly** (`ScriptSig`, `Budget`, `Coinbase`, `CoinbaseTypes`, `CoinbaseTheorems`,
  `CoinbaseSize`, `CoinbaseLimits`, `SharedPayouts`): the scriptSig, the size budget,
  the greedy selection made twice, and the three layouts. Whatever is generated is decoded again by an independent
  reference decoder (`Transaction`, after "Serialization" of BIP 144).
* **Personal halves** (`Personal`, `PersonalFit`, `PersonalTwo`, `Protocol`, `PersonalShares`): the second half built for
  one miner, where it fits, the two-slot cache with session-tagged job ids as a state machine with a history of what was
  sent, and what a share rebuilt from the cache pays.
* **Leaderboard** (`Leaderboard`, `Top21`, `TopRows`): the windowed query clause by clause, against a one-pass fold and
  against the rows of the table.
* **Rounds and shares** (`Rounds`, `Confirmation`, `Wakeup`, `Shares`, `ShareFlow`): the tables, the confirmation loop and
  the share buffer, as methods proved against specification functions and as interleaved steps.
* **Injection** (`Injector`, `Script`, `Bytes`): the signet proxy's transaction scanner and splice.
* **Wire** (`Wire`, `WireRoundTrip`, `WireScan`), **payouts** (`Payout`), **template memory** (`Arena`) and the chain through all of
  them (`EndToEnd`).

Code that works step by step is a method, or a class with the program's fields, proved equal to a specification
function; the theorems are about those functions, and state machines take them as their steps. Hex text in the
gateway's buffers is modelled as the bytes it prints.

Places where the code does not do what it or its comments say, each proved with an exact condition, an input, or both:

* Tags of 84 bytes and 1 byte: the declared push length is one more than the bytes emitted (`TagPushExact`). Such a primary
  tag is over the 64 bytes the gateway's comment takes as the maximum.
* Type 0 with a scriptSig of more than 85 bytes is written on top of itself (`TypeZeroIff`, `TypeZeroByTags`,
  `LongTagsExample`).
* The fallback amount of -1 is meant to give the miner the full reward; read as unsigned it is never selected, and the pool
  is paid everything (`FallbackPaysPool`). Behind another payout it would wrap the total (`Conservation`, `WrapExample`).
* A personal half does not fit type 2, nor a long scriptSig unless the counts agree by chance (`PersonalFitsIff`,
  `PersonalOverclaims`, `PersonalTwoExample`); a value whose low 32 bits are ones is mistaken for a sequence (`DetectedIff`).
* The previous slot is said to be always one job behind; a failed build pushes the older half out
  (`LostAfterFailedBuild`).
* A second confirmed block of a round makes the handler store the closed round's id, and an acknowledgement lost after a
  commit leaves the old one (`CachedStaysOpenIff`, `SecondBlockCachesClosedRound`, `LostAnswerCachesClosedRound`).
* A job sent before its payouts are filled in has its shared half replaced under the miner: its shares are rebuilt with
  other bytes, and it can be sent again without a restart (`SharedSafeIff`, `ChangeRestarts`, `UnfilledExample`).
* A notify that is quickdiff and new-block at once turns a personal job back into a shared one whose shares are rebuilt
  with the personal half (`QuickNewIff`, `QuickNewExample`).
* A budget used to the last byte makes the block up to 18 bytes too large (`BlockWithinIff`, `SafeTemplateIff`,
  `OverweightExample`). This presupposes a node that reserves hardly more for the coinbase than the gateway's own figures.
* A failed startup query can strand a block (`AwakeStaysIff`, `StrandedByFailedStartup`).
* A session best of 2^63 or more makes the whole leaderboard query fail, and with it the recording of every block found in
  that round, although the patched gateway reports 10^20 for a hash whose leading words are zero; so does a NULL best of
  an active address (`QueryIsBest21`, `OutOfRangeExample`, `ScanFailedExample`, `SnapshotStopsIff`).
* A template of more than 16383 transactions is truncated, but its table still takes the space of all of them
  (`TruncatedFitsIff`, `TruncatedRefusedExample`).

The run theorems about personal halves allow these runs: a notify is of the latest job or a new one, carries what the job
table says, does not come after the miner's eligibility for the job was withdrawn, and is not quickdiff and new-block at
once for a job whose personal half is cached; a job is filled once, at any time, after its payouts were counted in any steps.

To verify: `dafny verify dfyconfig.toml`.

## Model

| member | source | states |
|---|---|---|
| `Bytes.VarintRoundTrip` | infra/signet-signer.py:63-81 | reading back an encoded count gives the count and the position after it, for every 64-bit number and all four widths |
| `Bytes.VarintShortest` | infra/signet-signer.py:74-81 | no other bytes that read as the count are shorter |
| `Script.PushRoundTrip` | infra/signet-signer.py:84-95 | a push is read back as its data, whichever of the five forms its length selects |
| `Script.PushShortest` | infra/signet-signer.py:84-95 | no other push of the data is shorter, and whatever can be pushed is |
| `Transaction.TxRoundTrip` | infra/signet-signer.py:102-137 | every well-formed transaction with at least one input, legacy or segwit, decodes to itself and to its own end at any position in any buffer |
| `Transaction.HeadRoundTrip` | infra/signet-signer.py:104-115 | the two-byte segwit mark is recognised exactly in segwit transactions, so neither format is taken for the other |
| `Injector.SkipInputs` | infra/signet-signer.py:115-119 | the input loop ends where skipping the inputs one by one ends, failing in the same cases |
| `Injector.SkipOutputs` | infra/signet-signer.py:122-126 | the same for the output loop |
| `Injector.SkipWitnesses` | infra/signet-signer.py:128-134 | the same for the nested witness loops |
| `Injector.ParseTx` | infra/signet-signer.py:102-137 | returns the bytes from the start to where the scan stops, or fails as the scan does |
| `Injector.ScanAgrees` | infra/signet-signer.py:102-137 | on everything a full decoder accepts, the proxy's field-skipping parser stops at the decoder's end |
| `Injector.ScanSound` | infra/signet-signer.py:102-137 | and conversely: where the scan ends inside the buffer, a full decoder reads a transaction to the same end |
| `Injector.SpliceOutput` | infra/signet-signer.py:166-207 | the new output goes behind the existing ones, the count is re-encoded, nothing else moves |
| `Injector.Inject` | infra/signet-signer.py:140-249 | the whole edit of the block bytes against its specification, including when it fails |
| `Injector.SpliceRefines` | infra/signet-signer.py:166-207 | splicing bytes into a serialized transaction gives the serialization of the transaction with one output appended, also when the count changes width |
| `Injector.InjectRefines` | infra/signet-signer.py:140-249 | for every well-formed block the result is the serialization of the edited block: merkle field replaced, one output appended to the coinbase |
| `Injector.InjectReparses` | infra/signet-signer.py:140-249 | decoding the result gives the same coinbase plus one zero-value output, the same later transactions, the other header fields untouched, nothing left over |
| `Injector.InjectInserts` | infra/signet-signer.py:140-249 | for every block the injection succeeds on, well formed or not: header but for the merkle bytes, transaction count and every further byte are kept in order; the coinbase's output count is raised by one and one zero-value output inserted |
| `Injector.InjectSucceedsIff` | infra/signet-signer.py:140-249 | it fails exactly when count, coinbase, its outputs or one of the announced later transactions cannot be scanned, or the signature is too long for a push |
| `Injector.CommitmentScriptExists` | infra/signet-signer.py:193-195 | the commitment script is OP_RETURN and one push that reads back as header and signature |
| `Injector.BlockRoundTrip` | infra/signet-signer.py:149-164 | serialized blocks decode to themselves |
| `ScriptSig.GenerateCoinbaseInput` | datum-gateway/src/datum_coinbaser.c:63-189 | the buffer-filling method writes exactly the specified scriptSig and returns the placeholder's position, or panics in the same cases |
| `ScriptSig.AppendTags` | datum-gateway/src/datum_coinbaser.c:124-167 | the tag push appended in place is the specified field |
| `ScriptSig.AppendId` | datum-gateway/src/datum_coinbaser.c:169-186 | the unique id push and the position of its placeholder |
| `ScriptSig.TagPushExact` | datum-gateway/src/datum_coinbaser.c:93-115 | the declared tag length is the number of bytes emitted, through truncation and the change of opcode at 76, if and only if the tags are not 84 bytes and 1 byte long |
| `ScriptSig.PanicsIff` | datum-gateway/src/datum_coinbaser.c:93-122 | the gateway panics exactly for a primary tag over 85 bytes alone, or of at least 84 beside a secondary one with over 85 in all |
| `ScriptSig.HeightIsMinimal` | datum-gateway/src/datum_coinbaser.c:70-79 | the pushed number is the height, positive, and no shorter script number is |
| `ScriptSig.InputReads` | datum-gateway/src/datum_coinbaser.c:63-189 | whenever the gateway does not panic, and but for tags of 84 bytes and one, the scriptSig is a sequence of whole pushes that the extranonce push completes: the height; the tag the configuration selects, a separator, what fits of the secondary tag and a zero byte; 0xFF, at the returned index, with the unique id and, if used, the prime id |
| `ScriptSig.InputBound` | datum-gateway/src/datum_coinbaser.c:63-189 | for heights under 2^23 and tags of at most 64 bytes: no panic, 2 to 100 bytes, and the returned index addresses 0xFF |
| `CoinbaseSize.ScriptSigInEveryType` | datum-gateway/src/datum_coinbaser.c:574-617 | so in every type, empty or not: the scriptSig of the coinbase, with the extranonce push where it is there, has at most 100 bytes, and the recorded index addresses the 0xFF placeholder in coinb1 |
| `Budget.FitToTemplate` | datum-gateway/src/datum_coinbaser.c:323-350 | the step-by-step figure is the specified one |
| `Budget.FittedWithinLimits` | datum-gateway/src/datum_coinbaser.c:323-350 | the figure is not negative, keeps reserved bytes and outputs within the maximum, and when positive respects both template limits although the weight figure overwrites the size figure |
| `Budget.FittedNegativeIff` | datum-gateway/src/datum_coinbaser.c:329-349 | exactly when the figure is negative: reserved bytes above the maximum, and neither limit forced it to zero first |
| `Budget.FittedIsLargest` | datum-gateway/src/datum_coinbaser.c:323-350 | no larger figure respects the maximum and both limits |
| `CoinbaseTheorems.RoomIs` | datum-gateway/src/datum_coinbaser.c:706-731 | in figures, for each type: reserved and payout bytes stay within 500, 755, 6500, 16000 or 2250 and within both limits, and any larger figure does not |
| `Coinbase.CountOutputs` | datum-gateway/src/datum_coinbaser.c:201-229 | the first pass counts exactly the greedy selection, and in the special layout how many of the first of them fit into coinb1 |
| `Coinbase.Halves.EmitOne` | datum-gateway/src/datum_coinbaser.c:258-280 | one output goes to the half its raw index decides, and the extranonce output closes coinb1 when the first index past the limit is reached |
| `Coinbase.Halves.EmitOutputs` | datum-gateway/src/datum_coinbaser.c:249-285 | the second pass emits the same selection although it stops on other counters: the leading part to coinb1, the rest to coinb2, and its running total is theirs modulo 2^64 |
| `Coinbase.Halves.PutTail` | datum-gateway/src/datum_coinbaser.c:297-320 | pool output or dummy, both commitments, lock time |
| `Coinbase.GenerateSubtype` | datum-gateway/src/datum_coinbaser.c:191-321 | both halves of a type, so the extranonce output is always the end of coinb1 when it is in coinb1 |
| `CoinbaseTheorems.PickedIff` | datum-gateway/src/datum_coinbaser.c:214-229 | a payout is selected if and only if its script and 9 bytes fit the room and its amount the value left by those selected before it, modulo 2^64, and these left at least 30 bytes and some value |
| `Coinbase.PicksFit` | datum-gateway/src/datum_coinbaser.c:214-229 | the serialized selection stays within the size budget |
| `CoinbaseTheorems.PaidWithin` | datum-gateway/src/datum_coinbaser.c:287-290 | the total modulo 2^64 never exceeds the coinbase value: the error branch is dead |
| `CoinbaseTheorems.LeadingWithin` | datum-gateway/src/datum_coinbaser.c:203-229 | what the special layout puts into coinb1 is a prefix of the selection, and with it coinb1 has at most 150 bytes, although raw indices are compared with a count of selected payouts |
| `CoinbaseTheorems.LeadingIff` | datum-gateway/src/datum_coinbaser.c:203-280 | and exactly which: with c the number of selected payouts that together keep coinb1 within 150 bytes, while one more would not, those with a raw index below c |
| `CoinbaseTypes.WriteStart` | datum-gateway/src/datum_coinbaser.c:560-617 | the beginning of each type and the adjusted placeholder index |
| `CoinbaseTypes.WriteEmpty` | datum-gateway/src/datum_coinbaser.c:628-684 | the empty coinbase written for type 0 in every run |
| `CoinbaseTypes.GenerateType` | datum-gateway/src/datum_coinbaser.c:560-751 | one coinbase type, written in the gateway's order, is the specified pair of halves |
| `CoinbaseTypes.ScriptLayout` | datum-gateway/src/datum_coinbaser.c:232-237 | the halves of the scriptSig layout around 12 bytes are one serialized transaction |
| `CoinbaseTypes.ReturnLayout` | datum-gateway/src/datum_coinbaser.c:238-247 | the same for the layouts with the extranonce in an output, with the earlier outputs in coinb1 |
| `CoinbaseTheorems.GeneratedReads` | datum-gateway/src/datum_coinbaser.c:560-751 | parse-back: for every payout list, budget, layout and extranonce the halves decode, with nothing left over, as the one-input transaction with exactly the expected outputs (type 0 needs a scriptSig of at most 85 bytes) |
| `CoinbaseTheorems.DecodesTo` | datum-gateway/src/datum_coinbaser.c:560-751 | the decoded transaction field by field: version 1, no previous output, lock time 0, scriptSig with the extranonce behind it or an output for it, the selected payouts in order, the pool paid what they leave or the prunable output, witness and signet commitments |
| `CoinbaseTheorems.EmptyDecodesTo` | datum-gateway/src/datum_coinbaser.c:591-698 | the same for the empty coinbase of every type, which pays the pool the whole value |
| `CoinbaseTheorems.TypeZeroIff` | datum-gateway/src/datum_coinbaser.c:628-730 | type 0 decodes for every extranonce if and only if the scriptSig has at most 85 bytes; otherwise indices already advanced are advanced again |
| `CoinbaseTheorems.DoubledCountFails` | datum-gateway/src/datum_coinbaser.c:643-651 | count and extranonce output written twice into coinb1 do not decode when the extranonce is all 0xff |
| `ScriptSig.LongInputIff` | datum-gateway/src/datum_coinbaser.c:63-189 | at three-byte heights the scriptSig exceeds 85 bytes if and only if tags and separators take 76 bytes, or 73 with the long unique id |
| `CoinbaseSize.TypeZeroByTags` | datum-gateway/src/datum_coinbaser.c:628-730 | so type 0 decodes for every extranonce if and only if the configured tags are shorter than that |
| `CoinbaseSize.LongTagsExample` | datum-gateway/src/datum_coinbaser.c:574-579 | a configuration that is not: tags of 64 and 20 bytes |
| `CoinbaseTheorems.TotalAll` | datum-gateway/src/datum_coinbaser.c:249-312 | the sum of all outputs is what the selected payouts get plus what the pool gets |
| `CoinbaseTheorems.Conservation` | datum-gateway/src/datum_coinbaser.c:249-312 | the outputs of every type add up to exactly the coinbase value if and only if the selected amounts do not wrap at 2^64 |
| `CoinbaseTheorems.ConservationOfPayouts` | datum-gateway/src/datum_coinbaser.c:249-312 | amounts below 2^63 never wrap, so their value is conserved |
| `CoinbaseTheorems.WrapExample` | reward-service/internal/socket/server.go:154-158 | the service's fallback amount of -1 behind a one-satoshi payout does wrap: the outputs claim more than the coinbase value |
| `SharedPayouts.LoadOutputs` | datum-gateway/src/datum_coinbaser.c:885-902 | the job's payouts are the answered outputs with a decodable address, in order, amounts read as unsigned; none without an answer |
| `SharedPayouts.AvailableAre` | datum-gateway/src/datum_coinbaser.c:885-902 | who is paid what: exactly the decodable outputs, in the order answered, each its own script and the amount answered, plus 2^64 where that is negative |
| `SharedPayouts.SharedConserves` | datum-gateway/src/datum_coinbaser.c:885-902 | for any answer without negative amounts every output of every type is free, or pays an answered amount to the answered script, or pays the pool what these leave; together exactly the coinbase value |
| `SharedPayouts.FallbackPaysPool` | reward-service/internal/socket/server.go:153-158 | the fallback answer of -1 is never selected nor taken for a personal half: the pool is paid everything |
| `CoinbaseSize.SizeIs` | datum-gateway/src/datum_coinbaser.c:706-750 | the exact size of the coinbase of every type: reserved and payout bytes, the count, and what pool, dummy and commitment scripts differ from the allowance |
| `CoinbaseSize.SizeBound` | datum-gateway/src/datum_coinbaser.c:706-750 | so it exceeds reserved and payout bytes together by at most 18, or 20 with a three-byte count; those two together never exceed the type's maximum |
| `CoinbaseSize.BlockWithinIff` | datum-gateway/src/datum_coinbaser.c:329-339 | the whole block respects the size limit, and the weight limit, if and only if the budget's own test passes for the used bytes plus the excess |
| `CoinbaseSize.BlockWithin` | datum-gateway/src/datum_coinbaser.c:329-339 | the excess is at most 18 bytes, so a selection leaving 18 bytes of the budget unused keeps the whole block within both limits |
| `CoinbaseLimits.RoomForAll` | datum-gateway/src/datum_coinbaser.c:323-350 | a template with room for the type's maximum and a margin keeps the block within both limits for every payout list |
| `CoinbaseLimits.NoRoomForWorst` | datum-gateway/src/datum_coinbaser.c:323-350 | with less room there is a payout list that uses the budget up and breaks the weight limit |
| `CoinbaseLimits.SafeTemplateIff` | datum-gateway/src/datum_coinbaser.c:323-350 | so for types 0, 1, 2 and 5 a template is safe whatever is paid to whom if and only if it has that room |
| `CoinbaseSize.OverweightExample` | datum-gateway/src/datum_coinbaser.c:335-339 | a job and template whose budget is used to the last byte: the block weighs 64 units more than the limit; the template leaves 1152 units beside its transactions |
| `CoinbaseSize.PotAddresses` | datum-gateway/src/datum_coinbaser.c:598-601 | the recorded index addresses the same scriptSig byte in coinb1 of every type |
| `Buffers.HexRoundTrip` | datum-gateway/src/datum_coinbaser.c:753-767 | the binary copies made two digits at a time are the bytes that were printed |
| `Buffers.HexReads` | datum-gateway/src/datum_coinbaser.c:753-767 | digit pairs of either case are read as their bytes |
| `PersonalHalves.Convert` | datum-gateway/src/datum_coinbaser.c:982-993 | the loop keeps exactly the outputs with a positive amount and a decodable address, in order, and their 64-bit total |
| `PersonalHalves.GeneratePersonalCoinb2` | datum-gateway/src/datum_coinbaser.c:955-1055 | the personal half, or the refusals with nothing payable or too much |
| `PersonalHalves.RefusedIff` | datum-gateway/src/datum_coinbaser.c:972-1010 | it falls back exactly when no output is positive and decodable, or those that are add up, modulo 2^64, to more than the coinbase value |
| `PersonalHalves.PersonalReads` | datum-gateway/src/datum_coinbaser.c:1003-1046 | with the extranonce in the scriptSig every type but 2 decodes with the personal half: payable outputs in order, pool or dummy, both commitments |
| `PersonalHalves.PersonalConserves` | datum-gateway/src/datum_coinbaser.c:996-1034 | the personal outputs add up to exactly the coinbase value if and only if their total does not wrap |
| `PersonalHalves.DetectedIff` | datum-gateway/src/datum_coinbaser.c:998-999 | the layout is recognised from the shared half if and only if the scriptSig is short or the value's low 32 bits are all ones |
| `PersonalFit.CountedIff` | datum-gateway/src/datum_coinbaser.c:239-247 | with the count announced in coinb1, the bytes are a transaction if and only if the count is the number of outputs that follow |
| `PersonalFit.PersonalFitsIff` | datum-gateway/src/datum_coinbaser.c:998-1019 | with a long scriptSig the personal half fits a first half if and only if it has as many payouts as the shared half it replaces |
| `PersonalFit.PersonalOverclaims` | datum-gateway/src/datum_coinbaser.c:1003-1008 | put behind the type 2 first half it never makes a valid claim: any transaction it decodes as pays more than the coinbase value |
| `PersonalTwo.PersonalTwoReads` | datum-gateway/src/datum_coinbaser.c:1003-1019 | and it can decode: a condition on the first payout under which sequence, count and payouts are read as two outputs before the signet commitment |
| `PersonalTwo.PersonalTwoExample` | datum-gateway/src/datum_coinbaser.c:1003-1019 | an amount of 0.065625 bitcoin and a key hash for which it does |
| `PersonalProtocol.MinerData.SendMiningNotify` | infra/patch-stratum.py:166-202 | new cache, id, half sent and restart flag of a notify with any flags, as functions of the miner, the job and the build result |
| `PersonalProtocol.NotifyCases` | infra/patch-stratum.py:166-202 | by the two flags and the miner: what is sent, what becomes of both slots, and whether the miner is told to restart |
| `PersonalProtocol.ComesBackIff` | infra/patch-stratum.py:267-280 | in any state the share for a notice just sent is rebuilt with the notice's own half if and only if that was empty work or personal, or no slot holds another half for the job |
| `PersonalProtocol.MinerData.ClientMiningSubmit` | infra/patch-stratum.py:573-596 | verdict on a share and the half it is rebuilt with |
| `PersonalProtocol.InvNext` | infra/patch-stratum.py:672-686 | every allowed step keeps the cache invariant: a valid slot holds what was last sent for its job, the slots are the latest successful builds, and shared work of a filled job is still its shared half |
| `PersonalProtocol.RebuiltExactly` | infra/patch-stratum.py:718-730 | over every allowed run: a share is rebuilt with the cached personal half, which is the one last sent, or else with the job's shared half as it now is, which is the one last sent if the job had been filled by then |
| `PersonalProtocol.SharedSafeIff` | datum-gateway/src/datum_coinbaser.c:880-913 | shares for shared work are rebuilt with the bytes sent, in everything that can follow, if and only if the job had been filled when it was sent; payouts are counted before the halves are generated anew, and a notify may come in between |
| `PersonalProtocol.UnfilledExample` | datum-gateway/src/datum_coinbaser.c:880-913 | a job sent before it is filled: other bytes are rebuilt, and it is sent again, changed, without a restart |
| `PersonalProtocol.QuickNewIff` | infra/patch-stratum.py:518-538 | a notify that is quickdiff and new-block at once sends the shared half under a quickdiff id: its shares are rebuilt with it if and only if no slot holds other bytes for the job; so a personal job reverts |
| `PersonalProtocol.QuickNewExample` | infra/patch-stratum.py:518-538 | a run in which it does |
| `PersonalProtocol.LastTwoBuilds` | infra/patch-stratum.py:672-686 | the latest build, and the one before it if the latest attempt succeeded, are rebuilt with exactly the bytes last sent |
| `PersonalProtocol.LostAfterFailedBuild` | infra/patch-stratum.py:672-686 | a failed third build pushes out the older half: its shares are then rebuilt with other bytes than were sent |
| `PersonalProtocol.ChangeRestarts` | infra/patch-stratum.py:239-245 | in every allowed run, work differs from that last sent for the job without the restart flag if and only if a plain notify follows shared work since replaced by the filling and no personal half is built; never for a job filled when it was sent; and no job reverts from personal to shared |
| `PersonalProtocol.QuickRepeats` | infra/patch-stratum.py:770-780 | a quickdiff re-notify under unchanged eligibility leaves the cache alone and repeats the work last sent if and only if that was personal or the shared half is still the same |
| `PersonalProtocol.XorCancels` | infra/patch-stratum.py:518-538 | tagging with a session word twice gives the stamp back |
| `PersonalProtocol.XorInjective` | infra/patch-stratum.py:518-538 | different session words give different tags |
| `PersonalProtocol.XorFits` | infra/patch-stratum.py:518-538 | words of n bits give a tag of n bits, so the eight digits sent carry it |
| `PersonalProtocol.StaleAcrossSessions` | infra/patch-stratum.py:573-596 | an id of one session is stale in another if and only if their words differ, and accepted in its own |
| `PersonalProtocol.OtherJobRefused` | infra/patch-stratum.py:573-596 | an id looked up as another job is stale if the stamps differ, unknown if only the suffixes do, accepted if and only if both agree |
| `PersonalProtocol.ShareMatchesWork` | infra/patch-stratum.py:267-280 | the whole path of a share in any allowed run: accepted, and rebuilt with the half last sent as empty work; other work with the half last sent if and only if that is still cached or is the shared half as it now is |
| `PersonalShares.HalfPays` | datum-gateway/src/datum_coinbaser.c:972-1046 | a half built for a job from any answer, behind the first half of any type but 2 generated for that job with whatever payouts: the coinbase decodes, pays the answered outputs in order, and exactly the coinbase value |
| `PersonalShares.SharePays` | infra/patch-stratum.py:718-730 | over every allowed run whose personal halves the gateway built: a share for a cached job is accepted and its rebuilt coinbase decodes and pays like that |
| `Leaderboard.QueryIsFold` | reward-service/internal/leaderboard/service.go:165-199 | for every arrangement of equal times, LAG, MAX, COALESCE and the second MAX, which passes over NULLs, give what one pass keeps that restarts after a gap of more than seven days; an address is recent if and only if its last share is under seven days old |
| `Leaderboard.FoldMeans` | reward-service/internal/leaderboard/service.go:176-199 | the pass keeps the time of the last share and the best since the latest gap |
| `Leaderboard.SessionIsCurrent` | reward-service/internal/leaderboard/service.go:176-199 | the rows the query takes the best of are exactly those without a silence of more than seven days after them |
| `Leaderboard.SameStart` | reward-service/internal/leaderboard/service.go:176-188 | the session start does not depend on the arrangement of equal times |
| `Leaderboard.ArrangeArranges` | reward-service/internal/leaderboard/service.go:176-179 | a time-ordered arrangement of a partition exists |
| `Top21.RankCounts` | reward-service/internal/leaderboard/service.go:203-206 | RANK is one more than the number of rows sorting strictly before, NULLs first |
| `Top21.ColumnsAreFold` | reward-service/internal/leaderboard/service.go:200-205 | membership, best and last activity of the joined rows are those of the pass |
| `Leaderboard.BestByRows` | reward-service/internal/leaderboard/service.go:189-199 | an address's best is NULL if and only if no share of its current session has a difficulty, and reaches a value if and only if one of them does |
| `Top21.QueryIsBest21` | reward-service/internal/leaderboard/service.go:165-240 | every reply is a cast error, if and only if some address's current shares put its best beyond BIGINT; else a scan error, if and only if an active address has no current difficulty; else the at most 21 best active addresses in order, none better left out, with best, time and rank of the pass |
| `TopRows.ReplyByRows` | reward-service/internal/leaderboard/service.go:160-240 | the reply in terms of the rows alone: who is shown has a share of the last seven days, with the best since its last silence of over seven days and the time of its last share; at most 21, best first, each ranked below the strictly better ones; nobody left out who beats one shown; and exactly when the query fails |
| `TopRows.StaleIgnored` | reward-service/internal/leaderboard/service.go:171-196 | stale shares and those of other rounds change no reply |
| `Top21.OutOfRangeExample` | infra/patch-stratum.py:319 | one share of difficulty 10^20 leaves the cast error as the only reply |
| `Top21.ScanFailedExample` | reward-service/internal/leaderboard/service.go:215-225 | one recent share without a difficulty leaves the scan error as the only reply |
| `Top21.ReplyExists` | reward-service/internal/leaderboard/service.go:165-207 | there is a reply for every table |
| `Rounds.Database.RecordUnconfirmedBlock` | reward-service/internal/leaderboard/service.go:276-299 | an unconfirmed row for a known round and a new hash, or nothing, also when the leaderboard query before it fails |
| `Rounds.SnapshotStopsIff` | reward-service/internal/leaderboard/service.go:277-280 | that query stops every block of a round if and only if the round has a best beyond BIGINT or an active address without a current difficulty |
| `Rounds.Database.ConfirmBlock` | reward-service/internal/leaderboard/service.go:305-345 | both paths of a confirmation on a transaction's own copy, for a commit that applies, rolls back, or loses its acknowledgement |
| `Rounds.Database.MarkOrphaned` | reward-service/internal/leaderboard/service.go:368-374 | the row is flagged, under the same three outcomes |
| `Rounds.Database.GetUnconfirmedBlocks` | reward-service/internal/leaderboard/service.go:348-365 | lists exactly the unresolved blocks, each once, oldest first |
| `Rounds.RecordedInv` | reward-service/internal/db/schema.sql:10-27 | recording keeps the table invariant: one open round, closed rounds named by their own confirmed block, nothing confirmed and orphaned, hashes unique |
| `Rounds.OrphanedInv` | reward-service/internal/leaderboard/service.go:368-374 | orphaning an unresolved block keeps it |
| `Rounds.ConfirmedInv` | reward-service/internal/leaderboard/service.go:305-345 | confirming an unresolved block keeps it, on both paths |
| `Rounds.ReportsOpenIff` | reward-service/internal/leaderboard/service.go:317-344 | the reported round is open if and only if the block's own round was |
| `Rounds.RoundsCounted` | reward-service/internal/leaderboard/service.go:329-339 | opened rounds are one more than rounds with a confirmed block |
| `Confirmation.PoolHandler.BlockFound` | reward-service/cmd/server/main.go:88-124 | if the snapshot, the insert, the cached round and the hash allow it, a block row unconfirmed under the cached round and the signal in the channel; otherwise nothing happens |
| `Confirmation.PoolHandler.CheckConfirmations` | reward-service/cmd/server/main.go:168-219 | tables, cached round, leaderboard cache and pending count after a poll are those of the specified sweep over exactly the unresolved blocks |
| `Confirmation.SweepDecides` | reward-service/cmd/server/main.go:175-217 | after a sweep a listed block is confirmed exactly if the node reported at least two confirmations, orphaned exactly if it reported a negative number, unless the transaction was rolled back; nothing else of any block changes |
| `Confirmation.SweepCounts` | reward-service/cmd/server/main.go:174-217 | the pending count is the number of listed blocks for which no such answer was taken in and acknowledged |
| `Wakeup.SweepIsRun` | reward-service/cmd/server/main.go:168-219 | the handler's poll is one of the interleavings of the step model |
| `Wakeup.BlockFoundIsRun` | reward-service/cmd/server/main.go:88-124 | so is its call for a found block: recorded under the cached round with a signal left, or nothing changed |
| `Wakeup.RoundLifecycle` | reward-service/cmd/server/main.go:88-219 | in every state every interleaving reaches, with any answers, outcomes and restarts: one open round, closed rounds named by their own confirmed block, none confirmed and orphaned, rounds counted |
| `Wakeup.InvNext` | reward-service/cmd/server/main.go:88-219 | each step keeps the tables, the rest of the sweep and the finders consistent |
| `Wakeup.NoLostWakeup` | reward-service/cmd/server/main.go:129-163 | with successful startup queries an unresolved block always has someone left to act on it; idle on an empty channel with nobody about to signal means nothing is unresolved |
| `Wakeup.AwakeStaysIff` | reward-service/cmd/server/main.go:129-163 | a step leaves an unresolved block with nobody to act on it if and only if it is a startup query that fails while such a block has no signal waiting and no finder about to signal |
| `Wakeup.StrandedByFailedStartup` | reward-service/cmd/server/main.go:131-137 | a run that does this: a crash between insert and signal, then a failed startup query |
| `Wakeup.CachedStaysOpenIff` | reward-service/cmd/server/main.go:199-209 | a step keeps the cached round open if and only if it neither confirms a second block of a closed round nor loses the answer of the confirmation that closed the open one |
| `Wakeup.CachedIsTheOpenRound` | reward-service/cmd/server/main.go:199-209 | in runs without those steps the cached round, or the id about to be stored, is the unique open round |
| `Wakeup.SecondBlockCachesClosedRound` | reward-service/internal/leaderboard/service.go:317-327 | two confirmed blocks of one round leave the handler caching the closed round |
| `Wakeup.LostAnswerCachesClosedRound` | reward-service/internal/leaderboard/service.go:341-344 | so does a confirmation whose answer is lost after the commit, with no block left to correct it |
| `Shares.Service.BufferShare` | reward-service/internal/leaderboard/service.go:69-77 | appends at the end, or refuses a share without difficulty |
| `Shares.Service.Columns` | reward-service/internal/leaderboard/service.go:102-120 | the columns are the pending shares row by row, ports cut to 32 bits, and the keys are exactly the distinct workers |
| `Shares.RowsAre` | reward-service/internal/leaderboard/service.go:111-119 | a row holds the share's own round, address, worker and difficulties, and the low 32 bits of its port, which are the port where it fits |
| `Shares.Service.FlushShares` | reward-service/internal/leaderboard/service.go:92-158 | the buffer is emptied whatever happens; its shares reach the tables all together or not at all; the worker upsert never meets a repeated key |
| `Shares.FlushedAre` | reward-service/internal/leaderboard/service.go:130-155 | an applied flush adds one row for each share and gives exactly the workers of its shares the time of the flush |
| `ShareFlow.AppendIsBufferShare` | reward-service/internal/leaderboard/service.go:69-77 | an append of the step model is BufferShare with the round the call read |
| `ShareFlow.FlushIsRun` | reward-service/internal/leaderboard/service.go:92-158 | a swap and the landing of its batch are FlushShares on buffer and tables |
| `ShareFlow.EveryShareOnce` | reward-service/internal/leaderboard/service.go:69-158 | in every interleaving each accepted share is in exactly one place once: buffer, flush in flight, applied flush, failed flush; it carries the round its call read; and the tables hold exactly the rows and workers of the applied ones |
| `ShareFlow.RowsOnce` | reward-service/internal/leaderboard/service.go:131-135 | a row is in the shares table exactly as often as accepted shares with that row have had their flush applied |
| `ShareFlow.CommittedOnce` | reward-service/cmd/server/main.go:65-83 | a share whose flush is applied has been stored exactly once ever after, and the table holds a row with the round read by its call and its own address, worker, difficulties and 32-bit port |
| `Wire.IsValidBtcAddress` | datum-gateway/src/datum_reward_socket.c:35-59 | accepts exactly 1 to 90 alphanumeric characters |
| `Wire.ScanObject` | datum-gateway/src/datum_reward_socket.c:116-178 | one object, with every way it can be malformed |
| `WireScan.ObjectParsed` | datum-gateway/src/datum_reward_socket.c:116-178 | an object is accepted only where both keys, the quotes, the colon, a value and the closing brace are first found, with 1 to 90 characters between the quotes |
| `WireScan.ObjectFound` | datum-gateway/src/datum_reward_socket.c:116-178 | and wherever they are: the address between the quotes, the number at the value, and scanning goes on behind the brace |
| `WireScan.AtollIs` | datum-gateway/src/datum_reward_socket.c:160-166 | white space, a sign and decimal digits give their value, cut off at the ends of the signed 64-bit range |
| `WireScan.ParseLaid` | datum-gateway/src/datum_reward_socket.c:73-183 | any text with the key, the bracket and printed outputs with any separators between them gives the outputs in order, at most 30; fewer must be followed by the closing bracket or the end, or all is refused |
| `WireScan.KeyNeeded` | datum-gateway/src/datum_reward_socket.c:80-95 | nothing is accepted without the key and the bracket behind it |
| `Wire.ParseCoinbaseResponse` | datum-gateway/src/datum_reward_socket.c:73-183 | ends on every string, stores at most 30 outputs, and returns what the specified scanner finds |
| `WireRoundTrip.NumberRead` | datum-gateway/src/datum_reward_socket.c:161-168 | a printed 64-bit amount is read back, sign included |
| `WireRoundTrip.ObjectRoundTrip` | datum-gateway/src/datum_reward_socket.c:116-178 | a printed object is read back, and the scanner stands behind it; no earlier match of a key is possible |
| `WireRoundTrip.PrintParse` | reward-service/internal/socket/server.go:161-166 | scanning the printed answer returns the same outputs in order, up to the first 30 |
| `WireScan.PrintOutputIs` | reward-service/internal/socket/server.go:161-166 | a printed output, character by character: keys, address, and the digits of the amount without leading zeros |
| `WireScan.PrintIs` | reward-service/internal/socket/server.go:161-166 | a printed list: brackets and commas around its outputs, and the newline |
| `Payout.BuildOutputs` | reward-service/internal/coinbase/builder.go:41-103 | finder, equal slots, pool, in order; the final check cannot panic |
| `Payout.OutputsAre` | reward-service/internal/coinbase/builder.go:57-97 | the finder gets the cut, each of the first 21 ranked miners one twenty-first of what two cuts leave, the pool's address the rest |
| `Payout.OutputsSum` | reward-service/internal/coinbase/builder.go:90-100 | the outputs add up to exactly subsidy plus fees, whatever the 2.1% was rounded to |
| `Payout.PoolShare` | reward-service/internal/coinbase/builder.go:63-65 | the pool gets its cut, the unfilled slots and under 21 satoshis of dust |
| `EndToEnd.TextCarriesOutputs` | datum-gateway/src/datum_coinbaser.c:972-993 | through printing, scanning and conversion the gateway pays the very outputs the service computed |
| `EndToEnd.ServicePaysThrough` | datum-gateway/src/datum_coinbaser.c:972-1046 | from 312500000 satoshis up, the reassembled coinbase decodes as: the cut to the finder's script, a twenty-first of what two cuts leave to each of the first 21 ranked miners', the rest to the pool address', the dummy and the commitments; together the coinbase value |
| `EndToEnd.ServiceRefusedBelow` | datum-gateway/src/datum_coinbaser.c:972-996 | below the subsidy the gateway refuses and falls back |
| `Arena.TemplateData.LoadTransaction` | datum-gateway/src/datum_blocktemplates.c:277-344 | one transaction: its descriptor, its two copies and the new tallies, or a refusal before anything is written past the slot |
| `Arena.TemplateData.LoadTransactions` | datum-gateway/src/datum_blocktemplates.c:270-345 | accepted if and only if every entry kept is complete and the data ends inside the slot; then descriptors, copies and tallies are those of the first 16383 transactions; the descriptor table is never written over |
| `Arena.RegionsApart` | datum-gateway/src/datum_blocktemplates.c:328-338 | in every accepted template the two regions of every transaction are behind the table, inside the slot, and apart from all others |
| `Arena.OffsetIs` | datum-gateway/src/datum_blocktemplates.c:330-332 | what the transactions occupy, in closed form |
| `Arena.TotalsAre` | datum-gateway/src/datum_blocktemplates.c:341-343 | the tallies are the sums of the transactions' own weights, sizes and signature operations |
| `Arena.BlockFits` | datum-gateway/src/datum_blocktemplates.c:102-117 | a template of at most 16383 transactions adding up to a block always fits its slot |
| `Arena.TruncatedFitsIff` | datum-gateway/src/datum_blocktemplates.c:270-276 | a truncated template fits if and only if the table space of the entries beyond the limit is still free |
| `Arena.TruncatedRefusedExample` | datum-gateway/src/datum_blocktemplates.c:270-276 | for any descriptor size, a list of empty transactions whose truncation is refused |
| `Arena.ReadsBack` | datum-gateway/src/datum_blocktemplates.c:283-338 | each kept transaction has its number from 1, its ids, fee, signature operations and weight, and both copies are the transaction the node printed, in binary and as text ended by a zero |
| `TemplateRing.Ring.GetNextTemplate` | datum-gateway/src/datum_blocktemplates.c:124-149 | clears the next slot, hands it out and moves on, wrapping at the end; the other slots are left alone |
| `TemplateRing.Ring.ParseTransactions` | datum-gateway/src/datum_blocktemplates.c:151-348 | so a template's transactions are always loaded into a cleared slot, with the outcome of LoadTransactions, and no other slot or its memory changes |
| `TemplateRing.NoEarlyReuse` | datum-gateway/src/datum_blocktemplates.c:134-149 | a slot comes round again after exactly as many calls as there are slots, and between two uses every other slot is handed out once |

## Left out

- Buffers of the gateway: coinb1 and coinb2 grow without bound here; their array sizes are in datum_stratum.h, which is not part of this model.
- Coinbase.GenerateSubtype: works on the bytes rather than their hex digits, so an index here is half of one there; `HexRoundTrip` is the connection.
- CoinbaseTypes.GenerateType: generates one type at a time, where the gateway advances six pairs of indices side by side.
- The subsidy-only coinbase (datum_coinbaser.c:637-658, 686-691) and generate_base_coinbase_txns_for_stratum_job, which repeat the empty layout.
- datum_coinbaser_v2_parse, which the reward-service path bypasses.
- append_UNum_hex, append_bitcoin_varint_hex, uchar_to_hex and addr_2_output_script are not part of this model: the height is a BIP 34 script number, counts are minimal, and decoding an address is a map from addresses to scripts.
- ScriptSig.InputReads: heights from 1; the configuration strings are bytes without a terminating zero.
- Budget.FitToTemplate: template figures are signed integers without bound; with unsigned fields a negative difference would shift to a large number at datum_coinbaser.c:338. Their types are in datum_blocktemplates.h, which is not part of this model.
- CoinbaseSize.BlockWithinIff: block size and weight are those of BIP 141 for one 32-byte witness item; the assembly of the block itself is in datum_stratum.c.
- PersonalTwo.PersonalTwoReads: one family of readable halves behind type 2; it does not say which others there are. PersonalFit.PersonalOverclaims covers values below 5 * 2^32 - 1 satoshis.
- PersonalShares.SharePays: assumes answers whose payable amounts do not add up to 2^64 or more, and the scriptSig layout; PersonalFit treats the others.
- CoinbaseLimits.SafeTemplateIff: for types 3 and 4, whose count may take three bytes, RoomForAll and NoRoomForWorst leave two bytes between them.
- PersonalProtocol.MinerData.SendMiningNotify: building a half, and cutting the miner's address out of the user name for it, is an input of the step, which PersonalShares then takes from GeneratePersonalCoinb2; the coinbase type of a miner does not change within a session; an id is its eight-digit stamp as a number, its six-character suffix and its prefix letter; datum_stratum.c, which calls it, is not part of this model.
- PersonalProtocol.RebuiltExactly: speaks of the second half only; filling a job also generates the first halves anew.
- Leaderboard.QueryIsFold: time zones, and the precision of INTERVAL beyond microseconds.
- Top21.QueryIsBest21: assumes the cast is evaluated for every group of the inner query, which SQL leaves open for groups the join discards, and the default NULLS FIRST of a descending order.
- buildSnapshot and the JSON columns of a block; timestamps of rounds; heights, finders and fees of blocks.
- Wakeup.RoundLifecycle: the leaderboard refresh races with a confirmation only over the cached top 21, which is not part of the step model.
- Wakeup.NoLostWakeup: a safety statement; that the ticker fires and the node answers in the end is not modelled.
- Shares.Service.FlushShares: true difficulties are taken as the integers the NUMERIC column stores; the pool's connections and the time-out of the last flush are one of the three outcomes.
- Payout.BuildOutputs: the floating-point 2.1% is a parameter, any amount whose double is at most the total.
- Wire.ParseCoinbaseResponse: atoll saturates where C leaves overflow undefined; a NULL argument, and a nil list printed as null, are not modelled.
- Injector.Inject: double SHA-256 and the merkle value are a parameter, so nothing is claimed about the root; a legacy transaction without inputs is read as segwit and is excluded.
- Arena.TemplateData.LoadTransactions: descriptors are a list beside the slot's bytes, with the size of one as a parameter; sizes and limits of datum_blocktemplates.h are parameters; fields other than transactions are left out, and so are the fixed-width id texts.
- The solo handler, sockets, time-outs, cURL, RPC transport, the database driver, the web directory and the deployment scripts.

# Miner firmware: verified models

Dafny models of the parts of the mining firmware, and of its update tool, whose correctness is
not evident from reading one function: schedulers and protocols over whole runs, codecs and
integrity checks, numeric kernels, and searches over adversarial inputs. `dafny verify
dfyconfig.toml` checks everything.

Code that changes state step by step is modelled as methods over arrays, loops and class
fields. Each such method is proved equal to a function of its inputs and the old state, and the
properties are lemmas about that function. Bus transfers, clocks, memory allocation and
register reads are parameters that may take any value. Integer widths and truncation are
written out where they matter; floating point is modelled over exact reals.

| module | what it models |
|---|---|
| PoolScheduler, PoolWeights | the slice scheduler that divides hashing time between up to four pools, and the weights it is given |
| WorkQueue, JobPipeline | the bounded job queue, the ASIC slot table, and the ownership of jobs across tasks |
| StaleWork | the notifications jobs are made of, and what is left of a pool's old work when it is abandoned |
| StratumRx | reassembly of newline-terminated messages from reads of any size |
| Crc5, Xxtea, Eeprom | the serial checksum in both forms, the block cipher, and the board record built on them |
| OtaTool | the update container: packing, pad recovery, pad validation, the verdict on an image |
| Scrypt | the memory-hard core, against RFC 7914 |
| PdLadder, Derating | the USB-PD voltage ladder, and what a contract leaves of frequency and core voltage |
| CoreVoltage | the core voltage from stored settings through boot, derating, trimming and live requests, and what the regulator's driver lets through |
| Pll, FrequencyRamp | the divider search and the frequency ramps |
| History | the sample ring and bucketed queries |
| Slinear11 | PMBus LINEAR11 words |
| Common, IntMath, RealMath, Bits, Hexadecimal, LittleEndian, Strings | what they share: arithmetic, bitwise operations on naturals and what they do to the number, words as digits and as bytes, byte-string search |

## What the proofs found

Each of these is a lemma that gives the exact condition, and where it helps a second one with a
concrete case. The model follows the code.

- The record checksum of the EEPROM counts bits where bytes were meant. Of damage to five
  consecutive bits of the record in the clear the check notices exactly that which touches one of
  the first 63 bits or the checksum; the rest of the record, the serial number included, is
  unprotected (`Eeprom.NoticedIff`, `Eeprom.CheckBlindElsewhere`). On the device the page is
  enciphered as one block, and damage to it spreads.
- Updating the serial number reports success without looking at the page write
  (`Eeprom.SuccessMeans`).
- The update tool promises not to judge an image it could not decode. It calls an intact
  application image corrupt exactly when the payload uses one of the last two pad bytes and
  recovery guessed it wrong (`OtaTool.IntactMisjudgedIff`).
- USB-PD bring-up can fail, log that the output is disabled, and leave it on
  (`PdLadder.FailsWithOutputOnIff`); with an adapter that grants each request in the time the code
  waits for it, exactly when it supports two voltages or more and is too weak at the highest
  (`PdLadder.CompliantFailsIff`). Its caller then reports the hashboard as unpowered
  (main/device.c:404-407).
- The voltage ceiling holds on every model, whatever is stored and in every run, as long as the
  image is built with a least voltage within it: initialising the regulator writes that one
  unchecked (`CoreVoltage.CeilingHoldsIff`; main/Kconfig.projbuild:29-40 admits 1.50 V over a
  ceiling of 1.30 V).
- The regulator's driver can refuse to power the board up, and success is reported: where the
  stored startup voltage is over the range and no USB-PD contract holds it down, where it is under
  the range and nothing else stored is usable, or where a contract holds the board below the range
  (`CoreVoltage.PowerUpRefusedIff`, which admits requests and power cuts on the way;
  `CoreVoltage.StoredStartupRefused` and `CoreVoltage.DeratedStartupRefused` are instances).
- What a USB-PD contract derates the core voltage to holds until someone asks for a voltage
  (`CoreVoltage.DeratedHolds`), and can then be lifted again unless the model's ceiling and least
  voltage are no higher (`CoreVoltage.DeratedSurvivesIff`).
- Trimming after start stops for good at the ten-thousandth pass, reached or not
  (`CoreVoltage.TrimmingEndsIff`).
- docs/DUAL-POOL.md says that pool A's share is the slider and that weights of other pools
  cannot take from it; they can (`PoolWeights.SliderHoldsIff`).
- The receive cap is described as the longest line accumulated, 16384 bytes. A line longer than
  15360 may be refused, depending on how it is cut into reads (`StratumRx.CapTripsIff`); and
  bytes after a zero in a read are lost (`StratumRx.NothingLostIff`).
- Abandoning a pool's work misses a job that the builder has made and not queued yet, one that the
  ASIC task has in hand at that moment, and one that the builder makes meanwhile of the
  notification it still holds (`JobPipeline.AbandonedIff`). Such a job can still be sent, and then
  its nonces count (`JobPipeline.EscapeCounts`). Even when none of this happens, old work is done
  with only once the builder no longer holds the old notification: until it fetches the next one
  it can go on making jobs of it that are scored (`StaleWork.AbandonedForGoodIff`).
- Real values from 2048 on spill out of the LINEAR11 mantissa; up to 4096 they read back
  negative (`Slinear11.ReadsBackIff`, `Slinear11.SpillsNegative`).

## Model

| member | source | states |
|---|---|---|
| PoolScheduler.HolderHasLargestClaim | components/dual_pool/pool_scheduler.c:29-35 | the pool that takes a slice has the largest accumulator after earning, and a tie goes to the lower-numbered pool |
| PoolScheduler.SumStaysZero | components/dual_pool/pool_scheduler.c:21-39 | in every run, after every slice, the accumulators sum to zero |
| PoolScheduler.AboveMinusTotal | components/dual_pool/pool_scheduler.c:21-39 | in every run each accumulator stays strictly above minus the total |
| PoolScheduler.OwedIsEarnedLessServed | components/dual_pool/pool_scheduler.c:21-39 | an accumulator is exactly what the pool earned less what it was served: slices times weight, minus wins times total |
| PoolScheduler.ExactCycle | components/dual_pool/pool_scheduler.c:6-20 | after as many slices as the weights add up to, all accumulators are zero and each pool has won exactly its weight |
| PoolScheduler.Periodic | components/dual_pool/pool_scheduler.c:21-39 | the schedule repeats with that period, from any slice on |
| PoolScheduler.EveryWindowIsFair | components/dual_pool/pool_scheduler.c:6-20 | every window of total consecutive slices, wherever it starts, gives each pool exactly its weight |
| PoolScheduler.ZeroWeightNeverServed | components/dual_pool/pool_scheduler.c:21-39 | a pool without weight never holds a slice |
| PoolScheduler.ScalingChangesNothing | components/dual_pool/include/pool_scheduler.h:40-42 | multiplying all weights by a constant leaves the schedule unchanged, slice by slice |
| PoolScheduler.LagAmong | components/dual_pool/pool_scheduler.c:25-38 | in every run any group of k among n pools that include all those with weight is owed on average at most total times (1/(k+1) + ... + 1/n) |
| PoolScheduler.HarmonicLag | components/dual_pool/pool_scheduler.c:25-38 | the same among all n pools |
| PoolScheduler.OneIsOwedAtMost | components/dual_pool/pool_scheduler.c:25-38 | no pool is ever owed more than total times (1/2 + ... + 1/m), m being the number of pools with weight |
| PoolScheduler.PoolLag | components/dual_pool/pool_scheduler.c:9-14 | with up to four pools none trails its exact entitlement by more than 13/12 of a slice, 5/6 where three have weight, half where two have, none where one has, and none leads by a whole one |
| PoolScheduler.CatchUpLands | components/dual_pool/pool_scheduler.c:95-100 | catching up ends on the slice that contains the present time, with the accumulators of that many slices |
| PoolScheduler.PollingIndependence | components/dual_pool/pool_scheduler.c:86-102 | whatever the calls in between, even with times that step back, the state is that of one catch-up call at the latest time |
| PoolScheduler.EffectiveWeightsUsable | components/dual_pool/pool_scheduler.c:46-69 | whatever is asked for, including nothing and all zeros, the weights in play can be scheduled and number at most four |
| PoolScheduler.EffectiveWeightsAre | components/dual_pool/pool_scheduler.c:46-69 | they are those of the pools asked for, up to four, or of the first alone if none is asked for; with nothing to share out, or a null pointer, the first pool has it all |
| PoolScheduler.AccumulatorRange | components/dual_pool/include/pool_scheduler.h:26-30 | with 8-bit weights the accumulators stay between -1020 and 1105, so the 32-bit fields cannot overflow |
| PoolScheduler.TwoPoolShare | components/dual_pool/include/pool_scheduler.h:51-61 | the two-pool entry gives pool A exactly its percentage of any hundred consecutive slices |
| PoolScheduler.Scheduler.TakeWeights | components/dual_pool/pool_scheduler.c:53-58 | copies the weights in play and totals them; a null pointer counts as zeros |
| PoolScheduler.Scheduler.InitN | components/dual_pool/pool_scheduler.c:41-75 | initialises to the effective weights, the clamped interval and a fresh run |
| PoolScheduler.Scheduler.Init | components/dual_pool/pool_scheduler.c:77-84 | initialises two pools from a clamped percentage |
| PoolScheduler.ClampsKeep | components/dual_pool/dual_clamp.c:3-15 | a percentage from 0 to 100 and a slice from 100 to 60000 ms are kept, and anything else goes to the nearest end |
| PoolScheduler.Scheduler.AdvanceSlice | components/dual_pool/pool_scheduler.c:21-39 | the loops over the accumulators perform exactly one slice of the run |
| PoolScheduler.Scheduler.Select | components/dual_pool/pool_scheduler.c:86-102 | the catch-up loop, on truncated milliseconds, terminates and performs exactly the polls of the run |
| PoolWeights.BuildPoolWeights | main/tasks/create_jobs_task.c:61-105 | the loops build the weights from slider, hosts and stored weights, clamped |
| PoolWeights.BuiltUsable | main/tasks/create_jobs_task.c:61-105 | whatever is stored, the weights built are schedulable as they are |
| PoolWeights.SliderHoldsIff | docs/DUAL-POOL.md:39-44 | pool A's share of every cycle is the slider's percentage if and only if the slider is zero, or the others' weights add up to what it leaves, or none is set and the rest divides evenly |
| PoolWeights.WeightTakesFromPoolA | docs/DUAL-POOL.md:54-56 | slider 50 and a weight of 100 for pool B: pool A gets a third |
| WorkQueue.WorkQueue.constructor | main/work_queue.c:5-13 | an empty queue |
| WorkQueue.WorkQueue.Enqueue | main/work_queue.c:15-30 | appends at the tail of a queue that is not full |
| WorkQueue.WorkQueue.Dequeue | main/work_queue.c:32-49 | removes the head |
| WorkQueue.WorkQueue.DequeueTimeout | main/work_queue.c:51-81 | removes the head, or gives null and changes nothing if the queue stays empty |
| WorkQueue.WorkQueue.Clear | main/work_queue.c:142-158 | empties the queue and frees exactly its jobs, in order |
| WorkQueue.WorkQueue.ClearPool | main/work_queue.c:107-140 | leaves exactly the other pools' jobs in order and frees exactly the pool's |
| WorkQueue.WorkQueue.Drain | main/work_queue.c:114-126 | the first loop: separates what to keep from what is freed |
| WorkQueue.KeptIs | main/work_queue.c:99-106 | clearing a pool leaves every other pool's jobs as they were, in order, none of its own, and frees exactly its own |
| JobPipeline.SlotTable.SendWork | components/asic/bm1370.c:395-433 | takes the next id, fills slot, validity and owner, and hands back the displaced job |
| JobPipeline.SlotTable.InvalidatePool | main/tasks/stratum_poolb_task.c:305-310 | clears the validity of exactly the slots one pool owns |
| JobPipeline.SlotTable.InvalidateAll | main/tasks/stratum_task.c:110-118 | clears the validity of all slots |
| JobPipeline.SlotTable.Resolve | main/tasks/asic_result_task.c:66-74 | what a returned id byte is scored against: the slot's job if valid, else nothing |
| JobPipeline.EveryRunConserves | main/work_queue.c:107-140 | in every interleaving, the jobs in the builder's hand, queued, in the ASIC task's hand, in slots, displaced and freed are together exactly the jobs made |
| JobPipeline.ExactlyOnePlace | components/asic/bm1370.c:412-433 | in every interleaving each job is in exactly one of these places, once; so none is freed twice |
| JobPipeline.EveryRunTracks | components/asic/bm1370.c:421-429 | in every interleaving each slot holds the job last sent under its id, its recorded owner is that job's pool, and only an occupied slot is valid |
| JobPipeline.LastOfSixteen | components/asic/bm1370.c:400-402 | ids repeat after sixteen sends and not before, so a job survives the next fifteen |
| JobPipeline.EchoNamesSlot | components/asic/bm1370.c:473-478 | the id byte that comes back decodes to the id sent, whichever of the sixteen small cores found the nonce |
| JobPipeline.CountsIff | main/tasks/stratum_poolb_task.c:305-310 | in every run, the slot of a job with at most fifteen later sends is valid if and only if neither all slots nor those of its own pool have been discounted since: discounting one pool leaves the others alone |
| JobPipeline.NonceResolves | main/tasks/asic_result_task.c:42-74 | a nonce for a job with at most fifteen later sends resolves to that very job, unless all slots or those of its own pool have been discounted since it was sent, and then to nothing; and never to a freed job |
| JobPipeline.HeldNotFreed | components/asic/bm1370.c:412-420 | a job in a slot is not with the builder, queued, in hand, displaced or freed |
| JobPipeline.SentInOrder | main/work_queue.c:107-140 | whatever was cleared in between, jobs reach the ASIC in the order made, and none twice |
| JobPipeline.AbandonedIff | main/tasks/stratum_poolb_task.c:292-313 | dropping a pool's queued jobs and then invalidating its slots, whatever other tasks do in between (dropping them once more counts as starting afresh), abandons all its work if and only if neither the builder nor the ASIC task has one of its jobs in hand and the builder makes none in between |
| JobPipeline.EscapeCounts | components/asic/bm1370.c:395-433 | any given job with the builder, queued or with the ASIC task, its pool abandoned or not, can be sent by the tasks just going on, and then its nonces are scored |
| JobPipeline.GoneForGood | main/tasks/stratum_poolb_task.c:292-313 | abandoned work does not come back until the builder makes more |
| JobPipeline.GoneNeverScored | main/tasks/stratum_poolb_task.c:292-313 | after that no id byte resolves to a job of the pool |
| StaleWork.OldStaysGone | main/tasks/create_jobs_task.c:253-289 | work of old notifications that is neither under way nor counting, with none of them queued or held, stays gone whatever comes, new work included |
| StaleWork.HeldCounts | main/tasks/create_jobs_task.c:353-358 | as long as the builder holds a notification, it can make a job of it that comes to be scored |
| StaleWork.QueuedKeepsNewest | main/tasks/stratum_poolb_task.c:338-347 | a notify queue keeps at most twelve, the newest |
| StaleWork.OldNeverScoredIff | main/tasks/create_jobs_task.c:253-358 | at any time of any run, no nonce will ever be scored for work of a pool's earlier notifications, whatever comes, if and only if none of it is under way or counts and the builder neither holds one of them nor has one queued for it |
| StaleWork.AbandonedForGoodIff | main/tasks/stratum_poolb_task.c:324-347 | when a pool's work has been abandoned and nothing of it is under way, it is done with for good if and only if the builder holds no notification of the pool |
| StratumRx.RxContext.EnsureBuffer | components/dual_pool/stratum_recv_ctx.c:70-83 | allocates an empty accumulator if there is none and memory allows |
| StratumRx.RxContext.DropBuffer | components/dual_pool/stratum_recv_ctx.c:85-90 | leaves no accumulator |
| StratumRx.RxContext.Realloc | components/dual_pool/stratum_recv_ctx.c:24-41 | makes room for so many more bytes, in whole steps, keeping the string |
| StratumRx.RxContext.TakeLine | components/dual_pool/stratum_recv_ctx.c:49-68 | cuts off the first complete line, if any, and keeps what follows |
| StratumRx.RxContext.PollLine | components/dual_pool/stratum_recv_ctx.c:92-147 | one poll does exactly what the function on strings says, for every answer of the transport |
| StratumRx.RxContext.ReceiveLine | components/dual_pool/stratum_recv_ctx.c:149-168 | the blocking form ends with the first poll that is not idle |
| StratumRx.AwaitEnds | components/dual_pool/stratum_recv_ctx.c:156-167 | waiting ends with the first poll that is not idle, after each of those before it in turn, and goes on as long as there is none |
| StratumRx.PollKeepsOk | components/dual_pool/stratum_recv_ctx.c:24-41 | the string stays shorter than its allocation, which is a whole number of 1024-byte steps and at most one above the cap |
| StratumRx.EveryRunConserves | components/dual_pool/stratum_recv_ctx.c:92-147 | in every run the lines delivered, each with its newline, then the accumulator, are exactly the bytes seen since the connection was opened |
| StratumRx.NothingLostIff | components/dual_pool/stratum_recv_ctx.c:143-144 | the bytes seen are the bytes read if and only if no zero byte was read |
| StratumRx.DeliversLines | components/dual_pool/stratum_recv_ctx.c:49-68 | the lines delivered are the first lines of the stream and the accumulator holds the others |
| StratumRx.ChunkingIndependence | components/dual_pool/include/stratum_recv_ctx.h:36-37 | for a stream without zero bytes, however it is cut into reads: once drained, exactly its lines have come out and exactly its rest is held |
| StratumRx.CapTripsIff | components/dual_pool/stratum_recv_ctx.c:20-22 | a stream can be read so that the cap refuses it if and only if it has a line over 15360 bytes with 16384 bytes of stream from its start |
| StratumRx.SafeLinesNeverTrip | components/dual_pool/stratum_recv_ctx.c:125-140 | a stream whose lines are all at most 15360 bytes is never refused |
| StratumRx.ErrorIff | components/dual_pool/stratum_recv_ctx.c:98-140 | a poll gives the connection up if and only if there is neither accumulator nor memory for one, or no line is left over and the read fails or brings more than fits under the cap |
| StratumRx.QuietKeeps | components/dual_pool/stratum_recv_ctx.c:121-124 | however long nothing comes, waiting stays idle and keeps what has come of a line |
| StratumRx.SmoothRunKeepsAll | components/dual_pool/stratum_recv_ctx.c:112-147 | with memory, no failed read and no line over 15360 bytes, the connection is never given up: it has read every byte taken from the transport since the first poll |
| StratumRx.SmoothRunDelivers | components/dual_pool/stratum_recv_ctx.c:92-147 | and once none is left over, exactly the lines of all those bytes have come out, whatever the pauses; save for what a zero byte hides |
| Crc5.FeedByte | components/asic/crc.c:12-20 | one byte through the byte-serial loop |
| Crc5.Crc5 | components/asic/crc.c:6-24 | the byte-serial form computes the checksum of the bytes' bits |
| Crc5.Crc5Bits | components/asic/crc.c:70-102 | the bit-serial form computes the checksum of the first so many bits |
| Crc5.SameOnWholeBytes | components/asic/crc.c:57-65 | the two forms agree when the length in bits is eight times the length in bytes |
| Crc5.CommandChecksum | components/asic/bm1370.c:242-243 | the checksum of a command the source sends with its checksum written out: 0x52 0x05 0x00 0x00 gives 0x0A |
| Crc5.RegisterIsRemainder | components/asic/crc.c:5-24 | the register is the remainder of the message by x^5 + x^2 + 1 over GF(2), preset added, as long division defines it |
| Crc5.FeedLinear | components/asic/crc.c:70-102 | the checksum is linear in message and preset |
| Crc5.ResidueZeroIff | components/asic/common.c:186-191 | a message has residue zero if and only if its last five bits are the checksum of the bits before |
| Crc5.BurstDetected | components/asic/common.c:186-191 | any error confined to five consecutive bits of a message that checks out is detected |
| Crc5.TwoBitErrors | components/asic/common.c:186-191 | two flipped bits go unnoticed if and only if their distance is a multiple of 31 |
| Crc5.ReceiveWorkBm | components/asic/common.c:157-194 | a frame is accepted if and only if its length, preamble and checksum are right, where the length checked is cut to eight bits |
| Crc5.CheckedWholeIff | components/asic/common.c:186-191 | the length checked is the whole one just for frames of less than 258 bytes |
| Crc5.BurstRejected | components/asic/common.c:178-193 | no accepted frame is still accepted after an error within five consecutive bits, in preamble or body |
| Xxtea.EncodePass | components/bc_hal/eeprom.c:52-58 | the forward inner loop, in place, with neighbours wrapping around |
| Xxtea.DecodePass | components/bc_hal/eeprom.c:79-85 | the backward inner loop, in place |
| Xxtea.PassIs | components/bc_hal/eeprom.c:52-58 | a pass mixes each word with the next as it was (the last with the new first) and the one before as it has become (the first with the old last) |
| Xxtea.RoundIs | components/bc_hal/eeprom.c:46-59 | a round adds to each word what is worked out from its number times the constant and the two neighbours as they stand, modulo 2^32 |
| Xxtea.XEncode | components/bc_hal/eeprom.c:34-60 | the in-place loops compute the cipher for every length, including lengths it refuses |
| Xxtea.XDecode | components/bc_hal/eeprom.c:62-90 | the in-place loops compute the inverse rounds, from the product of rounds and constant down |
| Xxtea.RoundTrip | components/bc_hal/eeprom.c:34-90 | decoding undoes encoding and encoding undoes decoding, for every length, content and key |
| Xxtea.KeyedSameIff | components/bc_hal/eeprom.c:32-32 | two keys mix the same into a position, whatever its neighbours, if and only if they agree in word (p & 3) ^ ((sum >> 2) & 3) |
| Xxtea.MxIs | components/bc_hal/eeprom.c:32-32 | the four shifts as quotients by 32 and 8 and products by 4 and 16 modulo 2^32 |
| Xxtea.MxValue | components/bc_hal/eeprom.c:32-32 | the mix of 0x89abcdef, 0x01234567, 0x9e3779b9 and key word 0x616e6764 is 0x5e4e8b3d |
| Xxtea.KeyedValue | components/bc_hal/eeprom.c:46-58 | with the key: in the first round the first word takes the third word of the key |
| Xxtea.RoundsAre | components/bc_hal/eeprom.c:45-45 | six rounds and as many more as make up 52 words: 32 for two words, 9 for the sixteen of a record |
| Xxtea.DeltaIsGolden | components/bc_hal/eeprom.c:31-31 | the constant is the integer part of 2^32 divided by the golden ratio |
| Eeprom.SealOpens | components/bc_hal/eeprom.c:164-164 | a page enciphered from a record opens to it, and the other way round, through bytes and little-endian words |
| Eeprom.CrcSeesFirstBits | components/bc_hal/eeprom.c:144-147 | the record checksum depends on the first 63 bits only |
| Eeprom.CheckBlindElsewhere | components/bc_hal/eeprom.c:144-147 | damage of any kind that spares the first 63 bits and the checksum is never noticed |
| Eeprom.NoticedIff | components/bc_hal/eeprom.c:144-147 | damage to five consecutive bits of a sound record in the clear, wherever it strikes, is noticed if and only if it touches one of the first 63 bits or the checksum |
| Eeprom.SerialUnprotected | components/bc_hal/eeprom.c:144-147 | whatever serial number stands in bytes 32 to 55, the check comes out the same |
| Eeprom.SoundKept | components/bc_hal/eeprom.c:150-281 | a filled cache holds a record that checks out, after any operation |
| Eeprom.UpdateSurvivesRestart | components/bc_hal/eeprom.c:256-281 | a serial number whose page write went through is read back after a restart, and the device holds the cached record |
| Eeprom.SuccessMeans | components/bc_hal/eeprom.c:278-280 | reported success means the number survives a restart if and only if the write went through or the device held it already |
| Eeprom.ReportedIff | components/bc_hal/eeprom.c:256-281 | update and reading report success if and only if the cache was filled or the device could be read and checked out, whatever the write did |
| Eeprom.Driver.ReadData | components/bc_hal/eeprom.c:150-183 | fills the cache if and only if the read succeeds and the record checks out |
| Eeprom.Driver.EnsureLoaded | components/bc_hal/eeprom.c:241-248 | reads the device once, and again only after failure |
| Eeprom.Driver.GetSn | components/bc_hal/eeprom.c:237-254 | gives the cached serial number, loading first |
| Eeprom.Driver.UpdateSn | components/bc_hal/eeprom.c:256-281 | updates cache and page with a fresh checksum, and reports success whatever the write did |
| OtaTool.XorPadTwice | tools/ota_tool.py:41-43 | applying the pad twice at the same offset changes nothing |
| OtaTool.Le32RoundTrip | tools/ota_tool.py:258-258 | the length field reads back as the length, up to 2^32 |
| OtaTool.BuildHeader | tools/ota_tool.py:254-260 | filling the byte array gives the header, or fails for a length that does not fit |
| OtaTool.SplitOfPack | tools/ota_tool.py:234-241 | splitting a packed container gives back type, header and payload as carried |
| OtaTool.UnpackOfPack | tools/ota_tool.py:430-477 | unpacking a packed container with the same pad gives the payload, for both types and every length below 2^32 |
| OtaTool.UnpackRefusesIff | tools/ota_tool.py:438-448 | under any damage to the payload at its length and through any pad: unless forced, unpacking fails if and only if the decoded payload has not the decoded digest, and blames the pad if and only if it is wrong at positions 0 to 13 |
| OtaTool.TruePadUnpacks | tools/ota_tool.py:430-452 | with the true pad the payload comes out as damaged, if forced or if it still has the packed digest, and is a digest mismatch otherwise |
| OtaTool.NoComplaintIff | tools/ota_tool.py:211-231 | a pad draws no complaint if and only if it is right at positions 0 to 13, whatever has become of the payload at its length |
| OtaTool.ComplaintsIff | tools/ota_tool.py:211-231 | the project id is complained of if and only if the pad is wrong at one of positions 0 to 9, the length if and only if it is wrong at one of 10 to 13 |
| OtaTool.KnownPlaintext | tools/ota_tool.py:130-156 | the loops collect exactly the pad bytes the container gives away |
| OtaTool.RecoverPad | tools/ota_tool.py:159-208 | the sorting and settling passes give the recovery the vote buckets determine, position by position |
| OtaTool.RejectedIs | tools/ota_tool.py:188-208 | what is reported of a payload not trusted: at how many positions, one at least, it disagrees with the header, of how many both speak of |
| OtaTool.PadRecoveredIff | tools/ota_tool.py:166-171 | under any damage to the payload at its length, recovery gives exactly the true pad with nothing missing or disputed if and only if the payload still vouches for it |
| OtaTool.IntactPadRecovered | tools/ota_tool.py:106-129 | on an intact container: always for a web payload, and for an application payload if and only if it has 48 bytes and zeros at 40 to 47 |
| OtaTool.DamageCannotUnseat | tools/ota_tool.py:125-128 | under any damage to the payload at its length, pad bytes 0 to 13 come back right and vouched for |
| OtaTool.VerdictWithTruePad | tools/ota_tool.py:377-402 | with the true pad the verdict is OK if the digest matches and MISMATCH over all 32 bytes if not |
| OtaTool.CheckableCount | tools/ota_tool.py:386-402 | with positions 0 to 13 established, 28 of the 32 digest bytes can be checked |
| OtaTool.MismatchMeansHeaderDecodes | tools/ota_tool.py:377-402 | MISMATCH is only ever said through a pad that is right at positions 0 to 13 |
| OtaTool.IntactMisjudgedIff | tools/ota_tool.py:10-12 | an intact application container is called MISMATCH if and only if the payload uses one of the last two pad bytes and recovery guessed it wrong (unless the digest cannot tell the garbled payload apart) |
| OtaTool.IntactCalledCorrupt | tools/ota_tool.py:386-402 | such a container: fifteen zero bytes and a pad of ones, under any digest that tells the payload from the one ending in a one |
| OtaTool.ApprovedAgrees | tools/ota_tool.py:377-402 | under any damage to the payload at its length inspection says OK or MISMATCH, and OK, in full or in part, only if the decoded payload has the packed digest at every position whose pad byte the header gives away |
| OtaTool.IntactWebApproved | tools/ota_tool.py:377-384 | an intact web container is always judged OK in full |
| Scrypt.EightRounds | components/stratum/scrypt.c:164-191 | the interleaved updates of sixteen words are four Salsa20 double rounds |
| Scrypt.XorSalsa8 | components/stratum/scrypt.c:143-209 | exclusive or, eight rounds and the final addition, in place on one of two blocks |
| Scrypt.TwoSalsasMix | components/stratum/scrypt.c:217-218 | the two calls are scryptBlockMix with r = 1 (section 4 of RFC 7914) |
| Scrypt.FillTable | components/stratum/scrypt.c:215-219 | the first loop fills the table with the successive mixes |
| Scrypt.ScryptCore | components/stratum/scrypt.c:211-227 | the two loops compute ROMix of the buffer, for any word arithmetic |
| Scrypt.LowWordSelects | components/stratum/scrypt.c:221-221 | masking one word with N-1 selects what Integerify mod N selects, for every power of two N |
| Scrypt.RotateIs | components/stratum/scrypt.c:165-165 | the rotation is to the left: x times 2^k modulo 2^32, and below it x divided by 2^(32-k) |
| Scrypt.QuarterRoundValues | components/stratum/scrypt.c:166-176 | a quarter round with the 32-bit operations gives the values published with Salsa20 for a lone one in each place, (1, 0, 0, 0) becoming (0x08008145, 0x80, 0x10200, 0x20500000) |
| Scrypt.ColumnsAreRows | components/stratum/scrypt.c:166-190 | the column round is the row round of the transposed matrix |
| Bits.RotIs | components/stratum/scrypt.c:165-165 | or-ing the two shifts adds them up, since they share no digit |
| Bits.DigitOf | components/stratum/scrypt.c:148-165 | the bitwise operations, digit by digit |
| Scrypt.SourceIsRfc | components/stratum/scrypt.c:211-227 | with 32-bit words the source's kernel gives scryptROMix (section 5 of RFC 7914) |
| Scrypt.ScryptCore32 | components/stratum/scrypt.c:211-227 | for every input block and every power of two N the buffer ends as its scryptROMix |
| PdLadder.StepDescends | main/device.c:158-265 | every pass of the loop that does not end it lowers a rank |
| PdLadder.EndsInTime | main/device.c:158-265 | whatever the registers read, negotiation ends within 2526 polls |
| PdLadder.UnconnectedEnds | main/device.c:257-265 | an adapter that never connects is waited for exactly 501 polls, and the output stays off |
| PdLadder.RungWaits | main/device.c:232-254 | a rung that does not come is asked for once and given up after exactly 201 more passes, for the next if there is one |
| PdLadder.ClimbRecords | main/device.c:158-265 | whatever the registers read: voltages asked for are rungs of the ladder the adapter reported, each higher than the last; those recorded as reached were each read by a poll of this run; the output is on just if a rung below the top was reached |
| PdLadder.EveryRungTried | main/device.c:232-254 | if some voltage is known at every poll once connected, every rung of the ladder that was read is asked for or comes unasked, and negotiation ends at the top rung or with none left: a rung not granted does not stop the climb |
| PdLadder.GrantedRungsCome | main/device.c:158-265 | with an adapter that connects in time and grants exactly the voltages of some set within the 200 ticks a rung is waited for, those that come are exactly the rungs in the set, in rising order |
| PdLadder.ComplianceReachesTop | main/device.c:158-265 | with one that grants them all no rung is given up, every one is reached, and negotiation ends at the top of the ladder |
| PdLadder.OutputNeedsMatch | main/device.c:212-230 | the output is on only if polls of this run read a voltage and that the adapter supports it |
| PdLadder.GrantedOutputIff | main/device.c:212-230 | with such an adapter the output is left on if and only if a rung below the top is granted, or the top one with enough current |
| PdLadder.FailsWithOutputOnIff | main/device.c:346-363 | bring-up fails and leaves the output on if and only if a rung below the top was reached and the final contract is too weak |
| PdLadder.CompliantFailsIff | main/device.c:346-363 | with such an adapter bring-up fails and leaves the output on if and only if it supports at least two voltages and its current is too weak at the highest |
| PdLadder.WeakAdapterLeavesOutputOn | main/device.c:212-230 | such a run: 5 V and 9 V granted, the second below 2.22 A |
| Derating.Derated | main/device.c:269-344 | derating raises neither frequency nor voltage |
| Derating.DeratingOrdered | main/device.c:269-344 | of two sufficient contracts the weaker never leaves a higher setting |
| Derating.DeratingLimits | main/device.c:298-338 | the limits by model and power of the contract: a sufficient one leaves no more, and leaves alone what is within them |
| Derating.EnoughIff | main/device.c:274-343 | a contract is enough from 30 W at 15 V, 36 W at 12 V, 19.98 W at 9 V and 15 W at 5 V |
| Derating.NotDerated | main/device.c:274-287 | nothing is derated at 12 V or more, nor on other boards |
| PdLadder.Supported | main/device.c:190-195 | the ladder is the supported voltages, rising, at most four |
| PdLadder.Negotiation.Poll | main/device.c:160-172 | status is read until attached and ready, then protocol and voltage |
| PdLadder.Negotiation.Load | main/device.c:184-210 | the ladder is read once, lowest rung first |
| PdLadder.Negotiation.Reach | main/device.c:212-230 | a reached rung ends the loop at the top, and otherwise switches the output on and moves up |
| PdLadder.Negotiation.Wait | main/device.c:232-254 | asks for a rung once, and gives it up after its time |
| PdLadder.Negotiation.Go | main/device.c:158-265 | one pass of the loop |
| PdLadder.Negotiation.Run | main/device.c:158-265 | the loop terminates and performs the negotiation |
| PdLadder.Board.Derate | main/device.c:269-338 | the branches by voltage and current give the derated setting and whether the contract is enough |
| PdLadder.Board.BringUp | main/device.c:128-364 | a held contract is left alone; otherwise contract, gate and setting are as negotiated, and the output pin stays on once it was on |
| CoreVoltage.Board.ConfigByBootMode | main/system.c:249-361 | the voltage to run on falls back from what is not allowed, is held to the ceiling, and lifts the startup voltage |
| CoreVoltage.ParsedIs | main/nvs_device.c:30-93 | range and, with nothing stored, startup voltage go by the number of chips in series, held to 4.80 V on BC04 and BC08 |
| CoreVoltage.ParsedPro | main/nvs_device.c:75-84 | the range and startup voltage of the BC01-Pro |
| CoreVoltage.ChosenIs | main/system.c:249-361 | an allowed voltage stored for the mode is used, up to the ceiling; else an allowed normal one; what is used is allowed if any of the choices is, and the startup voltage is lifted to it |
| CoreVoltage.NothingStored | main/system.c:249-361 | with nothing stored the board runs on its startup voltage, up to the ceiling |
| CoreVoltage.Board.Init | components/bc_hal/vcore.c:42-98 | gives the driver the model's range, and writes the least voltage if the regulator answers |
| CoreVoltage.Board.SetVout | components/bc_hal/TPS546.c:1195-1240 | lets through zero and what is in range, and refuses the rest |
| CoreVoltage.Board.Tick | main/system.c:1109-1143 | one pass of the system task trims at most once and asks for what it sets |
| CoreVoltage.PauseStartsAfresh | main/system.c:1109-1143 | a pass while not mining only starts the count afresh |
| CoreVoltage.Board.Request | main/http_server/http_server.c:1021-1083 | a request within limits walks there in steps of at most three and asks for each |
| CoreVoltage.WalkGentle | main/http_server/http_server.c:1021-1083 | successive commands of a request are at most three apart, never turn back, and end exactly at the voltage asked for |
| CoreVoltage.RequestedIs | main/http_server/http_server.c:1021-1083 | a request for another voltage within the limits sets both voltages to it, and any other changes nothing |
| CoreVoltage.Board.PowerOn | main/device.c:546-555 | asks for the startup voltage, and reports success whatever the driver says |
| CoreVoltage.Board.PowerOff | main/device.c:577-583 | clears the startup voltage and switches off |
| CoreVoltage.Board.PowerDelivery | main/device.c:269-338 | a contract leaves the startup voltage derated |
| CoreVoltage.Board.Meet | main/device.c:781-847 | whatever happens to a board is one step of the runs the results below are about |
| CoreVoltage.EveryRunUnder | main/device.c:635-652 | in every run nothing is even asked for over the largest of ceiling, startup voltage and least voltage |
| CoreVoltage.NeverOver480 | main/nvs_device.c:30-51 | on BC04 and BC08, whatever is stored and whatever happens, neither set, asked for nor let through over 4.80 V |
| CoreVoltage.EveryRunInRange | components/bc_hal/TPS546.c:1207-1212 | in every run what is let through is zero or in the model's range, or the least voltage |
| CoreVoltage.CeilingHoldsIff | main/device.c:619-652 | on every model and whatever is stored, nothing over the ceiling is let through in any run if and only if the least voltage built in is within it |
| CoreVoltage.PowerUpRefusedIff | main/device.c:781-847 | booting, with any USB-PD contracts, requests and power cuts between configuration and the regulator, leaves the board at the least voltage, refused its startup voltage, if and only if the stored one is over the maximum and no contract holds it down to that, or under the minimum without being zero and nothing else stored is usable, or a contract holds it below the minimum; where a request or a cut has set it, only a later contract can |
| CoreVoltage.StoredStartupRefused | main/nvs_device.c:62-74 | for instance a BC01 with 500 stored, on contracts that do not derate |
| CoreVoltage.DeratedStartupRefused | main/device.c:312-338 | or a BC01 built for at least 1.20 V and set to 1.25 V, on a contract of 9 V |
| CoreVoltage.DeratedHolds | main/device.c:312-338 | after derating, until someone asks for a voltage or reconfigures, nothing over the derated limit is asked for, save a least voltage above it |
| CoreVoltage.DeratedSurvivesIff | main/device.c:312-338 | with requests it survives every run if and only if the model's ceiling and least voltage are within it |
| CoreVoltage.TrimmedIs | main/system.c:1109-1136 | after any number of passes the voltage is three lower for each trim, down to the configured one and not below |
| CoreVoltage.TrimmingEndsIff | main/system.c:1111-1116 | trimming reaches the configured voltage if and only if it starts at most 5928 hundredths above |
| CoreVoltage.TrimmedInTime | main/system.c:1109-1136 | a board under the cap is trimmed exactly to it within 920 passes |
| Pll.GetParameters | components/asic/pll.c:13-60 | the triple loop finds the best setting in the order tried; the feedback divider comes back in eight bits |
| Pll.SearchPostdividers | components/asic/pll.c:24-50 | the two inner loops |
| Pll.FeasibleAtMost | components/asic/pll.c:23-29 | at most forty-two settings are feasible |
| Pll.SearchNearBest | components/asic/pll.c:23-52 | a choice is made if and only if a setting is feasible, and its error is within an EPSILON per other feasible setting of the least |
| Pll.RoundedIsBest | components/asic/pll.c:27-27 | rounding gives the best feedback divider for the other three |
| Pll.NearOptimal | components/asic/pll.c:33-50 | the chosen error is within 41 EPSILON of that of every feasible setting with any feedback divider, though ties do not carry over |
| Pll.TiesBroken | components/asic/pll.c:33-39 | where no two feasible settings have nearly but not quite the same error, the choice has the least error, of those the slowest oscillator, and of those the smallest product of post dividers |
| Pll.EightBitsSuffice | components/asic/pll.c:54-60 | frequency and dividers handed back agree if the feedback divider is held to eight bits |
| FrequencyRamp.Chain.Transition | components/asic/frequency_transition_bmXX.c:14-51 | for any current and target: a ramp towards the target in steps of at most 6.25, by way of whole steps, ending within EPSILON |
| FrequencyRamp.Chain.Climb | components/asic/frequency_transition_bmXX.c:30-43 | the loop over whole steps, up or down, terminates short of the target by less than one |
| FrequencyRamp.RampGoesOneWay | components/asic/frequency_transition_bmXX.c:14-51 | every frequency of a ramp lies between start and target, and they go one way |
| FrequencyRamp.NextIsMove | components/asic/bm1370.c:206-222 | a chip that has not arrived moves towards its target, by exactly 6.25 MHz or all the way |
| FrequencyRamp.Chips.Transition | components/asic/bm1370.c:198-232 | four chips side by side: terminates, and each was sent a ramp of its own that ends within EPSILON |
| FrequencyRamp.Chips.MoveChip | components/asic/bm1370.c:206-222 | one move of one chip |
| History.HistoryIsLast | main/history.c:92-96 | after any run the history is the last 2880 samples |
| History.SampleHolds | main/history.c:44-97 | a sample holds rate and power to the nearest whole one and both temperatures as they are, each in its own field, where they fit |
| History.SampleEnds | main/history.c:44-64 | and the nearest end where they do not; what is not a number counts as none |
| History.WantedSpans | main/history.c:122-128 | as many samples as the window has room for at thirty seconds each, unless fewer are held; but one at least |
| History.History.Tick | main/history.c:66-97 | samples when due and memory allows, and otherwise changes nothing |
| History.History.Store | main/history.c:92-96 | storing in the ring appends, dropping the oldest when full |
| History.BucketIsCeil | main/history.c:137-140 | despite the 32-bit wrap-around the bucket size is the rounded-up quotient, for every point count |
| History.SumsFit | main/history.c:151-169 | no sum over a bucket leaves its 32 bits |
| History.QuotientTruncates | main/history.c:172-178 | the means are truncated towards zero |
| History.MeanFits | main/history.c:172-178 | a mean is a value its field can hold, so the clamps change nothing |
| History.EqualSamples | main/history.c:151-181 | a bucket of equal samples averages to that sample, field by field |
| History.AnswerAverages | main/history.c:122-182 | a query gives at most as many points as asked for, and they are the truncated means of non-empty buckets that partition the newest samples in order |
| History.History.OnePoint | main/history.c:151-181 | the accumulating loop gives the mean of its bucket |
| History.History.Query | main/history.c:112-183 | the loops write exactly the answer; a null output pointer gets no points |
| Slinear11.Int2Slinear11 | components/bc_hal/TPS546.c:208-238 | the loop finds the word of an integer |
| Slinear11.Float2Slinear11 | components/bc_hal/TPS546.c:244-275 | the loop finds the word of a real |
| Slinear11.PackedReads | components/bc_hal/TPS546.c:177-202 | a word reads back as the fields packed into it if and only if the mantissa fits |
| Slinear11.FieldsAre | components/bc_hal/TPS546.c:182-198 | the mantissa of any word is its low eleven bits, the exponent the five above, each in two's complement |
| Slinear11.ToIntTruncates | components/bc_hal/TPS546.c:169-171 | reading as an integer cuts off towards zero, on either side |
| Slinear11.NothingNegative | components/bc_hal/TPS546.c:229-233 | negative values and zero are written as zero |
| Slinear11.IntLoss | components/bc_hal/TPS546.c:208-238 | integers below 1024 are exact; those below 2^25 lose less than a unit and less than a 512th; larger ones are written as zero |
| Slinear11.RealLoss | components/bc_hal/TPS546.c:244-275 | reals from 1/32 up to 2048 lose less than a unit and less than a 512th; smaller ones are written as zero |
| Slinear11.ReadsBackIff | components/bc_hal/TPS546.c:254-260 | the fields chosen are the fields read back if and only if the value is below 2048 |
| Slinear11.SpillsNegative | components/bc_hal/TPS546.c:254-260 | every real from 2048 up to 4096 reads back negative |
| Slinear11.WordSurvives | components/bc_hal/TPS546.c:177-275 | reading a normalised word and writing what it says gives it back |

## Left out

- PoolScheduler.Scheduler.InitN: a request for more pools than weights were passed is outside its precondition, as it is a read past the end of the caller's array in the source.
- JobPipeline.NonceResolves: reading a slot and scoring the nonce are one atomic step, as the result task does them under the lock; the unlocked look at the same slot in components/asic/bm1370.c:484-489 is not modelled.
- OtaTool.IntactMisjudgedIff: assumes that the digest tells the one garbled payload in question from the real one in its 28 established bytes.
- OtaTool.RecoverPad: positions missing or in dispute are a set and a map; the tool lists them in rising order, with the names of the sources.
- Pll.GetParameters: targets outside 0 to 16000 MHz, where converting to 16 bits is undefined in C; the initial FLT_MAX is modelled as having no best setting yet.
- StratumRx.RxContext.Realloc: a failed enlargement, which restarts the board, is not modelled.
- StratumRx.RxContext.TakeLine: a failed duplication of a line, which loses it, is not modelled.
- StratumRx.RxContext.PollLine: a failed duplication of a line (which loses it) and a failed enlargement (which restarts the board) are not modelled.
- PdLadder.Board.BringUp: writes to the gate and the output pin are taken to succeed.
- CoreVoltage.Board.PowerOff: the command to switch off is taken to go through; closing the USB-PD gate where it does not is not modelled.
- CoreVoltage.Board.Init: failures of the bus after the regulator has answered are not modelled.
- CoreVoltage.Board.SetVout: failures of the bus on a voltage in range are not modelled.
- Slinear11.RealLoss: stops at 2048; above 4096 some spilled words happen to read back near the value, and no claim is made.
- eeprom_write_data (components/bc_hal/eeprom.c:283): it enciphers the cached record in place, so cache and device do not agree through it. The driver is modelled for one of its two boards.
- The bit helpers of components/asic/common.c: read off directly.
- crc16 and its table: the unrolled loop would add only an easy equivalence.
- SHA-256, HMAC and PBKDF2 around the scrypt core; in the update tool the digest is any function to 32 bytes.
- Frequency settings by boot mode, the self test, and the live voltage requests by mode, which repeat the one modelled.
- Guessing the pad by byte frequency, the ESP32 application and signature descriptions, and all printing of the update tool.
- Building of jobs, scoring and submission of shares, and the notify queues of the pools.
- The fan controller, failover, hashrate statistics, display, network services and scripts.
- Rounding of floating-point numbers.

# Arista SCD hardware-monitor driver and sysfs helpers, modelled in Dafny

This project models the logic core of two files of the Arista platform
support code.

`src/scd-hwmon.c` is the Linux driver for the System Control Device (SCD),
an FPGA whose registers drive SMBus masters, MDIO masters, LEDs, GPIOs,
transceiver control lines, resets and fans. The model covers:

- **SMBus master engine.** The three packed register words (request,
  control/status, response) are encoded and decoded as `bv32`. A
  transaction (`scd_smbus_do_impl`) derives its step count, writes that many
  request words, reads and checks that many responses and places the
  returned bytes in the caller's buffer, resetting the master on every
  failure. The module also covers the hardware block-read fast path and the
  software fallback, the retry loop (`scd_smbus_access_impl`) and the
  i2c-message adapter (`scd_smbus_master_xfer`). The master's registers are
  a `Device` class that records every word written and serves scripted
  control/status and response words.
- **Per-address tuning table.** Lookup with a default, the upsert done by
  `scd_set_smbus_params`, the `smbus_tweaks` line parser and the dump.
- **MDIO master engine.** The Clause 22 / Clause 45 phy-id decoding of
  `scd_mii_bus_do`, the request/response phases of `scd_mdio_bus_request`
  with their wait classification, the `req_id` counter and the
  `scd_mdio_mii_id` encoder.
- **Registry and configuration parser.** Master and device registration
  rules (duplicate ids, register offsets, block-read support), the
  `new_object` line parser with its token macros, its dispatch table and its
  error codes, together with a printer of configuration lines that the
  parser reads back as the objects they describe.
- **Register bit helpers.** GPIO get/set, the transceiver clear-on-read
  sticky bits, reset set/clear, fan fault, fan rpm, the fan LED colour
  registers and the LED brightness table.

`arista/core/driver/kernel/sysfs.py` is the Python layer above the driver's
sysfs files. The model covers the memoised `entryPath`, the integer linear
pwm conversion, the boolean entry, the custom LED colour maps, the RGB LED,
the GPIO active-low logic, the fan fault/status/speed decisions and
`_getOr`.

Kernel services (register I/O, the allocator, the i2c and MDIO cores, the
clock) appear as parameters: a scripted `Device` for the SMBus master's
registers, an `Env` oracle for allocation results, adapter numbers, hardware
versions and the results of registering peripherals, and plain register
values for the bit helpers.

Files, in dependency order: `errno.dfy`, `numbers.dfy` (the kernel's
`kstrto*` parsers and `%d`/`%x` printing), `smbus_regs.dfy`,
`smbus_device.dfy`, `tuning.dfy`, `smbus_spec.dfy`, `smbus_words.dfy`,
`smbus_read.dfy`, `smbus_block.dfy`, `smbus_do.dfy`, `smbus_access.dfy`,
`smbus_engine.dfy`, `mdio.dfy`, `registry.dfy`, `parser.dfy`,
`config_text.dfy`, `config_store.dfy`, `config_write.dfy`,
`tweak_dump.dfy`, `bit_helpers.dfy`, `sysfs.dfy`.

## Model

| member | source | states |
|---|---|---|
| SmbusRegs.DecodeRequest | src/scd-hwmon.c:334-350 | encoding the decoded request word gives back the same 32 bits |
| SmbusRegs.RequestRoundTrip | src/scd-hwmon.c:334-350 | decoding an encoded request gives back every field |
| SmbusRegs.DecodeCtrlStatus | src/scd-hwmon.c:384-397 | encoding the decoded control/status word gives back the same 32 bits |
| SmbusRegs.CtrlStatusRoundTrip | src/scd-hwmon.c:384-397 | decoding an encoded control/status word gives back every field |
| SmbusRegs.DecodeResponse | src/scd-hwmon.c:419-433 | encoding the decoded response word gives back the same 32 bits |
| SmbusRegs.ResponseRoundTrip | src/scd-hwmon.c:419-433 | decoding an encoded response gives back every field |
| SmbusRegs.CheckRespSpec | src/scd-hwmon.c:551-593 | a response passes exactly when no check fails (fe, ack, timeout, conflict, flush, transaction id, overflow); a rejection names a failing check and no check earlier in that order fails |
| SmbusRegs.CheckRet | src/scd-hwmon.c:551-593 | the result is 0 exactly for a pass and -EIO otherwise |
| SmbusDevice.IdleIsZero | src/scd-hwmon.c:519-533 | a register that reads all zero decodes to the idle status and the idle response |
| SmbusDevice.Device.WriteReq | src/scd-hwmon.c:505-510 | writing a request appends it to the write trace and changes nothing else |
| SmbusDevice.Device.WriteCs | src/scd-hwmon.c:512-517 | writing the control/status word appends it to the write trace and changes nothing else |
| SmbusDevice.Device.ReadCs | src/scd-hwmon.c:519-525 | a status read returns the head of the status queue (idle when empty) and consumes it |
| SmbusDevice.Device.ReadResp | src/scd-hwmon.c:527-533 | a response read returns the head of the response queue (idle when empty) and consumes it |
| SmbusSpec.ReadRespOp | src/scd-hwmon.c:535-549 | reading a response returns the head of the response queue, drops it and writes nothing |
| SmbusSpec.PollCsSuffix | src/scd-hwmon.c:540-544 | the status poll consumes a suffix of the queued status words, at most `retries - 1` of them after the first read |
| SmbusSpec.PollManySuffix | src/scd-hwmon.c:535-549 | after `n` response reads, what is left of the status words is a suffix of them, shorter by at most 20 per read |
| SmbusSpec.PollStep | src/scd-hwmon.c:538-544 | one response read, with its own first status read and its polls, consumes at most 20 status words and leaves a suffix |
| SmbusRead.PollBound | src/scd-hwmon.c:538-546 | the status poll consumes fewer status words than its retry budget |
| SmbusRead.ReadRespShape | src/scd-hwmon.c:535-549 | a response read consumes between 1 and 20 status words (just one when the first shows the response ready) and then reads the response anyway |
| SmbusRead.AfterReadsNext | src/scd-hwmon.c:535-549 | the n-th response read of a loop returns the n-th queued response |
| SmbusEngine.ReadResp | src/scd-hwmon.c:535-549 | the polling loop over the device leaves the device in the state the response-read function describes |
| SmbusSpec.Transfer | src/scd-hwmon.c:792-880 | a transfer leaves the caller buffer's length unchanged and never changes it on a write |
| SmbusSpec.RespLoop | src/scd-hwmon.c:831-870 | the response loop keeps the buffer's length and never stores on a write |
| SmbusSpec.AccessFrom | src/scd-hwmon.c:898-926 | the number of attempts lies between one and max(1, max_retries); a final -EIO means every allowed attempt was made; the buffer keeps its length and a write never changes it |
| SmbusSpec.SmbusAccess | src/scd-hwmon.c:928-934 | the i2c-core transfer over the full `i2c_smbus_data` union makes one to max(1, max_retries) attempts, all of them when it ends in -EIO, keeps the buffer length and leaves a write's buffer as given |
| SmbusSpec.BusyWait | src/scd-hwmon.c:672-678 | the busy-wait counter never goes below its start |
| SmbusSpec.BlockRead | src/scd-hwmon.c:629-708 | the fast block read keeps the caller buffer's length |
| SmbusSpec.Do | src/scd-hwmon.c:710-880 | a transaction keeps the caller buffer's length and never changes it on a write |
| SmbusSpec.Fallback | src/scd-hwmon.c:778-788 | the software block read keeps the caller buffer's length |
| SmbusWords.StepIdMod | src/scd-hwmon.c:827 | the 4-bit transaction id of step k is k mod 16 (the `ti++` of each step wraps) |
| SmbusWords.WritePhase | src/scd-hwmon.c:792-829 | the request loop appends exactly the closed-form word of each step, in order, to the write trace |
| SmbusWords.WordTraceAt | src/scd-hwmon.c:792-829 | the request phase writes exactly ss words, the j-th being the closed-form word of step j |
| SmbusWords.WordTraceLen | src/scd-hwmon.c:792-829 | the request phase from step i on writes exactly ss - i words |
| SmbusWords.WrittenRequest | src/scd-hwmon.c:792-829 | after the request phase the trace is the old trace followed by ss words, with the word of step k at position k, and no queue is touched |
| SmbusWords.WordShape | src/scd-hwmon.c:792-829 | word k has ti = k mod 16; st only at step 0 and at step 2 of a read; sp only at the last step; a non-zero ss only at step 0; da = !(dod or sp); d is the address byte at step 0 (with the read bit only when ss <= 2), the command at step 1, the re-addressed read byte at step 2 of a read, and `block[offset+k-2]` on writes; dod is clear from step 3 of a read; br is never set |
| SmbusRead.StoreTooShort | src/scd-hwmon.c:851-866 | a step is refused as "buffer too short" exactly when it is a block-type read step >= 3 whose slot lies at or past data_size |
| SmbusRead.RespLoopCodes | src/scd-hwmon.c:831-879 | the response loop returns 0, -EIO or -EINVAL; 0 comes with no reason and all ss responses read; -EIO with a bad-response reason; -EINVAL with "buffer too short"; a failure stops right after the failing response |
| SmbusRead.RespLoopFailure | src/scd-hwmon.c:831-879 | on failure every earlier response passed, and the last one read either failed the named check or passed but had no room in the buffer |
| SmbusRead.RespLoopSuccess | src/scd-hwmon.c:831-872 | the response loop succeeds exactly when every response passes and every block byte fits in data_size |
| SmbusRead.BlockPlacement | src/scd-hwmon.c:850-867 | after a successful block-type read each buffer slot holds the data byte of the step that feeds it (`block[i-2]` for i2c-block, `block[i-3]` otherwise, from step 3 on) and every other slot keeps its value |
| SmbusRead.RespLoopSlot | src/scd-hwmon.c:850-867 | after a successful block-type loop from step i, each buffer slot holds the data byte of the step that feeds it, or its old value when no remaining step feeds it |
| SmbusRead.BytePlacement | src/scd-hwmon.c:840-843 | a successful byte or byte-data read puts the last step's data byte in `block[0]` and changes nothing else |
| SmbusRead.WordPlacement | src/scd-hwmon.c:844-849 | a successful word read puts data(ss-2) in byte 0 and data(ss-1) in byte 1 and changes nothing else |
| SmbusBlock.BlockHeader | src/scd-hwmon.c:641-664 | the fast path writes exactly three header words with ti 0, 1, 2, dod set, sp and da clear; word 0 starts with ss = 3 and the write address byte, word 1 carries the command, word 2 re-starts with br = 1 and the read address byte |
| SmbusBlock.BusyWaitSpec | src/scd-hwmon.c:672-678 | the wait stops at the first status with brb clear or at the budget, and reaches the budget exactly when brb stays set that long |
| SmbusBlock.BlockTimeout | src/scd-hwmon.c:680-684 | when brb stays set for the whole budget the fast path returns -EINVAL after the header words and the status reads, reading no response and leaving the buffer unchanged |
| SmbusBlock.BlockLoopSuccess | src/scd-hwmon.c:686-707 | the fast path's response loop succeeds exactly when 4 + count responses pass and count < data_size, where count is the data byte of step 3 |
| SmbusBlock.EnginePlacement | src/scd-hwmon.c:693-704 | after a successful fast read `block[0]` is the count and `block[j]` is the data byte of step j+3 for j <= count; other slots keep their value |
| SmbusBlock.BlockReadCodes | src/scd-hwmon.c:629-708 | the fast path returns 0, -EIO or -EINVAL (a bad response exactly for -EIO); when the wait does not time out it succeeds exactly when 4 + count responses pass and count < data_size, and then it has read exactly those responses |
| SmbusBlock.BlockReadRet | src/scd-hwmon.c:629-708 | the fast path returns 0, -EIO or -EINVAL; -EIO exactly for a bad response, and success carries no failure reason |
| SmbusBlock.BlockReadLoop | src/scd-hwmon.c:629-708 | when the busy wait does not run out, the fast path's result, buffer and consumed responses are those of its response loop |
| SmbusBlock.BlockReadSuccess | src/scd-hwmon.c:629-708 | when the busy wait does not run out, the fast path succeeds exactly when 4 + count responses pass and count < data_size, and it then consumes exactly those responses |
| SmbusBlock.BlockTailSuccess | src/scd-hwmon.c:686-707 | from any data step on, the loop succeeds exactly when every remaining response passes and the remaining bytes fit |
| SmbusBlock.BlockTailCodes | src/scd-hwmon.c:686-707 | the fast path's loop from step 4 returns 0, -EIO or -EINVAL with the matching reason |
| SmbusDo.ResetShape | src/scd-hwmon.c:602-613 | a reset reads the status once and writes it back twice, first with reset and foe set, then with reset cleared |
| SmbusDo.RequestWords | src/scd-hwmon.c:731-790 | before the resets a failure adds, the writes a transaction makes are request words, as many as its protocol's step count |
| SmbusDo.StepCounts | src/scd-hwmon.c:731-790 | before the two reset writes a failure adds, a transaction writes only request words, one per protocol step: 1 for quick, 2 for byte, 3/4 for a byte-data write/read, 4/5 for word-data, 2+len/3+len for raw i2c messages, 2+block[0]/3+block[0] for i2c-block, 3+block[0] for a block write, and none for a size outside the switch |
| SmbusDo.DoUnsupported | src/scd-hwmon.c:721-872 | a size outside the switch writes nothing, reads nothing and returns 0 |
| SmbusDo.TransferCodes | src/scd-hwmon.c:831-879 | a transfer returns 0, -EIO or -EINVAL with the matching reason, and 0 exactly when all ss responses pass and every block byte fits |
| SmbusDo.TransferTrace | src/scd-hwmon.c:792-879 | a successful transfer writes exactly the ss request words; a failed one writes them followed by the two reset writes |
| SmbusDo.TransferEnds | src/scd-hwmon.c:831-879 | a transfer returns 0, -EIO or -EINVAL, success carries no failure reason, and every failure ends with a master reset |
| SmbusDo.DoFixedCodes | src/scd-hwmon.c:710-880 | a fixed-step transaction returns 0, -EIO or -EINVAL, and every failure ends with a master reset |
| SmbusDo.WordOfBytes | src/scd-hwmon.c:844-849 | the word assembled from a buffer whose first two bytes were just stored is the low byte joined with the high byte shifted left by 8 |
| SmbusDo.DoCodes | src/scd-hwmon.c:710-880 | every transaction returns 0, -EIO or -EINVAL; 0 carries no failure reason and every failure ends with a master reset |
| SmbusDo.DoRequests | src/scd-hwmon.c:792-879 | a transaction other than a block read writes exactly its ss closed-form request words, followed by the two reset writes when it fails |
| SmbusDo.DoByteRead | src/scd-hwmon.c:840-843 | a successful byte read returns the data of step 1 and a byte-data read that of step 3, in `block[0]` |
| SmbusDo.DoWordRead | src/scd-hwmon.c:844-849 | a successful word read returns data(3) joined with data(4) shifted left by 8 as the 16-bit word |
| SmbusDo.DoBlockTypeRead | src/scd-hwmon.c:850-867 | a successful i2c-block or raw-message read fills each slot from the step that feeds it and keeps the rest |
| SmbusDo.DoFastCodes | src/scd-hwmon.c:771-777 | with block-read support the smbus-block read returns 0, -EIO or -EINVAL, and every failure is tagged "block read failed" and ends with a reset |
| SmbusDo.DoFastRead | src/scd-hwmon.c:629-777 | a successful hardware block read did not time out, saw count < data_size and 4 + count passing responses, and leaves the count in `block[0]` followed by the data bytes |
| SmbusDo.ProbeResult | src/scd-hwmon.c:779-781 | the length probe is a byte-data read whose success puts the data of step 3 in `block[0]` after reading four responses |
| SmbusDo.FallbackCodes | src/scd-hwmon.c:778-788 | a failing probe is returned with its reason wrapped as "block size"; otherwise the read goes on with 4 + block[0] steps; every failure ends with a reset |
| SmbusDo.FallbackPlacement | src/scd-hwmon.c:787-865 | a successful software block read leaves `block[j]` equal to the data of step j+3 of the second transaction for j <= the probed length, and keeps the rest |
| SmbusDo.DoFallbackRead | src/scd-hwmon.c:778-788 | without block-read support a successful smbus-block read gives `block[j]` = the data of queued response j+7 (counting from 0) for every j up to the length probed by response 3; the other slots keep their value |
| SmbusAccess.AccessNoRetry | src/scd-hwmon.c:912-916 | any result other than -EIO (0 and -EINVAL included) is returned at once after one attempt |
| SmbusAccess.AccessCodes | src/scd-hwmon.c:898-926 | the result is 0, -EIO or -EINVAL; a failure ends with a reset; -EIO comes after exactly max(1, max_retries) attempts; a retry happens only after an -EIO |
| SmbusAccess.AccessAtLeastOnce | src/scd-hwmon.c:912-919 | with max_retries <= 1 exactly one attempt is made |
| SmbusAccess.MasterXferRejects | src/scd-hwmon.c:936-965 | more than two messages, or a two-message transfer whose first message is a read or not one byte long, gives -EINVAL with nothing touched |
| SmbusAccess.MasterXferTwo | src/scd-hwmon.c:961-984 | a valid two-message transfer returns 2, -EIO or -EINVAL, keeps every message's shape and leaves the command message alone |
| SmbusAccess.MasterXferOne | src/scd-hwmon.c:969-984 | a one-message transfer returns 1, -EIO or -EINVAL, keeps the message's shape and its command byte |
| SmbusEngine.Reset | src/scd-hwmon.c:602-613 | the reset writes leave the device in the state ResetOp describes |
| SmbusEngine.WriteRequests | src/scd-hwmon.c:792-829 | the in-place request loop (one word mutated step by step) writes exactly the trace of the request-phase function |
| SmbusEngine.StoreStep | src/scd-hwmon.c:839-869 | a single placement step changes the array exactly as the store function says, or refuses and changes nothing |
| SmbusEngine.ReadResponses | src/scd-hwmon.c:831-870 | the response loop over the array returns the response-loop function's code and reason and leaves the array and the device as it says |
| SmbusEngine.RunTransfer | src/scd-hwmon.c:792-880 | writing the requests and then reading the responses matches the transfer function, reset included |
| SmbusEngine.WriteBlockHeader | src/scd-hwmon.c:641-664 | the header loop writes the three words of the fast path |
| SmbusEngine.WaitBlockEngine | src/scd-hwmon.c:672-678 | the busy-wait loop stops at the counter the wait function gives and consumes one status word more than that |
| SmbusEngine.BlockStore | src/scd-hwmon.c:696-704 | a data byte of step i lands in `block[i-3]` when it fits in data_size, and otherwise the store fails and the buffer is untouched |
| SmbusEngine.ReadBlockResponses | src/scd-hwmon.c:686-707 | the fast path's response loop, whose step count grows with the count byte, matches the block-loop function |
| SmbusEngine.SmbusBlockRead | src/scd-hwmon.c:629-708 | the hardware block read on the device and array matches the block-read function |
| SmbusEngine.SmbusDoImpl | src/scd-hwmon.c:710-880 | the transaction on the device and the caller's array, including the recursive length probe, matches the transaction function |
| SmbusEngine.EngineBlockRead | src/scd-hwmon.c:771-777 | the hardware branch of an smbus-block read on the device and array matches the fast-path function |
| SmbusEngine.SoftwareBlockRead | src/scd-hwmon.c:778-788 | the software branch, a length probe and then the fixed-step read, on the device and array matches the fallback function |
| SmbusEngine.FinishBlockRead | src/scd-hwmon.c:778-788 | after the probe, the device and array end as the fallback function says |
| SmbusEngine.SmbusAccessImpl | src/scd-hwmon.c:898-926 | the retry loop matches the attempts function |
| SmbusEngine.SmbusMasterXfer | src/scd-hwmon.c:944-985 | the i2c message adapter matches the message-transfer function, read data landing in the messages' buffers |
| Tuning.Lookup | src/scd-hwmon.c:615-627 | with no entry for the address the result is the default t=1, datw=3, datr=3, ed=0; otherwise it is the first entry for the address |
| Tuning.GetSmbusParams | src/scd-hwmon.c:615-627 | the list walk returns what Lookup specifies |
| Tuning.Upsert | src/scd-hwmon.c:2965-2998 | an existing address keeps the table's length (the entry is overwritten in place); a new one is appended at the end |
| Tuning.SetParamsIn | src/scd-hwmon.c:2977-2995 | the list walk computes Upsert |
| Tuning.LookupAfterUpsert | src/scd-hwmon.c:2965-2998 | after setting an address, looking it up gives the new parameters |
| Tuning.LookupOtherUnchanged | src/scd-hwmon.c:2965-2998 | setting one address changes no other address's lookup |
| Tuning.UpsertKeepsUnique | src/scd-hwmon.c:2965-2998 | the table never holds two entries for one address |
| Tuning.UpsertMembers | src/scd-hwmon.c:2965-2998 | every entry after a set is the new one or was there before |
| Mdio.WaitSpec | src/scd-hwmon.c:1214-1239 | the wait returns 0, -EOPNOTSUPP or -EAGAIN; -EAGAIN exactly when every poll of the backoff sees res_count 0, having used all of them; otherwise it stops at the first non-zero res_count, returning 0 exactly when that count is 1 |
| Mdio.BusRequestSpec | src/scd-hwmon.c:1241-1285 | a phase clears the interrupt flag, writes req_lo and req_hi (with the post-incremented request id, so req_id grows by one), waits; a wait failure is returned with no response read; otherwise the flag is cleared again and the response read; ts != 1 or fe gives -EIO, else a read returns resp.d and a write 0 |
| Mdio.BusRequestCodes | src/scd-hwmon.c:1246-1285 | a phase's negative results are only -EOPNOTSUPP, -EAGAIN and -EIO; a non-read never returns a positive value; every result is below 0x10000 |
| Mdio.MiiBusDoSpec | src/scd-hwmon.c:1287-1310 | the SET phase with the register number is always issued first; if it fails its error is returned and the second phase is skipped (req_id grows by one); otherwise the operation phase runs with val, req_id grows by two and the result is that phase's result; prtad = addr >> 5 (unmasked), devad = addr & 0x1f, clause from the C45 bit |
| Mdio.MiiIdDecode | src/scd-hwmon.c:1290-1331 | decoding the phy id built by `scd_mdio_mii_id` gives back devad and the clause of the mode, and gives back prtad with the C45 flag bit folded into it when the mode supports Clause 45 |
| Mdio.PhyPrtad | src/scd-hwmon.c:1290 | `addr >> 5` on a signed int: shifting the result back and restoring the low five bits gives the address again, and a negative address stays negative, its sign copied into the vacated top bits |
| Mdio.MdioMaster.ReadCs | src/scd-hwmon.c:1171-1177 | a status read returns and consumes the head of the status queue |
| Mdio.MdioMaster.WriteWord | src/scd-hwmon.c:1179-1183 | a register write is appended to the trace |
| Mdio.MdioMaster.ReadResp | src/scd-hwmon.c:1275 | a response read returns and consumes the head of the response queue |
| Mdio.MdioMaster.GetReqId | src/scd-hwmon.c:1241-1244 | the request id is returned and then incremented (8-bit wrap) |
| Mdio.MdioMaster.Reset | src/scd-hwmon.c:1193-1204 | a reset writes the default status with reset set, then with it cleared |
| Mdio.MdioMaster.ResetInterrupt | src/scd-hwmon.c:1206-1212 | clearing the interrupt writes the default status with fe set |
| Mdio.MdioMaster.WaitResponse | src/scd-hwmon.c:1214-1239 | the backoff loop returns the wait function's code and consumes the status words it used |
| Mdio.MdioMaster.SubmitRequest | src/scd-hwmon.c:1256-1267 | the submit half of a phase performs exactly the writes of the phase function |
| Mdio.MdioMaster.CollectResponse | src/scd-hwmon.c:1269-1284 | the collect half of a phase matches the phase function |
| Mdio.MdioMaster.BusRequest | src/scd-hwmon.c:1246-1285 | a phase on the master matches the phase function |
| Mdio.MdioMaster.MiiBusDo | src/scd-hwmon.c:1287-1310 | the two-phase access on the master matches the access function |
| Mdio.MdioMaster.MiiRead | src/scd-hwmon.c:1312-1315 | a read is the access with op Read and value 0 |
| Mdio.MdioMaster.MiiWrite | src/scd-hwmon.c:1317-1321 | a write is the access with op Write and the value |
| Mdio.MdioMaster.DeviceRead | src/scd-hwmon.c:1333-1341 | a device read is the access addressed by the device's encoded phy id |
| Mdio.MdioMaster.DeviceWrite | src/scd-hwmon.c:1343-1352 | a device write is the access addressed by the device's encoded phy id |
| Registry.FirstAdapterFailure | src/scd-hwmon.c:1148-1153 | the bus loop stops at the first bus whose adapter registration fails; every earlier bus registered |
| Registry.SmbusBuses | src/scd-hwmon.c:1038-1153 | a master's bus list holds buses 0 .. bus_count-1, in order, each with the adapter number it was given and an empty tuning table |
| Registry.SmbusMasterAddCodes | src/scd-hwmon.c:1120-1168 | a duplicate id gives -EEXIST with nothing changed; any failure is negative and leaves the master list alone; success comes exactly when the id is free, the allocation succeeds and every bus registers; once allocated the master is reset (also on the failure path, through its removal); MDIO masters and peripherals are untouched |
| Registry.SmbusMasterAddAppends | src/scd-hwmon.c:1161 | a successful add appends the new master at the tail of the list |
| Registry.NewSmbusMasterSpec | src/scd-hwmon.c:1141-1158 | the new master has the given id and the module's max_retries, its registers at base + 0x10, 0x20 and 0x30, block-read support exactly when the version read after the reset is >= 2, and buses 0 .. bus_count-1 |
| Registry.SmbusMasterAddUnique | src/scd-hwmon.c:1128-1132 | the master ids stay pairwise distinct |
| Registry.FirstMiiFailure | src/scd-hwmon.c:1612-1617 | the MDIO bus loop stops at the first bus whose add fails, in one of its allocations or in its registration |
| Registry.MdioBuses | src/scd-hwmon.c:1489-1617 | an MDIO master's buses are 0 .. bus_count-1 with no devices |
| Registry.MdioMasterAddSpec | src/scd-hwmon.c:1584-1630 | -EEXIST only for an id in use or a bus registration reporting it; an id in use changes nothing; a failed master allocation gives -ENOMEM and changes nothing; a failure leaves the MDIO list alone; success comes exactly when the id is free, the allocation succeeds and every bus allocates and registers, and then the master is appended with its speed and buses and it was reset |
| Registry.MdioMasterAddUnique | src/scd-hwmon.c:1591-1595 | the MDIO master ids stay pairwise distinct |
| Registry.SmbusFailBusDerefsNull | src/scd-hwmon.c:1165-1166 | as written, an SMBus master add reaches its failure label, whose removal runs list_del on the never-linked master, exactly when the id is free, the allocation succeeds and some bus fails to register |
| Registry.MdioFailBusDerefsNull | src/scd-hwmon.c:1495-1628 | as written, an MDIO master add reaches the same list_del on a never-linked master exactly when the id is free, the master was allocated and the first failing bus failed in its kzalloc or mdiobus_alloc; when that bus failed to register instead, the label is not reached and the bus add's own fail label dereferences NULL |
| Registry.MdioBusAddFailDerefsNull | src/scd-hwmon.c:1531-1532 | as written, the failure label of an MDIO bus add is reached exactly when the mii bus was allocated and its registration failed, and it then frees a NULL pointer and leaves the allocated mii bus unowned |
| Registry.FailBusIntended | src/scd-hwmon.c:1165-1167 | whenever the failure label is reached, the modelled add returns the bus's error (negative for an SMBus bus, -ENOMEM for an MDIO bus, the only failure that reaches its label) and changes nothing but the logged master reset; an MDIO bus whose registration fails makes the modelled add return that non-zero registration error, with the same state |
| Registry.FindMdioBusInSpec | src/scd-hwmon.c:1457-1460 | the bus search finds a bus with that id exactly when one exists from the start position on |
| Registry.FindMdioBusSpec | src/scd-hwmon.c:1448-1464 | the search finds a bus exactly when some master with the id has a bus with the bus id, and what it finds is such a pair |
| Registry.HasMdioBusStep | src/scd-hwmon.c:1454-1461 | a matching bus exists from master i on exactly when master i has it or a later master does |
| Registry.MdioDeviceAddSpec | src/scd-hwmon.c:1466-1487 | a missing bus gives -EEXIST; every failure changes nothing; success means the found bus had no device with that id and the device was added to exactly that bus |
| Registry.NewMdioDeviceAddresses | src/scd-hwmon.c:1405-1410 | a new device keeps its ids and addresses, and its encoded phy id decodes to the given devad and clause (and, for clause 22, the port address) |
| Registry.MdioDeviceDuplicate | src/scd-hwmon.c:1478-1484 | a device id already on the bus gives -EEXIST with nothing changed |
| Registry.FindSmbusInSpec | src/scd-hwmon.c:2955-2959 | the bus search finds a bus with that adapter number exactly when one exists |
| Registry.FindSmbusSpec | src/scd-hwmon.c:2949-2963 | the search over all masters finds a bus exactly when some master has one with that adapter number |
| Registry.SetSmbusParamsSpec | src/scd-hwmon.c:2965-2998 | -EINVAL exactly for an unknown bus; otherwise 0 or -ENOMEM; a failure changes nothing; on success only the found bus's table changes, by the upsert, and it now looks the address up as the new parameters and every other address as before |
| Registry.SetSmbusParamsFound | src/scd-hwmon.c:2976-2997 | on a found bus the set succeeds unless a new entry was needed and the allocation failed |
| Registry.SetSmbusParamsCodes | src/scd-hwmon.c:2965-2998 | -EINVAL exactly for an unknown bus, otherwise 0 or -ENOMEM; a failure changes nothing, and the MDIO masters and event log never change |
| Registry.SetSmbusParamsSuccess | src/scd-hwmon.c:2965-2998 | on success the first bus with that number has its table upserted with the entry: its address now looks up the new entry and every other address looks up what it did before |
| Registry.Context.constructor | src/scd-hwmon.c:72-88 | a new context is empty and not initialized |
| Registry.Context.SmbusIdInUse | src/scd-hwmon.c:1128-1132 | the list walk answers whether the id is taken |
| Registry.Context.SmbusMasterAdd | src/scd-hwmon.c:1120-1168 | the registration on the context's lists matches the add function |
| Registry.Context.MdioIdInUse | src/scd-hwmon.c:1591-1595 | the list walk answers whether the MDIO id is taken |
| Registry.Context.MdioMasterAdd | src/scd-hwmon.c:1584-1630 | the registration matches the MDIO add function |
| Registry.Context.FindMdioBusOf | src/scd-hwmon.c:1448-1464 | the nested list walk returns what the search function specifies |
| Registry.Context.MdioDeviceAdd | src/scd-hwmon.c:1466-1487 | the device registration matches the device-add function |
| Registry.Context.FindSmbusBus | src/scd-hwmon.c:2949-2963 | the nested list walk returns what the search function specifies |
| Registry.Context.SetSmbusParams | src/scd-hwmon.c:2965-2998 | the in-place update of the found bus's list matches the set function |
| Registry.Context.PeripheralAdd | src/scd-hwmon.c:2278-2544 | a peripheral whose registration succeeds is recorded; a failing one changes nothing and its code is returned |
| Registry.AddSmbusBuses | src/scd-hwmon.c:1148-1153 | the bus loop stops where the first failure is and, when none fails, has built the full bus list |
| Registry.AddMdioBuses | src/scd-hwmon.c:1612-1617 | the MDIO bus loop stops where the first failure is and, when none fails, has built the full bus list |
| Registry.HasAddrIn | src/scd-hwmon.c:2976-2984 | the list walk answers whether the table has an entry for the address |
| Numbers.DigitRun | src/scd-hwmon.c:2553 | the digit run starting at k is maximal: every character in it is a digit of the base and the first one after it is not |
| Numbers.FixupRadix | src/scd-hwmon.c:2553 | base-0 radix detection consumes no more than the text |
| Numbers.ParseUll | src/scd-hwmon.c:2553 | a parsed value fits 64 bits, starts with a digit of the base, and is followed only by digits or a final newline; the errors are -EINVAL and -ERANGE, and nothing left to parse is -EINVAL |
| Numbers.Kstrtoull | src/scd-hwmon.c:2553 | the base-0 64-bit parse yields a value below 2^64 or -EINVAL / -ERANGE, and refuses a leading minus |
| Numbers.Kstrtoull10 | src/scd-hwmon.c:1743 | the decimal 64-bit parse accepts only digits, one leading plus and one final newline, and refuses a leading minus |
| Numbers.Kstrto | src/scd-hwmon.c:1929 | the u8/u16/u32 parse succeeds exactly when the 64-bit parse does with a value within the type, gives that value, and fails with -ERANGE when only the range check fails |
| Numbers.Kstrtol | src/scd-hwmon.c:1743 | the decimal kstrtol of the GPIO, transceiver and reset stores yields a value in the 64-bit signed range, or fails with -EINVAL or -ERANGE |
| Numbers.KstrtolDecimal | src/scd-hwmon.c:1809 | every value in the 64-bit signed range reads back from its decimal text |
| Numbers.KstrtolOneSign | src/scd-hwmon.c:2227 | a minus sign followed by a second sign is rejected with -EINVAL |
| Numbers.KstrtoCodes | src/scd-hwmon.c:2553-2556 | a parse bounded by a field's maximum yields a value within it or -EINVAL / -ERANGE, and an empty token is -EINVAL |
| Numbers.DigitsValue | src/scd-hwmon.c:2553 | the digits printed for n in a base read back as n |
| Numbers.DigitsLead | src/scd-hwmon.c:2553 | printed digits start with '0' exactly for zero, so a printed number is never taken for an octal prefix |
| Numbers.KstrtoullDigits | src/scd-hwmon.c:2553 | a token that is a radix prefix followed only by digits of that base parses as their value |
| Numbers.KstrtoDecimal | src/scd-hwmon.c:2553 | `%d` output of a value within a field's range parses back as that value |
| Numbers.KstrtoHex | src/scd-hwmon.c:2553 | "0x" followed by the hex digits of a value within range parses back as that value |
| Numbers.Hex02 | src/scd-hwmon.c:3058 | `%02x` output is at least two characters long |
| Numbers.Hex02Spec | src/scd-hwmon.c:3058 | `%02x` prints lower-case hex digits whose value is the number, zero-padded to two digits exactly when the number is below 16 and otherwise its plain hex digits |
| Numbers.Hex02Reads | src/scd-hwmon.c:3058 | the printed address, read back with a `0x` prefix by the base-0 parser, is the same number |
| Parser.IndexOf | src/scd-hwmon.c:2870-2871 | the first position of a character, or the length when it is absent |
| Parser.IndexOfFirst | src/scd-hwmon.c:2870-2871 | no earlier position holds the character |
| Parser.CStr | src/scd-hwmon.c:2870-2871 | the copied line, read as a C string, stops at its first NUL |
| Parser.Strsep | src/scd-hwmon.c:2549 | `strsep` on NULL gives NULL; otherwise the token has no space, and either the text is the token, a space and the rest, or the token is the whole text and the rest is NULL |
| Parser.StrsepJoin | src/scd-hwmon.c:2549 | `strsep` splits a token off at its first space, and returns the whole text with a NULL rest when there is no space |
| Parser.ParseInt | src/scd-hwmon.c:2546-2557 | PARSE_INT yields a value within the field's range or -EINVAL / -ERANGE, and -EINVAL when no token is left |
| Parser.ParseAddr | src/scd-hwmon.c:2559-2565 | PARSE_ADDR yields an address no larger than the resource size, or an error |
| Parser.ParseStr | src/scd-hwmon.c:2567-2574 | PARSE_STR yields a non-empty token without spaces, or -EINVAL |
| Parser.ParseEnd | src/scd-hwmon.c:2576-2582 | PARSE_END succeeds exactly when no token is left |
| Parser.SmbusMasterArgs | src/scd-hwmon.c:2586-2608 | the smbus_master arguments fail only with -EINVAL / -ERANGE, and a missing argument line is -EINVAL |
| Parser.BusCountArg | src/scd-hwmon.c:2591-2608 | a missing or empty bus-count token gives the default of 8 |
| Parser.MdioMasterArgs | src/scd-hwmon.c:2649-2673 | the mdio_master arguments fail only with -EINVAL / -ERANGE, and a missing argument line is -EINVAL |
| Parser.MdioDeviceArgs | src/scd-hwmon.c:2618-2646 | the mdio_device arguments fail only with -EINVAL / -ERANGE, and a missing argument line is -EINVAL |
| Parser.LedArgs | src/scd-hwmon.c:2676-2697 | the led arguments fail only with -EINVAL / -ERANGE, and a missing argument line is -EINVAL |
| Parser.XcvrArgs | src/scd-hwmon.c:2705-2755 | the osfp/qsfp/sfp arguments fail only with -EINVAL / -ERANGE, and a missing argument line is -EINVAL |
| Parser.ResetArgs | src/scd-hwmon.c:2758-2781 | the reset arguments fail only with -EINVAL / -ERANGE, and a missing argument line is -EINVAL |
| Parser.FanGroupArgs | src/scd-hwmon.c:2784-2806 | the fan_group arguments fail only with -EINVAL / -ERANGE, and a missing argument line is -EINVAL |
| Parser.GpioArgs | src/scd-hwmon.c:2809-2836 | the gpio arguments fail only with -EINVAL / -ERANGE, and a missing argument line is -EINVAL |
| Parser.NameIndex | src/scd-hwmon.c:2876-2880 | the table search stops at the first entry whose name equals the token, or past the end when none does |
| Parser.NamesDistinct | src/scd-hwmon.c:2839-2854 | the dispatch table's names are pairwise distinct |
| Parser.NameIndexOf | src/scd-hwmon.c:2876-2880 | searching for an entry's own name finds that entry |
| Parser.RunParser | src/scd-hwmon.c:2885 | every per-object parser fails only with -EINVAL / -ERANGE and rejects a missing argument line |
| Parser.ArgsFor | src/scd-hwmon.c:2839-2885 | the parser chosen through the table fails only with -EINVAL / -ERANGE |
| Parser.TweakArgs | src/scd-hwmon.c:3018-3023 | the tweak fields, read in the order bus, addr, t, datr, datw, ed with no check for trailing tokens, fail only with -EINVAL / -ERANGE |
| Parser.Execute | src/scd-hwmon.c:2610-2614 | a peripheral touches only the peripheral list and is appended exactly when its add returns 0, a failing one changing nothing; the other objects leave the peripheral list alone |
| Parser.NewObjectOp | src/scd-hwmon.c:2856-2890 | a new-object line returns a negative code or its full length, and a line of 100 characters or more is -EINVAL with nothing changed |
| Parser.LineOp | src/scd-hwmon.c:2892-2893 | a line parser returns either a negative code or the full line length |
| Parser.SmbusTweakOp | src/scd-hwmon.c:3000-3029 | a tweak line returns a negative code or its length, a failure changes nothing, and an over-long line is -EINVAL |
| Parser.ParseErrorNoChange | src/scd-hwmon.c:2872-2887 | a short line whose kind is unknown or whose arguments do not parse gives -EINVAL / -ERANGE and changes nothing |
| ConfigText.KindIndex | src/scd-hwmon.c:2839-2854 | every object kind has an entry in the dispatch table |
| ConfigText.KindEntry | src/scd-hwmon.c:2839-2854 | the table entry of a kind holds that kind's parser |
| ConfigText.StrsepAt | src/scd-hwmon.c:2549 | `strsep` on a line of tokens takes off exactly the next token |
| ConfigText.ParseIntAt | src/scd-hwmon.c:2546-2557 | PARSE_INT on a line of tokens reads the next token's value and moves to the token after it |
| ConfigText.ParseStrAt | src/scd-hwmon.c:2567-2574 | PARSE_STR on a line of tokens returns the next token and moves past it |
| ConfigText.DecimalReads | src/scd-hwmon.c:2553 | a value printed with `%d` is a token that reads back as that value |
| ConfigText.HexReads | src/scd-hwmon.c:2553 | a value printed as `0x` and hex digits is a token that reads back as that value |
| ConfigText.SmbusMasterLine | src/scd-hwmon.c:2586-2608 | the tokens of an SMBus master (with or without the default bus count) parse back as that master |
| ConfigText.MdioMasterLine | src/scd-hwmon.c:2649-2673 | the tokens of an MDIO master parse back as that master |
| ConfigText.MdioDeviceLine | src/scd-hwmon.c:2618-2646 | the tokens of an MDIO device parse back as that device |
| ConfigText.FanGroupLine | src/scd-hwmon.c:2784-2806 | the tokens of a fan group parse back as that fan group |
| ConfigText.GpioLine | src/scd-hwmon.c:2809-2836 | the tokens of a GPIO parse back as that GPIO |
| ConfigText.LedLine | src/scd-hwmon.c:2676-2697 | the tokens of an LED parse back as that LED |
| ConfigText.XcvrLine | src/scd-hwmon.c:2705-2755 | the tokens of a transceiver parse back as that transceiver |
| ConfigText.ResetLineLine | src/scd-hwmon.c:2758-2781 | the tokens of a reset line parse back as that reset line |
| ConfigText.ArgsRoundTrip | src/scd-hwmon.c:2839-2885 | tokens that spell out any object's arguments, with its address inside the resource window, parse through the dispatch table back to exactly that object |
| ConfigText.PeripheralRoundTrip | src/scd-hwmon.c:2839-2885 | tokens spelling a peripheral's arguments, with its address inside the resource window, parse back to that peripheral |
| ConfigText.LineSplits | src/scd-hwmon.c:2870-2872 | a configuration line splits at its first space into its kind name and its argument tokens |
| ConfigText.NewObjectRoundTrip | src/scd-hwmon.c:2856-2890 | a line naming an object's kind followed by tokens spelling it out, shorter than 100 characters, has the effect of adding exactly that object and returns its length unless the add fails |
| ConfigStore.NextNewline | src/scd-hwmon.c:2906 | `strnchr` finds a newline at or after the position, if any |
| ConfigStore.NextNewlineFirst | src/scd-hwmon.c:2906 | it is the first newline, with no NUL before it |
| ConfigStore.SkipNewlines | src/scd-hwmon.c:2916-2919 | the skip passes over exactly a run of newlines |
| ConfigStore.ParseLinesResult | src/scd-hwmon.c:2895-2925 | `parse_lines` returns the whole count or the first negative result of a line parser; an empty buffer returns 0 and changes nothing |
| ConfigStore.LinesFromResult | src/scd-hwmon.c:2905-2924 | from any position, the loop ends either with the whole buffer consumed or with a negative result some line parser returned |
| ConfigStore.OneLine | src/scd-hwmon.c:2905-2924 | a buffer holding one line is that line's parse, the count being returned on success |
| ConfigStore.FirstLine | src/scd-hwmon.c:2905-2924 | a buffer of a line, a newline and more text parses the first line, stops at its error, and otherwise parses the rest from the resulting state |
| ConfigStore.LinesShift | src/scd-hwmon.c:2905-2924 | parsing from inside a buffer depends only on the text from there on |
| ConfigStore.RunCommand | src/scd-hwmon.c:2610-2614 | running a parsed object applies the matching registry operation |
| ConfigStore.FindObject | src/scd-hwmon.c:2876-2883 | the table walk returns the search function's index, whose name equals the token |
| ConfigStore.ParseNewObject | src/scd-hwmon.c:2856-2890 | the line parser on the context matches the new-object function |
| ConfigStore.ParseSmbusTweak | src/scd-hwmon.c:3000-3029 | the tweak parser on the context matches the tweak function |
| ConfigStore.ParseLine | src/scd-hwmon.c:2892-2893 | the line parser chosen by kind matches that kind's function |
| ConfigStore.Strnchr | src/scd-hwmon.c:2906 | the bounded newline search returns what the search function gives |
| ConfigStore.ParseLines | src/scd-hwmon.c:2895-2925 | the loop advancing `buf` and `left` over the context matches the lines function |
| ConfigStore.NewObjectStore | src/scd-hwmon.c:2927-2945 | no context gives -ENODEV; an initialized context gives -EBUSY with nothing changed; otherwise the buffer is parsed line by line as objects |
| ConfigStore.SmbusTweaksStore | src/scd-hwmon.c:3031-3045 | no context gives -ENODEV; otherwise the buffer is parsed line by line as tweaks |
| ConfigWrite.CommandLineIsOneLine | src/scd-hwmon.c:2906-2919 | a printed configuration line is non-empty and has no newline or NUL |
| ConfigWrite.NewObjectWrite | src/scd-hwmon.c:2856-2925 | writing one printed configuration line to `new_object` adds exactly that object |
| TweakDump.Clip | src/scd-hwmon.c:3057-3063 | with room for anything, the dumped text is shorter than the buffer (scnprintf keeps one byte for the terminator) |
| TweakDump.Scnprintf | src/scd-hwmon.c:3057 | `scnprintf` writes a prefix of the text: nothing into no room, the whole text when it fits, and otherwise one character less than the room |
| TweakDump.ClipAppend | src/scd-hwmon.c:3057-3063 | appending one entry with scnprintf into what is left of the buffer gives the clipped concatenation, and the count reaches the buffer size only when the buffer has size 0 |
| TweakDump.ClipSpec | src/scd-hwmon.c:3057-3063 | the dump is a prefix of the full listing, the full listing when it fits, and one byte short of the buffer when it does not |
| TweakDump.DumpParams | src/scd-hwmon.c:3056-3064 | the innermost loop appends the bus's entries, in list order, clipped to the buffer |
| TweakDump.DumpBuses | src/scd-hwmon.c:3055-3065 | the bus loop appends every bus's entries, clipped to the buffer |
| TweakDump.DumpMaster | src/scd-hwmon.c:3055-3066 | one pass of the master loop extends the clipped listing by that master's buses, and a full page means a page of no bytes |
| TweakDump.DumpMasters | src/scd-hwmon.c:3054-3068 | the master loop produces the whole listing clipped to the buffer |
| TweakDump.DumpSmbusTweaks | src/scd-hwmon.c:3047-3069 | the dump is the listing of every entry of every bus of every master, one `%d/%d/%02x: adap=%d t=%d datr=%d datw=%d ed=%d` line each, clipped to fit the buffer |
| TweakDump.TweakLineOneLine | src/scd-hwmon.c:3058-3060 | each entry prints as exactly one line |
| TweakDump.ParamsLines | src/scd-hwmon.c:3056-3064 | a bus's text has one line per table entry |
| TweakDump.BusesLines | src/scd-hwmon.c:3055-3065 | a master's text has one line per entry of its buses |
| TweakDump.MastersLines | src/scd-hwmon.c:3054-3066 | the listing has one line per entry over all masters |
| TweakDump.ListingLines | src/scd-hwmon.c:3047-3069 | the full listing has exactly as many lines as there are tuning entries |
| TweakDump.ShowSmbusTweaks | src/scd-hwmon.c:3071-3086 | no context gives -ENODEV; otherwise the result is the listing clipped to a page |
| RegisterBits.ParseFlag | src/scd-hwmon.c:1744-1749 | a store accepts exactly the decimal texts kstrtol reads as 0 or 1; anything else fails with kstrtol's error or -EINVAL |
| RegisterBits.ParseFlagShow | src/scd-hwmon.c:1731 | the `%u\n` text of a 0/1 reading parses back to the same value |
| RegisterBits.GpioValue | src/scd-hwmon.c:1724-1732 | a GPIO reads 1 exactly when the line's bit differs from its active-low flag |
| RegisterBits.ActiveLowClearAsWritten | src/scd-hwmon.c:1753-1755 | as written, clearing an active-low line leaves its bit as it was and sets every other bit of the register |
| RegisterBits.ActiveLowClearFails | src/scd-hwmon.c:1755 | as written, writing 0 to an active-low bit 0 of an all-zero register writes 0xFFFFFFFE, and the line still reads active |
| RegisterBits.Update | src/scd-hwmon.c:1752-1762 | the intended update: the line then reads the value written, and every other bit is unchanged |
| RegisterBits.UpdateIdle | src/scd-hwmon.c:1752-1762 | writing a line its present level leaves the register as it was |
| RegisterBits.UpdateAgrees | src/scd-hwmon.c:1752-1762 | the code as written agrees with the intended update in every case but clearing an active-low line |
| RegisterBits.GpioSet | src/scd-hwmon.c:1734-1765 | a store writes a register exactly when the text parses as 0 or 1, then returns count; otherwise it returns the parse error and writes nothing |
| RegisterBits.GpioEcho | src/scd-hwmon.c:1724-1765 | storing back the text a GPIO shows writes the register unchanged and returns count |
| RegisterBits.GpioEchoAsWritten | src/scd-hwmon.c:1755 | as written, echoing the reading 0 of an active-low line writes 0xFFFFFFFF instead |
| RegisterBits.LatchBit | src/scd-hwmon.c:1775-1777 | a latch once set stays set, becomes set only when its bit is read set, and only a clear-on-read attribute ever changes |
| RegisterBits.Latch | src/scd-hwmon.c:1767-1781 | a register read keeps the latch vector at its fixed size |
| RegisterBits.LatchAll | src/scd-hwmon.c:1767-1781 | after any run of reads, a latch set before stays set, the latch of an attribute that is not clear-on-read is unchanged, and every latch newly set belongs to a clear-on-read attribute |
| RegisterBits.LatchAllSticky | src/scd-hwmon.c:1767-1781 | after any run of reads, a latch is set exactly when it was set before or, for a clear-on-read attribute, its bit was seen set in some read |
| RegisterBits.Xcvr.constructor | src/scd-hwmon.c:1767-1781 | a transceiver starts with every latch clear |
| RegisterBits.Xcvr.ReadRegister | src/scd-hwmon.c:1767-1781 | a read returns the register and ORs each clear-on-read attribute's bit into its latch |
| RegisterBits.Xcvr.Get | src/scd-hwmon.c:1783-1798 | the reading is the line's level, ORed with the latch for a clear-on-read attribute, whose latch is then cleared |
| RegisterBits.Xcvr.Set | src/scd-hwmon.c:1800-1831 | a store behaves as a GPIO store on the register just read, and latches that read only when the text parses |
| RegisterBits.ResetValue | src/scd-hwmon.c:2207-2214 | a reset line reads 1 exactly when its bit is set |
| RegisterBits.ResetWrite | src/scd-hwmon.c:2234-2238 | writing 1 goes to the set register and 0 to the clear register, and the word written has only the line's bit set |
| RegisterBits.ResetSet | src/scd-hwmon.c:2217-2241 | a store writes exactly when the text parses as 0 or 1, then returns count; otherwise it returns the parse error and writes nothing |
| RegisterBits.ApplySet | src/scd-hwmon.c:2220 | a write to the set register ORs the word into the lines |
| RegisterBits.ApplyClear | src/scd-hwmon.c:2234-2235 | a write to the clear register clears the word's bits from the lines |
| RegisterBits.ApplyOther | src/scd-hwmon.c:2238 | a word written at any address but the set and clear registers leaves the reset lines alone |
| RegisterBits.ResetWriteLine | src/scd-hwmon.c:2217-2241 | after the write, the line reads the value written |
| RegisterBits.ResetWriteOthers | src/scd-hwmon.c:2217-2241 | the write leaves every other line as it was |
| RegisterBits.ResetRoundTrip | src/scd-hwmon.c:2207-2241 | storing 0 or 1 returns count, the line then reads that value, and no other line changes |
| RegisterBits.FanFault | src/scd-hwmon.c:1969-1979 | a fan reports a fault exactly when its bit in the ok register is clear |
| RegisterBits.WriteBit | src/scd-hwmon.c:2024-2032 | setting or clearing one bit gives that bit the value asked for and keeps every other bit |
| RegisterBits.WriteBitIdle | src/scd-hwmon.c:2024-2032 | writing a bit its present value leaves the register unchanged |
| RegisterBits.FanLedWrite | src/scd-hwmon.c:2016-2036 | the fan's green bit is set exactly when the value meets the green mask, its red bit likewise, and no other fan's bits change |
| RegisterBits.ReadOff | src/scd-hwmon.c:2000-2014 | with neither bit set the LED reads 0 |
| RegisterBits.ReadGreen | src/scd-hwmon.c:2000-2014 | with only the green bit set the LED reads the green mask |
| RegisterBits.ReadRed | src/scd-hwmon.c:2000-2014 | with only the red bit set the LED reads the red mask |
| RegisterBits.ReadBoth | src/scd-hwmon.c:2000-2014 | with both bits set and disjoint masks the LED reads both masks together |
| RegisterBits.FanLedRoundTrip | src/scd-hwmon.c:2000-2036 | with disjoint non-zero masks, writing off, green, red or both and reading back gives the value written |
| RegisterBits.WriteBackIdle | src/scd-hwmon.c:2016-2036 | writing a value that matches both bits leaves both registers unchanged |
| RegisterBits.FanLedWriteBack | src/scd-hwmon.c:2000-2036 | with disjoint non-zero masks, writing back the value read leaves both registers unchanged |
| RegisterBits.Rpm | src/scd-hwmon.c:1992-1993 | the reading of a non-zero count fits in a u32 |
| RegisterBits.FanRpm | src/scd-hwmon.c:1981-1998 | the speed fails with -EDOM exactly when the masked count or the pulses per turn are zero, and otherwise fits in a u32 |
| RegisterBits.RpmTurns | src/scd-hwmon.c:1992-1993 | the speed is hz * 60, taken in u32, over count times pulses, and the exact quotient when hz * 60 fits |
| RegisterBits.DivDiv | src/scd-hwmon.c:1993 | dividing by the count and then the pulses is dividing by their product |
| RegisterBits.LedTable | src/scd-hwmon.c:1638-1663 | the brightnesses 0 to 6 have seven distinct words, and any other value writes the word of 3 |
| RegisterBits.LedRegister | src/scd-hwmon.c:1638-1663 | every brightness, in range or not, writes one of the words the table decodes |
| RegisterBits.LedLevelExact | src/scd-hwmon.c:1638-1663 | only the table's words decode, each to the brightness that writes it |
| Sysfs.Entry.constructor | arista/core/driver/kernel/sysfs.py:27-32 | a new entry has its name and path callback and no cached path |
| Sysfs.Entry.EntryPath | arista/core/driver/kernel/sysfs.py:37-41 | the path is the callback applied to the name; it is cached, and the callback runs once however often the path is asked for |
| Sysfs.FloorDiv | arista/core/driver/kernel/sysfs.py:97 | Python's `//`: the quotient rounded toward minus infinity, for either sign of divisor |
| Sysfs.Linear | arista/core/driver/kernel/sysfs.py:94-98 | the linear map between two ranges, rounded down; it fails exactly when the source range's end (`fromRange[1]`, the divisor) is zero |
| Sysfs.ReadPwm | arista/core/driver/kernel/sysfs.py:100-101 | a pwm reading fails exactly when maxPwm is 0, and a raw value from 0 to maxPwm reads as 0 to 100 percent |
| Sysfs.WritePwm | arista/core/driver/kernel/sysfs.py:103-104 | a speed percentage is written as the largest raw value whose percentage does not exceed it |
| Sysfs.PwmReadEnds | arista/core/driver/kernel/sysfs.py:236-237 | raw 0 reads as 0 percent and raw maxPwm as 100 percent; with maxPwm 0 a read fails |
| Sysfs.PwmWriteEnds | arista/core/driver/kernel/sysfs.py:236-237 | 0 percent writes raw 0 and 100 percent writes raw maxPwm |
| Sysfs.FloorDivExact | arista/core/driver/kernel/sysfs.py:97 | an exact multiple divides back to its quotient |
| Sysfs.PwmRoundTrip | arista/core/driver/kernel/sysfs.py:94-104 | writing a speed and reading it back never gives more than the speed, and loses at most one percent when maxPwm is at least 100 |
| Sysfs.BoolWrite | arista/core/driver/kernel/sysfs.py:121-122 | a boolean is written as 0 or 1 |
| Sysfs.BoolRoundTrip | arista/core/driver/kernel/sysfs.py:117-122 | a written boolean reads back as itself |
| Sysfs.ToMap | arista/core/driver/kernel/sysfs.py:134-139 | every listed value is a key, and each key maps to a value it is listed with |
| Sysfs.Invert | arista/core/driver/kernel/sysfs.py:140 | every listed colour is a key of the inverse, and only listed colours are |
| Sysfs.ToMapItem | arista/core/driver/kernel/sysfs.py:134-139 | with distinct values, each value maps to the colour listed with it |
| Sysfs.InvertItem | arista/core/driver/kernel/sysfs.py:140 | the inverse maps each colour to a value listed with it |
| Sysfs.InvertUndoes | arista/core/driver/kernel/sysfs.py:140-147 | with distinct values, the value the inverse gives a colour maps back to that colour |
| Sysfs.ValueColors | arista/core/driver/kernel/sysfs.py:134-139 | the table is the one given when it is non-empty, and otherwise the default one; it is never empty |
| Sysfs.CustomLedRead | arista/core/driver/kernel/sysfs.py:143-144 | a reading has a colour exactly when the value is in the table; otherwise it fails as the dictionary lookup does |
| Sysfs.CustomLedWrite | arista/core/driver/kernel/sysfs.py:146-147 | a colour can be written exactly when the table lists it |
| Sysfs.CustomLedRoundTrip | arista/core/driver/kernel/sysfs.py:132-147 | every colour the table holds is written as a brightness that reads back as that colour; the table is a dictionary, so its brightness keys are distinct |
| Sysfs.DefaultLedColors | arista/core/driver/kernel/sysfs.py:134-139 | with the default table, off, green, red and amber round-trip and every other colour cannot be written |
| Sysfs.RgbValues | arista/core/driver/kernel/sysfs.py:336-353 | a colour gives three channel values, and an unlisted one gives 0, 0, 0 |
| Sysfs.RgbInverse | arista/core/driver/kernel/sysfs.py:336-343 | the channel table and its inverse undo each other on the five listed colours |
| Sysfs.Written | arista/core/driver/kernel/sysfs.py:354-356 | each channel that exists takes the new value, and the others stay absent |
| Sysfs.RgbRoundTrip | arista/core/driver/kernel/sysfs.py:348-357 | with all three channels present, setting a colour reads back that colour, or off for an unlisted colour |
| Sysfs.RgbColor | arista/core/driver/kernel/sysfs.py:348-350 | a reading has a colour only when three channels give one of the listed triples, missing channels counting as 0 |
| Sysfs.RgbLed.constructor | arista/core/driver/kernel/sysfs.py:329-343 | the LED starts with the channels given |
| Sysfs.RgbLed.SetColor | arista/core/driver/kernel/sysfs.py:352-357 | each existing channel is written its value for the colour, and the call returns true |
| Sysfs.RgbLed.GetColor | arista/core/driver/kernel/sysfs.py:348-350 | the colour read is a listed one, and three channels at 0 read as off |
| Sysfs.ActiveValue | arista/core/driver/kernel/sysfs.py:522-523 | the active raw value is 0 for an active-low line and 1 otherwise |
| Sysfs.IsActive | arista/core/driver/kernel/sysfs.py:525-528 | outside simulation a line is active exactly when its raw value differs from its effective active-low flag |
| Sysfs.SetActiveRaw | arista/core/driver/kernel/sysfs.py:530-531 | the raw value written is the value, inverted for an active-low line |
| Sysfs.GpioRoundTrip | arista/core/driver/kernel/sysfs.py:513-531 | setting a line active or inactive and reading it back gives the value set, whatever the two active-low flags |
| Sysfs.GetFault | arista/core/driver/kernel/sysfs.py:267-273 | a fan is faulty exactly when the fault GPIO is active or the fault entry exists and reads true |
| Sysfs.GetStatus | arista/core/driver/kernel/sysfs.py:275-278 | a fan is healthy only if present, and a present fan is healthy exactly when it has no fault |
| Sysfs.FanHealthy | arista/core/driver/kernel/sysfs.py:267-278 | a fan is healthy exactly when it is present, its fault GPIO is not active and its fault entry does not read true |
| Sysfs.FanSpeed.constructor | arista/core/driver/kernel/sysfs.py:229-237 | a fan starts with no last speed |
| Sysfs.FanSpeed.SetSpeed | arista/core/driver/kernel/sysfs.py:280-286 | the speed is remembered; leaving 100 percent and reaching it are told apart; the raw pwm written is the speed's linear image, and the write fails when the entry is missing |
| Sysfs.FanSpeed.Speed | arista/core/driver/kernel/sysfs.py:262-265 | a missing pwm entry reads as 0; otherwise the reading fails exactly when maxPwm is 0 and a raw value in range reads as 0 to 100 percent |
| Sysfs.GetOr | arista/core/driver/kernel/sysfs.py:191-197 | an existing entry's reading wins; otherwise the result is the first default that is not None, or None when all are |

## Left out

- Register I/O: `scd_read_register`/`scd_write_register` are not modelled as memory. The SMBus master's registers are the scripted `Device`; the bit helpers take the value read as a parameter and return the word written.
- Locking: the driver's mutexes and spinlocks, and the concurrency they guard against, are not modelled. Every operation runs to completion alone.
- Delays: `msleep`/`udelay` between polls become poll counts. The MDIO backoff is an abstract sequence of waits, so wall-clock time is not modelled.
- Kernel registration: `i2c_add_adapter`, the mdiobus and netdev calls, hwmon, `led_classdev`, sysfs groups and PCI probing are the `Env` oracle. The oracle gives allocation failures, adapter numbers, hardware versions and peripheral-add results; the kernel's own behaviour behind them is not modelled.
- Log messages: the `dev_*` log text is not modelled. Only the order of the SMBus and MDIO master resets is recorded, as `HwEvent`s; peripheral adds are kept as the list of added peripherals.
- Kstrtol, Kstrtoull: modelled from the kernel's documented base-0 and base-10 rules. `lib/kstrtox.c` is not part of this model.
- SmbusMasterXfer: a single message with an empty buffer reads `buf[0]` and passes a data size of -1 in C, which is undefined. The model requires a non-empty buffer for that case. A call with no messages at all (`num == 0`) reads `msgs[0]` in C, and the model excludes it as well.
- SmbusMasterAddCodes: models the intended failure path of a failing bus: the bus's error, the master reset and freed, the lists unchanged. As written, that path ends in `list_del` on a master that was never linked, a NULL dereference. This is logged under Findings and shown by `SmbusFailBusDerefsNull`.
- MdioMasterAddSpec: models the intended failure path of a failing bus in the same way. As written, a bus whose allocation fails sends the master add to the same `list_del` on a never-linked master (`MdioFailBusDerefsNull`), while a bus whose registration fails never returns there: its own fail label frees a NULL `mii_bus` and leaks the allocated one (`MdioBusAddFailDerefsNull`); see Findings.
- Smbus engine write paths: the C code reads the caller's buffer without bounds checks. The model requires the bytes it reads to exist (`BufOk`, `WriteInBounds`).
- Mdio.MiiIdDecode: `scd_mdio_mii_id` and `MiiId` both compute `(prtad << 5) | devad` with no mask, so neither truncates. The decoding lemma requires `prtad < 0x400` and `devad < 32`: a larger port address reaches bit 0x8000, the `MDIO_PHY_ID_C45` flag, and a larger devad overlaps the port field, so such ids do not decode back.
- BitIndex: shifting 1 by 32 or more is undefined in C, so bit indices are below 32.
- RegisterBits.Rpm: `hz` and `pulses` are taken as u32 values. Only the `hz * 60` product is reduced modulo 2^32, as in C.
- scd-mdio.h: the MDIO request/response unions, `MDIO_WAIT_*`, `FAN_ADDR*` and `fan_info_find` are not part of this model. The MDIO words are datatypes, and fan addresses and `fan_info` values are parameters.
- Fan attributes: `scd_fan_led_store` (its `kstrtou32` parse), the present and id attributes, and the `led_classdev` brightness wrappers around the fan LED read and write are not modelled. Their register logic is `FanLedRead`/`FanLedWrite`.
- TweakDump.ClipAppend: the dump loop's `count == max` exit never fires. `scnprintf` stops one byte short of the end, so for a non-empty buffer the model states this as the clipping lemma rather than as a separate exit.
- Sysfs file access: the Python text conversions (`str`, `int`, `rstrip`), file I/O, and the read and write failure paths are abstract. An entry is an `Option` value: missing means `exists()` is false.
- Sysfs simulation mode: modelled only in `IsActive`, where simulation makes a line read active. The simulated `'1'` read and the always-successful write are not modelled.
- SysfsEntryFloat and the sensor, rail and voltage classes are not modelled: they use floating point.
- Sysfs.LedColor: `descs/led.py` is not part of this model. Colours are the five the two LED classes name, plus `Unlisted` for any other.
- Sysfs.FanHealthy: `getPresence` is a parameter, because it reads the `present` or `input` entry.
- Sysfs.FanSpeed.SetSpeed: the two log messages are returned as a `SpeedLog` value instead of being written to a logger.

## Findings

| source | as written | input that shows it | evidently intended | confidence | as-written member | corrected member |
|---|---|---|---|---|---|---|
| src/scd-hwmon.c:1755 | writing 0 to an active-low GPIO ORs the complement of the bit's mask into the register, which sets every other bit of the register and leaves the line's own bit unchanged | register 0, bit 0, active low, write `0`: the word written is 0xFFFFFFFE and the line still reads 1 | OR-ing in the bit's mask itself, which makes the line inactive and keeps the other bits | not executed | RegisterBits.ActiveLowClearFails | RegisterBits.Update |
| src/scd-hwmon.c:1821 | the transceiver store ORs in the same complemented mask for an active-low line written 0 | the register read is 1, bit 0, active low: the line reads 0, and writing back `0` writes 0xFFFFFFFF | OR-ing in the bit's mask itself | not executed | RegisterBits.GpioEchoAsWritten | RegisterBits.Xcvr.Set |
| src/scd-hwmon.c:1166 | when a bus of a new SMBus master fails to register, the failure label calls the master's removal, which ends with `list_del` on the master's list link; the master was zero-filled by kzalloc and never linked | a free id, memory available and bus 0 failing registration: `list_del` writes through the NULL neighbours of the master's link | undoing the buses and freeing the master without unlinking it, then returning the bus's error | not executed | Registry.SmbusFailBusDerefsNull | Registry.SmbusMasterAddCodes |
| src/scd-hwmon.c:1628 | the MDIO master add's failure label makes the same `list_del` on a master that was never linked | a bus add whose kzalloc or mdiobus_alloc fails after the master was allocated | freeing the master without unlinking it, then returning the bus's error | not executed | Registry.MdioFailBusDerefsNull | Registry.MdioMasterAddSpec |
| src/scd-hwmon.c:1532 | when `mdiobus_register` fails, the bus add frees the `mii_bus` field of its zero-filled struct, which is still NULL, instead of the mii bus it just allocated | an allocated mii bus whose registration returns -ENODEV: `mdiobus_free(NULL)` reads through NULL and the allocated bus leaks | freeing the local mii bus | not executed | Registry.MdioBusAddFailDerefsNull | Registry.FailBusIntended |

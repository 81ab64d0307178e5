# Anjay-pico-client core, modelled in Dafny

This project models the parts of the Anjay LwM2M client for the Raspberry
Pi Pico W that hold logic of their own, and proves properties about them:

- **Aligned flash writer** (`FlashAlignedWriter`). A byte stream arriving
  in arbitrary chunks is staged in a fixed-capacity batch buffer. The
  flash-programming callback is invoked only with an exactly full buffer,
  at the write offset. A final flush hands over the short remainder. The
  callback is the class `FlashSink`. It logs every invocation and answers
  from a queue of statuses.
- **Firmware update session** (`FirmwareUpdate`). These are the `open`,
  `write`, `finish`, `reset` and `perform_upgrade` stream callbacks over the
  module's globals, plus the initial result chosen at install time. The
  bootloader library (`pfb_*`) and the Anjay scheduler are classes that
  log the calls they receive and answer from queues.
- **LwM2M Time object** (`TimeObject`, object 3333). An instance list kept
  in strictly ascending instance-id order, with these handlers:
  - find, list, create, remove and reset an instance;
  - list, read and write its resources;
  - transaction begin and rollback, which back up and restore each
    instance's application type.
- **DS18B20 1-Wire driver** (`Ds18b20`):
  - the Dallas/Maxim 1-Wire CRC-8 (x^8 + x^5 + x^4 + 1, processed least
    significant bit first with the reflected constant 0x8C, Maxim
    Application Note 27);
  - the least-significant-bit-first byte order of the bus;
  - SKIP ROM / MATCH ROM command framing;
  - the CRC acceptance of the ROM code and the scratchpad.

  The bus is the class `OneWireBus`. It records the bits written and
  answers reads from the bits the device will send.
- **Monotonic clock** (`CompatTime`). `avs_time_monotonic_now` lifts the
  wrapping 32-bit `sys_now()` millisecond counter into a non-decreasing
  value kept in `prev_ms`. Real time is the same reading.
- **mbed TLS timer callbacks** (`MbedtlsTiming`). These are
  `mbedtls_timing_get_timer`, `mbedtls_timing_set_delay` and
  `mbedtls_timing_get_delay`, with every clock reading taken through the
  monotonic clock.

`Types` holds the shared machine types: `byte` (`uint8_t`), the 32-bit
unsigned range and the conversion into it, and `Option`.

Two places where the model and a plain reading of the source part ways:

- The model follows the code, not its comment. The header comment (`firmware_update/flash_aligned_writer.h:25-28`) asks
  for lengths that are multiples of 256. Flush advances the offset by the
  short remainder (`firmware_update/flash_aligned_writer.c:73-79`). So
  alignment is proved only for the offsets reached through `write`
  (`FullBlocksKeepAlignment`, `Writer.Write`).
- The model departs from the code here. The correction step of the
  monotonic clock is written `portMAX_DELAY + 1`. With a 32-bit
  `TickType_t`, that sum is 0 (see Findings). The clock is modelled with the
  evidently intended step, 2^32.

## Model

| member | source | states |
|---|---|---|
| FlashAlignedWriter.FlashSink.Program | firmware_update/flash_aligned_writer.h:22-23 | the callback answers the flash driver's next status and the invocation (offset, bytes, status) is logged |
| FlashAlignedWriter.StoredConcat | firmware_update/flash_aligned_writer.c:54-61 | what two consecutive runs of sink calls store is what the first stored followed by what the second stored |
| FlashAlignedWriter.PlacedConcat | firmware_update/flash_aligned_writer.c:54-61 | two runs of calls, each targeting the offset just past the bytes stored before it, compose into one such run |
| FlashAlignedWriter.FullBlocksKeepAlignment | firmware_update/flash_aligned_writer.h:25-28 | when every block handed over is a full batch, the bytes stored are capacity times the number of successful calls, so the offset stays a multiple of the capacity |
| FlashAlignedWriter.Writer.constructor | firmware_update/flash_aligned_writer.c:25-38 | a writer over the given buffer, capacity and callback, with nothing staged and offset 0 |
| FlashAlignedWriter.Writer.Stage | firmware_update/flash_aligned_writer.c:47-51 | the chunk is appended after the staged bytes; nothing is stored and the offset is unchanged |
| FlashAlignedWriter.Writer.Emit | firmware_update/flash_aligned_writer.c:53-61 | one call with the staged bytes at the write offset; only a success stores them, advances the offset by their number and empties the buffer |
| FlashAlignedWriter.Writer.CopyStep | firmware_update/flash_aligned_writer.c:44-62 | one turn of the copy loop consumes what fits and emits only an exactly full buffer, at the current offset |
| FlashAlignedWriter.Writer.Write | firmware_update/flash_aligned_writer.c:40-66 | every call is a full batch placed right after the bytes stored before it, and gets the flash driver's next answer; the offset advances by whole batches only; success consumes the whole chunk; the first failure's status is returned verbatim, with the full batch still staged and the rest unconsumed; a batch left staged by a failure is re-emitted first, at the same offset, unless the chunk is empty: an empty chunk makes no call and succeeds with the state unchanged |
| FlashAlignedWriter.Writer.Flush | firmware_update/flash_aligned_writer.c:68-82 | an empty buffer makes no call and succeeds; otherwise one call with the remainder at the offset, returning the flash driver's next answer; on success everything consumed is stored and the buffer is empty; on failure the state is unchanged |
| FirmwareUpdate.Bootloader.InitializeDownloadSlot | firmware_update/firmware_update.c:51 | the call is logged and nothing else changes |
| FirmwareUpdate.Bootloader.FirmwareSha256Check | firmware_update/firmware_update.c:92 | the check of the given size is logged and answered from the queue |
| FirmwareUpdate.Bootloader.MarkValid | firmware_update/firmware_update.c:115 | the call is logged and nothing else changes |
| FirmwareUpdate.Bootloader.Update | firmware_update/firmware_update.c:111 | the call is logged and nothing else changes |
| FirmwareUpdate.Scheduler.ScheduleReboot | firmware_update/firmware_update.c:119-121 | a reboot job with the given delay is queued exactly when the scheduler's answer is 0 |
| FirmwareUpdate.InitialState | firmware_update/firmware_update.c:133-141 | SUCCESS exactly after a firmware update, NEUTRAL exactly after a rollback without an update, the default otherwise |
| FirmwareUpdate.Install | firmware_update/firmware_update.c:132-143 | the initial state handed to Anjay is the one InitialState chooses for this boot |
| FirmwareUpdate.UpdateSession.constructor | firmware_update/firmware_update.c:38-42 | the globals at start-up: inactive, nothing downloaded, no writer yet |
| FirmwareUpdate.UpdateSession.Open | firmware_update/firmware_update.c:44-60 | initialises the download slot, makes a fresh empty writer over the static buffer, zeroes the counter, activates the session and returns 0 |
| FirmwareUpdate.UpdateSession.Write | firmware_update/firmware_update.c:61-75 | the bootloader receives only full 256-byte blocks, each right after the bytes it accepted before, each with the flash driver's next answer; on success the counter grows by the chunk's length and the chunk joins the accepted bytes; on failure the writer's status is returned and the counter is unchanged; an empty chunk succeeds with no flash call |
| FirmwareUpdate.UpdateSession.Finish | firmware_update/firmware_update.c:77-98 | deactivates first; the flush makes no call for an empty buffer, else exactly one call with the remainder at the write offset, answered by the flash driver's next status; a failed flush gives -1 without the SHA-256 check; otherwise the check runs over exactly the counted bytes, and 0 is returned exactly when it passes; after a successful flush with no failed write, the bytes stored are exactly the downloaded image; each operation extends the stored bytes by exactly what its own sink calls accepted |
| FirmwareUpdate.UpdateSession.Reset | firmware_update/firmware_update.c:100-104 | deactivates the session and changes nothing else |
| FirmwareUpdate.UpdateSession.PerformUpgrade | firmware_update/firmware_update.c:114-122 | marks the slot valid, then asks for the reboot job one second later and returns the scheduler's result, taking one answer from the scheduler's queue and none from the SHA-256 queue |
| FirmwareUpdate.UpdateSession.Reboot | firmware_update/firmware_update.c:106-112 | hands over to the bootloader's update, taking no SHA-256 answer |
| TimeObject.ListResources | time_object/time_object.c:189-204 | exactly Current Time (5506), Fractional Time (5507) and Application Type (5750), in that ascending order; Fractional Time is the only absent one |
| TimeObject.Lookup | time_object/time_object.c:77-89 | finds an instance with that id exactly when the id is in the list |
| TimeObject.LookupAt | time_object/time_object.c:77-89 | in a sorted list the instance at any position is the one a lookup of its id finds, so the early exit of the scan loses nothing |
| TimeObject.InsertSortedContents | time_object/time_object.c:131-138 | insertion adds exactly the new instance: same elements plus one, same ids plus the new one |
| TimeObject.InsertSortedKeepsOrder | time_object/time_object.c:117-140 | inserting an absent id before the first larger id keeps the list strictly ascending |
| TimeObject.InsertSortedAt | time_object/time_object.c:131-138 | the insertion point is after every smaller id and before the first larger one |
| TimeObject.NewInstance | time_object/time_object.c:104-111 | a valid id only; the new instance carries that id and an empty application type, its backup zeroed as the fresh element is |
| TimeObject.CreatedReadsEmpty | time_object/time_object.c:104-140 | after an absent id is added, a lookup of that id finds the new instance, with an empty application type |
| TimeObject.RemoveAbsent | time_object/time_object.c:165-171 | removing an id that is not in the list leaves it as it was |
| TimeObject.RemoveAt | time_object/time_object.c:160-164 | in a sorted list, removing the id at a position unlinks that element alone |
| TimeObject.RemoveIidKeepsOrder | time_object/time_object.c:152-172 | removal keeps the list sorted and takes out exactly that id; the list shrinks by one exactly when the id was present |
| TimeObject.SetAppTypeAt | time_object/time_object.c:253-256 | in a sorted list, setting the application type of an id changes that one element alone |
| TimeObject.WriteThenLookup | time_object/time_object.c:239-257 | after writing an instance's application type, a read of it gives the new value and every other instance reads as before; ids and order are unchanged |
| TimeObject.EditsKeepBackups | time_object/time_object.c:239-257 | writes and resets of application types inside a transaction leave ids and backups untouched |
| TimeObject.RollbackRestores | time_object/time_object.c:263-287 | for a transaction that only writes or resets application types: begin, those edits, then rollback gives every instance back the application type it had at begin |
| TimeObject.TimeObject.constructor | time_object/time_object.c:309-313 | a zeroed object with an empty instance list |
| TimeObject.TimeObject.FindInstance | time_object/time_object.c:77-89 | the index of the instance with that id, or none exactly when the id is absent; the scan stops at the first larger id |
| TimeObject.TimeObject.ListInstances | time_object/time_object.c:91-102 | the ids in list order, hence strictly ascending |
| TimeObject.TimeObject.AddInstance | time_object/time_object.c:117-140 | a failed allocation changes nothing; otherwise the new instance with an empty type is linked before the first larger id and the list stays valid |
| TimeObject.TimeObject.InstanceCreate | time_object/time_object.c:142-150 | 0 exactly when the allocation succeeds, otherwise ANJAY_ERR_INTERNAL with the list unchanged |
| TimeObject.TimeObject.InstanceRemove | time_object/time_object.c:152-172 | the list loses exactly that id; 0 exactly when it was present, ANJAY_ERR_NOT_FOUND otherwise |
| TimeObject.TimeObject.InstanceReset | time_object/time_object.c:174-187 | the application type of that instance becomes empty and nothing else changes |
| TimeObject.TimeObject.ReadResource | time_object/time_object.c:206-237 | Current Time gives the time in seconds as an integer, or -1 when it cannot be converted; Application Type gives the instance's string; a non-zero status from `anjay_ret_i64` / `anjay_ret_string` is returned in place of the value; any other resource gives ANJAY_ERR_METHOD_NOT_ALLOWED |
| TimeObject.TimeObject.ResourceWrite | time_object/time_object.c:239-261 | Application Type stores the string into that instance alone and returns the string reader's status; any other resource gives ANJAY_ERR_METHOD_NOT_ALLOWED and changes nothing |
| TimeObject.TimeObject.TransactionBegin | time_object/time_object.c:263-274 | every instance's application type is copied to its backup |
| TimeObject.TimeObject.TransactionRollback | time_object/time_object.c:276-287 | every instance's backup is copied back to its application type |
| TimeObject.Create | time_object/time_object.c:308-322 | null exactly when an allocation fails; otherwise exactly instance 0 with the type "Clock 0" |
| Ds18b20.StepXor | temperature_object_ds18b20/ds18b20.c:38-45 | one bit of the CRC loop, with the data byte shifted alongside, is one register step of crc XOR byte |
| Ds18b20.CrcStepsXor | temperature_object_ds18b20/ds18b20.c:36-47 | after any number of bits, the running CRC XOR the unconsumed data is the register stepped that many times from crc XOR byte |
| Ds18b20.ByteCrcShift | temperature_object_ds18b20/ds18b20.c:36-47 | byte_crc depends only on crc XOR byte: it is eight register steps of it |
| Ds18b20.ByteCrcZero | temperature_object_ds18b20/ds18b20.c:36-47 | one more byte gives CRC 0 exactly when that byte equals the CRC so far |
| Ds18b20.CrcAppendCrc | temperature_object_ds18b20/ds18b20.c:49-58 | a byte string followed by its own CRC has CRC 0 |
| Ds18b20.CrcAcceptance | temperature_object_ds18b20/ds18b20.c:137-142 | the last byte equals the CRC of the bytes before it exactly when the CRC of the whole frame is 0 |
| Ds18b20.ByteCrc | temperature_object_ds18b20/ds18b20.c:36-47 | the counted loop computes the CRC after the byte, as ByteCrcShift characterises it |
| Ds18b20.WireCrc | temperature_object_ds18b20/ds18b20.c:49-58 | the left fold of byte_crc from 0 over the bytes, so an empty input gives 0 |
| Ds18b20.CrcReferenceVector | temperature_object_ds18b20/ds18b20.c:36-58 | the worked example of Maxim Application Note 27: ROM code 02 1C B8 01 00 00 00 has CRC A2, and with A2 appended the CRC is 0 |
| Ds18b20.ByteOfBits | temperature_object_ds18b20/ds18b20.c:103-109 | packing the eight bits of a byte, least significant first, gives the byte back |
| Ds18b20.BitsOfByte | temperature_object_ds18b20/ds18b20.c:111-121 | splitting a packed byte gives its eight bits back |
| Ds18b20.ShiftedInByte | temperature_object_ds18b20/ds18b20.c:111-121 | after shifting in eight bits at the top, the first bit received is the least significant bit |
| Ds18b20.WriteReadRoundTrip | temperature_object_ds18b20/ds18b20.c:103-121 | the byte wire_read takes off the bus is the byte wire_write put on it |
| Ds18b20.CommandFrame | temperature_object_ds18b20/ds18b20.c:145-162 | without a ROM code the frame is SKIP ROM and the command; with one, MATCH ROM, the code, then the command |
| Ds18b20.CommandFrameBits | temperature_object_ds18b20/ds18b20.c:152-160 | the bits of a frame are the bits of the ROM command, of the code if any, then of the command |
| Ds18b20.OneWireBus.WireReset | temperature_object_ds18b20/ds18b20.c:60-74 | 0 when a device answers the reset pulse, 1 otherwise |
| Ds18b20.OneWireBus.WriteBit | temperature_object_ds18b20/ds18b20.c:76-89 | the bit is appended to what the bus carried |
| Ds18b20.OneWireBus.ReadBit | temperature_object_ds18b20/ds18b20.c:91-101 | the next bit the device sends, 1 from a silent bus |
| Ds18b20.OneWireBus.WireWrite | temperature_object_ds18b20/ds18b20.c:103-109 | the eight bits of the byte go out least significant first |
| Ds18b20.OneWireBus.WireRead | temperature_object_ds18b20/ds18b20.c:111-121 | eight bits come in, the first received in the least significant place |
| Ds18b20.OneWireBus.WireReadBytes | temperature_object_ds18b20/ds18b20.c:133-135 | n consecutive bytes read from the bits the device sends, eight bits each |
| Ds18b20.OneWireBus.SendCmd | temperature_object_ds18b20/ds18b20.c:145-162 | 1 and nothing sent when no device answers the reset; otherwise 0, and exactly the bits of the command frame are sent |
| Ds18b20.OneWireBus.WriteRomCode | temperature_object_ds18b20/ds18b20.c:156-158 | the ROM code goes out byte after byte |
| Ds18b20.OneWireBus.StartMeasure | temperature_object_ds18b20/ds18b20.c:198-200 | CONVERT T framed as SendCmd frames it |
| Ds18b20.OneWireBus.ReadAddress | temperature_object_ds18b20/ds18b20.c:123-143 | 1 with nothing sent when no device answers; otherwise READ ROM, then eight bytes read, accepted (0) exactly when the last is the CRC of the first seven, so an accepted code has CRC 0 |
| Ds18b20.OneWireBus.ReadScratchpad | temperature_object_ds18b20/ds18b20.c:164-183 | 1 when the command cannot be sent; otherwise nine bytes read, accepted exactly when the last is the CRC of the first eight, so an accepted scratchpad has CRC 0 |
| CompatTime.StepAsWrittenIsZero | common/compat/time.c:27 | portMAX_DELAY + 1 in 32-bit unsigned arithmetic is 0 |
| CompatTime.AsWrittenLoopNeverEnds | common/compat/time.c:26-28 | with the step as written, a reading behind prev_ms stays behind after any number of iterations |
| CompatTime.Lift | common/compat/time.c:25-29 | the corrected value is not behind the raw reading or prev_ms, differs from the reading by a whole number of periods, is the reading itself when that is not behind, and is the first such value |
| CompatTime.LiftNonDecreasing | common/compat/time.c:26-29 | successive readings never go back, whatever the counter says |
| CompatTime.LiftTracksCounter | common/compat/time.c:25-29 | while the counter does not wrap, the values advance exactly as it does |
| CompatTime.LiftAcrossWrap | common/compat/time.c:26-28 | a counter that fell behind is lifted by one whole period |
| CompatTime.MonotonicClock.constructor | common/compat/time.c:24 | prev_ms starts at 0 |
| CompatTime.MonotonicClock.MonotonicNow | common/compat/time.c:23-32 | the loop returns the corrected value Lift characterises and records it in prev_ms |
| CompatTime.MonotonicClock.RealNow | common/compat/time.c:34-39 | real time is the monotonic reading |
| MbedtlsTiming.HrTime.GetTimer | common/compat/mbedtls/mbedtls_timing.c:102-119 | reads the clock; with reset, records the reading and returns 0; otherwise returns the milliseconds since the recorded start, as an unsigned long |
| MbedtlsTiming.Elapsed | common/compat/mbedtls/mbedtls_timing.c:115-118 | the true difference when it fits in 32 bits, and always congruent to it modulo 2^32 |
| MbedtlsTiming.ElapsedSinceReset | common/compat/mbedtls/mbedtls_timing.c:108-118 | a timer started at the clock's last reading shows the true time elapsed at the next reading, while that is below 2^32 ms |
| MbedtlsTiming.DelayState | common/compat/mbedtls/mbedtls_timing.c:88-99 | -1 exactly when no delay is set; 2 exactly when the final delay has passed; 1 exactly when only the intermediate one has; 0 exactly when neither has |
| MbedtlsTiming.DelayStateMonotone | common/compat/mbedtls/mbedtls_timing.c:93-99 | with a delay set, the answer never goes back as elapsed time grows |
| MbedtlsTiming.DelayContext.SetDelay | common/compat/mbedtls/mbedtls_timing.c:71-79 | stores both delays; a nonzero final delay restarts the timer at the current reading; a zero one leaves the timer and the clock alone |
| MbedtlsTiming.DelayContext.GetDelay | common/compat/mbedtls/mbedtls_timing.c:84-100 | -1 without reading the clock when no delay is set; otherwise the DelayState of the time elapsed since the timer's start |

## Left out

- The GPIO timing of the 1-Wire bus (`wire_reset`, `write_bit`, `read_bit`) is hardware. The model keeps only its logic: presence is a constant of the bus, and bits written and read are sequences.
- `ds18b20_get_temp`, `ds18b20_init`, `ds18b20_release`, `temperature_read_data` and `temperature_get_data` are left out. They do floating-point conversion (`/16.0`), apply the 85.0 and 80.0 thresholds, and handle the GPIO pin set-up and the static copies of the results.
- The entropy source `entropy_callback`, its registration, and `mbedtls_timing_hardclock` are left out. They read the hardware random bit and the clock.
- Logging (`avs_log`) has no behaviour to model and is left out.
- The Anjay registration calls are left out: `anjay_fw_update_install` with the handler table, and the Time object definition table.
- `time_object_release` only frees memory and is left out.
- `get_obj` is pointer arithmetic and is left out.
- The source's `assert`s on callers become `requires`:
  - the session must be active for `write` and `finish`;
  - the instance must exist for `reset`, `read` and `write`;
  - the `riid` must be `ANJAY_ID_INVALID`;
  - the id must be absent for `add_instance`.
- FirmwareUpdate.InitialState: the numeric values of Anjay's initial-result enum are not modelled. `Default` is the zero-initialised `state.result`; if `ANJAY_FW_UPDATE_INITIAL_NEUTRAL` is 0 in Anjay, `Default` and `Neutral` reach Anjay as the same value, which the three-way datatype does not show.
- TimeObject.RollbackRestores: covers transactions whose edits are application-type writes and resets. Creating or removing an instance between begin and rollback is outside the lemma.
- FirmwareUpdate.Install: returns only the initial state; the result of registering the handlers with Anjay is not modelled.
- FirmwareUpdate.UpdateSession.Write: `downloaded_bytes` is a `size_t` the source never checks; a precondition keeps it within `SIZE_MAX` instead of modelling wrap-around.
- FlashAlignedWriter.Writer.Write: the write offset is an unbounded number; `size_t` wrap-around of the offset is not modelled.
- FlashAlignedWriter.Writer.Flush: the write offset is an unbounded number; `size_t` wrap-around of the offset it advances is not modelled.
- FlashAlignedWriter.Writer.Write: the `memcpy` into the batch buffer is an array update, but aliasing between `data` and the batch buffer is not modelled, because the input chunk is a value.
- TimeObject.TimeObject.ResourceWrite: models a successful `anjay_get_string`, which stores a string shorter than 64 bytes, and returns the status given. What a failing read leaves in the buffer is not modelled.
- TimeObject.TimeObject.ReadResource: the current time comes in as a parameter. It is not tied to the monotonic clock's reading divided by 1000, because `avs_time_real_to_scalar` is not part of this model.
- TimeObject.TimeObject.InstanceRemove: the source reaches `assert(0)` for an absent id before returning `ANJAY_ERR_NOT_FOUND`. The model returns the error, as a build without assertions does.
- The Time object's linked list is a sequence of instance values. The aliasing of list elements, and the pointer that `add_instance` returns, are modelled as an index.
- CompatTime.MonotonicClock.MonotonicNow: uses the intended correction step of 2^32 rather than the as-written one (see Findings). The 64-bit wrap of `prev_ms` is not modelled.
- FirmwareUpdate.UpdateSession.PerformUpgrade: the bootloader and the scheduler keep separate logs, so the contract does not state that the slot is marked valid before the reboot is scheduled.
- MbedtlsTiming.HrTime.GetTimer: the failure paths of `avs_time_monotonic_diff` and `avs_time_duration_to_scalar` on invalid times are not modelled. Monotonic readings are always valid here.

## Findings

| source | as written | input that shows it | evidently intended | confidence | as-written member | corrected member |
|---|---|---|---|---|---|---|
| common/compat/time.c:27 | `ms += portMAX_DELAY + 1`, where `portMAX_DELAY` is a 32-bit `TickType_t` on this port, adds 0: the sum wraps in 32-bit unsigned arithmetic | `prev_ms` = 4294967295 after a reading at the top of the counter, then `sys_now()` wraps to 0: `ms < prev_ms` holds forever and the call never returns | add one counter period, 2^32, per wrap | not executed; assumes the RP2040 FreeRTOS port's 32-bit `TickType_t` (the FreeRTOS configuration is not part of this model) | CompatTime.AsWrittenLoopNeverEnds | CompatTime.MonotonicClock.MonotonicNow |

/**
 * The firmware update session: the Anjay firmware-update stream callbacks
 * `open`, `write`, `finish`, `reset` and `perform_upgrade` over the
 * globals `update_initialized`, `downloaded_bytes` and the aligned flash
 * writer, and the choice of the initial update result at install time.
 *
 * The pico-fota-bootloader calls are the class Bootloader, which logs
 * every call it receives and answers the SHA-256 check from a queue; the
 * Anjay scheduler is the class Scheduler, which logs the jobs it accepts.
 */
module FirmwareUpdate {
  import opened Types
  import opened FlashAlignedWriter

  /** `PFB_ALIGN_SIZE`: the flash programming unit, and the size of the batch buffer. */
  const PFB_ALIGN_SIZE: nat := 256
  /** The delay before the reboot into the new firmware: one second. */
  const REBOOT_DELAY_MS: nat := 1000
  /** `SIZE_MAX` of the 32-bit target. */
  const SIZE_MAX: nat := U32_MODULUS - 1

  /** A call into the bootloader library. */
  datatype SlotEvent =
    | InitializeDownloadSlot
    | Sha256Check(size: nat)
    | MarkDownloadSlotAsValid
    | PerformUpdate

  /** The pico-fota-bootloader library (`pfb_*`). */
  class Bootloader {
    /** Every call received, in order. */
    ghost var events: seq<SlotEvent>
    /** The answers of the next SHA-256 checks (0: the image matches); 0 once exhausted. */
    var shaReplies: seq<int>
    /** `pfb_is_after_firmware_update()` for this boot. */
    const afterFirmwareUpdate: bool
    /** `pfb_is_after_rollback()` for this boot. */
    const afterRollback: bool

    constructor (afterFirmwareUpdate: bool, afterRollback: bool, shaReplies: seq<int>)
      ensures this.afterFirmwareUpdate == afterFirmwareUpdate && this.afterRollback == afterRollback
      ensures this.shaReplies == shaReplies && events == []
    {
      this.afterFirmwareUpdate := afterFirmwareUpdate;
      this.afterRollback := afterRollback;
      this.shaReplies := shaReplies;
      events := [];
    }

    method InitializeDownloadSlot()
      modifies this
      ensures events == old(events) + [SlotEvent.InitializeDownloadSlot] && shaReplies == old(shaReplies)
    {
      events := events + [SlotEvent.InitializeDownloadSlot];
    }

    /** Checks the SHA-256 of the first `size` bytes of the download slot; nonzero on mismatch. */
    method FirmwareSha256Check(size: nat) returns (r: int)
      modifies this
      ensures r == HeadOr(old(shaReplies), 0) && shaReplies == TailOf(old(shaReplies))
      ensures events == old(events) + [Sha256Check(size)]
    {
      r := HeadOr(shaReplies, 0);
      shaReplies := TailOf(shaReplies);
      events := events + [Sha256Check(size)];
    }

    method MarkValid()
      modifies this
      ensures events == old(events) + [MarkDownloadSlotAsValid] && shaReplies == old(shaReplies)
    {
      events := events + [MarkDownloadSlotAsValid];
    }

    method Update()
      modifies this
      ensures events == old(events) + [PerformUpdate] && shaReplies == old(shaReplies)
    {
      events := events + [PerformUpdate];
    }
  }

  /** A job accepted by the scheduler: run the reboot after `delayMs` milliseconds. */
  datatype Job = RebootAfter(delayMs: nat)

  /** The Anjay scheduler, as far as `AVS_SCHED_DELAYED` is concerned. */
  class Scheduler {
    /** The jobs accepted so far. */
    ghost var jobs: seq<Job>
    /** The results of the next scheduling requests (0: accepted); 0 once exhausted. */
    var replies: seq<int>

    constructor (replies: seq<int>)
      ensures this.replies == replies && jobs == []
    {
      this.replies := replies;
      jobs := [];
    }

    /** Schedules the reboot job `delayMs` from now; a job is queued only when the result is 0. */
    method ScheduleReboot(delayMs: nat) returns (r: int)
      modifies this
      ensures r == HeadOr(old(replies), 0) && replies == TailOf(old(replies))
      ensures jobs == old(jobs) + (if r == 0 then [RebootAfter(delayMs)] else [])
    {
      r := HeadOr(replies, 0);
      replies := TailOf(replies);
      if r == 0 {
        jobs := jobs + [RebootAfter(delayMs)];
      }
    }
  }

  /** The initial result reported to Anjay (`anjay_fw_update_initial_result_t`). */
  datatype InitialResult = Default | Success | Neutral

  /**
   * The choice of `fw_update_install`: SUCCESS after an update (checked
   * first), NEUTRAL after a rollback, the zero-initialised default otherwise.
   */
  function InitialState(afterFirmwareUpdate: bool, afterRollback: bool): (r: InitialResult)
    ensures r == Success <==> afterFirmwareUpdate
    ensures r == Neutral <==> !afterFirmwareUpdate && afterRollback
    ensures r == Default <==> !afterFirmwareUpdate && !afterRollback
  {
    if afterFirmwareUpdate then Success
    else if afterRollback then Neutral
    else Default
  }

  /** `fw_update_install`: the initial state handed to Anjay for this boot. */
  method Install(boot: Bootloader) returns (state: InitialResult)
    ensures state == InitialState(boot.afterFirmwareUpdate, boot.afterRollback)
  {
    state := Default;
    if boot.afterFirmwareUpdate {
      state := Success;
    } else if boot.afterRollback {
      state := Neutral;
    }
  }

  /**
   * The globals of the firmware update module. `writer` is null until the
   * first `open`: the static writer struct is zeroed and unused until then.
   */
  class UpdateSession {
    var updateInitialized: bool
    var downloadedBytes: u32
    const writerBuf: array<byte>
    var writer: Writer?
    /** `pfb_write_to_flash_aligned_256_bytes`, the sink of the writer. */
    const sink: FlashSink
    const boot: Bootloader
    const sched: Scheduler

    /** The bytes of the successful writes since the last `open`. */
    ghost var accepted: seq<byte>
    /** Whether a write has failed since the last `open`. */
    ghost var writeFailed: bool

    /**
     * The writer works over the static 256-byte buffer and the flash
     * sink; the counter is the number of bytes of the successful writes;
     * as long as no write failed, those are exactly the bytes the writer
     * consumed.
     */
    ghost predicate Valid()
      reads this, writer, writerBuf
    {
      && writerBuf.Length == PFB_ALIGN_SIZE
      && (writer != null ==>
            writer.buf == writerBuf && writer.capacity == PFB_ALIGN_SIZE && writer.sink == sink && writer.Valid())
      && (updateInitialized ==> writer != null)
      && downloadedBytes == |accepted|
      && (writer != null && !writeFailed ==> writer.consumed == accepted)
    }

    /** The module's globals at start-up: inactive, nothing downloaded. */
    constructor (sink: FlashSink, boot: Bootloader, sched: Scheduler)
      ensures Valid() && fresh(writerBuf)
      ensures !updateInitialized && downloadedBytes == 0 && writer == null && accepted == [] && !writeFailed
      ensures this.sink == sink && this.boot == boot && this.sched == sched
    {
      updateInitialized := false;
      downloadedBytes := 0;
      writerBuf := new byte[PFB_ALIGN_SIZE];
      writer := null;
      this.sink := sink;
      this.boot := boot;
      this.sched := sched;
      accepted := [];
      writeFailed := false;
    }

    /**
     * `fw_stream_open`: initialises the download slot, makes a fresh writer
     * over the static buffer (discarding whatever was staged), zeroes the
     * counter and activates the session; it always succeeds, active or not.
     */
    method Open() returns (r: int)
      requires Valid()
      modifies this, boot
      ensures Valid() && r == 0
      ensures updateInitialized && downloadedBytes == 0 && accepted == [] && !writeFailed
      ensures fresh(writer) && writer.fill == 0 && writer.offset == 0 && writer.consumed == [] && writer.stored == []
      ensures boot.events == old(boot.events) + [SlotEvent.InitializeDownloadSlot]
      ensures boot.shaReplies == old(boot.shaReplies)
    {
      boot.InitializeDownloadSlot();
      writer := new Writer(writerBuf, PFB_ALIGN_SIZE, sink);
      downloadedBytes := 0;
      updateInitialized := true;
      accepted := [];
      writeFailed := false;
      r := 0;
    }

    /**
     * `fw_stream_write`: hands `data` to the writer; the counter grows by
     * `|data|` on success only, and the writer's failure status is
     * returned unchanged. The counter is `size_t`: it must not overflow.
     */
    method Write(data: seq<byte>) returns (r: int, ghost calls: seq<SinkCall>)
      requires Valid() && updateInitialized
      requires downloadedBytes + |data| <= SIZE_MAX
      modifies this, writer, writerBuf, sink
      ensures Valid() && updateInitialized && writer == old(writer)
      ensures sink.calls == old(sink.calls) + calls && writer.stored == old(writer.stored) + Stored(calls)
      // the bootloader receives only full 256-byte blocks, each right after the last one it accepted
      ensures AllFull(calls, PFB_ALIGN_SIZE) && PlacedFrom(calls, old(writer.offset))
      ensures Answered(calls, old(sink.replies)) && sink.replies == After(old(sink.replies), |calls|)
      ensures r == 0 ==> downloadedBytes == old(downloadedBytes) + |data| && accepted == old(accepted) + data
      ensures r == 0 ==> writeFailed == old(writeFailed)
      ensures r != 0 ==> downloadedBytes == old(downloadedBytes) && accepted == old(accepted) && writeFailed
      ensures r != 0 ==> calls != [] && calls[|calls| - 1].status == r
      // an empty chunk succeeds without touching the flash
      ensures data == [] ==> r == 0 && calls == []
    {
      ghost var taken;
      r, calls, taken := writer.Write(data);
      if r != 0 {
        writeFailed := true;
        return;
      }
      downloadedBytes := downloadedBytes + |data|;
      accepted := accepted + data;
    }

    /**
     * `fw_stream_finish`: deactivates the session first, then flushes the
     * writer; a failed flush gives -1 without the integrity check, else
     * the SHA-256 check runs over exactly the counted bytes and its
     * failure gives -1. Success does not mark the slot valid.
     */
    method Finish() returns (r: int, ghost flushed: bool, ghost calls: seq<SinkCall>)
      requires Valid() && updateInitialized
      modifies this, writer, sink, boot
      ensures Valid() && !updateInitialized && writer == old(writer)
      // the flush: no call for an empty buffer, else the remainder at the write offset
      ensures sink.calls == old(sink.calls) + calls && writer.stored == old(writer.stored) + Stored(calls)
      ensures old(writer.fill) == 0 ==> calls == [] && flushed && sink.replies == old(sink.replies)
      ensures old(writer.fill) != 0 ==>
        calls == [SinkCall(old(writer.offset), old(writer.buf[..writer.fill]), HeadOr(old(sink.replies), 0))]
      ensures old(writer.fill) != 0 ==> sink.replies == TailOf(old(sink.replies))
      ensures flushed <==> old(writer.fill) == 0 || HeadOr(old(sink.replies), 0) == 0
      ensures boot.shaReplies == if flushed then TailOf(old(boot.shaReplies)) else old(boot.shaReplies)
      ensures downloadedBytes == old(downloadedBytes) && accepted == old(accepted) && writeFailed == old(writeFailed)
      ensures r == 0 || r == -1
      ensures !flushed ==> r == -1 && boot.events == old(boot.events)
      ensures flushed ==> boot.events == old(boot.events) + [Sha256Check(downloadedBytes)]
      ensures r == 0 <==> flushed && HeadOr(old(boot.shaReplies), 0) == 0
      // after a successful flush everything consumed is in flash
      ensures flushed ==> writer.stored == writer.consumed && writer.fill == 0
      // and, when no write failed, the check covers exactly the downloaded image
      ensures flushed && !writeFailed ==> writer.stored == accepted && |writer.stored| == downloadedBytes
    {
      updateInitialized := false;
      var res;
      res, calls := writer.Flush();
      flushed := res == 0;
      r := -1;
      if res == 0 {
        var sha := boot.FirmwareSha256Check(downloadedBytes);
        if sha == 0 {
          r := 0;
        }
      }
    }

    /** `fw_reset`: deactivates the session; touches neither the writer nor the slot. */
    method Reset()
      modifies this
      ensures !updateInitialized
      ensures writer == old(writer) && downloadedBytes == old(downloadedBytes)
      ensures accepted == old(accepted) && writeFailed == old(writeFailed)
      ensures old(Valid()) ==> Valid()
    {
      updateInitialized := false;
    }

    /**
     * `fw_perform_upgrade`: marks the download slot valid, then schedules
     * the reboot one second later; returns the scheduler's result.
     */
    method PerformUpgrade() returns (r: int)
      modifies boot, sched
      ensures boot.events == old(boot.events) + [MarkDownloadSlotAsValid] && boot.shaReplies == old(boot.shaReplies)
      ensures r == HeadOr(old(sched.replies), 0) && sched.replies == TailOf(old(sched.replies))
      ensures sched.jobs == old(sched.jobs) + (if r == 0 then [RebootAfter(REBOOT_DELAY_MS)] else [])
    {
      boot.MarkValid();
      r := sched.ScheduleReboot(REBOOT_DELAY_MS);
    }

    /** `fw_update_reboot`, the scheduled job: hands over to the bootloader. */
    method Reboot()
      modifies boot
      ensures boot.events == old(boot.events) + [PerformUpdate] && boot.shaReplies == old(boot.shaReplies)
    {
      boot.Update();
    }
  }
}

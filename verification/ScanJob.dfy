/** One bounded flatbed job over an adversarial pipe (src/scan.rs). The source's single function
    is cut where it calls the image consumer, so that any consumer can be put in that place. */
module ScanJob {
  import opened Basics
  import opened Wire
  import opened BandCodec
  import opened Usb

  datatype Health = Ready | NeedsReconnect

  datatype ScanSummary = ScanSummary(width: nat, height: nat, bands: nat, bytes: nat)

  datatype Tuning = Tuning(readPollMs: nat, readBufferBytes: nat)

  const DEFAULT_TUNING := Tuning(100, 65536)

  function ValidateTuning(t: Tuning): IoResult<()> {
    if !(1 <= t.readPollMs <= 1000) then
      Err(Fail(InvalidInput, "READ poll interval must be within 1..=1000 ms"))
    else if !(1024 <= t.readBufferBytes <= 1024 * 1024) || t.readBufferBytes % 1024 != 0 then
      Err(Fail(InvalidInput, "Read buffer must be a multiple of 1024 bytes within 1 KiB..=1 MiB"))
    else Ok(())
  }

  const CANCELLED := IoError(Interrupted, "Scan cancelled", true)
  const NO_PROGRESS := Fail(InvalidData, "Image read made no progress")
  const EXPIRED := Fail(TimedOut, "Scan exceeded 120 second deadline")

  method Checkpoint(host: Host, deadline: nat) returns (r: IoResult<()>)
    modifies host
    ensures host.now >= old(host.now)
    ensures |host.observed| == |old(host.observed)| + 1 && old(host.observed) <= host.observed
    ensures r.Ok? ==> host.now < deadline
    ensures r.Err? ==> (r.error == EXPIRED && host.now >= deadline) || (r.error == CANCELLED && true in host.observed)
    // A cancellation seen here always stops the job.
    ensures r == Err(CANCELLED) <==> host.observed[|old(host.observed)|]
  {
    var cancelled := host.Cancelled();
    if cancelled {
      return Err(CANCELLED);
    }
    r := CheckpointDeadline(host, deadline);
  }

  method CheckpointDeadline(host: Host, deadline: nat) returns (r: IoResult<()>)
    modifies host`now
    ensures host.now >= old(host.now)
    ensures r.Ok? ==> host.now < deadline
    ensures r.Err? <==> host.now >= deadline
    ensures r.Err? ==> r.error == EXPIRED
  {
    var now := host.Clock();
    r := if now >= deadline then Err(EXPIRED) else Ok(());
  }

  // ---- What the bands of a job add up to ----

  function ByteTotal(bands: seq<ImageBand>): nat {
    if bands == [] then 0 else ByteTotal(bands[..|bands| - 1]) + |bands[|bands| - 1].pixels|
  }

  function RowTotal(bands: seq<ImageBand>): nat {
    if bands == [] then 0 else RowTotal(bands[..|bands| - 1]) + bands[|bands| - 1].rows
  }

  function Summarize(bands: seq<ImageBand>): ScanSummary {
    ScanSummary(if bands == [] then 0 else bands[0].width, RowTotal(bands), |bands|, ByteTotal(bands))
  }

  lemma {:induction false} SummaryGrows(bands: seq<ImageBand>, band: ImageBand)
    requires bands != [] ==> bands[0].width == band.width
    ensures Summarize(bands + [band])
            == ScanSummary(band.width, RowTotal(bands) + band.rows, |bands| + 1, ByteTotal(bands) + |band.pixels|)
  {
    assert (bands + [band])[..|bands|] == bands;
  }

  predicate Decodable(image: RawImage, mode: ColorMode, order: Byte) {
    ValidBand(image.info, mode) && |image.data| == image.info.length && !(mode.Rgb? && order > 1)
  }

  /** The consumer's view of a drained image. */
  function BandOf(image: RawImage, mode: ColorMode, order: Byte): (band: ImageBand)
    requires Decodable(image, mode, order)
  {
    ImageBand(image.info.width, image.info.rows, mode, Decoded(image.info, image.data, mode, order).value, image.data)
  }

  lemma DecodedSize(image: RawImage, mode: ColorMode, order: Byte)
    requires Decodable(image, mode, order)
    ensures |BandOf(image, mode, order).pixels| == image.info.PixelBytes(mode) <= image.info.length
  {
  }

  /** Every accepted band is the decode of the drained image in the same place. */
  predicate Faithful(bands: seq<ImageBand>, images: seq<RawImage>, mode: ColorMode, order: Byte) {
    && |bands| <= |images|
    && (forall i :: 0 <= i < |images| ==> Decodable(images[i], mode, order))
    && (forall i :: 0 <= i < |bands| ==> bands[i] == BandOf(images[i], mode, order))
    && (forall i :: 0 <= i < |bands| ==> bands[i].width == bands[0].width)
  }

  lemma NothingAccepted(summary: ScanSummary)
    requires summary == ScanSummary(0, 0, 0, 0)
    ensures Summarize([]) == summary && forall mode, order :: Faithful([], [], mode, order)
  {
  }

  lemma DrainedImageKeepsFaith(bands: seq<ImageBand>, images: seq<RawImage>, image: RawImage, mode: ColorMode,
      order: Byte)
    requires Faithful(bands, images, mode, order) && Decodable(image, mode, order)
    ensures Faithful(bands, images + [image], mode, order)
  {
  }

  lemma AcceptedBandKeepsFaith(bands: seq<ImageBand>, images: seq<RawImage>, mode: ColorMode, order: Byte)
    requires Faithful(bands, images, mode, order) && |images| == |bands| + 1
    requires bands != [] ==> bands[0].width == images[|bands|].info.width
    ensures Faithful(bands + [BandOf(images[|bands|], mode, order)], images, mode, order)
  {
  }

  lemma {:induction false} TotalsAgree(bands: seq<ImageBand>, images: seq<RawImage>, mode: ColorMode, order: Byte)
    requires Faithful(bands, images, mode, order)
    ensures ByteTotal(bands) == PixelTotal(images[..|bands|], mode)
  {
    if bands != [] {
      var n := |bands| - 1;
      TotalsAgree(bands[..n], images, mode, order);
      assert images[..n + 1][..n] == images[..n];
      assert bands[n] == BandOf(images[n], mode, order);
    }
  }

  lemma {:induction false} RowsBounded(bands: seq<ImageBand>, images: seq<RawImage>, mode: ColorMode, order: Byte)
    requires Faithful(bands, images, mode, order)
    ensures RowTotal(bands) <= |bands| * 0x1_0000
  {
    if bands != [] {
      var n := |bands| - 1;
      RowsBounded(bands[..n], images, mode, order);
      assert bands[n] == BandOf(images[n], mode, order) && ValidBand(images[n].info, mode);
    }
  }

  /** The height of a job can never overflow: the band limits leave it under 2^28. */
  lemma HeightFits(bands: seq<ImageBand>, images: seq<RawImage>, mode: ColorMode, order: Byte, band: BandInfo)
    requires Faithful(bands, images, mode, order) && |bands| < MAX_BANDS && ValidBand(band, mode)
    ensures Summarize(bands).height + band.rows < 0x1000_0000
  {
    RowsBounded(bands, images, mode, order);
  }

  /** The bytes a run of reads returned, in order. */
  function Gathered(events: seq<Event>): seq<Byte> {
    if events == [] then []
    else
      var last := events[|events| - 1];
      Gathered(events[..|events| - 1]) + (if last.Received? && last.transfer.Moved? then last.transfer.data else [])
  }

  /** A multiple of every bulk packet size the USB layer accepts when it selects the pipes
      (src/usb.rs): 8 to 64 for full speed, 512 for high speed, 1024 for SuperSpeed. */
  predicate WholePackets(n: nat) {
    n % 8 == 0 && n % 16 == 0 && n % 32 == 0 && n % 64 == 0 && n % 512 == 0 && n % 1024 == 0
  }

  lemma KibibytesAreWholePackets(n: nat)
    requires n % 1024 == 0
    ensures WholePackets(n)
  {
    var k := n / 1024;
    ExactQuotient(n, 8, 128 * k);
    ExactQuotient(n, 16, 64 * k);
    ExactQuotient(n, 32, 32 * k);
    ExactQuotient(n, 64, 16 * k);
    ExactQuotient(n, 512, 2 * k);
  }

  predicate ImageRead(e: Event, buffer: nat) {
    e.Received? && 0 < e.capacity <= buffer && WholePackets(e.capacity)
  }

  predicate ImageReads(events: seq<Event>, buffer: nat) {
    forall i :: 0 <= i < |events| ==> ImageRead(events[i], buffer)
  }

  lemma ReadsGrow(events: seq<Event>, remaining: nat, buffer: nat, t: Transfer)
    requires ImageReads(events, buffer) && remaining > 0 && buffer > 0 && buffer % 1024 == 0
    ensures var more := events + [Received(Capacity(remaining, buffer), t)];
            ImageReads(more, buffer) && Gathered(more) == Gathered(events) + (if t.Moved? then t.data else [])
  {
    var more := events + [Received(Capacity(remaining, buffer), t)];
    assert more[..|events|] == events;
  }

  lemma NothingGathered(buffer: nat)
    ensures ImageReads([], buffer) && Gathered([]) == [] && EmptyReads([]) == 0
  {
  }

  lemma TunedBuffer(t: Tuning)
    requires ValidateTuning(t).Ok?
    ensures t.readBufferBytes > 0 && t.readBufferBytes % 1024 == 0
  {
  }

  /** The capacity asked of the pipe when `remaining` image bytes are still owed. */
  function Capacity(remaining: nat, buffer: nat): (c: nat)
    requires remaining > 0 && buffer > 0 && buffer % 1024 == 0
    ensures 0 < c <= buffer && WholePackets(c)
    ensures Min(remaining, buffer) <= c < remaining + 1024
  {
    var c := Min((remaining + 1023) / 1024 * 1024, buffer);
    KibibytesAreWholePackets(c);
    c
  }

  /** A drain that could not finish reports the first failure's kind, or its own. */
  function DrainFailed(original: Option<IoError>, error: IoError): (e: IoError)
    ensures e.hostCancelled ==> error.hostCancelled
  {
    if original.Some? then Reworded(original.value) else error
  }

  /** RELEASE was the last command and answered Good, directly after a Good ABORT if one was due. */
  predicate CleanExit(before: seq<Event>, after: seq<Event>, abort: bool) {
    var n := |before|;
    && |after| == n + (if abort then 4 else 2)
    && before <= after
    && (abort ==> Confirmed(after, n, ABORT))
    && Confirmed(after, |after| - 2, RELEASE)
  }

  predicate Confirmed(log: seq<Event>, at: nat, opcode: Byte)
    requires at + 2 <= |log|
  {
    Exchanged(log, at, Short(opcode)) && Answered(log[at + 1].transfer.data, false, Good)
  }

  /** Cleanup begins here: with ABORT if one is due, and with RELEASE otherwise. */
  predicate Leaves(log: seq<Event>, at: nat, abort: bool) {
    at < |log| && log[at].Wrote? && log[at].data == Short(if abort then ABORT else RELEASE)
  }

  /** Nothing was written, or one INQUIRY that was answered in full. */
  predicate OnlyInquired(before: seq<Event>, after: seq<Event>) {
    after == before
    || (|after| == |before| + 2 && before <= after && Exchanged(after, |before|, Short(INQUIRY)))
  }

  lemma ConfirmedStays(log: seq<Event>, longer: seq<Event>, at: nat, opcode: Byte)
    requires at + 2 <= |log| <= |longer| && log <= longer
    ensures Confirmed(longer, at, opcode) <==> Confirmed(log, at, opcode)
    ensures Exchanged(longer, at, Short(opcode)) <==> Exchanged(log, at, Short(opcode))
  {
    assert log[at] == longer[at] && log[at + 1] == longer[at + 1];
  }

  /** The job asked for the capabilities, understood the answer and wrote nothing more. */
  ghost predicate StoppedBeforeReserve(before: seq<Event>, usb: Transport)
    reads usb
  {
    usb.log != before && usb.session.op == INQUIRY && usb.session.caps.Some?
  }

  // ---- Why a job may stop ----

  predicate EmptyRead(e: Event) {
    e.Received? && e.transfer.Moved? && e.transfer.data == []
  }

  function EmptyReads(events: seq<Event>): nat {
    if events == [] then 0
    else EmptyReads(events[..|events| - 1]) + if EmptyRead(events[|events| - 1]) then 1 else 0
  }

  lemma EmptyReadsMore(events: seq<Event>, e: Event)
    ensures EmptyReads(events + [e]) == EmptyReads(events) + if EmptyRead(e) then 1 else 0
  {
    assert (events + [e])[..|events|] == events;
  }

  lemma {:induction false} EmptyReadsAdd(a: seq<Event>, b: seq<Event>)
    ensures EmptyReads(a + b) == EmptyReads(a) + EmptyReads(b)
  {
    if b == [] {
      assert a + b == a;
    } else {
      var n := |b| - 1;
      EmptyReadsAdd(a, b[..n]);
      assert (a + b)[..|a + b| - 1] == a + b[..n];
    }
  }

  /** The device answered with neither Good nor Busy. */
  predicate Refuses(s: Session) {
    s.op in {RESERVE, SET_WINDOW, START, READ} && ResponseStatus(s.reply, s.op == READ).Err?
  }

  /** The metadata is Good and announces a band that is not valid or exceeds the job's limits. */
  predicate Inadmissible(s: Session) {
    s.op == READ && s.window.Some? && Answered(s.reply, true, Good) && !BandAdmitted(s)
  }

  /** A good reason to stop a job, from what crossed the pipe (`log`, which left the session `s`), what the
      host was seen to want and the time. */
  predicate Excused(error: IoError, s: Session, log: seq<Event>, observed: seq<bool>, now: nat, deadline: nat) {
    || s.link.Uncertain?
    || (s.link.ImageOwed? && (EmptyReads(log) >= 2 || now >= deadline - 110_000))
    || Refuses(s)
    || Inadmissible(s)
    || (error == CANCELLED && true in observed)
    || (error == EXPIRED && now >= deadline)
    || (error == NO_PROGRESS && EmptyReads(log) >= 1)
  }

  /** Later observations keep an excuse. */
  lemma StaysExcused(error: IoError, s: Session, log: seq<Event>, observed: seq<bool>, now: nat, deadline: nat,
                     more: seq<bool>, later: nat)
    requires Excused(error, s, log, observed, now, deadline) && observed <= more && now <= later
    ensures Excused(error, s, log, more, later, deadline)
  {
  }

  datatype Preparation = Prepared(request: ScanRequest) | Refused(error: IoError) | Panicked

  /** The capabilities were not understood, or nothing the device can be told was made of them. */
  ghost predicate Unprepared(s: Session, prepare: seq<Byte> -> Preparation) {
    && s.op == INQUIRY
    && (|| s.caps.None? || !prepare(s.reply).Prepared?
        || Command(prepare(s.reply).request, s.caps.value).Err?)
  }

  datatype CallOutcome = Accepted | Rejected(error: IoError) | Unwound

  /** The session when `raw` of the announced image has arrived. */
  ghost function Awaiting(s: Session, info: BandInfo, raw: seq<Byte>): Session {
    if |raw| < info.length then s.(link := ImageOwed(raw))
    else s.(link := Boundary, images := s.images + [RawImage(info, raw)])
  }

  lemma StillOwed(s: Session, info: BandInfo, raw: seq<Byte>)
    requires |raw| < info.length
    ensures var now := Awaiting(s, info, raw); now == s.(link := now.link) && now.link == ImageOwed(raw)
  {
  }

  datatype Opening = Early(error: IoError, health: Health) | Reserved

  lemma OneMoreWait(waits: nat, interval: nat)
    ensures (waits + 1) * interval == waits * interval + interval
  {
  }

  class Job {
    const usb: Transport
    const host: Host
    const tuning: Tuning
    var deadline: nat
    var synchronized: bool
    var caps: Option<Capabilities>
    var request: Option<ScanRequest>
    var summary: ScanSummary
    var firstReadCancelled: bool
    ghost var accepted: seq<ImageBand>
    /** Where this job's traffic begins on the pipe. */
    ghost var begun: nat

    constructor (usb: Transport, host: Host, tuning: Tuning)
      ensures this.usb == usb && this.host == host && this.tuning == tuning
      ensures accepted == [] && !firstReadCancelled && begun == 0
    {
      this.usb, this.host, this.tuning := usb, host, tuning;
      deadline, synchronized, caps, request := 0, true, None, None;
      summary, firstReadCancelled, accepted, begun := ScanSummary(0, 0, 0, 0), false, [], 0;
    }

    /** Stopping now, with this error, has a good reason. */
    ghost predicate ExcusedNow(error: IoError)
      reads this, usb, host
    {
      begun <= |usb.log| && Excused(error, usb.session, usb.log[begun..], host.observed, host.now, deadline)
    }

    ghost predicate Sane()
      reads this, usb
    {
      usb.Valid() && usb.session.legal && ValidateTuning(tuning).Ok? && begun <= |usb.log|
    }

    /** Between jobs: nothing owed, nothing reserved. */
    ghost predicate Idle()
      reads this, usb
    {
      Sane() && usb.session.link.Boundary? && usb.session.owner.Free?
    }

    /** From the Good RESERVE until cleanup. */
    ghost predicate Scanning()
      reads this, usb, host
    {
      && Sane() && deadline <= host.now + 120_000
      && (synchronized <==> usb.session.link.Boundary?)
      && usb.session.owner.Held?
      && usb.session.op !in {INQUIRY, ABORT, RELEASE}
      && request.Some? && caps.Some? && usb.session.caps == caps
      && Command(request.value, caps.value).Ok?
      && usb.session.window == (if usb.session.op == RESERVE then None else request)
      && Faithful(accepted, usb.session.images, request.value.mode, caps.value.lineOrder)
      && |usb.session.images| <= |accepted| + 1
      && summary == Summarize(accepted)
    }

    /** The next command is READ for a further band. */
    ghost predicate Reading()
      reads this, usb, host
    {
      && Scanning()
      && synchronized
      && |usb.session.images| == |accepted|
      && MayFollow(usb.session, Short(READ))
      && usb.session.op in {START, READ_IMAGE}
    }

    method Exchange(command: seq<Byte>) returns (r: IoResult<seq<Byte>>)
      requires Sane() && |command| >= 4 && command[2] != READ_IMAGE
      requires usb.session.link.Boundary? && MayFollow(usb.session, command)
      modifies usb, this`synchronized
      ensures Sane() && (synchronized <==> r.Ok?)
      ensures |old(usb.log)| < |usb.log| <= |old(usb.log)| + 2 && old(usb.log) <= usb.log
      ensures usb.log[|old(usb.log)|].Wrote? && usb.log[|old(usb.log)|].data == command
      ensures r.Ok? <==> |usb.log| == |old(usb.log)| + 2 && Exchanged(usb.log, |old(usb.log)|, command)
      ensures r.Ok? ==> r.value == usb.log[|old(usb.log)| + 1].transfer.data
                        && usb.session == Told(Asked(old(usb.session), command, true), r.value)
      ensures r.Err? ==> usb.session == Asked(old(usb.session), command, false) && usb.session.link.Uncertain?
                         && !r.error.hostCancelled
    {
      hide MayFollow, ParseCapabilities, ResponseStatus, Observe, Asked, Drained;
      AskedInDoubt(usb.session, command);
      synchronized := false;
      var sent := usb.Write(command);
      if sent.Err? {
        return Err(Reworded(sent.error));
      }
      var t := usb.Read(1024);
      if t.Failed? {
        return Err(Reworded(t.error));
      }
      if t.count > 1024 {
        return Err(Fail(InvalidData, "Response exceeds receive buffer"));
      }
      var b := t.data;
      if |b| < 32 || b[0] != 0xa8 || b[2] as int + 3 != |b| {
        return Err(Fail(InvalidData, "Malformed reply; stream synchronization lost"));
      }
      var expected := match command[2]
        case 0x12 => b[3] == 0x10
        case 0x28 => b[3] in {0x20, 0x80, 0x81}
        case 0x24 => b[3] in {0, 0x20, 0x30}
        case _ => b[3] in {0, 0x20};
      if !expected {
        return Err(Fail(InvalidData, "Unrelated reply message; stream synchronization lost"));
      }
      synchronized := true;
      r := Ok(b);
    }

    /** Milliseconds between two attempts at a Busy scanner. */
    function PollInterval(opcode: Byte): nat {
      if opcode == READ then tuning.readPollMs else 100
    }

    lemma PollsTakeTime(opcode: Byte)
      requires ValidateTuning(tuning).Ok?
      ensures PollInterval(opcode) > 0
    {
    }

    /** One try of a command that a Busy scanner makes the host repeat. */
    method Attempt(opcode: Byte) returns (status: IoResult<ReplyStatus>, reply: seq<Byte>)
      requires Sane() && opcode in {RESERVE, START, READ} && MayFollow(usb.session, Short(opcode))
      requires usb.session.link.Boundary? && (opcode == RESERVE ==> !usb.session.owner.Held?)
      modifies usb, this`synchronized
      ensures Sane() && (synchronized <==> usb.session.link.Boundary?)
      ensures usb.session.caps == old(usb.session.caps) && usb.session.window == old(usb.session.window)
      ensures usb.session.images == old(usb.session.images)
      ensures usb.session.op == opcode
      ensures |old(usb.log)| < |usb.log| <= |old(usb.log)| + 2 && old(usb.log) <= usb.log
      ensures opcode != RESERVE ==> usb.session.owner == old(usb.session.owner)
      ensures opcode == RESERVE ==> usb.session.owner == if status == Ok(Good) then Held else Unconfirmed
      ensures status.Ok? ==> synchronized && reply == usb.session.reply && Answered(reply, opcode == READ, status.value)
      ensures status.Err? ==> !status.error.hostCancelled && (usb.session.link.Uncertain? || Refuses(usb.session))
      ensures !synchronized ==> usb.session.link.Uncertain?
    {
      hide MayFollow, ParseCapabilities, ResponseStatus, Observe, Framed, Exchanged, ValidateTuning;
      var answer := Exchange(Short(opcode));
      if answer.Err? {
        return Err(answer.error), [];
      }
      reply := answer.value;
      status := ResponseStatus(reply, opcode == READ);
    }

    method Poll(opcode: Byte, cancellable: bool) returns (r: IoResult<seq<Byte>>, attempted: bool, ghost waits: nat)
      requires Sane() && synchronized && opcode in {RESERVE, START, READ} && MayFollow(usb.session, Short(opcode))
      requires usb.session.link.Boundary? && (opcode == RESERVE ==> usb.session.owner.Free?)
      modifies usb, host, this`synchronized
      ensures Sane() && (synchronized <==> usb.session.link.Boundary?)
      ensures usb.session.caps == old(usb.session.caps) && usb.session.window == old(usb.session.window)
      ensures usb.session.images == old(usb.session.images)
      ensures opcode != RESERVE ==> usb.session.owner == old(usb.session.owner)
      ensures opcode == RESERVE && attempted ==> usb.session.owner == if r.Ok? then Held else Unconfirmed
      ensures attempted ==> usb.session.op == opcode && usb.log != old(usb.log)
      ensures !attempted ==> r.Err? && usb.session == old(usb.session) && usb.log == old(usb.log)
      ensures r.Ok? ==> synchronized && usb.session.reply == r.value && Answered(r.value, opcode == READ, Good)
      ensures r.Err? && r.error.hostCancelled ==> cancellable && true in host.observed
      ensures r.Err? && !attempted ==> r.error == EXPIRED || r.error == CANCELLED
      ensures r.Err? ==> ExcusedNow(r.error)
      // Attempts are at least a poll interval apart.
      ensures |usb.log| <= |old(usb.log)| + 2 * (waits + 1)
      ensures waits * PollInterval(opcode) <= host.now - old(host.now)
      ensures old(usb.log) <= usb.log && (!synchronized ==> usb.session.link.Uncertain?)
      ensures old(host.observed) <= host.observed && old(host.now) <= host.now
    {
      hide MayFollow, ParseCapabilities, ResponseStatus, Observe, Framed, Exchanged, ValidateTuning, EmptyReads,
        Inadmissible, Refuses, Asked, Told, PollInterval;
      PollsTakeTime(opcode);
      attempted, waits := false, 0;
      while true
        invariant Sane() && synchronized && usb.session.link.Boundary? && MayFollow(usb.session, Short(opcode))
        invariant usb.session.caps == old(usb.session.caps) && usb.session.window == old(usb.session.window)
        invariant usb.session.images == old(usb.session.images)
        invariant opcode != RESERVE ==> usb.session.owner == old(usb.session.owner)
        invariant attempted ==> usb.session.op == opcode && Answered(usb.session.reply, opcode == READ, Busy)
        invariant attempted && opcode == RESERVE ==> usb.session.owner.Unconfirmed?
        invariant attempted ==> |usb.log| > |old(usb.log)|
        invariant !attempted ==> usb.session == old(usb.session) && usb.log == old(usb.log)
        invariant old(host.observed) <= host.observed && old(host.now) <= host.now
        invariant |usb.log| <= |old(usb.log)| + 2 * waits && old(usb.log) <= usb.log
        invariant waits * PollInterval(opcode) <= host.now - old(host.now)
        decreases deadline - host.now
      {
        var checked: IoResult<()>;
        if cancellable {
          checked := Checkpoint(host, deadline);
        } else {
          checked := CheckpointDeadline(host, deadline);
        }
        if checked.Err? {
          return Err(checked.error), attempted, waits;
        }
        // From here on the device may have seen the command, whatever the call reports.
        attempted := true;
        var status, reply := Attempt(opcode);
        if status.Err? {
          return Err(status.error), attempted, waits;
        }
        if status.value == Good {
          return Ok(reply), attempted, waits;
        }
        Permissions(usb.session);
        OneMoreWait(waits, PollInterval(opcode));
        host.Sleep(PollInterval(opcode));
        waits := waits + 1;
      }
    }

    /** INQUIRY and what it says; the reply goes to the preparation. */
    method Identify() returns (raw: IoResult<seq<Byte>>)
      requires Idle()
      modifies usb, this`synchronized, this`caps
      ensures Sane() && usb.session.op == INQUIRY && usb.session.owner.Free?
      ensures usb.session.window.None? && usb.session.images == []
      ensures usb.log != old(usb.log) && old(usb.log) <= usb.log
      ensures raw.Err? ==> usb.session.caps.None? && !raw.error.hostCancelled
      ensures raw.Ok? ==> synchronized && usb.session.link.Boundary? && raw.value == usb.session.reply
                          && caps.Some? && usb.session.caps == caps && OnlyInquired(old(usb.log), usb.log)
    {
      hide MayFollow, ParseCapabilities, ResponseStatus, Observe, Framed, Exchanged, ValidateTuning;
      Permissions(usb.session);
      raw := Exchange(Short(INQUIRY));
      if raw.Ok? {
        var parsed := ParseCapabilities(raw.value);
        if parsed.Err? {
          return Err(parsed.error);
        }
        caps := Some(parsed.value);
      }
    }

    /** RESERVE for a request the device can be told. Only an attempt leaves anybody in doubt. */
    method Reserve() returns (o: Opening)
      requires Sane() && synchronized && usb.session.link.Boundary? && usb.session.owner.Free?
      requires usb.session.op == INQUIRY && usb.session.window.None? && usb.session.images == [] && accepted == []
      requires request.Some? && caps.Some? && usb.session.caps == caps && Command(request.value, caps.value).Ok?
      requires deadline <= host.now + 120_000 && summary == ScanSummary(0, 0, 0, 0)
      modifies usb, host, this`synchronized
      ensures Sane() && usb.session.caps == old(usb.session.caps) && usb.session.window.None?
      ensures old(usb.log) <= usb.log
      ensures o.Early? ==> ExcusedNow(o.error)
      ensures o.Early? && o.health.Ready? ==> usb.session == old(usb.session) && usb.log == old(usb.log)
                                              && o.error in {CANCELLED, EXPIRED}
      ensures o.Early? && o.health.NeedsReconnect? ==> usb.session.op == RESERVE && usb.session.owner.Unconfirmed?
      ensures o.Early? && o.error.hostCancelled ==> true in host.observed
      ensures o.Reserved? ==> Scanning() && synchronized && usb.session.images == []
                              && usb.session.op == RESERVE && Answered(usb.session.reply, false, Good)
      ensures old(host.observed) <= host.observed && host.now >= old(host.now)
    {
      hide MayFollow, ParseCapabilities, ResponseStatus, Observe, Framed, Exchanged, Command, Summarize, Faithful,
        ValidateTuning, EmptyReads, Refuses, Inadmissible;
      NothingAccepted(summary);
      Permissions(usb.session);
      var reservation, attempted, _ := Poll(RESERVE, true);
      if reservation.Err? {
        var error := if synchronized then reservation.error else Reworded(reservation.error);
        return Early(error, if attempted then NeedsReconnect else Ready);
      }
      o := Reserved;
    }

    /** Capabilities, preparation and reservation. Nothing is reserved unless this says so. */
    method Open(prepare: seq<Byte> -> Preparation) returns (o: Opening)
      requires Idle() && accepted == []
      modifies usb, host, this
      ensures Sane() && accepted == [] && firstReadCancelled == old(firstReadCancelled)
      ensures o.Early? ==>
                (o.health.Ready? <==>
                   || usb.log == old(usb.log)
                   || (usb.session.link.Boundary? && usb.session.owner.Free? && usb.session.caps.Some?
                       && !prepare(usb.session.reply).Panicked?))
      ensures o.Early? && o.health.Ready? ==> usb.session.link.Boundary? && usb.session.owner.Free?
                                              && OnlyInquired(old(usb.log), usb.log)
      ensures o.Reserved? ==> Scanning() && synchronized && usb.session.images == []
                              && usb.session.op == RESERVE && Answered(usb.session.reply, false, Good)
      ensures old(host.now) + 120_000 <= deadline <= host.now + 120_000 && old(host.observed) <= host.observed
      ensures o.Early? && o.error.hostCancelled ==>
          true in host.observed || exists inquiry :: prepare(inquiry) == Refused(o.error)
      ensures o.Reserved? ==> exists inquiry :: prepare(inquiry) == Prepared(request.value)
      ensures o.Early? && usb.log != old(usb.log) ==> usb.session.window.None?
      ensures begun == |old(usb.log)| && old(usb.log) <= usb.log
      ensures o.Early? ==> ExcusedNow(o.error) || (|usb.log| > begun && Unprepared(usb.session, prepare))
      // With a request the device can be told, only the host or the clock stops a job before RESERVE.
      ensures o.Early? && StoppedBeforeReserve(old(usb.log), usb)
              && prepare(usb.session.reply).Prepared?
              && Command(prepare(usb.session.reply).request, usb.session.caps.value).Ok? ==>
                o.health.Ready? && o.error in {CANCELLED, EXPIRED}
    {
      hide MayFollow, ParseCapabilities, ResponseStatus, Observe, Framed, Exchanged, Command, Summarize, Faithful,
        ValidateTuning, EmptyReads, Refuses, Inadmissible, Asked, Told;
      begun := |usb.log|;
      var now := host.Clock();
      deadline, synchronized, summary := now + 120_000, true, ScanSummary(0, 0, 0, 0);
      var checked := Checkpoint(host, deadline);
      if checked.Err? {
        return Early(checked.error, Ready);
      }
      var raw := Identify();
      if raw.Err? {
        return Early(raw.error, NeedsReconnect);
      }
      var prepared := prepare(raw.value);
      if prepared.Refused? {
        return Early(prepared.error, Ready);
      }
      if prepared.Panicked? {
        return Early(Fail(Other, "Scan preparation panicked"), NeedsReconnect);
      }
      request := Some(prepared.request);
      var window := Command(prepared.request, caps.value);
      if window.Err? {
        return Early(window.error, Ready);
      }
      o := Reserve();
    }

    /** SET_WINDOW for the request. A Busy answer is taken as success, as in the source. */
    method SendWindow() returns (r: IoResult<()>)
      requires Scanning() && synchronized && usb.session.images == [] && accepted == []
      requires usb.session.op == RESERVE && Answered(usb.session.reply, false, Good)
      modifies usb, host, this`synchronized
      ensures Scanning() && usb.session.images == []
      ensures r.Ok? ==> synchronized && usb.session.op == SET_WINDOW && ResponseStatus(usb.session.reply, false).Ok?
      ensures r.Err? ==> ExcusedNow(r.error)
      ensures r.Err? && r.error.hostCancelled ==> true in host.observed
      ensures old(host.observed) <= host.observed && old(usb.log) <= usb.log && host.now >= old(host.now)
    {
      hide ParseBand, ParseCapabilities, ResponseStatus, Observe, Framed, Exchanged, Faithful, Summarize,
        ValidateTuning, BandAdmitted, PixelTotal, HasBit, Resolutions, Within, EmptyReads, Inadmissible;
      var checked := Checkpoint(host, deadline);
      if checked.Err? {
        return checked;
      }
      var window := Command(request.value, caps.value).value;
      WindowRoundTrip(request.value, caps.value);
      var reply := Exchange(window);
      if reply.Err? {
        return Err(reply.error);
      }
      var status := ResponseStatus(reply.value, false);
      if status.Err? {
        return Err(status.error);
      }
      r := Ok(());
    }

    /** SET_WINDOW and START. */
    method Begin() returns (r: IoResult<()>)
      requires Scanning() && synchronized && usb.session.images == [] && accepted == []
      requires usb.session.op == RESERVE && Answered(usb.session.reply, false, Good)
      modifies usb, host, this`synchronized
      ensures Scanning()
      ensures r.Ok? ==> Reading()
      ensures r.Err? ==> ExcusedNow(r.error)
      ensures r.Err? && r.error.hostCancelled ==> true in host.observed
      ensures old(host.observed) <= host.observed && old(usb.log) <= usb.log && host.now >= old(host.now)
    {
      hide MayFollow, ParseBand, ParseCapabilities, ResponseStatus, Observe, Framed, Exchanged, Faithful, Summarize,
        ValidateTuning, BandAdmitted, PixelTotal, Command, EmptyReads, Inadmissible, Refuses;
      var told := SendWindow();
      if told.Err? {
        return told;
      }
      Permissions(usb.session);
      var started, _, _ := Poll(START, true);
      if started.Err? {
        return Err(started.error);
      }
      Permissions(usb.session);
      r := Ok(());
    }

    method ReadChunk(capacity: nat, remaining: nat, ghost s: Session, ghost info: BandInfo, ghost raw: seq<Byte>)
      returns (chunk: IoResult<seq<Byte>>, ghost t: Transfer)
      requires Sane() && s.window.Some? && ParseBand(s.reply, s.window.value.mode) == Ok(info)
      requires |raw| + remaining == info.length && remaining > 0 && usb.session == Awaiting(s, info, raw)
      modifies usb
      ensures Sane() && usb.log == old(usb.log) + [Received(capacity, t)]
      ensures chunk.Ok? ==> |chunk.value| <= remaining && usb.session == Awaiting(s, info, raw + chunk.value)
                            && t == Moved(|chunk.value|, chunk.value)
      ensures chunk.Err? ==> usb.session == s.(link := Uncertain) && !chunk.error.hostCancelled
    {
      hide MayFollow, ParseBand, ResponseStatus, Observe, Framed, Told, Asked, Command;
      var done := usb.Read(capacity);
      t := done;
      if done.Failed? {
        return Err(done.error), t;
      }
      if done.count > capacity || done.count > remaining {
        return Err(Fail(InvalidData, "Image read exceeded advertised band length; stream synchronization lost")), t;
      }
      chunk := Ok(done.data);
    }

    /** What can end a band that arrived in full. */
    ghost predicate Interrupts(error: IoError, chunks: seq<Event>)
      reads this, host
    {
      || (error == CANCELLED && true in host.observed)
      || (error == EXPIRED && host.now >= deadline)
      || (error == NO_PROGRESS && EmptyReads(chunks) >= 1)
    }

    /** Between reads: notice cancellation or expiry once, then give the drain ten seconds. */
    method NoticeFailure(failure: Option<IoError>, end: Option<nat>)
      returns (failure': Option<IoError>, end': Option<nat>, expired: bool)
      modifies host
      ensures failure.Some? ==> failure' == failure
      ensures failure.None? && failure'.Some? ==> Interrupts(failure'.value, [])
      // Nothing goes unnoticed.
      ensures failure.None? && failure'.None? && end.None? ==>
                host.now < deadline && |host.observed| > 0 && !host.observed[|host.observed| - 1]
      ensures end'.Some? <==> end.Some? || failure'.Some?
      ensures end.Some? ==> end' == end
      ensures end.None? && end'.Some? ==> old(host.now) + 10_000 <= end'.value <= host.now + 10_000
      ensures expired <==> end'.Some? && host.now >= end'.value
      ensures old(host.observed) <= host.observed && host.now >= old(host.now)
    {
      failure', end', expired := failure, end, false;
      if failure'.None? {
        var checked := Checkpoint(host, deadline);
        failure' := if checked.Err? then Some(checked.error) else None;
      }
      if failure'.Some? && end'.None? {
        var now := host.Clock();
        end' := Some(now + 10_000);
      }
      if end'.Some? {
        var now := host.Clock();
        expired := now >= end'.value;
      }
    }

    /** `raw` of the announced image has arrived by the reads in `chunks`. */
    ghost predicate Draining(s: Session, log: seq<Event>, info: BandInfo, start: nat, raw: seq<Byte>,
                             chunks: seq<Event>, failure: Option<IoError>, end: Option<nat>, emptyReads: nat)
      reads this, usb, host
    {
      && Sane() && !synchronized && |raw| <= info.length && emptyReads <= 1
      && usb.log == log + chunks && |chunks| <= |raw| + emptyReads
      && ImageReads(chunks, tuning.readBufferBytes) && raw == Gathered(chunks)
      && usb.session == Awaiting(s, info, raw)
      && (emptyReads > 0 ==> failure.Some?) && emptyReads <= EmptyReads(chunks)
      && (failure.Some? ==> Interrupts(failure.value, chunks))
      && start <= host.now && (end.Some? ==> end.value >= start + 10_000)
    }

    /** The image was lost, stood still twice, or took ten seconds more than it was worth. */
    ghost predicate Abandoned(start: nat, chunks: seq<Event>)
      reads this, usb, host
    {
      usb.session.link.Uncertain?
      || (usb.session.link.ImageOwed? && (EmptyReads(chunks) >= 2 || host.now >= start + 10_000))
    }

    /** One read of the drain. `stop` ends it with the stream out of step. */
    method DrainOnce(raw: seq<Byte>, length: nat, failure: Option<IoError>, end: Option<nat>, emptyReads: nat,
                     ghost s: Session, ghost log: seq<Event>, ghost info: BandInfo, ghost start: nat,
                     ghost chunks: seq<Event>)
      returns (raw': seq<Byte>, failure': Option<IoError>, end': Option<nat>, emptyReads': nat,
               stop: Option<IoError>, ghost chunks': seq<Event>)
      requires s.window.Some? && ParseBand(s.reply, s.window.value.mode) == Ok(info)
      requires Draining(s, log, info, start, raw, chunks, failure, end, emptyReads) && |raw| < length == info.length
      modifies usb, host
      ensures stop.None? ==> Draining(s, log, info, start, raw', chunks', failure', end', emptyReads')
                             && (|raw'| > |raw| || (raw' == raw && emptyReads' > emptyReads))
      ensures stop.Some? ==>
                && Sane() && usb.log == log + chunks' && |chunks'| <= length + 1
                && ImageReads(chunks', tuning.readBufferBytes)
                && Abandoned(start, chunks') && usb.session == s.(link := usb.session.link)
                && (stop.value.hostCancelled ==> true in host.observed)
      ensures old(host.observed) <= host.observed && host.now >= old(host.now)
    {
      hide MayFollow, ParseBand, ResponseStatus, Observe, Capacity, WholePackets, Step, ImageRead, DrainFailed,
        Gathered, ImageReads, ValidateTuning, Awaiting, EmptyReads, Framed, ParseCapabilities;
      StillOwed(s, info, raw);
      NothingGathered(tuning.readBufferBytes);
      raw', chunks', emptyReads', stop := raw, chunks, emptyReads, None;
      var expired: bool;
      failure', end', expired := NoticeFailure(failure, end);
      if expired {
        var late := Fail(TimedOut, "Image drain exceeded 10 seconds; stream synchronization lost");
        stop := Some(DrainFailed(failure', late));
        return;
      }
      var remaining := length - |raw|;
      TunedBuffer(tuning);
      var capacity := Capacity(remaining, tuning.readBufferBytes);
      ghost var t;
      var chunk: IoResult<seq<Byte>>;
      chunk, t := ReadChunk(capacity, remaining, s, info, raw);
      ReadsGrow(chunks, remaining, tuning.readBufferBytes, t);
      EmptyReadsMore(chunks, Received(capacity, t));
      chunks' := chunks + [Received(capacity, t)];
      if chunk.Err? {
        stop := Some(DrainFailed(failure', chunk.error));
        return;
      }
      raw' := raw + chunk.value;
      if chunk.value != [] {
        return;
      }
      assert raw' == raw;
      emptyReads' := emptyReads + 1;
      if failure'.None? {
        failure' := Some(NO_PROGRESS);
      }
      if emptyReads' >= 2 {
        stop := Some(DrainFailed(failure', Fail(InvalidData, "Image drain made no progress twice")));
      }
    }

    /** Read exactly `length` image bytes, draining them even after a failure has been noticed. */
    method ReadImageBand(length: nat) returns (r: IoResult<seq<Byte>>, ghost chunks: seq<Event>)
      requires Sane() && usb.session.link == ImageOwed([]) && usb.session.window.Some? && length > 0
      requires ParseBand(usb.session.reply, usb.session.window.value.mode).Ok?
      requires ParseBand(usb.session.reply, usb.session.window.value.mode).value.length == length
      modifies usb, host, this`synchronized
      ensures Sane() && (synchronized <==> usb.session.link.Boundary?)
      ensures usb.log == old(usb.log) + chunks && |chunks| <= length + 1
      ensures ImageReads(chunks, tuning.readBufferBytes)
      ensures r.Ok? ==> synchronized && r.value == Gathered(chunks)
      ensures r.Err? && synchronized ==> Interrupts(r.error, chunks)
      ensures !synchronized ==> Abandoned(old(host.now), chunks)
      ensures r.Err? && r.error.hostCancelled ==> true in host.observed
      ensures old(host.observed) <= host.observed && host.now >= old(host.now)
      ensures !synchronized ==> usb.session == old(usb.session).(link := usb.session.link)
      ensures synchronized ==>
                && |Gathered(chunks)| == length
                && usb.session == old(usb.session).(
                     link := Boundary,
                     images := old(usb.session.images)
                               + [RawImage(ParseBand(old(usb.session.reply), old(usb.session.window).value.mode).value,
                                           Gathered(chunks))])
    {
      hide MayFollow, ParseBand, ResponseStatus, Observe, Step, Gathered, ImageReads, ValidateTuning, EmptyReads;
      ghost var log0, s0, start := usb.log, usb.session, host.now;
      chunks := [];
      ghost var info := ParseBand(s0.reply, s0.window.value.mode).value;
      synchronized := false;
      var raw: seq<Byte> := [];
      var failure: Option<IoError> := None;
      var drainDeadline: Option<nat> := None;
      var emptyReads := 0;
      NothingGathered(tuning.readBufferBytes);
      while |raw| < length
        invariant Draining(s0, log0, info, start, raw, chunks, failure, drainDeadline, emptyReads)
        invariant old(host.observed) <= host.observed
        decreases length - |raw|, 2 - emptyReads
      {
        var stop: Option<IoError>;
        raw, failure, drainDeadline, emptyReads, stop, chunks :=
          DrainOnce(raw, length, failure, drainDeadline, emptyReads, s0, log0, info, start, chunks);
        if stop.Some? {
          return Err(stop.value), chunks;
        }
      }
      synchronized := true;
      if failure.Some? {
        return Err(failure.value), chunks;
      }
      var checked := Checkpoint(host, deadline);
      if checked.Err? {
        return Err(checked.error), chunks;
      }
      r := Ok(raw);
    }

    ghost predicate MetadataAnswered()
      reads this, usb
    {
      synchronized && usb.session.op == READ && Answered(usb.session.reply, true, Good)
    }

    /** READ until a band is announced that the limits admit. */
    method AwaitBand() returns (r: IoResult<BandInfo>)
      requires Reading()
      modifies usb, host, this`synchronized, this`firstReadCancelled
      ensures Scanning() && |usb.session.images| == |accepted|
      ensures firstReadCancelled ==> old(firstReadCancelled) || (accepted == [] && r.Err?)
      ensures r.Err? && accepted == [] ==> !r.error.hostCancelled
      ensures r.Err? && accepted == [] && !MetadataAnswered() ==>
                && host.observed != []
                && (firstReadCancelled <==> old(firstReadCancelled) || host.observed[|host.observed| - 1])
      ensures r.Err? ==> ExcusedNow(r.error)
      ensures r.Err? && r.error.hostCancelled ==> true in host.observed
      ensures old(host.observed) <= host.observed && old(usb.log) <= usb.log && host.now >= old(host.now)
      ensures r.Ok? ==>
                && synchronized && usb.session.op == READ && usb.session.window == request && BandAdmitted(usb.session)
                && ParseBand(usb.session.reply, request.value.mode) == r && ValidBand(r.value, request.value.mode)
                && (accepted != [] ==> accepted[0].width == r.value.width)
                && |accepted| < MAX_BANDS && ByteTotal(accepted) + r.value.length <= MAX_JOB_BYTES
    {
      hide MayFollow, ParseBand, ResponseStatus, Observe, Framed, Decoded, ParseCapabilities, Command, PixelTotal,
        Gathered, ValidateTuning, RowTotal, EmptyReads, Exchanged, Refuses, Step, PollInterval, ImageReads;
      var reply, _, _ := Poll(READ, summary.bands != 0);
      if reply.Err? {
        if summary.bands == 0 {
          var cancelled := host.Cancelled();
          if cancelled {
            firstReadCancelled := true;
          }
        }
        return Err(reply.error);
      }
      var mode := request.value.mode;
      r := ParseBand(reply.value, mode);
      if r.Err? {
        return;
      }
      var band := r.value;
      ParsedBandIsValid(reply.value, mode);
      ghost var images := usb.session.images;
      TotalsAgree(accepted, images, mode, caps.value.lineOrder);
      assert images[..|accepted|] == images;
      assert accepted != [] ==> accepted[0] == BandOf(images[0], mode, caps.value.lineOrder);
      if summary.bands >= MAX_BANDS || summary.bytes + band.length > MAX_JOB_BYTES
         || (summary.width != 0 && summary.width != band.width)
      {
        r := Err(Fail(InvalidData, "Image exceeds job limits or changes width between bands"));
      }
    }

    /** One round of the read loop up to the consumer: metadata, limits, image bytes, decoding. */
    method NextBand() returns (r: IoResult<ImageBand>, last: bool)
      requires Reading()
      modifies usb, host, this`synchronized, this`firstReadCancelled
      ensures Scanning()
      // A failed wait for the first band's metadata remembers whether the host had cancelled meanwhile;
      // the cancellation itself is never what ends that wait.
      ensures firstReadCancelled ==> old(firstReadCancelled) || (accepted == [] && r.Err?)
      ensures r.Err? && accepted == [] && usb.session.op != READ_IMAGE ==> !r.error.hostCancelled
      ensures r.Err? && accepted == [] && usb.session.op != READ_IMAGE && !MetadataAnswered() ==>
                && host.observed != []
                && (firstReadCancelled <==> old(firstReadCancelled) || host.observed[|host.observed| - 1])
      ensures r.Err? ==> ExcusedNow(r.error)
      ensures r.Err? && r.error.hostCancelled ==> true in host.observed
      ensures old(host.observed) <= host.observed && old(usb.log) <= usb.log && host.now >= old(host.now)
      ensures r.Ok? ==> synchronized && usb.session.op == READ_IMAGE && |usb.session.images| == |accepted| + 1
                        && r.value == BandOf(usb.session.images[|accepted|], request.value.mode, caps.value.lineOrder)
                        && last == usb.session.images[|accepted|].info.finalBand
                        && (accepted != [] ==> accepted[0].width == r.value.width)
                        && |accepted| < MAX_BANDS && ByteTotal(accepted) + |r.value.pixels| <= MAX_JOB_BYTES
    {
      hide MayFollow, ParseBand, ResponseStatus, Observe, Framed, Decoded, ParseCapabilities, Command, PixelTotal,
        Gathered, ValidateTuning, Summarize, EmptyReads, BandAdmitted, Refuses, Inadmissible;
      CommandNeedsKnownOrder(request.value, caps.value);
      var band := AwaitBand();
      if band.Err? {
        return Err(band.error), false;
      }
      r := FetchImage(band.value);
      if r.Ok? {
        DecodedSize(usb.session.images[|accepted|], request.value.mode, caps.value.lineOrder);
      }
      last := band.value.finalBand;
    }

    /** What ends an image read ends the job. */
    lemma ImageExcuses(raw: IoResult<seq<Byte>>, asked: seq<Event>, chunks: seq<Event>, start: nat)
      requires Sane() && begun <= |asked| && usb.log == asked + chunks
      requires deadline <= start + 120_000
      requires raw.Err? && synchronized ==> Interrupts(raw.error, chunks)
      requires !synchronized ==> Abandoned(start, chunks)
      ensures raw.Err? ==> ExcusedNow(raw.error)
    {
      hide EmptyReads, Refuses, Inadmissible;
      EmptyReadsAdd(asked[begun..], chunks);
      assert usb.log[begun..] == asked[begun..] + chunks;
    }

    lemma WholeImageDecodes(band: BandInfo, raw: seq<Byte>, mode: ColorMode, order: Byte)
      requires band.PixelBytes(mode) <= band.length == |raw| && !(mode.Rgb? && order > 1)
      ensures Decoded(band, raw, mode, order).Ok?
    {
    }

    /** READ_IMAGE, drain and decode for an announced band within the job limits. */
    method FetchImage(band: BandInfo) returns (r: IoResult<ImageBand>)
      requires Scanning() && synchronized && |usb.session.images| == |accepted| < MAX_BANDS
      requires usb.session.op == READ && usb.session.window == request && BandAdmitted(usb.session)
      requires ParseBand(usb.session.reply, request.value.mode) == Ok(band) && ValidBand(band, request.value.mode)
      modifies usb, host, this`synchronized
      ensures Scanning() && usb.session.op == READ_IMAGE
      ensures r.Err? ==> ExcusedNow(r.error)
      ensures r.Err? && r.error.hostCancelled ==> true in host.observed
      ensures old(host.observed) <= host.observed && old(usb.log) <= usb.log && host.now >= old(host.now)
      ensures r.Ok? ==> synchronized && |usb.session.images| == |accepted| + 1
                        && usb.session.images[|accepted|].info == band
                        && r.value == BandOf(usb.session.images[|accepted|], request.value.mode, caps.value.lineOrder)
    {
      hide MayFollow, ParseBand, ResponseStatus, Observe, Framed, Decoded, ParseCapabilities, Command, PixelTotal,
        Gathered, Faithful, BandAdmitted, Summarize, EmptyReads, Inadmissible, Refuses, ValidateTuning;
      var mode, order := request.value.mode, caps.value.lineOrder;
      CommandNeedsKnownOrder(request.value, caps.value);
      Permissions(usb.session);
      synchronized := false;
      var sent := usb.Write(Short(READ_IMAGE));
      if sent.Err? {
        return Err(sent.error);
      }
      ghost var images, asked := usb.session.images, usb.log;
      HeightFits(accepted, images, mode, order, band);
      var raw, chunks := ReadImageBand(band.length);
      ImageExcuses(raw, asked, chunks, old(host.now));
      if synchronized {
        DrainedImageKeepsFaith(accepted, images, RawImage(band, Gathered(chunks)), mode, order);
      }
      if raw.Err? {
        return Err(raw.error);
      }
      WholeImageDecodes(band, raw.value, mode, order);
      var pixels := Decode(band, raw.value, mode, order);
      if pixels.Err? {
        return Err(pixels.error);
      }
      if summary.height + band.rows >= U32_LIMIT {
        return Err(Fail(InvalidData, "Image height overflow"));
      }
      r := Ok(ImageBand(band.width, band.rows, mode, pixels.value, raw.value));
    }

    /** After the consumer: account for the band, or stop. `Ok(true)` means it was the last. */
    method Settle(band: ImageBand, last: bool, outcome: CallOutcome) returns (r: IoResult<bool>)
      requires Scanning() && synchronized && usb.session.op == READ_IMAGE
      requires |usb.session.images| == |accepted| + 1
      requires band == BandOf(usb.session.images[|accepted|], request.value.mode, caps.value.lineOrder)
      requires last == usb.session.images[|accepted|].info.finalBand
      requires accepted != [] ==> accepted[0].width == band.width
      modifies host, this`summary, this`accepted
      ensures Scanning() && synchronized
      ensures accepted == old(accepted) + if outcome.Accepted? then [band] else []
      ensures r.Ok? ==> outcome.Accepted? && r.value == last
      ensures outcome.Rejected? ==> r == Err(outcome.error)
      ensures outcome.Unwound? ==> r.Err? && !r.error.hostCancelled
      ensures outcome.Accepted? && r.Err? ==> ExcusedNow(r.error)
      ensures outcome.Accepted? && r.Err? && r.error.hostCancelled ==> true in host.observed
      ensures old(host.observed) <= host.observed && host.now >= old(host.now)
      ensures r.Ok? && !r.value ==> Reading()
      ensures r.Ok? && r.value ==> MayFollow(usb.session, Short(RELEASE)) && |usb.session.images| == |accepted|
    {
      hide MayFollow, ParseBand, ResponseStatus, Observe, ParseCapabilities, Command, PixelTotal, RowTotal,
        ByteTotal, Decoded, Faithful;
      match outcome
      case Rejected(error) =>
        return Err(error);
      case Unwound =>
        return Err(Fail(Other, "Image consumer panicked; job cancelled"));
      case Accepted =>
        SummaryGrows(accepted, band);
        AcceptedBandKeepsFaith(accepted, usb.session.images, request.value.mode, caps.value.lineOrder);
        Permissions(usb.session);
        summary :=
          ScanSummary(band.width, summary.height + band.rows, summary.bands + 1, summary.bytes + |band.pixels|);
        accepted := accepted + [band];
        var checked := Checkpoint(host, deadline);
        if checked.Err? {
          return Err(checked.error);
        }
        r := Ok(last);
    }

    /** The cleanup commands, in order; a lost reply stops them. */
    method Finish(abort: bool) returns (r: IoResult<()>)
      requires Scanning()
      requires synchronized && !abort ==> MayFollow(usb.session, Short(RELEASE))
      modifies usb, this`synchronized
      ensures Sane()
      ensures r.Ok? <==> old(synchronized) && CleanExit(old(usb.log), usb.log, abort)
      ensures r.Ok? ==> usb.session.link.Boundary? && usb.session.owner.Free?
      ensures old(usb.log) <= usb.log && (old(synchronized) ==> Leaves(usb.log, |old(usb.log)|, abort))
      ensures !old(synchronized) ==> usb.log == old(usb.log)
      ensures usb.session.op != INQUIRY
      // A due RELEASE is withheld exactly when the ABORT before it was not answered in full.
      ensures old(synchronized) ==>
                (usb.session.op == RELEASE
                 <==> (abort ==> |usb.log| >= |old(usb.log)| + 2 && Exchanged(usb.log, |old(usb.log)|, Short(ABORT))))
      ensures usb.session.images == old(usb.session.images) && usb.session.window == old(usb.session.window)
              && usb.session.caps == old(usb.session.caps)
    {
      hide MayFollow, ParseBand, ResponseStatus, Observe, Framed, Command, Faithful, Exchanged, Confirmed, Summarize,
        ValidateTuning;
      if !synchronized {
        return Err(Fail(Other, "USB reply stream is uncertain; reconnect scanner before another job"));
      }
      var failed := false;
      if abort {
        Permissions(usb.session);
        var ok := CleanUp(ABORT);
        failed := !ok;
      }
      ghost var aborted := usb.log;
      if synchronized {
        Permissions(usb.session);
        var ok := CleanUp(RELEASE);
        failed := failed || !ok;
        if abort {
          ConfirmedStays(aborted, usb.log, |old(usb.log)|, ABORT);
        }
      }
      r := if failed then Err(Fail(Other, "Cleanup unconfirmed; reconnect scanner")) else Ok(());
    }

    method CleanUp(opcode: Byte) returns (good: bool)
      requires Sane() && synchronized && opcode in {ABORT, RELEASE}
      requires usb.session.link.Boundary? && MayFollow(usb.session, Short(opcode))
      modifies usb, this`synchronized
      ensures Sane() && (synchronized <==> usb.session.link.Boundary?)
      ensures usb.session.images == old(usb.session.images) && usb.session.window == old(usb.session.window)
              && usb.session.caps == old(usb.session.caps)
      ensures good ==> synchronized
      ensures usb.session.op == opcode
      ensures usb.session.owner == if opcode == RELEASE && good then Free else old(usb.session.owner)
      ensures |old(usb.log)| < |usb.log| <= |old(usb.log)| + 2 && old(usb.log) <= usb.log
      ensures usb.log[|old(usb.log)|].Wrote? && usb.log[|old(usb.log)|].data == Short(opcode)
      ensures synchronized <==> |usb.log| == |old(usb.log)| + 2 && Exchanged(usb.log, |old(usb.log)|, Short(opcode))
      ensures good <==> |usb.log| == |old(usb.log)| + 2 && Confirmed(usb.log, |old(usb.log)|, opcode)
    {
      hide MayFollow, ParseCapabilities, ResponseStatus, Observe, Framed, Exchanged;
      var reply := Exchange(Short(opcode));
      good := reply.Ok? && ResponseStatus(reply.value, false) == Ok(Good);
    }

    /** Cleanup and the job's verdict. */
    method Conclude(failure: Option<IoError>) returns (output: IoResult<ScanSummary>, health: Health)
      requires Scanning()
      requires failure.None? ==>
                 synchronized && MayFollow(usb.session, Short(RELEASE)) && |usb.session.images| == |accepted|
      modifies usb, this`synchronized
      ensures Sane()
      ensures health.Ready? <==> old(synchronized) && !firstReadCancelled
                                 && CleanExit(old(usb.log), usb.log, failure.Some?)
      ensures health.Ready? ==> usb.session.link.Boundary? && usb.session.owner.Free?
      ensures output.Ok? ==> failure.None? && output.value == Summarize(accepted)
      ensures output.Ok? && !firstReadCancelled ==> health.Ready?
      ensures health.Ready? ==> (output.Ok? <==> failure.None?)
      ensures failure.None? ==> (output.Ok? <==> CleanExit(old(usb.log), usb.log, false))
      ensures old(usb.log) <= usb.log && (failure.None? ==> Leaves(usb.log, |old(usb.log)|, false))
      ensures usb.session.op != INQUIRY
      ensures usb.session.images == old(usb.session.images) && usb.session.window == old(usb.session.window)
              && usb.session.caps == old(usb.session.caps)
      ensures failure.Some? ==> output.Err? && output.error in {failure.value, Reworded(failure.value)}
      ensures failure.Some? && health.Ready? ==> output.error == failure.value
    {
      var cleanup := Finish(failure.Some?);
      health := if cleanup.Ok? && !firstReadCancelled then Ready else NeedsReconnect;
      match failure
      case None => output := if cleanup.Ok? then Ok(summary) else Err(cleanup.error);
      case Some(e) => output := Err(if cleanup.Ok? then e else Reworded(e));
    }
  }

  /** Any image consumer: it may accept, fail or panic at any band. */
  class Consumer {
    /** What it did last. */
    ghost var said: CallOutcome

    constructor ()
      ensures said == Accepted
    {
      said := Accepted;
    }

    method Consume(band: ImageBand) returns (outcome: CallOutcome)
      modifies this
      ensures said == outcome
    {
      outcome := *;
      said := outcome;
    }
  }

  /** The job is complete: every drained image was accepted, and the last one was final. */
  ghost predicate Complete(job: Job)
    reads job, job.usb
  {
    && job.request.Some? && job.caps.Some?
    && job.usb.session.window == job.request
    && Faithful(job.accepted, job.usb.session.images, job.request.value.mode, job.caps.value.lineOrder)
    && |job.accepted| == |job.usb.session.images| > 0
    && job.usb.session.images[|job.accepted| - 1].info.finalBand
  }

  /** Why a job stopped: its traffic begins at event `from`, it stopped before event `at`, with `error`,
      and had until `deadline`. */
  datatype Stop = Stop(from: nat, at: nat, deadline: nat, error: IoError)

  /** The image was complete, and the RELEASE that followed was not confirmed. */
  ghost predicate Unreleased(log: seq<Event>, at: nat)
    requires at <= |log|
  {
    var s := Observe(log[..at]);
    && s.images != [] && s.images[|s.images| - 1].info.finalBand
    && Leaves(log, at, false) && !CleanExit(log[..at], log, false)
  }

  /** The reasons that lie in the pipe, the device, the host, the clock and the preparation. */
  ghost predicate Blamed(usb: Transport, host: Host, prepare: seq<Byte> -> Preparation, stop: Stop)
    reads usb, host
  {
    && stop.from <= stop.at <= |usb.log|
    && var s := Observe(usb.log[..stop.at]);
       || Excused(stop.error, s, usb.log[stop.from..stop.at], host.observed, host.now, stop.deadline)
       || (stop.from < stop.at == |usb.log| && Unprepared(s, prepare))
       || Unreleased(usb.log, stop.at)
  }

  /** A reason that held when the job stopped still explains it after the cleanup. */
  lemma StillBlamed(job: Job, prepare: seq<Byte> -> Preparation, error: IoError, log: seq<Event>, observed: seq<bool>,
                    now: nat)
    requires job.usb.Valid() && job.begun <= |log| && log <= job.usb.log
    requires observed <= job.host.observed && now <= job.host.now
    requires Excused(error, Observe(log), log[job.begun..], observed, now, job.deadline)
    ensures Blamed(job.usb, job.host, prepare, Stop(job.begun, |log|, job.deadline, error))
  {
    hide Excused, Observe;
    assert job.usb.log[..|log|] == log && job.usb.log[job.begun..|log|] == log[job.begun..];
    StaysExcused(error, Observe(log), log[job.begun..], observed, now, job.deadline, job.host.observed, job.host.now);
  }

  /** The verdict and its reason. */
  method ConcludeFor(job: Job, prepare: seq<Byte> -> Preparation, failure: Option<IoError>, ghost blamed: bool)
    returns (output: IoResult<ScanSummary>, health: Health, ghost stop: Stop)
    requires job.Scanning()
    requires failure.None? ==> job.synchronized && MayFollow(job.usb.session, Short(RELEASE)) && Complete(job)
                               && !job.firstReadCancelled
    requires failure.Some? && blamed ==> job.ExcusedNow(failure.value)
    modifies job.usb, job`synchronized
    ensures job.Sane() && job.usb.session.op != INQUIRY
    ensures output.Ok? ==> failure.None? && health.Ready? && Complete(job) && output.value == Summarize(job.accepted)
    ensures health.Ready? ==> job.usb.session.link.Boundary? && job.usb.session.owner.Free?
    ensures health.Ready? ==> CleanExit(old(job.usb.log), job.usb.log, output.Err?)
    ensures failure.Some? && health.Ready? ==> output == Err(failure.value)
    ensures health.Ready? ==> (output.Ok? <==> failure.None?)
    ensures job.usb.session.images == old(job.usb.session.images)
    ensures job.usb.session.window == old(job.usb.session.window)
            && job.usb.session.caps == old(job.usb.session.caps)
    ensures stop.from == job.begun && stop.deadline == job.deadline
    ensures output.Err? ==> output.error in {stop.error, Reworded(stop.error)}
                            && (failure.None? || blamed ==> Blamed(job.usb, job.host, prepare, stop))
  {
    hide MayFollow, ParseBand, ResponseStatus, Observe, Framed, ParseCapabilities, Command, Summarize, CleanExit,
      Faithful, ValidateTuning, Excused, Unprepared;
    ghost var before := job.usb.log;
    output, health := job.Conclude(failure);
    stop := Stop(job.begun, |before|, job.deadline,
                 if failure.Some? then failure.value else if output.Err? then output.error else NO_PROGRESS);
    assert job.usb.log[..|before|] == before;
    if failure.Some? && blamed {
      StillBlamed(job, prepare, failure.value, before, job.host.observed, job.host.now);
    }
  }

  /** From the reservation to the last band, or to the first reason to stop. */
  method ReadAll(job: Job, consumer: Consumer) returns (failure: Option<IoError>)
    requires job.Scanning() && job.synchronized && job.usb.session.images == [] && job.accepted == []
    requires job.usb.session.op == RESERVE && Answered(job.usb.session.reply, false, Good)
    requires !job.firstReadCancelled && consumer.said.Accepted?
    modifies job.usb, job.host, consumer
    modifies job`synchronized, job`firstReadCancelled, job`summary, job`accepted
    ensures job.Scanning()
    ensures failure.None? ==> job.synchronized && MayFollow(job.usb.session, Short(RELEASE)) && Complete(job)
                              && !job.firstReadCancelled && consumer.said.Accepted?
    ensures failure.Some? ==> !consumer.said.Accepted? || job.ExcusedNow(failure.value)
    ensures old(job.host.observed) <= job.host.observed && old(job.host.now) <= job.host.now
  {
    hide MayFollow, ParseBand, ResponseStatus, Observe, Framed, ParseCapabilities, Command, Summarize, CleanExit,
      OnlyInquired, Faithful, BandOf, Decodable, ValidateTuning, Excused, Unprepared;
    failure := None;
    var begun := job.Begin();
    if begun.Err? {
      failure := Some(begun.error);
    }
    var done := begun.Err?;
    while !done
      invariant job.Scanning() && !(done && failure.None? && job.firstReadCancelled)
      invariant |job.accepted| <= MAX_BANDS
      invariant !done ==> failure.None? && job.Reading() && !job.firstReadCancelled
      invariant done && failure.None? ==>
                  job.synchronized && MayFollow(job.usb.session, Short(RELEASE)) && Complete(job)
      invariant failure.Some? ==> !consumer.said.Accepted? || job.ExcusedNow(failure.value)
      invariant failure.None? ==> consumer.said.Accepted?
      invariant old(job.host.observed) <= job.host.observed && old(job.host.now) <= job.host.now
      decreases !done, MAX_BANDS - |job.accepted|
    {
      var band, last := job.NextBand();
      if band.Err? {
        failure, done := Some(band.error), true;
      } else {
        var outcome := consumer.Consume(band.value);
        var settled := job.Settle(band.value, last, outcome);
        if settled.Err? {
          failure, done := Some(settled.error), true;
        } else {
          done := settled.value;
        }
      }
    }
  }

  /** One job against any pipe, any host, any preparation and any consumer. */
  method Run(job: Job, prepare: seq<Byte> -> Preparation, consumer: Consumer)
    returns (output: IoResult<ScanSummary>, health: Health, ghost stop: Stop)
    requires job.Idle() && job.accepted == [] && !job.firstReadCancelled && consumer.said.Accepted?
    modifies job, job.usb, job.host, consumer
    ensures job.Sane()
    ensures output.Ok? ==> health.Ready? && Complete(job) && output.value == Summarize(job.accepted)
    ensures health.Ready? ==> job.usb.session.link.Boundary? && job.usb.session.owner.Free?
    ensures health.Ready? ==> OnlyInquired(old(job.usb.log), job.usb.log)
                              || exists before :: CleanExit(before, job.usb.log, output.Err?)
    // A job fails only for a reason that can be named.
    ensures stop.from == |old(job.usb.log)| && stop.deadline >= old(job.host.now) + 120_000
    ensures output.Err? ==> output.error in {stop.error, Reworded(stop.error)}
                            && (!consumer.said.Accepted? || Blamed(job.usb, job.host, prepare, stop))
  {
    hide MayFollow, ParseBand, ResponseStatus, Observe, Framed, ParseCapabilities, Command, Summarize, CleanExit,
      OnlyInquired, Faithful, BandOf, Decodable, ValidateTuning, Excused, Unprepared;
    var opening := job.Open(prepare);
    if opening.Early? {
      stop := Stop(job.begun, |job.usb.log|, job.deadline, opening.error);
      assert job.usb.log[..stop.at] == job.usb.log && job.usb.log[job.begun..stop.at] == job.usb.log[job.begun..];
      return Err(opening.error), opening.health, stop;
    }
    var failure := ReadAll(job, consumer);
    ghost var before := job.usb.log;
    output, health, stop := ConcludeFor(job, prepare, failure, consumer.said.Accepted?);
    assert health.Ready? ==> CleanExit(before, job.usb.log, output.Err?);
  }
}

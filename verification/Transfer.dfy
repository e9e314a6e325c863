/** One WIA transfer: scan job, tone, BMP encoder and application callback together
    (src/wia_transfer.rs, with scan_in_session of src/scan.rs). */
module Transfer {
  import opened Basics
  import opened Wire
  import opened BandCodec
  import opened Usb
  import opened ScanJob
  import opened Tone
  import opened Bmp
  import opened Encoder

  datatype NextStream = Provided | Declined | Skipped

  /** What a callback method may do to its caller. */
  datatype Called<+T> = Returned(value: T) | Threw(error: IoError) | Unwinds

  /** The application's transfer callback; `messages` are the (percent, bytes) it was sent. */
  class Callback {
    ghost var messages: seq<(nat, nat)>
    /** Its last answer to a message, and its answer to the request for a stream. */
    ghost var said: Called<bool>
    ghost var offered: Option<Called<NextStream>>
    /** What the stream it provided held. */
    ghost var held: seq<Byte>

    constructor ()
      ensures messages == [] && offered.None? && said == Returned(false)
    {
      messages, said, offered, held := [], Returned(false), None, [];
    }

    method GetStream() returns (next: Called<NextStream>, stream: Stream)
      modifies this`offered, this`held
      ensures offered == Some(next) && held == stream.content
      ensures fresh(stream) && !stream.broken && stream.signedAt.None?
    {
      next := *;
      offered := Some(next);
      stream := new Stream();
      var holds: seq<Byte> := *;
      stream.content, held := holds, holds;
    }

    /** `Returned(true)` is the application's request to cancel. */
    method Status(percent: nat, fileBytes: nat) returns (reply: Called<bool>)
      modifies this`messages, this`said
      ensures messages == old(messages) + [(percent, fileBytes)] && said == reply
    {
      reply := *;
      messages, said := messages + [(percent, fileBytes)], reply;
    }
  }

  datatype Outcome =
    Completed(summary: ScanSummary) | CancelledTransfer | SkippedTransfer | Errored(error: IoError) | Unwound

  // ---- Progress ----

  function Percent(rows: nat, expectedRows: nat): (p: nat)
    requires expectedRows > 0
    ensures p <= 99
  {
    Min(rows * 100 / expectedRows, 99)
  }

  /** Whole percents of the expected rows, rounded down and capped. */
  lemma PercentExactly(rows: nat, expectedRows: nat)
    requires expectedRows > 0
    ensures var p := Percent(rows, expectedRows);
            p * expectedRows <= 100 * rows && (p == 99 || 100 * rows < (p + 1) * expectedRows)
  {
    var p, q := Percent(rows, expectedRows), rows * 100 / expectedRows;
    assert rows * 100 == expectedRows * q + rows * 100 % expectedRows;
    assert (q - p) * expectedRows >= 0;
  }

  lemma PercentGrows(fewer: nat, more: nat, expectedRows: nat)
    requires fewer <= more && expectedRows > 0
    ensures Percent(fewer, expectedRows) <= Percent(more, expectedRows)
  {
    QuotientGrows(fewer * 100, more * 100, expectedRows);
  }

  lemma QuotientGrows(a: nat, b: nat, d: nat)
    requires a <= b && d > 0
    ensures a / d <= b / d
  {
    var q, r := a / d, b / d;
    assert d * q <= a && b < d * (r + 1);
    assert d * (r + 1 - q) == d * (r + 1) - d * q;
    if r + 1 <= q {
      NonPositiveProduct(d, r + 1 - q);
    }
  }

  /** Percentages and byte counts never decrease, and 100 can only be the last message. */
  ghost predicate Progressive(messages: seq<(nat, nat)>) {
    && (forall i, j :: 0 <= i < j < |messages| ==> messages[i].0 <= messages[j].0 && messages[i].1 <= messages[j].1)
    && (forall i :: 0 <= i < |messages| - 1 ==> messages[i].0 < 100)
  }

  /** Everything sent so far is at most this much. */
  ghost predicate AtMost(messages: seq<(nat, nat)>, percent: nat, fileBytes: nat) {
    forall i :: 0 <= i < |messages| ==> messages[i].0 <= percent && messages[i].1 <= fileBytes
  }

  /** Completion has not been announced. */
  ghost predicate NotYetComplete(messages: seq<(nat, nat)>) {
    forall i :: 0 <= i < |messages| ==> messages[i].0 < 100
  }

  lemma NextMessage(messages: seq<(nat, nat)>, percent: nat, fileBytes: nat)
    requires Progressive(messages) && NotYetComplete(messages) && AtMost(messages, percent, fileBytes)
    ensures Progressive(messages + [(percent, fileBytes)])
        && AtMost(messages + [(percent, fileBytes)], percent, fileBytes)
    ensures percent < 100 ==> NotYetComplete(messages + [(percent, fileBytes)])
  {
  }

  /** The length of the file once these bands are in it: headers and whole padded rows. */
  function FileLength(mode: ColorMode, bands: seq<ImageBand>): nat {
    if bands == [] then 0 else PixelOffset(mode) + RowTotal(bands) * Stride(RowBytes(bands[0].width, mode))
  }

  /** Everything the application has been told once these bands are in the file. */
  function Announced(mode: ColorMode, bands: seq<ImageBand>, expectedRows: nat): seq<(nat, nat)>
    requires expectedRows > 0
  {
    if bands == [] then [(0, 0)]
    else Announced(mode, bands[..|bands| - 1], expectedRows)
         + [(Percent(RowTotal(bands), expectedRows), FileLength(mode, bands))]
  }

  lemma AnnouncedOneMore(mode: ColorMode, bands: seq<ImageBand>, band: ImageBand, expectedRows: nat)
    requires expectedRows > 0
    ensures Announced(mode, bands + [band], expectedRows)
            == Announced(mode, bands, expectedRows)
               + [(Percent(RowTotal(bands + [band]), expectedRows), FileLength(mode, bands + [band]))]
  {
    assert (bands + [band])[..|bands|] == bands;
  }

  lemma LongerFile(mode: ColorMode, bands: seq<ImageBand>)
    requires bands != []
    ensures RowTotal(bands[..|bands| - 1]) <= RowTotal(bands)
    ensures FileLength(mode, bands[..|bands| - 1]) <= FileLength(mode, bands)
  {
    hide Stride, RowBytes, PixelOffset;
    MoreRows(RowTotal(bands[..|bands| - 1]), RowTotal(bands), Stride(RowBytes(bands[0].width, mode)));
  }

  lemma MoreRows(fewer: nat, more: nat, stride: nat)
    requires fewer <= more
    ensures fewer * stride <= more * stride
  {
    assert (more - fewer) * stride >= 0;
  }

  lemma EitherWay(rows: nat, stride: nat)
    ensures rows * stride == stride * rows
  {
  }

  /** Such a report never goes back and never says 100. */
  lemma {:induction false} AnnouncedIsProgressive(mode: ColorMode, bands: seq<ImageBand>, expectedRows: nat)
    requires expectedRows > 0
    ensures var told := Announced(mode, bands, expectedRows);
            && Progressive(told) && NotYetComplete(told) && told != [] && told[0] == (0, 0)
            && AtMost(told, Percent(RowTotal(bands), expectedRows), FileLength(mode, bands))
  {
    hide Percent, RowTotal, FileLength;
    if bands != [] {
      var earlier := bands[..|bands| - 1];
      AnnouncedIsProgressive(mode, earlier, expectedRows);
      LongerFile(mode, bands);
      PercentGrows(RowTotal(earlier), RowTotal(bands), expectedRows);
      NextMessage(Announced(mode, earlier, expectedRows), Percent(RowTotal(bands), expectedRows),
                  FileLength(mode, bands));
    }
  }

  lemma LengthOfFile(bands: seq<ImageBand>, mode: ColorMode, ppm: U32)
    requires AllAdmissible(bands, mode) && bands != []
    ensures |Unfinished(mode, ppm, bands)| == FileLength(mode, bands)
  {
    hide File, RowsOf, AllAdmissible, RowTotal, Stride, RowBytes, Unfinished;
    EitherWay(RowTotal(bands), Stride(RowBytes(bands[0].width, mode)));
    FinalFile(bands, mode, ppm);
    RowsOfSize(bands, mode);
    Fields(mode, ppm, bands[0].width, BLANK, RowsOf(bands, mode));
  }

  // ---- Bands of one job always suit an encoder of the same mode ----

  /** No band of a job can trip a geometry or limit check of the encoder. */
  lemma JobBandsAreAdmissible(bands: seq<ImageBand>, images: seq<RawImage>, mode: ColorMode, order: Byte,
                              band: ImageBand)
    requires Faithful(bands, images, mode, order) && |images| == |bands| + 1 && |bands| < MAX_BANDS
    requires band == BandOf(images[|bands|], mode, order)
    requires bands != [] ==> bands[0].width == band.width
    requires ByteTotal(bands) + |band.pixels| <= MAX_JOB_BYTES
    ensures Admissible(bands, mode, band)
  {
    hide Decoded, RowBytes, RowTotal, ByteTotal;
    var image := images[|bands|];
    DecodedSize(image, mode, order);
    SameProduct(image.info, mode);
    RowsBounded(bands, images, mode, order);
  }

  /** Tone mapping keeps every size the encoder checks. */
  lemma ToneKeepsAdmissible(t: Tone, bands: seq<ImageBand>, mode: ColorMode, band: ImageBand)
    ensures Admissible(TonedBands(t, bands), mode, TonedBand(t, band)) <==> Admissible(bands, mode, band)
  {
    hide RowBytes, RowTotal, ByteTotal, Accumulate;
    ToneKeepsTotals(t, bands);
    var s := Summarize(TonedBands(t, bands));
    assert s == Summarize(bands);
    assert s.height == RowTotal(TonedBands(t, bands)) && s.bytes == ByteTotal(TonedBands(t, bands));
  }

  lemma SameProduct(info: BandInfo, mode: ColorMode)
    ensures info.PixelBytes(mode) == info.rows * RowBytes(info.width, mode)
    ensures info.RowBytes(mode) == RowBytes(info.width, mode)
  {
  }

  // ---- The image on the wire and the image in the file ----

  /** The picture that the drained images of a session mean, tone-mapped. */
  function WirePicture(t: Tone, ppm: U32, images: seq<RawImage>, mode: ColorMode, order: Byte): Picture
    requires images != [] && forall i :: 0 <= i < |images| ==> Decodable(images[i], mode, order)
  {
    var bands := seq(|images|, i requires 0 <= i < |images| => BandOf(images[i], mode, order));
    Picture(mode, ppm, images[0].info.width, RowTotal(bands), AllPixels(TonedBands(t, bands)))
  }

  /** The committed file of a complete job is exactly the tone-mapped wire image. */
  lemma FileIsTheWireImage(t: Tone, ppm: U32, bands: seq<ImageBand>, images: seq<RawImage>, mode: ColorMode,
                           order: Byte)
    requires Faithful(bands, images, mode, order) && |bands| == |images| > 0
    requires AllAdmissible(TonedBands(t, bands), mode)
    ensures forall i :: 0 <= i < |images| ==> Decodable(images[i], mode, order)
    ensures ReadBmp(Published(mode, ppm, TonedBands(t, bands))) == Some(WirePicture(t, ppm, images, mode, order))
  {
    hide EncodedRows, ReadBmp, File, RowBytes, Stride, Decoded;
    var toned := TonedBands(t, bands);
    AdmissibleShape(toned, mode);
    SizesNeverOverflow(toned, mode);
    FinishedReadsBack(mode, ppm, toned[0].width, RowTotal(toned), AllPixels(toned));
    ToneKeepsTotals(t, bands);
    assert RowTotal(toned) == Summarize(toned).height == RowTotal(bands);
    assert bands == seq(|images|, i requires 0 <= i < |images| => BandOf(images[i], mode, order));
  }

  // ---- The band consumer ----

  /** Why the consumer stopped the job, if it did. */
  datatype Sink = Sink(callbackCancelled: bool, outputFailure: Option<IoError>)

  const OPEN_SINK := Sink(false, None)

  /** The consumer remembers exactly what went wrong: the encoder's error, or the callback's. */
  ghost predicate Remembers(sink: Sink, callback: Callback, encoder: BmpEncoder)
    reads callback, encoder
  {
    && (encoder.poisoned.Some? ==>
          !sink.callbackCancelled && sink.outputFailure.Some? && callback.said == Returned(false)
                                   && encoder.poisoned.value == Reworded(sink.outputFailure.value))
    && (encoder.poisoned.None? ==>
          match callback.said
          case Returned(cancel) => sink.callbackCancelled == cancel && sink.outputFailure.Some? == cancel
          case Threw(error) => sink == Sink(false, Some(error))
          case Unwinds => sink == OPEN_SINK)
  }

  /** The application has been told exactly what the encoder holds. */
  ghost predicate Reported(callback: Callback, encoder: BmpEncoder, expectedRows: nat)
    requires expectedRows > 0
    reads callback, encoder
  {
    callback.messages == Announced(encoder.mode, encoder.pushed, expectedRows)
  }

  lemma LengthOfContent(encoder: BmpEncoder)
    requires encoder.Valid() && encoder.poisoned.None?
    ensures |encoder.stream.content| == FileLength(encoder.mode, encoder.pushed)
  {
    if encoder.pushed != [] {
      LengthOfFile(encoder.pushed, encoder.mode, encoder.pixelsPerMetre);
    }
  }

  method Deliver(callback: Callback, encoder: BmpEncoder, tone: Tone, expectedRows: nat, band: ImageBand)
    returns (outcome: CallOutcome, sink: Sink)
    requires encoder.Valid() && encoder.poisoned.None? && expectedRows > 0
    requires Admissible(encoder.pushed, encoder.mode, TonedBand(tone, band))
    requires Reported(callback, encoder, expectedRows) && callback.said == Returned(false)
    modifies callback`messages, callback`said, encoder, encoder.stream
    // One message for each band that is in the file, with the rows and the length it has by then.
    ensures encoder.Valid() && Reported(callback, encoder, expectedRows)
    ensures outcome.Accepted? ==>
              && sink == OPEN_SINK && encoder.poisoned.None?
              && encoder.pushed == old(encoder.pushed) + [TonedBand(tone, band)]
    ensures outcome.Unwound? ==> callback.said.Unwinds?
    ensures outcome.Rejected? <==> sink.outputFailure.Some?
    ensures outcome.Rejected? ==> outcome.error == Reworded(sink.outputFailure.value)
    ensures Remembers(sink, callback, encoder) && (outcome.Accepted? ==> callback.said == Returned(false))
    // With such a band, the encoder can only fail because its writer did.
    ensures encoder.poisoned.Some? ==> encoder.stream.broken
  {
    hide Percent, Geometry, Accumulate, AllAdmissible, RowTotal, ByteTotal, Unfinished, Admissible, FileLength,
      Announced;
    sink := OPEN_SINK;
    var toned := ThroughTone(tone, band);
    ghost var before := encoder.pushed;
    var pushed := encoder.Push(toned);
    if pushed.Err? {
      return Rejected(Reworded(pushed.error)), Sink(false, Some(pushed.error));
    }
    AnnouncedOneMore(encoder.mode, before, toned, expectedRows);
    LengthOfContent(encoder);
    var rows, fileBytes := encoder.Progress();
    var reply := callback.Status(Percent(rows, expectedRows), fileBytes);
    match reply
    case Unwinds => outcome := CallOutcome.Unwound;
    case Threw(error) => outcome, sink := Rejected(Reworded(error)), Sink(false, Some(error));
    case Returned(cancel) =>
      if cancel {
        var error := Fail(Interrupted, "WIA callback cancelled transfer");
        outcome, sink := Rejected(error), Sink(true, Some(error));
      } else {
        outcome := Accepted;
      }
  }

  // ---- The scan with that consumer ----

  /** The consumer stopped the job. */
  predicate Stopped(sink: Sink, said: Called<bool>) {
    sink.outputFailure.Some? || said.Unwinds?
  }

  /** The encoder holds the toned image of every band the job accepted. */
  ghost predicate InStep(accepted: seq<ImageBand>, callback: Callback, encoder: BmpEncoder, tone: Tone,
                         expectedRows: nat)
    requires expectedRows > 0
    reads callback, encoder
  {
    && encoder.poisoned.None?
    && encoder.pushed == TonedBands(tone, accepted)
    && callback.said == Returned(false)
    && Reported(callback, encoder, expectedRows)
  }

  /** The consumer call and the job's accounting for it. */
  method ConsumeBand(job: Job, callback: Callback, encoder: BmpEncoder, tone: Tone, expectedRows: nat,
                     band: ImageBand, last: bool)
    returns (settled: IoResult<bool>, sink: Sink)
    requires job.Scanning() && job.synchronized && job.usb.session.op == READ_IMAGE
    requires |job.usb.session.images| == |job.accepted| + 1 && |job.accepted| < MAX_BANDS
    requires band == BandOf(job.usb.session.images[|job.accepted|], job.request.value.mode, job.caps.value.lineOrder)
    requires last == job.usb.session.images[|job.accepted|].info.finalBand
    requires job.accepted != [] ==> job.accepted[0].width == band.width
    requires ByteTotal(job.accepted) + |band.pixels| <= MAX_JOB_BYTES
    requires encoder.Valid() && encoder.mode == job.request.value.mode
    requires expectedRows > 0 && InStep(job.accepted, callback, encoder, tone, expectedRows)
    modifies job.host, job`summary, job`accepted, callback`messages, callback`said, encoder, encoder.stream
    ensures job.Scanning() && job.synchronized && encoder.Valid()
    ensures Reported(callback, encoder, expectedRows)
    ensures encoder.poisoned.Some? ==> encoder.stream.broken
    ensures job.accepted == old(job.accepted) || job.accepted == old(job.accepted) + [band]
    ensures Remembers(sink, callback, encoder)
    ensures settled.Err? ==> Stopped(sink, callback.said) || job.ExcusedNow(settled.error)
    ensures settled.Err? && settled.error.hostCancelled ==> true in job.host.observed
    ensures old(job.host.observed) <= job.host.observed && old(job.host.now) <= job.host.now
    ensures settled.Ok? ==> job.accepted == old(job.accepted) + [band] && settled.value == last && sink == OPEN_SINK
                            && InStep(job.accepted, callback, encoder, tone, expectedRows)
    ensures settled.Ok? && !last ==> job.Reading()
    ensures settled.Ok? && last ==> MayFollow(job.usb.session, Short(RELEASE)) && Complete(job)
  {
    hide MayFollow, Observe, AllAdmissible, RowTotal, ByteTotal, Admissible, TonedBand, ValidateTuning, Summarize,
      BandOf, Faithful, Decodable, TonedBands, Decoded, Announced, BmpEncoder.Valid, Job.Sane, Excused;
    ghost var images, order := job.usb.session.images, job.caps.value.lineOrder;
    JobBandsAreAdmissible(job.accepted, images, encoder.mode, order, band);
    ToneKeepsAdmissible(tone, job.accepted, encoder.mode, band);
    ToneOneMore(tone, job.accepted, band);
    var outcome: CallOutcome;
    outcome, sink := Deliver(callback, encoder, tone, expectedRows, band);
    settled := job.Settle(band, last, outcome);
  }

  method ReadBands(job: Job, callback: Callback, encoder: BmpEncoder, tone: Tone, expectedRows: nat)
    returns (failure: Option<IoError>, sink: Sink)
    requires job.Reading() && !job.firstReadCancelled && job.accepted == []
    requires encoder.Valid() && encoder.pushed == [] && encoder.mode == job.request.value.mode
    requires expectedRows > 0 && InStep(job.accepted, callback, encoder, tone, expectedRows)
    modifies job.usb, job.host, job`synchronized, job`firstReadCancelled, job`summary, job`accepted
    modifies callback`messages, callback`said, encoder, encoder.stream
    ensures job.Scanning() && encoder.Valid()
    ensures Reported(callback, encoder, expectedRows)
    ensures failure.Some? ==> Stopped(sink, callback.said) || job.ExcusedNow(failure.value)
    ensures failure.None? ==>
              && job.synchronized && MayFollow(job.usb.session, Short(RELEASE)) && Complete(job)
              && !job.firstReadCancelled && sink == OPEN_SINK
              && InStep(job.accepted, callback, encoder, tone, expectedRows)
    ensures encoder.poisoned.Some? ==> encoder.stream.broken
    ensures Remembers(sink, callback, encoder)
    ensures failure.Some? && failure.value.hostCancelled ==> true in job.host.observed
    ensures old(job.host.observed) <= job.host.observed
  {
    hide MayFollow, Observe, BandOf, Decodable, Faithful, AllAdmissible, RowTotal, ByteTotal, Admissible,
      TonedBands, ValidateTuning, Summarize, Complete, Announced, Job.Scanning, Job.Sane, BmpEncoder.Valid,
      Excused;
    failure, sink := None, OPEN_SINK;
    var done := false;
    while !done
      invariant job.Scanning() && encoder.Valid() && (!done ==> failure.None? && job.Reading())
      invariant |job.accepted| <= MAX_BANDS
      invariant Reported(callback, encoder, expectedRows)
      invariant failure.Some? ==> Stopped(sink, callback.said) || job.ExcusedNow(failure.value)
      invariant failure.None? ==> sink == OPEN_SINK && !job.firstReadCancelled
                                  && InStep(job.accepted, callback, encoder, tone, expectedRows)
      invariant done && failure.None? ==>
                  job.synchronized && MayFollow(job.usb.session, Short(RELEASE)) && Complete(job)
      invariant encoder.poisoned.Some? ==> encoder.stream.broken
      invariant Remembers(sink, callback, encoder)
      invariant failure.Some? && failure.value.hostCancelled ==> true in job.host.observed
      invariant old(job.host.observed) <= job.host.observed && old(job.host.now) <= job.host.now
      decreases !done, MAX_BANDS - |job.accepted|
    {
      var band, last := job.NextBand();
      if band.Err? {
        failure, done := Some(band.error), true;
      } else {
        var settled: IoResult<bool>;
        settled, sink := ConsumeBand(job, callback, encoder, tone, expectedRows, band.value, last);
        if settled.Err? {
          failure, done := Some(settled.error), true;
        } else {
          done := settled.value;
        }
      }
    }
  }

  /** The rest of the job once the scanner is reserved. */
  method ScanReserved(job: Job, callback: Callback, encoder: BmpEncoder, tone: Tone, expectedRows: nat,
                      prepare: seq<Byte> -> Preparation)
    returns (output: IoResult<ScanSummary>, health: Health, sink: Sink, ghost stop: Stop)
    requires job.Scanning() && job.synchronized && job.usb.session.images == []
    requires job.accepted == [] && !job.firstReadCancelled
    requires job.usb.session.op == RESERVE && Answered(job.usb.session.reply, false, Good)
    requires encoder.Valid() && encoder.pushed == [] && encoder.mode == job.request.value.mode
    requires expectedRows > 0 && InStep([], callback, encoder, tone, expectedRows)
    modifies job.usb, job.host, job`synchronized, job`firstReadCancelled, job`summary, job`accepted
    modifies callback`messages, callback`said, encoder, encoder.stream
    ensures job.Sane() && encoder.Valid() && (health.Ready? ==> job.Idle())
    ensures Reported(callback, encoder, expectedRows)
    ensures output.Ok? ==>
              && health.Ready? && Complete(job) && job.usb.session.caps == job.caps
              && output.value == Summarize(job.accepted)
              && sink == OPEN_SINK && InStep(job.accepted, callback, encoder, tone, expectedRows)
    ensures health.NeedsReconnect? ==> output.Err?
    ensures job.usb.session.op != INQUIRY && job.usb.session.window in {None, job.request}
    ensures encoder.poisoned.Some? ==> encoder.stream.broken
    ensures Remembers(sink, callback, encoder)
    ensures health.Ready? && output.Err? && output.error.hostCancelled ==> true in job.host.observed
    ensures old(job.host.observed) <= job.host.observed
    ensures stop.from == job.begun && stop.deadline == job.deadline
    ensures output.Err? ==> output.error in {stop.error, Reworded(stop.error)}
                            && (Stopped(sink, callback.said) || Blamed(job.usb, job.host, prepare, stop))
  {
    hide MayFollow, Observe, TonedBands, BmpEncoder.Valid, Faithful, Summarize, ParseCapabilities, Command,
      ResponseStatus, ValidateTuning, CleanExit, OnlyInquired, Framed, Excused, Announced;
    sink := OPEN_SINK;
    var begun := job.Begin();
    var failure: Option<IoError> := None;
    if begun.Err? {
      failure := Some(begun.error);
    } else {
      failure, sink := ReadBands(job, callback, encoder, tone, expectedRows);
    }
    output, health, stop := ConcludeFor(job, prepare, failure, !Stopped(sink, callback.said));
  }

  /** The preparation of a request made beforehand. */
  function Always(request: ScanRequest): seq<Byte> -> Preparation {
    _ => Prepared(request)
  }

  /** The pipe's longest read is unknown or shorter than the tuned buffer. */
  ghost predicate ShortReads(usb: Transport)
    reads usb
  {
    usb.limit.Some? && (usb.limit.value.Err? || usb.limit.value.value < DEFAULT_TUNING.readBufferBytes)
  }

  /** `scan_in_session` with the tone-mapped consumer. */
  method ScanInSession(job: Job, request: ScanRequest, callback: Callback, encoder: BmpEncoder, tone: Tone,
      expectedRows: nat)
    returns (output: IoResult<ScanSummary>, health: Health, sink: Sink, ghost stop: Stop)
    requires job.Idle() && job.accepted == [] && !job.firstReadCancelled && job.tuning == DEFAULT_TUNING
    requires encoder.Valid() && encoder.pushed == [] && encoder.mode == request.mode
    requires expectedRows > 0 && InStep([], callback, encoder, tone, expectedRows)
    modifies job, job.usb, job.host, callback`messages, callback`said, encoder, encoder.stream
    ensures job.Sane() && encoder.Valid()
    ensures health.Ready? ==> job.Idle()
    ensures Reported(callback, encoder, expectedRows)
    ensures output.Ok? ==>
              && health.Ready? && Complete(job) && job.request == Some(request) && job.usb.session.caps == job.caps
              && output.value == Summarize(job.accepted)
              && sink == OPEN_SINK && InStep(job.accepted, callback, encoder, tone, expectedRows)
    ensures health.NeedsReconnect? ==> output.Err?
    ensures job.usb.log != old(job.usb.log) ==> job.usb.session.window in {None, Some(request)}
    ensures StoppedBeforeReserve(old(job.usb.log), job.usb) && Command(request, job.usb.session.caps.value).Ok? ==>
              health.Ready? && sink == OPEN_SINK && output.Err? && output.error in {CANCELLED, EXPIRED}
    ensures encoder.poisoned.Some? ==> encoder.stream.broken
    ensures Remembers(sink, callback, encoder)
    ensures health.Ready? && output.Err? && output.error.hostCancelled ==> true in job.host.observed
    ensures old(job.host.observed) <= job.host.observed
    // A scan fails only for a reason that can be named.
    ensures stop.from == |old(job.usb.log)| && stop.deadline >= old(job.host.now) + 120_000
    ensures output.Err? ==>
              || ShortReads(job.usb)
              || (output.error in {stop.error, Reworded(stop.error)}
                  && (Stopped(sink, callback.said) || Blamed(job.usb, job.host, Always(request), stop)))
  {
    hide MayFollow, Observe, TonedBands, BmpEncoder.Valid, Faithful, Summarize, ParseCapabilities, Command,
      ResponseStatus, ValidateTuning, CleanExit, OnlyInquired, Framed, Announced, Unprepared;
    sink := OPEN_SINK;
    stop := Stop(|job.usb.log|, |job.usb.log|, job.host.now + 120_000, CANCELLED);
    var cancelled := job.host.Cancelled();
    if cancelled {
      return Err(CANCELLED), Ready, sink, stop;
    }
    var limit := job.usb.ReadLimit();
    if limit.Err? {
      return Err(limit.error), Ready, sink, stop;
    }
    if limit.value < job.tuning.readBufferBytes {
      return Err(Fail(InvalidInput, "Read buffer exceeds the WinUSB pipe limit")), Ready, sink, stop;
    }
    hide Excused;
    var opening := job.Open(Always(request));
    if opening.Early? {
      stop := Stop(job.begun, |job.usb.log|, job.deadline, opening.error);
      assert job.usb.log[..stop.at] == job.usb.log && job.usb.log[job.begun..stop.at] == job.usb.log[job.begun..];
      return Err(opening.error), opening.health, sink, stop;
    }
    output, health, sink, stop := ScanReserved(job, callback, encoder, tone, expectedRows, Always(request));
  }

  // ---- The whole transfer ----

  /** `content` is a committed BMP that reads back as the tone-mapped image of this session. */
  ghost predicate Delivered(s: Session, content: seq<Byte>, request: ScanRequest, tone: Tone) {
    && s.window == Some(request) && s.caps.Some? && s.images != []
    && (forall i :: 0 <= i < |s.images| ==> Decodable(s.images[i], request.mode, s.caps.value.lineOrder))
    && DpiToPpm(request.dpi).Ok?
    && ReadBmp(content)
       == Some(WirePicture(tone, DpiToPpm(request.dpi).value, s.images, request.mode, s.caps.value.lineOrder))
  }

  /** The commit changes header fields only: the file is as long as the rows already written. */
  lemma CommitKeepsLength(bands: seq<ImageBand>, mode: ColorMode, ppm: U32)
    requires AllAdmissible(bands, mode) && bands != []
    ensures |Published(mode, ppm, bands)| == |Unfinished(mode, ppm, bands)|
  {
    hide File, RowsOf, Unfinished, Published, AllAdmissible, RowTotal;
    FinalFile(bands, mode, ppm);
    var rows := RowsOf(bands, mode);
    Fields(mode, ppm, bands[0].width, BLANK, rows);
    Fields(mode, ppm, bands[0].width,
           Patch(SIGNATURE, PixelOffset(mode) + |rows|, 0 - RowTotal(bands) as int, |rows|), rows);
  }

  /** What a failed scan means for the transfer. Cancellation counts only after confirmed cleanup. */
  function Verdict(health: Health, sink: Sink, error: IoError): (outcome: Outcome)
    ensures health.NeedsReconnect? ==> outcome.Errored?
    ensures outcome.Errored? ==>
              outcome.error == if sink.outputFailure.Some? then sink.outputFailure.value else error
    ensures outcome.Errored? || outcome.CancelledTransfer?
    // After confirmed cleanup a cancellation, by either side, is never reported as an error.
    ensures health.Ready? && sink.callbackCancelled ==> outcome.CancelledTransfer?
    ensures health.Ready? && error.hostCancelled ==> outcome.CancelledTransfer? || sink.outputFailure.Some?
  {
    if health.Ready? && (sink.callbackCancelled || (sink.outputFailure.None? && error.hostCancelled)) then
      CancelledTransfer
    else
      match sink.outputFailure
      case Some(original) => Errored(original)
      case None => Errored(error)
  }

  /** The reasons for which a transfer in progress may end as an error: the writer, the application, the
      pipe, the device, the host or the clock. A cancellation is an error only if the cleanup failed. */
  ghost predicate Faulted(usb: Transport, host: Host, callback: Callback, stream: Stream, request: ScanRequest,
                          health: Health, stop: Stop)
    reads usb, host, callback, stream
  {
    || stream.broken
    || callback.said.Threw? || callback.said.Unwinds?
    || (callback.said == Returned(true) && health.NeedsReconnect?)
    || ShortReads(usb)
    || Blamed(usb, host, Always(request), stop)
  }

  /** The reasons for which a well-formed request may end as an error. */
  ghost predicate Excusable(usb: Transport, host: Host, callback: Callback, stream: Stream?, request: ScanRequest,
                            health: Health, stop: Stop)
    reads usb, host, callback, stream
  {
    || callback.held != [] || callback.said.Threw?
    || (callback.offered.Some? && callback.offered.value.Threw?)
    || (stream != null && Faulted(usb, host, callback, stream, request, health, stop))
  }

  /** The messages of a transfer that announced completion: none but one for each band of the file, with the
      rows and the length it had by then, and the last. */
  ghost predicate ReportedWhole(messages: seq<(nat, nat)>, content: seq<Byte>, request: ScanRequest, expectedRows: nat)
    requires expectedRows > 0
  {
    && DpiToPpm(request.dpi).Ok?
    && exists bands: seq<ImageBand> ::
         && AllAdmissible(bands, request.mode) && bands != []
         && content == Published(request.mode, DpiToPpm(request.dpi).value, bands)
         && messages == Announced(request.mode, bands, expectedRows) + [(100, |content|)]
  }

  lemma WholeReport(request: ScanRequest, bands: seq<ImageBand>, messages: seq<(nat, nat)>, content: seq<Byte>,
                    expectedRows: nat)
    requires expectedRows > 0 && DpiToPpm(request.dpi).Ok? && AllAdmissible(bands, request.mode) && bands != []
    requires content == Published(request.mode, DpiToPpm(request.dpi).value, bands)
    requires messages == Announced(request.mode, bands, expectedRows) + [(100, |content|)]
    ensures ReportedWhole(messages, content, request, expectedRows)
  {
  }

  /** After a successful scan: commit the file, then announce completion. */
  method Publish(job: Job, callback: Callback, encoder: BmpEncoder, tone: Tone, expectedRows: nat, summary: ScanSummary)
    returns (outcome: Outcome)
    requires Complete(job) && job.usb.session.caps == job.caps && summary == Summarize(job.accepted)
    requires encoder.Valid() && encoder.mode == job.request.value.mode
    requires DpiToPpm(job.request.value.dpi) == Ok(encoder.pixelsPerMetre)
    requires expectedRows > 0 && InStep(job.accepted, callback, encoder, tone, expectedRows)
    modifies job.host, callback`messages, callback`said, encoder.stream
    // One more message at most: completion, with the length of the file.
    ensures callback.messages == old(callback.messages)
            || callback.messages == old(callback.messages) + [(100, |encoder.stream.content|)]
    ensures Progressive(callback.messages)
    ensures callback.messages != old(callback.messages) || outcome.Completed? ==>
              ReportedWhole(callback.messages, encoder.stream.content, job.request.value, expectedRows)
    ensures NotYetComplete(callback.messages) ==> callback.messages == old(callback.messages)
    ensures outcome.CancelledTransfer? ==> true in job.host.observed || callback.said == Returned(true)
    ensures old(job.host.observed) <= job.host.observed
    ensures !NotYetComplete(callback.messages) ==>
              Delivered(job.usb.session, encoder.stream.content, job.request.value, tone)
    // The summary always fits the delivered bands: only the writer or the callback can fail here.
    ensures outcome.Errored? ==> encoder.stream.broken || callback.said.Threw?
    ensures encoder.stream.signedAt.Some? ==>
              Delivered(job.usb.session, encoder.stream.content, job.request.value, tone)
    ensures outcome.Completed? ==>
              && outcome.summary == summary
              && callback.messages == old(callback.messages) + [(100, |encoder.stream.content|)]
    ensures outcome.Completed? ==> !NotYetComplete(callback.messages)
    ensures !outcome.SkippedTransfer? && (outcome.Unwound? ==> callback.said.Unwinds?)
    ensures callback.said == Returned(true) ==> outcome.CancelledTransfer?
  {
    hide Progressive, Percent, RowTotal, ByteTotal, Faithful, File, Published, Unfinished, AllAdmissible,
      TonedBands, WirePicture, ReadBmp, DpiToPpm, Decodable, Announced, FileLength;
    AnnouncedIsProgressive(encoder.mode, encoder.pushed, expectedRows);
    LengthOfContent(encoder);
    ghost var images, order := job.usb.session.images, job.caps.value.lineOrder;
    ToneKeepsTotals(tone, job.accepted);
    assert encoder.pushed != [];
    var cancelled := job.host.Cancelled();
    if cancelled {
      return CancelledTransfer;
    }
    var _, fileBytes := encoder.Progress();
    FileIsTheWireImage(tone, encoder.pixelsPerMetre, job.accepted, images, encoder.mode, order);
    var finished := encoder.Finish(summary);
    if finished.Err? {
      return Errored(finished.error);
    }
    CommitKeepsLength(encoder.pushed, encoder.mode, encoder.pixelsPerMetre);
    NextMessage(callback.messages, 100, fileBytes);
    var reply := callback.Status(100, fileBytes);
    assert callback.messages[|callback.messages| - 1].0 == 100;
    WholeReport(job.request.value, encoder.pushed, callback.messages, encoder.stream.content, expectedRows);
    match reply
    case Unwinds => outcome := Outcome.Unwound;
    case Threw(error) => outcome := Errored(error);
    case Returned(cancel) => outcome := if cancel then CancelledTransfer else Completed(summary);
  }

  /** One callback transfer over a pipe at a command boundary. `health` is the scanner's state; after
      unwinding nobody reads it and the session's owner must not use the pipe again. */
  method TransferInSession(usb: Transport, host: Host, callback: Callback, request: ScanRequest, tone: Tone,
      expectedRows: nat)
    returns (outcome: Outcome, health: Health, stream: Stream?, ghost stop: Stop)
    requires usb.Valid() && usb.session.legal && usb.session.link.Boundary? && usb.session.owner.Free?
    requires callback.messages == [] && callback.offered.None? && callback.said == Returned(false)
    modifies usb, host, callback
    ensures usb.Valid() && usb.session.legal
    ensures health.Ready? ==> usb.session.link.Boundary? && usb.session.owner.Free?
    ensures health.NeedsReconnect? ==> outcome.Errored?
    ensures outcome.SkippedTransfer? ==> usb.log == old(usb.log) && callback.offered == Some(Returned(Skipped))
    // Cancellation is never made up: the host, the application or the stream request asked for it.
    ensures outcome.CancelledTransfer? ==>
              true in host.observed || callback.said == Returned(true) || callback.offered == Some(Returned(Declined))
    // Nor is it lost: the application's becomes the outcome once the scanner is safe.
    ensures callback.said == Returned(true) && health.Ready? ==> outcome.CancelledTransfer?
    ensures callback.offered == Some(Returned(Declined)) ==> outcome.CancelledTransfer?
    ensures outcome == Errored(CANCELLED) && health.Ready? ==>
              || callback.said.Threw? || (callback.offered.Some? && callback.offered.value.Threw?)
              || (stream != null && stream.broken)
    ensures outcome.Unwound? ==> callback.said.Unwinds? || callback.offered == Some(Unwinds)
    // Nothing else goes wrong: an error has a reason that can be named.
    ensures stop.from == |old(usb.log)| && stop.deadline >= old(host.now) + 120_000
    ensures outcome.Errored? ==>
              || expectedRows == 0 || DpiToPpm(request.dpi).Err?
              || Excusable(usb, host, callback, stream, request, health, stop)
    ensures Progressive(callback.messages)
    ensures callback.messages != [] ==> callback.messages[0] == (0, 0)
    // Whatever was sent is this request's window, and a job the device could be told about stops before
    // RESERVE for nothing but the host or the clock.
    ensures usb.log != old(usb.log) ==> usb.session.window in {None, Some(request)}
    ensures StoppedBeforeReserve(old(usb.log), usb) && Command(request, usb.session.caps.value).Ok? ==>
              outcome.CancelledTransfer? || outcome == Errored(EXPIRED)
    // However the transfer ends, a file with its signature is complete and the scanner released.
    ensures stream != null && stream.signedAt.Some? ==>
              health.Ready? && Delivered(usb.session, stream.content, request, tone)
    // Completion is announced only once the scanner is released and the file committed.
    ensures !NotYetComplete(callback.messages) ==>
              && health.Ready? && stream != null && Delivered(usb.session, stream.content, request, tone)
              && expectedRows > 0 && ReportedWhole(callback.messages, stream.content, request, expectedRows)
    ensures outcome.Completed? ==>
              && health.Ready? && stream != null && Delivered(usb.session, stream.content, request, tone)
              && expectedRows > 0 && ReportedWhole(callback.messages, stream.content, request, expectedRows)
  {
    hide MayFollow, Observe, Delivered, InStep, Command, BmpEncoder.Valid, AllAdmissible, DpiToPpm, TonedBands,
      ParseCapabilities, Percent, Blamed, ReportedWhole;
    health, stream := Ready, null;
    stop := Stop(|usb.log|, |usb.log|, host.now + 120_000, CANCELLED);
    if expectedRows == 0 {
      return Errored(Fail(InvalidInput, "Expected image height is zero")), health, stream, stop;
    }
    var cancelled := host.Cancelled();
    if cancelled {
      return CancelledTransfer, health, stream, stop;
    }
    var next, output := callback.GetStream();
    match next {
      case Unwinds => return Outcome.Unwound, health, stream, stop;
      case Threw(error) => return Errored(error), health, stream, stop;
      case Returned(Declined) => return CancelledTransfer, health, stream, stop;
      case Returned(Skipped) => return SkippedTransfer, health, stream, stop;
      case Returned(Provided) =>
    }
    stream := output;
    var reply := callback.Status(0, 0);
    match reply {
      case Unwinds => return Outcome.Unwound, health, stream, stop;
      case Threw(error) => return Errored(error), health, stream, stop;
      case Returned(cancel) =>
        cancelled := host.Cancelled();
        if cancel || cancelled {
          return CancelledTransfer, health, stream, stop;
        }
    }
    var created := NewEncoder(output, request.dpi, request.mode);
    if created.Err? {
      return Errored(created.error), health, stream, stop;
    }
    outcome, health, stop := RunTransfer(usb, host, callback, request, tone, expectedRows, created.value);
  }

  /** Scan, then publish or classify the failure. */
  method RunTransfer(usb: Transport, host: Host, callback: Callback, request: ScanRequest, tone: Tone,
                     expectedRows: nat, encoder: BmpEncoder)
    returns (outcome: Outcome, health: Health, ghost stop: Stop)
    requires usb.Valid() && usb.session.legal && usb.session.link.Boundary? && usb.session.owner.Free?
    requires callback.messages == [(0, 0)] && callback.said == Returned(false) && expectedRows > 0
    requires encoder.Valid() && encoder.poisoned.None? && encoder.pushed == [] && encoder.mode == request.mode
    requires DpiToPpm(request.dpi) == Ok(encoder.pixelsPerMetre)
    modifies usb, host, callback`messages, callback`said, encoder, encoder.stream
    ensures usb.Valid() && usb.session.legal
    ensures health.Ready? ==> usb.session.link.Boundary? && usb.session.owner.Free?
    ensures health.NeedsReconnect? ==> outcome.Errored?
    ensures !outcome.SkippedTransfer? && Progressive(callback.messages) && callback.messages != []
    ensures callback.messages[0] == (0, 0)
    ensures outcome.CancelledTransfer? ==> true in host.observed || callback.said == Returned(true)
    ensures callback.said == Returned(true) && health.Ready? ==> outcome.CancelledTransfer?
    ensures outcome == Errored(CANCELLED) && health.Ready? ==> callback.said.Threw? || encoder.stream.broken
    ensures outcome.Unwound? ==> callback.said.Unwinds?
    ensures stop.from == |old(usb.log)| && stop.deadline >= old(host.now) + 120_000
    ensures outcome.Errored? ==> Faulted(usb, host, callback, encoder.stream, request, health, stop)
    ensures usb.log != old(usb.log) ==> usb.session.window in {None, Some(request)}
    ensures StoppedBeforeReserve(old(usb.log), usb) && Command(request, usb.session.caps.value).Ok? ==>
              outcome.CancelledTransfer? || outcome == Errored(EXPIRED)
    ensures encoder.stream.signedAt.Some? ==>
              health.Ready? && Delivered(usb.session, encoder.stream.content, request, tone)
    // A failed output is what an error reports, with its original kind and text.
    ensures encoder.poisoned.Some? ==> outcome.Errored? && Reworded(outcome.error) == encoder.poisoned.value
    ensures !NotYetComplete(callback.messages) || outcome.Completed? ==>
              && health.Ready? && Delivered(usb.session, encoder.stream.content, request, tone)
              && ReportedWhole(callback.messages, encoder.stream.content, request, expectedRows)
  {
    hide MayFollow, Observe, Delivered, AllAdmissible, DpiToPpm, ParseCapabilities, Percent, Summarize,
      BmpEncoder.Valid, Complete, Command, Blamed, Announced, Published, ReportedWhole, Progressive;
    var job := new Job(usb, host, DEFAULT_TUNING);
    NothingAnnounced(request.mode, expectedRows);
    assert InStep([], callback, encoder, tone, expectedRows);
    var summary: IoResult<ScanSummary>;
    var sink: Sink;
    summary, health, sink, stop := ScanInSession(job, request, callback, encoder, tone, expectedRows);
    AnnouncedIsProgressive(encoder.mode, encoder.pushed, expectedRows);
    if summary.Err? {
      UnfinishedIsUncommitted(encoder);
      return Verdict(health, sink, summary.error), health, stop;
    }
    // A successful scan never hides a failed consumer: `sink` is still open here.
    outcome := Publish(job, callback, encoder, tone, expectedRows, summary.value);
  }

  lemma NothingAnnounced(mode: ColorMode, expectedRows: nat)
    requires expectedRows > 0
    ensures Announced(mode, [], expectedRows) == [(0, 0)]
  {
  }
}

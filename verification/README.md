# A verified model of the scanner driver

This project models the parts of the user-mode WorkCentre 3119 scanner driver that can go wrong
silently: the scan job over a USB pipe that may misbehave at any call, the ownership protocols above it,
the streaming BMP output, and the arithmetic of the WIA settings. `dafny verify dfyconfig.toml` checks
all of it.

## How the pieces fit

**The pipe and the monitor** (`Wire`, `Device`, `BandCodec`, `Pipes`, `Usb`). `Usb.Transport` is an
adversarial bulk pipe: a write may fail, a read may fail, fall short, return nothing, claim more than
the buffer holds or carry any bytes. It keeps a ghost log. `Usb.Observe` replays a log and says what an
outsider knows: whether the stream is at a command boundary, who owns the scanner, and, in `MayFollow`,
which command the protocol permits next. A log is legal when every command in it was permitted.
Everything said about traffic is said about that log. `Device` is the scanner's own side of the wire:
where each value stands in its replies, so that the driver's parsers are held to a layout and not to
themselves.

**The job** (`ScanJob`). The one long function of `src/scan.rs` becomes a class with the same local
state; it is cut where the source calls the image consumer, so that an arbitrary consumer
(`ScanJob.Run`) or the real encoder (`Transfer`) can stand there. Cancellation and the clock are
nondeterministic; a panic is one more outcome of preparation and of the consumer. A job may fail only
for a cause that can be named from its traffic and its host (`ScanJob.Excused`, `ScanJob.Blamed`): `Run`
returns where it stopped, and every layer above carries that cause to the application's outcome.

**The file** (`Bmp`, `Encoder`, `Tone`, `Transfer`). `Bmp.ReadBmp` is a strict reader that shares no
layout with the writer (literal offsets, colour as blue, green, red, grey through the palette);
`Encoder.Stream` is any short-writing, failing, seekable stream. `Transfer` puts job, tone table,
encoder and application callback together, with the exact progress of every band. Its theorem is end to
end: a completed transfer's file reads back as exactly the tone map of the samples on the wire, and
however a transfer ends, a file that carries the BMP signature is that file.

**Ownership** (`SessionSlot`, `DriverObject`, `Lending`, `Lifecycle`, `Cancel`, `ModuleCounts`).
Protocols that several threads or re-entrant calls drive are modelled as interleavings of their atomic
sections, with an inductive invariant and theorems over every run; the classes beside them execute those
sections in the source's order, and any number of other calls may run whenever foreign code does.
`Lending` is the interleaved model of the minidriver's connection and `Lifecycle.Interface` its entry
points. `DriverObject.Serve` closes the loop with the job: over any sequence of calls on one object, the
slot is locked only while the pipe is at rest; a job that loses the scanner or panics, or a failed
presence check, quarantines it; and then not one more byte is written. It carries out the slot's
sections itself, because there the resource is the pipe.

**Settings** (`Settings`, `Geometry`, `Catalog`, `Resolver`, `Delta`, `Validation`). The catalog accepts
settings exactly when the device's SET_WINDOW construction would accept the request they make and the
file size is representable; accepted settings are a fixed point of the resolver, and a rectangle nobody
wrote keeps its physical place when the resolution changes; the planned delta turns the service's state
into the resolved one and touches dependent properties only. `Validation.Live` closes this loop: over
any rounds of writes by an application, the settings a transfer reads back from the item are accepted
ones, and the command they make decodes to them. The gcd-derived step is proved from Euclid's loop and
Bezout's identity.

## Where the code and its descriptions differ

- A cleanup may end after ABORT. If the ABORT is not answered in full the driver stops there, so the opcode
  trace is `12 (16+ (24 (31+ (28+ 29)* 28*)?)? (06 17? | 17)?)?`: RELEASE does not always follow ABORT.
  `Usb.AbortWithoutRelease` gives such a history; `ScanJob.Job.Finish` states exactly when RELEASE is withheld.
- SET_WINDOW answered Busy is accepted as success: the source tests that reply for an error only.
  `ScanJob.Job.Begin` keeps that.
- A panic while the item tree is built leaves the minidriver Busy for good; nothing rolls that state
  back. `Lifecycle.Interface.InitializeTree` states it.
- The doc comment above `resolve` in `validation.rs` sits on `data_type_for_intent`; the model follows the code
  of each.

## Conventions

Machine integers are subset types of `int` (`Byte`, `U32`, `I32`); wherever the source checks, saturates
or truncates, the model writes the test out. Errors keep their kind, their text before diagnostic
wrapping, and the driver's own host-cancellation mark. `hide` statements keep proofs small.

## Model

| member | source | states |
|---|---|---|
| `Wire.WindowRoundTrip` | src/scan.rs:84-135 | an accepted SET_WINDOW command decodes back to the same resolution, mode, offsets and size, and its rectangle lies on the bed |
| `Wire.OffsetRoundTrip` | src/scan.rs:123-131 | an aligned offset survives being sent as whole inches and hundredths |
| `Wire.RetryStates` | src/scan.rs:144-170 | the six CHECK states treated as Busy are exactly the ones the bit test selects |
| `Wire.ParsedBandIsValid` | src/scan.rs:176-203 | metadata that parses has a non-empty geometry, bounded rows and at most 16 surplus bytes |
| `Device.ParseBandExactly` | src/scan.rs:176-203 | a reply is taken for a band exactly when type, length, rows and width stand at their own bytes and the band is within the limits |
| `Device.MetadataRoundTrip` | src/scan.rs:176-203 | every valid band the device announces is understood as that band, the final flag included |
| `Device.StatusRoundTrip` | src/scan.rs:144-170 | Good, Busy, cancelled and every 16-bit CHECK state are read as the device meant them, at the place the state has in each kind of reply |
| `Device.TrimExactly` | src/protocol.rs:37-54 | trimming takes spaces off both ends and nothing else |
| `Device.ParseCapabilitiesExactly` | src/protocol.rs:22-76 | a product-info reply is taken for capabilities exactly when every field stands at its own bytes, and the identity is its text without the padding |
| `Device.ListedByItsBit` | src/protocol.rs:77-93 | each resolution is listed exactly when its own bit of the mask is set |
| `Device.OfferedByItsBits` | src/scan.rs:84-100 | a request is offered exactly when the bits of its mode, of its resolution and of uncompressed transfer are set and the channel order is known |
| `BandCodec.DecodeRow` | src/scan.rs:211-222 | the nested pixel and channel loops compute the interleaved row |
| `BandCodec.Decode` | src/scan.rs:205-226 | the row loop equals the reference decoding, including both error cases |
| `BandCodec.InterleavedAt` | src/scan.rs:205-226 | every decoded byte is the wire byte of the same row at the planar position |
| `BandCodec.RowReorderingIsInvertible` | src/scan.rs:205-226 | the planar-to-interleaved reordering of a row has a two-sided inverse |
| `BandCodec.RowReorderingIsAPermutation` | src/scan.rs:205-226 | a decoded row holds the same samples as the wire row, with multiplicity |
| `BandCodec.VerifyBand` | examples/scan_stability.rs:118-181 | the independent checker accepts exactly the bands its sample-by-sample specification describes |
| `BandCodec.PlanarSamplesDecide` | examples/scan_stability.rs:140-181 | for planar order the checker's addressing and the decoder's agree on every sample |
| `BandCodec.VerifiedExactlyWhenDecoded` | examples/scan_stability.rs:118-181 | the checker accepts exactly what the decoder returns, for any drained band |
| `Pipes.SelectBulkPipes` | src/usb.rs:630-667 | selection succeeds exactly when the endpoints are well formed, distinct and contain one bulk IN and one bulk OUT, and returns those two |
| `Pipes.JobReadsAreAdmitted` | src/usb.rs:702-712 | every read a job asks for passes the USB layer's buffer check, whichever bulk endpoint was selected |
| `Usb.Transport.Write` | src/scan.rs:502-505 | a write may fail; either way it is the next event on the pipe |
| `Usb.Transport.Read` | src/scan.rs:502-505 | a read may fail, fall short, be empty, claim too much or carry any bytes |
| `Usb.Transport.ReadLimit` | src/scan.rs:329-360 | the pipe may report any limit for one read, or fail to |
| `Usb.EveryCommandWasAllowed` | src/scan.rs:1060-1310 | in a legal history each command was permitted by all earlier traffic, at a command boundary |
| `Usb.SilentOnceUncertain` | src/scan.rs:1060-1310 | after a reply or band whose consumption is uncertain nothing is ever written again |
| `Usb.LegalIsSound` | src/scan.rs:1060-1310 | reservation ownership always matches the last command |
| `Usb.OpcodeGrammar` | src/scan.rs:1060-1310 | which opcode may follow which; ABORT and RELEASE only with a confirmed reservation, READ_IMAGE only after valid metadata, SET_WINDOW only as the capabilities allow |
| `Usb.AbortWithoutRelease` | src/scan.rs:819-858 | a concrete history in which ABORT is never followed by RELEASE, so the grammar cannot demand it |
| `Usb.Host.Sleep` | src/scan.rs:813-815 | each Busy wait moves the clock forward |
| `ScanJob.Checkpoint` | src/scan.rs:716-722 | it fails exactly on an observed cancellation or a clock at or past the deadline, and says which |
| `ScanJob.Capacity` | src/scan.rs:943-947 | each image read asks for a positive whole number of packets within the tuned buffer, no more than one packet beyond what is left |
| `ScanJob.KibibytesAreWholePackets` | src/scan.rs:314-325 | a multiple of 1024 is a multiple of every bulk packet size |
| `ScanJob.TotalsAgree` | src/scan.rs:1209-1220 | the bytes accepted so far equal the pixel bytes of the drained images |
| `ScanJob.SummaryGrows` | src/scan.rs:1270-1275 | one more band changes the summary by exactly that band |
| `ScanJob.HeightFits` | src/scan.rs:1221-1260 | the height overflow test cannot fail within the job limits |
| `ScanJob.StaysExcused` | src/scan.rs:1060-1310 | a named cause of failure stays one while time passes and cancellation is observed |
| `ScanJob.Job.Exchange` | src/scan.rs:724-765 | synchronised exactly when a whole reply frame of the right kind came back; nothing else is written |
| `ScanJob.Job.Poll` | src/scan.rs:786-817 | terminates; attempts are at least a poll interval apart; success is a Good reply; a failure is a lost or refused reply, cancellation or expiry; ownership is confirmed only by a Good RESERVE; an unattempted poll leaves the pipe untouched |
| `ScanJob.Job.Attempt` | src/scan.rs:767-784 | one exchange and its status; it fails only when the reply is lost or is a refusal |
| `ScanJob.Job.Identify` | src/scan.rs:1067-1100 | INQUIRY; success is a whole reply that parses, failure a lost or unreadable one or a host that stopped the job first |
| `ScanJob.Job.Reserve` | src/scan.rs:1123-1153 | RESERVE; it fails only by a lost or refused reply, cancellation or expiry, and never holds the scanner then |
| `ScanJob.Job.SendWindow` | src/scan.rs:1156-1170 | SET_WINDOW for the prepared request, which fails only by a lost or refused reply, cancellation or expiry |
| `ScanJob.Job.Open` | src/scan.rs:1067-1153 | an early end reports Ready exactly when nothing is reserved or owed; with a request the capabilities allow, only cancellation or expiry ends it between INQUIRY and RESERVE; otherwise the prepared request is reserved |
| `ScanJob.Job.Begin` | src/scan.rs:1156-1178 | success means START was answered Good for the window that was sent; a failure has a named cause |
| `ScanJob.Job.ReadChunk` | src/scan.rs:948-959 | an accepted chunk extends the owed image; anything else leaves the stream uncertain |
| `ScanJob.Job.NoticeFailure` | src/scan.rs:926-942 | the first failure is kept, nothing goes unnoticed, and the drain ends ten seconds after the first failure was noticed |
| `ScanJob.Job.DrainOnce` | src/scan.rs:926-988 | one read moves the drain forward or stops it; a second empty read, a failed read or the drain deadline leaves the stream uncertain |
| `ScanJob.Job.ReadImageBand` | src/scan.rs:890-1000 | at most length+1 reads; if it leaves the stream synchronised it consumed exactly length bytes, and the result is their concatenation whatever the chunks |
| `ScanJob.Job.AwaitBand` | src/scan.rs:1180-1220 | a valid band within the job limits is never refused: a failure is a lost or refused reply, an inadmissible band, cancellation or expiry |
| `ScanJob.Job.NextBand` | src/scan.rs:1180-1222 | a band is handed on only within the job limits, with a constant width, and equals the decode of the drained image; a failure has a named cause, so good bands are not refused; host cancellation never ends the wait for the first metadata, but a failed wait remembers it |
| `ScanJob.Job.FetchImage` | src/scan.rs:1221-1260 | the image is drained and decoded; an error never hands on pixels, and comes only from the pipe, a drain that stood still or ran out of time, cancellation or expiry |
| `ScanJob.Job.Settle` | src/scan.rs:1261-1283 | a band counts exactly when its consumer accepted it; a panic or error of the consumer leaves the stream synchronised; after acceptance only cancellation or expiry fails |
| `ScanJob.Job.CleanUp` | src/scan.rs:836-848 | one cleanup command; only a Good RELEASE frees the scanner |
| `ScanJob.Job.Finish` | src/scan.rs:819-858 | succeeds exactly on a clean exit; RELEASE is withheld exactly when the ABORT before it was not answered in full |
| `ScanJob.Job.Conclude` | src/scan.rs:1285-1309 | Ready exactly on a clean exit without a deferred cancellation; an Ok summary is the sum of the accepted bands; the original failure survives clean cleanup unchanged |
| `ScanJob.ConcludeFor` | src/scan.rs:1285-1309 | the verdict reports the failure that ended the job, and names its cause |
| `ScanJob.ReadAll` | src/scan.rs:1180-1283 | all bands up to the final one, or the first failure with its cause |
| `ScanJob.Run` | src/scan.rs:1060-1310 | for every pipe, host, preparation and consumer: legal traffic; Ok comes with Ready and a complete image; Ready only with RESERVE never written or a Good RELEASE last, directly after a Good ABORT when the job failed; a failed job has a named cause: a lost, refused or inadmissible reply, a drain that gave up, cancellation, expiry, the preparation, the consumer or the final release |
| `Bmp.EncodedRows` | src/bitmap.rs:260-279 | encoded rows fill exactly rows times stride |
| `Bmp.PaletteShowsGreys` | src/bitmap.rs:242-258 | looking a grey value up in the written palette gives that grey |
| `Bmp.SwappedPixel` | src/bitmap.rs:267-274 | a written colour pixel is blue, green, red at its three bytes |
| `Bmp.LineRoundTrip` | src/bitmap.rs:260-279 | an independent line reader, colour as blue, green, red and grey through the palette, gives one row back |
| `Bmp.RowsRoundTrip` | src/bitmap.rs:260-279 | the independent reader gets the samples of every row back from encoded rows |
| `Bmp.Fields` | src/bitmap.rs:215-258 | where every header field, the palette and the rows sit in the file |
| `Bmp.HeadReadsBack` | src/bitmap.rs:215-258 | the header and palette read back, field by field from literal offsets, as written |
| `Bmp.FinishedReadsBack` | src/bitmap.rs:344-382 | a strict reader that shares nothing with the writer gets exactly the image back from a committed file |
| `Bmp.ColourSampleInFile` | src/bitmap.rs:260-279 | which byte of a committed colour file holds which channel of which pixel |
| `Bmp.GreySampleInFile` | src/bitmap.rs:242-279 | which byte of a committed grey file holds which pixel, and what the palette makes of it |
| `Encoder.WriteBounded` | src/bitmap.rs:32-51 | for any short-writing stream: success writes all the bytes in place; a failure leaves some leading part of them; the signature appears only with the whole write |
| `Encoder.OnlyWholeSigns` | src/bitmap.rs:32-51 | of all the parts a failed write may leave, only the whole one can make the contents look committed |
| `Encoder.DpiToPpm` | src/bitmap.rs:19-30 | the nearest whole number of pixels per metre; it succeeds exactly when that is positive dots and fits i32 |
| `Encoder.Geometry` | src/bitmap.rs:60-100 | an accepted band has the mode, a bounded row and exactly rows times row bytes of pixels |
| `Encoder.AdmissibleShape` | src/bitmap.rs:102-136 | accepted bands have one width, bounded totals and pixels for every row |
| `Encoder.SizesNeverOverflow` | src/bitmap.rs:361-374 | the pixel array stays within 1 GiB, so the size conversions of finish cannot fail |
| `Encoder.PatchedFile` | src/bitmap.rs:375-381 | each in-place write changes one header field and nothing else |
| `Encoder.BlankIsUnsigned` | src/bitmap.rs:380-381 | no part of the file but the whole last write makes it look committed |
| `Transfer.CommitKeepsLength` | src/bitmap.rs:344-382 | committing changes header fields only: the file is as long as the rows already written |
| `Encoder.SwapRow` | src/bitmap.rs:263-272 | the conversion loop computes the row the file must hold, blue first (`Bmp.SwappedPixel`) |
| `Encoder.NewEncoder` | src/bitmap.rs:180-208 | only an empty stream and a resolution with a pixels-per-metre value are accepted, and nothing is written |
| `Encoder.BmpEncoder.WriteInitialHeader` | src/bitmap.rs:215-258 | the stream holds the uncommitted header and palette |
| `Encoder.BmpEncoder.WriteRow` | src/bitmap.rs:264-277 | one row appends its converted samples and padding |
| `Encoder.BmpEncoder.WriteBand` | src/bitmap.rs:260-279 | a band appends its rows in order |
| `Encoder.BmpEncoder.Emit` | src/bitmap.rs:305-314 | the header goes out with the first band only |
| `Encoder.BmpEncoder.Push` | src/bitmap.rs:282-319 | after success the stream is header and padded rows of all bands; after the first error the writer is never touched and the same kind and text come back; whatever the writer does, the stream stays unsigned |
| `Encoder.BmpEncoder.Progress` | src/bitmap.rs:329-336 | the reported bytes are the length of the stream |
| `Encoder.BmpEncoder.WriteAt` | src/bitmap.rs:321-324 | an in-place write replaces exactly those bytes; failed or not, the file stays unsigned |
| `Encoder.BmpEncoder.Finish` | src/bitmap.rs:344-382 | rejects a poisoned, empty or mismatched image without touching the writer; a matching one is committed or the writer failed; the signature is the last write, and if it is there after a failure the file is whole |
| `Encoder.BmpEncoder.Seal` | src/bitmap.rs:361-382 | sizes of delivered bands always convert; only the writer can fail |
| `Encoder.BmpEncoder.Commit` | src/bitmap.rs:375-382 | the four writes turn the uncommitted file into the committed one; a file that ends up signed is that one |
| `Tone.Lut` | src/wia.rs:81-96 | no table exactly for neutral settings, otherwise the formula at every input |
| `Tone.Adjust` | src/wia.rs:99-112 | the table lookup equals the formula on every sample |
| `Tone.ThroughTone` | src/wia.rs:254-262 | what reaches the encoder is always the tone-mapped band |
| `Tone.NeutralChangesNothing` | src/wia.rs:81-84 | the neutral shortcut equals applying the formula |
| `Tone.ToneIsMonotone` | src/wia.rs:52-58 | tone order is preserved |
| `Tone.BrightnessShifts` | src/wia.rs:81-96 | brightness alone adds 255/1000 of itself, to the nearest, to every sample |
| `Tone.ContrastTurnsOnMidGrey` | src/wia.rs:81-96 | contrast alone keeps 128 and scales every distance from it by (1000+contrast)/1000, to the nearest |
| `Tone.ToneIsNearest` | src/wia.rs:81-96 | both together: rounded once, to the nearest, then clamped |
| `Tone.BrighterIsLighter` | src/wia.rs:52-58 | more brightness never darkens a sample |
| `Tone.ToneKeepsTotals` | src/wia.rs:99-112 | tone mapping never changes the summary |
| `Transfer.JobBandsAreAdmissible` | src/bitmap.rs:282-304 | no band of one job can trip a geometry or limit check of an encoder of the same mode |
| `Transfer.ToneKeepsAdmissible` | src/wia.rs:254-262 | tone mapping never changes what the encoder accepts |
| `Transfer.FileIsTheWireImage` | src/wia_transfer.rs:167-178 | the committed file of a complete job reads back as exactly the tone map of the decoded wire samples |
| `Transfer.Percent` | src/wia_transfer.rs:121-123 | at most 99 before completion |
| `Transfer.PercentExactly` | src/wia_transfer.rs:121-123 | whole percents of the expected rows, rounded down, capped at 99 |
| `Transfer.PercentGrows` | src/wia_transfer.rs:121-123 | the percentage never falls as rows arrive |
| `Transfer.AnnouncedIsProgressive` | src/wia_transfer.rs:117-139 | the messages of any bands, one each with its rows and the length of the file by then, never fall back |
| `Transfer.Deliver` | src/wia_transfer.rs:117-139 | one band pushed, one status message with exactly the rows and the file length by then; the encoder can only fail because its writer did; an error is both returned and remembered |
| `Transfer.ConsumeBand` | src/wia_transfer.rs:117-139 | encoder and job stay in step band by band |
| `Transfer.ReadBands` | src/wia_transfer.rs:117-139 | all bands of the job reach the encoder in order, or the job fails for a named cause |
| `Transfer.ScanReserved` | src/scan.rs:1156-1309 | from a reserved scanner to a released one, with the encoder as consumer; a failure has a named cause |
| `Transfer.ScanInSession` | src/scan.rs:552-580 | an Ok scan has a complete image in the encoder and a released scanner; any window sent is the one of the request; an allowed request is stopped before RESERVE only by cancellation or expiry; any other failure has a named cause |
| `Transfer.Verdict` | src/wia_transfer.rs:141-162 | cancellation is reported only after confirmed cleanup, and then always; the original output failure is what an error reports |
| `Transfer.Publish` | src/wia_transfer.rs:163-178 | the file is committed before completion is announced, and the announced size is its length; only the writer or the callback can fail here; a signed file is the complete image |
| `Transfer.RunTransfer` | src/wia_transfer.rs:114-178 | scan, verdict and publication together; a failed encoder is what the error reports; every error has a named cause |
| `Transfer.TransferInSession` | src/wia_transfer.rs:82-181 | every band is reported once with exact progress, never falling; 100 is sent once, after cleanup and commit; Completed means Ready and a file that reads back as the tone-mapped wire image; however the transfer ends, a file with its signature is complete; unconfirmed cleanup is an error; cancellation is neither made up nor lost; every error has a named cause |
| `SessionSlot.HoldsNext` | src/com_server/session.rs:59-175 | who owns which resource after any atomic section |
| `SessionSlot.InvNext` | src/com_server/session.rs:59-175 | every atomic section of every call keeps the ownership invariant |
| `SessionSlot.OneAliveEachDroppedOnce` | src/com_server/session.rs:59-175 | in every interleaving at most one resource is alive and each is destroyed exactly once |
| `SessionSlot.OneResponsibleCall` | src/com_server/session.rs:59-175 | Opening, Closing and InUse always have exactly one responsible call; an unlocked slot leaves nothing alive |
| `SessionSlot.ReopenedOnlyAfterDrop` | src/com_server/session.rs:84-109 | nothing is acquired before every earlier resource was destroyed |
| `SessionSlot.QuarantineIsForever` | src/com_server/session.rs:159-175 | Quarantined is absorbing |
| `SessionSlot.OthersAreShutOut` | src/com_server/session.rs:111-143 | while a call is between its sections no other or re-entrant call changes anything |
| `SessionSlot.Slot.Open` | src/com_server/session.rs:59-82 | the result and the new state for every starting state, failure and panic |
| `SessionSlot.Slot.Unlock` | src/com_server/session.rs:84-109 | the resource is destroyed before the slot opens; a panicking destructor quarantines |
| `SessionSlot.Slot.WithSession` | src/com_server/session.rs:111-143 | only a returning operation that vouches for the resource gives it back |
| `DriverObject.StaysTrustworthy` | src/com_server/sti.rs:339-407 | the promise over an object's life, with how each operation ended, is kept by one more operation |
| `DriverObject.Driver.Initialize` | src/com_server/sti.rs:555-630 | initialises exactly once, when the helper is accepted; a failed open is not an error |
| `DriverObject.Driver.OpenSlot` | src/com_server/session.rs:59-82 | opens only from Unlocked, with a new pipe at a command boundary |
| `DriverObject.Driver.LockDevice` | src/com_server/sti.rs:938-973 | exactly when it succeeds; a held pipe is kept |
| `DriverObject.Driver.UnLockDevice` | src/com_server/sti.rs:980-1015 | clears the flag exactly when the slot is locked, and never closes the pipe |
| `DriverObject.Driver.Return` | src/com_server/sti.rs:362-407 | the pipe goes back only when its user vouched for it |
| `DriverObject.Driver.LiveCapabilities` | src/com_server/sti.rs:330-360 | a presence check keeps the pipe exactly when it succeeds, and fails only if the scanner gave no readable answer |
| `DriverObject.Driver.TransferBmp` | src/com_server/sti.rs:300-328 | the pipe is given up exactly when the job lost the scanner or panicked; a completed transfer delivered the image of the requested settings and tone; losing the pipe is always reported; an error, a cancellation and a skip each have a named cause |
| `DriverObject.TransferSettings` | src/wia_transfer.rs:82-181 | settings the catalog of the reported capabilities accepts are never stopped between INQUIRY and RESERVE but by the host or the clock, any window sent is theirs, and every error has a named cause |
| `DriverObject.Driver.Drop` | src/com_server/sti.rs:416-428 | a pipe is closed only at rest |
| `DriverObject.Presence` | src/com_server/sti.rs:769-797 | success leaves the pipe at a command boundary; failure means no readable answer came |
| `DriverObject.Serve` | src/com_server/sti.rs:339-407 | over every sequence of operations: legal traffic; the slot is locked only with the pipe at rest and the scanner free; a job that ends NeedsReconnect or panics, or a failed presence check, bars the object; a barred object never writes another byte |
| `Settings.PixelsConvertExactly` | src/wia.rs:123-139 | at a supported resolution only sign and field width can fail, and the value is exact |
| `Settings.RequestExactly` | src/wia.rs:180-225 | exactly which settings become a request, and which request |
| `Geometry.ComputeOffsetStep` | src/com_server/minidrv/properties/catalog.rs:903-912 | Euclid's loop computes dpi divided by the greatest common divisor |
| `Geometry.GcdDivides` | src/com_server/minidrv/properties/catalog.rs:903-912 | the computed divisor divides both numbers |
| `Geometry.Bezout` | src/com_server/minidrv/properties/catalog.rs:903-912 | the computed divisor is a combination of both numbers, hence the greatest |
| `Geometry.StepIsLeastHundredth` | src/com_server/minidrv/properties/catalog.rs:903-912 | the step is the least positive pixel count that is a whole number of 1/100 inch, and those counts are its multiples |
| `Geometry.AlignedExactly` | src/wia.rs:141-151 | a position is a multiple of 12 protocol units exactly when it is a multiple of the step |
| `Geometry.BedAlwaysConverts` | src/com_server/minidrv/properties/catalog.rs:886-890 | no u32 bed overflows i32 pixels at a supported resolution |
| `Geometry.FitsInUnits` | src/com_server/minidrv/properties/catalog.rs:671-679 | a pixel rectangle fits the bed exactly when its unit rectangle does |
| `Geometry.SizeOfTheFile` | src/com_server/minidrv/properties/catalog.rs:914-926 | the catalog's size is the length of the committed BMP of that geometry |
| `Geometry.SmallerFits` | src/com_server/minidrv/properties/catalog.rs:914-926 | a smaller rectangle never needs a larger file |
| `Catalog.Supported` | src/com_server/minidrv/properties/catalog.rs:266-274 | keeps exactly the supported ones of the reported resolutions |
| `Catalog.FlatbedShape` | src/com_server/minidrv/properties/catalog.rs:257-655 | what the initial catalog takes from the capabilities |
| `Catalog.FlatbedExactly` | src/com_server/minidrv/properties/catalog.rs:257-312 | exactly which devices get an item |
| `Catalog.SizesAreThousandths` | src/com_server/minidrv/properties/catalog.rs:886-902 | the published bed is its size in whole thousandths of an inch, the published minimum one pixel rounded up |
| `Catalog.AcceptedExactly` | src/com_server/minidrv/properties/catalog.rs:662-681 | with_settings succeeds exactly when the request, the bed, the lists and the file size allow it |
| `Catalog.CommandExactly` | src/scan.rs:84-121 | which aligned requests the command construction accepts |
| `Catalog.AcceptedExactlyWhenCommandable` | src/com_server/minidrv/properties/catalog.rs:662-681 | a device's catalog accepts settings exactly when they make a request this device's command accepts and the file size fits |
| `Catalog.AcceptedSettingsReachTheWindow` | src/com_server/minidrv/properties/catalog.rs:662-681 | accepted settings become a window command that decodes back to them |
| `Catalog.RangesAreExact` | src/com_server/minidrv/properties/catalog.rs:690-761 | a value lies in a published range exactly when moving only that start or extent there is accepted |
| `Catalog.ReportedAscend` | src/protocol.rs:77-93 | reported resolutions ascend |
| `Catalog.EveryListedBedHasAPixel` | src/com_server/minidrv/properties/catalog.rs:309-312 | the check at the lowest resolution covers every listed one |
| `Catalog.InitialCatalogIsItsOwnSelection` | src/com_server/minidrv/properties/catalog.rs:257-655 | a new item shows exactly what selecting its own defaults would show |
| `Resolver.Quantized` | src/com_server/minidrv/properties/validation.rs:335-351 | rounding goes to a nearest aligned position and keeps aligned ones |
| `Resolver.Floored` | src/com_server/minidrv/properties/validation.rs:353-355 | the floor is the largest aligned position not above |
| `Resolver.NearestNeverOverflows` | src/com_server/minidrv/properties/validation.rs:335-351 | rounding a position inside any bed never overflows |
| `Resolver.ScalingKeepsLength` | src/com_server/minidrv/properties/validation.rs:316-328 | a scaled length is the same physical length, to half a pixel of the new resolution |
| `Resolver.ScaledBound` | src/com_server/minidrv/properties/validation.rs:316-328 | rescaling inside a 256-inch bed never overflows |
| `Resolver.ResolveAxis` | src/com_server/minidrv/properties/validation.rs:209-306 | the step-by-step axis repair equals its specification |
| `Resolver.AxisPromises` | src/com_server/minidrv/properties/validation.rs:209-306 | the resolved axis fits the bed, keeps an explicit extent, and moves an explicit start by less than one aligned step |
| `Resolver.AxisAcceptedExactly` | src/com_server/minidrv/properties/validation.rs:233-297 | for every combination of written values, exactly which axes are accepted |
| `Resolver.AxisFixedPoint` | src/com_server/minidrv/properties/validation.rs:209-306 | values that fit are left alone whichever were written |
| `Resolver.AxisFollows` | src/com_server/minidrv/properties/validation.rs:209-306 | where every accepted axis goes: a written extent stays, a written start goes to the nearest step or the last that fits, and an unwritten value keeps its physical place but for one pixel, the step and the bed edge |
| `Resolver.UnwrittenAxisFollows` | src/com_server/minidrv/properties/validation.rs:216-236 | an axis nobody wrote always resolves, to an aligned start, when the resolution changes |
| `Resolver.ModeExactly` | src/com_server/minidrv/properties/validation.rs:136-171 | which data types and depths are accepted and what they become |
| `Resolver.ResolveModeAndDepth` | src/com_server/minidrv/properties/validation.rs:136-171 | data type and depth are reconciled as specified |
| `Resolver.Resolve` | src/com_server/minidrv/properties/validation.rs:68-130 | the whole resolution equals its specification |
| `Resolver.ExplicitValuesAreKept` | src/com_server/minidrv/properties/validation.rs:68-130 | every explicit resolution, data type, depth and extent survives exactly, an explicit position within one step, and the result is accepted by the catalog |
| `Resolver.ResolutionFollows` | src/com_server/minidrv/properties/validation.rs:68-130 | everything the resolver decides: one resolution and whose, a matching mode, and where both axes go |
| `Resolver.AcceptedAxes` | src/com_server/minidrv/properties/catalog.rs:662-681 | accepted settings lie on the step and inside the bed |
| `Resolver.AcceptedSettingsAreFixed` | src/com_server/minidrv/properties/validation.rs:68-130 | accepted settings are a fixed point for every written set |
| `Resolver.ResolutionWriteResolves` | src/com_server/minidrv/properties/validation.rs:173-193 | a write of one listed resolution alone always resolves, on beds under 256 inches whose full-bed file size fits, and the rectangle keeps its physical place and size to the new pixel and step |
| `Resolver.IntentBits` | src/com_server/minidrv/properties/validation.rs:22-35 | the accepted intent values are exactly the ones the bit mask allows |
| `Resolver.IntentChooses` | src/com_server/minidrv/properties/validation.rs:22-35 | which intent asks for colour, which for grey, which for nothing, and which are rejected |
| `Resolver.PrepareCatalogs` | src/com_server/minidrv/properties/validation.rs:46-66 | intent, resolution and both catalogs, and what counts as written |
| `Delta.Changed` | src/com_server/minidrv/properties/native.rs:232-245 | exactly the listed ids whose entries differ |
| `Delta.PlanExactly` | src/com_server/minidrv/properties/native.rs:219-280 | the planner succeeds exactly when the catalogs list the same ids and every difference is dependent and can be stored |
| `Delta.SelectionIsStorable` | src/com_server/minidrv/properties/native.rs:505-590 | what a selection writes is numbers and non-empty lists |
| `Delta.PreparedPairIsPublishable` | src/com_server/minidrv/properties/native.rs:219-280 | the planner never rejects a pair the resolver prepared, even when no string can be allocated |
| `Delta.PlanIsExactDifference` | src/com_server/minidrv/properties/native.rs:219-280 | a plan names exactly the differing properties, all dependent, and applying it to one catalog gives the other |
| `Delta.AlignedSelection` | src/com_server/minidrv/properties/catalog.rs:662-761 | a selection changes dependent properties only |
| `Delta.AlignedOverlay` | src/com_server/minidrv/properties/catalog.rs:768-786 | the overlay of service values changes dependent values only |
| `Delta.FlatbedIsAligned` | src/com_server/minidrv/properties/catalog.rs:257-655 | a device's catalog has a value and an attribute for every listed id, and short lists |
| `Delta.Update` | src/com_server/minidrv/properties/native.rs:282-317 | asks the service for exactly the difference, in order, up to its first refusal; fails only for a refusal or the service's own validation; success leaves every dependent property as in the new catalog; on any outcome nothing else changed |
| `Delta.Publish` | src/com_server/minidrv/properties/native.rs:292-309 | values in one call unless there are none, then each description; the first refusal ends it |
| `Delta.PublishAttributes` | src/com_server/minidrv/properties/native.rs:300-309 | the early-exit loop publishes every named description or stops at the first refusal |
| `Validation.EarlierIsPrevious` | src/com_server/minidrv/properties/validation_entry.rs:159-225 | old values read only for written properties make up the settings before the writes |
| `Validation.SelectionReadsBack` | src/com_server/minidrv/properties.rs:190-229 | what a selection publishes reads back, by the WIA property numbers, as the settings selected, exactly if the other four agree |
| `Validation.AdvertisedPicture` | src/com_server/minidrv/properties/catalog.rs:662-761 | pixels, lines, channels and size of an item are those of the file its settings make |
| `Validation.WrittenItemIsBaseline` | src/com_server/minidrv/properties/validation_entry.rs:88-103 | after any writes the item shows the catalog the difference is taken from |
| `Validation.Validate` | src/com_server/minidrv/properties/validation_entry.rs:53-119 | publishes exactly when the properties check, the settings read and an answer follows from them; success leaves the item showing exactly that answer; once publishing began only the service can fail it; otherwise nothing changed |
| `Validation.NewItemIsInSync` | src/com_server/minidrv/properties.rs:62-137 | a new item shows its own default settings |
| `Validation.Live` | src/com_server/minidrv/properties/validation_entry.rs:37-119 | over any rounds of writes and validations: the settings a transfer reads are accepted by the catalog, make a command this device takes, and that command decodes back to them; a round ends the item only for a named cause |
| `Lending.InvNext` | src/com_server/minidrv/locking.rs:25-257 | the invariant is kept by every atomic section of every call |
| `Lending.HoldsNext` | src/com_server/minidrv.rs:128-179 | each helper reference has one holder at a time; only retaining makes one and only releasing ends one |
| `Lending.CallsOutWhileBusy` | src/com_server/minidrv/locking.rs:63-87 | over every run: whatever leaves the driver leaves it while Busy, and a lock or unlock goes to a helper still held |
| `Lending.PublishFollowsQueryAndUnlock` | src/com_server/minidrv/locking.rs:159-180 | over every run: nothing is published but directly after a lock, a query and an unlock of the same call that all succeeded |
| `Lending.OneUnlockPerLock` | src/com_server/minidrv/locking.rs:115-180 | over every run: a successful lock of a query is followed by the query and exactly one unlock of the same helper, and each such unlock has its lock |
| `Lending.ClientsAreConnectsMinusDisconnects` | src/com_server/minidrv.rs:101-186 | over every run: the clients of the present tree are its connects minus its disconnects |
| `Lending.HelperReleasedOnce` | src/com_server/minidrv.rs:128-179 | over every run: a retained helper is released at most once, and exactly once when nobody holds it any more |
| `Lending.OneBorrower` | src/com_server/minidrv/locking.rs:34-99 | over every run: at most one call has the connection, and the state is Busy exactly while one does |
| `Lending.OthersAreShutOut` | src/com_server/minidrv/locking.rs:34-48 | while a call is inside, no other call, on another thread or re-entered, changes anything or calls out |
| `Lending.FailedIsForever` | src/com_server/minidrv/locking.rs:52-61 | a failed object, or one left Busy by a panic, never changes or calls out again |
| `Lifecycle.Interface.Foreign` | src/com_server/minidrv/locking.rs:63-87 | a call that leaves the driver happens while Busy and is all that the trace gains, whatever other calls, concurrent or re-entrant, run meanwhile |
| `Lifecycle.Interface.Close` | src/com_server/minidrv.rs:172-179 | the tree is unlinked first, then the helper released once |
| `Lifecycle.Interface.InitializeTree` | src/com_server/minidrv.rs:101-151 | a second client joins exactly with the same device and name and below the limit; the tree and helper are built while Busy, and the first client joins exactly if the tree was made; each refusal has its code and leaves the driver untouched |
| `Lifecycle.Interface.DisconnectClient` | src/com_server/minidrv.rs:153-186 | clients count down; the last one closes the tree and lets go of the helper; a refused call changes nothing |
| `Lifecycle.Interface.Take` | src/com_server/minidrv/locking.rs:34-48 | succeeds exactly on a connected object; then this call alone is inside; a refusal changes nothing |
| `Lifecycle.Interface.Quarantine` | src/com_server/minidrv/locking.rs:52-61 | the connection is closed while Busy, only then Failed |
| `Lifecycle.Interface.CallHelper` | src/com_server/minidrv/locking.rs:63-87 | only S_OK counts; a missing helper fails without leaving the driver |
| `Lifecycle.Interface.Dispatch` | src/com_server/minidrv/locking.rs:101-113 | success is exactly the helper's own; a failed unlock quarantines, a failed lock does not |
| `Lifecycle.Interface.QueryAndUnlock` | src/com_server/minidrv/locking.rs:115-170 | the unlock follows the query on every way out of it, unwinding included |
| `Lifecycle.Interface.QueryLocked` | src/com_server/minidrv/locking.rs:159-180 | each successful lock is followed by the query and exactly one unlock; the connection survives exactly a clean query and unlock; the query's failure is what is reported, E_UNEXPECTED if it unwinds |
| `Lifecycle.Interface.PublishAndReturn` | src/com_server/minidrv/locking.rs:182-198 | publishing once; the connection is lost exactly when the publisher unwinds or fails after it began writing |
| `Lifecycle.Interface.WithLiveCapabilities` | src/com_server/minidrv/locking.rs:182-257 | publishing happens once, exactly after query and unlock both succeeded; when the connection is lost |
| `Lifecycle.Serve` | src/com_server/minidrv.rs:101-186 | over every sequence of entry points, acquisitions included: lock, query, unlock and publish in order over the whole trace, helpers used only while held, clients equal connects minus disconnects, Failed and stuck Busy absorbing |
| `Cancel.ActiveExplained` | src/com_server/minidrv/cancel.rs:27-81 | the active job is the one begun and not removed, raised exactly by a later matching cancel |
| `Cancel.BegunStaysActive` | src/com_server/minidrv/cancel.rs:27-81 | an admitted job stays active until its own removal |
| `Cancel.RemovalReportsItsOwnCancel` | src/com_server/minidrv/cancel.rs:60-75 | removal reports cancellation exactly when a matching cancel was ordered between begin and that first removal |
| `Cancel.NoLeakIntoNextJob` | src/com_server/minidrv/cancel.rs:31-42 | nothing before a job began can cancel it |
| `Cancel.SecondRemovalIsHarmless` | src/com_server/minidrv/cancel.rs:76-81 | the destructor of a finished job touches no other job |
| `Cancel.State.Begin` | src/com_server/minidrv/cancel.rs:31-42 | admitted exactly when nothing is active |
| `Cancel.State.Cancel` | src/com_server/minidrv/cancel.rs:43-52 | matches exactly the active device |
| `Cancel.State.Remove` | src/com_server/minidrv/cancel.rs:63-75 | answers as the history says |
| `Cancel.State.Finish` | src/com_server/minidrv/cancel.rs:60-81 | the first removal decides, whatever other threads do before the second |
| `Cancel.Status` | src/com_server/minidrv/acquire.rs:78-84 | success, S_FALSE and failure codes are told apart |
| `Cancel.ErrorStatus` | src/com_server/minidrv/acquire.rs:54-77 | a bad request, a busy scanner and a missing one keep their own codes |
| `Cancel.Dispatch` | src/com_server/minidrv/acquire.rs:86-111 | admitted exactly on a connected object with no active job; 0 exactly on success with no cancel ordered before completion, 1 exactly on cancellation, errors take precedence; the connection is given back |
| `ModuleCounts.BalancedNext` | src/com_server.rs:235-277 | every atomic update keeps holds equal to objects plus locks plus threads in between |
| `ModuleCounts.NoRollbackNext` | src/com_server.rs:256-266 | raising the lock count after holding the module never fails |
| `ModuleCounts.OneLifeNext` | src/com_server.rs:569-588 | an object is unborn, alive, dying in one thread or destroyed once |
| `ModuleCounts.InvNext` | src/com_server.rs:235-348 | every atomic update keeps the whole invariant |
| `ModuleCounts.UnloadOnlyWhenUnused` | src/com_server.rs:274-276 | the module may unload exactly when no object, lock or thread in between holds it |
| `ModuleCounts.RollbackIsUnreachable` | src/com_server.rs:256-266 | the rollback branch of lock_server is unreachable |
| `ModuleCounts.LastReleaseDestroysOnce` | src/com_server.rs:569-588 | an object dies with its last reference, exactly once |
| `ModuleCounts.SaturatedIsForever` | src/com_server.rs:313-348 | a count that reached MAX never moves and its object is never freed |
| `ModuleCounts.Module.CanUnload` | src/com_server.rs:274-276 | answers true exactly when no object, lock or thread in between needs the module |
| `ModuleCounts.Module.LockServer` | src/com_server.rs:256-272 | fails only at the limits, without effect; success performs exactly its two counter updates, whatever others do in between |
| `ModuleCounts.Module.CreateInstance` | src/com_server.rs:440-497 | the module is held before the object is handed out with one reference |
| `ModuleCounts.Module.ReleaseInstance` | src/com_server.rs:569-588 | the last owner destroys the object before the hold goes; otherwise the references left are answered |

## Left out

- WinUSB, SetupAPI, OLE and `wias*` calls, vtables, BSTRs and pointer layout: each is a nondeterministic outcome behind a small class or a parameter.
- Error wording, diagnostics, profiles and timings: only kinds, the text before wrapping and the host-cancelled mark are kept.
- Real time: an abstract monotone clock; only deadline comparisons matter, and each Busy wait advances it.
- The device path: choosing and opening an interface is a result passed in; what the model keeps of the USB layer is endpoint selection and the read-buffer check.
- `scan_bmp`, `encode_bmp` and the command-line tools: the same job and encoder without the callback.
- Root item catalog, property names, access bits, item-name validation and initial publication: they would only add constants. `Catalog` keeps ids, values and validity descriptions of the flatbed item, keyed by id, with the publication order beside them.
- Catalog.FlatbedExactly: the item's names are taken as valid.
- Validation.Validate: requested names and ids are taken as already resolved to the ids of writable properties of a flatbed item, the service keeps each property in its own type, and reading the settings succeeds or fails as a whole.
- Validation.Live: ends at the first round that fails; what the service keeps of rejected writes is not modelled, and after a failed publication the object is quarantined (`Lifecycle.Interface.PublishAndReturn`).
- `last_error` of the driver object: it records outcomes and decides nothing.
- Concurrent `LockDevice` calls: the source drops its mutex between testing and setting the lock flag, so `DriverObject` models calls on one object one after another; exclusion on the pipe is `SessionSlot`'s. Re-entrant calls during a lent session are covered there as well.
- Compare-exchange retry loops: each counts as one atomic update in `ModuleCounts`.
- Query and add-reference entry points of the COM objects: their counting is `AddRef` in `ModuleCounts`; interface identity is left out.
- DriverObject.Driver.Initialize: retaining the port helper is one boolean outcome; helper references are not counted there, because nothing else depends on them.
- Encoder.NewEncoder: reading the original stream position cannot fail in the model, because its failure is indistinguishable from a failing seek to the end.
- Encoder.Stream.Write: a failed write may leave any leading part of its bytes in place; writers that corrupt other bytes when they fail are not covered.
- Delta.PlanExactly: property names are not kept, so the test that both catalogs have the same names is not modelled.
- Lending.InvNext: retaining and releasing the helper, and building or unlinking the tree, are one foreign call each.
- Lifecycle.Interface.Close: foreign code is not assumed to unwind through the driver while a tree is closed.
- Cancel.ErrorStatus: the kinds PermissionDenied and OutOfMemory do not occur in the model.
- Cancel.Dispatch: error statuses carried inside foreign error values are reduced to the error kind.
- Delta.Update: the service's own validation is one outcome, and a refused write may be applied in part but only to properties it was given.

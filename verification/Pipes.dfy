/** Which endpoints the USB layer uses and which transfers it admits (src/usb.rs). */
module Pipes {
  import opened Basics
  import opened ScanJob

  datatype PipeInfo = PipeInfo(id: Byte, kind: nat, maximumPacket: nat)

  datatype BulkPipes = BulkPipes(input: Byte, output: Byte, inputMaximum: nat, outputMaximum: nat)

  const MAX_TRANSFER_BYTES := 1024 * 1024
  const BULK_PACKETS: set<nat> := {8, 16, 32, 64, 512, 1024}

  predicate Inward(p: PipeInfo) {
    p.id as int / 128 == 1
  }

  /** No reserved address bits, not endpoint zero, a plausible packet size. */
  predicate WellFormed(p: PipeInfo) {
    p.id as int / 16 % 8 == 0 && p.id as int % 16 != 0 && 0 < p.maximumPacket <= 1024
    && (p.kind == 2 ==> p.maximumPacket in BULK_PACKETS)
  }

  predicate Bulk(p: PipeInfo, inward: bool) {
    p.kind == 2 && Inward(p) == inward
  }

  ghost predicate Distinct(pipes: seq<PipeInfo>) {
    forall i, j :: 0 <= i < j < |pipes| ==> pipes[i].id != pipes[j].id
  }

  ghost predicate AllWellFormed(pipes: seq<PipeInfo>) {
    forall i :: 0 <= i < |pipes| ==> WellFormed(pipes[i])
  }

  /** `at` is the only bulk endpoint of its direction. */
  ghost predicate Only(pipes: seq<PipeInfo>, at: nat, inward: bool) {
    && at < |pipes| && Bulk(pipes[at], inward)
    && (forall i :: 0 <= i < |pipes| && Bulk(pipes[i], inward) ==> i == at)
  }

  /** What one direction's slot holds after some of the pipes. */
  ghost predicate Slot(pipes: seq<PipeInfo>, slot: Option<PipeInfo>, inward: bool) {
    match slot
    case None => forall i :: 0 <= i < |pipes| ==> !Bulk(pipes[i], inward)
    case Some(p) => exists at: nat :: Only(pipes, at, inward) && pipes[at] == p
  }

  /** Exactly one well-formed bulk endpoint each way, among well-formed, distinct endpoints. */
  ghost predicate Usable(pipes: seq<PipeInfo>) {
    && AllWellFormed(pipes) && Distinct(pipes)
    && (exists at: nat :: Only(pipes, at, true)) && (exists at: nat :: Only(pipes, at, false))
  }

  lemma SlotNext(pipes: seq<PipeInfo>, p: PipeInfo, slot: Option<PipeInfo>, inward: bool)
    requires Slot(pipes, slot, inward)
    ensures !Bulk(p, inward) ==> Slot(pipes + [p], slot, inward)
    ensures Bulk(p, inward) && slot.None? ==> Slot(pipes + [p], Some(p), inward)
    ensures Bulk(p, inward) && slot.Some? ==> forall at: nat :: !Only(pipes + [p], at, inward)
  {
    var more := pipes + [p];
    if slot.Some? {
      var at: nat :| Only(pipes, at, inward) && pipes[at] == slot.value;
      assert more[at] == pipes[at] && more[|pipes|] == p;
      if !Bulk(p, inward) {
        assert Only(more, at, inward);
      }
    } else if Bulk(p, inward) {
      assert Only(more, |pipes|, inward);
    }
  }

  method SelectBulkPipes(pipes: seq<PipeInfo>) returns (r: IoResult<BulkPipes>)
    ensures r.Ok? <==> Usable(pipes)
    ensures r.Ok? ==> exists i: nat, o: nat ::
                        && Only(pipes, i, true) && Only(pipes, o, false)
                        && r.value
                           == BulkPipes(pipes[i].id, pipes[o].id, pipes[i].maximumPacket, pipes[o].maximumPacket)
    ensures r.Ok? ==> r.value.inputMaximum in BULK_PACKETS && r.value.outputMaximum in BULK_PACKETS
  {
    var input: Option<PipeInfo>, output: Option<PipeInfo> := None, None;
    var addresses: set<int> := {};
    var n := 0;
    while n < |pipes|
      invariant 0 <= n <= |pipes|
      invariant AllWellFormed(pipes[..n]) && Distinct(pipes[..n])
      invariant forall id :: id in addresses <==> exists i :: 0 <= i < n && pipes[i].id == id
      invariant Slot(pipes[..n], input, true) && Slot(pipes[..n], output, false)
    {
      var p := pipes[n];
      if !WellFormed(p) || p.id in addresses {
        return Err(Fail(InvalidData, "Invalid or duplicate USB endpoint descriptor"));
      }
      assert pipes[..n + 1] == pipes[..n] + [p];
      SlotNext(pipes[..n], p, input, true);
      SlotNext(pipes[..n], p, output, false);
      addresses := addresses + {p.id};
      if p.kind == 2 {
        if Inward(p) {
          if input.Some? {
            Ambiguous(pipes, n, true);
            return Err(Fail(InvalidData, "Ambiguous bulk endpoints; no command was sent"));
          }
          input := Some(p);
        } else {
          if output.Some? {
            Ambiguous(pipes, n, false);
            return Err(Fail(InvalidData, "Ambiguous bulk endpoints; no command was sent"));
          }
          output := Some(p);
        }
      }
      n := n + 1;
    }
    assert pipes[..n] == pipes;
    if input.None? || output.None? {
      return Err(Fail(InvalidData, "Scanner requires a unique bulk IN and OUT endpoint"));
    }
    r := Ok(BulkPipes(input.value.id, output.value.id, input.value.maximumPacket, output.value.maximumPacket));
  }

  lemma Ambiguous(pipes: seq<PipeInfo>, n: nat, inward: bool)
    requires n < |pipes| && Bulk(pipes[n], inward) && exists at: nat :: Only(pipes[..n], at, inward)
    ensures forall at: nat :: !Only(pipes, at, inward)
  {
    var at: nat :| Only(pipes[..n], at, inward);
    assert pipes[..n][at] == pipes[at];
  }

  function ValidateReadBuffer(length: nat, maximumPacket: nat): IoResult<()> {
    if length == 0 || length > MAX_TRANSFER_BYTES then Err(Fail(InvalidInput, "USB transfer buffer size"))
    else if maximumPacket == 0 || length % maximumPacket != 0 then
      Err(Fail(InvalidInput, "USB read buffer must be a multiple of the bulk IN maximum packet"))
    else Ok(())
  }

  /** Whatever endpoint was selected and however much of a band is left, the USB layer admits the read
      that the job asks for; and it admits every reply read. */
  lemma JobReadsAreAdmitted(remaining: nat, tuning: Tuning, pipes: BulkPipes)
    requires remaining > 0 && ValidateTuning(tuning).Ok? && pipes.inputMaximum in BULK_PACKETS
    ensures ValidateReadBuffer(Capacity(remaining, tuning.readBufferBytes), pipes.inputMaximum).Ok?
    ensures ValidateReadBuffer(1024, pipes.inputMaximum).Ok?
  {
    hide Capacity, WholePackets;
    PacketDivides(Capacity(remaining, tuning.readBufferBytes), pipes.inputMaximum);
    KibibytesAreWholePackets(1024);
    PacketDivides(1024, pipes.inputMaximum);
  }

  lemma PacketDivides(n: nat, packet: nat)
    requires WholePackets(n) && packet in BULK_PACKETS
    ensures n % packet == 0
  {
    if packet == 8 {
    } else if packet == 16 {
    } else if packet == 32 {
    } else if packet == 64 {
    } else if packet == 512 {
    }
  }
}

/** The USB pipe as the scan job sees it, and the session monitor that says, from nothing but
    the bytes that went over the pipe, which command may be written next. */
module Usb {
  import opened Basics
  import opened Wire

  const INQUIRY: Byte := 0x12
  const RESERVE: Byte := 0x16
  const SET_WINDOW: Byte := 0x24
  const START: Byte := 0x31
  const READ: Byte := 0x28
  const READ_IMAGE: Byte := 0x29
  const ABORT: Byte := 0x06
  const RELEASE: Byte := 0x17

  const MAX_BANDS := 4096
  const MAX_JOB_BYTES := 256 * 1024 * 1024

  function Short(opcode: Byte): seq<Byte> {
    [0x1b, 0xa8, opcode, 0]
  }

  // ---- Traffic ----

  datatype Transfer = Failed(error: IoError) | Moved(count: nat, data: seq<Byte>)

  datatype Event = Wrote(data: seq<Byte>, delivered: bool) | Received(capacity: nat, transfer: Transfer)

  // ---- What an observer of the pipe knows ----

  /** `Boundary`: nothing is owed either way. `Uncertain`: nobody knows what the next byte means. */
  datatype Link = Boundary | ReplyOwed | ImageOwed(got: seq<Byte>) | Uncertain

  /** `Unconfirmed`: RESERVE was written and no Good reply has settled who owns the scanner. */
  datatype Owner = Free | Unconfirmed | Held

  datatype RawImage = RawImage(info: BandInfo, data: seq<Byte>)

  datatype Session = Session(
    link: Link,
    op: Byte,
    reply: seq<Byte>,
    caps: Option<Capabilities>,
    window: Option<ScanRequest>,
    owner: Owner,
    images: seq<RawImage>,
    legal: bool)

  const FRESH := Session(Boundary, 0, [], None, None, Free, [], true)

  /** A complete reply frame of the kind `opcode` calls for. */
  predicate Framed(opcode: Byte, b: seq<Byte>) {
    && |b| >= 32 && b[0] == 0xa8 && b[2] as int + 3 == |b|
    && (match opcode
        case 0x12 => b[3] == 0x10
        case 0x28 => b[3] in {0x20, 0x80, 0x81}
        case 0x24 => b[3] in {0, 0x20, 0x30}
        case _ => b[3] in {0, 0x20})
  }

  predicate Answered(reply: seq<Byte>, read: bool, status: ReplyStatus) {
    ResponseStatus(reply, read) == Ok(status)
  }

  function PixelTotal(images: seq<RawImage>, mode: ColorMode): nat {
    if images == [] then 0
    else PixelTotal(images[..|images| - 1], mode) + images[|images| - 1].info.PixelBytes(mode)
  }

  /** The metadata reply announces a band that the job limits, 4096 bands and 256 MiB, still admit. */
  predicate BandAdmitted(s: Session)
    requires s.window.Some?
  {
    var parsed := ParseBand(s.reply, s.window.value.mode);
    && parsed.Ok?
    && |s.images| < 4096
    && PixelTotal(s.images, s.window.value.mode) + parsed.value.length <= 0x1000_0000
    && (s.images != [] ==> s.images[0].info.width == parsed.value.width)
  }

  /** The scan protocol: which command may be written, given everything seen so far. */
  predicate MayFollow(s: Session, command: seq<Byte>) {
    && s.link.Boundary?
    && |command| >= 4
    && (match command[2]
        case 0x12 => s.owner.Free?
        case 0x16 => (s.op == INQUIRY && s.owner.Free? && s.caps.Some?)
                     || (s.op == RESERVE && s.owner.Unconfirmed? && Answered(s.reply, false, Busy))
        case 0x24 => s.op == RESERVE && s.owner.Held? && s.caps.Some? && DecodeWindow(command).Some?
                     && Command(DecodeWindow(command).value, s.caps.value) == Ok(command)
        case 0x31 => (s.op == SET_WINDOW && ResponseStatus(s.reply, false).Ok?)
                     || (s.op == START && Answered(s.reply, false, Busy))
        case 0x28 => (s.op == START && Answered(s.reply, false, Good))
                     || (s.op == READ && Answered(s.reply, true, Busy))
                     || (s.op == READ_IMAGE && s.images != [] && !s.images[|s.images| - 1].info.finalBand)
        case 0x29 => s.op == READ && s.window.Some? && BandAdmitted(s)
        case 0x06 => s.owner.Held? && s.op !in {ABORT, RELEASE}
        case 0x17 => s.owner.Held?
                     && (s.op == ABORT
                         || (s.op == READ_IMAGE && s.images != [] && s.images[|s.images| - 1].info.finalBand))
        case _ => false)
  }

  function Asked(s: Session, command: seq<Byte>, delivered: bool): Session {
    var opcode: Byte := if |command| > 2 then command[2] else 0;
    s.(op := opcode,
       link := if !delivered then Uncertain else if opcode == READ_IMAGE then ImageOwed([]) else ReplyOwed,
       caps := if opcode == INQUIRY then None else s.caps,
       window := if opcode == INQUIRY then None else if opcode == SET_WINDOW then DecodeWindow(command) else s.window,
       images := if opcode == INQUIRY then [] else s.images,
       owner := if opcode == RESERVE && s.owner.Free? then Unconfirmed else s.owner,
       legal := s.legal && MayFollow(s, command))
  }

  function Told(s: Session, reply: seq<Byte>): Session {
    s.(link := Boundary,
       reply := reply,
       caps := if s.op == INQUIRY then
                 match ParseCapabilities(reply) case Ok(caps) => Some(caps) case Err(_) => None
               else s.caps,
       owner := if s.op == RESERVE && Answered(reply, false, Good) then Held
                else if s.op == RELEASE && Answered(reply, false, Good) then Free
                else s.owner)
  }

  /** Image bytes count towards the announced band; the band is complete at its exact length. */
  function Drained(s: Session, chunk: seq<Byte>): Session
    requires s.link.ImageOwed?
  {
    var info := if s.window.Some? then ParseBand(s.reply, s.window.value.mode) else Err(Fail(Other, ""));
    var got := s.link.got + chunk;
    if info.Err? || |got| > info.value.length then s.(link := Uncertain)
    else if |got| < info.value.length then s.(link := ImageOwed(got))
    else s.(link := Boundary, images := s.images + [RawImage(info.value, got)])
  }

  function Step(s: Session, e: Event): Session {
    match e
    case Wrote(command, delivered) => Asked(s, command, delivered)
    case Received(capacity, t) =>
      match s.link
      case Boundary => s.(link := Uncertain, legal := false)
      case Uncertain => s
      case ReplyOwed =>
        if t.Moved? && t.count <= capacity && |t.data| == t.count && Framed(s.op, t.data) then Told(s, t.data)
        else s.(link := Uncertain)
      case ImageOwed(_) =>
        if t.Moved? && t.count <= capacity && |t.data| == t.count then Drained(s, t.data)
        else s.(link := Uncertain)
  }

  /** An undelivered command leaves the same session as a delivered one whose reply was lost. */
  lemma AskedInDoubt(s: Session, command: seq<Byte>)
    requires |command| >= 4
    ensures var asked := Asked(s, command, true);
            && Asked(s, command, false) == asked.(link := Uncertain)
            && (command[2] != READ_IMAGE ==> asked.link.ReplyOwed?)
            && asked.op == command[2] && asked.legal == (s.legal && MayFollow(s, command))
  {
    hide MayFollow, DecodeWindow;
  }

  /** The session after a whole exchange of traffic, starting from a newly opened pipe. */
  function Observe(log: seq<Event>): Session {
    if log == [] then FRESH else Step(Observe(log[..|log| - 1]), log[|log| - 1])
  }

  lemma ObserveStep(log: seq<Event>, e: Event)
    ensures Observe(log + [e]) == Step(Observe(log), e)
  {
    assert (log + [e])[..|log|] == log;
  }

  // ---- What a legal history rules out ----

  lemma {:induction false} LegalPrefix(log: seq<Event>, i: nat)
    requires Observe(log).legal && i <= |log|
    ensures Observe(log[..i]).legal
  {
    if i == |log| {
      assert log[..i] == log;
    } else {
      LegalPrefix(log[..|log| - 1], i);
      assert log[..|log| - 1][..i] == log[..i];
    }
  }

  /** In a legal history every command was allowed by all the traffic before it. */
  lemma EveryCommandWasAllowed(log: seq<Event>, i: nat)
    requires Observe(log).legal && i < |log| && log[i].Wrote?
    ensures MayFollow(Observe(log[..i]), log[i].data)
    ensures Observe(log[..i]).link.Boundary?
  {
    hide Observe, Asked, Told, Drained, MayFollow;
    LegalPrefix(log, i + 1);
    assert log[..i + 1] == log[..i] + [log[i]];
    ObserveStep(log[..i], log[i]);
    AskedLegally(Observe(log[..i]), log[i].data, log[i].delivered);
  }

  lemma AskedLegally(s: Session, command: seq<Byte>, delivered: bool)
    ensures Asked(s, command, delivered).legal ==> s.legal && MayFollow(s, command) && s.link.Boundary?
  {
    hide ResponseStatus, ParseCapabilities, ParseBand, DecodeWindow, Command, BandAdmitted;
  }

  /** Once the stream is uncertain nothing is ever written to it again. */
  lemma {:induction false} SilentOnceUncertain(log: seq<Event>, i: nat, j: nat)
    requires Observe(log).legal && i <= j < |log| && Observe(log[..i]).link.Uncertain?
    ensures log[j].Received? && Observe(log[..j + 1]).link.Uncertain?
    decreases j
  {
    hide MayFollow, Observe, Asked;
    if i < j {
      SilentOnceUncertain(log, i, j - 1);
    }
    assert Observe(log[..j]).link.Uncertain?;
    if log[j].Wrote? {
      EveryCommandWasAllowed(log, j);
      assert false;
    }
    assert log[..j + 1] == log[..j] + [log[j]];
    ObserveStep(log[..j], log[j]);
  }

  /** Which opcode may come directly after which: the grammar
      12 (16+ (24 (31+ (28+ 29)* 28*)?)? (06 17? | 17)?)?, repeated for each job. */
  const FOLLOWS: set<(Byte, Byte)> :=
    { (0, 0x12), (0x12, 0x12), (0x17, 0x12),
      (0x12, 0x16), (0x16, 0x16),
      (0x16, 0x24),
      (0x24, 0x31), (0x31, 0x31),
      (0x31, 0x28), (0x28, 0x28), (0x29, 0x28),
      (0x28, 0x29),
      (0x16, 0x06), (0x24, 0x06), (0x31, 0x06), (0x28, 0x06), (0x29, 0x06),
      (0x06, 0x17), (0x29, 0x17) }

  /** Facts about every legal session, whatever the device answered. */
  predicate Sound(s: Session) {
    && (s.owner.Held? ==> s.op in {RESERVE, SET_WINDOW, START, READ, READ_IMAGE, ABORT, RELEASE})
    && (s.owner.Unconfirmed? ==> s.op == RESERVE)
    && (s.owner.Free? ==> s.op in {0, INQUIRY, RELEASE})
    && (s.op in {SET_WINDOW, START, READ, READ_IMAGE} ==> s.owner.Held? && s.window.Some?)
  }

  lemma {:induction false} LegalIsSound(log: seq<Event>)
    requires Observe(log).legal
    ensures Sound(Observe(log))
  {
    if log != [] {
      LegalPrefix(log, |log| - 1);
      LegalIsSound(log[..|log| - 1]);
    }
  }

  /** The opcode grammar, with what each cleanup and image command needs to have been told first. */
  lemma OpcodeGrammar(log: seq<Event>, i: nat)
    requires Observe(log).legal && i < |log| && log[i].Wrote?
    ensures var s, command := Observe(log[..i]), log[i].data;
            && |command| >= 4 && (s.op, command[2]) in FOLLOWS
            && (command[2] in {ABORT, RELEASE} ==> s.owner.Held?)
            && (command[2] == READ_IMAGE ==> s.window.Some? && ParseBand(s.reply, s.window.value.mode).Ok?)
            && (command[2] == SET_WINDOW ==> s.caps.Some? && DecodeWindow(command).Some?
                                             && Command(DecodeWindow(command).value, s.caps.value) == Ok(command))
  {
    EveryCommandWasAllowed(log, i);
    LegalPrefix(log, i);
    LegalIsSound(log[..i]);
  }

  /** The positive side of `MayFollow`, command by command. */
  lemma Permissions(s: Session)
    requires s.link.Boundary?
    ensures s.owner.Free? ==> MayFollow(s, Short(INQUIRY))
    ensures s.op == INQUIRY && s.owner.Free? && s.caps.Some? ==> MayFollow(s, Short(RESERVE))
    ensures s.op == RESERVE && s.owner.Unconfirmed? && Answered(s.reply, false, Busy) ==> MayFollow(s, Short(RESERVE))
    ensures s.op == SET_WINDOW && ResponseStatus(s.reply, false).Ok? ==> MayFollow(s, Short(START))
    ensures s.op == START && Answered(s.reply, false, Busy) ==> MayFollow(s, Short(START))
    ensures s.op == START && Answered(s.reply, false, Good) ==> MayFollow(s, Short(READ))
    ensures s.op == READ && Answered(s.reply, true, Busy) ==> MayFollow(s, Short(READ))
    ensures s.op == READ_IMAGE && s.images != [] ==>
              MayFollow(s, Short(if s.images[|s.images| - 1].info.finalBand then RELEASE else READ))
              || (s.images[|s.images| - 1].info.finalBand && !s.owner.Held?)
    ensures s.op == READ && s.window.Some? && BandAdmitted(s) ==> MayFollow(s, Short(READ_IMAGE))
    ensures s.owner.Held? && s.op !in {ABORT, RELEASE} ==> MayFollow(s, Short(ABORT))
    ensures s.owner.Held? && s.op == ABORT ==> MayFollow(s, Short(RELEASE))
  {
    hide ResponseStatus, BandAdmitted;
  }

  /** The events at `at` and `at + 1` are a delivered command and a reply frame of its kind. */
  predicate Exchanged(log: seq<Event>, at: nat, command: seq<Byte>)
    requires at + 2 <= |log| && |command| >= 4
  {
    && log[at] == Wrote(command, true)
    && log[at + 1].Received? && log[at + 1].transfer.Moved?
    && log[at + 1].transfer.count <= log[at + 1].capacity
    && Framed(command[2], log[at + 1].transfer.data)
  }

  // ---- A cleanup that stops after ABORT ----

  const SOME_PRODUCT: seq<Byte> :=
    [0xa8, 0, 67, 0x10] + seq(32, _ => 0x58) + [0, 1, 0, 8] + ToBe32(10200) + ToBe32(14040) + [0, 0, 1]
    + seq(9, _ => 0) + ToBe32(14040) + seq(6, _ => 0)

  const GOOD: seq<Byte> := [0xa8, 0, 29, 0] + seq(28, _ => 0)

  function Reply(b: seq<Byte>): Event {
    Received(1024, Moved(|b|, b))
  }

  /** A host may stop with an ABORT that RELEASE never follows: here the ABORT itself was not
      delivered, and from then on no command at all may be written. */
  lemma AbortWithoutRelease()
    ensures var log := [Wrote(Short(INQUIRY), true), Reply(SOME_PRODUCT), Wrote(Short(RESERVE), true), Reply(GOOD),
                        Wrote(Short(ABORT), false)];
            && Observe(log).legal && Observe(log).op == ABORT
            && Observe(log).owner.Held? && Observe(log).link.Uncertain?
            && forall command :: !MayFollow(Observe(log), command)
  {
    hide Observe, ParseCapabilities, ToBe32;
    var l1 := [Wrote(Short(INQUIRY), true)];
    var l2 := l1 + [Reply(SOME_PRODUCT)];
    var l3 := l2 + [Wrote(Short(RESERVE), true)];
    var l4 := l3 + [Reply(GOOD)];
    NothingYet();
    ProductParses();
    ObserveStep([], l1[0]);
    ObserveStep(l1, Reply(SOME_PRODUCT));
    ObserveStep(l2, Wrote(Short(RESERVE), true));
    ObserveStep(l3, Reply(GOOD));
    ObserveStep(l4, Wrote(Short(ABORT), false));
    assert [] + l1 == l1;
    assert l4 + [Wrote(Short(ABORT), false)]
           == [Wrote(Short(INQUIRY), true), Reply(SOME_PRODUCT), Wrote(Short(RESERVE), true), Reply(GOOD),
               Wrote(Short(ABORT), false)];
  }

  lemma NothingYet()
    ensures Observe([]) == FRESH
  {
  }

  lemma ProductParses()
    ensures |SOME_PRODUCT| == 70 && Framed(INQUIRY, SOME_PRODUCT) && ParseCapabilities(SOME_PRODUCT).Ok?
  {
    ProductBytes();
    CompleteFrameParses(SOME_PRODUCT);
  }

  lemma ProductBytes()
    ensures var b := SOME_PRODUCT;
            && |b| == 70 && b[..4] == [0xa8, 0, 67, 0x10] && b[37] == 1 && b[39] == 8
            && b[40..44] == ToBe32(10200) && b[44..48] == ToBe32(14040) && b[60..64] == ToBe32(14040)
            && forall i :: 4 <= i < 36 ==> b[i] == 0x58
  {
    hide ToBe32;
  }

  lemma CompleteFrameParses(b: seq<Byte>)
    requires |b| == 70 && b[..4] == [0xa8, 0, 67, 0x10] && b[37] == 1 && b[39] == 8
    requires b[40..44] == ToBe32(10200) && b[44..48] == ToBe32(14040) && b[60..64] == ToBe32(14040)
    requires forall i :: 4 <= i < 36 ==> b[i] == 0x58
    ensures Framed(INQUIRY, b) && ParseCapabilities(b).Ok?
  {
    hide ToBe32;
    var header := b[..4];
    assert b[0] == header[0] && b[1] == header[1] && b[2] == header[2] && b[3] == header[3];
  }

  // ---- The pipe ----

  /** An adversarial bulk pipe: writes may fail, reads may fail, fall short, return nothing,
      claim more than the buffer holds, or carry any bytes at all. */
  class Transport {
    ghost var log: seq<Event>
    ghost var session: Session
    /** The pipe's longest read, when it was last asked for. */
    ghost var limit: Option<IoResult<nat>>

    ghost predicate Valid()
      reads this
    {
      session == Observe(log)
    }

    constructor ()
      ensures Valid() && log == [] && session == FRESH
    {
      log, session, limit := [], FRESH, None;
    }

    /** A query of the pipe's policy; nothing crosses the pipe. */
    method ReadLimit() returns (r: IoResult<nat>)
      modifies this`limit
      ensures limit == Some(r) && (r.Err? ==> !r.error.hostCancelled)
    {
      r := *;
      if r.Err? {
        r := Err(Reworded(r.error));
      }
      limit := Some(r);
    }

    method Write(data: seq<Byte>) returns (r: IoResult<()>)
      requires Valid()
      modifies this
      ensures Valid()
      ensures log == old(log) + [Wrote(data, r.Ok?)]
      ensures session == Step(old(session), Wrote(data, r.Ok?))
      ensures r.Err? ==> !r.error.hostCancelled
    {
      r := *;
      if r.Err? {
        r := Err(Reworded(r.error));
      }
      ObserveStep(log, Wrote(data, r.Ok?));
      log, session := log + [Wrote(data, r.Ok?)], Step(session, Wrote(data, r.Ok?));
    }

    method Read(capacity: nat) returns (t: Transfer)
      requires Valid()
      modifies this
      ensures Valid()
      ensures log == old(log) + [Received(capacity, t)]
      ensures session == Step(old(session), Received(capacity, t))
      ensures t.Moved? ==> |t.data| == Min(t.count, capacity)
      ensures t.Failed? ==> !t.error.hostCancelled
    {
      var error: IoError := *;
      var count: nat :| count >= 0;
      var data: seq<Byte> := *;
      var fails: bool := *;
      if fails || |data| != Min(count, capacity) {
        t := Failed(Reworded(error));
      } else {
        t := Moved(count, data);
      }
      ObserveStep(log, Received(capacity, t));
      log, session := log + [Received(capacity, t)], Step(session, Received(capacity, t));
    }
  }

  /** Cancellation and time as seen by the job: any load of the flag may see anything, the clock
      never goes back, and sleeping moves it forward. */
  class Host {
    var now: nat
    /** Every value the flag was seen to have. */
    ghost var observed: seq<bool>

    constructor ()
      ensures observed == []
    {
      now, observed := 0, [];
    }

    method Cancelled() returns (b: bool)
      modifies this`observed
      ensures observed == old(observed) + [b]
    {
      b := *;
      observed := observed + [b];
    }

    method Clock() returns (t: nat)
      modifies this`now
      ensures t == now >= old(now)
    {
      var elapsed: nat :| elapsed >= 0;
      now := now + elapsed;
      t := now;
    }

    method Sleep(ms: nat)
      modifies this`now
      ensures now >= old(now) + ms
    {
      var oversleep: nat :| oversleep >= 0;
      now := now + ms + oversleep;
    }
  }
}

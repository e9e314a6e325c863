/** One driver object over its whole life: initialisation, the STI lock, the session slot and every
    job that goes through it (src/com_server/sti.rs). */
module DriverObject {
  import opened Basics
  import opened Wire
  import opened Usb
  import opened ScanJob
  import opened Tone
  import opened Encoder
  import opened Transfer
  import opened Settings
  import Catalog
  import Slot = SessionSlot

  // ---- What an outsider can record ----

  /** What an operation did with the pipe: nothing, a presence check, or a job. */
  datatype Ending = Untouched | Checked(present: bool) | Ran(health: Health, unwound: bool)

  /** The endings after which nobody can say what the scanner is waiting for. */
  predicate Distrusted(ending: Ending) {
    match ending
    case Untouched => false
    case Checked(present) => !present
    case Ran(health, unwound) => unwound || health.NeedsReconnect?
  }

  /** After an operation: how it ended, whether the object still offers its pipe, whether it has barred
      itself, and everything that ever crossed its pipe. */
  datatype Snapshot = Snapshot(ending: Ending, offered: bool, barred: bool, log: seq<Event>)

  /** The scanner owes nothing and is not reserved by this host. */
  ghost predicate AtRest(log: seq<Event>) {
    Observe(log).link.Boundary? && Observe(log).owner.Free?
  }

  /** The object's promise over its life so far: only legal traffic; a pipe is offered only at rest; a
      job that lost the scanner or panicked, or a failed presence check, bars the object; and once
      barred, always barred, without another byte. */
  ghost predicate Trustworthy(history: seq<Snapshot>) {
    && (forall i :: 0 <= i < |history| ==> Observe(history[i].log).legal)
    && (forall i :: 0 <= i < |history| && history[i].offered ==> AtRest(history[i].log))
    && (forall i :: 0 <= i < |history| && Distrusted(history[i].ending) ==> history[i].barred)
    && (forall i, j :: 0 <= i <= j < |history| && history[i].barred ==>
          history[j].barred && history[j].log == history[i].log)
  }

  lemma StaysTrustworthy(history: seq<Snapshot>, next: Snapshot)
    requires Trustworthy(history) && history != []
    requires var last := history[|history| - 1];
             last.barred ==> next.barred && next.log == last.log
    requires Observe(next.log).legal && (next.offered ==> AtRest(next.log))
    requires Distrusted(next.ending) ==> next.barred
    ensures Trustworthy(history + [next])
  {
    hide Observe, AtRest;
    var longer := history + [next];
    forall i, j | 0 <= i <= j < |longer|
      ensures longer[i].barred ==> longer[j].barred && longer[j].log == longer[i].log
    {
      if j == |history| && i < j {
        assert history[i].barred ==> history[j - 1].barred && history[j - 1].log == history[i].log;
      }
    }
  }

  // ---- The object ----

  datatype Refusal = NotInitialized | AlreadyInitialized | NeedsLock | AlreadyLocked | Slot(error: Slot.AccessError)

  function AccessFailure(refusal: Refusal): IoError {
    match refusal
    case Slot(SlotBusy) => Fail(WouldBlock, "Scanner operation is already active")
    case Slot(SlotQuarantined) => Fail(ConnectionAborted, "Scanner session is quarantined")
    case Slot(OpenFailed(error)) => error
    case _ => Fail(NotConnected, "IStiUSD is not initialized or LockDevice is required")
  }

  /** Some item made from these capabilities takes these settings. */
  ghost predicate AcceptedBy(caps: Capabilities, settings: FlatbedSettings) {
    exists itemName: string, fullName: string ::
      && Catalog.Flatbed(caps, itemName, fullName).Ok?
      && Catalog.WithSettings(Catalog.Flatbed(caps, itemName, fullName).value, settings).Ok?
  }

  lemma AcceptedIsCommandable(caps: Capabilities, settings: FlatbedSettings)
    ensures AcceptedBy(caps, settings) ==> ToRequest(settings).Ok? && Command(ToRequest(settings).value, caps).Ok?
  {
    if AcceptedBy(caps, settings) {
      var itemName: string, fullName: string :|
        && Catalog.Flatbed(caps, itemName, fullName).Ok?
        && Catalog.WithSettings(Catalog.Flatbed(caps, itemName, fullName).value, settings).Ok?;
      Catalog.AcceptedSettingsReachTheWindow(caps, itemName, fullName, settings);
    }
  }

  /** Whatever was sent is the window of these settings; and when the catalog of the capabilities the scanner
      reported takes the settings, nothing but the host or the clock stops the job before RESERVE. */
  ghost predicate HonoursSettings(before: seq<Event>, usb: Transport, settings: FlatbedSettings, outcome: Outcome)
    reads usb
  {
    && (usb.log != before ==>
          || usb.session.window.None?
          || (ToRequest(settings).Ok? && usb.session.window == Some(ToRequest(settings).value)))
    && (StoppedBeforeReserve(before, usb) && AcceptedBy(usb.session.caps.value, settings) ==>
          outcome.CancelledTransfer? || outcome == Errored(EXPIRED))
  }

  class Driver {
    var initialized: bool
    var stiLocked: bool
    var connection: Slot.Connection<Transport>
    /** The one pipe this object has opened, if any. */
    ghost var pipe: Transport?
    ghost var history: seq<Snapshot>

    ghost function Traffic(): seq<Event>
      reads this, pipe
    {
      if pipe == null then [] else pipe.log
    }

    ghost function Now(ending: Ending): Snapshot
      reads this, pipe
    {
      Snapshot(ending, connection.Locked?, connection.Quarantined?, Traffic())
    }

    /** Between calls the slot is unlocked, locked or quarantined, and history is up to date. */
    ghost predicate Valid()
      reads this, pipe
    {
      && Trustworthy(history) && history != [] && history[|history| - 1] == Now(history[|history| - 1].ending)
      && (connection.Unlocked? || connection.Locked? || connection.Quarantined?)
      && (connection.Unlocked? <==> pipe == null)
      && (connection.Locked? ==> connection.resource == pipe)
      && (pipe != null ==> pipe.Valid() && pipe.session.legal)
      && (connection.Locked? ==> pipe.session.link.Boundary? && pipe.session.owner.Free?)
      && (stiLocked ==> initialized && !connection.Unlocked?)
    }

    constructor ()
      ensures Valid() && !initialized && connection.Unlocked? && |history| == 1
    {
      initialized, stiLocked, connection, pipe := false, false, Slot.Unlocked, null;
      history := [Snapshot(Untouched, false, false, [])];
    }

    ghost method Record(ending: Ending)
      requires Trustworthy(history) && history != []
      requires var last, now := history[|history| - 1], Now(ending);
               last.barred ==> now.barred && now.log == last.log
      requires Observe(Now(ending).log).legal && (connection.Locked? ==> AtRest(Now(ending).log))
      requires Distrusted(ending) ==> connection.Quarantined?
      modifies this`history
      ensures Trustworthy(history) && history == old(history) + [Now(ending)]
    {
      StaysTrustworthy(history, Now(ending));
      history := history + [Now(ending)];
    }

    /** A call that left the object as it was. */
    ghost method RecordUnchanged()
      requires Valid()
      modifies this`history
      ensures Valid() && history == old(history) + [Now(Untouched)]
    {
      Record(Untouched);
    }

    /** `SessionSlot::open` with the scanner's pipe as its resource. */
    method OpenSlot(acquired: Result<(), IoError>) returns (r: Result<(), Refusal>)
      modifies this`connection, this`pipe
      ensures old(connection).Quarantined? ==> r == Err(Slot(Slot.SlotQuarantined))
      ensures !old(connection).Unlocked? ==> r.Err?
      ensures old(connection).Unlocked? ==> (r.Ok? <==> acquired.Ok?)
      ensures r.Err? ==> connection == old(connection) && pipe == old(pipe)
      ensures r.Ok? ==> old(connection).Unlocked? && connection.Locked? && connection.resource == pipe
                        && fresh(pipe) && pipe.Valid() && pipe.log == [] && pipe.session == FRESH
    {
      if connection.Quarantined? {
        return Err(Slot(Slot.SlotQuarantined));
      }
      if !connection.Unlocked? {
        return Err(Slot(Slot.SlotBusy));
      }
      if acquired.Err? {
        return Err(Slot(Slot.OpenFailed(acquired.error)));
      }
      var usb := new Transport();
      connection, pipe := Slot.Locked(usb), usb;
      r := Ok(());
    }

    /** The pipe the slot holds, as the set of what an operation may use. */
    ghost function Lendable(): set<object>
      reads this
    {
      if connection.Locked? then {connection.resource} else {}
    }

    /** A failed open is ignored here; LockDevice tries again. */
    method Initialize(helperAccepted: bool, acquired: Result<(), IoError>) returns (r: Result<(), Refusal>)
      requires Valid()
      modifies this
      ensures Valid() && history == old(history) + [Now(Untouched)]
      ensures old(initialized) ==> r == Err(AlreadyInitialized)
      ensures r.Ok? <==> !old(initialized) && helperAccepted
      ensures r.Ok? ==> initialized && (old(connection).Unlocked? ==> (connection.Locked? <==> acquired.Ok?))
      ensures r.Err? ==> initialized == old(initialized) && connection == old(connection)
      ensures connection == old(connection) || (connection.Locked? && fresh(connection.resource))
      ensures stiLocked == old(stiLocked)
    {
      if initialized {
        Record(Untouched);
        return Err(AlreadyInitialized);
      }
      if !helperAccepted {
        Record(Untouched);
        return Err(NotInitialized);
      }
      initialized := true;
      var _ := OpenSlot(acquired);
      Record(Untouched);
      r := Ok(());
    }

    method LockDevice(acquired: Result<(), IoError>) returns (r: Result<(), Refusal>)
      requires Valid()
      modifies this
      ensures Valid() && history == old(history) + [Now(Untouched)]
      ensures r.Ok? <==> old(initialized) && !old(stiLocked)
                         && (old(connection).Locked? || (old(connection).Unlocked? && acquired.Ok?))
      ensures r.Ok? ==> stiLocked && connection.Locked? && (old(connection).Locked? ==> connection == old(connection))
      ensures r.Err? ==> stiLocked == old(stiLocked) && connection == old(connection)
      ensures connection == old(connection) || (connection.Locked? && fresh(connection.resource))
    {
      if !initialized {
        Record(Untouched);
        return Err(NotInitialized);
      }
      if stiLocked {
        Record(Untouched);
        return Err(AlreadyLocked);
      }
      var opening: Result<(), Refusal> := Ok(());
      match connection {
        case Locked(_) =>
        case Unlocked => opening := OpenSlot(acquired);
        case Quarantined => opening := Err(Slot(Slot.SlotQuarantined));
        case _ => opening := Err(Slot(Slot.SlotBusy));
      }
      if opening.Err? {
        Record(Untouched);
        return opening;
      }
      stiLocked := true;
      Record(Untouched);
      r := Ok(());
    }

    /** The handle stays open; a quarantined object keeps even the flag. */
    method UnLockDevice() returns (r: Result<(), Refusal>)
      requires Valid()
      modifies this
      ensures Valid() && history == old(history) + [Now(Untouched)]
      ensures connection == old(connection)
      ensures r.Ok? <==> old(stiLocked) && old(connection).Locked?
      ensures stiLocked == (old(stiLocked) && !r.Ok?)
    {
      Record(Untouched);
      if !initialized {
        return Err(NotInitialized);
      }
      if !stiLocked {
        return Err(NeedsLock);
      }
      match connection {
        case Quarantined => return Err(Slot(Slot.SlotQuarantined));
        case Locked(_) =>
        case Unlocked =>
        case _ => return Err(Slot(Slot.SlotBusy));
      }
      stiLocked := false;
      r := Ok(());
    }

    /** What every use of the pipe asks first. */
    function Admission(): Option<Refusal>
      reads this
    {
      if !initialized then Some(NotInitialized)
      else if !stiLocked then Some(NeedsLock)
      else match connection
           case Locked(_) => None
           case Unlocked => Some(Slot(Slot.NotLocked))
           case Quarantined => Some(Slot(Slot.SlotQuarantined))
           case _ => Some(Slot(Slot.SlotBusy))
    }

    /** The lease's end: back in the slot only if the operation vouched for the pipe. */
    method Return(usb: Transport, reusable: bool, ghost ending: Ending)
      requires usb.Valid() && usb.session.legal && pipe == usb
      requires reusable ==> usb.session.link.Boundary? && usb.session.owner.Free?
      requires Trustworthy(history) && history != []
      requires Distrusted(ending) ==> !reusable
      requires !history[|history| - 1].barred && stiLocked && initialized
      modifies this`connection, this`history
      ensures Valid() && history == old(history) + [Now(ending)]
      ensures connection == if reusable then Slot.Locked(usb) else Slot.Quarantined
    {
      connection := if reusable then Slot.Locked(usb) else Slot.Quarantined;
      Record(ending);
    }

    /** The capability query used for presence checks and by the minidriver. */
    method LiveCapabilities() returns (r: Result<Capabilities, IoError>)
      requires Valid()
      modifies this, Lendable()
      ensures Valid()
      ensures history == old(history) + [Now(if old(Admission()).Some? then Untouched else Checked(r.Ok?))]
      ensures old(Admission()).Some? ==>
                r == Err(AccessFailure(old(Admission()).value)) && connection == old(connection)
      ensures old(Admission()).None? ==> connection == if r.Ok? then old(connection) else Slot.Quarantined
      ensures r.Ok? ==> connection.Locked? && connection.resource.session.caps == Some(r.value)
      ensures old(Admission()).None? && r.Err? ==> pipe.session.caps.None? && pipe.log != old(Traffic())
      ensures stiLocked == old(stiLocked) && initialized == old(initialized)
    {
      hide Observe, MayFollow, ParseCapabilities, AccessFailure, Trustworthy;
      if Admission().Some? {
        RecordUnchanged();
        return Err(AccessFailure(Admission().value));
      }
      var usb := connection.resource;
      connection := Slot.InUse;
      r := Presence(usb);
      Return(usb, r.Ok?, Checked(r.Ok?));
    }

    /** One WIA transfer through the slot. Unwinding reaches the caller as an error. */
    method TransferBmp(settings: FlatbedSettings, host: Host, callback: Callback)
      returns (outcome: Outcome, stream: Stream?, ghost ending: Ending, ghost stop: Stop)
      requires Valid() && callback.messages == [] && callback.offered.None? && callback.said == Returned(false)
      modifies this, Lendable(), host, callback
      ensures Valid() && history == old(history) + [Now(ending)]
      // The pipe is given up exactly when the job lost the scanner or panicked.
      ensures connection == if Distrusted(ending) then Slot.Quarantined else old(connection)
      ensures ending.Ran? ==> old(Admission()).None? && ToRequest(settings).Ok? && ending.unwound == outcome.Unwound?
      ensures !ending.Ran? ==> ending.Untouched? && stream == null && Traffic() == old(Traffic())
      ensures stiLocked == old(stiLocked) && initialized == old(initialized)
      ensures connection.Quarantined? && !old(connection).Quarantined? ==> outcome.Errored? || outcome.Unwound?
      ensures outcome.Completed? ==>
                && old(Admission()).None? && connection == old(connection) && connection.Locked?
                && ToRequest(settings).Ok? && stream != null
                && Delivered(connection.resource.session, stream.content, ToRequest(settings).value,
                             Tone(settings.brightness, settings.contrast))
      ensures stream != null && stream.signedAt.Some? ==>
                && ToRequest(settings).Ok?
                && Delivered(pipe.session, stream.content, ToRequest(settings).value,
                             Tone(settings.brightness, settings.contrast))
      // An error is a refusal, or has a reason outside the driver.
      ensures outcome.Errored? ==>
                if ending.Ran? then
                  Excusable(pipe, host, callback, stream, ToRequest(settings).value, ending.health, stop)
                else if ToRequest(settings).Err? then outcome.error == ToRequest(settings).error
                else old(Admission()).Some? && outcome.error == AccessFailure(old(Admission()).value)
      ensures ToRequest(settings).Err? ==> outcome.Errored?
      ensures outcome.Unwound? ==> callback.said.Unwinds? || callback.offered == Some(Unwinds)
      ensures outcome.CancelledTransfer? ==>
                || true in host.observed || callback.said == Returned(true)
                || callback.offered == Some(Returned(Declined))
      ensures outcome.SkippedTransfer? ==> Traffic() == old(Traffic()) && callback.offered == Some(Returned(Skipped))
      // Messages announce completion only of a delivered image, and never take it back.
      ensures !NotYetComplete(callback.messages) || outcome.Completed? ==>
                && stream != null && ToRequest(settings).Ok? && settings.yExtent > 0
                && ReportedWhole(callback.messages, stream.content, ToRequest(settings).value, settings.yExtent as nat)
      ensures ending.Ran? ==> HonoursSettings(old(Traffic()), pipe, settings, outcome)
      ensures Progressive(callback.messages)
    {
      hide Observe, MayFollow, ToRequest, Delivered, AccessFailure, Trustworthy, Progressive, HonoursSettings,
        Excusable, ReportedWhole;
      stream, ending, stop := null, Untouched, Stop(0, 0, 0, NO_PROGRESS);
      NothingSentIsProgressive();
      var request := ToRequest(settings);
      if request.Err? {
        RecordUnchanged();
        return Errored(request.error), stream, ending, stop;
      }
      var cancelled := host.Cancelled();
      if cancelled {
        RecordUnchanged();
        return CancelledTransfer, stream, ending, stop;
      }
      if Admission().Some? {
        RecordUnchanged();
        return Errored(AccessFailure(Admission().value)), stream, ending, stop;
      }
      var usb := connection.resource;
      connection := Slot.InUse;
      var health: Health;
      outcome, health, stream, stop := TransferSettings(usb, host, callback, settings, request.value);
      ending := Ran(health, outcome.Unwound?);
      Return(usb, health.Ready? && !outcome.Unwound?, ending);
    }

    /** Releasing the object closes a pipe only at rest, and says nothing on it. */
    method Drop()
      requires Valid()
      modifies this`connection
      ensures !connection.Locked? && (old(connection).Locked? ==> AtRest(old(connection).resource.log))
    {
      if connection.Locked? {
        connection := Slot.Unlocked;
      }
    }
  }

  lemma NothingSentIsProgressive()
    ensures Progressive([])
  {
  }

  lemma RequestHasRows(settings: FlatbedSettings)
    requires ToRequest(settings).Ok?
    ensures settings.yExtent > 0 && DpiToPpm(ToRequest(settings).value.dpi).Ok?
  {
    hide PixelsToUnits, UnitsPerPixel, ValidateOffset, ValidateEnd, ModeFor, ValidTone;
  }

  /** The transfer of settings that convert to a request. */
  method TransferSettings(usb: Transport, host: Host, callback: Callback, settings: FlatbedSettings,
                          request: ScanRequest)
    returns (outcome: Outcome, health: Health, stream: Stream?, ghost stop: Stop)
    requires usb.Valid() && usb.session.legal && usb.session.link.Boundary? && usb.session.owner.Free?
    requires callback.messages == [] && callback.offered.None? && callback.said == Returned(false)
    requires ToRequest(settings) == Ok(request)
    modifies usb, host, callback
    ensures usb.Valid() && usb.session.legal
    ensures health.Ready? ==> usb.session.link.Boundary? && usb.session.owner.Free?
    ensures health.NeedsReconnect? ==> outcome.Errored?
    ensures stream != null && stream.signedAt.Some? ==>
              Delivered(usb.session, stream.content, request, Tone(settings.brightness, settings.contrast))
    ensures outcome.Completed? ==>
              && health.Ready? && stream != null
              && Delivered(usb.session, stream.content, request, Tone(settings.brightness, settings.contrast))
    ensures HonoursSettings(old(usb.log), usb, settings, outcome)
    ensures stop.from == |old(usb.log)| && stop.deadline >= old(host.now) + 120_000
    ensures outcome.Errored? ==> Excusable(usb, host, callback, stream, request, health, stop)
    ensures outcome.Unwound? ==> callback.said.Unwinds? || callback.offered == Some(Unwinds)
    ensures outcome.CancelledTransfer? ==>
              true in host.observed || callback.said == Returned(true) || callback.offered == Some(Returned(Declined))
    ensures outcome.SkippedTransfer? ==> usb.log == old(usb.log) && callback.offered == Some(Returned(Skipped))
    ensures !NotYetComplete(callback.messages) || outcome.Completed? ==>
              && health.Ready? && stream != null && settings.yExtent > 0
              && ReportedWhole(callback.messages, stream.content, request, settings.yExtent as nat)
    ensures callback.said == Returned(true) && health.Ready? ==> outcome.CancelledTransfer?
    ensures Progressive(callback.messages)
  {
    hide Observe, MayFollow, ToRequest, Delivered, Progressive, AcceptedBy, Command, Excusable, DpiToPpm,
      ReportedWhole;
    RequestHasRows(settings);
    outcome, health, stream, stop :=
      TransferInSession(usb, host, callback, request, ToneOf(settings), settings.yExtent);
    if usb.session.caps.Some? {
      AcceptedIsCommandable(usb.session.caps.value, settings);
    }
  }

  /** Write INQUIRY, read its reply, parse it. */
  method Presence(usb: Transport) returns (r: Result<Capabilities, IoError>)
    requires usb.Valid() && usb.session.legal && usb.session.link.Boundary? && usb.session.owner.Free?
    modifies usb
    ensures usb.Valid() && usb.session.legal
    ensures r.Ok? ==> usb.session.link.Boundary? && usb.session.owner.Free? && usb.session.caps == Some(r.value)
    // A failed check means the scanner gave no readable answer.
    ensures r.Err? ==> usb.session.caps.None? && usb.log != old(usb.log)
  {
    hide Observe, MayFollow, ParseCapabilities, ResponseStatus;
    Permissions(usb.session);
    var sent := usb.Write(Short(INQUIRY));
    if sent.Err? {
      return Err(sent.error);
    }
    var t := usb.Read(1024);
    if t.Failed? {
      return Err(t.error);
    }
    if t.count > 1024 {
      return Err(Fail(Other, "INQUIRY returned more data than its bounded buffer"));
    }
    r := ParseCapabilities(t.data);
    if r.Ok? {
      ParsedReplyIsFramed(t.data);
    }
  }

  lemma ParsedReplyIsFramed(reply: seq<Byte>)
    requires ParseCapabilities(reply).Ok?
    ensures Framed(INQUIRY, reply)
  {
  }

  // ---- Its whole life ----

  datatype Operation =
    | DoInitialize(helperAccepted: bool, acquired: Result<(), IoError>)
    | DoLock(acquired: Result<(), IoError>)
    | DoUnLock
    | DoPresence
    | DoTransfer(settings: FlatbedSettings)

  /** Any sequence of calls on one object, against any device, host and application. */
  method Serve(operations: seq<Operation>) returns (driver: Driver)
    ensures driver.Valid() && |driver.history| == |operations| + 1 && Trustworthy(driver.history)
  {
    hide Trustworthy;
    driver := new Driver();
    var i := 0;
    while i < |operations|
      invariant 0 <= i <= |operations| && driver.Valid() && |driver.history| == i + 1
      invariant fresh(driver) && (driver.connection.Locked? ==> fresh(driver.connection.resource))
    {
      match operations[i] {
        case DoInitialize(helperAccepted, acquired) => var _ := driver.Initialize(helperAccepted, acquired);
        case DoLock(acquired) => var _ := driver.LockDevice(acquired);
        case DoUnLock => var _ := driver.UnLockDevice();
        case DoPresence => var _ := driver.LiveCapabilities();
        case DoTransfer(settings) =>
          var host := new Host();
          var callback := new Callback();
          var _, _, _, _ := driver.TransferBmp(settings, host, callback);
      }
      i := i + 1;
    }
  }
}

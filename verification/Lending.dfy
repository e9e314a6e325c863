/** The minidriver's one connection, shared by any number of threads and re-entrant calls
    (src/com_server/minidrv.rs, src/com_server/minidrv/locking.rs). A run is any interleaving of
    the atomic sections of any number of calls. Foreign code runs between sections, and every call
    it makes back into the driver is one more caller. */
module Lending {
  import opened Basics
  import opened Geometry

  /** The retained STI helper: the foreign object and the place in the trace where this reference
      to it was retained. */
  datatype Helper = Helper(raw: nat, reference: nat)

  datatype Connection = Connection(tree: nat, helper: Option<Helper>, device: seq<nat>, name: seq<nat>, clients: U32)

  datatype Lifecycle = Idle | Busy | Connected(connection: Connection) | Failed

  // ---- Calls that leave the driver ----

  /** Locks and unlocks say whether they belong to a capability query. */
  datatype Call =
    | CreateTree | UnlinkTree(tree: nat)
    | RetainHelper(raw: nat) | ReleaseHelper(reference: nat)
    | LockHelper(helper: Option<Helper>, query: bool) | UnlockHelper(helper: Option<Helper>, query: bool)
    | Query | Publish | Acquire

  /** Who left the driver, for what, in which state, and whether it came back with success. */
  datatype Event = Event(caller: nat, call: Call, during: Lifecycle, ok: bool)

  /** How a foreign call ends; `started` says a publisher had begun writing to the service. */
  datatype Reply = Reply(hr: Hresult, unwinds: bool, started: bool) {
    predicate Good() {
      hr == 0 && !unwinds
    }
  }

  // ---- The calls in progress ----

  /** What an admitted call must do next, with what its stack owns. */
  datatype Frame =
    | Building(device: seq<nat>, name: seq<nat>, raw: Option<nat>)
    | Retaining(device: seq<nat>, name: seq<nat>, tree: nat, pointer: nat)
    | Assembled(c: Connection)
    | Unbuilt
    | Serving(c: Connection, lock: bool)
    | Locking(c: Connection)
    | Querying(c: Connection)
    | Unlocking(c: Connection, answered: bool, unwinding: bool)
    | Publishing(c: Connection)
    | Acquiring(c: Connection)
    | Returning(c: Connection)
    | Unlinking(c: Connection, last: bool)
    | Releasing(reference: nat, next: Lifecycle)
    | Closed(next: Lifecycle)

  /** The foreign call a frame owes, if its next section is not the lifecycle mutex. */
  function Owes(f: Frame): Option<Call> {
    match f
    case Building(_, _, _) => Some(CreateTree)
    case Retaining(_, _, _, raw) => Some(RetainHelper(raw))
    case Serving(c, lock) => Some(if lock then LockHelper(c.helper, false) else UnlockHelper(c.helper, false))
    case Locking(c) => Some(LockHelper(c.helper, true))
    case Querying(_) => Some(Query)
    case Unlocking(c, _, _) => Some(UnlockHelper(c.helper, true))
    case Publishing(_) => Some(Publish)
    case Acquiring(_) => Some(Acquire)
    case Unlinking(c, _) => Some(UnlinkTree(c.tree))
    case Releasing(reference, _) => Some(ReleaseHelper(reference))
    case _ => None
  }

  /** The frame after the foreign call at place `at` of the trace came back. `None` is a panic while
      the tree is built: no guard runs, and the state stays Busy for good. */
  function After(f: Frame, r: Reply, at: nat): Option<Frame>
    requires Owes(f).Some?
  {
    match f
    case Building(device, name, raw) =>
      if r.unwinds then None
      else if r.hr != 0 then Some(Unbuilt)
      else if raw.Some? then Some(Retaining(device, name, at, raw.value))
      else Some(Assembled(Connection(at, None, device, name, 1)))
    case Retaining(device, name, tree, raw) =>
      Some(Assembled(Connection(tree, Some(Helper(raw, at)), device, name, 1)))
    case Serving(c, lock) =>
      Some(if !r.unwinds && (r.Good() || lock) then Returning(c) else Unlinking(c, false))
    case Locking(c) =>
      Some(if r.unwinds then Unlinking(c, false) else if r.Good() then Querying(c) else Returning(c))
    case Querying(c) => Some(Unlocking(c, r.Good(), r.unwinds))
    case Unlocking(c, answered, unwinding) =>
      Some(if unwinding || !r.Good() then Unlinking(c, false) else if answered then Publishing(c) else Returning(c))
    case Publishing(c) => Some(if r.unwinds || (r.hr != 0 && r.started) then Unlinking(c, false) else Returning(c))
    case Acquiring(c) => Some(if r.unwinds then Unlinking(c, false) else Returning(c))
    case Unlinking(c, last) =>
      var next := if last && r.Good() then Idle else Failed;
      Some(if c.helper.Some? then Releasing(c.helper.value.reference, next) else Closed(next))
    case Releasing(_, next) => Some(Closed(next))
  }

  /** The state a finished call leaves behind. */
  function Rest(f: Frame): Lifecycle
    requires Owes(f).None?
  {
    match f
    case Assembled(c) => Connected(c)
    case Unbuilt => Idle
    case Returning(c) => Connected(c)
    case Closed(next) => next
  }

  /** Why a call borrows the connection. */
  datatype Purpose = ServiceLock(lock: bool) | Capabilities | Acquisition

  /** Where a borrower starts. A missing helper fails a lock or unlock without leaving the driver. */
  function First(c: Connection, purpose: Purpose): Frame {
    match purpose
    case ServiceLock(lock) =>
      if c.helper.Some? then Serving(c, lock) else if lock then Returning(c) else Unlinking(c, false)
    case Capabilities => if c.helper.Some? then Locking(c) else Returning(c)
    case Acquisition => Acquiring(c)
  }

  // ---- All calls together ----

  /** `joined` and `left` count successful connects and disconnects since the present tree was built;
      `stuck` is set by a panic while a tree is built. */
  datatype World = World(
    state: Lifecycle, frames: map<nat, Frame>, trace: seq<Event>, joined: nat, left: nat, stuck: bool)

  const INITIAL := World(Idle, map[], [], 0, 0, false)

  datatype Section =
    | Connect(device: seq<nat>, name: seq<nat>, raw: Option<nat>) | Disconnect | Borrow(purpose: Purpose)
    | Return(reply: Reply) | Forgo | Settle

  datatype Act = Act(caller: nat, section: Section)

  predicate ValidName(words: seq<nat>) {
    words != [] && 0 !in words
  }

  /** Whether a connect joins the tree that is already there. */
  predicate Joins(c: Connection, device: seq<nat>, name: seq<nat>) {
    c.device == device && c.name == name && c.clients as int + 1 < U32_LIMIT
  }

  function Hold(w: World, caller: nat, f: Frame): World {
    w.(state := Busy, frames := w.frames[caller := f])
  }

  /** The first section of a call. A refused call changes nothing. */
  function Enter(w: World, caller: nat, section: Section): World {
    match section
    case Connect(device, name, raw) =>
      if !ValidName(device) || !ValidName(name) then w
      else if w.state.Idle? then Hold(w, caller, Building(device, name, raw))
      else if w.state.Connected? && Joins(w.state.connection, device, name) then
        var c := w.state.connection;
        w.(state := Connected(c.(clients := c.clients as int + 1)), joined := w.joined + 1)
      else w
    case Disconnect =>
      if !w.state.Connected? then w
      else
        var c := w.state.connection;
        if c.clients > 1 then w.(state := Connected(c.(clients := c.clients as int - 1)), left := w.left + 1)
        else Hold(w, caller, Unlinking(c, true)).(left := w.left + 1)
    case Borrow(purpose) =>
      if w.state.Connected? then Hold(w, caller, First(w.state.connection, purpose)) else w
    case _ => w
  }

  /** A later section of a call: its foreign call comes back, or it takes the mutex a last time and
      overwrites whatever state it finds there. */
  function Advance(w: World, caller: nat, f: Frame, section: Section): World {
    match section
    case Return(reply) =>
      if Owes(f).None? then w
      else
        var next := After(f, reply, |w.trace|);
        w.(trace := w.trace + [Event(caller, Owes(f).value, w.state, reply.Good())],
           frames := if next.Some? then w.frames[caller := next.value] else w.frames - {caller},
           stuck := w.stuck || next.None?)
    // An acquisition whose job is refused gives the connection back unused.
    case Forgo => if f.Acquiring? then w.(frames := w.frames[caller := Returning(f.c)]) else w
    case Settle =>
      if Owes(f).Some? then w
      else
        w.(state := Rest(f), frames := w.frames - {caller},
           joined := if f.Assembled? then 1 else w.joined, left := if f.Assembled? then 0 else w.left)
    case _ => w
  }

  function Next(w: World, a: Act): World {
    if a.caller in w.frames then Advance(w, a.caller, w.frames[a.caller], a.section)
    else Enter(w, a.caller, a.section)
  }

  function RunFrom(w: World, acts: seq<Act>): World {
    if acts == [] then w else Next(RunFrom(w, acts[..|acts| - 1]), acts[|acts| - 1])
  }

  function Run(acts: seq<Act>): World {
    RunFrom(INITIAL, acts)
  }

  // ---- Exclusion ----

  /** At most one call is inside, and the state is Busy exactly while one is, or for good after a panic
      in the tree's construction. */
  ghost predicate Exclusive(w: World) {
    && (forall c, d :: c in w.frames && d in w.frames ==> c == d)
    && (w.state.Busy? <==> w.frames != map[] || w.stuck)
    && (w.stuck ==> w.frames == map[])
    && (forall c :: c in w.frames && w.frames[c].Releasing? ==> !w.frames[c].next.Busy? && !w.frames[c].next.Connected?)
    && (forall c :: c in w.frames && w.frames[c].Closed? ==> !w.frames[c].next.Busy? && !w.frames[c].next.Connected?)
  }

  lemma ExclusiveNext(w: World, a: Act)
    requires Exclusive(w)
    ensures Exclusive(Next(w, a))
  {
    var v := Next(w, a);
    if a.caller in w.frames {
      assert w.frames - {a.caller} == map[];
      assert forall c :: c in v.frames ==> c == a.caller;
    } else if v.frames != w.frames {
      assert a.caller in v.frames;
    }
  }

  // ---- Clients ----

  /** The connection a borrower's frame is going to give back. */
  function Borrowed(f: Frame): Option<Connection> {
    match f
    case Serving(c, _) => Some(c)
    case Locking(c) => Some(c)
    case Querying(c) => Some(c)
    case Unlocking(c, _, _) => Some(c)
    case Publishing(c) => Some(c)
    case Acquiring(c) => Some(c)
    case Returning(c) => Some(c)
    case _ => None
  }

  predicate Balanced(w: World, c: Connection) {
    c.clients as int == w.joined - w.left >= 1
  }

  /** Wherever the connection is, its clients are the connects minus the disconnects. */
  ghost predicate Counted(w: World) {
    && (w.state.Connected? ==> Balanced(w, w.state.connection))
    && (forall c :: c in w.frames && Borrowed(w.frames[c]).Some? ==> Balanced(w, Borrowed(w.frames[c]).value))
    && (forall c :: c in w.frames && w.frames[c].Assembled? ==> w.frames[c].c.clients == 1)
  }

  lemma CountedNext(w: World, a: Act)
    requires Exclusive(w) && Counted(w)
    ensures Counted(Next(w, a))
  {
    if a.caller in w.frames {
      CountedAdvance(w, a);
    } else {
      CountedEnter(w, a);
    }
  }

  lemma CountedAdvance(w: World, a: Act)
    requires Exclusive(w) && Counted(w) && a.caller in w.frames
    ensures Counted(Next(w, a))
  {
    var v := Next(w, a);
    ExclusiveNext(w, a);
    assert forall c :: c in v.frames ==> c == a.caller;
  }

  lemma CountedEnter(w: World, a: Act)
    requires Exclusive(w) && Counted(w) && a.caller !in w.frames
    ensures Counted(Next(w, a))
  {
    hide Owes, After;
  }

  // ---- Helper references ----

  function Times(trace: seq<Event>, call: Call): nat {
    if trace == [] then 0
    else Times(trace[..|trace| - 1], call) + if trace[|trace| - 1].call == call then 1 else 0
  }

  lemma TimesMore(trace: seq<Event>, e: Event, call: Call)
    ensures Times(trace + [e], call) == Times(trace, call) + if e.call == call then 1 else 0
  {
    assert (trace + [e])[..|trace|] == trace;
  }

  predicate Retained(trace: seq<Event>, reference: nat) {
    reference < |trace| && trace[reference].call.RetainHelper?
  }

  function ReferenceOf(c: Connection): Option<nat> {
    if c.helper.Some? then Some(c.helper.value.reference) else None
  }

  /** The helper reference on a call's stack. */
  function Owned(f: Frame): Option<nat> {
    match f
    case Releasing(reference, _) => Some(reference)
    case Unlinking(c, _) => ReferenceOf(c)
    case Assembled(c) => ReferenceOf(c)
    case _ => if Borrowed(f).Some? then ReferenceOf(Borrowed(f).value) else None
  }

  ghost predicate Holds(w: World, reference: nat) {
    || (w.state.Connected? && ReferenceOf(w.state.connection) == Some(reference))
    || exists c :: c in w.frames && Owned(w.frames[c]) == Some(reference)
  }

  /** A reference is not yet retained, held in one place, or released once. */
  ghost predicate OneRelease(w: World, reference: nat) {
    && (Holds(w, reference) ==> Retained(w.trace, reference))
    && Times(w.trace, ReleaseHelper(reference)) == if Retained(w.trace, reference) && !Holds(w, reference) then 1 else 0
  }

  lemma Holding(w: World, caller: nat, reference: nat)
    requires Exclusive(w) && caller in w.frames
    ensures Holds(w, reference) <==> Owned(w.frames[caller]) == Some(reference)
  {
  }

  lemma HoldingAtRest(w: World, reference: nat)
    requires w.frames == map[]
    ensures Holds(w, reference) <==> w.state.Connected? && ReferenceOf(w.state.connection) == Some(reference)
  {
  }

  /** Who holds a reference after the next section. */
  ghost predicate HeldAfter(w: World, v: World, reference: nat)
    requires w.trace <= v.trace
  {
    if v.trace == w.trace then Holds(w, reference)
    else if v.trace[|w.trace|].call.RetainHelper? then reference == |w.trace|
    else Holds(w, reference) && !v.trace[|w.trace|].call.ReleaseHelper?
  }

  /** Entering and settling move the reference about without changing who could release it. */
  lemma HoldsNext(w: World, a: Act, reference: nat)
    requires Exclusive(w)
    ensures w.trace <= Next(w, a).trace
    ensures Holds(Next(w, a), reference) <==> HeldAfter(w, Next(w, a), reference)
  {
    if a.caller in w.frames {
      HoldsAdvance(w, a, reference);
    } else {
      HoldsEnter(w, a, reference);
    }
  }

  lemma HoldsAdvance(w: World, a: Act, reference: nat)
    requires Exclusive(w) && a.caller in w.frames
    ensures w.trace <= Next(w, a).trace
    ensures Holds(Next(w, a), reference) <==> HeldAfter(w, Next(w, a), reference)
  {
    hide Holds;
    var v := Next(w, a);
    ExclusiveNext(w, a);
    Holding(w, a.caller, reference);
    if a.caller in v.frames {
      hide Exclusive;
      Holding(v, a.caller, reference);
    } else {
      assert v.frames == map[];
      HoldingAtRest(v, reference);
    }
  }

  lemma HoldsEnter(w: World, a: Act, reference: nat)
    requires Exclusive(w) && a.caller !in w.frames
    ensures w.trace <= Next(w, a).trace
    ensures Holds(Next(w, a), reference) <==> HeldAfter(w, Next(w, a), reference)
  {
    hide Holds;
    var v := Next(w, a);
    if v != w {
      assert w.frames == map[];
      HoldingAtRest(w, reference);
      if a.caller in v.frames {
        ExclusiveNext(w, a);
        Holding(v, a.caller, reference);
      } else {
        HoldingAtRest(v, reference);
      }
    }
  }

  lemma OneReleaseNext(w: World, a: Act, reference: nat)
    requires Exclusive(w) && OneRelease(w, reference)
    ensures OneRelease(Next(w, a), reference)
  {
    HoldsNext(w, a, reference);
    hide Holds;
    var v := Next(w, a);
    if v.trace != w.trace {
      var e := v.trace[|w.trace|];
      assert v.trace == w.trace + [e];
      TimesMore(w.trace, e, ReleaseHelper(reference));
      if e.call.ReleaseHelper? {
        Holding(w, a.caller, reference);
      }
    }
  }

  // ---- The order of what leaves the driver ----

  /** Event `i` is this caller's `call`, successful if `ok`. */
  predicate Was(trace: seq<Event>, i: int, caller: nat, call: Call, ok: bool) {
    0 <= i < |trace| && trace[i].caller == caller && trace[i].call == call && (ok ==> trace[i].ok)
  }

  predicate LockOfQuery(e: Event) {
    e.call.LockHelper? && e.call.query && e.ok
  }

  /** The service lock around a query: lock, query, unlock, publish, one directly after the other. */
  predicate InOrder(trace: seq<Event>, i: nat)
    requires i < |trace|
  {
    var e := trace[i];
    && e.during.Busy?
    && (i > 0 && LockOfQuery(trace[i - 1]) ==> e.call.Query? && e.caller == trace[i - 1].caller)
    && (e.call.Query? ==> i > 0 && LockOfQuery(trace[i - 1]) && trace[i - 1].caller == e.caller)
    && (i > 0 && trace[i - 1].call.Query? ==> e.call.UnlockHelper? && e.call.query && e.caller == trace[i - 1].caller)
    && (e.call.UnlockHelper? && e.call.query ==>
          && Was(trace, i - 1, e.caller, Query, false)
          && Was(trace, i - 2, e.caller, LockHelper(e.call.helper, true), true))
    && (e.call.Publish? ==>
          && i > 0 && trace[i - 1].call.UnlockHelper? && trace[i - 1].call.query && trace[i - 1].ok
          && trace[i - 1].caller == e.caller && Was(trace, i - 2, e.caller, Query, true))
  }

  ghost predicate Ordered(trace: seq<Event>) {
    forall i :: 0 <= i < |trace| ==> InOrder(trace, i)
  }

  /** What the last events must have been for a call to be where it is. */
  predicate Follows(trace: seq<Event>, caller: nat, f: Frame) {
    var n := |trace|;
    match f
    case Querying(c) => Was(trace, n - 1, caller, LockHelper(c.helper, true), true)
    case Unlocking(c, answered, _) =>
      Was(trace, n - 1, caller, Query, answered) && Was(trace, n - 2, caller, LockHelper(c.helper, true), true)
    case Publishing(c) =>
      && Was(trace, n - 1, caller, UnlockHelper(c.helper, true), true)
      && Was(trace, n - 2, caller, Query, true) && Was(trace, n - 3, caller, LockHelper(c.helper, true), true)
    case _ => n > 0 ==> !LockOfQuery(trace[n - 1]) && !trace[n - 1].call.Query?
  }

  /** No call is between a lock and its unlock unless its frame says so. */
  ghost predicate Pending(w: World) {
    && (forall c :: c in w.frames ==> Follows(w.trace, c, w.frames[c]))
    && (w.frames == map[] && w.trace != [] ==>
          !LockOfQuery(w.trace[|w.trace| - 1]) && !w.trace[|w.trace| - 1].call.Query?)
  }

  lemma InOrderStays(trace: seq<Event>, e: Event, i: nat)
    requires i < |trace|
    ensures InOrder(trace + [e], i) == InOrder(trace, i)
  {
    var more := trace + [e];
    assert more[i] == trace[i];
    assert i > 0 ==> more[i - 1] == trace[i - 1];
    assert i > 1 ==> more[i - 2] == trace[i - 2];
  }

  /** A foreign call a frame owes is in order. */
  lemma OwedInOrder(trace: seq<Event>, caller: nat, f: Frame, ok: bool)
    requires Owes(f).Some? && Follows(trace, caller, f)
    ensures InOrder(trace + [Event(caller, Owes(f).value, Busy, ok)], |trace|)
  {
    var n, more := |trace|, trace + [Event(caller, Owes(f).value, Busy, ok)];
    assert n > 0 ==> more[n - 1] == trace[n - 1];
    assert n > 1 ==> more[n - 2] == trace[n - 2];
  }

  lemma FollowsAfter(trace: seq<Event>, caller: nat, f: Frame, r: Reply)
    requires Owes(f).Some? && Follows(trace, caller, f) && After(f, r, |trace|).Some?
    ensures Follows(trace + [Event(caller, Owes(f).value, Busy, r.Good())], caller, After(f, r, |trace|).value)
  {
    var n, more := |trace|, trace + [Event(caller, Owes(f).value, Busy, r.Good())];
    assert n > 0 ==> more[n - 1] == trace[n - 1];
    assert n > 1 ==> more[n - 2] == trace[n - 2];
  }

  lemma OrderedNext(w: World, a: Act)
    requires Exclusive(w) && Ordered(w.trace) && Pending(w)
    ensures Ordered(Next(w, a).trace)
  {
    hide InOrder, Follows;
    var v := Next(w, a);
    if v.trace != w.trace {
      var e := v.trace[|w.trace|];
      assert v.trace == w.trace + [e];
      forall i | 0 <= i < |v.trace|
        ensures InOrder(v.trace, i)
      {
        if i < |w.trace| {
          InOrderStays(w.trace, e, i);
        } else {
          OwedInOrder(w.trace, a.caller, w.frames[a.caller], e.ok);
        }
      }
    }
  }

  lemma PendingNext(w: World, a: Act)
    requires Exclusive(w) && Pending(w)
    ensures Pending(Next(w, a))
  {
    var v := Next(w, a);
    ExclusiveNext(w, a);
    if a.caller in w.frames && v.trace != w.trace {
      var f := w.frames[a.caller];
      if a.caller in v.frames {
        FollowsAfter(w.trace, a.caller, f, a.section.reply);
      }
      hide Follows;
      assert forall c :: c in v.frames ==> c == a.caller;
    } else if a.caller in v.frames {
      assert forall c :: c in v.frames ==> c == a.caller;
    } else if a.caller in w.frames {
      assert v.frames == map[];
    }
  }

  // ---- The helper is used only while its reference is held ----

  predicate UsesHelper(f: Frame) {
    f.Serving? || f.Locking? || f.Querying? || f.Unlocking?
  }

  /** Calls to the helper come only from connections that have one. */
  ghost predicate Equipped(w: World) {
    forall c :: c in w.frames && UsesHelper(w.frames[c]) ==> w.frames[c].c.helper.Some?
  }

  function HelperOf(call: Call): Option<Helper> {
    match call
    case LockHelper(helper, _) => helper
    case UnlockHelper(helper, _) => helper
    case _ => None
  }

  /** A lock or unlock at place `i` goes to a helper retained before and not yet released. */
  ghost predicate Alive(trace: seq<Event>, i: nat)
    requires i < |trace|
  {
    trace[i].call.LockHelper? || trace[i].call.UnlockHelper? ==>
      && HelperOf(trace[i].call).Some?
      && Retained(trace[..i], HelperOf(trace[i].call).value.reference)
      && Times(trace[..i], ReleaseHelper(HelperOf(trace[i].call).value.reference)) == 0
  }

  ghost predicate AllAlive(trace: seq<Event>) {
    forall i :: 0 <= i < |trace| ==> Alive(trace, i)
  }

  lemma EquippedNext(w: World, a: Act)
    requires Exclusive(w) && Equipped(w)
    ensures Equipped(Next(w, a))
  {
  }

  lemma AllAliveNext(w: World, a: Act)
    requires Exclusive(w) && Equipped(w) && AllAlive(w.trace) && forall reference: nat :: OneRelease(w, reference)
    ensures AllAlive(Next(w, a).trace)
  {
    hide Times, Holds;
    var v := Next(w, a);
    if v.trace != w.trace {
      var n, e, f := |w.trace|, v.trace[|w.trace|], w.frames[a.caller];
      assert v.trace[..n] == w.trace;
      forall i | 0 <= i < n
        ensures Alive(v.trace, i)
      {
        assert Alive(w.trace, i);
        assert v.trace[..i] == w.trace[..i];
      }
      if HelperOf(e.call).Some? {
        var reference := HelperOf(e.call).value.reference;
        assert OneRelease(w, reference);
        Holding(w, a.caller, reference);
      }
    }
  }

  // ---- The invariant ----

  ghost predicate Inv(w: World) {
    && Exclusive(w) && Counted(w) && Ordered(w.trace) && Pending(w) && Equipped(w) && AllAlive(w.trace)
    && forall reference: nat :: OneRelease(w, reference)
  }

  lemma InvNext(w: World, a: Act)
    requires Inv(w)
    ensures Inv(Next(w, a))
  {
    hide Exclusive, Counted, Ordered, Pending, Equipped, AllAlive, OneRelease, Next;
    ExclusiveNext(w, a);
    CountedNext(w, a);
    OrderedNext(w, a);
    PendingNext(w, a);
    EquippedNext(w, a);
    AllAliveNext(w, a);
    forall reference: nat
      ensures OneRelease(Next(w, a), reference)
    {
      OneReleaseNext(w, a, reference);
    }
  }

  lemma {:induction false} InvRunFrom(w: World, acts: seq<Act>)
    requires Inv(w)
    ensures Inv(RunFrom(w, acts))
  {
    hide Inv, Next;
    if acts != [] {
      InvRunFrom(w, acts[..|acts| - 1]);
      InvNext(RunFrom(w, acts[..|acts| - 1]), acts[|acts| - 1]);
    }
  }

  lemma InitialIsSafe()
    ensures Inv(INITIAL)
  {
  }

  lemma RunIsSafe(acts: seq<Act>)
    ensures Inv(Run(acts))
  {
    InitialIsSafe();
    InvRunFrom(INITIAL, acts);
  }

  // ---- What holds in every run ----

  /** Everything that leaves the driver leaves it while it is Busy, and a lock or unlock goes to a helper
      whose reference is held. */
  lemma CallsOutWhileBusy(acts: seq<Act>, i: nat)
    requires i < |Run(acts).trace|
    ensures Run(acts).trace[i].during.Busy? && Alive(Run(acts).trace, i)
  {
    RunIsSafe(acts);
    assert InOrder(Run(acts).trace, i);
  }

  /** Nothing is published but directly after a lock, a query and an unlock of the same call that all
      succeeded. */
  lemma PublishFollowsQueryAndUnlock(acts: seq<Act>, i: nat)
    requires i < |Run(acts).trace| && Run(acts).trace[i].call.Publish?
    ensures i >= 3
    ensures var trace, caller := Run(acts).trace, Run(acts).trace[i].caller;
            exists helper ::
              && Was(trace, i - 3, caller, LockHelper(helper, true), true) && Was(trace, i - 2, caller, Query, true)
              && Was(trace, i - 1, caller, UnlockHelper(helper, true), true)
  {
    RunIsSafe(acts);
    var trace := Run(acts).trace;
    assert InOrder(trace, i);
    assert InOrder(trace, i - 1);
    var helper := trace[i - 1].call.helper;
    assert Was(trace, i - 1, trace[i].caller, UnlockHelper(helper, true), true);
  }

  /** Each successful lock of a query is followed by the query and by exactly one unlock of the same helper,
      with nothing in between, unless the run stops there with the call still inside; and each unlock
      of a query has its lock. */
  lemma OneUnlockPerLock(acts: seq<Act>, i: nat)
    requires i < |Run(acts).trace|
    ensures var w := Run(acts); var trace, e := w.trace, w.trace[i];
            LockOfQuery(e) ==>
              && (i + 1 < |trace| ==> trace[i + 1].call == Query && trace[i + 1].caller == e.caller)
              && (i + 2 < |trace| ==>
                    trace[i + 2].call == UnlockHelper(e.call.helper, true) && trace[i + 2].caller == e.caller)
              && (i + 2 >= |trace| ==> w.frames != map[])
    ensures var trace, e := Run(acts).trace, Run(acts).trace[i];
            e.call.UnlockHelper? && e.call.query ==> Was(trace, i - 2, e.caller, LockHelper(e.call.helper, true), true)
  {
    RunIsSafe(acts);
    var trace := Run(acts).trace;
    assert InOrder(trace, i);
    if i + 1 < |trace| {
      assert InOrder(trace, i + 1);
    }
    if i + 2 < |trace| {
      assert InOrder(trace, i + 2);
    }
  }

  /** While the tree is connected its clients are the connects minus the disconnects since it was built. */
  lemma ClientsAreConnectsMinusDisconnects(acts: seq<Act>)
    requires Run(acts).state.Connected?
    ensures Run(acts).state.connection.clients as int == Run(acts).joined - Run(acts).left >= 1
  {
    RunIsSafe(acts);
  }

  /** A retained helper is released at most once, and it has been once nobody holds it any more. */
  lemma HelperReleasedOnce(acts: seq<Act>, reference: nat)
    ensures var w := Run(acts);
            && Times(w.trace, ReleaseHelper(reference)) <= 1
            && (Times(w.trace, ReleaseHelper(reference)) == 1 <==> Retained(w.trace, reference) && !Holds(w, reference))
            && (w.frames == map[] && !w.state.Connected? ==> !Holds(w, reference))
  {
    hide Times;
    RunIsSafe(acts);
    assert OneRelease(Run(acts), reference);
  }

  /** One call at most has the connection, and the state says so to everyone else. */
  lemma OneBorrower(acts: seq<Act>)
    ensures var w := Run(acts);
            && (forall c, d :: c in w.frames && d in w.frames ==> c == d)
            && (w.state.Busy? <==> w.frames != map[] || w.stuck)
  {
    RunIsSafe(acts);
  }

  /** While a call is inside, whatever any other call does, on another thread or re-entered from the foreign
      call it is making, changes nothing and leaves the driver by no call of its own. */
  lemma {:induction false} OthersAreShutOut(w: World, me: nat, acts: seq<Act>)
    requires Exclusive(w) && me in w.frames
    requires forall i :: 0 <= i < |acts| ==> acts[i].caller != me
    ensures RunFrom(w, acts) == w
  {
    if acts != [] {
      OthersAreShutOut(w, me, acts[..|acts| - 1]);
    }
  }

  /** A failed object stays failed and calls nothing any more; so does one left Busy by a panic. */
  lemma {:induction false} FailedIsForever(w: World, more: seq<Act>)
    requires Exclusive(w) && (w.state.Failed? || w.stuck)
    ensures RunFrom(w, more) == w
  {
    if more != [] {
      FailedIsForever(w, more[..|more| - 1]);
    }
  }
}

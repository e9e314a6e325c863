/** Exclusive ownership of one resource across threads, re-entrant callbacks and panics
    (src/com_server/session.rs). A run is any interleaving of the atomic sections of any number
    of calls; caller code and destructors run between sections, never inside one. */
module SessionSlot {
  import opened Basics

  datatype Connection<+T> = Unlocked | Opening | Closing | Locked(resource: T) | InUse | Quarantined

  datatype AccessError = SlotBusy | NotLocked | SlotQuarantined | OpenFailed(error: IoError)

  // ---- All calls together ----

  /** How far an admitted call has got, and which resource its stack owns. */
  datatype Frame =
    | Acquiring | Acquired(resource: nat) | RollingBack
    | Dropping(resource: nat) | DropReturned | DropPanicked
    | Leased(resource: nat) | Discarding(resource: nat)

  /** Resources are numbered in the order they were opened; `drops` counts destructor runs. */
  datatype World = World(connection: Connection<nat>, frames: map<nat, Frame>, acquired: nat, drops: multiset<nat>)

  const INITIAL := World(Unlocked, map[], 0, multiset{})

  datatype Section =
    | CallOpen | Opened | OpenFailure | PublishOpened | RollBack
    | CallUnlock | DropReturns | DropPanics | PublishUnlocked | QuarantineAfterPanic
    | CallWithSession | KeepSession | AbandonSession | Discard

  datatype Act = Act(caller: nat, section: Section)

  function Enter(w: World, caller: nat, connection: Connection<nat>, frame: Frame): World {
    w.(connection := connection, frames := w.frames[caller := frame])
  }

  function Leave(w: World, caller: nat, connection: Connection<nat>): World {
    w.(connection := connection, frames := w.frames - {caller})
  }

  /** One atomic section. A refused call, or a section its caller has not reached, changes nothing;
      a guard overwrites whatever state it finds. */
  function Next(w: World, a: Act): World {
    var c := a.caller;
    if c !in w.frames then
      match (a.section, w.connection)
      case (CallOpen, Unlocked) => Enter(w, c, Opening, Acquiring)
      case (CallUnlock, Locked(r)) => Enter(w, c, Closing, Dropping(r))
      case (CallWithSession, Locked(r)) => Enter(w, c, InUse, Leased(r))
      case _ => w
    else
      match (a.section, w.frames[c])
      case (Opened, Acquiring) => Enter(w, c, w.connection, Acquired(w.acquired)).(acquired := w.acquired + 1)
      case (OpenFailure, Acquiring) => Enter(w, c, w.connection, RollingBack)
      case (PublishOpened, Acquired(r)) => Leave(w, c, Locked(r))
      case (RollBack, RollingBack) => Leave(w, c, Unlocked)
      case (DropReturns, Dropping(r)) => Enter(w, c, w.connection, DropReturned).(drops := w.drops + multiset{r})
      case (DropPanics, Dropping(r)) => Enter(w, c, w.connection, DropPanicked).(drops := w.drops + multiset{r})
      case (PublishUnlocked, DropReturned) => Leave(w, c, Unlocked)
      case (QuarantineAfterPanic, DropPanicked) => Leave(w, c, Quarantined)
      case (KeepSession, Leased(r)) => Leave(w, c, Locked(r))
      case (AbandonSession, Leased(r)) => Enter(w, c, Quarantined, Discarding(r))
      case (Discard, Discarding(r)) => Leave(w, c, w.connection).(drops := w.drops + multiset{r})
      case _ => w
  }

  function RunFrom(w: World, acts: seq<Act>): World {
    if acts == [] then w else Next(RunFrom(w, acts[..|acts| - 1]), acts[|acts| - 1])
  }

  function Run(acts: seq<Act>): World {
    RunFrom(INITIAL, acts)
  }

  // ---- The invariant ----

  /** The frame a call in the given transition may be in. */
  predicate Suits(frame: Frame, connection: Connection<nat>) {
    match connection
    case Opening => frame.Acquiring? || frame.Acquired? || frame.RollingBack?
    case Closing => frame.Dropping? || frame.DropReturned? || frame.DropPanicked?
    case InUse => frame.Leased?
    case Quarantined => frame.Discarding?
    case _ => false
  }

  function Owned(frame: Frame): Option<nat> {
    match frame
    case Acquired(r) => Some(r)
    case Dropping(r) => Some(r)
    case Leased(r) => Some(r)
    case Discarding(r) => Some(r)
    case _ => None
  }

  ghost predicate Holds(w: World, r: nat) {
    w.connection == Locked(r) || exists c :: c in w.frames && Owned(w.frames[c]) == Some(r)
  }

  ghost predicate Inv(w: World) {
    && (forall c :: c in w.frames ==> Suits(w.frames[c], w.connection))
    && (forall c, d :: c in w.frames && d in w.frames ==> c == d)
    && (w.connection in {Opening, Closing, InUse} ==> w.frames != map[])
    && (forall r: nat :: Holds(w, r) ==> r < w.acquired)
    && (forall r: nat, s: nat :: Holds(w, r) && Holds(w, s) ==> r == s)
    && (forall r: nat :: w.drops[r] == if r < w.acquired && !Holds(w, r) then 1 else 0)
  }

  /** Who holds what after a section: the new resource, nothing, or the same as before. */
  lemma HoldsNext(w: World, a: Act, r: nat)
    requires Inv(w)
    ensures var v := Next(w, a);
            Holds(v, r) <==> if v.acquired > w.acquired then r == w.acquired
                             else v.drops == w.drops && Holds(w, r)
  {
    var v, c := Next(w, a), a.caller;
    if c in w.frames {
      assert forall d :: d in v.frames ==> d == c;
      assert Holds(w, r) <==> w.connection == Locked(r) || Owned(w.frames[c]) == Some(r);
      assert Holds(v, r) <==> v.connection == Locked(r) || (c in v.frames && Owned(v.frames[c]) == Some(r));
      if Owned(w.frames[c]).Some? {
        var q := Owned(w.frames[c]).value;
        assert Holds(w, q) && (w.drops + multiset{q})[q] == 1;
      }
    } else if v != w {
      assert w.frames == map[] && v.frames.Keys == {c};
      assert Holds(v, r) <==> Owned(v.frames[c]) == Some(r);
    }
  }

  /** A section runs at most one destructor, of a resource still held, and never while opening one. */
  lemma DropsNext(w: World, a: Act)
    requires Inv(w)
    ensures var v := Next(w, a);
            && (v.drops == w.drops
                || (v.acquired == w.acquired && exists q: nat :: Holds(w, q) && v.drops == w.drops + multiset{q}))
            && (v.acquired == w.acquired || (v.acquired == w.acquired + 1 && forall q: nat :: !Holds(w, q)))
  {
    if a.caller in w.frames && Owned(w.frames[a.caller]).Some? {
      assert Holds(w, Owned(w.frames[a.caller]).value);
    }
  }

  lemma InvNext(w: World, a: Act)
    requires Inv(w)
    ensures Inv(Next(w, a))
  {
    hide Holds, Next, Suits;
    var v := Next(w, a);
    DropsNext(w, a);
    forall r: nat
      ensures Holds(v, r) <==> if v.acquired > w.acquired then r == w.acquired
                               else v.drops == w.drops && Holds(w, r)
    {
      HoldsNext(w, a, r);
    }
    DropsStayExact(w, v);
    FramesNext(w, a);
  }

  lemma FramesNext(w: World, a: Act)
    requires Inv(w)
    ensures var v := Next(w, a);
            && (forall c :: c in v.frames ==> Suits(v.frames[c], v.connection))
            && (forall c, d :: c in v.frames && d in v.frames ==> c == d)
            && (v.connection in {Opening, Closing, InUse} ==> v.frames != map[])
  {
    hide Holds;
  }

  lemma DropsStayExact(w: World, v: World)
    requires Inv(w)
    requires forall r: nat :: Holds(v, r) <==> if v.acquired > w.acquired then r == w.acquired
                                               else v.drops == w.drops && Holds(w, r)
    requires v.drops == w.drops
             || (v.acquired == w.acquired && exists q: nat :: Holds(w, q) && v.drops == w.drops + multiset{q})
    requires v.acquired == w.acquired || (v.acquired == w.acquired + 1 && forall q: nat :: !Holds(w, q))
    ensures forall r: nat :: v.drops[r] == if r < v.acquired && !Holds(v, r) then 1 else 0
  {
    hide Holds;
    if v.drops != w.drops {
      var q: nat :| Holds(w, q) && v.drops == w.drops + multiset{q};
      assert w.drops[q] == 0;
    }
  }

  lemma {:induction false} InvRunFrom(w: World, acts: seq<Act>)
    requires Inv(w)
    ensures Inv(RunFrom(w, acts))
  {
    if acts != [] {
      InvRunFrom(w, acts[..|acts| - 1]);
      InvNext(RunFrom(w, acts[..|acts| - 1]), acts[|acts| - 1]);
    }
  }

  lemma RunIsSafe(acts: seq<Act>)
    ensures Inv(Run(acts))
  {
    InvRunFrom(INITIAL, acts);
  }

  // ---- What holds in every run ----

  /** At most one resource is alive, a live one has an owner, and none is destroyed twice. */
  lemma OneAliveEachDroppedOnce(acts: seq<Act>, r: nat, s: nat)
    requires r < Run(acts).acquired && s < Run(acts).acquired
    ensures var w := Run(acts);
            && w.drops[r] <= 1 && (w.drops[r] == 0 <==> Holds(w, r))
            && (w.drops[r] == 0 && w.drops[s] == 0 ==> r == s)
  {
    hide Holds;
    RunIsSafe(acts);
  }

  /** A transition always has exactly one call responsible for ending it; otherwise the slot is
      at rest, and at rest unlocked nothing is alive. */
  lemma OneResponsibleCall(acts: seq<Act>)
    ensures var w := Run(acts);
            && (w.connection in {Opening, Closing, InUse} ==>
                  exists c :: w.frames.Keys == {c} && Suits(w.frames[c], w.connection))
            && (w.connection.Unlocked? || w.connection.Locked? ==> w.frames == map[])
            && (w.connection.Unlocked? ==> forall r: nat :: r < w.acquired ==> w.drops[r] == 1)
  {
    RunIsSafe(acts);
    var w := Run(acts);
    if w.frames != map[] {
      var c :| c in w.frames;
      assert w.frames.Keys == {c};
    }
  }

  lemma RunOn(w: World, acts: seq<Act>, a: Act)
    ensures RunFrom(w, acts + [a]) == Next(RunFrom(w, acts), a)
  {
    assert (acts + [a])[..|acts|] == acts;
  }

  /** No resource is acquired before every earlier one has been destroyed. */
  lemma ReopenedOnlyAfterDrop(acts: seq<Act>, a: Act, r: nat)
    requires Run(acts + [a]).acquired > Run(acts).acquired && r < Run(acts).acquired
    ensures Run(acts).drops[r] == 1
  {
    RunIsSafe(acts);
    RunOn(INITIAL, acts, a);
    DropsNext(Run(acts), a);
  }

  lemma QuarantineStays(w: World, a: Act)
    requires Inv(w) && w.connection.Quarantined?
    ensures Next(w, a).connection.Quarantined? && Next(w, a).acquired == w.acquired
  {
  }

  /** Quarantine is final: nothing is opened, lent or locked again, whatever anyone calls. */
  lemma {:induction false} QuarantineIsForever(w: World, more: seq<Act>)
    requires Inv(w) && w.connection.Quarantined?
    ensures RunFrom(w, more).connection.Quarantined? && RunFrom(w, more).acquired == w.acquired
  {
    if more != [] {
      var n := |more| - 1;
      hide Inv, Next;
      QuarantineIsForever(w, more[..n]);
      InvRunFrom(w, more[..n]);
      QuarantineStays(RunFrom(w, more[..n]), more[n]);
    }
  }

  /** While a call is between its sections, no section of any other call, on another thread or
      re-entered from its own callback, changes anything. */
  lemma {:induction false} OthersAreShutOut(w: World, me: nat, acts: seq<Act>)
    requires Inv(w) && me in w.frames
    requires forall i :: 0 <= i < |acts| ==> acts[i].caller != me
    ensures RunFrom(w, acts) == w
  {
    if acts != [] {
      OthersAreShutOut(w, me, acts[..|acts| - 1]);
    }
  }

  // ---- The slot itself ----

  lemma AtRest(w: World)
    requires Inv(w) && (w.connection.Unlocked? || w.connection.Locked?)
    ensures w.frames == map[]
  {
  }

  /** The sections of one unlock, from rest to rest. */
  lemma UnlockSections(w: World, me: nat)
    requires Inv(w) && w.connection.Locked?
    ensures var r := w.connection.resource;
            var left, after := map[me := Dropping(r)], w.drops + multiset{r};
            && Next(w, Act(me, CallUnlock)) == World(Closing, left, w.acquired, w.drops)
            && Next(World(Closing, left, w.acquired, w.drops), Act(me, DropReturns))
               == World(Closing, map[me := DropReturned], w.acquired, after)
            && Next(World(Closing, left, w.acquired, w.drops), Act(me, DropPanics))
               == World(Closing, map[me := DropPanicked], w.acquired, after)
            && Next(World(Closing, map[me := DropReturned], w.acquired, after), Act(me, PublishUnlocked))
               == World(Unlocked, map[], w.acquired, after)
            && Next(World(Closing, map[me := DropPanicked], w.acquired, after), Act(me, QuarantineAfterPanic))
               == World(Quarantined, map[], w.acquired, after)
  {
    hide Inv;
    AtRest(w);
  }

  /** The sections of one session, from rest to rest. */
  lemma SessionSections(w: World, me: nat)
    requires Inv(w) && w.connection.Locked?
    ensures var r := w.connection.resource;
            var lent := World(InUse, map[me := Leased(r)], w.acquired, w.drops);
            var lost := World(Quarantined, map[me := Discarding(r)], w.acquired, w.drops);
            && Next(w, Act(me, CallWithSession)) == lent
            && Next(lent, Act(me, KeepSession)) == w
            && Next(lent, Act(me, AbandonSession)) == lost
            && Next(lost, Act(me, Discard)) == World(Quarantined, map[], w.acquired, w.drops + multiset{r})
  {
    hide Inv;
    AtRest(w);
  }

  datatype Access = Done | Refused(error: AccessError) | Unwinding

  datatype Operation = Finished(reusable: bool) | Panicked

  /** The mutex-held state, with the bookkeeping of everyone's calls beside it. */
  class Slot {
    var state: Connection<nat>
    var serial: nat
    ghost var world: World

    ghost predicate Valid()
      reads this
    {
      Inv(world) && state == world.connection && serial == world.acquired
    }

    constructor ()
      ensures Valid() && world == INITIAL
    {
      state, serial, world := Unlocked, 0, INITIAL;
    }

    /** Why this call may not enter; a refused call changes nothing. */
    function Refusal(): Option<AccessError>
      reads this
    {
      match state
      case Unlocked => Some(NotLocked)
      case Quarantined => Some(SlotQuarantined)
      case Locked(_) => None
      case _ => Some(SlotBusy)
    }

    ghost method Take(a: Act)
      requires Inv(world)
      modifies this`world
      ensures Inv(world) && world == Next(old(world), a)
    {
      InvNext(world, a);
      world := Next(world, a);
    }

    /** Anything other calls may do while this one runs code outside the mutex. */
    ghost method OutsideMutex(me: nat)
      requires Inv(world) && me in world.frames
      modifies this`world
      ensures world == old(world)
    {
      var acts: seq<Act> := *;
      if forall i :: 0 <= i < |acts| ==> acts[i].caller != me {
        OthersAreShutOut(world, me, acts);
        world := RunFrom(world, acts);
      }
    }

    method Open(ghost me: nat, acquisition: Result<(), IoError>, panics: bool) returns (r: Access)
      requires Valid() && me !in world.frames
      modifies this
      ensures Valid()
      ensures !old(state).Unlocked? ==> r == Refused(if old(state).Quarantined? then SlotQuarantined else SlotBusy)
                                        && world == old(world)
      ensures old(state).Unlocked? ==>
                && r == (if panics then Unwinding
                         else if acquisition.Err? then Refused(OpenFailed(acquisition.error)) else Done)
                && world == old(world).(connection := if r.Done? then Locked(old(serial)) else Unlocked,
                                        acquired := old(serial) + if r.Done? then 1 else 0)
    {
      hide Inv;
      if state.Quarantined? {
        return Refused(SlotQuarantined);
      }
      if !state.Unlocked? {
        return Refused(SlotBusy);
      }
      AtRest(world);
      state := Opening;
      Take(Act(me, CallOpen));
      OutsideMutex(me);
      if panics || acquisition.Err? {
        // The transition guard restores the unlocked state, unwinding or not.
        Take(Act(me, OpenFailure));
        state := Unlocked;
        Take(Act(me, RollBack));
        return if panics then Unwinding else Refused(OpenFailed(acquisition.error));
      }
      Take(Act(me, Opened));
      state, serial := Locked(serial), serial + 1;
      Take(Act(me, PublishOpened));
      r := Done;
    }

    /** The destructor of the resource may panic; the guard then quarantines the slot. */
    method Unlock(ghost me: nat, panics: bool) returns (r: Access)
      requires Valid() && me !in world.frames
      modifies this
      ensures Valid()
      ensures !old(state).Locked? ==> old(Refusal()).Some? && r == Refused(old(Refusal()).value) && world == old(world)
      ensures old(state).Locked? ==>
                && r == (if panics then Unwinding else Done)
                && world == old(world).(connection := if panics then Quarantined else Unlocked,
                                        drops := old(world).drops + multiset{old(state).resource})
    {
      hide Inv, Next;
      if Refusal().Some? {
        return Refused(Refusal().value);
      }
      AtRest(world);
      UnlockSections(world, me);
      state := Closing;
      Take(Act(me, CallUnlock));
      OutsideMutex(me);
      if panics {
        Take(Act(me, DropPanics));
        state := Quarantined;
        Take(Act(me, QuarantineAfterPanic));
        return Unwinding;
      }
      Take(Act(me, DropReturns));
      state := Unlocked;
      Take(Act(me, PublishUnlocked));
      r := Done;
    }

    /** Only an operation that returns and calls the resource reusable gives it back. */
    method WithSession(ghost me: nat, operation: Operation) returns (r: Access)
      requires Valid() && me !in world.frames
      modifies this
      ensures Valid()
      ensures !old(state).Locked? ==> old(Refusal()).Some? && r == Refused(old(Refusal()).value) && world == old(world)
      ensures old(state).Locked? ==>
                && r == (if operation.Panicked? then Unwinding else Done)
                && world == if operation == Finished(true) then old(world)
                            else old(world).(connection := Quarantined,
                                             drops := old(world).drops + multiset{old(state).resource})
    {
      hide Inv, Next;
      if Refusal().Some? {
        return Refused(Refusal().value);
      }
      AtRest(world);
      SessionSections(world, me);
      var resource := state.resource;
      state := InUse;
      Take(Act(me, CallWithSession));
      OutsideMutex(me);
      if operation == Finished(true) {
        state := Locked(resource);
        Take(Act(me, KeepSession));
        return Done;
      }
      // Quarantine first; the resource is destroyed after the mutex is free again.
      state := Quarantined;
      Take(Act(me, AbandonSession));
      OutsideMutex(me);
      Take(Act(me, Discard));
      r := if operation.Panicked? then Unwinding else Done;
    }
  }
}

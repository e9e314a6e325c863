/** The minidriver's entry points, section by section, in the source's order
    (src/com_server/minidrv.rs, src/com_server/minidrv/locking.rs). */
module Lifecycle {
  import opened Basics
  import opened Geometry
  import opened Lending

  const ERROR_BUSY: Hresult := 0x8021_0006 - 0x1_0000_0000

  /** How a query or a publisher ends. */
  datatype Ending = Succeeds | Fails(hr: Hresult) | Unwinds

  function ReplyOf(ending: Ending, started: bool): Reply {
    Reply(if ending.Succeeds? then 0 else -1, ending.Unwinds?, started)
  }

  datatype Connecting = Joined | Refused(hr: Hresult) | Unwound

  function Helpers(c: Connection): nat {
    if c.helper.Some? then 1 else 0
  }

  class Interface {
    var state: Lifecycle
    /** Foreign calls made so far; the place of the next one names what it creates. */
    var calls: nat
    /** Everyone's calls. */
    ghost var world: World

    ghost predicate Valid()
      reads this
    {
      Inv(world) && state == world.state && calls == |world.trace|
    }

    /** This call is inside, at `f`. */
    ghost predicate Inside(me: nat, f: Frame)
      reads this
    {
      Valid() && me in world.frames && world.frames[me] == f
    }

    constructor ()
      ensures Valid() && world == INITIAL
    {
      state, calls, world := Idle, 0, INITIAL;
      new;
      InitialIsSafe();
    }

    ghost method Step(a: Act)
      requires Inv(world)
      modifies this`world
      ensures Inv(world) && world == Next(old(world), a)
    {
      InvNext(world, a);
      world := Next(world, a);
    }

    /** Every other call, on any thread or re-entered from the foreign call being made: all are refused. */
    ghost method Others(me: nat)
      requires Inv(world) && me in world.frames
      modifies this`world
      ensures world == old(world)
    {
      var acts: seq<Act> := *;
      if forall i :: 0 <= i < |acts| ==> acts[i].caller != me {
        OthersAreShutOut(world, me, acts);
        world := RunFrom(world, acts);
      }
    }

    /** The foreign call this call owes, with anything anyone does meanwhile. */
    method Foreign(ghost me: nat, ghost f: Frame, reply: Reply)
      requires Inside(me, f) && Owes(f).Some?
      modifies this`calls, this`world
      ensures Valid() && calls == old(calls) + 1
      ensures world.trace == old(world.trace) + [Event(me, Owes(f).value, Busy, reply.Good())]
      ensures world.joined == old(world.joined) && world.left == old(world.left)
      ensures After(f, reply, old(calls)).Some? ==> Inside(me, After(f, reply, old(calls)).value)
      ensures After(f, reply, old(calls)).None? ==> world.frames == map[] && world.stuck
    {
      hide Inv, Owes, After;
      InsideIsBusy(world, me);
      Others(me);
      Step(Act(me, Return(reply)));
      calls := calls + 1;
      if After(f, reply, calls - 1).Some? {
        Others(me);
      }
    }

    /** The last section of a call. */
    method Settle(ghost me: nat, ghost f: Frame, next: Lifecycle)
      requires Inside(me, f) && Owes(f).None? && next == Rest(f)
      modifies this`state, this`world
      ensures Valid() && world.frames == map[] && state == next && world.trace == old(world.trace)
      ensures world.joined == (if f.Assembled? then 1 else old(world.joined))
      ensures world.left == (if f.Assembled? then 0 else old(world.left))
    {
      hide Inv, Owes, Rest;
      InsideIsBusy(world, me);
      Step(Act(me, Section.Settle));
      state := next;
    }

    /** Dropping a connection: the tree first, then the helper, then the state; Busy all the while. */
    method Close(ghost me: nat, c: Connection, last: bool) returns (hr: Hresult)
      requires Inside(me, Unlinking(c, last))
      modifies this
      ensures Valid() && world.frames == map[] && world.joined == old(world.joined) && world.left == old(world.left)
      ensures state == if last && hr == 0 then Idle else Failed
      ensures |world.trace| == |old(world.trace)| + 1 + Helpers(c) && old(world.trace) <= world.trace
      ensures world.trace[|old(world.trace)|] == Event(me, UnlinkTree(c.tree), Busy, hr == 0)
      ensures c.helper.Some? ==>
                world.trace[|old(world.trace)| + 1].call == ReleaseHelper(c.helper.value.reference)
      ensures forall i :: |old(world.trace)| <= i < |world.trace| ==> world.trace[i].caller == me
    {
      hide Inv;
      hr := *;
      Foreign(me, Unlinking(c, last), Reply(hr, false, false));
      var next := if last && hr == 0 then Idle else Failed;
      if c.helper.Some? {
        Foreign(me, Releasing(c.helper.value.reference, next), Reply(0, false, false));
      }
      Settle(me, Closed(next), next);
    }

    // ---- Connecting and disconnecting ----

    /** A panic while the tree is built leaves the object Busy: nothing rolls that back. */
    method InitializeTree(ghost me: nat, device: seq<nat>, name: seq<nat>, raw: Option<nat>, panics: bool)
      returns (r: Connecting)
      requires Valid() && me !in world.frames
      modifies this
      ensures Valid() && world.frames == old(world.frames)
      ensures !old(state).Idle? && !old(state).Connected? ==> !r.Joined? && state == old(state) && world == old(world)
      ensures !old(state).Idle? ==> world.trace == old(world.trace) && world.frames == old(world.frames)
      // Who joins, and what everyone else is told.
      ensures old(state).Connected? ==>
                (r.Joined? <==>
                   ValidName(device) && ValidName(name) && Joins(old(state).connection, device, name))
      ensures old(state).Idle? && ValidName(device) && ValidName(name) ==> Built(r, old(world.trace), world.trace, me)
      ensures old(state).Idle? && !(ValidName(device) && ValidName(name)) ==> world == old(world)
      ensures !ValidName(device) || !ValidName(name) ==> r == Refused(E_INVALIDARG)
      ensures !old(state).Idle? && ValidName(device) && ValidName(name) && !r.Joined? ==>
                r == Refused(match old(state)
                             case Connected(c) => if c.device == device && c.name == name then E_UNEXPECTED
                                                  else E_INVALIDARG
                             case Busy => ERROR_BUSY
                             case _ => E_UNEXPECTED)
      ensures old(state).Connected? ==>
                && state.Connected? && state.connection == old(state).connection.(clients := state.connection.clients)
                && state.connection.clients as int == old(state).connection.clients as int + if r.Joined? then 1 else 0
      ensures old(state).Idle? && r.Joined? ==>
                && state.Connected? && state.connection.device == device && state.connection.name == name
                && state.connection.clients == 1 && state.connection.helper.Some? == raw.Some?
                && (raw.Some? ==> state.connection.helper.value.raw == raw.value)
      ensures old(state).Idle? && !r.Joined? ==> state == if r.Unwound? then Busy else Idle
      ensures r.Joined? ==> ValidName(device) && ValidName(name) && world.joined - world.left >= 1
      ensures world.joined - world.left
              == if !r.Joined? then old(world.joined - world.left)
                 else if old(state).Idle? then 1
                 else old(world.joined - world.left) + 1
    {
      hide Inv;
      Rested(world);
      if !ValidName(device) || !ValidName(name) {
        return Refused(E_INVALIDARG);
      }
      Step(Act(me, Section.Connect(device, name, raw)));
      match state {
        case Connected(c) =>
          if c.device != device || c.name != name {
            return Refused(E_INVALIDARG);
          }
          if c.clients as int + 1 >= U32_LIMIT {
            return Refused(E_UNEXPECTED);
          }
          state := Connected(c.(clients := c.clients as int + 1));
          Rested(world);
          return Joined;
        case Busy => return Refused(ERROR_BUSY);
        case Failed => return Refused(E_UNEXPECTED);
        case Idle => state := Busy;
      }
      r := BuildTree(me, device, name, raw, panics);
    }

    method BuildTree(ghost me: nat, device: seq<nat>, name: seq<nat>, raw: Option<nat>, panics: bool)
      returns (r: Connecting)
      requires Inside(me, Building(device, name, raw))
      modifies this
      ensures Valid() && world.frames == map[] && !(r.Refused? && r.hr == 0)
      ensures Built(r, old(world.trace), world.trace, me) && (r.Unwound? <==> panics)
      ensures r.Joined? ==>
                && state.Connected? && world.joined == 1 && world.left == 0
                && state.connection.device == device && state.connection.name == name
                && state.connection.clients == 1 && state.connection.helper.Some? == raw.Some?
                && (raw.Some? ==> state.connection.helper.value.raw == raw.value)
      ensures !r.Joined? ==> state == (if r.Unwound? then old(state) else Idle)
                             && world.joined == old(world.joined) && world.left == old(world.left)
    {
      hide Inv;
      var created: Hresult := *;
      var tree := calls;
      Foreign(me, Building(device, name, raw), Reply(created, panics, false));
      if panics {
        return Unwound;
      }
      if created != 0 {
        Settle(me, Unbuilt, Idle);
        return Refused(created);
      }
      var c := Connection(tree, None, device, name, 1);
      if raw.Some? {
        c := c.(helper := Some(Helper(raw.value, calls)));
        Foreign(me, Retaining(device, name, tree, raw.value), Reply(0, false, false));
      }
      Settle(me, Assembled(c), Connected(c));
      r := Joined;
    }

    method DisconnectClient(ghost me: nat) returns (hr: Hresult)
      requires Valid() && me !in world.frames
      modifies this
      ensures Valid() && world.frames == old(world.frames)
      ensures !old(state).Connected? ==>
                state == old(state) && world == old(world) && hr == if state.Busy? then ERROR_BUSY else E_UNEXPECTED
      ensures old(state).Connected? ==> world.left == old(world.left) + 1 && world.joined == old(world.joined)
      ensures old(state).Connected? && old(state).connection.clients > 1 ==>
                hr == 0 && world.trace == old(world.trace)
                && state == Connected(old(state).connection.(clients := old(state).connection.clients as int - 1))
      // The last client closes the tree and lets go of the helper, whatever the service says.
      ensures old(state).Connected? && old(state).connection.clients == 1 ==>
                && state == (if hr == 0 then Idle else Failed)
                && |world.trace| == |old(world.trace)| + 1 + Helpers(old(state).connection)
                && world.trace[|old(world.trace)|]
                   == Event(me, UnlinkTree(old(state).connection.tree), Busy, hr == 0)
    {
      hide Inv;
      Rested(world);
      Step(Act(me, Section.Disconnect));
      match state {
        case Idle => return E_UNEXPECTED;
        case Busy => return ERROR_BUSY;
        case Failed => return E_UNEXPECTED;
        case Connected(c) =>
          if c.clients > 1 {
            state := Connected(c.(clients := c.clients as int - 1));
            return 0;
          }
          state := Busy;
          hr := Close(me, c, true);
      }
    }

    // ---- Lending the connection to one call ----

    /** Borrowing: whoever succeeds is alone inside, and everyone else is told Busy. */
    method Take(ghost me: nat, ghost purpose: Purpose) returns (r: Result<Connection, Hresult>)
      requires Valid() && me !in world.frames
      modifies this`state, this`world
      ensures r.Ok? <==> old(state).Connected?
      ensures r.Ok? ==> r.value == old(state).connection && Inside(me, First(r.value, purpose))
                        && state.Busy? && (forall c :: c in world.frames ==> c == me)
                        && world.trace == old(world.trace)
                        && world.joined == old(world.joined) && world.left == old(world.left)
      ensures r.Err? ==> state == old(state) && world == old(world) && Valid()
                         && r.error == if state.Busy? then ERROR_BUSY else E_UNEXPECTED
    {
      hide Inv, First;
      Rested(world);
      Step(Act(me, Section.Borrow(purpose)));
      match state
      case Busy => r := Err(ERROR_BUSY);
      case Connected(c) =>
        state := Busy;
        InsideIsBusy(world, me);
        r := Ok(c);
      case _ => r := Err(E_UNEXPECTED);
    }

    method GiveBack(ghost me: nat, c: Connection)
      requires Inside(me, Returning(c))
      modifies this`state, this`world
      ensures Valid() && world.frames == map[] && state == Connected(c) && world.trace == old(world.trace)
      ensures world.joined == old(world.joined) && world.left == old(world.left)
    {
      hide Inv;
      Settle(me, Returning(c), Connected(c));
    }

    /** An acquisition whose job was refused. */
    method Forgo(ghost me: nat, c: Connection)
      requires Inside(me, Acquiring(c))
      modifies this`state, this`world
      ensures Valid() && world.frames == map[] && state == Connected(c) && world.trace == old(world.trace)
    {
      hide Inv;
      Step(Act(me, Section.Forgo));
      GiveBack(me, c);
    }

    /** The connection is closed while still Busy; only then does the object become Failed. */
    method Quarantine(ghost me: nat, c: Connection)
      requires Inside(me, Unlinking(c, false))
      modifies this
      ensures Valid() && world.frames == map[] && state.Failed? && old(world.trace) <= world.trace
      ensures world.joined == old(world.joined) && world.left == old(world.left)
      ensures |world.trace| == |old(world.trace)| + 1 + Helpers(c)
      ensures world.trace[|old(world.trace)|].call == UnlinkTree(c.tree)
      ensures c.helper.Some? ==>
                world.trace[|old(world.trace)| + 1].call == ReleaseHelper(c.helper.value.reference)
      ensures forall i :: |old(world.trace)| <= i < |world.trace| ==> world.trace[i].caller == me
    {
      hide Inv;
      var _ := Close(me, c, false);
    }

    /** Only S_OK is success; a missing helper fails without leaving the driver. */
    method CallHelper(ghost me: nat, c: Connection, ghost f: Frame, ghost query: bool, lock: bool)
      returns (r: Result<(), Hresult>, ghost reply: Reply)
      requires c.helper.Some? ==>
                 && Inside(me, f)
                 && Owes(f) == Some(if lock then LockHelper(c.helper, query) else UnlockHelper(c.helper, query))
      modifies this`calls, this`world
      ensures c.helper.None? ==> r == Err(E_UNEXPECTED) && world == old(world) && calls == old(calls)
      ensures c.helper.Some? ==>
                && Valid() && calls == old(calls) + 1 && !reply.unwinds
                && world.trace == old(world.trace) + [Event(me, Owes(f).value, Busy, r.Ok?)]
                && world.joined == old(world.joined) && world.left == old(world.left)
                && (After(f, reply, old(calls)).Some? ==> Inside(me, After(f, reply, old(calls)).value))
                && (r.Ok? <==> reply.Good())
      ensures r.Err? ==> r.error < 0
    {
      hide Inv, Owes, After;
      if c.helper.None? {
        reply := Reply(-1, false, false);
        return Err(E_UNEXPECTED), reply;
      }
      var hr: Hresult := *;
      reply := Reply(hr, false, false);
      Foreign(me, f, Reply(hr, false, false));
      r := if hr == 0 then Ok(()) else if hr < 0 then Err(hr) else Err(E_UNEXPECTED);
    }

    /** The service's own lock and unlock: a failed unlock quarantines, a failed lock does not. */
    method Dispatch(ghost me: nat, lock: bool) returns (hr: Hresult)
      requires Valid() && me !in world.frames
      modifies this
      ensures Valid() && world.frames == old(world.frames)
      ensures !old(state).Connected? ==>
                state == old(state) && world == old(world) && hr == if state.Busy? then ERROR_BUSY else E_UNEXPECTED
      // Success is the helper's own answer to this very call.
      ensures old(state).Connected? && old(state).connection.helper.None? ==> hr == E_UNEXPECTED
      ensures old(state).Connected? && old(state).connection.helper.Some? ==>
                var helper := old(state).connection.helper;
                && old(world.trace) < world.trace
                && world.trace[|old(world.trace)|]
                   == Event(me, if lock then LockHelper(helper, false) else UnlockHelper(helper, false), Busy, hr == 0)
      ensures old(state).Connected? ==> hr <= 0 && state == (if hr == 0 || lock then old(state) else Failed)
      ensures world.joined == old(world.joined) && world.left == old(world.left)
    {
      hide Inv;
      Rested(world);
      var taken := Take(me, Purpose.ServiceLock(lock));
      if taken.Err? {
        return taken.error;
      }
      var c := taken.value;
      var called, _ := CallHelper(me, c, Serving(c, lock), false, lock);
      if called.Ok? || lock {
        GiveBack(me, c);
        return if called.Ok? then 0 else called.error;
      }
      Quarantine(me, c);
      hr := called.error;
    }

    // ---- Capabilities under the service lock ----

    /** The query and the unlock after it, which happens on every way out of the query. The connection
        survives unless the query unwinds or the unlock fails. */
    method QueryAndUnlock(ghost me: nat, c: Connection, query: Ending) returns (r: Result<(), Hresult>, kept: bool)
      requires Inside(me, Querying(c)) && c.helper.Some?
      modifies this
      ensures old(world.trace) <= world.trace && QueriedOnce(world.trace, |old(world.trace)|, me, c)
      ensures world.joined == old(world.joined) && world.left == old(world.left)
      ensures kept ==> |world.trace| == |old(world.trace)| + 2
                       && state == old(state) && Inside(me, if r.Ok? then Publishing(c) else Returning(c))
      ensures !kept ==> Valid() && world.frames == map[] && state.Failed?
      ensures kept <==> !query.Unwinds? && world.trace[|old(world.trace)| + 1].ok
      ensures r.Ok? <==> kept && query.Succeeds?
      // The query's own failure is what is reported, even if the unlock failed too.
      ensures !query.Succeeds? ==> r == Err(if query.Fails? then query.hr else E_UNEXPECTED)
    {
      hide Inv;
      Foreign(me, Querying(c), ReplyOf(query, false));
      var unlocked, _ := CallHelper(me, c, Unlocking(c, query.Succeeds?, query.Unwinds?), true, false);
      r := match query
           case Succeeds => unlocked
           case Fails(hr) => Err(hr)
           case Unwinds => Err(E_UNEXPECTED);
      kept := !query.Unwinds? && unlocked.Ok?;
      if !kept {
        Quarantine(me, c);
      }
    }

    /** The query between the service's lock and unlock. A failed lock ends the call without a query. */
    method QueryLocked(ghost me: nat, c: Connection, query: Ending) returns (r: Result<(), Hresult>, kept: bool)
      requires Inside(me, First(c, Capabilities))
      modifies this
      ensures old(world.trace) <= world.trace && LockedQuery(world.trace, |old(world.trace)|, me, c)
      ensures !Published(world.trace, |old(world.trace)|)
      ensures world.joined == old(world.joined) && world.left == old(world.left)
      ensures kept ==> |world.trace| <= |old(world.trace)| + 3
                       && state == old(state) && Inside(me, if r.Ok? then Publishing(c) else Returning(c))
      ensures !kept ==> Valid() && world.frames == map[] && state.Failed?
      ensures kept <==> |world.trace| < |old(world.trace)| + 3
                        || (!query.Unwinds? && world.trace[|old(world.trace)| + 2].ok)
      ensures r.Ok? <==> kept && |world.trace| == |old(world.trace)| + 3 && query.Succeeds?
      ensures |world.trace| >= |old(world.trace)| + 3 && !query.Succeeds? ==>
                r == Err(if query.Fails? then query.hr else E_UNEXPECTED)
    {
      hide Inv;
      var locked, _ := CallHelper(me, c, Locking(c), true, true);
      if locked.Err? {
        return locked, true;
      }
      hide QueriedOnce;
      r, kept := QueryAndUnlock(me, c, query);
      LockThenQuery(world.trace, |old(world.trace)|, me, c);
    }

    /** Publishing while Busy. `started` says the publisher had begun writing to the service. */
    method PublishAndReturn(ghost me: nat, c: Connection, publish: Ending, started: bool)
      returns (r: Result<(), Hresult>)
      requires Inside(me, Publishing(c))
      modifies this
      ensures Valid() && world.frames == map[] && old(world.trace) <= world.trace
      ensures world.joined == old(world.joined) && world.left == old(world.left)
      ensures PublishedOnce(world.trace, |old(world.trace)|, me)
      ensures r == match publish
                   case Succeeds => Ok(())
                   case Fails(hr) => Err(hr)
                   case Unwinds => Err(E_UNEXPECTED)
      ensures state == if publish.Unwinds? || (publish.Fails? && started) then Failed else Connected(c)
    {
      hide Inv;
      Foreign(me, Publishing(c), ReplyOf(publish, started));
      r := match publish
           case Succeeds => Ok(())
           case Fails(hr) => Err(hr)
           case Unwinds => Err(E_UNEXPECTED);
      if publish.Unwinds? || (publish.Fails? && started) {
        Quarantine(me, c);
      } else {
        GiveBack(me, c);
      }
    }

    /** Lock, query, unlock, publish. */
    method WithLiveCapabilities(ghost me: nat, query: Ending, publish: Ending, started: bool)
      returns (r: Result<(), Hresult>)
      requires Valid() && me !in world.frames
      modifies this
      ensures Valid() && world.frames == old(world.frames) && old(world.trace) <= world.trace
      ensures world.joined == old(world.joined) && world.left == old(world.left)
      ensures !old(state).Connected? ==>
                && state == old(state) && world == old(world)
                && r == Err(if state.Busy? then ERROR_BUSY else E_UNEXPECTED)
      ensures old(state).Connected? ==>
                && LockedQuery(world.trace, |old(world.trace)|, me, old(state).connection)
                && PublishesExactlyWhen(world.trace, |old(world.trace)|, query)
                && state == if Quarantines(world.trace, |old(world.trace)|, query, publish, started) then Failed
                            else old(state)
      ensures r.Ok? <==> old(state).Connected? && Published(world.trace, |old(world.trace)|) && publish.Succeeds?
      ensures |world.trace| >= |old(world.trace)| + 3 && !query.Succeeds? ==>
                r == Err(if query.Fails? then query.hr else E_UNEXPECTED)
      ensures Published(world.trace, |old(world.trace)|) && !publish.Succeeds? ==>
                r == Err(if publish.Fails? then publish.hr else E_UNEXPECTED)
    {
      hide Inv;
      Rested(world);
      var taken := Take(me, Capabilities);
      if taken.Err? {
        return Err(taken.error);
      }
      var c := taken.value;
      var queried, kept := QueryLocked(me, c, query);
      if queried.Err? {
        if kept {
          GiveBack(me, c);
        }
        return queried;
      }
      ghost var queriedTrace := world.trace;
      r := PublishAndReturn(me, c, publish, started);
      QueryThenPublish(queriedTrace, world.trace, old(|world.trace|), me, c);
    }
  }

  /** The tree was asked for first, and the client joined exactly if the service made it. */
  ghost predicate Built(r: Connecting, before: seq<Event>, trace: seq<Event>, me: nat) {
    && before < trace
    && trace[|before|].caller == me && trace[|before|].call == CreateTree && trace[|before|].during == Busy
    && (r.Joined? <==> trace[|before|].ok)
  }

  lemma InsideIsBusy(w: World, me: nat)
    requires Inv(w) && me in w.frames
    ensures w.state.Busy? && !w.stuck && (forall c :: c in w.frames ==> c == me)
  {
  }

  lemma Rested(w: World)
    requires Inv(w)
    ensures !w.state.Busy? ==> w.frames == map[] && !w.stuck
    ensures w.state.Connected? ==> Balanced(w, w.state.connection)
  {
  }

  /** From event `at` on: the query, one unlock, and nothing more of the helper's or the service's. */
  ghost predicate QueriedOnce(trace: seq<Event>, at: nat, me: nat, c: Connection) {
    && |trace| >= at + 2 && trace[at].call == Query && trace[at + 1].call == UnlockHelper(c.helper, true)
    && (forall i :: at + 2 <= i < |trace| ==> trace[i].call.UnlinkTree? || trace[i].call.ReleaseHelper?)
    && (forall i :: at <= i < |trace| ==> trace[i].caller == me)
  }

  /** A query, beginning at event `at`: a successful lock is followed by the query and exactly one
      unlock, before anything else leaves the driver; after a failed lock nothing does. */
  ghost predicate LockedQuery(trace: seq<Event>, at: nat, me: nat, c: Connection) {
    && (c.helper.None? ==> |trace| == at)
    && (c.helper.Some? ==>
          && |trace| > at && trace[at].call == LockHelper(c.helper, true)
          && (!trace[at].ok ==> |trace| == at + 1)
          && (trace[at].ok ==>
                && |trace| >= at + 3
                && trace[at + 1].call == Query && trace[at + 2].call == UnlockHelper(c.helper, true)
                && (forall i :: at + 3 <= i < |trace| ==>
                      || trace[i].call.UnlinkTree? || trace[i].call.ReleaseHelper?
                      || (i == at + 3 && trace[i].call.Publish?))))
    && (forall i :: at <= i < |trace| ==> trace[i].caller == me)
  }

  ghost predicate Published(trace: seq<Event>, at: nat) {
    |trace| > at + 3 && trace[at + 3].call == Publish
  }

  /** Publishing follows the unlock exactly when query and unlock both succeeded. */
  ghost predicate PublishesExactlyWhen(trace: seq<Event>, at: nat, query: Ending) {
    Published(trace, at) <==> |trace| >= at + 3 && query.Succeeds? && trace[at + 2].ok
  }

  /** From event `at` on: publishing once, and nothing more of the helper's. */
  ghost predicate PublishedOnce(trace: seq<Event>, at: nat, me: nat) {
    && |trace| > at && trace[at].call == Publish
    && (forall i :: at < i < |trace| ==> trace[i].call.UnlinkTree? || trace[i].call.ReleaseHelper?)
    && (forall i :: at <= i < |trace| ==> trace[i].caller == me)
  }

  lemma QueryThenPublish(queried: seq<Event>, trace: seq<Event>, at: nat, me: nat, c: Connection)
    requires LockedQuery(queried, at, me, c) && |queried| == at + 3 && c.helper.Some? && queried[at].ok
    requires queried <= trace && PublishedOnce(trace, at + 3, me)
    ensures LockedQuery(trace, at, me, c) && Published(trace, at)
  {
  }

  lemma LockThenQuery(trace: seq<Event>, at: nat, me: nat, c: Connection)
    requires c.helper.Some? && |trace| > at && trace[at] == Event(me, LockHelper(c.helper, true), Busy, true)
    requires QueriedOnce(trace, at + 1, me, c)
    ensures LockedQuery(trace, at, me, c) && !Published(trace, at)
  {
  }

  /** The ways a capability query costs the object its connection. */
  ghost predicate Quarantines(trace: seq<Event>, at: nat, query: Ending, publish: Ending, started: bool) {
    |trace| >= at + 3 && (query.Unwinds? || !trace[at + 2].ok
                          || (Published(trace, at) && (publish.Unwinds? || (publish.Fails? && started))))
  }

  // ---- One call after another ----

  datatype Entry =
    | Connects(device: seq<nat>, name: seq<nat>, raw: Option<nat>, panics: bool)
    | Disconnects
    | Locks(lock: bool)
    | Queries(query: Ending, publish: Ending, started: bool)
    | Acquires(unwinds: bool)

  /** Any sequence of entry points, with any foreign results. A failed object stays failed, and so
      does one left Busy by a panic. */
  method Serve(entries: seq<Entry>) returns (mini: Interface, ghost states: seq<Lifecycle>)
    ensures mini.Valid() && |states| == |entries| + 1 && states[|entries|] == mini.state
    ensures forall i, j :: 0 <= i <= j < |states| && (states[i].Failed? || states[i].Busy?) ==> states[j] == states[i]
    ensures Ordered(mini.world.trace) && AllAlive(mini.world.trace)
    ensures mini.state.Connected? ==> mini.state.connection.clients as int == mini.world.joined - mini.world.left
  {
    mini := new Interface();
    states := [mini.state];
    var i := 0;
    hide Inv;
    while i < |entries|
      invariant 0 <= i <= |entries| && fresh(mini) && mini.Valid() && mini.world.frames == map[]
      invariant |states| == i + 1 && states[i] == mini.state
      invariant forall k, j :: 0 <= k <= j < |states| && (states[k].Failed? || states[k].Busy?) ==>
                  states[j] == states[k]
    {
      ServeOne(mini, i, entries[i]);
      states := states + [mini.state];
      i := i + 1;
    }
    Summary(mini.world);
  }

  method ServeOne(mini: Interface, ghost me: nat, entry: Entry)
    requires mini.Valid() && mini.world.frames == map[]
    modifies mini
    ensures mini.Valid() && mini.world.frames == map[]
    ensures old(mini.state).Failed? || old(mini.state).Busy? ==> mini.state == old(mini.state)
  {
    hide Inv;
    match entry {
      case Connects(device, name, raw, panics) => var _ := mini.InitializeTree(me, device, name, raw, panics);
      case Disconnects => var _ := mini.DisconnectClient(me);
      case Locks(lock) => var _ := mini.Dispatch(me, lock);
      case Queries(query, publish, started) => var _ := mini.WithLiveCapabilities(me, query, publish, started);
      case Acquires(unwinds) =>
        var taken := mini.Take(me, Acquisition);
        if taken.Ok? {
          mini.Foreign(me, Acquiring(taken.value), Reply(0, unwinds, false));
          if unwinds {
            mini.Quarantine(me, taken.value);
          } else {
            mini.GiveBack(me, taken.value);
          }
        }
    }
  }

  lemma Summary(w: World)
    requires Inv(w)
    ensures Ordered(w.trace) && AllAlive(w.trace)
    ensures w.state.Connected? ==> w.state.connection.clients as int == w.joined - w.left
  {
  }
}

/** When the module may be unloaded, and when its objects die: the counters of the COM server under
    any interleaving of their atomic updates (src/com_server.rs). */
module ModuleCounts {
  import opened Basics
  import opened Geometry

  const MAX := 0xffff_ffff

  // ---- The counters and everyone using them ----

  /** `owners` counts the references clients hold; `refs` is the object's own count of them. */
  datatype Object = Object(refs: U32, owners: nat)

  /** How far a thread has got through an operation of more than one atomic update. */
  datatype Stage = Creating | Destroying(id: nat) | Destroyed | Locking | RollingBack | Unlocking

  datatype World = World(
    holds: U32, serverLocks: U32, objects: map<nat, Object>, born: nat, dead: multiset<nat>, busy: map<nat, Stage>)

  const INITIAL := World(0, 0, map[], 0, multiset{}, map[])

  datatype Update =
    | HoldForObject | Publish | AddRef(id: nat) | Release(id: nat) | Destroy | DropHold
    | HoldForLock | CountLock | RollBack | UncountLock

  datatype Act = Act(thread: nat, update: Update)

  function Start(w: World, t: nat, stage: Stage): World {
    w.(busy := w.busy[t := stage])
  }

  function End(w: World, t: nat): World {
    w.(busy := w.busy - {t})
  }

  /** `increment_ref`: MAX is a permanent pin. */
  function Incremented(refs: U32): U32 {
    if refs == MAX then MAX else refs as int + 1
  }

  /** `decrement_count`, which leaves zero alone. */
  function Decremented(count: U32): U32 {
    if count == 0 then 0 else count as int - 1
  }

  /** One atomic update. Clients follow the COM rule that only an owner of a reference uses or
      releases it; whatever a thread is not in a position to do changes nothing. */
  function Next(w: World, a: Act): World {
    var t := a.thread;
    if t !in w.busy then
      match a.update
      case HoldForObject => if w.holds == MAX then w else Start(w.(holds := w.holds as int + 1), t, Creating)
      case HoldForLock => if w.holds == MAX then w else Start(w.(holds := w.holds as int + 1), t, Locking)
      case UncountLock =>
        if w.serverLocks == 0 then w else Start(w.(serverLocks := w.serverLocks as int - 1), t, Unlocking)
      case AddRef(id) =>
        if id !in w.objects || w.objects[id].owners == 0 then w
        else w.(objects := w.objects[id := Object(Incremented(w.objects[id].refs), w.objects[id].owners + 1)])
      case Release(id) =>
        if id !in w.objects || w.objects[id].owners == 0 then w
        else
          var o := w.objects[id];
          if o.refs == MAX then w.(objects := w.objects[id := Object(MAX, o.owners - 1)])
          else if o.refs <= 1 then Start(w.(objects := w.objects - {id}), t, Destroying(id))
          else w.(objects := w.objects[id := Object(o.refs as int - 1, o.owners - 1)])
      case _ => w
    else
      match (a.update, w.busy[t])
      case (Publish, Creating) => End(w.(objects := w.objects[w.born := Object(1, 1)], born := w.born + 1), t)
      case (Destroy, Destroying(id)) => Start(w.(dead := w.dead + multiset{id}), t, Destroyed)
      case (DropHold, Destroyed) => End(w.(holds := Decremented(w.holds)), t)
      case (CountLock, Locking) =>
        if w.serverLocks == MAX then Start(w, t, RollingBack) else End(w.(serverLocks := w.serverLocks as int + 1), t)
      case (RollBack, RollingBack) => End(w.(holds := Decremented(w.holds)), t)
      case (DropHold, Unlocking) => End(w.(holds := Decremented(w.holds)), t)
      case _ => w
  }

  function RunFrom(w: World, acts: seq<Act>): World {
    if acts == [] then w else Next(RunFrom(w, acts[..|acts| - 1]), acts[|acts| - 1])
  }

  function Run(acts: seq<Act>): World {
    RunFrom(INITIAL, acts)
  }

  // ---- The invariant ----

  /** The hold count is exactly everything that keeps the module loaded. */
  predicate Balanced(w: World) {
    w.holds as int == |w.objects| + w.serverLocks as int + |w.busy|
  }

  predicate At(w: World, t: nat, stage: Stage) {
    t in w.busy && w.busy[t] == stage
  }

  ghost predicate Dying(w: World, id: nat) {
    exists t :: At(w, t, Destroying(id))
  }

  /** An object is unborn, alive, being destroyed by one thread, or was destroyed once. */
  ghost predicate OneLife(w: World, id: nat) {
    && (id in w.objects ==> id < w.born && !Dying(w, id) && w.dead[id] == 0)
    && (Dying(w, id) ==> id < w.born && w.dead[id] == 0)
    && (id < w.born && id !in w.objects && !Dying(w, id) ==> w.dead[id] == 1)
    && (id >= w.born ==> w.dead[id] == 0)
  }

  ghost predicate OneDestroyer(w: World) {
    forall t, u, id :: At(w, t, Destroying(id)) && At(w, u, Destroying(id)) ==> t == u
  }

  /** Below the pin, the count is the number of references clients hold, and never zero. */
  ghost predicate Counted(w: World) {
    forall id :: id in w.objects ==>
      w.objects[id].refs > 0 && (w.objects[id].refs < MAX ==> w.objects[id].refs as int == w.objects[id].owners)
  }

  ghost predicate NoRollback(w: World) {
    forall t :: t in w.busy ==> !w.busy[t].RollingBack?
  }

  ghost predicate Inv(w: World) {
    Balanced(w) && NoRollback(w) && OneDestroyer(w) && Counted(w) && forall id: nat :: OneLife(w, id)
  }

  lemma RemoveKey<V>(m: map<nat, V>, k: nat)
    requires k in m
    ensures |m - {k}| == |m| - 1
  {
    assert m == (m - {k})[k := m[k]];
  }

  lemma BalancedStart(w: World, a: Act)
    requires Balanced(w) && a.thread !in w.busy
    ensures Balanced(Next(w, a))
  {
    if a.update.Release? && a.update.id in w.objects {
      RemoveKey(w.objects, a.update.id);
    }
  }

  lemma BalancedEnd(w: World, a: Act)
    requires Balanced(w) && a.thread in w.busy && w.born !in w.objects && !w.busy[a.thread].RollingBack?
    ensures Balanced(Next(w, a))
    ensures a.thread in Next(w, a).busy ==> !Next(w, a).busy[a.thread].RollingBack?
  {
    RemoveKey(w.busy, a.thread);
  }

  lemma BalancedNext(w: World, a: Act)
    requires Balanced(w) && w.born !in w.objects && NoRollback(w)
    ensures Balanced(Next(w, a))
  {
    hide Balanced, Next;
    if a.thread in w.busy {
      BalancedEnd(w, a);
    } else {
      BalancedStart(w, a);
    }
  }

  /** The second count never saturates: whoever is about to raise it already holds the module. */
  lemma NoRollbackNext(w: World, a: Act)
    requires Balanced(w) && NoRollback(w) && w.born !in w.objects
    ensures NoRollback(Next(w, a))
  {
    hide Balanced;
    if a.thread in w.busy {
      BalancedEnd(w, a);
    }
  }

  /** An update moves only the thread that makes it. */
  lemma OthersUnmoved(w: World, a: Act, u: nat)
    requires u != a.thread
    ensures u in Next(w, a).busy <==> u in w.busy
    ensures u in w.busy ==> Next(w, a).busy[u] == w.busy[u]
  {
  }

  lemma OwnStage(w: World, a: Act, id: nat)
    ensures At(Next(w, a), a.thread, Destroying(id)) <==>
              (id in w.objects && id !in Next(w, a).objects)
              || (At(w, a.thread, Destroying(id)) && !a.update.Destroy?)
  {
  }

  /** Who is being destroyed after an update. */
  lemma DyingNext(w: World, a: Act, id: nat)
    requires OneDestroyer(w)
    ensures Dying(Next(w, a), id) <==>
              if id in w.objects && id !in Next(w, a).objects then true
              else Dying(w, id) && !(a.update.Destroy? && At(w, a.thread, Destroying(id)))
  {
    hide Next;
    var v, t := Next(w, a), a.thread;
    OwnStage(w, a, id);
    forall u | u != t
      ensures At(v, u, Destroying(id)) <==> At(w, u, Destroying(id))
    {
      OthersUnmoved(w, a, u);
    }
  }

  lemma OneLifeNext(w: World, a: Act, id: nat)
    requires OneDestroyer(w) && Counted(w) && OneLife(w, id) && OneLife(w, w.born)
    ensures OneLife(Next(w, a), id)
  {
    DyingNext(w, a, id);
    hide OneDestroyer, Counted;
    if a.thread in w.busy && w.busy[a.thread].Destroying? {
      assert At(w, a.thread, Destroying(w.busy[a.thread].id));
    }
  }

  lemma OneDestroyerNext(w: World, a: Act)
    requires OneDestroyer(w) && forall id: nat :: OneLife(w, id)
    ensures OneDestroyer(Next(w, a))
  {
    hide Next;
    var v := Next(w, a);
    forall t, u, id | At(v, t, Destroying(id)) && At(v, u, Destroying(id))
      ensures t == u
    {
      assert OneLife(w, id);
      OwnStage(w, a, id);
      if t != a.thread {
        OthersUnmoved(w, a, t);
        assert At(w, t, Destroying(id));
      }
      if u != a.thread {
        OthersUnmoved(w, a, u);
        assert At(w, u, Destroying(id));
      }
    }
  }

  lemma CountedNext(w: World, a: Act)
    requires Counted(w)
    ensures Counted(Next(w, a))
  {
  }

  lemma InvNext(w: World, a: Act)
    requires Inv(w)
    ensures Inv(Next(w, a))
  {
    hide Balanced, NoRollback, OneDestroyer, Counted, Next;
    assert OneLife(w, w.born);
    BalancedNext(w, a);
    NoRollbackNext(w, a);
    OneDestroyerNext(w, a);
    CountedNext(w, a);
    forall id: nat
      ensures OneLife(Next(w, a), id)
    {
      OneLifeNext(w, a, id);
    }
  }

  lemma {:induction false} InvRunFrom(w: World, acts: seq<Act>)
    requires Inv(w)
    ensures Inv(RunFrom(w, acts))
  {
    hide Inv, Next;
    if acts != [] {
      InvRunFrom(w, acts[..|acts| - 1]);
      InvNext(RunFrom(w, acts[..|acts| - 1]), acts[|acts| - 1]);
    }
  }

  lemma RunIsSafe(acts: seq<Act>)
    ensures Inv(Run(acts))
  {
    InvRunFrom(INITIAL, acts);
  }

  // ---- What holds in every run ----

  /** `can_unload` sees zero only when there is no object, no server lock and nobody in between. */
  lemma UnloadOnlyWhenUnused(acts: seq<Act>)
    ensures var w := Run(acts);
            && w.holds as int == |w.objects| + w.serverLocks as int + |w.busy|
            && (w.holds == 0 <==> w.objects == map[] && w.serverLocks == 0 && w.busy == map[])
  {
    hide NoRollback, OneDestroyer, Counted, OneLife, Next, RunFrom;
    RunIsSafe(acts);
  }

  /** The second half of LockServer cannot fail, so its rollback is dead code. */
  lemma RollbackIsUnreachable(acts: seq<Act>, t: nat)
    requires t in Run(acts).busy
    ensures !Run(acts).busy[t].RollingBack?
    ensures Run(acts).serverLocks < MAX && Run(acts).holds > 0
  {
    RunIsSafe(acts);
    RemoveKey(Run(acts).busy, t);
  }

  /** An object dies with the release of its last reference, and only once. */
  lemma LastReleaseDestroysOnce(acts: seq<Act>, a: Act, id: nat)
    ensures Run(acts).dead[id] <= 1
    ensures id in Run(acts).objects && id !in Next(Run(acts), a).objects ==>
              a.update == Release(id) && Run(acts).objects[id].owners == 1 && Run(acts).dead[id] == 0
    ensures id in Run(acts).objects && Run(acts).objects[id].owners > 1 ==> id in Next(Run(acts), a).objects
  {
    RunIsSafe(acts);
    assert OneLife(Run(acts), id);
  }

  /** A count that reached MAX never moves again, and its object is never freed. */
  lemma {:induction false} SaturatedIsForever(w: World, acts: seq<Act>, id: nat)
    requires id in w.objects && w.objects[id].refs == MAX && id < w.born
    ensures var v := RunFrom(w, acts); id in v.objects && v.objects[id].refs == MAX && id < v.born
  {
    hide Next;
    if acts != [] {
      SaturatedIsForever(w, acts[..|acts| - 1], id);
      SaturatedNext(RunFrom(w, acts[..|acts| - 1]), acts[|acts| - 1], id);
    }
  }

  lemma SaturatedNext(w: World, a: Act, id: nat)
    requires id in w.objects && w.objects[id].refs == MAX && id < w.born
    ensures var v := Next(w, a); id in v.objects && v.objects[id].refs == MAX && id < v.born
  {
  }

  // ---- The operations ----

  /** What one thread did, in order. */
  function Own(acts: seq<Act>, me: nat): seq<Update> {
    if acts == [] then []
    else Own(acts[..|acts| - 1], me) + if acts[|acts| - 1].thread == me then [acts[|acts| - 1].update] else []
  }

  lemma RunOn(acts: seq<Act>, a: Act, me: nat)
    ensures Run(acts + [a]) == Next(Run(acts), a)
    ensures Own(acts + [a], me) == Own(acts, me) + if a.thread == me then [a.update] else []
  {
    assert (acts + [a])[..|acts|] == acts;
  }

  /** The module's counters and objects, with the threads that use them. */
  class Module {
    var world: World
    ghost var history: seq<Act>

    ghost predicate Valid()
      reads this
    {
      Inv(world) && world == Run(history)
    }

    constructor ()
      ensures Valid() && history == []
    {
      world, history := INITIAL, [];
    }

    method Step(a: Act)
      requires Valid()
      modifies this
      ensures Valid() && world == Next(old(world), a)
      ensures forall me :: Own(history, me) == Own(old(history), me) + if a.thread == me then [a.update] else []
    {
      hide Inv, Next;
      InvNext(world, a);
      forall me
        ensures Own(history + [a], me) == Own(history, me) + if a.thread == me then [a.update] else []
      {
        RunOn(history, a, me);
      }
      RunOn(history, a, 0);
      world, history := Next(world, a), history + [a];
    }

    /** Any number of updates by other threads. */
    method Others(me: nat)
      requires Valid()
      modifies this
      ensures Valid() && (me in world.busy <==> me in old(world).busy)
      ensures me in world.busy ==> world.busy[me] == old(world).busy[me]
      ensures forall id: nat :: world.dead[id] >= old(world).dead[id]
      ensures Own(history, me) == Own(old(history), me)
    {
      hide Inv, Next, Own, Run;
      var acts: seq<Act> := *;
      var i := 0;
      while i < |acts|
        invariant 0 <= i <= |acts| && Valid()
        invariant me in world.busy <==> me in old(world).busy
        invariant me in world.busy ==> world.busy[me] == old(world).busy[me]
        invariant forall id: nat :: world.dead[id] >= old(world).dead[id]
        invariant Own(history, me) == Own(old(history), me)
      {
        if acts[i].thread != me {
          OthersUnmoved(world, acts[i], me);
          DeathIsFinal(world, acts[i]);
          Step(acts[i]);
        }
        i := i + 1;
      }
    }

    /** `DllCanUnloadNow` reads the one counter. */
    method CanUnload() returns (b: bool)
      requires Valid()
      ensures b <==> world.objects == map[] && world.serverLocks == 0 && world.busy == map[]
    {
      hide Inv, Run;
      UnloadOnlyWhenUnused(history);
      b := world.holds == 0;
    }

    /** Success on locking means one more lock; the source's rollback is never taken. */
    method LockServer(me: nat, lock: bool) returns (hr: Hresult)
      requires Valid() && me !in world.busy
      modifies this
      ensures Valid() && me !in world.busy
      ensures hr == 0 || hr == E_UNEXPECTED
      ensures hr != 0 ==> world == old(world) && (if lock then world.holds == MAX else world.serverLocks == 0)
      ensures Own(history, me) == Own(old(history), me)
                                  + (if hr != 0 then []
                                     else if lock then [HoldForLock, CountLock]
                                     else [UncountLock, DropHold])
    {
      hide Inv, Own, Run;
      if lock {
        if world.holds == MAX {
          return E_UNEXPECTED;
        }
        Step(Act(me, HoldForLock));
        Others(me);
        LockFits(world, me);
        Step(Act(me, CountLock));
        return 0;
      }
      if world.serverLocks == 0 {
        return E_UNEXPECTED;
      }
      Step(Act(me, UncountLock));
      Others(me);
      Step(Act(me, DropHold));
      hr := 0;
    }

    /** The module is held before the object is handed out. */
    method CreateInstance(me: nat) returns (hr: Hresult, id: nat)
      requires Valid() && me !in world.busy
      modifies this
      ensures Valid() && me !in world.busy
      ensures hr != 0 ==> hr == E_UNEXPECTED && world == old(world) && world.holds == MAX
      ensures hr == 0 ==> id in world.objects && world.objects[id] == Object(1, 1) && id + 1 == world.born
      ensures Own(history, me) == Own(old(history), me) + if hr != 0 then [] else [HoldForObject, Publish]
    {
      hide Inv, Own, Run;
      id := 0;
      if world.holds == MAX {
        return E_UNEXPECTED, id;
      }
      Step(Act(me, HoldForObject));
      Others(me);
      id := world.born;
      Step(Act(me, Publish));
      hr := 0;
    }

    /** The last owner's release destroys the object before the module's hold goes. */
    method ReleaseInstance(me: nat, id: nat) returns (remaining: nat)
      requires Valid() && me !in world.busy
      requires id in world.objects && world.objects[id].owners > 0
      modifies this
      ensures Valid() && me !in world.busy
      ensures remaining == 0 <==> old(world).objects[id].owners == 1 && old(world).objects[id].refs < MAX
      ensures remaining == 0 ==> id !in world.objects && world.dead[id] == 1
      // Otherwise it answers the references left at that moment.
      ensures remaining != 0 ==>
                remaining == if old(world).objects[id].refs == MAX then MAX as int
                             else old(world).objects[id].refs as int - 1
      ensures Own(history, me)
              == Own(old(history), me) + [Release(id)] + if remaining == 0 then [Destroy, DropHold] else []
    {
      hide Inv, Own, Run;
      CountOfLast(world, id);
      var refs := world.objects[id].refs;
      Step(Act(me, Release(id)));
      if refs == MAX {
        return MAX;
      }
      if refs > 1 {
        return refs as int - 1;
      }
      FinishRelease(me, id);
      remaining := 0;
    }

    method FinishRelease(me: nat, id: nat)
      requires Valid() && At(world, me, Destroying(id))
      modifies this
      ensures Valid() && me !in world.busy && id !in world.objects && world.dead[id] == 1
      ensures Own(history, me) == Own(old(history), me) + [Destroy, DropHold]
    {
      hide Inv, Next, Own, Run;
      Others(me);
      DestroySections(world, me, id);
      Step(Act(me, Destroy));
      Others(me);
      DestroyedStays(world, me, id);
      Step(Act(me, DropHold));
    }
  }

  lemma CountOfLast(w: World, id: nat)
    requires Inv(w) && id in w.objects
    ensures w.objects[id].refs > 0 && (w.objects[id].refs < MAX ==> w.objects[id].refs as int == w.objects[id].owners)
  {
  }

  lemma DeathIsFinal(w: World, a: Act)
    ensures forall id: nat :: Next(w, a).dead[id] >= w.dead[id]
  {
  }

  lemma DestroySections(w: World, me: nat, id: nat)
    requires At(w, me, Destroying(id))
    ensures var v := Next(w, Act(me, Destroy)); At(v, me, Destroyed) && v.dead[id] >= 1
  {
  }

  lemma DestroyedStays(w: World, me: nat, id: nat)
    requires Inv(w) && At(w, me, Destroyed) && w.dead[id] >= 1
    ensures var v := Next(w, Act(me, DropHold)); me !in v.busy && id !in v.objects && v.dead[id] == 1
  {
    assert OneLife(w, id);
  }

  lemma LockFits(w: World, me: nat)
    requires Inv(w) && me in w.busy
    ensures w.serverLocks < MAX
  {
    RemoveKey(w.busy, me);
  }
}

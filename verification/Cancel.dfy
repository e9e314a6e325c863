/** Cancellation of one acquisition, ordered against its completion
    (src/com_server/minidrv/cancel.rs, src/com_server/minidrv/acquire.rs). */
module Cancel {
  import opened Basics
  import opened Geometry
  import Lending
  import Lifecycle
  import Transfer

  type Device = seq<nat>

  // ---- The history of one State: its mutex orders every section ----

  /** `Remove` is what both `finish` and the job's destructor do. A job is known by the place of
      its `Begin` in the history, as the source knows it by the identity of its flag. */
  datatype Act = Begin(device: Device) | Cancel(device: Device) | Remove(job: nat)

  datatype Active = Active(device: Device, job: nat, raised: bool)

  function Next(active: Option<Active>, a: Act, now: nat): Option<Active> {
    match a
    case Begin(device) => if active.None? then Some(Active(device, now, false)) else active
    case Cancel(device) =>
      if active.Some? && active.value.device == device then Some(active.value.(raised := true)) else active
    case Remove(job) => if active.Some? && active.value.job == job then None else active
  }

  function Run(acts: seq<Act>): Option<Active> {
    if acts == [] then None else Next(Run(acts[..|acts| - 1]), acts[|acts| - 1], |acts| - 1)
  }

  /** What removing `job` now answers. */
  predicate Wins(acts: seq<Act>, job: nat) {
    Run(acts).Some? && Run(acts).value.job == job && Run(acts).value.raised
  }

  // ---- What the history says ----

  /** `job` was admitted, for this device. */
  predicate Begun(acts: seq<Act>, job: nat, device: Device) {
    job < |acts| && acts[job] == Begin(device) && Run(acts[..job]).None?
  }

  predicate Removed(acts: seq<Act>, job: nat) {
    exists k :: job < k < |acts| && acts[k] == Remove(job)
  }

  /** A cancel for this device was ordered after place `job`. */
  predicate CancelledSince(acts: seq<Act>, job: nat, device: Device) {
    exists k :: job < k < |acts| && acts[k] == Cancel(device)
  }

  lemma RunOn(acts: seq<Act>, a: Act)
    ensures Run(acts + [a]) == Next(Run(acts), a, |acts|)
  {
    assert (acts + [a])[..|acts|] == acts;
  }

  /** The active job is the one begun and not removed, raised exactly if a matching cancel came since. */
  lemma {:induction false} ActiveExplained(acts: seq<Act>)
    ensures Run(acts).Some? ==>
              var a := Run(acts).value;
              && Begun(acts, a.job, a.device) && !Removed(acts, a.job)
              && (a.raised <==> CancelledSince(acts, a.job, a.device))
  {
    if acts != [] {
      var n := |acts| - 1;
      ActiveExplained(acts[..n]);
      if Run(acts).Some? {
        var a := Run(acts).value;
        if a.job < n {
          assert acts[..n][..a.job] == acts[..a.job];
          assert forall k :: a.job < k < n ==> acts[..n][k] == acts[k];
        }
      }
    }
  }

  lemma {:induction false} BegunStaysActive(acts: seq<Act>, job: nat, device: Device)
    requires Begun(acts, job, device) && !Removed(acts, job)
    ensures Run(acts).Some? && Run(acts).value.job == job && Run(acts).value.device == device
  {
    var n := |acts| - 1;
    if job < n {
      assert acts[..n][..job] == acts[..job];
      assert forall k :: job < k < n ==> acts[..n][k] == acts[k];
      BegunStaysActive(acts[..n], job, device);
    }
  }

  /** Cancellation is linearizable: the removal of a job says "cancelled" exactly when it is the
      first removal of an admitted job and a cancel for its device was ordered in between. */
  lemma RemovalReportsItsOwnCancel(acts: seq<Act>, job: nat)
    ensures Wins(acts, job) <==>
              exists device :: Begun(acts, job, device) && !Removed(acts, job) && CancelledSince(acts, job, device)
  {
    ActiveExplained(acts);
    if device: Device :| Begun(acts, job, device) && !Removed(acts, job) && CancelledSince(acts, job, device) {
      BegunStaysActive(acts, job, device);
    }
  }

  /** No cancel leaks into a later job: whatever came before a job began cannot make it report one. */
  lemma NoLeakIntoNextJob(earlier: seq<Act>, device: Device)
    requires Run(earlier).None?
    ensures Begun(earlier + [Begin(device)], |earlier|, device) && !Wins(earlier + [Begin(device)], |earlier|)
  {
    RunOn(earlier, Begin(device));
    assert (earlier + [Begin(device)])[..|earlier|] == earlier;
  }

  /** `finish` consumes the job, so its destructor removes it once more; by then another job may be
      active, and it is left alone. */
  lemma SecondRemovalIsHarmless(acts: seq<Act>, job: nat)
    requires Removed(acts, job)
    ensures Next(Run(acts), Act.Remove(job), |acts|) == Run(acts) && !Wins(acts, job)
  {
    ActiveExplained(acts);
  }

  lemma BegunLater(acts: seq<Act>, longer: seq<Act>, job: nat, device: Device)
    requires Begun(acts, job, device) && acts <= longer
    ensures Begun(longer, job, device)
  {
    assert longer[..job] == acts[..job];
  }

  // ---- The state itself ----

  class State {
    var active: Option<Active>
    var serial: nat
    ghost var history: seq<Act>

    ghost predicate Valid()
      reads this
    {
      active == Run(history) && serial == |history|
    }

    constructor ()
      ensures Valid() && history == []
    {
      active, serial, history := None, 0, [];
    }

    method Begin(device: Device) returns (r: Result<nat, Hresult>)
      requires Valid()
      modifies this
      ensures Valid() && history == old(history) + [Act.Begin(device)]
      ensures r.Ok? <==> old(active).None?
      ensures r.Ok? ==> r.value == |old(history)| && Begun(history, r.value, device)
      ensures r.Err? ==> r.error == Lifecycle.ERROR_BUSY && active == old(active)
    {
      RunOn(history, Act.Begin(device));
      assert (history + [Act.Begin(device)])[..|history|] == history;
      history := history + [Act.Begin(device)];
      serial := serial + 1;
      if active.Some? {
        return Err(Lifecycle.ERROR_BUSY);
      }
      active := Some(Active(device, serial - 1, false));
      r := Ok(serial - 1);
    }

    method Cancel(device: Device) returns (matched: bool)
      requires Valid()
      modifies this
      ensures Valid() && history == old(history) + [Act.Cancel(device)]
      ensures matched <==> old(active).Some? && old(active).value.device == device
    {
      RunOn(history, Act.Cancel(device));
      history := history + [Act.Cancel(device)];
      serial := serial + 1;
      matched := active.Some? && active.value.device == device;
      if matched {
        active := Some(active.value.(raised := true));
      }
    }

    method Remove(job: nat) returns (cancelled: bool)
      requires Valid()
      modifies this
      ensures Valid() && history == old(history) + [Act.Remove(job)]
      ensures cancelled <==> old(Wins(history, job))
    {
      RunOn(history, Act.Remove(job));
      history := history + [Act.Remove(job)];
      serial := serial + 1;
      cancelled := false;
      if active.Some? && active.value.job == job {
        cancelled := active.value.raised;
        active := None;
      }
    }

    /** Completion: the answer comes from the first removal; the destructor's changes nothing. */
    method Finish(job: nat) returns (cancelled: bool)
      requires Valid()
      modifies this
      ensures Valid() && |history| > |old(history)| && old(history) <= history
      ensures history[|old(history)|] == Act.Remove(job)
      ensures cancelled <==> old(Wins(history, job))
    {
      ghost var before := history;
      cancelled := Remove(job);
      ghost var removed := history;
      Others(job);
      assert history[|before|] == removed[|before|];
      if job < |before| {
        SecondRemovalIsHarmless(history, job);
      }
      var _ := Remove(job);
    }

    /** Other threads: notifications, and acquisitions of their own. Only its owner removes `job`. */
    method Others(job: nat)
      requires Valid()
      modifies this
      ensures Valid() && old(history) <= history
      ensures forall k :: |old(history)| <= k < |history| ==> history[k] != Act.Remove(job)
    {
      var acts: seq<Act> := *;
      var i := 0;
      while i < |acts|
        invariant 0 <= i <= |acts| && Valid() && old(history) <= history
        invariant forall k :: |old(history)| <= k < |history| ==> history[k] != Act.Remove(job)
      {
        match acts[i] {
          case Begin(device) => var _ := Begin(device);
          case Cancel(device) => var _ := Cancel(device);
          case Remove(other) =>
            if other != job {
              var _ := Remove(other);
            }
        }
        i := i + 1;
      }
    }
  }

  // ---- One acquisition ----

  const E_FAIL: Hresult := 0x8000_4005 - 0x1_0000_0000
  const ERROR_OFFLINE: Hresult := 0x8021_0005 - 0x1_0000_0000

  /** A read that failed is a failure, whatever code it carried. */
  function FailedStatus(hr: Hresult): (failure: Hresult)
    ensures failure < 0 && (hr < 0 ==> failure == hr)
  {
    if hr < 0 then hr else E_UNEXPECTED
  }

  function ErrorStatus(error: IoError): (hr: Hresult)
    ensures hr < 0
    // The application can tell a bad request, a busy scanner and a missing one from everything else.
    ensures error.kind.InvalidInput? <==> hr == -0x7ff8_ffa9
    ensures error.kind.WouldBlock? <==> hr == -0x7fde_fffa
    ensures error.kind.NotConnected? <==> hr == -0x7fde_fffb
  {
    match error.kind
    case InvalidInput => E_INVALIDARG
    case WouldBlock => Lifecycle.ERROR_BUSY
    case NotConnected => ERROR_OFFLINE
    case _ => E_FAIL
  }

  /** S_FALSE is reserved for cancellation. */
  function Status(outcome: Transfer.Outcome): (hr: Hresult)
    ensures hr == 0 <==> outcome.Completed? || outcome.SkippedTransfer?
    ensures hr == 1 <==> outcome.CancelledTransfer?
  {
    match outcome
    case Completed(_) => 0
    case SkippedTransfer => 0
    case CancelledTransfer => 1
    case Errored(error) => ErrorStatus(error)
    case Unwound => E_UNEXPECTED
  }

  /** One acquisition: borrow the connection, begin, read the properties, transfer, finish. `from` and
      `to` are the places of its begin and its removal in the cancellation history. */
  method Dispatch(ghost me: nat, mini: Lifecycle.Interface, state: State, read: Result<(), Hresult>,
                  transfer: Transfer.Outcome)
    returns (hr: Hresult, ghost admitted: bool, ghost from: nat, ghost to: nat)
    requires mini.Valid() && me !in mini.world.frames && state.Valid()
    modifies mini, state
    ensures mini.Valid() && me !in mini.world.frames && state.Valid() && old(state.history) <= state.history
    ensures admitted <==> old(mini.state).Connected? && old(state.active).None?
    ensures !admitted ==>
              && mini.state == old(mini.state)
              && hr == if old(mini.state).Connected? || old(mini.state).Busy? then Lifecycle.ERROR_BUSY
                       else E_UNEXPECTED
    ensures admitted ==>
              && old(mini.state).Connected?
              && from < to < |state.history| && Begun(state.history, from, old(mini.state).connection.device)
              && state.history[to] == Act.Remove(from) && !Removed(state.history[..to], from)
    // Success means no cancel won; a cancel that won turns success into S_FALSE; errors take precedence.
    ensures hr == 0 <==> admitted && read.Ok? && (transfer.Completed? || transfer.SkippedTransfer?)
                         && !CancelledSince(state.history[..to], from, old(mini.state).connection.device)
    ensures hr == 1 <==> admitted && read.Ok?
                         && (transfer.CancelledTransfer?
                             || ((transfer.Completed? || transfer.SkippedTransfer?)
                                 && CancelledSince(state.history[..to], from, old(mini.state).connection.device)))
    ensures admitted && read.Err? ==> hr == FailedStatus(read.error)
    ensures admitted && read.Ok? && transfer.Errored? ==> hr == ErrorStatus(transfer.error)
    ensures admitted ==> mini.state == if read.Ok? && transfer.Unwound? then Lending.Failed else old(mini.state)
  {
    hide Lending.Inv, Run, Wins;
    admitted, from, to := false, 0, 0;
    var taken := mini.Take(me, Lending.Acquisition);
    if taken.Err? {
      return taken.error, admitted, from, to;
    }
    var c := taken.value;
    var job := state.Begin(c.device);
    if job.Err? {
      mini.Forgo(me, c);
      return job.error, admitted, from, to;
    }
    admitted, from := true, job.value;
    ghost var begun := state.history;
    mini.Foreign(me, Lending.Acquiring(c), Lending.Reply(0, read.Ok? && transfer.Unwound?, false));
    state.Others(job.value);
    to := |state.history|;
    ghost var before := state.history;
    RemovalReportsItsOwnCancel(before, job.value);
    BegunLater(begun, before, job.value, c.device);
    var cancelled := state.Finish(job.value);
    assert state.history[..to] == before;
    BegunLater(before, state.history, job.value, c.device);
    hr := if read.Err? then FailedStatus(read.error) else Status(transfer);
    if read.Ok? && cancelled && !transfer.Errored? && !transfer.Unwound? {
      hr := 1;
    }
    if read.Ok? && transfer.Unwound? {
      var _ := mini.Close(me, c, false);
    } else {
      mini.GiveBack(me, c);
    }
  }
}

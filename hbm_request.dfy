/** `HbmRequest`: a self-contained HBM request that switches the backend on
    at most once and off on every `disable` after it started. Its executor
    (which runs on the main looper) and the main-thread handler are FIFO
    queues of tasks that the caller runs one at a time. */
module HbmRequestClass {
  import opened Common
  import opened HbmTypes

  /** Work handed to the biometric executor. */
  datatype BiometricTask = StartHbm | StopHbm(onHbmDisabled: Option<Runnable>)

  /** Work posted to the main-thread handler. */
  datatype PostedTask = NotifyHbmDisabled | RunRunnable(callback: Runnable)

  /** Number of pending start tasks. */
  function PendingStarts(q: seq<BiometricTask>): nat {
    if q == [] then 0 else (if q[0].StartHbm? then 1 else 0) + PendingStarts(q[1..])
  }

  lemma {:induction false} PendingStartsAppend(q: seq<BiometricTask>, task: BiometricTask)
    ensures PendingStarts(q + [task]) == PendingStarts(q) + (if task.StartHbm? then 1 else 0)
  {
    if q != [] {
      assert (q + [task])[1..] == q[1..] + [task];
      PendingStartsAppend(q[1..], task);
    }
  }

  class HbmRequest {
    const displayId: int
    const hbmType: HbmType
    const surface: Option<Surface>
    const onHbmEnabled: Option<Runnable>
    var startedRequest: bool
    var finishedStarting: bool
    var biometricQueue: seq<BiometricTask>
    var mainQueue: seq<PostedTask>
    var effects: seq<Effect>
    /** Number of start tasks ever handed to the executor. */
    ghost var startsDispatched: nat

    /** The start task is dispatched once, when the request starts, and is then
        either pending or finished; a stop task is only ever queued behind it. */
    ghost predicate Valid()
      reads this
    {
      && startsDispatched == (if startedRequest then 1 else 0)
      && PendingStarts(biometricQueue) + (if finishedStarting then 1 else 0) == startsDispatched
      && (forall k :: 0 <= k < |biometricQueue| ==> biometricQueue[k].StopHbm? ==> startedRequest)
    }

    constructor (displayId: int, hbmType: HbmType, surface: Option<Surface>, onHbmEnabled: Option<Runnable>)
      ensures this.displayId == displayId && this.hbmType == hbmType
      ensures this.surface == surface && this.onHbmEnabled == onHbmEnabled
      ensures !startedRequest && !finishedStarting
      ensures biometricQueue == [] && mainQueue == [] && effects == []
      ensures Valid()
    {
      this.displayId := displayId;
      this.hbmType := hbmType;
      this.surface := surface;
      this.onHbmEnabled := onHbmEnabled;
      startedRequest := false;
      finishedStarting := false;
      biometricQueue := [];
      mainQueue := [];
      effects := [];
      startsDispatched := 0;
    }

    /** `enable()`: the first call hands the start task to the executor; later
        calls do nothing, so the backend is switched on at most once per request. */
    method Enable()
      requires Valid()
      modifies this
      ensures Valid()
      ensures startedRequest && startsDispatched == 1
      ensures biometricQueue == old(biometricQueue) + (if old(startedRequest) then [] else [StartHbm])
      ensures finishedStarting == old(finishedStarting)
      ensures mainQueue == old(mainQueue) && effects == old(effects)
    {
      if !startedRequest {
        startedRequest := true;
        PendingStartsAppend(biometricQueue, StartHbm);
        biometricQueue := biometricQueue + [StartHbm];
        startsDispatched := startsDispatched + 1;
      }
    }

    /** `disable(onHbmDisabled)`: queues the stop task when the request has
        started (each call queues another one), otherwise does nothing. */
    method Disable(onHbmDisabled: Option<Runnable>)
      requires Valid()
      modifies this
      ensures Valid()
      ensures biometricQueue == old(biometricQueue) + (if startedRequest then [StopHbm(onHbmDisabled)] else [])
      ensures startedRequest == old(startedRequest) && finishedStarting == old(finishedStarting)
      ensures mainQueue == old(mainQueue) && effects == old(effects)
    {
      if startedRequest {
        PendingStartsAppend(biometricQueue, StopHbm(onHbmDisabled));
        biometricQueue := biometricQueue + [StopHbm(onHbmDisabled)];
      }
    }

    /** The executor runs its oldest task: the backend call for the request's
        kind, then the follow-up posts to the main thread. A start task always
        ends with `finishedStarting` set. */
    method RunBiometricTask()
      requires Valid() && |biometricQueue| > 0
      modifies this
      ensures Valid()
      ensures biometricQueue == old(biometricQueue[1..])
      ensures startedRequest == old(startedRequest)
      ensures old(biometricQueue[0]).StartHbm? ==>
                && !old(finishedStarting) && finishedStarting
                && effects == old(effects) + [BackendEnable(hbmType, surface)]
                && mainQueue == old(mainQueue) + (if onHbmEnabled.Some? then [RunRunnable(onHbmEnabled.value)] else [])
      ensures old(biometricQueue[0]).StopHbm? ==>
                var cb := old(biometricQueue[0]).onHbmDisabled;
                && finishedStarting == old(finishedStarting)
                && effects == old(effects) + [BackendDisable(hbmType, surface)]
                && mainQueue == old(mainQueue) + [NotifyHbmDisabled] + (if cb.Some? then [RunRunnable(cb.value)] else [])
    {
      var task := biometricQueue[0];
      assert biometricQueue == [task] + biometricQueue[1..];
      biometricQueue := biometricQueue[1..];
      assert forall k :: 0 <= k < |biometricQueue| ==> biometricQueue[k] == old(biometricQueue)[k + 1];
      match task
      case StartHbm =>
        effects := effects + [BackendEnable(hbmType, surface)];
        if onHbmEnabled.Some? {
          mainQueue := mainQueue + [RunRunnable(onHbmEnabled.value)];
        }
        finishedStarting := true;
      case StopHbm(onHbmDisabled) =>
        effects := effects + [BackendDisable(hbmType, surface)];
        mainQueue := mainQueue + [NotifyHbmDisabled];
        if onHbmDisabled.Some? {
          mainQueue := mainQueue + [RunRunnable(onHbmDisabled.value)];
        }
    }

    /** The main thread runs its oldest posted task; `listener` is what the
        auth controller hands out at that moment (`Absent` is the
        NullPointerException of `!!`). */
    method RunMainTask(listener: ListenerStatus)
      requires |mainQueue| > 0
      modifies this
      ensures mainQueue == old(mainQueue[1..])
      ensures biometricQueue == old(biometricQueue)
      ensures startedRequest == old(startedRequest) && finishedStarting == old(finishedStarting)
      ensures startsDispatched == old(startsDispatched)
      ensures old(mainQueue[0]).NotifyHbmDisabled? ==>
                effects == old(effects) + [ListenerHbmDisabled(hbmType, displayId, listener)]
      ensures old(mainQueue[0]).RunRunnable? ==> effects == old(effects) + [RunCallback(old(mainQueue[0]).callback)]
    {
      var task := mainQueue[0];
      mainQueue := mainQueue[1..];
      match task
      case NotifyHbmDisabled =>
        effects := effects + [ListenerHbmDisabled(hbmType, displayId, listener)];
      case RunRunnable(callback) =>
        effects := effects + [RunCallback(callback)];
    }
  }
}

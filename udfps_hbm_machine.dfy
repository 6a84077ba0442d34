/** The state of `UdfpsHbmController` as a value, and one pure transition per
    thing that can happen to it: a call from the fingerprint UI, a display
    change event, or one task running on the UI-background executor or on the
    main thread. The class in `UdfpsHbmControllerClass` is proved to make
    exactly these transitions; the lemmas here state what they guarantee. */
module HbmMachine {
  import opened Common
  import opened HbmTypes

  /** Work handed to the UI-background executor. */
  datatype BgTask =
    | DoEnable(args: Args)
    | DoDisable(args: Args, onHbmDisabled: Option<Runnable>)

  /** Work posted to the main-thread handler. `RunPosted(None)` is the
      message that posting a null runnable queues: it does nothing. */
  datatype MainTask =
    | FinishEnabling(callback: Runnable)
    | NotifyHbmDisabled(hbmType: HbmType, displayId: int)
    | RunPosted(posted: Option<Runnable>)

  /** A live request: its arguments and its two progress flags. */
  datatype RequestState = RequestState(args: Args, began: bool, finished: bool)

  /** Everything the controller holds, plus its two task queues (FIFO) and the
      calls it has made so far. `listening` is whether the controller is
      registered as a display listener. */
  datatype ControllerState = ControllerState(
    flavor: Flavor,
    displayId: int,
    peakRefreshRate: int,
    request: Option<RequestState>,
    listening: bool,
    uiBg: seq<BgTask>,
    main: seq<MainTask>,
    effects: seq<Effect>)

  function Initial(flavor: Flavor, displayId: int, peakRefreshRate: int): (s: ControllerState)
    ensures s.request.None? && !s.listening
    ensures s.uiBg == [] && s.main == [] && s.effects == []
  {
    ControllerState(flavor, displayId, peakRefreshRate, None, false, [], [], [])
  }

  predicate SameConfig(s: ControllerState, r: ControllerState) {
    r.flavor == s.flavor && r.displayId == s.displayId && r.peakRefreshRate == s.peakRefreshRate
  }

  /** `enableHbm` does nothing (it only logs) for an unsupported kind, for
      global HBM without a surface, when no acknowledgement listener is
      available, and while a request already exists. */
  predicate EnableRejected(s: ControllerState, hbmType: HbmType, surface: Option<Surface>, listener: ListenerStatus) {
    !IsSupported(hbmType)
    || (hbmType.GlobalHbm? && surface.None?)
    || listener == Absent
    || s.request.Some?
  }

  /** A display change event starts enabling exactly when a request exists
      for that display, the display runs at the request's required rate and
      enabling has not begun yet. */
  predicate DisplayChangeStartsEnabling(s: ControllerState, eventDisplayId: int, refreshRate: int) {
    s.request.Some?
    && eventDisplayId == s.request.value.args.displayId
    && refreshRate == RequiredRefreshRate(s.request.value.args.hbmType, s.peakRefreshRate)
    && !s.request.value.began
  }

  /** `onDisplayChanged(eventDisplayId)` while the display runs at
      `refreshRate`: mark the request as begun and hand the backend enable to
      the background executor, or else change nothing. */
  function OnDisplayChanged(s: ControllerState, eventDisplayId: int, refreshRate: int): (r: ControllerState)
    ensures SameConfig(s, r)
    ensures r != s <==> DisplayChangeStartsEnabling(s, eventDisplayId, refreshRate)
    ensures r.effects == s.effects && r.main == s.main && r.listening == s.listening
    ensures r.request.Some? <==> s.request.Some?
    ensures r.request.Some? ==> r.request.value.args == s.request.value.args && r.request.value.finished == s.request.value.finished
    ensures DisplayChangeStartsEnabling(s, eventDisplayId, refreshRate) ==>
              r.request.value.began && r.uiBg == s.uiBg + [DoEnable(s.request.value.args)]
  {
    if s.request.None? then s
    else
      var req := s.request.value;
      if eventDisplayId != req.args.displayId then s
      else if refreshRate != RequiredRefreshRate(req.args.hbmType, s.peakRefreshRate) then s
      else if req.began then s
      else s.(request := Some(req.(began := true)), uiBg := s.uiBg + [DoEnable(req.args)])
  }

  /** `enableHbm(hbmType, surface, onHbmEnabled)`: when accepted, create the
      request for the controller's display, register for display changes,
      tell the listener which kind is about to be enabled, and start enabling
      at once if the display already runs at the required rate. */
  function EnableHbm(s: ControllerState, hbmType: HbmType, surface: Option<Surface>, onHbmEnabled: Option<Runnable>,
                     listener: ListenerStatus, refreshRate: int): (r: ControllerState)
    ensures SameConfig(s, r)
    ensures EnableRejected(s, hbmType, surface, listener) ==> r == s
    ensures !EnableRejected(s, hbmType, surface, listener) ==>
              && r.request.Some?
              && r.request.value.args == Args(s.displayId, hbmType, surface, onHbmEnabled)
              && !r.request.value.finished
              && (r.request.value.began <==> refreshRate == RequiredRefreshRate(hbmType, s.peakRefreshRate))
              && r.listening
              && r.effects == s.effects + [RegisterDisplayListener, ListenerHbmEnabled(hbmType, s.displayId, listener == Delivered)]
              && r.uiBg == s.uiBg + (if r.request.value.began then [DoEnable(r.request.value.args)] else [])
              && r.main == s.main
  {
    if EnableRejected(s, hbmType, surface, listener) then s
    else
      var created := CreateRequest(s, hbmType, surface, onHbmEnabled, listener);
      if refreshRate == RequiredRefreshRate(hbmType, s.peakRefreshRate) then
        OnDisplayChanged(created, s.displayId, refreshRate)
      else created
  }

  /** The part of an accepted `enableHbm` before the refresh-rate check: the
      request is created, the display listener registered and the
      acknowledgement listener told. */
  function CreateRequest(s: ControllerState, hbmType: HbmType, surface: Option<Surface>, onHbmEnabled: Option<Runnable>,
                         listener: ListenerStatus): ControllerState
  {
    var args := Args(s.displayId, hbmType, surface, onHbmEnabled);
    s.(request := Some(RequestState(args, false, false)),
       listening := true,
       effects := s.effects + [RegisterDisplayListener, ListenerHbmEnabled(hbmType, args.displayId, listener == Delivered)])
  }

  /** `disableHbm(onHbmDisabled)`: with no request nothing happens; otherwise
      the backend disable is dispatched only if enabling had begun, and the
      request is dropped and the display listener unregistered in every case. */
  function DisableHbm(s: ControllerState, onHbmDisabled: Option<Runnable>): (r: ControllerState)
    ensures SameConfig(s, r)
    ensures s.request.None? ==> r == s
    ensures s.request.Some? ==>
              && r.request.None? && !r.listening
              && r.effects == s.effects + [UnregisterDisplayListener]
              && r.main == s.main
              && r.uiBg == s.uiBg + (if s.request.value.began then [DoDisable(s.request.value.args, onHbmDisabled)] else [])
  {
    if s.request.None? then s
    else
      var req := s.request.value;
      s.(request := None,
         listening := false,
         uiBg := if req.began then s.uiBg + [DoDisable(req.args, onHbmDisabled)] else s.uiBg,
         effects := s.effects + [UnregisterDisplayListener])
  }

  /** Main-thread work that a background task posts once its backend call is made. */
  function PostedAfter(flavor: Flavor, task: BgTask): seq<MainTask> {
    match task
    case DoEnable(args) =>
      if args.onHbmEnabled.Some? then [FinishEnabling(args.onHbmEnabled.value)] else []
    case DoDisable(args, cb) =>
      [NotifyHbmDisabled(args.hbmType, args.displayId)]
        + (if flavor == Java && cb.None? then [] else [RunPosted(cb)])
  }

  /** The UI-background executor runs its oldest task: it makes the backend
      call for the task's kind first and only then posts the follow-up work
      (the caller's enabled-callback; the listener notification and then the
      caller's disabled-callback) to the main thread. */
  function RunUiBackgroundTask(s: ControllerState): (r: ControllerState)
    requires |s.uiBg| > 0
    ensures SameConfig(s, r)
    ensures r.uiBg == s.uiBg[1..] && r.request == s.request && r.listening == s.listening
    ensures s.uiBg[0].DoEnable? ==>
              && r.effects == s.effects + [BackendEnable(s.uiBg[0].args.hbmType, s.uiBg[0].args.surface)]
              && (|r.main| == |s.main| + 1 <==> s.uiBg[0].args.onHbmEnabled.Some?)
    ensures s.uiBg[0].DoDisable? ==>
              && r.effects == s.effects + [BackendDisable(s.uiBg[0].args.hbmType, s.uiBg[0].args.surface)]
              && |r.main| > |s.main|
              && r.main[|s.main|] == NotifyHbmDisabled(s.uiBg[0].args.hbmType, s.uiBg[0].args.displayId)
    ensures r.main == s.main + PostedAfter(s.flavor, s.uiBg[0])
  {
    var task := s.uiBg[0];
    var backend := match task
      case DoEnable(args) => BackendEnable(args.hbmType, args.surface)
      case DoDisable(args, _) => BackendDisable(args.hbmType, args.surface);
    s.(uiBg := s.uiBg[1..], effects := s.effects + [backend], main := s.main + PostedAfter(s.flavor, task))
  }

  /** The main thread runs its oldest posted task. The enabled-callback task
      marks whichever request is current when it runs as finished. */
  function RunMainTask(s: ControllerState, listener: ListenerStatus): (r: ControllerState)
    requires |s.main| > 0
    ensures SameConfig(s, r)
    ensures r.main == s.main[1..] && r.uiBg == s.uiBg && r.listening == s.listening
    ensures r.request.Some? <==> s.request.Some?
    ensures r.request.Some? ==> r.request.value.args == s.request.value.args && r.request.value.began == s.request.value.began
    ensures r.request.Some? ==> (r.request.value.finished <==> s.request.value.finished || s.main[0].FinishEnabling?)
    ensures s.main[0].FinishEnabling? ==> r.effects == s.effects + [RunCallback(s.main[0].callback)]
    ensures s.main[0].NotifyHbmDisabled? ==>
              r.effects == s.effects + [ListenerHbmDisabled(s.main[0].hbmType, s.main[0].displayId, listener)]
    ensures s.main[0].RunPosted? ==>
              r.effects == s.effects + (if s.main[0].posted.Some? then [RunCallback(s.main[0].posted.value)] else [])
  {
    var rest := s.(main := s.main[1..]);
    match s.main[0]
    case FinishEnabling(cb) =>
      rest.(effects := s.effects + [RunCallback(cb)],
            request := if s.request.Some? then Some(s.request.value.(finished := true)) else None)
    case NotifyHbmDisabled(t, id) =>
      rest.(effects := s.effects + [ListenerHbmDisabled(t, id, listener)])
    case RunPosted(cb) =>
      if cb.Some? then rest.(effects := s.effects + [RunCallback(cb.value)]) else rest
  }

  // ---------------------------------------------------------------------
  // Traces

  /** One thing that can happen to the controller; the platform's answers
      (the listener, the current refresh rate) travel with it. */
  datatype Input =
    | Enable(hbmType: HbmType, surface: Option<Surface>, onHbmEnabled: Option<Runnable>, listener: ListenerStatus, refreshRate: int)
    | Disable(onHbmDisabled: Option<Runnable>)
    | DisplayChanged(eventDisplayId: int, refreshRate: int)
    | StepUiBackground
    | StepMain(listener: ListenerStatus)

  /** A step on an empty queue is a no-op. */
  function Apply(s: ControllerState, i: Input): ControllerState {
    match i
    case Enable(t, surface, cb, listener, rate) => EnableHbm(s, t, surface, cb, listener, rate)
    case Disable(cb) => DisableHbm(s, cb)
    case DisplayChanged(id, rate) => OnDisplayChanged(s, id, rate)
    case StepUiBackground => if |s.uiBg| > 0 then RunUiBackgroundTask(s) else s
    case StepMain(listener) => if |s.main| > 0 then RunMainTask(s, listener) else s
  }

  function Run(s: ControllerState, t: seq<Input>): ControllerState
    decreases |t|
  {
    if t == [] then s else Run(Apply(s, t[0]), t[1..])
  }

  // ---------------------------------------------------------------------
  // Invariant

  /** Arguments as the controller itself creates them: for its own display,
      of a supported kind, and with a surface whenever the kind is global. */
  predicate ArgsOk(s: ControllerState, a: Args) {
    a.displayId == s.displayId && IsSupported(a.hbmType) && (a.hbmType.GlobalHbm? ==> a.surface.Some?)
  }

  predicate NoUnsupportedBackendCall(effects: seq<Effect>) {
    forall k :: 0 <= k < |effects| ==>
      !effects[k].UnsupportedTypeLogged?
      && (effects[k].EnableGhbm? || effects[k].DisableGhbm? ==> effects[k].surface.Some?)
  }

  /** The controller listens for display changes exactly while a request
      exists, and has registered once more than it unregistered while it
      listens (as often otherwise); every request and every queued task
      carries well-formed arguments; and no backend call was ever made for an
      unsupported kind or for global HBM without a surface. */
  ghost predicate Inv(s: ControllerState) {
    && (s.listening <==> s.request.Some?)
    && (s.request.Some? ==> ArgsOk(s, s.request.value.args))
    && (forall k :: 0 <= k < |s.uiBg| ==> ArgsOk(s, s.uiBg[k].args))
    && (forall k :: 0 <= k < |s.main| ==>
          s.main[k].NotifyHbmDisabled? ==> s.main[k].displayId == s.displayId && IsSupported(s.main[k].hbmType))
    && NoUnsupportedBackendCall(s.effects)
    && CountOf(s.effects, RegisterDisplayListener)
       == CountOf(s.effects, UnregisterDisplayListener) + (if s.listening then 1 else 0)
  }

  lemma InitialInv(flavor: Flavor, displayId: int, peakRefreshRate: int)
    ensures Inv(Initial(flavor, displayId, peakRefreshRate))
  {
  }

  lemma {:induction false} AppendOneCounts(effects: seq<Effect>, e: Effect)
    ensures CountOf(effects + [e], RegisterDisplayListener)
            == CountOf(effects, RegisterDisplayListener) + (if e == RegisterDisplayListener then 1 else 0)
    ensures CountOf(effects + [e], UnregisterDisplayListener)
            == CountOf(effects, UnregisterDisplayListener) + (if e == UnregisterDisplayListener then 1 else 0)
  {
    CountOfAppend(effects, [e], RegisterDisplayListener);
    CountOfAppend(effects, [e], UnregisterDisplayListener);
    assert [e][..0] == [];
  }

  /** An accepted request is created in a state that already satisfies the
      invariant, so the display change that may follow starts from a valid
      state. */
  lemma CreatePreservesInv(s: ControllerState, t: HbmType, surface: Option<Surface>, cb: Option<Runnable>,
                           listener: ListenerStatus)
    requires Inv(s) && !EnableRejected(s, t, surface, listener)
    ensures Inv(CreateRequest(s, t, surface, cb, listener))
  {
    var r := CreateRequest(s, t, surface, cb, listener);
    var e1 := RegisterDisplayListener;
    var e2 := ListenerHbmEnabled(t, s.displayId, listener == Delivered);
    AppendOneCounts(s.effects, e1);
    AppendOneCounts(s.effects + [e1], e2);
    assert s.effects + [e1] + [e2] == r.effects;
  }

  lemma {:induction false} EnablePreservesInv(s: ControllerState, t: HbmType, surface: Option<Surface>, cb: Option<Runnable>,
                                              listener: ListenerStatus, rate: int)
    requires Inv(s)
    ensures Inv(EnableHbm(s, t, surface, cb, listener, rate))
  {
    if !EnableRejected(s, t, surface, listener) {
      CreatePreservesInv(s, t, surface, cb, listener);
    }
  }

  lemma {:induction false} DisablePreservesInv(s: ControllerState, cb: Option<Runnable>)
    requires Inv(s)
    ensures Inv(DisableHbm(s, cb))
  {
    if s.request.Some? {
      AppendOneCounts(s.effects, UnregisterDisplayListener);
    }
  }

  lemma {:induction false} UiBackgroundPreservesInv(s: ControllerState)
    requires Inv(s) && |s.uiBg| > 0
    ensures Inv(RunUiBackgroundTask(s))
  {
    var r := RunUiBackgroundTask(s);
    var task := s.uiBg[0];
    assert ArgsOk(s, task.args);
    var e := r.effects[|s.effects|];
    assert r.effects == s.effects + [e];
    AppendOneCounts(s.effects, e);
    assert forall k :: 0 <= k < |r.uiBg| ==> r.uiBg[k] == s.uiBg[k + 1];
  }

  lemma {:induction false} MainPreservesInv(s: ControllerState, listener: ListenerStatus)
    requires Inv(s) && |s.main| > 0
    ensures Inv(RunMainTask(s, listener))
  {
    var r := RunMainTask(s, listener);
    assert forall k :: 0 <= k < |r.main| ==> r.main[k] == s.main[k + 1];
    if r.effects != s.effects {
      var e := r.effects[|s.effects|];
      assert r.effects == s.effects + [e];
      AppendOneCounts(s.effects, e);
    }
  }

  /** Every transition keeps the invariant. */
  lemma {:induction false} ApplyPreservesInv(s: ControllerState, i: Input)
    requires Inv(s)
    ensures Inv(Apply(s, i))
  {
    match i
    case Enable(t, surface, cb, listener, rate) => EnablePreservesInv(s, t, surface, cb, listener, rate);
    case Disable(cb) => DisablePreservesInv(s, cb);
    case DisplayChanged(id, rate) =>
    case StepUiBackground => if |s.uiBg| > 0 { UiBackgroundPreservesInv(s); }
    case StepMain(listener) => if |s.main| > 0 { MainPreservesInv(s, listener); }
  }

  lemma {:induction false} RunPreservesInv(s: ControllerState, t: seq<Input>)
    requires Inv(s)
    ensures Inv(Run(s, t))
    decreases |t|
  {
    if t != [] {
      ApplyPreservesInv(s, t[0]);
      RunPreservesInv(Apply(s, t[0]), t[1..]);
    }
  }

  /** From construction on, whatever happens: the display listener is
      registered exactly while a request exists and every registration but
      the current one has been undone, and neither backend is ever called
      for an unsupported kind or global HBM without a surface. */
  lemma ReachableStatesAreValid(flavor: Flavor, displayId: int, peakRefreshRate: int, t: seq<Input>)
    ensures var s := Run(Initial(flavor, displayId, peakRefreshRate), t);
            && (s.listening <==> s.request.Some?)
            && CountOf(s.effects, RegisterDisplayListener)
               == CountOf(s.effects, UnregisterDisplayListener) + (if s.request.Some? then 1 else 0)
            && NoUnsupportedBackendCall(s.effects)
  {
    InitialInv(flavor, displayId, peakRefreshRate);
    RunPreservesInv(Initial(flavor, displayId, peakRefreshRate), t);
  }

  // ---------------------------------------------------------------------
  // At most one backend enable per request

  /** Whether the input handed a new backend-enable task to the background
      executor (only the two `Step` inputs remove tasks, and no input adds
      more than one). */
  predicate DispatchesEnable(s: ControllerState, i: Input) {
    var r := Apply(s, i);
    !i.StepUiBackground? && |r.uiBg| == |s.uiBg| + 1 && r.uiBg[|s.uiBg|].DoEnable?
  }

  function EnableDispatches(s: ControllerState, t: seq<Input>): nat
    decreases |t|
  {
    if t == [] then 0
    else (if DispatchesEnable(s, t[0]) then 1 else 0) + EnableDispatches(Apply(s, t[0]), t[1..])
  }

  lemma StepKeepsRequest(s: ControllerState, i: Input)
    requires s.request.Some? && !i.Disable?
    ensures Apply(s, i).request.Some?
    ensures Apply(s, i).request.value.args == s.request.value.args
    ensures s.request.value.began ==> Apply(s, i).request.value.began && !DispatchesEnable(s, i)
    ensures DispatchesEnable(s, i) ==> !s.request.value.began && Apply(s, i).request.value.began
  {
  }

  /** As long as a request is not disabled, the backend enable is dispatched
      for it at most once, and not at all once enabling has begun. */
  lemma {:induction false} AtMostOneEnableDispatch(s: ControllerState, t: seq<Input>)
    requires s.request.Some?
    requires forall k :: 0 <= k < |t| ==> !t[k].Disable?
    ensures EnableDispatches(s, t) <= if s.request.value.began then 0 else 1
    decreases |t|
  {
    if t != [] {
      StepKeepsRequest(s, t[0]);
      AtMostOneEnableDispatch(Apply(s, t[0]), t[1..]);
    }
  }

  // ---------------------------------------------------------------------
  // The enabled-callback task does not check which request it belongs to

  /** A callback task queued for one request can run after that request was
      disabled and a new one created; it then marks the new request finished
      although enabling the new request has not begun. */
  lemma StaleCompletionMarksNewRequest()
    ensures var s := Run(Initial(Java, 0, 120), [
              Enable(GlobalHbm, Some(Surface(1)), Some(Runnable(1)), Delivered, 60),
              StepUiBackground,
              Disable(None),
              Enable(GlobalHbm, Some(Surface(1)), Some(Runnable(2)), Delivered, 90),
              StepMain(Delivered)]);
            && s.request.Some?
            && s.request.value.args.onHbmEnabled == Some(Runnable(2))
            && s.request.value.finished
            && !s.request.value.began
            && s.effects[|s.effects| - 1] == RunCallback(Runnable(1))
  {
    var s0 := Initial(Java, 0, 120);
    var a1 := Args(0, GlobalHbm, Some(Surface(1)), Some(Runnable(1)));
    var s1 := Apply(s0, Enable(GlobalHbm, Some(Surface(1)), Some(Runnable(1)), Delivered, 60));
    assert s1.request == Some(RequestState(a1, true, false)) && s1.uiBg == [DoEnable(a1)];
    var s2 := Apply(s1, StepUiBackground);
    assert s2.main == [FinishEnabling(Runnable(1))];
    var s3 := Apply(s2, Disable(None));
    assert s3.request.None? && s3.main == s2.main;
    var s4 := Apply(s3, Enable(GlobalHbm, Some(Surface(1)), Some(Runnable(2)), Delivered, 90));
    assert s4.request.Some? && !s4.request.value.began && s4.main == s2.main;
    var s5 := Apply(s4, StepMain(Delivered));
    assert s5.request.value.finished && !s5.request.value.began;
  }
}

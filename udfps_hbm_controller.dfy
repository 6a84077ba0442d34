/** `UdfpsHbmController`: the object the fingerprint UI calls to switch the
    display's high-brightness mode on and off. Its fields change in place; its
    two executors are FIFO queues of tasks that the caller runs with
    `RunUiBackgroundTask` and `RunMainTask`; the platform's answers (the
    acknowledgement listener, the current refresh rate) are parameters. */
module UdfpsHbmControllerClass {
  import opened Common
  import opened HbmTypes
  import opened UdfpsHbmRequestRecord
  import M = HbmMachine

  /** `Injector.getPeakRefreshRate`: the largest refresh rate among the
      display's supported modes, starting from 0. */
  method GetPeakRefreshRate(modeRates: seq<int>) returns (peak: int)
    ensures peak >= 0
    ensures forall k :: 0 <= k < |modeRates| ==> modeRates[k] <= peak
    ensures peak == 0 || peak in modeRates
  {
    peak := 0;
    for k := 0 to |modeRates|
      invariant peak >= 0
      invariant forall j :: 0 <= j < k ==> modeRates[j] <= peak
      invariant peak == 0 || peak in modeRates[..k]
    {
      if modeRates[k] > peak {
        peak := modeRates[k];
      }
    }
  }

  class UdfpsHbmController {
    const flavor: Flavor
    /** `context.getDisplayId()`. */
    const displayId: int
    const peakRefreshRate: int
    var hbmRequest: UdfpsHbmRequest?
    /** Whether this controller is registered as a display listener. */
    var listening: bool
    var uiBgQueue: seq<M.BgTask>
    var mainQueue: seq<M.MainTask>
    var effects: seq<Effect>

    ghost function State(): M.ControllerState
      reads this, hbmRequest
    {
      M.ControllerState(
        flavor, displayId, peakRefreshRate,
        if hbmRequest == null then None
        else Some(M.RequestState(hbmRequest.args, hbmRequest.beganEnablingHbm, hbmRequest.finishedEnablingHbm)),
        listening, uiBgQueue, mainQueue, effects)
    }

    ghost predicate Valid()
      reads this, hbmRequest
    {
      M.Inv(State())
    }

    /** Reads the display's peak refresh rate once, from the refresh rates of
        its supported modes. */
    constructor (flavor: Flavor, displayId: int, modeRates: seq<int>)
      ensures State() == M.Initial(flavor, displayId, peakRefreshRate)
      ensures peakRefreshRate >= 0 && (forall k :: 0 <= k < |modeRates| ==> modeRates[k] <= peakRefreshRate)
      ensures Valid()
    {
      var peak := GetPeakRefreshRate(modeRates);
      this.flavor := flavor;
      this.displayId := displayId;
      this.peakRefreshRate := peak;
      hbmRequest := null;
      listening := false;
      uiBgQueue := [];
      mainQueue := [];
      effects := [];
      new;
      M.InitialInv(flavor, displayId, peak);
    }

    method EnableHbm(hbmType: HbmType, surface: Option<Surface>, onHbmEnabled: Option<Runnable>,
                     listener: ListenerStatus, refreshRate: int)
      requires Valid()
      modifies this
      ensures State() == M.EnableHbm(old(State()), hbmType, surface, onHbmEnabled, listener, refreshRate)
      ensures Valid()
    {
      ghost var before := State();
      if !IsSupported(hbmType) {
      } else if hbmType.GlobalHbm? && surface.None? {
      } else if listener == Absent {
      } else if hbmRequest != null {
      } else {
        hbmRequest := new UdfpsHbmRequest(displayId, hbmType, surface, onHbmEnabled);
        listening := true;
        effects := effects + [RegisterDisplayListener];
        effects := effects + [ListenerHbmEnabled(hbmRequest.args.hbmType, hbmRequest.args.displayId, listener == Delivered)];
        M.CreatePreservesInv(before, hbmType, surface, onHbmEnabled, listener);
        assert State() == M.CreateRequest(before, hbmType, surface, onHbmEnabled, listener);
        if refreshRate == RequiredRefreshRate(hbmRequest.args.hbmType, peakRefreshRate) {
          OnDisplayChanged(hbmRequest.args.displayId, refreshRate);
        }
      }
      M.EnablePreservesInv(before, hbmType, surface, onHbmEnabled, listener, refreshRate);
    }

    /** Display change event for `eventDisplayId`, while the display runs at
        `refreshRate`. Enabling begins here: the backend enable is handed to
        the background executor (`doEnableHbm`). */
    method OnDisplayChanged(eventDisplayId: int, refreshRate: int)
      requires Valid()
      modifies this, hbmRequest
      ensures State() == M.OnDisplayChanged(old(State()), eventDisplayId, refreshRate)
      ensures hbmRequest == old(hbmRequest)
      ensures Valid()
    {
      var request := hbmRequest;
      if request == null {
      } else if eventDisplayId != request.args.displayId {
      } else if refreshRate != RequiredRefreshRate(request.args.hbmType, peakRefreshRate) {
      } else if !request.beganEnablingHbm {
        request.beganEnablingHbm := true;
        uiBgQueue := uiBgQueue + [M.DoEnable(request.args)];
      }
    }

    method DisableHbm(onHbmDisabled: Option<Runnable>)
      requires Valid()
      modifies this
      ensures State() == M.DisableHbm(old(State()), onHbmDisabled)
      ensures Valid()
    {
      M.DisablePreservesInv(State(), onHbmDisabled);
      if hbmRequest == null {
        return;
      }
      var request := hbmRequest;
      if request.beganEnablingHbm {
        uiBgQueue := uiBgQueue + [M.DoDisable(request.args, onHbmDisabled)];
      }
      effects := effects + [UnregisterDisplayListener];
      listening := false;
      hbmRequest := null;
    }

    /** The UI-background executor runs its oldest task (the body of
        `doEnableHbm` or `doDisableHbm`). */
    method RunUiBackgroundTask()
      requires Valid() && |uiBgQueue| > 0
      modifies this
      ensures State() == M.RunUiBackgroundTask(old(State()))
      ensures Valid()
    {
      ghost var after := M.RunUiBackgroundTask(State());
      M.UiBackgroundPreservesInv(State());
      var task := uiBgQueue[0];
      ghost var posted := M.PostedAfter(flavor, task);
      ghost var main0 := mainQueue;
      uiBgQueue := uiBgQueue[1..];
      match task
      case DoEnable(args) =>
        effects := effects + [BackendEnable(args.hbmType, args.surface)];
        if args.onHbmEnabled.Some? {
          mainQueue := mainQueue + [M.FinishEnabling(args.onHbmEnabled.value)];
        }
        assert mainQueue == main0 + posted;
      case DoDisable(args, onHbmDisabled) =>
        effects := effects + [BackendDisable(args.hbmType, args.surface)];
        mainQueue := mainQueue + [M.NotifyHbmDisabled(args.hbmType, args.displayId)];
        if flavor == Kotlin || onHbmDisabled.Some? {
          mainQueue := mainQueue + [M.RunPosted(onHbmDisabled)];
        }
        assert mainQueue == main0 + posted;
      assert uiBgQueue == after.uiBg && mainQueue == after.main && effects == after.effects;
    }

    /** The main thread runs its oldest posted task; `listener` is what the
        auth controller hands out at that moment. */
    method RunMainTask(listener: ListenerStatus)
      requires Valid() && |mainQueue| > 0
      modifies this, hbmRequest
      ensures State() == M.RunMainTask(old(State()), listener)
      ensures Valid()
    {
      M.MainPreservesInv(State(), listener);
      var task := mainQueue[0];
      mainQueue := mainQueue[1..];
      match task
      case FinishEnabling(callback) =>
        effects := effects + [RunCallback(callback)];
        var request := hbmRequest;
        if request != null {
          request.finishedEnablingHbm := true;
        }
      case NotifyHbmDisabled(t, id) =>
        effects := effects + [ListenerHbmDisabled(t, id, listener)];
      case RunPosted(posted) =>
        if posted.Some? {
          effects := effects + [RunCallback(posted.value)];
        }
    }
  }
}

/** `AssistManagerGoogle`: picks the assistant UI controller (the default
    Google one or the NGA one) from assistant-presence updates, keeps a
    "check assistant status" flag that asks for a presence update at the
    start and end of every invocation, and routes UI hints. The UI handler's
    posted tasks are a FIFO queue stepped by `RunPostedHide`. */
module AssistManager {
  import opened Common

  /** `AssistUtils.INVOCATION_TYPE_PHYSICAL_GESTURE` (the squeeze gesture). */
  const INVOCATION_TYPE_PHYSICAL_GESTURE: int := 2
  /** `NAV_BAR_MODE_GESTURAL`, the navigation mode `isGesturalMode` tests for. */
  const NAV_BAR_MODE_GESTURAL: int := 2

  const ACTION_KEY: string := "action"
  const SET_ASSIST_GESTURE_CONSTRAINED_ACTION: string := "set_assist_gesture_constrained"
  const SHOW_GLOBAL_ACTIONS_ACTION: string := "show_global_actions"

  datatype UiController = DefaultUi | NgaUi

  /** A call made on a UI controller. */
  datatype UiCall =
    | InvocationProgress(controller: UiController, invocationType: int, progress: real)
    | GestureCompletion(controller: UiController, velocity: real)
    | Hide(controller: UiController)
    | SetGoogleAssistant(isGoogle: bool)

  /** The UI-hints bundle: its `action` string and its `should_constrain` flag. */
  datatype UiHints = UiHints(action: Option<string>, shouldConstrain: Option<bool>)

  /** Where `onSetUiHints` sends a bundle. */
  datatype HintRoute = SetConstrainedFlag(constrained: bool) | ShowGlobalActions | ToNgaHandler

  /** `shouldShowOrb`: the orb is never shown. */
  function ShouldShowOrb(): (r: bool)
    ensures !r
  {
    false
  }

  /** `shouldUseHomeButtonAnimations`: exactly when navigation is not gestural. */
  function ShouldUseHomeButtonAnimations(navigationMode: int): (r: bool)
    ensures r <==> navigationMode != NAV_BAR_MODE_GESTURAL
  {
    !(navigationMode == NAV_BAR_MODE_GESTURAL)
  }

  /** The controller an assistant-presence pair selects. */
  function ControllerFor(isNgaAssistant: bool): UiController {
    if isNgaAssistant then NgaUi else DefaultUi
  }

  /** The `onSetUiHints` dispatch: the constrain action sets the System UI
      flag (false when the key is missing), the global-actions action shows
      them, and every other bundle, an absent action included, goes to the
      NGA message handler. */
  function RouteUiHints(hints: UiHints): (r: HintRoute)
    ensures r.SetConstrainedFlag? <==> hints.action == Some(SET_ASSIST_GESTURE_CONSTRAINED_ACTION)
    ensures r.SetConstrainedFlag? ==> (r.constrained <==> hints.shouldConstrain == Some(true))
    ensures r.ShowGlobalActions? <==> hints.action == Some(SHOW_GLOBAL_ACTIONS_ACTION)
  {
    if hints.action == Some(SET_ASSIST_GESTURE_CONSTRAINED_ACTION) then
      SetConstrainedFlag(if hints.shouldConstrain.Some? then hints.shouldConstrain.value else false)
    else if hints.action == Some(SHOW_GLOBAL_ACTIONS_ACTION) then ShowGlobalActions
    else ToNgaHandler
  }

  /** Whether `onInvocationProgress` forwards the progress to the UI
      controller: a squeeze only once its setup is complete, anything else
      always. */
  predicate ForwardsProgress(invocationType: int, squeezeSetUp: bool) {
    invocationType != INVOCATION_TYPE_PHYSICAL_GESTURE || squeezeSetUp
  }

  class AssistManagerGoogle {
    var googleIsAssistant: bool
    var ngaIsAssistant: bool
    var navigationMode: int
    var squeezeSetUp: bool
    var uiController: UiController
    var checkAssistantStatus: bool
    /** `requestAssistantPresenceUpdate` calls made. */
    var presenceRequests: nat
    /** Hide tasks posted to the UI handler and not yet run. Each one hides
        whichever controller is active when it runs. */
    var pendingHides: nat
    /** Calls made on the UI controllers, in order. */
    var uiCalls: seq<UiCall>
    /** Values committed for the "assist gesture constrained" System UI flag. */
    var constrainedFlagUpdates: seq<bool>
    var globalActionsShown: nat
    /** Bundles handed to the NGA message handler. */
    var ngaBundles: seq<UiHints>

    /** The active controller is the one the stored NGA flag selects. */
    ghost predicate Valid()
      reads this
    {
      uiController == ControllerFor(ngaIsAssistant)
    }

    /** The constructor, with the navigation mode the mode controller reports. */
    constructor (initialNavigationMode: int)
      ensures Valid()
      ensures !googleIsAssistant && !ngaIsAssistant && navigationMode == initialNavigationMode && !squeezeSetUp
      ensures uiController == DefaultUi && checkAssistantStatus
      ensures presenceRequests == 0 && pendingHides == 0 && uiCalls == []
      ensures constrainedFlagUpdates == [] && globalActionsShown == 0 && ngaBundles == []
    {
      googleIsAssistant := false;
      ngaIsAssistant := false;
      navigationMode := initialNavigationMode;
      squeezeSetUp := false;
      uiController := DefaultUi;
      checkAssistantStatus := true;
      presenceRequests := 0;
      pendingHides := 0;
      uiCalls := [];
      constrainedFlagUpdates := [];
      globalActionsShown := 0;
      ngaBundles := [];
    }

    /** `isActiveAssistantNga`. */
    function IsActiveAssistantNga(): (r: bool)
      reads this
      requires Valid()
      ensures r <==> uiController == NgaUi
    {
      ngaIsAssistant
    }

    /** The navigation-mode listener. */
    method OnNavigationModeChanged(mode: int)
      requires Valid()
      modifies this
      ensures Valid() && navigationMode == mode
      ensures googleIsAssistant == old(googleIsAssistant) && ngaIsAssistant == old(ngaIsAssistant)
      ensures uiController == old(uiController) && checkAssistantStatus == old(checkAssistantStatus)
      ensures squeezeSetUp == old(squeezeSetUp) && presenceRequests == old(presenceRequests)
      ensures pendingHides == old(pendingHides) && uiCalls == old(uiCalls)
      ensures constrainedFlagUpdates == old(constrainedFlagUpdates) && globalActionsShown == old(globalActionsShown)
      ensures ngaBundles == old(ngaBundles)
    {
      navigationMode := mode;
    }

    /** The assistant-presence listener. A new (google, nga) pair switches to
        the controller it selects, posting a hide when that is a switch, and
        tells the default controller the google flag when NGA is not the
        assistant; then the pair is stored. The check flag is always cleared. */
    method OnAssistantPresenceChanged(isGoogleAssistant: bool, isNgaAssistant: bool)
      requires Valid()
      modifies this
      ensures Valid()
      ensures !checkAssistantStatus
      ensures googleIsAssistant == isGoogleAssistant && ngaIsAssistant == isNgaAssistant
      ensures old(googleIsAssistant) == isGoogleAssistant && old(ngaIsAssistant) == isNgaAssistant ==>
                uiController == old(uiController) && pendingHides == old(pendingHides) && uiCalls == old(uiCalls)
      ensures !(old(googleIsAssistant) == isGoogleAssistant && old(ngaIsAssistant) == isNgaAssistant) ==>
                && uiController == ControllerFor(isNgaAssistant)
                && pendingHides == old(pendingHides) + (if uiController != old(uiController) then 1 else 0)
                && uiCalls == old(uiCalls) + (if isNgaAssistant then [] else [SetGoogleAssistant(isGoogleAssistant)])
      ensures navigationMode == old(navigationMode) && squeezeSetUp == old(squeezeSetUp)
      ensures presenceRequests == old(presenceRequests)
      ensures constrainedFlagUpdates == old(constrainedFlagUpdates) && globalActionsShown == old(globalActionsShown)
      ensures ngaBundles == old(ngaBundles)
    {
      if !(googleIsAssistant == isGoogleAssistant && ngaIsAssistant == isNgaAssistant) {
        if !isNgaAssistant {
          if uiController != DefaultUi {
            uiController := DefaultUi;
            pendingHides := pendingHides + 1;
          }
          uiCalls := uiCalls + [SetGoogleAssistant(isGoogleAssistant)];
        } else if uiController != NgaUi {
          uiController := NgaUi;
          pendingHides := pendingHides + 1;
        }
        googleIsAssistant := isGoogleAssistant;
        ngaIsAssistant := isNgaAssistant;
      }
      checkAssistantStatus := false;
    }

    /** The UI handler runs the oldest posted hide: it hides the controller
        active now. */
    method RunPostedHide()
      requires Valid() && pendingHides > 0
      modifies this
      ensures Valid()
      ensures pendingHides == old(pendingHides) - 1
      ensures uiCalls == old(uiCalls) + [Hide(uiController)]
      ensures googleIsAssistant == old(googleIsAssistant) && ngaIsAssistant == old(ngaIsAssistant)
      ensures uiController == old(uiController) && checkAssistantStatus == old(checkAssistantStatus)
      ensures navigationMode == old(navigationMode) && squeezeSetUp == old(squeezeSetUp)
      ensures presenceRequests == old(presenceRequests)
      ensures constrainedFlagUpdates == old(constrainedFlagUpdates) && globalActionsShown == old(globalActionsShown)
      ensures ngaBundles == old(ngaBundles)
    {
      pendingHides := pendingHides - 1;
      uiCalls := uiCalls + [Hide(uiController)];
    }

    /** `onInvocationProgress`. A progress of exactly 0 or 1 raises the check
        flag (and, for a squeeze, re-reads whether squeeze setup is complete,
        `setupComplete`); a raised flag asks for a presence update and is
        cleared; the progress goes to the active controller unless it is a
        squeeze whose setup is incomplete. */
    method OnInvocationProgress(invocationType: int, progress: real, setupComplete: bool)
      requires Valid()
      modifies this
      ensures Valid()
      ensures !checkAssistantStatus
      ensures var boundary := progress == 0.0 || progress == 1.0;
              && presenceRequests == old(presenceRequests) + (if boundary || old(checkAssistantStatus) then 1 else 0)
              && squeezeSetUp == (if boundary && invocationType == INVOCATION_TYPE_PHYSICAL_GESTURE
                                  then setupComplete else old(squeezeSetUp))
      ensures uiCalls == old(uiCalls) +
                (if ForwardsProgress(invocationType, squeezeSetUp) then [InvocationProgress(uiController, invocationType, progress)]
                 else [])
      ensures googleIsAssistant == old(googleIsAssistant) && ngaIsAssistant == old(ngaIsAssistant)
      ensures uiController == old(uiController) && navigationMode == old(navigationMode)
      ensures pendingHides == old(pendingHides)
      ensures constrainedFlagUpdates == old(constrainedFlagUpdates) && globalActionsShown == old(globalActionsShown)
      ensures ngaBundles == old(ngaBundles)
    {
      if progress == 0.0 || progress == 1.0 {
        checkAssistantStatus := true;
        if invocationType == INVOCATION_TYPE_PHYSICAL_GESTURE {
          squeezeSetUp := setupComplete;
        }
      }
      if checkAssistantStatus {
        presenceRequests := presenceRequests + 1;
        checkAssistantStatus := false;
      }
      if invocationType != INVOCATION_TYPE_PHYSICAL_GESTURE || squeezeSetUp {
        uiCalls := uiCalls + [InvocationProgress(uiController, invocationType, progress)];
      }
    }

    /** `onGestureCompletion`: raise the check flag and pass the velocity to
        the active controller. */
    method OnGestureCompletion(velocity: real)
      requires Valid()
      modifies this
      ensures Valid()
      ensures checkAssistantStatus
      ensures uiCalls == old(uiCalls) + [GestureCompletion(uiController, velocity)]
      ensures googleIsAssistant == old(googleIsAssistant) && ngaIsAssistant == old(ngaIsAssistant)
      ensures uiController == old(uiController) && navigationMode == old(navigationMode)
      ensures squeezeSetUp == old(squeezeSetUp) && presenceRequests == old(presenceRequests)
      ensures pendingHides == old(pendingHides)
      ensures constrainedFlagUpdates == old(constrainedFlagUpdates) && globalActionsShown == old(globalActionsShown)
      ensures ngaBundles == old(ngaBundles)
    {
      checkAssistantStatus := true;
      uiCalls := uiCalls + [GestureCompletion(uiController, velocity)];
    }

    /** `onSetUiHints`; `globalActionsFails` is a `RemoteException` from the
        window manager, which is logged and dropped. */
    method OnSetUiHints(hints: UiHints, globalActionsFails: bool)
      requires Valid()
      modifies this
      ensures Valid()
      ensures var route := RouteUiHints(hints);
              && constrainedFlagUpdates == old(constrainedFlagUpdates) +
                   (if route.SetConstrainedFlag? then [route.constrained] else [])
              && globalActionsShown == old(globalActionsShown) + (if route.ShowGlobalActions? && !globalActionsFails then 1 else 0)
              && ngaBundles == old(ngaBundles) + (if route.ToNgaHandler? then [hints] else [])
      ensures googleIsAssistant == old(googleIsAssistant) && ngaIsAssistant == old(ngaIsAssistant)
      ensures uiController == old(uiController) && checkAssistantStatus == old(checkAssistantStatus)
      ensures navigationMode == old(navigationMode) && squeezeSetUp == old(squeezeSetUp)
      ensures presenceRequests == old(presenceRequests) && pendingHides == old(pendingHides) && uiCalls == old(uiCalls)
    {
      var action := hints.action;
      if action == Some(SET_ASSIST_GESTURE_CONSTRAINED_ACTION) {
        var constrained := if hints.shouldConstrain.Some? then hints.shouldConstrain.value else false;
        constrainedFlagUpdates := constrainedFlagUpdates + [constrained];
      } else if action == Some(SHOW_GLOBAL_ACTIONS_ACTION) {
        if !globalActionsFails {
          globalActionsShown := globalActionsShown + 1;
        }
      } else {
        ngaBundles := ngaBundles + [hints];
      }
    }

    /** `mOnProcessBundle`, which the NGA message handler may run: ask for a
        presence update and clear the check flag. */
    method OnProcessBundle()
      requires Valid()
      modifies this
      ensures Valid()
      ensures !checkAssistantStatus && presenceRequests == old(presenceRequests) + 1
      ensures googleIsAssistant == old(googleIsAssistant) && ngaIsAssistant == old(ngaIsAssistant)
      ensures uiController == old(uiController) && navigationMode == old(navigationMode)
      ensures squeezeSetUp == old(squeezeSetUp) && pendingHides == old(pendingHides) && uiCalls == old(uiCalls)
      ensures constrainedFlagUpdates == old(constrainedFlagUpdates) && globalActionsShown == old(globalActionsShown)
      ensures ngaBundles == old(ngaBundles)
    {
      presenceRequests := presenceRequests + 1;
      checkAssistantStatus := false;
    }
  }

  /** The posted hide reads the active controller when it runs, not when it
      is posted: if NGA becomes the assistant and then stops being it before
      the UI handler runs, both hides go to the default controller and the
      NGA controller is never hidden. */
  method HidesFollowTheActiveController() returns (calls: seq<UiCall>)
    ensures calls == [SetGoogleAssistant(true), Hide(DefaultUi), Hide(DefaultUi)]
    ensures Hide(NgaUi) !in calls
  {
    var m := new AssistManagerGoogle(0);
    m.OnAssistantPresenceChanged(true, true);
    assert m.uiController == NgaUi && m.pendingHides == 1;
    m.OnAssistantPresenceChanged(true, false);
    assert m.uiController == DefaultUi && m.pendingHides == 2;
    m.RunPostedHide();
    m.RunPostedHide();
    calls := m.uiCalls;
  }
}

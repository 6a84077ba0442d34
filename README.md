# UDFPS high-brightness mode and System UI decision components, in Dafny

This project models the part of a System UI build (BenzoRom's Google System UI
variant) that makes decisions. It covers:

- **Fingerprint HBM controller.** `UdfpsHbmController`, in both its Java and
  its Kotlin twin, switches the display's high-brightness mode (HBM) on and
  off for the under-display fingerprint sensor.
- **HBM request records.** The immutable `UdfpsHbmRequest` record, and the
  self-contained `HbmRequest` written in Kotlin.
- **Local-HBM provider.** `UdfpsLhbmProvider` reaches the Pixel display HAL.
- **Battery and charging.** The battery controller extension for reverse
  (power-share) charging and the extreme battery saver. Also the status bar's
  charging-animation bookkeeping, and the auto-add rules for the reverse and
  overlay tiles.
- **Keyguard slice.** The provider decides what the lock-screen slice shows
  and when it notifies its observers.
- **Assistant.** The manager picks the assistant UI controller and routes UI
  hints.
- **Quick-settings tiles.** Caffeine, reverse charging and overlay toggle.
- **CPU info overlay.** It samples CPU state, encodes the sample as text and
  parses it again.
- **`DeviceUtils` helpers.** Screen class, navigation bar, and the
  "kill the foreground app" rule.

**How things are modelled.**

- **Classes.** Objects whose fields change become Dafny classes.
- **Executors and handlers.** Background executors and main-thread handlers
  become FIFO queues of tasks. The caller steps them with `Run…` methods.
- **Collaborators.** Calls made on collaborators (listeners, providers,
  callbacks) are appended to logs, so contracts can say what was called, in
  which order.
- **Platform inputs.** Whatever the platform answers arrives as a method
  parameter. That includes clocks, settings, system properties, sysfs file
  contents, binder answers and `RemoteException`s.

**Twins.** Where a component exists as a Java and a Kotlin twin, one model
carries a `Flavor` and follows both. The twins differ in three places:

- **`UdfpsHbmController.doDisableHbm`.** When `onHbmDisabled` is null, the Kotlin
  twin still posts it. That post is a no-op message. The Java twin only logs.
- **`UdfpsLhbmProvider`.** When no HAL service is declared, the Kotlin getter
  throws `NullPointerException`, because its local is a non-null `IBinder`.
  The Java getter returns null.
- **Keyguard slice.** The Java twin gives the card header a primary action
  when the card has an icon *or* a pending intent. The Kotlin twin needs both.

The two `AutoTileManagerGoogle` twins behave identically.

**The HBM controller's two levels.** `HbmMachine` describes the controller as
a value with one pure transition per event. `UdfpsHbmControllerClass` is the
imperative class, and each of its methods is proved to perform exactly the
matching transition. The invariants, and the lemmas about arbitrary event
traces, are stated over the machine.

## Model

| member | source | states |
|---|---|---|
| HbmTypes.BackendEnable | packages/SystemUI/src/com/benzorom/systemui/fingerprint/UdfpsHbmController.java:179-186 | switching on calls the global provider (with the surface) exactly for global HBM and the local provider exactly for local HBM; any other kind only logs |
| HbmTypes.BackendDisable | packages/SystemUI/src/com/benzorom/systemui/fingerprint/UdfpsHbmController.java:227-234 | the same split for switching off |
| UdfpsHbmRequestRecord.UdfpsHbmRequest.constructor | packages/SystemUI/src/com/benzorom/systemui/fingerprint/UdfpsHbmRequest.java:23-51 | the request's arguments are the given ones and neither progress flag is set |
| HbmMachine.Initial | packages/SystemUI/src/com/benzorom/systemui/fingerprint/UdfpsHbmController.java:121-141 | a new controller has no request, is not a display listener, and has no queued work or calls |
| HbmMachine.OnDisplayChanged | packages/SystemUI/src/com/benzorom/systemui/fingerprint/UdfpsHbmController.java:252-276 | the state changes if and only if a request exists for that display, the display runs at the required rate and enabling has not begun; it then marks the request begun and queues exactly one backend enable |
| HbmMachine.EnableHbm | packages/SystemUI/src/com/benzorom/systemui/fingerprint/UdfpsHbmController.java:144-175 | an unsupported kind, global HBM without a surface, a missing listener or an existing request leave everything unchanged; otherwise a request for the controller's own display is created, the listener is registered and told the kind, and enabling begins at once exactly when the display already runs at the required rate |
| HbmMachine.DisableHbm | packages/SystemUI/src/com/benzorom/systemui/fingerprint/UdfpsHbmController.java:203-222 | with no request nothing changes; otherwise the request is dropped and the display listener unregistered, and a backend disable is queued only if enabling had begun |
| HbmMachine.RunUiBackgroundTask | packages/SystemUI/src/com/benzorom/systemui/fingerprint/UdfpsHbmController.kt:191-221 | the oldest background task makes its backend call first and then posts its follow-up work (the enabled callback; the listener notification and then the disabled callback), with the Kotlin twin also posting a null callback |
| HbmMachine.RunMainTask | packages/SystemUI/src/com/benzorom/systemui/fingerprint/UdfpsHbmController.java:189-195 | the oldest main-thread task runs; the enabled-callback task marks whichever request is current as finished, and the listener notification reports the listener's status |
| HbmMachine.InitialInv | packages/SystemUI/src/com/benzorom/systemui/fingerprint/UdfpsHbmController.java:121-141 | the initial state satisfies the controller invariant |
| HbmMachine.EnablePreservesInv | packages/SystemUI/src/com/benzorom/systemui/fingerprint/UdfpsHbmController.java:144-175 | enableHbm keeps the invariant: listening exactly while a request exists, registrations balanced, well-formed arguments, no backend call for an unsupported kind or a missing surface |
| HbmMachine.CreatePreservesInv | packages/SystemUI/src/com/benzorom/systemui/fingerprint/UdfpsHbmController.java:159-169 | creating an accepted request (register the display listener, tell the acknowledgement listener) already yields a state satisfying the invariant, before the refresh-rate check may start enabling |
| HbmMachine.DisablePreservesInv | packages/SystemUI/src/com/benzorom/systemui/fingerprint/UdfpsHbmController.java:203-222 | disableHbm keeps the invariant |
| HbmMachine.UiBackgroundPreservesInv | packages/SystemUI/src/com/benzorom/systemui/fingerprint/UdfpsHbmController.java:177-200 | a background task keeps the invariant |
| HbmMachine.MainPreservesInv | packages/SystemUI/src/com/benzorom/systemui/fingerprint/UdfpsHbmController.java:236-248 | a main-thread task keeps the invariant |
| HbmMachine.ApplyPreservesInv | packages/SystemUI/src/com/benzorom/systemui/fingerprint/UdfpsHbmController.java:144-276 | every event keeps the invariant |
| HbmMachine.RunPreservesInv | packages/SystemUI/src/com/benzorom/systemui/fingerprint/UdfpsHbmController.java:144-276 | every trace of events keeps the invariant |
| HbmMachine.ReachableStatesAreValid | packages/SystemUI/src/com/benzorom/systemui/fingerprint/UdfpsHbmController.java:144-276 | after any sequence of events from construction, the controller listens for display changes exactly while a request exists, has unregistered every registration but the current one, and never called a backend for an unsupported kind or for global HBM without a surface |
| HbmMachine.StepKeepsRequest | packages/SystemUI/src/com/benzorom/systemui/fingerprint/UdfpsHbmController.java:262-275 | any event other than a disable keeps the request and its arguments; once enabling has begun it stays begun and no further enable is dispatched |
| HbmMachine.AtMostOneEnableDispatch | packages/SystemUI/src/com/benzorom/systemui/fingerprint/UdfpsHbmController.java:262-275 | until the request is disabled, its backend enable is dispatched at most once, and not at all if enabling had already begun |
| HbmMachine.StaleCompletionMarksNewRequest | packages/SystemUI/src/com/benzorom/systemui/fingerprint/UdfpsHbmController.java:189-195 | a concrete trace: the first request's enabled callback runs after that request was replaced, and marks the new request finished although enabling it has not begun |
| UdfpsHbmControllerClass.GetPeakRefreshRate | packages/SystemUI/src/com/benzorom/systemui/fingerprint/UdfpsHbmController.java:89-95 | the peak is the largest supported mode rate, or 0 when no rate is positive |
| UdfpsHbmControllerClass.UdfpsHbmController.constructor | packages/SystemUI/src/com/benzorom/systemui/fingerprint/UdfpsHbmController.java:121-141 | the new controller is in the machine's initial state with the display's peak refresh rate, and satisfies the invariant |
| UdfpsHbmControllerClass.UdfpsHbmController.EnableHbm | packages/SystemUI/src/com/benzorom/systemui/fingerprint/UdfpsHbmController.java:144-175 | the object's new state is the machine's EnableHbm transition, and the invariant is kept |
| UdfpsHbmControllerClass.UdfpsHbmController.OnDisplayChanged | packages/SystemUI/src/com/benzorom/systemui/fingerprint/UdfpsHbmController.java:252-276 | the object's new state is the machine's OnDisplayChanged transition, and the invariant is kept |
| UdfpsHbmControllerClass.UdfpsHbmController.DisableHbm | packages/SystemUI/src/com/benzorom/systemui/fingerprint/UdfpsHbmController.java:203-222 | the object's new state is the machine's DisableHbm transition, and the invariant is kept |
| UdfpsHbmControllerClass.UdfpsHbmController.RunUiBackgroundTask | packages/SystemUI/src/com/benzorom/systemui/fingerprint/UdfpsHbmController.java:177-250 | running the oldest background task (doEnableHbm / doDisableHbm) is the machine's transition, and the invariant is kept |
| UdfpsHbmControllerClass.UdfpsHbmController.RunMainTask | packages/SystemUI/src/com/benzorom/systemui/fingerprint/UdfpsHbmController.java:236-248 | running the oldest main-thread task is the machine's transition, and the invariant is kept |
| HbmRequestClass.HbmRequest.constructor | packages/SystemUI/src/com/benzorom/systemui/fingerprint/HbmRequest.kt:30-49 | a new request has not started, has nothing queued and has made no calls |
| HbmRequestClass.HbmRequest.Enable | packages/SystemUI/src/com/benzorom/systemui/fingerprint/HbmRequest.kt:51-82 | only the first call queues the start task, so the start task is dispatched once per request |
| HbmRequestClass.HbmRequest.Disable | packages/SystemUI/src/com/benzorom/systemui/fingerprint/HbmRequest.kt:84-126 | a started request queues one stop task per call; a request that never started does nothing |
| HbmRequestClass.HbmRequest.RunBiometricTask | packages/SystemUI/src/com/benzorom/systemui/fingerprint/HbmRequest.kt:54-124 | a start task calls the backend, posts the enabled callback and always sets finishedStarting (the finally block); a stop task calls the backend and posts the listener notification, then the disabled callback if there is one |
| HbmRequestClass.HbmRequest.RunMainTask | packages/SystemUI/src/com/benzorom/systemui/fingerprint/HbmRequest.kt:104-122 | the notification reaches the listener with its status (a missing listener is the `!!` failure); a posted callback runs |
| UdfpsLhbmProviderClass.UdfpsLhbmProvider.constructor | packages/SystemUI/src/com/benzorom/systemui/fingerprint/UdfpsLhbmProvider.java:30-32 | construction resolves the HAL eagerly: the proxy is cached, and the death link made, exactly when the lookup resolves |
| UdfpsLhbmProviderClass.UdfpsLhbmProvider.GetDisplayHal | packages/SystemUI/src/com/benzorom/systemui/fingerprint/UdfpsLhbmProvider.java:62-82 | a cached proxy is returned without a lookup; otherwise the proxy is cached and returned exactly when a service is found and linked to death; when no service is declared, the Java twin gets null and the Kotlin twin throws |
| UdfpsLhbmProviderClass.UdfpsLhbmProvider.SetLhbm | packages/SystemUI/src/com/benzorom/systemui/fingerprint/UdfpsLhbmProvider.java:34-60 | the HAL is asked to set the state if and only if a proxy is cached or the lookup resolves, and the call goes to the cached proxy when there is one, without a lookup; the proxy is cached, and its death link recorded, exactly when a lookup was needed and resolved; a failing call only changes the outcome; without a proxy no call is made, and the Kotlin twin throws when no service is declared |
| UdfpsLhbmProviderClass.UdfpsLhbmProvider.EnableLhbm | packages/SystemUI/src/com/benzorom/systemui/fingerprint/UdfpsLhbmProvider.java:34-46 | the same full contract as SetLhbm (call target, cache, death links, no call without a proxy, outcome) with the state on |
| UdfpsLhbmProviderClass.UdfpsLhbmProvider.DisableLhbm | packages/SystemUI/src/com/benzorom/systemui/fingerprint/UdfpsLhbmProvider.java:48-60 | the same full contract as SetLhbm with the state off |
| UdfpsLhbmProviderClass.UdfpsLhbmProvider.BinderDied | packages/SystemUI/src/com/benzorom/systemui/fingerprint/UdfpsLhbmProvider.java:84-87 | the cached proxy is forgotten, so the next call looks the service up again |
| KeyguardSlice.SmartSpaceCard.constructor | packages/SystemUI/src/com/benzorom/systemui/keyguard/KeyguardSliceProviderGoogle.java:119-137 | a card holds the fields the provider reads, and its icon starts unprocessed |
| KeyguardSlice.ShowCard | packages/SystemUI/src/com/benzorom/systemui/keyguard/KeyguardSliceProviderGoogle.java:120-129 | the card is shown if and only if it is present, unexpired and titled, and either not sensitive or not hidden by the flag for its kind (work or personal) |
| KeyguardSlice.ShowCardMonotone | packages/SystemUI/src/com/benzorom/systemui/keyguard/KeyguardSliceProviderGoogle.java:120-129 | raising a hide flag never makes a card appear, and a non-sensitive card ignores the flags |
| KeyguardSlice.HasPrimaryAction | packages/SystemUI/src/com/benzorom/systemui/keyguard/KeyguardSliceProviderGoogle.kt:89-95 | the Java twin gives the header an action when the card has an icon or a pending intent; the Kotlin twin needs both |
| KeyguardSlice.PrimaryActionTwins | packages/SystemUI/src/com/benzorom/systemui/keyguard/KeyguardSliceProviderGoogle.java:131-137 | a Kotlin action implies a Java action, and the twins disagree exactly when a card has one of the two but not both |
| KeyguardSlice.WeatherRowFor | packages/SystemUI/src/com/benzorom/systemui/keyguard/KeyguardSliceProviderGoogle.java:177-190 | a weather row appears exactly for a present, unexpired weather card, with its title and with an end icon exactly when the card has an icon |
| KeyguardSlice.BindSlice | packages/SystemUI/src/com/benzorom/systemui/keyguard/KeyguardSliceProviderGoogle.java:115-175 | the card slice is built exactly when the card may be shown: the card's title in the header, the twin's primary action, and a calendar row exactly when there is a subtitle; otherwise the slice is the default one with the weather row |
| KeyguardSlice.KeyguardSliceProviderGoogle.constructor | packages/SystemUI/src/com/benzorom/systemui/keyguard/KeyguardSliceProviderGoogle.java:47-48 | sensitive content starts visible and work content hidden; no data, listener, notification or shadow task yet |
| KeyguardSlice.KeyguardSliceProviderGoogle.OnCreateSliceProvider | packages/SystemUI/src/com/benzorom/systemui/keyguard/KeyguardSliceProviderGoogle.java:101-107 | the provider starts with empty smartspace data and listens to the smartspace controller |
| KeyguardSlice.KeyguardSliceProviderGoogle.OnDestroy | packages/SystemUI/src/com/benzorom/systemui/keyguard/KeyguardSliceProviderGoogle.java:109-113 | the listener is removed and nothing else changes |
| KeyguardSlice.KeyguardSliceProviderGoogle.NotifyChange | packages/SystemUI/src/com/benzorom/systemui/keyguard/KeyguardSliceProviderGoogle.java:226-229 | observers are notified once |
| KeyguardSlice.KeyguardSliceProviderGoogle.UpdateClockLocked | packages/SystemUI/src/com/benzorom/systemui/keyguard/KeyguardSliceProviderGoogle.java:226-229 | every clock tick notifies exactly once |
| KeyguardSlice.KeyguardSliceProviderGoogle.OnSensitiveModeChanged | packages/SystemUI/src/com/benzorom/systemui/keyguard/KeyguardSliceProviderGoogle.java:206-224 | both flags take the new values, and observers are notified once exactly when at least one flag changed |
| KeyguardSlice.KeyguardSliceProviderGoogle.OnSmartSpaceUpdated | packages/SystemUI/src/com/benzorom/systemui/keyguard/KeyguardSliceProviderGoogle.java:192-204 | a weather card with an unprocessed icon is marked processed and gets one shadow task instead of an immediate notification; any other update notifies at once; no card is ever shadowed twice |
| KeyguardSlice.KeyguardSliceProviderGoogle.RunShadowTask | packages/SystemUI/src/com/benzorom/systemui/keyguard/KeyguardSliceProviderGoogle.java:71-81 | the oldest shadow task replaces its card's icon with the shadowed copy of the icon it started with, and notifies only if the provider is still reachable; the data, flags and listener registration are unchanged |
| KeyguardSlice.KeyguardSliceProviderGoogle.OnBindSlice | packages/SystemUI/src/com/benzorom/systemui/keyguard/KeyguardSliceProviderGoogle.java:115-175 | the bound slice is BindSlice of the current cards and flags |
| BatteryController.ExtremeBatterySaving | packages/SystemUI/src/com/benzorom/systemui/statusbar/policy/BatteryControllerImplGoogle.kt:164-179 | the read fails exactly on a null reply, and answers true exactly when the bundle holds true; a missing key or provider counts as false |
| BatteryController.Broadcast | packages/SystemUI/src/com/benzorom/systemui/statusbar/policy/BatteryControllerImplGoogle.kt:146-162 | a fire loop delivers the event to each registered callback once, in list order |
| BatteryController.BroadcastEvents | packages/SystemUI/src/com/benzorom/systemui/statusbar/policy/BatteryControllerImplGoogle.kt:155-162 | a broadcast tells each callback the event once per registration and nothing else |
| BatteryController.LatestOfBroadcast | packages/SystemUI/src/com/benzorom/systemui/statusbar/policy/BatteryControllerImplGoogle.kt:155-162 | after a broadcast, a registered callback's latest event of that kind is the broadcast event, and an unregistered callback learns nothing |
| BatteryController.BatteryControllerImplGoogle.constructor | packages/SystemUI/src/com/benzorom/systemui/statusbar/policy/BatteryControllerImplGoogle.kt:65-69 | reverse charging and extreme saver start off, with no callbacks |
| BatteryController.BatteryControllerImplGoogle.IsReverseOn | packages/SystemUI/src/com/benzorom/systemui/statusbar/policy/BatteryControllerImplGoogle.kt:125-127 | the answer is the reverse flag that callbacks were last told |
| BatteryController.BatteryControllerImplGoogle.FireReverseChanged | packages/SystemUI/src/com/benzorom/systemui/statusbar/policy/BatteryControllerImplGoogle.kt:155-162 | the current reverse values are broadcast to all callbacks and nothing else changes |
| BatteryController.BatteryControllerImplGoogle.FireExtremeSaverChanged | packages/SystemUI/src/com/benzorom/systemui/statusbar/policy/BatteryControllerImplGoogle.kt:146-153 | the current extreme-saver value is broadcast to all callbacks and nothing else changes |
| BatteryController.BatteryControllerImplGoogle.BroadcastKeepsSync | packages/SystemUI/src/com/benzorom/systemui/statusbar/policy/BatteryControllerImplGoogle.kt:146-162 | broadcasting one kind's current value, over a log where every callback already holds the other kind's current value, leaves every callback in sync with the controller |
| BatteryController.BatteryControllerImplGoogle.OnReverseChargingChanged | packages/SystemUI/src/com/benzorom/systemui/statusbar/policy/BatteryControllerImplGoogle.kt:93-106 | the three values are stored and broadcast, and every callback stays in sync |
| BatteryController.BatteryControllerImplGoogle.AddCallback | packages/SystemUI/src/com/benzorom/systemui/statusbar/policy/BatteryControllerImplGoogle.kt:108-114 | the new callback is told the reverse state and then the saver state; no other callback hears anything; every callback stays in sync |
| BatteryController.BatteryControllerImplGoogle.SetExtremeSaver | packages/SystemUI/src/com/benzorom/systemui/statusbar/policy/BatteryControllerImplGoogle.kt:139-144 | callbacks hear of a change and only of a change, and stay in sync |
| BatteryController.BatteryControllerImplGoogle.OnProviderChange | packages/SystemUI/src/com/benzorom/systemui/statusbar/policy/BatteryControllerImplGoogle.kt:194-199 | a readable provider answer becomes the saver state and callbacks hear of it exactly when it changed; a failed read changes nothing |
| BatteryController.BatteryControllerImplGoogle.Init | packages/SystemUI/src/com/benzorom/systemui/statusbar/policy/BatteryControllerImplGoogle.kt:71-91 | the reverse values are reset without telling anyone; the controller registers for reverse changes; the provider is observed and read only if registering the observer does not throw; callbacks are told the saver state exactly when that read changes it, and hear nothing else |
| BatteryController.BatteryControllerImplGoogle.SetReverseState | packages/SystemUI/src/com/benzorom/systemui/statusbar/policy/BatteryControllerImplGoogle.kt:129-131 | the request is forwarded; the state callbacks know, the delivery log and both registrations are unchanged |
| AutoTileManager.AutoTileManagerGoogle.constructor | packages/SystemUI/src/com/benzorom/systemui/statusbar/phone/AutoTileManagerGoogle.java:58-79 | the tracker starts with the persisted tiles; nothing added or registered |
| AutoTileManager.AutoTileManagerGoogle.Init | packages/SystemUI/src/com/benzorom/systemui/statusbar/phone/AutoTileManagerGoogle.java:82-88 | on a debuggable build the overlay tile is added and tracked unless already tracked; neither tile is ever added twice |
| AutoTileManager.AutoTileManagerGoogle.StartControllersAndSettingsListeners | packages/SystemUI/src/com/benzorom/systemui/statusbar/phone/AutoTileManagerGoogle.java:91-96 | the battery callback is registered exactly when the reverse tile is not yet tracked |
| AutoTileManager.AutoTileManagerGoogle.StopListening | packages/SystemUI/src/com/benzorom/systemui/statusbar/phone/AutoTileManagerGoogle.java:99-102 | one registration is removed, if any |
| AutoTileManager.AutoTileManagerGoogle.OnReverseChanged | packages/SystemUI/src/com/benzorom/systemui/statusbar/phone/AutoTileManagerGoogle.java:46-56 | the first time reverse charging is on and the tile is untracked, it is added and tracked and the callback's removal is posted; otherwise nothing changes |
| AutoTileManager.AutoTileManagerGoogle.RunPendingRemoval | packages/SystemUI/src/com/benzorom/systemui/statusbar/phone/AutoTileManagerGoogle.java:52-53 | the posted removal unregisters the callback once |
| StatusBar.ReverseAnimationDelay | packages/SystemUI/src/com/benzorom/systemui/statusbar/phone/StatusBarGoogle.java:330-332 | the delay is never negative, and the reverse animation never starts before 1500 ms after the wireless one; it starts then, or at once when that moment has passed |
| StatusBar.ReverseAnimationStart | packages/SystemUI/src/com/benzorom/systemui/statusbar/phone/StatusBarGoogle.java:330-332 | the reverse animation starts at the later of now and 1500 ms after the wireless animation began |
| StatusBar.StatusBarGoogle.constructor | packages/SystemUI/src/com/benzorom/systemui/statusbar/phone/StatusBarGoogle.java:149-152 | no animation shown and both flags down |
| StatusBar.StatusBarGoogle.OnBatteryLevelChanged | packages/SystemUI/src/com/benzorom/systemui/statusbar/phone/StatusBarGoogle.java:311-324 | the level is stored; off wireless charging the reverse flag drops, and the wireless flag drops once 1500 ms have passed; the flag invariant is kept |
| StatusBar.StatusBarGoogle.OnReverseChanged | packages/SystemUI/src/com/benzorom/systemui/statusbar/phone/StatusBarGoogle.java:327-339 | when reverse charging has just ended on a phone charging wirelessly after the wireless animation, the reverse animation is shown once, delayed by ReverseAnimationDelay; otherwise nothing is shown |
| StatusBar.StatusBarGoogle.ShowWirelessChargingAnimation | packages/SystemUI/src/com/benzorom/systemui/statusbar/phone/StatusBarGoogle.java:342-347 | the wireless animation is shown and recorded, and the gap clock starts now |
| AssistManager.ShouldShowOrb | packages/SystemUI/src/com/benzorom/systemui/assist/AssistManagerGoogle.java:157-160 | the orb is never shown |
| AssistManager.ShouldUseHomeButtonAnimations | packages/SystemUI/src/com/benzorom/systemui/assist/AssistManagerGoogle.java:162-164 | home-button animations are used exactly when navigation is not gestural |
| AssistManager.RouteUiHints | packages/SystemUI/src/com/benzorom/systemui/assist/AssistManagerGoogle.java:180-196 | the constrain action sets the flag (true exactly when the bundle says so), the global-actions action shows them, and everything else goes to the NGA handler |
| AssistManager.AssistManagerGoogle.constructor | packages/SystemUI/src/com/benzorom/systemui/assist/AssistManagerGoogle.java:93-155 | the default controller is active and the check flag is raised |
| AssistManager.AssistManagerGoogle.IsActiveAssistantNga | packages/SystemUI/src/com/benzorom/systemui/assist/AssistManagerGoogle.java:235-237 | NGA is the active assistant exactly when the NGA controller is the active one |
| AssistManager.AssistManagerGoogle.OnNavigationModeChanged | packages/SystemUI/src/com/benzorom/systemui/assist/AssistManagerGoogle.java:130 | the navigation mode is stored and nothing else changes |
| AssistManager.AssistManagerGoogle.OnAssistantPresenceChanged | packages/SystemUI/src/com/benzorom/systemui/assist/AssistManagerGoogle.java:132-152 | a new presence pair makes the controller it selects active, posts a hide exactly when that is a switch, and passes the Google flag to the default controller when NGA is not the assistant; an unchanged pair changes nothing; the check flag is always cleared |
| AssistManager.AssistManagerGoogle.RunPostedHide | packages/SystemUI/src/com/benzorom/systemui/assist/AssistManagerGoogle.java:138-146 | a posted hide hides the controller active when it runs |
| AssistManager.HidesFollowTheActiveController | packages/SystemUI/src/com/benzorom/systemui/assist/AssistManagerGoogle.java:132-152 | a concrete trace: NGA becomes and stops being the assistant before the handler runs, so both hides go to the default controller and the NGA controller is never hidden |
| AssistManager.AssistManagerGoogle.OnInvocationProgress | packages/SystemUI/src/com/benzorom/systemui/assist/AssistManagerGoogle.java:200-215 | a progress of exactly 0 or 1 raises the check flag (and re-reads squeeze setup for a squeeze); a raised flag asks once for a presence update and is cleared; the progress reaches the active controller unless it is a squeeze whose setup is incomplete |
| AssistManager.AssistManagerGoogle.OnGestureCompletion | packages/SystemUI/src/com/benzorom/systemui/assist/AssistManagerGoogle.java:217-221 | the check flag is raised and the velocity reaches the active controller |
| AssistManager.AssistManagerGoogle.OnSetUiHints | packages/SystemUI/src/com/benzorom/systemui/assist/AssistManagerGoogle.java:180-196 | the bundle has the effect RouteUiHints selects; a failing global-actions call has no effect |
| AssistManager.AssistManagerGoogle.OnProcessBundle | packages/SystemUI/src/com/benzorom/systemui/assist/AssistManagerGoogle.java:85-91 | a presence update is requested and the check flag cleared |
| CaffeineTileModel.Format02 | packages/SystemUI/src/com/android/systemui/qs/tiles/CaffeineTile.kt:189-192 | a "%02d" field is at least two characters |
| CaffeineTileModel.FormatRemaining | packages/SystemUI/src/com/android/systemui/qs/tiles/CaffeineTile.kt:183-195 | the text is the infinity sign exactly for -1 |
| CaffeineTileModel.Format02TwoDigits | packages/SystemUI/src/com/android/systemui/qs/tiles/CaffeineTile.kt:189-192 | a value below 100 is written as exactly two digits that read back as the value |
| CaffeineTileModel.FormatRemainingReadsBack | packages/SystemUI/src/com/android/systemui/qs/tiles/CaffeineTile.kt:183-195 | a non-negative count is written `mm:ss`, where the fields read back as the minutes within the hour and the seconds; below an hour they add up to the count |
| CaffeineTileModel.FormatRemainingDropsHours | packages/SystemUI/src/com/android/systemui/qs/tiles/CaffeineTile.kt:190-191 | whole hours do not show: a count and the count one hour later give the same text |
| CaffeineTileModel.CaffeineTileStateFor | packages/SystemUI/src/com/android/systemui/qs/tiles/CaffeineTile.kt:197-217 | the tile is on and active exactly while the wake lock is held, and only then shows the remaining time |
| CaffeineTileModel.CaffeineTile.constructor | packages/SystemUI/src/com/android/systemui/qs/tiles/CaffeineTile.kt:69-76 | the lock is not held, no countdown runs, no click was seen and the screen-off receiver is registered |
| CaffeineTileModel.CaffeineTile.Acquire | packages/SystemUI/src/com/android/systemui/qs/tiles/CaffeineTile.kt:124 | the reference-counted lock gains one acquisition |
| CaffeineTileModel.CaffeineTile.Release | packages/SystemUI/src/com/android/systemui/qs/tiles/CaffeineTile.kt:120 | the lock loses one acquisition |
| CaffeineTileModel.CaffeineTile.StopCountDown | packages/SystemUI/src/com/android/systemui/qs/tiles/CaffeineTile.kt:176-181 | no countdown runs afterwards |
| CaffeineTileModel.CaffeineTile.StartCountDown | packages/SystemUI/src/com/android/systemui/qs/tiles/CaffeineTile.kt:156-174 | the shown time is the duration, and a countdown runs exactly for a finite duration |
| CaffeineTileModel.CaffeineTile.HandleClick | packages/SystemUI/src/com/android/systemui/qs/tiles/CaffeineTile.kt:92-132 | a click within 5 s of the last while held moves to the next duration, or past the last one releases the lock; any other click toggles the lock, starting at 5 minutes; a release keeps the shown seconds, the receiver registration is unchanged, and the lock is never acquired twice |
| CaffeineTileModel.CaffeineTile.HandleLongClick | packages/SystemUI/src/com/android/systemui/qs/tiles/CaffeineTile.kt:134-142 | the lock ends up held once, on "indefinitely" with no countdown; if that was already the case nothing changes; the last click time and receiver registration are unchanged |
| CaffeineTileModel.CaffeineTile.OnTimerFinish | packages/SystemUI/src/com/android/systemui/qs/tiles/CaffeineTile.kt:169-172 | a finished countdown releases the lock; duration, shown seconds, last click time and receiver registration are unchanged |
| CaffeineTileModel.CaffeineTile.OnScreenOff | packages/SystemUI/src/com/android/systemui/qs/tiles/CaffeineTile.kt:231-241 | screen-off stops the countdown and releases the lock; duration, shown seconds, last click time and receiver registration are unchanged |
| CaffeineTileModel.CaffeineTile.HandleDestroy | packages/SystemUI/src/com/android/systemui/qs/tiles/CaffeineTile.kt:82-89 | destroying stops the countdown, unregisters the receiver and releases the lock |
| ReverseChargingTileModel.ReverseTileStateFor | packages/SystemUI/src/com/benzorom/systemui/qs/tiles/ReverseChargingTile.kt:148-181 | the tile is unavailable exactly when too hot, in battery saver, charging wirelessly or at or below the threshold; active exactly when available and reverse is on; the label names the first of those reasons that applies |
| ReverseChargingTileModel.ThresholdLevel | packages/SystemUI/src/com/benzorom/systemui/qs/tiles/ReverseChargingTile.kt:218-228 | the threshold is five times the setting, or 10 when it is unset, as a 32-bit int |
| ReverseChargingTileModel.IsOverHeat | packages/SystemUI/src/com/benzorom/systemui/qs/tiles/ReverseChargingTile.kt:230-246 | overheated exactly when some skin sensor reports at least THROTTLING_CRITICAL; a failing thermal service counts as not overheated |
| ReverseChargingTileModel.ReverseChargingTile.constructor | packages/SystemUI/src/com/benzorom/systemui/qs/tiles/ReverseChargingTile.kt:56-61 | all fields start at their defaults and nothing is registered |
| ReverseChargingTileModel.ReverseChargingTile.HandleSetListening | packages/SystemUI/src/com/benzorom/systemui/qs/tiles/ReverseChargingTile.kt:86-119 | only a change of the listening flag acts; starting to listen re-reads the threshold and samples the skin temperature; the settings observer is registered exactly while listening, and the thermal listener follows the flag unless the thermal service throws, which leaves its registration as it was |
| ReverseChargingTileModel.ReverseChargingTile.UpdateThresholdLevel | packages/SystemUI/src/com/benzorom/systemui/qs/tiles/ReverseChargingTile.kt:218-228 | the threshold becomes ThresholdLevel of the setting |
| ReverseChargingTileModel.ReverseChargingTile.NotifyThrottling | packages/SystemUI/src/com/benzorom/systemui/qs/tiles/ReverseChargingTile.kt:63-70 | overheated exactly when the reported status is at least THROTTLING_CRITICAL |
| ReverseChargingTileModel.ReverseChargingTile.HandleClick | packages/SystemUI/src/com/benzorom/systemui/qs/tiles/ReverseChargingTile.kt:131-142 | unless the tile is unavailable, the switch flips, the new value goes to the battery controller, and the bottom sheet is shown the first time only; the tile state, inputs and both listener registrations are unchanged |
| ReverseChargingTileModel.ReverseChargingTile.RefreshState | packages/SystemUI/src/com/benzorom/systemui/qs/tiles/ReverseChargingTile.kt:148-181 | the published state is ReverseTileStateFor of the current fields |
| ReverseChargingTileModel.ReverseChargingTile.OnBatteryLevelChanged | packages/SystemUI/src/com/benzorom/systemui/qs/tiles/ReverseChargingTile.kt:183-192 | the level is stored and the reverse flag re-read from the controller |
| ReverseChargingTileModel.ReverseChargingTile.OnPowerSaveChanged | packages/SystemUI/src/com/benzorom/systemui/qs/tiles/ReverseChargingTile.kt:194-197 | the power-save flag is stored |
| ReverseChargingTileModel.ReverseChargingTile.OnReverseChanged | packages/SystemUI/src/com/benzorom/systemui/qs/tiles/ReverseChargingTile.kt:199-207 | the reverse flag is stored |
| OverlayToggleTileModel.IsAvailable | packages/SystemUI/src/com/benzorom/systemui/qs/tiles/OverlayToggleTile.kt:55-57 | the tile is available exactly on debuggable builds |
| OverlayToggleTileModel.FindGoogleOverlay | packages/SystemUI/src/com/benzorom/systemui/qs/tiles/OverlayToggleTile.kt:94-99 | the result is the first overlay whose package starts with "com.google.", or none exactly when there is no such overlay |
| OverlayToggleTileModel.OverlayToggleTile.constructor | packages/SystemUI/src/com/benzorom/systemui/qs/tiles/OverlayToggleTile.kt:47-49 | no overlay package or label is cached |
| OverlayToggleTileModel.OverlayToggleTile.HandleUpdateState | packages/SystemUI/src/com/benzorom/systemui/qs/tiles/OverlayToggleTile.kt:85-120 | without a Google overlay the tile is unavailable and labelled "No overlay"; with one it shows that first overlay's enabled state, its label (loaded again only when the package changed) and the refresh argument or "Enabled"/"Disabled" |
| CpuInfo.PresentCount | packages/SystemUI/src/com/android/systemui/CPUInfoService.kt:358-370 | the count read from the `present` file is never negative and fits an int |
| CpuInfo.CommaListIsKept | packages/SystemUI/src/com/android/systemui/CPUInfoService.kt:336-350 | a comma-separated list of integers is kept as it is: one CPU per entry, each id reading back as its integer |
| CpuInfo.PresentRangeCount | packages/SystemUI/src/com/android/systemui/CPUInfoService.kt:361-369 | a range `a-b` counts `b - a + 1` CPUs when that is not negative and 1 otherwise, so `a-(a-1)` counts none |
| CpuInfo.PresentWithoutRange | packages/SystemUI/src/com/android/systemui/CPUInfoService.kt:359-371 | text without a '-' counts one CPU |
| CpuInfo.AllCoreIdsCount | packages/SystemUI/src/com/android/systemui/CPUInfoService.kt:372-375 | on the all-cores path the ids are 0 … n-1 in order |
| CpuInfo.EntryRoundTrip | packages/SystemUI/src/com/android/systemui/CPUInfoService.kt:99-106 | parsing an entry gives back the frequency and governor it was written with |
| CpuInfo.MessageRoundTrip | packages/SystemUI/src/com/android/systemui/CPUInfoService.kt:88-114 | parsing a sample of at least one CPU gives back the temperature and, for each CPU in order, the frequency and governor read, as long as no value contains a separator |
| CpuInfo.NoCpuSampleIsDropped | packages/SystemUI/src/com/android/systemui/CPUInfoService.kt:94-96 | with no CPU the message has no second field and the handler's index error drops it |
| CpuInfo.ToMHz | packages/SystemUI/src/com/android/systemui/CPUInfoService.kt:203-206 | the conversion succeeds exactly for integer text |
| CpuInfo.ToMHzReadsBack | packages/SystemUI/src/com/android/systemui/CPUInfoService.kt:203-206 | the text is the kHz reading divided by 1000 (toward zero) followed by " MHz" |
| CpuInfo.CpuTemp | packages/SystemUI/src/com/android/systemui/CPUInfoService.kt:136-141 | a divider of at most 1 leaves the reading as it is; a larger one succeeds exactly for integer text |
| CpuInfo.CpuTempScales | packages/SystemUI/src/com/android/systemui/CPUInfoService.kt:136-141 | a scaled temperature reads back as the reading divided by the divider |
| CpuInfo.CpuInfoService.constructor | packages/SystemUI/src/com/android/systemui/CPUInfoService.kt:64-75 | the field initialisers: two CPUs, divider 1, no sensor, no data |
| CpuInfo.CpuInfoService.GetCpus | packages/SystemUI/src/com/android/systemui/CPUInfoService.kt:332-379 | the CPU array holds the configured list when every entry is an integer, otherwise all cores; the count is its length; an unreadable `present` file is the failure |
| CpuInfo.CpuInfoService.GetAllCpus | packages/SystemUI/src/com/android/systemui/CPUInfoService.kt:356-376 | the CPU array holds "0" … "n-1" for the `present` count |
| CpuInfo.CpuInfoService.CoreIdArray | packages/SystemUI/src/com/android/systemui/CPUInfoService.kt:372-375 | the array is fresh and holds "0" … "n-1" in order |
| CpuInfo.CpuInfoService.OnCreate | packages/SystemUI/src/com/android/systemui/CPUInfoService.kt:283-293 | creation succeeds exactly when the CPU list can be settled; then there is one empty frequency and governor slot per CPU, and the temperature is available exactly when the sensor can be read |
| CpuInfo.CpuInfoService.BuildMessage | packages/SystemUI/src/com/android/systemui/CPUInfoService.kt:252-268 | the sampling loop's message is the temperature and the per-CPU entries in the wire format |
| CpuInfo.CpuInfoService.ReadEntry | packages/SystemUI/src/com/android/systemui/CPUInfoService.kt:257-266 | one CPU's entry is its id, frequency and governor as EntryFor writes them, with "0" and an empty governor when the frequency cannot be read |
| CpuInfo.BufferIsMessage | packages/SystemUI/src/com/android/systemui/CPUInfoService.kt:252-268 | dropping the buffer's last character removes the trailing '\|', or with no CPU the ';', and leaves exactly the encoded message |
| CpuInfo.CpuInfoService.HandleMessage | packages/SystemUI/src/com/android/systemui/CPUInfoService.kt:88-114 | a sample stores the temperature field and each entry's frequency and governor in the next slot; an index error keeps the writes made so far; only a complete pass marks data available; other messages change nothing |
| CpuInfo.CpuInfoService.SampleAndShow | packages/SystemUI/src/com/android/systemui/CPUInfoService.kt:248-271 | a sample delivered to the view leaves every CPU's slots holding the frequency and governor that were read |
| DeviceUtils.ShortSizeDp | core/java/com/android/internal/util/benzo/DeviceUtils.java:140-142 | the short side in dp is a 32-bit value |
| DeviceUtils.GetScreenType | core/java/com/android/internal/util/benzo/DeviceUtils.java:136-150 | phone below 600 dp, hybrid from 600 to below 720 dp, tablet from 720 dp |
| DeviceUtils.ExactlyOneScreenClass | core/java/com/android/internal/util/benzo/DeviceUtils.java:152-162 | every display is exactly one of phone, hybrid and tablet |
| DeviceUtils.ShortSizeDpExact | core/java/com/android/internal/util/benzo/DeviceUtils.java:140-142 | without overflow the short side in dp is the ordinary quotient |
| DeviceUtils.ScreenTypeMonotone | core/java/com/android/internal/util/benzo/DeviceUtils.java:136-150 | at a fixed density a longer short side is never classed smaller |
| DeviceUtils.SupportsNavigationBar | core/java/com/android/internal/util/benzo/DeviceUtils.java:114-134 | the user setting decides when set (1 shown); when unset, `qemu.hw.mainkeys` "1" hides, "0" shows, and otherwise the configuration default applies |
| DeviceUtils.HomePackage | core/java/com/android/internal/util/benzo/DeviceUtils.java:175-180 | the launcher is the resolved home package unless there is none or it is "android", when it is "com.android.launcher" |
| DeviceUtils.FirstTarget | core/java/com/android/internal/util/benzo/DeviceUtils.java:190-196 | the target is a listed package that is neither System UI nor the launcher, and there is none exactly when every package is spared |
| DeviceUtils.FindTarget | core/java/com/android/internal/util/benzo/DeviceUtils.java:190-196 | the inner loop finds FirstTarget |
| DeviceUtils.ProcessAction | core/java/com/android/internal/util/benzo/DeviceUtils.java:185-201 | one process gets ActionFor: nothing unless it is a foreground application, its first target package stopped when it has packages, and a kill when it has none |
| DeviceUtils.Completed | core/java/com/android/internal/util/benzo/DeviceUtils.java:204-206 | what is carried out is a prefix of the plan |
| DeviceUtils.PlannedPrefix | core/java/com/android/internal/util/benzo/DeviceUtils.java:183-203 | scanning a prefix of the processes plans a prefix of the actions, and a kill ends the scan |
| DeviceUtils.PlannedTargets | core/java/com/android/internal/util/benzo/DeviceUtils.java:183-203 | at most one action per process, only the last can be a kill, and System UI and the launcher are never stopped |
| DeviceUtils.PlannedNonEmpty | core/java/com/android/internal/util/benzo/DeviceUtils.java:183-203 | something is done exactly when some process has an action |
| DeviceUtils.PlannedStep | core/java/com/android/internal/util/benzo/DeviceUtils.java:183-203 | one more process extends the plan by its own action unless a kill already ended it |
| DeviceUtils.StopFails | core/java/com/android/internal/util/benzo/DeviceUtils.java:192 | a failing force-stop ends the method with the actions before it |
| DeviceUtils.KillEnds | core/java/com/android/internal/util/benzo/DeviceUtils.java:197-200 | a kill is carried out and ends the plan |
| DeviceUtils.KillForegroundApplication | core/java/com/android/internal/util/benzo/DeviceUtils.java:171-208 | the actions taken are the plan cut short by a failing force-stop; a failing process listing does nothing; the result is true exactly when something was stopped or killed |
| Common.Wrap32 | core/java/com/android/internal/util/benzo/DeviceUtils.java:141-142 | a JVM int result always fits 32 bits and equals the exact result when that fits |
| Common.TruncDivRem | packages/SystemUI/src/com/android/systemui/qs/tiles/CaffeineTile.kt:190-191 | JVM `/` and `%` satisfy the division identity, the remainder takes the dividend's sign, and on non-negative operands they agree with Euclidean division |
| Common.IntToStringRoundTrip | packages/SystemUI/src/com/android/systemui/CPUInfoService.kt:344 | an int's decimal text parses back to it |
| Common.SplitJoin | packages/SystemUI/src/com/android/systemui/CPUInfoService.kt:94-99 | splitting pieces joined by a separator the pieces lack gives the pieces back |

## Left out

- Logging (`Log`, `Slog`) and tracing (`Trace`) are dropped.
- Dependency injection (Dagger modules, `@Inject` wiring, factories) is not part of this model.
- Threads, `synchronized` and `@Volatile` are not modelled as such. Executors and handlers are FIFO queues that the caller steps, so only interleavings at task boundaries are covered.
- The global-HBM provider (`UdfpsGhbmProvider`, a JNI binding) is an opaque backend. Its calls are entries in the call log.
- `UdfpsHbmController`: `Assert.isMainThread` is not modelled. The display's refresh rate is a parameter of each call.
- `UdfpsLhbmProvider.constructor`: the Kotlin twin's constructor throws when no service is declared. The model instead requires a declared service for that twin.
- Floating point is not modelled. `onInvocationProgress`'s progress and `onGestureCompletion`'s velocity are `real` values passed through unchanged. Velocity density scaling and all drawing geometry are not modelled.
- Refresh rates are `float` in `UdfpsHbmController` (`getPeakRefreshRate`, `onDisplayChanged`, `getRequiredRefreshRate`) and `int` in the model. Non-integral rates are not covered. Neither is a NaN rate, which never compares equal, so it could never start enabling.
- Uncaught exceptions end the process in the source, but the model records them and goes on accepting events:
  - the NullPointerException of a missing HBM listener when disabling (`UdfpsHbmController.java:238`, `UdfpsHbmController.kt:211`, `HbmRequest.kt:109`) is a listener effect with status `Absent`;
  - the `extras!!` NullPointerException in the extreme-saver observer on the background handler (`BatteryControllerImplGoogle.kt:178`, 194-198) is a failed read that changes nothing. Inside `init`, by contrast, the `try` catches it, as modelled.
- DeviceUtils.ShortSizeDp: it and `DeviceUtils.GetScreenType` require a nonzero density. At density 0 the source's integer division throws `ArithmeticException` (`DeviceUtils.java:141-142`); the platform never reports a density of 0.
- DeviceUtils.HomePackage: a null `ResolveInfo` from `resolveActivity` throws an uncaught NullPointerException at `DeviceUtils.java:178`. The model reads it as "no home activity" and falls back to "com.android.launcher".
- Common.ParseInt: it accepts ASCII digits only. `Integer.parseInt` and Kotlin's `toInt` also accept other Unicode decimal digits.
- CaffeineTileModel.Format02: `String.format("%02d", …)` uses the default locale's digits. The model always writes ASCII digits.
- Settings, system properties, the service manager, the thermal service, the package and overlay managers, the content provider and sysfs reads are parameters. Their `RemoteException`s become outcomes.
- `AssistManagerGoogle`: these parts are not modelled:
  - the voice-interaction session listener, apart from `onSetUiHints`;
  - `logStartAssistLegacy` metrics;
  - `dump`;
  - the pass-through methods `addOpaEnabledListener` and `dispatchOpaEnabledState`;
  - the user-switch callback;
  - the base class's behaviour.
- `checkSqueezeGestureStatus` reads a setting, so it is the `setupComplete` parameter of `OnInvocationProgress`.
- `BatteryControllerImplGoogle`: these parts are not modelled: `onReceive` and `isReverseSupported` (pass-through to the base class and the reverse controller), `dump`, and the base controller's own battery state.
- `StatusBarGoogle`: these parts are not modelled:
  - `start`, `setLockscreenUser` and `dump`, which set up other components;
  - the base class's animation itself, which is recorded only as a call;
  - the `mBatteryController.isWirelessCharging()` answer, which is a parameter.
- `KeyguardSliceProviderGoogle`: slice rendering (`ListBuilder`, icons, intents) is reduced to the rows' content. Shadow drawing (`applyShadow`) is an opaque `Shadowed` bitmap. `AsyncTask` execution is a FIFO of pending tasks.
- Quick-settings tiles:
  - `refreshState` posts to the tile's background handler, so `RefreshState` is a separate step.
  - Labels, icons and content descriptions are not modelled.
  - `OverlayToggleTile.handleClick` is left out: it sleeps and then kills the process.
  - The reverse tile's `getLongClickIntent` and `isAvailable` are pass-through methods and are left out.
- `CaffeineTile`: `CountDownTimer` ticks are left out. Only starting, cancelling and finishing a countdown are modelled, so the remaining seconds are not decremented.
- `CPUInfoService`:
  - drawing, measuring and window management are left out, as are the screen-state receiver and the doze check that start and stop the sampling thread;
  - the 500 ms sleep is not modelled;
  - the thread is modelled as one sampling pass at a time.
- `DeviceUtils`: these parts are not modelled:
  - `deviceSupportsVibrator` and `deviceSupportsTorch` (a system-service call and a constant);
  - the path where `getRunningAppProcesses` returns null, which throws an uncaught NullPointerException.
- OnTheGo, `CPUInfoManager` and the other quick-settings tiles in the repository are not part of this model.

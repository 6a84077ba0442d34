/** The reverse (battery share) charging quick-settings tile: shows whether
    the phone may charge another device wirelessly, lets the user switch it,
    and explains why it is unavailable. Battery, power-save, thermal and
    settings inputs arrive as method parameters. */
module ReverseChargingTileModel {
  import opened Common
  import opened QsTile

  /** `Temperature.THROTTLING_CRITICAL`. */
  const THROTTLING_CRITICAL: int := 4
  /** Default of the `advanced_battery_usage_amount` setting. */
  const DEFAULT_THRESHOLD_SETTING: int := 2

  /** Why the tile is unavailable, in the order the secondary label checks
      them: too hot, battery saver, wireless charging, low battery. */
  datatype UnavailableReason = TooHot | BatterySaver | WirelessCharging | LowBattery

  datatype ReverseTileState = ReverseTileState(value: bool, state: TileMode, secondaryLabel: Option<UnavailableReason>)

  /** `handleUpdateState`: the decision the tile publishes. */
  function ReverseTileStateFor(batteryLevel: int, thresholdLevel: int, overHeat: bool, powerSave: bool,
                               wirelessCharging: bool, reverse: bool): (r: ReverseTileState)
    ensures r.state == Unavailable <==> overHeat || powerSave || wirelessCharging || batteryLevel <= thresholdLevel
    ensures r.state == Active <==> r.state != Unavailable && reverse
    ensures r.value <==> r.state == Active
    ensures r.secondaryLabel.Some? <==> r.state == Unavailable
    ensures r.secondaryLabel == Some(TooHot) <==> overHeat
    ensures r.secondaryLabel == Some(BatterySaver) <==> !overHeat && powerSave
    ensures r.secondaryLabel == Some(WirelessCharging) <==> !overHeat && !powerSave && wirelessCharging
    ensures r.secondaryLabel == Some(LowBattery) <==>
              !overHeat && !powerSave && !wirelessCharging && batteryLevel <= thresholdLevel
  {
    var lowBattery := batteryLevel <= thresholdLevel;
    var reverseUnavailable := overHeat || powerSave || wirelessCharging || lowBattery;
    var mode := if reverseUnavailable then Unavailable else if reverse then Active else Inactive;
    var reason :=
      if overHeat then Some(TooHot)
      else if powerSave then Some(BatterySaver)
      else if wirelessCharging then Some(WirelessCharging)
      else if lowBattery then Some(LowBattery)
      else None;
    ReverseTileState(!reverseUnavailable && reverse, mode, reason)
  }

  /** `updateThresholdLevel`: the battery level at or below which reverse
      charging is refused is five times the setting (2 when it is unset or not
      a number), computed in 32-bit arithmetic. */
  function ThresholdLevel(setting: Option<int>): (r: int)
    ensures IsInt32(r)
    ensures setting.None? ==> r == 5 * DEFAULT_THRESHOLD_SETTING
    ensures setting.Some? && 0 <= setting.value <= 20 ==> r == 5 * setting.value && 0 <= r <= 100
  {
    Wrap32(5 * (if setting.Some? then setting.value else DEFAULT_THRESHOLD_SETTING))
  }

  /** `isOverHeat`: whether any skin temperature sensor reports a status of
      at least THROTTLING_CRITICAL; `None` stands for a RemoteException from
      the thermal service, which counts as not overheated. */
  method IsOverHeat(skinStatuses: Option<seq<int>>) returns (r: bool)
    ensures r <==> skinStatuses.Some? &&
                   exists k :: 0 <= k < |skinStatuses.value| && skinStatuses.value[k] >= THROTTLING_CRITICAL
  {
    if skinStatuses.None? {
      return false;
    }
    var statuses := skinStatuses.value;
    for k := 0 to |statuses|
      invariant forall j :: 0 <= j < k ==> statuses[j] < THROTTLING_CRITICAL
    {
      if statuses[k] >= THROTTLING_CRITICAL {
        return true;
      }
    }
    return false;
  }

  class ReverseChargingTile {
    var batteryLevel: int
    var isListening: bool
    var overHeat: bool
    var powerSave: bool
    var reverse: bool
    var thresholdLevel: int
    var settingsObserverRegistered: bool
    var thermalListenerRegistered: bool
    /** The state published by the last refresh (`getState()`). */
    var state: ReverseTileState
    /** Values pushed to `BatteryController.setReverseState`, in order. */
    var setReverseCalls: seq<bool>
    /** The persisted "HasSeenReverseBottomSheet" preference. */
    var hasSeenBottomSheet: bool
    /** Times the explanation bottom sheet was launched. */
    var bottomSheetLaunches: nat

    /** Both observers are registered exactly while the tile listens, and the
        bottom sheet is launched at most once, after which it counts as seen. */
    ghost predicate Valid()
      reads this
    {
      && (settingsObserverRegistered <==> isListening)
      && bottomSheetLaunches <= 1
      && (bottomSheetLaunches == 1 ==> hasSeenBottomSheet)
    }

    /** A new tile; its state is the base class's default (active, off, no label). */
    constructor (hasSeenBottomSheet: bool)
      ensures Valid()
      ensures batteryLevel == 0 && !isListening && !overHeat && !powerSave && !reverse && thresholdLevel == 0
      ensures state == ReverseTileState(false, Active, None)
      ensures setReverseCalls == [] && bottomSheetLaunches == 0 && this.hasSeenBottomSheet == hasSeenBottomSheet
    {
      batteryLevel := 0;
      isListening := false;
      overHeat := false;
      powerSave := false;
      reverse := false;
      thresholdLevel := 0;
      settingsObserverRegistered := false;
      thermalListenerRegistered := false;
      state := ReverseTileState(false, Active, None);
      setReverseCalls := [];
      this.hasSeenBottomSheet := hasSeenBottomSheet;
      bottomSheetLaunches := 0;
    }

    /** `handleSetListening(listening)`: acts only when the flag changes.
        Starting to listen re-reads the threshold setting, registers both
        observers and samples the skin temperatures; when the thermal service
        throws (`thermalCallThrows`), the thermal listener's registration stays
        as it was. */
    method HandleSetListening(listening: bool, setting: Option<int>, skinStatuses: Option<seq<int>>, thermalCallThrows: bool)
      requires Valid()
      modifies this
      ensures Valid()
      ensures isListening == listening
      ensures thermalListenerRegistered ==
                if old(isListening) != listening && !thermalCallThrows then listening else old(thermalListenerRegistered)
      ensures old(isListening) == listening ==>
                thresholdLevel == old(thresholdLevel) && overHeat == old(overHeat)
      ensures old(isListening) != listening && listening ==>
                && thresholdLevel == ThresholdLevel(setting)
                && (overHeat <==> skinStatuses.Some? &&
                                  exists k :: 0 <= k < |skinStatuses.value| && skinStatuses.value[k] >= THROTTLING_CRITICAL)
      ensures old(isListening) != listening && !listening ==>
                thresholdLevel == old(thresholdLevel) && overHeat == old(overHeat)
      ensures reverse == old(reverse) && batteryLevel == old(batteryLevel) && powerSave == old(powerSave)
      ensures state == old(state) && setReverseCalls == old(setReverseCalls)
      ensures hasSeenBottomSheet == old(hasSeenBottomSheet) && bottomSheetLaunches == old(bottomSheetLaunches)
    {
      if isListening != listening {
        isListening := listening;
        if listening {
          UpdateThresholdLevel(setting);
          settingsObserverRegistered := true;
          // A RemoteException from the thermal service is only logged.
          if !thermalCallThrows {
            thermalListenerRegistered := true;
          }
          overHeat := IsOverHeat(skinStatuses);
        } else {
          settingsObserverRegistered := false;
          if !thermalCallThrows {
            thermalListenerRegistered := false;
          }
        }
      }
    }

    /** `updateThresholdLevel`, also run by the settings observer. */
    method UpdateThresholdLevel(setting: Option<int>)
      modifies this
      ensures thresholdLevel == ThresholdLevel(setting)
      ensures batteryLevel == old(batteryLevel) && isListening == old(isListening) && overHeat == old(overHeat)
      ensures powerSave == old(powerSave) && reverse == old(reverse) && state == old(state)
      ensures settingsObserverRegistered == old(settingsObserverRegistered)
      ensures thermalListenerRegistered == old(thermalListenerRegistered)
      ensures setReverseCalls == old(setReverseCalls)
      ensures hasSeenBottomSheet == old(hasSeenBottomSheet) && bottomSheetLaunches == old(bottomSheetLaunches)
    {
      thresholdLevel := ThresholdLevel(setting);
    }

    /** The thermal listener's `notifyThrottling`. */
    method NotifyThrottling(status: int)
      modifies this
      ensures overHeat <==> status >= THROTTLING_CRITICAL
      ensures batteryLevel == old(batteryLevel) && isListening == old(isListening) && thresholdLevel == old(thresholdLevel)
      ensures powerSave == old(powerSave) && reverse == old(reverse) && state == old(state)
      ensures settingsObserverRegistered == old(settingsObserverRegistered)
      ensures thermalListenerRegistered == old(thermalListenerRegistered)
      ensures setReverseCalls == old(setReverseCalls)
      ensures hasSeenBottomSheet == old(hasSeenBottomSheet) && bottomSheetLaunches == old(bottomSheetLaunches)
    {
      overHeat := status >= THROTTLING_CRITICAL;
    }

    /** `handleClick`: unless the published state is unavailable, flip the
        switch, push it to the battery controller and show the explanation
        sheet the first time. */
    method HandleClick()
      requires Valid()
      modifies this
      ensures Valid()
      ensures old(state).state == Unavailable ==>
                reverse == old(reverse) && setReverseCalls == old(setReverseCalls)
                && hasSeenBottomSheet == old(hasSeenBottomSheet) && bottomSheetLaunches == old(bottomSheetLaunches)
      ensures old(state).state != Unavailable ==>
                && reverse == !old(reverse)
                && setReverseCalls == old(setReverseCalls) + [reverse]
                && hasSeenBottomSheet
                && bottomSheetLaunches == old(bottomSheetLaunches) + (if old(hasSeenBottomSheet) then 0 else 1)
      ensures state == old(state) && batteryLevel == old(batteryLevel) && overHeat == old(overHeat)
      ensures powerSave == old(powerSave) && isListening == old(isListening) && thresholdLevel == old(thresholdLevel)
      ensures thermalListenerRegistered == old(thermalListenerRegistered)
      ensures settingsObserverRegistered == old(settingsObserverRegistered)
    {
      if state.state != Unavailable {
        reverse := !reverse;
        setReverseCalls := setReverseCalls + [reverse];
        if !hasSeenBottomSheet {
          bottomSheetLaunches := bottomSheetLaunches + 1;
          hasSeenBottomSheet := true;
        }
      }
    }

    /** A refresh: `handleUpdateState` with what the battery controller
        reports about wireless charging at that moment. */
    method RefreshState(isWirelessCharging: bool)
      modifies this
      ensures state == ReverseTileStateFor(batteryLevel, thresholdLevel, overHeat, powerSave, isWirelessCharging, reverse)
      ensures batteryLevel == old(batteryLevel) && isListening == old(isListening) && overHeat == old(overHeat)
      ensures powerSave == old(powerSave) && reverse == old(reverse) && thresholdLevel == old(thresholdLevel)
      ensures settingsObserverRegistered == old(settingsObserverRegistered)
      ensures thermalListenerRegistered == old(thermalListenerRegistered)
      ensures setReverseCalls == old(setReverseCalls)
      ensures hasSeenBottomSheet == old(hasSeenBottomSheet) && bottomSheetLaunches == old(bottomSheetLaunches)
    {
      state := ReverseTileStateFor(batteryLevel, thresholdLevel, overHeat, powerSave, isWirelessCharging, reverse);
    }

    /** `onBatteryLevelChanged`: store the level and re-read whether reverse
        charging is on from the controller. */
    method OnBatteryLevelChanged(level: int, controllerReverseOn: bool)
      modifies this
      ensures batteryLevel == level && reverse == controllerReverseOn
      ensures isListening == old(isListening) && overHeat == old(overHeat) && powerSave == old(powerSave)
      ensures thresholdLevel == old(thresholdLevel) && state == old(state)
      ensures settingsObserverRegistered == old(settingsObserverRegistered)
      ensures thermalListenerRegistered == old(thermalListenerRegistered)
      ensures setReverseCalls == old(setReverseCalls)
      ensures hasSeenBottomSheet == old(hasSeenBottomSheet) && bottomSheetLaunches == old(bottomSheetLaunches)
    {
      batteryLevel := level;
      reverse := controllerReverseOn;
    }

    method OnPowerSaveChanged(isPowerSave: bool)
      modifies this
      ensures powerSave == isPowerSave
      ensures batteryLevel == old(batteryLevel) && isListening == old(isListening) && overHeat == old(overHeat)
      ensures reverse == old(reverse) && thresholdLevel == old(thresholdLevel) && state == old(state)
      ensures settingsObserverRegistered == old(settingsObserverRegistered)
      ensures thermalListenerRegistered == old(thermalListenerRegistered)
      ensures setReverseCalls == old(setReverseCalls)
      ensures hasSeenBottomSheet == old(hasSeenBottomSheet) && bottomSheetLaunches == old(bottomSheetLaunches)
    {
      powerSave := isPowerSave;
    }

    method OnReverseChanged(isReverse: bool)
      modifies this
      ensures reverse == isReverse
      ensures batteryLevel == old(batteryLevel) && isListening == old(isListening) && overHeat == old(overHeat)
      ensures powerSave == old(powerSave) && thresholdLevel == old(thresholdLevel) && state == old(state)
      ensures settingsObserverRegistered == old(settingsObserverRegistered)
      ensures thermalListenerRegistered == old(thermalListenerRegistered)
      ensures setReverseCalls == old(setReverseCalls)
      ensures hasSeenBottomSheet == old(hasSeenBottomSheet) && bottomSheetLaunches == old(bottomSheetLaunches)
    {
      reverse := isReverse;
    }
  }
}

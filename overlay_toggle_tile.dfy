/** The overlay toggle quick-settings tile (debuggable builds only): shows
    whether the first Google overlay targeting System UI is enabled. */
module OverlayToggleTileModel {
  import opened Common
  import opened QsTile

  const SYSUI_PACKAGE: string := "com.android.systemui"
  const GOOGLE_PREFIX: string := "com.google."
  const NO_OVERLAY_LABEL: string := "No overlay"

  /** The two fields of `OverlayInfo` the tile reads. */
  datatype OverlayInfo = OverlayInfo(packageName: string, enabled: bool)

  /** The tile's `BooleanState` object, which each update edits in place. */
  datatype OverlayTileState = OverlayTileState(value: bool, state: TileMode, primaryLabel: string, secondaryLabel: Option<string>)

  predicate IsGoogleOverlay(info: OverlayInfo) {
    GOOGLE_PREFIX <= info.packageName
  }

  /** `isAvailable`: the tile is offered exactly on debuggable builds. */
  function IsAvailable(isDebuggable: bool): (r: bool)
    ensures r <==> isDebuggable
  {
    isDebuggable
  }

  /** The first overlay whose package name starts with "com.google.", if any. */
  method FindGoogleOverlay(infos: seq<OverlayInfo>) returns (r: Option<OverlayInfo>)
    ensures r.None? <==> forall k :: 0 <= k < |infos| ==> !IsGoogleOverlay(infos[k])
    ensures r.Some? ==> exists k :: 0 <= k < |infos| && infos[k] == r.value && IsGoogleOverlay(infos[k])
                                  && forall j :: 0 <= j < k ==> !IsGoogleOverlay(infos[j])
  {
    for k := 0 to |infos|
      invariant forall j :: 0 <= j < k ==> !IsGoogleOverlay(infos[j])
    {
      if IsGoogleOverlay(infos[k]) {
        return Some(infos[k]);
      }
    }
    return None;
  }

  class OverlayToggleTile {
    var overlayPackage: Option<string>
    var overlayLabel: Option<string>
    var state: OverlayTileState
    /** Package-manager label loads performed. */
    var labelLoads: nat

    /** A label is cached exactly when a package is. */
    ghost predicate Valid()
      reads this
    {
      overlayPackage.Some? <==> overlayLabel.Some?
    }

    constructor ()
      ensures Valid()
      ensures overlayPackage.None? && overlayLabel.None? && labelLoads == 0
      ensures state == OverlayTileState(false, Active, "", None)
    {
      overlayPackage := None;
      overlayLabel := None;
      state := OverlayTileState(false, Active, "", None);
      labelLoads := 0;
    }

    /** `handleUpdateState(state, arg)`. `infos` is the overlay manager's list
        for System UI (`None` when it returns null), `arg` the text of the
        refresh argument, and `loadLabel` the package manager's application
        label lookup. */
    method HandleUpdateState(infos: Option<seq<OverlayInfo>>, arg: Option<string>, loadLabel: string -> string)
      requires Valid()
      modifies this
      ensures Valid()
      ensures var found := infos.Some? && exists k :: 0 <= k < |infos.value| && IsGoogleOverlay(infos.value[k]);
              && (!found ==>
                    && state == old(state).(state := Unavailable, primaryLabel := NO_OVERLAY_LABEL)
                    && overlayPackage == old(overlayPackage) && overlayLabel == old(overlayLabel)
                    && labelLoads == old(labelLoads))
              && (found ==>
                    && overlayPackage.Some? && overlayLabel.Some?
                    && (exists k :: 0 <= k < |infos.value| && IsGoogleOverlay(infos.value[k])
                          && (forall j :: 0 <= j < k ==> !IsGoogleOverlay(infos.value[j]))
                          && overlayPackage.value == infos.value[k].packageName
                          && state.value == infos.value[k].enabled
                          && state.secondaryLabel ==
                               Some(if arg.Some? then arg.value else if infos.value[k].enabled then "Enabled" else "Disabled"))
                    && (state.state == Active <==> state.value)
                    && state.state != Unavailable
                    && state.primaryLabel == overlayLabel.value
                    && (overlayPackage == old(overlayPackage) ==> overlayLabel == old(overlayLabel) && labelLoads == old(labelLoads))
                    && (overlayPackage != old(overlayPackage) ==>
                          overlayLabel == Some(loadLabel(overlayPackage.value)) && labelLoads == old(labelLoads) + 1))
    {
      state := state.(state := Unavailable, primaryLabel := NO_OVERLAY_LABEL);
      if infos.Some? {
        var overlayInfo := FindGoogleOverlay(infos.value);
        if overlayInfo.Some? {
          var info := overlayInfo.value;
          if overlayPackage != Some(info.packageName) {
            overlayPackage := Some(info.packageName);
            overlayLabel := Some(loadLabel(info.packageName));
            labelLoads := labelLoads + 1;
          }
          var secondary := if arg.Some? then arg.value else if info.enabled then "Enabled" else "Disabled";
          state := OverlayTileState(info.enabled, if info.enabled then Active else Inactive,
                                    overlayLabel.value, Some(secondary));
        }
      }
    }
  }
}

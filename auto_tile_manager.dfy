/** `AutoTileManagerGoogle` (Java and Kotlin twins, which behave alike):
    adds the reverse-charging tile the first time reverse charging turns
    on, and the overlay toggle tile on debuggable builds, each at most once
    thanks to the auto-add tracker. */
module AutoTileManager {
  import opened Common

  const REVERSE: string := "reverse"
  const OTT: string := "ott"

  class AutoTileManagerGoogle {
    /** The auto-add tracker's set of tiles already added (it persists
        across boots, so it may start non-empty). */
    var tracked: set<string>
    /** `QSTileHost.addTile` calls made by this manager, in order. */
    var addedTiles: seq<string>
    /** How many times the battery callback sits in the battery controller's list. */
    var registrations: nat
    /** `removeCallback` tasks posted to the background handler, not yet run. */
    var pendingRemovals: nat

    /** A tile this manager added is tracked, and neither of its tiles was
        added twice. */
    ghost predicate Valid()
      reads this
    {
      && multiset(addedTiles)[REVERSE] <= 1 && multiset(addedTiles)[OTT] <= 1
      && (REVERSE in addedTiles ==> REVERSE in tracked)
      && (OTT in addedTiles ==> OTT in tracked)
    }

    constructor (persisted: set<string>)
      ensures Valid()
      ensures tracked == persisted && addedTiles == [] && registrations == 0 && pendingRemovals == 0
    {
      tracked := persisted;
      addedTiles := [];
      registrations := 0;
      pendingRemovals := 0;
    }

    /** `init`: on a debuggable build, add the overlay toggle tile unless
        the tracker already has it. */
    method Init(isDebuggable: bool)
      requires Valid()
      modifies this
      ensures Valid()
      ensures if OTT !in old(tracked) && isDebuggable then
                tracked == old(tracked) + {OTT} && addedTiles == old(addedTiles) + [OTT]
              else
                tracked == old(tracked) && addedTiles == old(addedTiles)
      ensures registrations == old(registrations) && pendingRemovals == old(pendingRemovals)
    {
      if OTT !in tracked && isDebuggable {
        tracked := tracked + {OTT};
        addedTiles := addedTiles + [OTT];
      }
    }

    /** `startControllersAndSettingsListeners`: listen to the battery
        controller only while the reverse tile is still to be added. */
    method StartControllersAndSettingsListeners()
      requires Valid()
      modifies this
      ensures Valid()
      ensures registrations == old(registrations) + (if REVERSE in tracked then 0 else 1)
      ensures tracked == old(tracked) && addedTiles == old(addedTiles) && pendingRemovals == old(pendingRemovals)
    {
      if REVERSE !in tracked {
        registrations := registrations + 1;
      }
    }

    /** `stopListening`: one registration of the callback is removed, if any. */
    method StopListening()
      requires Valid()
      modifies this
      ensures Valid()
      ensures registrations == if old(registrations) > 0 then old(registrations) - 1 else 0
      ensures tracked == old(tracked) && addedTiles == old(addedTiles) && pendingRemovals == old(pendingRemovals)
    {
      if registrations > 0 {
        registrations := registrations - 1;
      }
    }

    /** The battery callback's `onReverseChanged`: the first time reverse
        charging is on and the tile is untracked, add it, track it, and post
        the callback's own removal. Any later call adds nothing. */
    method OnReverseChanged(isReverse: bool, level: int, name: Option<string>)
      requires Valid()
      modifies this
      ensures Valid()
      ensures REVERSE in old(tracked) || !isReverse ==>
                tracked == old(tracked) && addedTiles == old(addedTiles) && pendingRemovals == old(pendingRemovals)
      ensures REVERSE !in old(tracked) && isReverse ==>
                && tracked == old(tracked) + {REVERSE} && addedTiles == old(addedTiles) + [REVERSE]
                && pendingRemovals == old(pendingRemovals) + 1
      ensures registrations == old(registrations)
    {
      if REVERSE !in tracked && isReverse {
        addedTiles := addedTiles + [REVERSE];
        tracked := tracked + {REVERSE};
        pendingRemovals := pendingRemovals + 1;
      }
    }

    /** The background handler runs one posted removal. */
    method RunPendingRemoval()
      requires Valid() && pendingRemovals > 0
      modifies this
      ensures Valid()
      ensures pendingRemovals == old(pendingRemovals) - 1
      ensures registrations == if old(registrations) > 0 then old(registrations) - 1 else 0
      ensures tracked == old(tracked) && addedTiles == old(addedTiles)
    {
      pendingRemovals := pendingRemovals - 1;
      if registrations > 0 {
        registrations := registrations - 1;
      }
    }
  }
}

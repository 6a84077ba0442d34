/** `UdfpsLhbmProvider`: switches local HBM through the Pixel display HAL,
    resolving the HAL service lazily and caching the proxy until the service
    dies. What the service manager and the binder answer on each call is a
    parameter. */
module UdfpsLhbmProviderClass {
  import opened Common
  import opened HbmTypes

  /** A proxy for the display HAL (`IDisplay`), identified by its binder. */
  datatype DisplayHal = DisplayHal(binder: nat)

  /** What `waitForDeclaredService` returns on one call (no service, or a
      binder) and whether registering for its death (`linkToDeath`) succeeds. */
  datatype ServiceLookup = NoService | Service(binder: nat, linkSucceeds: bool)

  /** Result of resolving the HAL: a proxy, none (logged), or the
      NullPointerException that the Kotlin twin raises when no service is
      declared. */
  datatype HalResult = HalFound(hal: DisplayHal) | HalUnavailable | NullServiceThrown

  /** Result of one `enableLhbm` / `disableLhbm` call. */
  datatype LhbmOutcome =
    | StateSent(hal: DisplayHal, on: bool)
    | SendFailed(hal: DisplayHal, on: bool)
    | NoHal
    | LookupThrew

  /** A HAL lookup that resolves: a binder to which a death link can be made. */
  predicate Resolves(lookup: ServiceLookup) {
    lookup.Service? && lookup.linkSucceeds
  }

  class UdfpsLhbmProvider {
    const flavor: Flavor
    /** The cached proxy (`@Volatile`). */
    var displayHal: Option<DisplayHal>
    /** Binders this provider registered a death recipient on, in order. */
    var deathLinks: seq<nat>
    /** `setLhbmState` calls made on the HAL, including ones that failed. */
    var lhbmCalls: seq<(DisplayHal, bool)>

    /** The constructor resolves the HAL eagerly. The Kotlin twin's
        constructor only completes when a service is declared. */
    constructor (flavor: Flavor, lookup: ServiceLookup)
      requires flavor == Kotlin ==> lookup.Service?
      ensures this.flavor == flavor && lhbmCalls == []
      ensures displayHal == (if Resolves(lookup) then Some(DisplayHal(lookup.binder)) else None)
      ensures deathLinks == (if Resolves(lookup) then [lookup.binder] else [])
    {
      this.flavor := flavor;
      displayHal := None;
      deathLinks := [];
      lhbmCalls := [];
      new;
      var _ := GetDisplayHal(lookup);
    }

    /** Returns the cached proxy when there is one, without a lookup;
        otherwise looks the service up and caches and returns its proxy only
        when the death link is made. */
    method GetDisplayHal(lookup: ServiceLookup) returns (r: HalResult)
      modifies this
      ensures lhbmCalls == old(lhbmCalls)
      ensures old(displayHal).Some? ==>
                r == HalFound(old(displayHal).value) && displayHal == old(displayHal) && deathLinks == old(deathLinks)
      ensures old(displayHal).None? && Resolves(lookup) ==>
                && r == HalFound(DisplayHal(lookup.binder))
                && displayHal == Some(DisplayHal(lookup.binder))
                && deathLinks == old(deathLinks) + [lookup.binder]
      ensures old(displayHal).None? && !Resolves(lookup) ==>
                && displayHal.None? && deathLinks == old(deathLinks)
                && r == (if lookup.NoService? && flavor == Kotlin then NullServiceThrown else HalUnavailable)
      ensures r.HalFound? ==> displayHal == Some(r.hal)
    {
      if displayHal.Some? {
        return HalFound(displayHal.value);
      }
      match lookup
      case NoService =>
        r := if flavor == Kotlin then NullServiceThrown else HalUnavailable;
      case Service(binder, linkSucceeds) =>
        if linkSucceeds {
          deathLinks := deathLinks + [binder];
          displayHal := Some(DisplayHal(binder));
          r := HalFound(DisplayHal(binder));
        } else {
          r := HalUnavailable;
        }
    }

    /** Shared body of `enableLhbm` (`on`) and `disableLhbm` (`!on`):
        resolve the HAL, then ask it to set the state; a RemoteException
        (`remoteSucceeds` false) is only logged. */
    method SetLhbm(on: bool, lookup: ServiceLookup, remoteSucceeds: bool) returns (outcome: LhbmOutcome)
      modifies this
      ensures outcome.StateSent? || outcome.SendFailed? <==> old(displayHal).Some? || Resolves(lookup)
      ensures outcome.StateSent? || outcome.SendFailed? ==>
                && outcome.on == on
                && displayHal == Some(outcome.hal)
                && lhbmCalls == old(lhbmCalls) + [(outcome.hal, on)]
                && (outcome.StateSent? <==> remoteSucceeds)
      ensures outcome.LookupThrew? <==> old(displayHal).None? && lookup.NoService? && flavor == Kotlin
      ensures !(outcome.StateSent? || outcome.SendFailed?) ==> lhbmCalls == old(lhbmCalls) && displayHal.None?
      ensures displayHal == (if old(displayHal).Some? then old(displayHal)
                             else if Resolves(lookup) then Some(DisplayHal(lookup.binder)) else None)
      ensures deathLinks == old(deathLinks) + (if old(displayHal).None? && Resolves(lookup) then [lookup.binder] else [])
      ensures outcome.StateSent? || outcome.SendFailed? ==>
                outcome.hal == (if old(displayHal).Some? then old(displayHal).value else DisplayHal(lookup.binder))
    {
      var hal := GetDisplayHal(lookup);
      match hal
      case HalFound(h) =>
        lhbmCalls := lhbmCalls + [(h, on)];
        outcome := if remoteSucceeds then StateSent(h, on) else SendFailed(h, on);
      case HalUnavailable =>
        outcome := NoHal;
      case NullServiceThrown =>
        outcome := LookupThrew;
    }

    /** `enableLhbm`: SetLhbm with the state on. */
    method EnableLhbm(lookup: ServiceLookup, remoteSucceeds: bool) returns (outcome: LhbmOutcome)
      modifies this
      ensures outcome.StateSent? || outcome.SendFailed? <==> old(displayHal).Some? || Resolves(lookup)
      ensures outcome.StateSent? || outcome.SendFailed? ==>
                outcome.on && lhbmCalls == old(lhbmCalls) + [(outcome.hal, true)] && (outcome.StateSent? <==> remoteSucceeds)
      ensures outcome.LookupThrew? <==> old(displayHal).None? && lookup.NoService? && flavor == Kotlin
      ensures !(outcome.StateSent? || outcome.SendFailed?) ==> lhbmCalls == old(lhbmCalls) && displayHal.None?
      ensures displayHal == (if old(displayHal).Some? then old(displayHal)
                             else if Resolves(lookup) then Some(DisplayHal(lookup.binder)) else None)
      ensures deathLinks == old(deathLinks) + (if old(displayHal).None? && Resolves(lookup) then [lookup.binder] else [])
      ensures outcome.StateSent? || outcome.SendFailed? ==>
                outcome.hal == (if old(displayHal).Some? then old(displayHal).value else DisplayHal(lookup.binder))
    {
      outcome := SetLhbm(true, lookup, remoteSucceeds);
    }

    /** `disableLhbm`: SetLhbm with the state off. */
    method DisableLhbm(lookup: ServiceLookup, remoteSucceeds: bool) returns (outcome: LhbmOutcome)
      modifies this
      ensures outcome.StateSent? || outcome.SendFailed? <==> old(displayHal).Some? || Resolves(lookup)
      ensures outcome.StateSent? || outcome.SendFailed? ==>
                !outcome.on && lhbmCalls == old(lhbmCalls) + [(outcome.hal, false)] && (outcome.StateSent? <==> remoteSucceeds)
      ensures outcome.LookupThrew? <==> old(displayHal).None? && lookup.NoService? && flavor == Kotlin
      ensures !(outcome.StateSent? || outcome.SendFailed?) ==> lhbmCalls == old(lhbmCalls) && displayHal.None?
      ensures displayHal == (if old(displayHal).Some? then old(displayHal)
                             else if Resolves(lookup) then Some(DisplayHal(lookup.binder)) else None)
      ensures deathLinks == old(deathLinks) + (if old(displayHal).None? && Resolves(lookup) then [lookup.binder] else [])
      ensures outcome.StateSent? || outcome.SendFailed? ==>
                outcome.hal == (if old(displayHal).Some? then old(displayHal).value else DisplayHal(lookup.binder))
    {
      outcome := SetLhbm(false, lookup, remoteSucceeds);
    }

    /** The HAL died: forget the proxy so that the next call looks it up again. */
    method BinderDied()
      modifies this
      ensures displayHal.None?
      ensures deathLinks == old(deathLinks) && lhbmCalls == old(lhbmCalls)
    {
      displayHal := None;
    }
  }
}

/** Values shared by the fingerprint high-brightness-mode (HBM) classes:
    HBM kinds, opaque handles, the immutable request arguments and the calls
    the classes make on their collaborators. */
module HbmTypes {
  import opened Common

  /** `@HbmType int`: the two kinds the device supports, or any other code,
      which every operation rejects or only logs. */
  datatype HbmType = GlobalHbm | LocalHbm | Unsupported(code: int)

  predicate IsSupported(t: HbmType) {
    t.GlobalHbm? || t.LocalHbm?
  }

  /** An opaque drawing surface handle (`android.view.Surface`). */
  datatype Surface = Surface(handle: nat)

  /** An opaque caller-supplied callback (`Runnable`). */
  datatype Runnable = Runnable(id: nat)

  /** The final fields of `UdfpsHbmRequest.Args`. */
  datatype Args = Args(displayId: int, hbmType: HbmType, surface: Option<Surface>, onHbmEnabled: Option<Runnable>)

  /** What happens when the code calls the acknowledgement listener
      (`IUdfpsHbmListener`) that the auth controller hands out: there is none
      (null), the binder call is delivered, or it throws RemoteException. */
  datatype ListenerStatus = Absent | Delivered | RemoteFailure

  /** Refresh rate, in Hz, that global HBM needs. */
  const REFRESH_RATE_GHBM_HZ: int := 60

  /** The refresh rate the display must run at before HBM of this kind may be
      switched on: 60 Hz for global HBM, the display's peak rate for local HBM,
      and 0 for any other kind. */
  function RequiredRefreshRate(hbmType: HbmType, peakRefreshRate: int): int {
    match hbmType
    case GlobalHbm => REFRESH_RATE_GHBM_HZ
    case LocalHbm => peakRefreshRate
    case Unsupported(_) => 0
  }

  /** Calls made on collaborators, recorded in the order they are made.
      `ListenerHbmDisabled` with status `Absent` stands for the
      NullPointerException that dereferencing a missing listener raises. */
  datatype Effect =
    | RegisterDisplayListener
    | UnregisterDisplayListener
    | ListenerHbmEnabled(hbmType: HbmType, displayId: int, delivered: bool)
    | ListenerHbmDisabled(hbmType: HbmType, displayId: int, status: ListenerStatus)
    | EnableGhbm(surface: Option<Surface>)
    | DisableGhbm(surface: Option<Surface>)
    | EnableLhbm
    | DisableLhbm
    | UnsupportedTypeLogged(hbmType: HbmType)
    | RunCallback(callback: Runnable)

  /** The backend call that switching HBM on makes for a kind: the global
      provider with the surface, the local provider, or only an error log. */
  function BackendEnable(hbmType: HbmType, surface: Option<Surface>): (e: Effect)
    ensures e.EnableGhbm? <==> hbmType.GlobalHbm?
    ensures e.EnableLhbm? <==> hbmType.LocalHbm?
    ensures e.EnableGhbm? ==> e.surface == surface
    ensures !IsSupported(hbmType) ==> e == UnsupportedTypeLogged(hbmType)
  {
    match hbmType
    case GlobalHbm => EnableGhbm(surface)
    case LocalHbm => EnableLhbm
    case Unsupported(_) => UnsupportedTypeLogged(hbmType)
  }

  /** The backend call that switching HBM off makes for a kind. */
  function BackendDisable(hbmType: HbmType, surface: Option<Surface>): (e: Effect)
    ensures e.DisableGhbm? <==> hbmType.GlobalHbm?
    ensures e.DisableLhbm? <==> hbmType.LocalHbm?
    ensures e.DisableGhbm? ==> e.surface == surface
    ensures !IsSupported(hbmType) ==> e == UnsupportedTypeLogged(hbmType)
  {
    match hbmType
    case GlobalHbm => DisableGhbm(surface)
    case LocalHbm => DisableLhbm
    case Unsupported(_) => UnsupportedTypeLogged(hbmType)
  }

  /** Number of occurrences of `e` in a trace of calls. */
  function CountOf(effects: seq<Effect>, e: Effect): nat {
    if effects == [] then 0
    else CountOf(effects[..|effects| - 1], e) + (if effects[|effects| - 1] == e then 1 else 0)
  }

  lemma {:induction false} CountOfAppend(a: seq<Effect>, b: seq<Effect>, e: Effect)
    ensures CountOf(a + b, e) == CountOf(a, e) + CountOf(b, e)
  {
    if b != [] {
      assert (a + b)[..|a + b| - 1] == a + b[..|b| - 1];
      CountOfAppend(a, b[..|b| - 1], e);
    } else {
      assert a + b == a;
    }
  }
}

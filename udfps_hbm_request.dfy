/** The record of one in-flight HBM request (`UdfpsHbmRequest`): its
    arguments never change after construction, and the controller writes its
    two progress flags. */
module UdfpsHbmRequestRecord {
  import opened Common
  import opened HbmTypes

  class UdfpsHbmRequest {
    /** Final: neither the reference nor any field of `Args` is reassigned. */
    const args: Args
    /** Set once the required refresh rate was seen and the backend enable dispatched. */
    var beganEnablingHbm: bool
    /** Set after the caller's enabled-callback has run on the main thread. */
    var finishedEnablingHbm: bool

    constructor (displayId: int, hbmType: HbmType, surface: Option<Surface>, onHbmEnabled: Option<Runnable>)
      ensures args.displayId == displayId && args.hbmType == hbmType
      ensures args.surface == surface && args.onHbmEnabled == onHbmEnabled
      ensures !beganEnablingHbm && !finishedEnablingHbm
    {
      args := Args(displayId, hbmType, surface, onHbmEnabled);
      beganEnablingHbm := false;
      finishedEnablingHbm := false;
    }
  }
}

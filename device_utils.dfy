/** `DeviceUtils`: the screen class of a device from its display size, whether
    it shows a navigation bar, and closing the foreground application on a
    long press of back. Display metrics, settings, system properties and the
    activity manager's answers are parameters. */
module DeviceUtils {
  import opened Common

  // ---------------------------------------------------------------------
  // Screen class

  /** `DisplayMetrics.DENSITY_DEFAULT`. */
  const DENSITY_DEFAULT: int := 160
  const PHONE_MAX_DP: int := 600
  const HYBRID_MAX_DP: int := 720

  /** `DEVICE_PHONE`, `DEVICE_HYBRID`, `DEVICE_TABLET`. */
  datatype ScreenType = Phone | Hybrid | Tablet

  function Rank(t: ScreenType): nat {
    match t
    case Phone => 0
    case Hybrid => 1
    case Tablet => 2
  }

  function Min(a: int, b: int): int {
    if a <= b then a else b
  }

  /** The short side in dp, `min(h, w) * 160 / dpi` in 32-bit `int`
      arithmetic: the product wraps and the quotient rounds toward zero. */
  function ShortSizeDp(logicalHeight: int, logicalWidth: int, densityDpi: int): (dp: int)
    requires IsInt32(logicalHeight) && IsInt32(logicalWidth) && densityDpi != 0
    ensures IsInt32(dp)
  {
    Wrap32(TruncDiv(Wrap32(Min(logicalHeight, logicalWidth) * DENSITY_DEFAULT), densityDpi))
  }

  /** `getScreenType`: phone below 600 dp, hybrid below 720 dp, tablet beyond. */
  function GetScreenType(logicalHeight: int, logicalWidth: int, densityDpi: int): (t: ScreenType)
    requires IsInt32(logicalHeight) && IsInt32(logicalWidth) && densityDpi != 0
    ensures var dp := ShortSizeDp(logicalHeight, logicalWidth, densityDpi);
            && (t == Phone <==> dp < PHONE_MAX_DP)
            && (t == Hybrid <==> PHONE_MAX_DP <= dp < HYBRID_MAX_DP)
            && (t == Tablet <==> HYBRID_MAX_DP <= dp)
  {
    var shortSizeDp := ShortSizeDp(logicalHeight, logicalWidth, densityDpi);
    if shortSizeDp < PHONE_MAX_DP then Phone
    else if shortSizeDp < HYBRID_MAX_DP then Hybrid
    else Tablet
  }

  predicate IsPhone(h: int, w: int, dpi: int)
    requires IsInt32(h) && IsInt32(w) && dpi != 0
  {
    GetScreenType(h, w, dpi) == Phone
  }

  predicate IsHybrid(h: int, w: int, dpi: int)
    requires IsInt32(h) && IsInt32(w) && dpi != 0
  {
    GetScreenType(h, w, dpi) == Hybrid
  }

  predicate IsTablet(h: int, w: int, dpi: int)
    requires IsInt32(h) && IsInt32(w) && dpi != 0
  {
    GetScreenType(h, w, dpi) == Tablet
  }

  /** Every display is exactly one of phone, hybrid and tablet. */
  lemma ExactlyOneScreenClass(h: int, w: int, dpi: int)
    requires IsInt32(h) && IsInt32(w) && dpi != 0
    ensures IsPhone(h, w, dpi) || IsHybrid(h, w, dpi) || IsTablet(h, w, dpi)
    ensures !(IsPhone(h, w, dpi) && IsHybrid(h, w, dpi))
    ensures !(IsPhone(h, w, dpi) && IsTablet(h, w, dpi))
    ensures !(IsHybrid(h, w, dpi) && IsTablet(h, w, dpi))
  {
    match GetScreenType(h, w, dpi)
    case Phone =>
    case Hybrid =>
    case Tablet =>
  }

  /** Largest side for which `side * 160` does not overflow an `int`. */
  const MAX_UNWRAPPED_SIDE: int := INT32_MAX / DENSITY_DEFAULT

  /** Within the range where the product does not overflow, the short side
      in dp is the ordinary quotient. */
  lemma {:induction false} ShortSizeDpExact(h: nat, w: nat, dpi: int)
    requires h <= MAX_UNWRAPPED_SIDE && w <= MAX_UNWRAPPED_SIDE && dpi > 0
    ensures ShortSizeDp(h, w, dpi) == Min(h, w) * DENSITY_DEFAULT / dpi
  {
    var p := Min(h, w) * DENSITY_DEFAULT;
    assert 0 <= p <= INT32_MAX;
    TruncDivRem(p, dpi);
    DivShrinks(p, dpi);
  }

  /** At a fixed density, a display whose short side is at least as long is
      classed at least as large (while the product does not overflow). */
  lemma {:induction false} ScreenTypeMonotone(h: nat, w: nat, h': nat, w': nat, dpi: int)
    requires h <= MAX_UNWRAPPED_SIDE && w <= MAX_UNWRAPPED_SIDE
    requires h' <= MAX_UNWRAPPED_SIDE && w' <= MAX_UNWRAPPED_SIDE && dpi > 0
    requires Min(h, w) <= Min(h', w')
    ensures Rank(GetScreenType(h, w, dpi)) <= Rank(GetScreenType(h', w', dpi))
  {
    ShortSizeDpExact(h, w, dpi);
    ShortSizeDpExact(h', w', dpi);
    DivMonotone(Min(h, w) * DENSITY_DEFAULT, Min(h', w') * DENSITY_DEFAULT, dpi);
  }

  lemma MulAtLeast(k: int, d: int)
    requires k >= 1 && d > 0
    ensures k * d >= d
  {
    assert k * d == d + (k - 1) * d;
  }

  lemma DivMonotone(a: nat, b: nat, d: int)
    requires a <= b && d > 0
    ensures a / d <= b / d
  {
    var qa, qb := a / d, b / d;
    var ra, rb := a % d, b % d;
    assert a == qa * d + ra && 0 <= ra < d;
    assert b == qb * d + rb && 0 <= rb < d;
    if qa > qb {
      MulAtLeast(qa - qb, d);
      assert false;
    }
  }

  // ---------------------------------------------------------------------
  // Navigation bar

  /** `deviceSupportNavigationBarForUser`: the user's setting (1 shown, any
      other value hidden) wins; when it is unset (-1) the `qemu.hw.mainkeys`
      property decides ("1" hidden, "0" shown) and otherwise the
      configuration default. */
  function SupportsNavigationBar(showByDefault: bool, navigationBarShow: int, mainKeys: string): (r: bool)
    ensures r <==> navigationBarShow == 1 || (navigationBarShow == -1 && (mainKeys == "0" || (mainKeys != "1" && showByDefault)))
  {
    if navigationBarShow == -1 then
      if mainKeys == "1" then false
      else if mainKeys == "0" then true
      else showByDefault
    else navigationBarShow == 1
  }

  // ---------------------------------------------------------------------
  // Closing the foreground application

  const DEFAULT_HOME_PACKAGE: string := "com.android.launcher"
  const SYSTEMUI_PACKAGE: string := "com.android.systemui"
  const ANDROID_PACKAGE: string := "android"
  /** `Process.FIRST_APPLICATION_UID` and `LAST_APPLICATION_UID`. */
  const FIRST_APPLICATION_UID: int := 10000
  const LAST_APPLICATION_UID: int := 19999
  /** `RunningAppProcessInfo.IMPORTANCE_FOREGROUND`. */
  const IMPORTANCE_FOREGROUND: int := 100

  /** The fields of `RunningAppProcessInfo` the rule reads. */
  datatype ProcessInfo = ProcessInfo(pid: int, uid: int, importance: int, pkgList: Option<seq<string>>)

  /** What is done to a process: one of its packages force-stopped, or the
      process killed. */
  datatype Action = StopPackage(pkg: string) | KillProcess(pid: int)

  /** The launcher's package: the package of the resolved home activity
      unless there is none or it is the "android" resolver. */
  function HomePackage(homeActivityPackage: Option<string>): (home: string)
    ensures home != ANDROID_PACKAGE
    ensures homeActivityPackage.Some? && homeActivityPackage.value != ANDROID_PACKAGE ==> home == homeActivityPackage.value
    ensures homeActivityPackage.None? || homeActivityPackage.value == ANDROID_PACKAGE ==> home == DEFAULT_HOME_PACKAGE
  {
    if homeActivityPackage.Some? && homeActivityPackage.value != ANDROID_PACKAGE then homeActivityPackage.value
    else DEFAULT_HOME_PACKAGE
  }

  /** A foreground process of an application (not system, root, phone, …). */
  predicate IsCandidate(p: ProcessInfo) {
    FIRST_APPLICATION_UID <= p.uid <= LAST_APPLICATION_UID && p.importance == IMPORTANCE_FOREGROUND
  }

  predicate Spared(pkg: string, home: string) {
    pkg == SYSTEMUI_PACKAGE || pkg == home
  }

  /** The first package of the list that is neither System UI nor the launcher. */
  function FirstTarget(pkgs: seq<string>, home: string): (r: Option<string>)
    ensures r.Some? ==> r.value in pkgs && !Spared(r.value, home)
    ensures r.None? <==> forall k :: 0 <= k < |pkgs| ==> Spared(pkgs[k], home)
  {
    if pkgs == [] then None
    else if !Spared(pkgs[0], home) then Some(pkgs[0])
    else FirstTarget(pkgs[1..], home)
  }

  /** What the rule does to one process: nothing unless it is a candidate;
      with a package list, stop its first target package (if any); with no
      or an empty list, kill the process. */
  function ActionFor(p: ProcessInfo, home: string): Option<Action> {
    if !IsCandidate(p) then None
    else if p.pkgList.Some? && |p.pkgList.value| > 0 then
      match FirstTarget(p.pkgList.value, home)
      case None => None
      case Some(pkg) => Some(StopPackage(pkg))
    else Some(KillProcess(p.pid))
  }

  predicate EndsWithKill(actions: seq<Action>) {
    |actions| > 0 && actions[|actions| - 1].KillProcess?
  }

  /** Every action for the processes in order; a process kill ends the scan. */
  function Planned(apps: seq<ProcessInfo>, home: string): seq<Action> {
    if apps == [] then []
    else
      var before := Planned(apps[..|apps| - 1], home);
      if EndsWithKill(before) then before
      else match ActionFor(apps[|apps| - 1], home)
        case None => before
        case Some(a) => before + [a]
  }

  /** The scan of a prefix is a prefix of the scan. */
  lemma {:induction false} PlannedPrefix(apps: seq<ProcessInfo>, i: nat, home: string)
    requires i <= |apps|
    ensures Planned(apps[..i], home) <= Planned(apps, home)
    ensures EndsWithKill(Planned(apps[..i], home)) ==> Planned(apps, home) == Planned(apps[..i], home)
    decreases |apps| - i
  {
    if i < |apps| {
      PlannedPrefix(apps, i + 1, home);
      assert apps[..i + 1][..i] == apps[..i];
    } else {
      assert apps[..i] == apps;
    }
  }

  /** Only the last action can be a kill, no package stopped is System UI or
      the launcher, and each action belongs to a different candidate. */
  lemma {:induction false} PlannedTargets(apps: seq<ProcessInfo>, home: string)
    ensures var planned := Planned(apps, home);
            && |planned| <= |apps|
            && (forall k :: 0 <= k < |planned| - 1 ==> planned[k].StopPackage?)
            && (forall k :: 0 <= k < |planned| && planned[k].StopPackage? ==> !Spared(planned[k].pkg, home))
  {
    if apps != [] {
      PlannedTargets(apps[..|apps| - 1], home);
    }
  }

  /** Something is done exactly when some process has an action. */
  lemma {:induction false} PlannedNonEmpty(apps: seq<ProcessInfo>, home: string)
    ensures |Planned(apps, home)| > 0 <==> exists i :: 0 <= i < |apps| && ActionFor(apps[i], home).Some?
  {
    if apps != [] {
      var init := apps[..|apps| - 1];
      PlannedNonEmpty(init, home);
      if |Planned(init, home)| > 0 {
        var i :| 0 <= i < |init| && ActionFor(init[i], home).Some?;
        assert apps[i] == init[i];
      }
      if exists i :: 0 <= i < |apps| && ActionFor(apps[i], home).Some? {
        var i :| 0 <= i < |apps| && ActionFor(apps[i], home).Some?;
        if i < |init| {
          assert init[i] == apps[i];
        }
      }
    }
  }

  /** The actions actually carried out: the plan, cut short before the
      force-stop that raises a RemoteException (`failingStop` counts the
      force-stop calls from 0). */
  function Completed(planned: seq<Action>, failingStop: Option<nat>): (done: seq<Action>)
    ensures done <= planned
  {
    if failingStop.Some? && failingStop.value < |planned| && planned[failingStop.value].StopPackage? then planned[..failingStop.value]
    else planned
  }

  /** One more process extends the scan by its action, unless a kill already ended it. */
  lemma PlannedStep(apps: seq<ProcessInfo>, i: nat, home: string)
    requires i < |apps| && !EndsWithKill(Planned(apps[..i], home))
    ensures Planned(apps[..i + 1], home) ==
              Planned(apps[..i], home) + (match ActionFor(apps[i], home) case None => [] case Some(a) => [a])
  {
    assert apps[..i + 1][..i] == apps[..i];
  }

  lemma StopFails(done: seq<Action>, pkg: string, planned: seq<Action>)
    requires done + [StopPackage(pkg)] <= planned
    ensures Completed(planned, Some(|done|)) == done
  {
    assert planned[|done|] == StopPackage(pkg);
    assert planned[..|done|] == done;
  }

  lemma KillEnds(done: seq<Action>, pid: int, failingStop: Option<nat>)
    requires failingStop.None? || failingStop.value >= |done|
    ensures Completed(done + [KillProcess(pid)], failingStop) == done + [KillProcess(pid)]
  {
  }

  /** The inner loop of `killForegroundApplication`: the first package to
      stop, scanning the list in order. */
  method FindTarget(pkgs: seq<string>, home: string) returns (r: Option<string>)
    ensures r == FirstTarget(pkgs, home)
  {
    for j := 0 to |pkgs|
      invariant FirstTarget(pkgs, home) == FirstTarget(pkgs[j..], home)
    {
      var pkg := pkgs[j];
      assert pkgs[j..][1..] == pkgs[j + 1..];
      if pkg != SYSTEMUI_PACKAGE && pkg != home {
        return Some(pkg);
      }
    }
    return None;
  }

  /** The body of the outer loop for one process: a candidate with packages
      has its first target stopped (the inner loop), a candidate without
      any is killed. */
  method ProcessAction(appInfo: ProcessInfo, home: string) returns (action: Option<Action>)
    ensures action == ActionFor(appInfo, home)
  {
    if !IsCandidate(appInfo) {
      return None;
    }
    if appInfo.pkgList.Some? && |appInfo.pkgList.value| > 0 {
      var target := FindTarget(appInfo.pkgList.value, home);
      if target.Some? {
        return Some(StopPackage(target.value));
      }
      return None;
    }
    return Some(KillProcess(appInfo.pid));
  }

  /** `killForegroundApplication`. `homeActivityPackage` is the package of
      the resolved home activity; `apps` the running processes, or `None`
      when listing them raises a RemoteException; `failingStop` the
      force-stop call, if any, that raises one. Returns whether something
      was stopped or killed, and what was. */
  method KillForegroundApplication(homeActivityPackage: Option<string>, apps: Option<seq<ProcessInfo>>, failingStop: Option<nat>)
    returns (targetKilled: bool, actions: seq<Action>)
    ensures apps.None? ==> !targetKilled && actions == []
    ensures apps.Some? ==> actions == Completed(Planned(apps.value, HomePackage(homeActivityPackage)), failingStop)
    ensures targetKilled <==> |actions| > 0
  {
    targetKilled := false;
    actions := [];
    var defaultHomePackage := DEFAULT_HOME_PACKAGE;
    if homeActivityPackage.Some? && homeActivityPackage.value != ANDROID_PACKAGE {
      defaultHomePackage := homeActivityPackage.value;
    }
    if apps.None? {
      return;
    }
    var list := apps.value;
    ghost var home := HomePackage(homeActivityPackage);
    assert defaultHomePackage == home;
    var i := 0;
    while i < |list|
      invariant 0 <= i <= |list|
      invariant actions == Planned(list[..i], home) && !EndsWithKill(actions)
      invariant failingStop.None? || failingStop.value >= |actions|
      invariant targetKilled <==> |actions| > 0
    {
      var action := ProcessAction(list[i], defaultHomePackage);
      PlannedStep(list, i, home);
      if action.Some? {
        if action.value.StopPackage? && failingStop == Some(|actions|) {
          // The RemoteException ends the method with what was done so far.
          assert actions == Completed(Planned(list, home), failingStop) by {
            PlannedPrefix(list, i + 1, home);
            StopFails(actions, action.value.pkg, Planned(list, home));
          }
          return;
        }
        ghost var before := actions;
        actions := actions + [action.value];
        targetKilled := true;
        if action.value.KillProcess? {
          assert actions == Completed(Planned(list, home), failingStop) by {
            PlannedPrefix(list, i + 1, home);
            KillEnds(before, action.value.pid, failingStop);
          }
          return;
        }
      }
      i := i + 1;
    }
    assert list[..i] == list;
  }
}

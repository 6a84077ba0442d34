/** The Caffeine quick-settings tile: keeps the screen on with a wake lock for
    5, 10 or 30 minutes or indefinitely. A click toggles the lock; clicks in
    quick succession while it is held cycle through the durations and then
    switch it off; a long click selects "indefinitely". */
module CaffeineTileModel {
  import opened Common
  import opened QsTile

  /** Durations in seconds; -1 is "indefinitely". */
  const DURATIONS: seq<int> := [5 * 60, 10 * 60, 30 * 60, -1]
  const INFINITE_DURATION_INDEX: int := |DURATIONS| - 1
  /** Clicks closer together than this (milliseconds) cycle the duration. */
  const CYCLE_WINDOW_MS: int := 5000
  const INFINITY_SIGN: char := '∞'

  // ---------------------------------------------------------------------
  // Remaining-time text

  /** `String.format("%02d", v)`: at least two characters, zero-padded; a
      negative value is its sign and digits, which are already two characters. */
  function Format02(v: int): (s: string)
    ensures |s| >= 2
  {
    if v < 0 then IntToString(v)
    else if v < 10 then "0" + NatToString(v)
    else NatToString(v)
  }

  /** `formatValueWithRemainingTime`: "∞" for -1, otherwise minutes (modulo an
      hour) and seconds as `mm:ss`, with the JVM's truncating `/` and `%`. */
  function FormatRemaining(secondsRemaining: int): (r: string)
    ensures secondsRemaining == -1 <==> r == [INFINITY_SIGN]
  {
    if secondsRemaining == -1 then [INFINITY_SIGN]
    else Format02(TruncRem(TruncDiv(secondsRemaining, 60), 60)) + ":" + Format02(TruncRem(secondsRemaining, 60))
  }

  lemma {:induction false} Format02TwoDigits(v: int)
    requires 0 <= v < 100
    ensures |Format02(v)| == 2 && AllDigits(Format02(v)) && DigitsValue(Format02(v)) == v
  {
    var s := Format02(v);
    NatToStringValue(v);
    if v < 10 {
      assert s == ['0', DigitChar(v)];
      assert s[..1] == ['0'];
    } else {
      assert NatToString(v) == NatToString(v / 10) + [DigitChar(v % 10)];
      assert NatToString(v / 10) == [DigitChar(v / 10)];
    }
  }

  /** For any non-negative count the text is five characters `mm:ss` whose
      two fields read back as the minutes within the hour and the seconds;
      below one hour they add up to exactly the remaining seconds. */
  lemma {:induction false} FormatRemainingReadsBack(secondsRemaining: int)
    requires secondsRemaining >= 0
    ensures var r := FormatRemaining(secondsRemaining);
            && |r| == 5 && r[2] == ':'
            && AllDigits(r[..2]) && AllDigits(r[3..])
            && DigitsValue(r[..2]) == secondsRemaining / 60 % 60
            && DigitsValue(r[3..]) == secondsRemaining % 60
            && (secondsRemaining < 3600 ==> 60 * DigitsValue(r[..2]) + DigitsValue(r[3..]) == secondsRemaining)
  {
    var mm := TruncRem(TruncDiv(secondsRemaining, 60), 60);
    var ss := TruncRem(secondsRemaining, 60);
    TruncDivRem(secondsRemaining, 60);
    TruncDivRem(secondsRemaining / 60, 60);
    assert mm == secondsRemaining / 60 % 60;
    assert ss == secondsRemaining % 60;
    Format02TwoDigits(mm);
    Format02TwoDigits(ss);
    var r := FormatRemaining(secondsRemaining);
    assert r == Format02(mm) + ":" + Format02(ss);
    assert r[..2] == Format02(mm);
    assert r[3..] == Format02(ss);
  }

  /** Whole hours do not show: a count and the same count one hour later
      display the same text. */
  lemma FormatRemainingDropsHours(secondsRemaining: int)
    requires secondsRemaining >= 0
    ensures FormatRemaining(secondsRemaining + 3600) == FormatRemaining(secondsRemaining)
  {
    FormatRemainingNonNegative(secondsRemaining);
    FormatRemainingNonNegative(secondsRemaining + 3600);
    HourShift(secondsRemaining);
  }

  /** On a non-negative count the JVM operators are the Euclidean ones. */
  lemma FormatRemainingNonNegative(n: int)
    requires n >= 0
    ensures FormatRemaining(n) == Format02(n / 60 % 60) + ":" + Format02(n % 60)
  {
    TruncDivRem(n, 60);
    TruncDivRem(n / 60, 60);
  }

  lemma HourShift(n: nat)
    ensures (n + 3600) % 60 == n % 60
    ensures (n + 3600) / 60 % 60 == n / 60 % 60
  {
    var q, r := n / 60, n % 60;
    assert n + 3600 == 60 * (q + 60) + r;
    assert (n + 3600) / 60 == q + 60;
    assert (q + 60) % 60 == q % 60;
  }

  // ---------------------------------------------------------------------
  // Published tile state

  datatype CaffeineTileState = CaffeineTileState(value: bool, state: TileMode, secondaryLabel: Option<string>)

  /** `handleUpdateState`: the tile is on exactly while the wake lock is held,
      and only then shows the remaining time. */
  function CaffeineTileStateFor(held: bool, secondsRemaining: int): (r: CaffeineTileState)
    ensures r.value == held
    ensures r.state != Unavailable && (r.state == Active <==> held)
    ensures r.secondaryLabel.Some? <==> held
    ensures held ==> r.secondaryLabel.value == FormatRemaining(secondsRemaining)
  {
    if held then CaffeineTileState(true, Active, Some(FormatRemaining(secondsRemaining)))
    else CaffeineTileState(false, Inactive, None)
  }

  // ---------------------------------------------------------------------
  // The tile

  class CaffeineTile {
    var secondsRemaining: int
    /** Index into `DURATIONS`, or -1 after the cycle ran past the end. */
    var duration: int
    /** A countdown was started and has neither been cancelled nor finished. */
    var timerLive: bool
    /** `SystemClock.elapsedRealtime()` at the last click, or -1. */
    var lastClickTime: int
    /** Acquisitions of the (reference-counted) wake lock not yet released. */
    var wakeLockCount: nat
    var receiverRegistered: bool

    predicate Held()
      reads this
    {
      wakeLockCount > 0
    }

    /** The lock is never acquired twice; while it is held the duration index
        is a valid entry, a countdown runs exactly for the finite durations
        (showing that duration) and "indefinitely" shows -1. */
    ghost predicate Valid()
      reads this
    {
      && wakeLockCount <= 1
      && -1 <= duration < |DURATIONS|
      && secondsRemaining >= -1
      && (timerLive ==> Held())
      && (Held() ==> 0 <= duration && (timerLive <==> duration < INFINITE_DURATION_INDEX))
      && (timerLive ==> secondsRemaining == DURATIONS[duration])
      && (Held() && duration == INFINITE_DURATION_INDEX ==> secondsRemaining == -1)
    }

    constructor ()
      ensures Valid() && !Held() && receiverRegistered
      ensures secondsRemaining == 0 && duration == 0 && lastClickTime == -1 && !timerLive
    {
      secondsRemaining := 0;
      duration := 0;
      timerLive := false;
      lastClickTime := -1;
      wakeLockCount := 0;
      receiverRegistered := true;
    }

    method Acquire()
      modifies this
      ensures wakeLockCount == old(wakeLockCount) + 1
      ensures secondsRemaining == old(secondsRemaining) && duration == old(duration) && timerLive == old(timerLive)
      ensures lastClickTime == old(lastClickTime) && receiverRegistered == old(receiverRegistered)
    {
      wakeLockCount := wakeLockCount + 1;
    }

    method Release()
      requires wakeLockCount > 0
      modifies this
      ensures wakeLockCount == old(wakeLockCount) - 1
      ensures secondsRemaining == old(secondsRemaining) && duration == old(duration) && timerLive == old(timerLive)
      ensures lastClickTime == old(lastClickTime) && receiverRegistered == old(receiverRegistered)
    {
      wakeLockCount := wakeLockCount - 1;
    }

    method StopCountDown()
      modifies this
      ensures !timerLive
      ensures secondsRemaining == old(secondsRemaining) && duration == old(duration) && wakeLockCount == old(wakeLockCount)
      ensures lastClickTime == old(lastClickTime) && receiverRegistered == old(receiverRegistered)
    {
      timerLive := false;
    }

    /** `startCountDown(seconds)`: cancels any running countdown and shows
        `seconds`; -1 starts no timer. */
    method StartCountDown(seconds: int)
      modifies this
      ensures secondsRemaining == seconds && (timerLive <==> seconds != -1)
      ensures duration == old(duration) && wakeLockCount == old(wakeLockCount)
      ensures lastClickTime == old(lastClickTime) && receiverRegistered == old(receiverRegistered)
    {
      StopCountDown();
      secondsRemaining := seconds;
      if seconds == -1 {
        return;
      }
      timerLive := true;
    }

    /** `handleClick` at clock time `now`. */
    method HandleClick(now: int)
      requires Valid()
      modifies this
      ensures Valid()
      ensures lastClickTime == now && receiverRegistered == old(receiverRegistered)
      ensures var cycling := old(Held()) && old(lastClickTime) != -1 && now - old(lastClickTime) < CYCLE_WINDOW_MS;
              && (cycling && old(duration) + 1 < |DURATIONS| ==>
                    Held() && duration == old(duration) + 1 && secondsRemaining == DURATIONS[duration])
              && (cycling && old(duration) + 1 >= |DURATIONS| ==>
                    !Held() && duration == -1 && !timerLive && secondsRemaining == old(secondsRemaining))
              && (!cycling && old(Held()) ==>
                    !Held() && !timerLive && duration == old(duration) && secondsRemaining == old(secondsRemaining))
              && (!cycling && !old(Held()) ==>
                    Held() && duration == 0 && secondsRemaining == DURATIONS[0] && timerLive)
    {
      if Held() && lastClickTime != -1 && now - lastClickTime < CYCLE_WINDOW_MS {
        duration := duration + 1;
        if duration >= |DURATIONS| {
          duration := -1;
          StopCountDown();
          if Held() {
            Release();
          }
        } else {
          StartCountDown(DURATIONS[duration]);
          // The acquire-if-not-held that follows in the source cannot fire:
          // this branch is only taken while the lock is held.
          assert Held();
        }
      } else {
        if Held() {
          Release();
          StopCountDown();
        } else {
          Acquire();
          duration := 0;
          StartCountDown(DURATIONS[duration]);
        }
      }
      lastClickTime := now;
    }

    /** `handleLongClick`: select "indefinitely", holding the lock; nothing
        happens if that is already the case. */
    method HandleLongClick()
      requires Valid()
      modifies this
      ensures Valid()
      ensures Held() && duration == INFINITE_DURATION_INDEX && secondsRemaining == -1 && !timerLive
      ensures wakeLockCount == 1 && lastClickTime == old(lastClickTime) && receiverRegistered == old(receiverRegistered)
      ensures old(Held()) && old(duration) == INFINITE_DURATION_INDEX ==>
                secondsRemaining == old(secondsRemaining) && timerLive == old(timerLive)
    {
      if Held() {
        if duration == INFINITE_DURATION_INDEX {
          return;
        }
      } else {
        Acquire();
      }
      duration := INFINITE_DURATION_INDEX;
      StartCountDown(DURATIONS[INFINITE_DURATION_INDEX]);
    }

    /** The countdown ran out: the lock is released. */
    method OnTimerFinish()
      requires Valid() && timerLive
      modifies this
      ensures Valid()
      ensures !Held() && !timerLive
      ensures duration == old(duration) && secondsRemaining == old(secondsRemaining)
      ensures lastClickTime == old(lastClickTime) && receiverRegistered == old(receiverRegistered)
    {
      timerLive := false;
      if Held() {
        Release();
      }
    }

    /** `Receiver.onReceive` for a screen-off broadcast: the countdown stops
        and the lock is released. */
    method OnScreenOff()
      requires Valid()
      modifies this
      ensures Valid()
      ensures !Held() && !timerLive
      ensures duration == old(duration) && secondsRemaining == old(secondsRemaining)
      ensures lastClickTime == old(lastClickTime) && receiverRegistered == old(receiverRegistered)
    {
      StopCountDown();
      if Held() {
        Release();
      }
    }

    /** `handleDestroy`: as a screen-off, and the receiver is unregistered. */
    method HandleDestroy()
      requires Valid()
      modifies this
      ensures Valid()
      ensures !Held() && !timerLive && !receiverRegistered
      ensures secondsRemaining == old(secondsRemaining) && duration == old(duration) && lastClickTime == old(lastClickTime)
    {
      StopCountDown();
      receiverRegistered := false;
      if Held() {
        Release();
      }
    }

    /** The state the tile publishes on its next refresh. */
    function TileState(): CaffeineTileState
      reads this
    {
      CaffeineTileStateFor(Held(), secondsRemaining)
    }
  }
}

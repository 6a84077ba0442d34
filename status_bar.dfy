/** The charging-animation bookkeeping of `StatusBarGoogle`: after the
    wireless-charging animation, a reverse-charging (power-share) animation
    follows once, no earlier than 1500 ms after the first one began. The
    uptime clock is the `now` parameter of each step. */
module StatusBar {
  import opened Common

  /** The gap kept between the start of the wireless-charging animation and
      the start of the reverse-charging one, in milliseconds. */
  const ANIMATION_GAP_MS: int := 1500

  /** The delay passed to `showChargingAnimation`, from the time elapsed since
      the wireless-charging animation began. */
  function ReverseAnimationDelay(elapsed: int): (delay: int)
    ensures delay >= 0
    ensures elapsed + delay >= ANIMATION_GAP_MS
    ensures delay == 0 || elapsed + delay == ANIMATION_GAP_MS
  {
    if elapsed > ANIMATION_GAP_MS then 0 else ANIMATION_GAP_MS - elapsed
  }

  /** The reverse animation starts at the later of now and 1500 ms after the
      wireless animation began, and never later than that. */
  lemma ReverseAnimationStart(startTime: int, now: int)
    ensures now + ReverseAnimationDelay(now - startTime) == if now > startTime + ANIMATION_GAP_MS then now else startTime + ANIMATION_GAP_MS
  {
  }

  /** A `showChargingAnimation` call: the receiving level, the transmitting
      level and the delay. */
  datatype ChargingAnimation = ChargingAnimation(receivingLevel: int, transmittingLevel: int, delay: int)

  /** The condition under which `onReverseChanged` starts the reverse animation. */
  predicate ReverseAnimationDue(isReverse: bool, level: int, name: Option<string>, wirelessCharging: bool,
                                chargingAnimShown: bool, reverseChargingAnimShown: bool)
  {
    !isReverse && level >= 0 && !IsEmpty(name) && wirelessCharging && chargingAnimShown && !reverseChargingAnimShown
  }

  class StatusBarGoogle {
    var animStartTime: int
    var chargingAnimShown: bool
    var receivingBatteryLevel: int
    var reverseChargingAnimShown: bool
    /** Wireless-charging animations shown, by their battery level. */
    var wirelessAnimations: seq<int>
    /** `showChargingAnimation` calls made, in order. */
    var chargingAnimations: seq<ChargingAnimation>

    /** The flags follow the animations: the wireless flag is up only after a
        wireless animation, and the reverse flag only while the wireless flag
        is up and after a reverse animation. */
    ghost predicate Valid()
      reads this
    {
      && (chargingAnimShown ==> |wirelessAnimations| > 0)
      && (reverseChargingAnimShown ==> chargingAnimShown && |chargingAnimations| > 0)
    }

    constructor ()
      ensures Valid()
      ensures animStartTime == 0 && !chargingAnimShown && receivingBatteryLevel == 0 && !reverseChargingAnimShown
      ensures wirelessAnimations == [] && chargingAnimations == []
    {
      animStartTime := 0;
      chargingAnimShown := false;
      receivingBatteryLevel := 0;
      reverseChargingAnimShown := false;
      wirelessAnimations := [];
      chargingAnimations := [];
    }

    /** `onBatteryLevelChanged`: record the level; off wireless charging,
        forget the reverse animation, and the wireless one too once its
        1500 ms have passed. */
    method OnBatteryLevelChanged(level: int, pluggedIn: bool, charging: bool, wirelessCharging: bool, now: int)
      requires Valid()
      modifies this
      ensures Valid()
      ensures receivingBatteryLevel == level
      ensures wirelessCharging ==>
                chargingAnimShown == old(chargingAnimShown) && reverseChargingAnimShown == old(reverseChargingAnimShown)
      ensures !wirelessCharging ==>
                && !reverseChargingAnimShown
                && chargingAnimShown == (old(chargingAnimShown) && now - animStartTime <= ANIMATION_GAP_MS)
      ensures animStartTime == old(animStartTime)
      ensures wirelessAnimations == old(wirelessAnimations) && chargingAnimations == old(chargingAnimations)
    {
      receivingBatteryLevel := level;
      if !wirelessCharging {
        if now - animStartTime > ANIMATION_GAP_MS {
          chargingAnimShown := false;
        }
        reverseChargingAnimShown := false;
      }
    }

    /** `onReverseChanged`: when reverse charging has just ended on a phone
        that is itself charging wirelessly after the wireless animation, show
        the reverse animation once, delayed to keep the 1500 ms gap. */
    method OnReverseChanged(isReverse: bool, level: int, name: Option<string>, wirelessCharging: bool, now: int)
      requires Valid()
      modifies this
      ensures Valid()
      ensures var due := ReverseAnimationDue(isReverse, level, name, wirelessCharging,
                                             old(chargingAnimShown), old(reverseChargingAnimShown));
              && (due ==>
                    && reverseChargingAnimShown
                    && chargingAnimations == old(chargingAnimations) +
                         [ChargingAnimation(receivingBatteryLevel, level, ReverseAnimationDelay(now - animStartTime))])
              && (!due ==>
                    reverseChargingAnimShown == old(reverseChargingAnimShown) && chargingAnimations == old(chargingAnimations))
      ensures animStartTime == old(animStartTime) && chargingAnimShown == old(chargingAnimShown)
      ensures receivingBatteryLevel == old(receivingBatteryLevel) && wirelessAnimations == old(wirelessAnimations)
    {
      if !isReverse && level >= 0 && !IsEmpty(name) && wirelessCharging && chargingAnimShown && !reverseChargingAnimShown {
        reverseChargingAnimShown := true;
        var elapsed := now - animStartTime;
        var delay := if elapsed > ANIMATION_GAP_MS then 0 else ANIMATION_GAP_MS - elapsed;
        chargingAnimations := chargingAnimations + [ChargingAnimation(receivingBatteryLevel, level, delay)];
      }
    }

    /** `showWirelessChargingAnimation`: mark it shown, show it, and start
        the clock for the reverse animation's gap. */
    method ShowWirelessChargingAnimation(batteryLevel: int, now: int)
      requires Valid()
      modifies this
      ensures Valid()
      ensures chargingAnimShown && animStartTime == now
      ensures wirelessAnimations == old(wirelessAnimations) + [batteryLevel]
      ensures reverseChargingAnimShown == old(reverseChargingAnimShown)
      ensures receivingBatteryLevel == old(receivingBatteryLevel) && chargingAnimations == old(chargingAnimations)
    {
      chargingAnimShown := true;
      wirelessAnimations := wirelessAnimations + [batteryLevel];
      animStartTime := now;
    }
  }
}

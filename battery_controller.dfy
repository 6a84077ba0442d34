/** `BatteryControllerImplGoogle`: the battery controller extended with
    reverse (wireless power-share) charging and the extreme battery saver.
    Both states are pushed to the registered callbacks: a new callback is
    told the current state, and every change is sent to every callback in
    list order. A callback is an id, and what it was told is kept in a
    delivery log. */
module BatteryController {
  import opened Common

  type CallbackId = nat

  datatype Kind = ReverseKind | ExtremeKind

  /** A callback invocation: `onReverseChanged` or `onExtremeBatterySaverChanged`. */
  datatype Event =
    | ReverseChanged(isReverse: bool, level: int, name: Option<string>)
    | ExtremeSaverChanged(isExtreme: bool)
  {
    function Kind(): Kind {
      if ReverseChanged? then ReverseKind else ExtremeKind
    }
  }

  datatype Delivery = Delivery(callback: CallbackId, event: Event)

  /** The answer of the flip-endo content provider to `get_flipendo_state`. */
  datatype ProviderReply =
    | Reply(flipendoState: Option<bool>)   // a bundle, with or without the key
    | NullReply                            // the call returned null
    | IllegalArgument                      // the provider is not installed

  /** `isExtremeBatterySaving`: the key's value, `false` when the key or the
      provider is missing, and `None` when the null reply makes `extras!!`
      throw. */
  function ExtremeBatterySaving(reply: ProviderReply): (r: Option<bool>)
    ensures r.None? <==> reply.NullReply?
    ensures r == Some(true) <==> reply == Reply(Some(true))
  {
    match reply
    case Reply(state) => Some(if state.Some? then state.value else false)
    case NullReply => None
    case IllegalArgument => Some(false)
  }

  // ---------------------------------------------------------------------
  // Delivery logs

  /** One `fire…` loop: `ev` to each callback, in list order. */
  function Broadcast(callbacks: seq<CallbackId>, ev: Event): (r: seq<Delivery>)
    ensures |r| == |callbacks|
    ensures forall i :: 0 <= i < |r| ==> r[i] == Delivery(callbacks[i], ev)
  {
    if callbacks == [] then [] else Broadcast(callbacks[..|callbacks| - 1], ev) + [Delivery(callbacks[|callbacks| - 1], ev)]
  }

  /** What callback `cb` was told, in order. */
  function EventsFor(log: seq<Delivery>, cb: CallbackId): seq<Event> {
    if log == [] then []
    else
      var last := log[|log| - 1];
      EventsFor(log[..|log| - 1], cb) + (if last.callback == cb then [last.event] else [])
  }

  /** The latest event of one kind. */
  function Latest(events: seq<Event>, kind: Kind): Option<Event> {
    if events == [] then None
    else if events[|events| - 1].Kind() == kind then Some(events[|events| - 1])
    else Latest(events[..|events| - 1], kind)
  }

  lemma {:induction false} EventsForAppend(a: seq<Delivery>, b: seq<Delivery>, cb: CallbackId)
    ensures EventsFor(a + b, cb) == EventsFor(a, cb) + EventsFor(b, cb)
    decreases |b|
  {
    if b == [] {
      assert a + b == a;
    } else {
      var init := b[..|b| - 1];
      assert (a + b)[..|a + b| - 1] == a + init;
      EventsForAppend(a, init, cb);
    }
  }

  lemma {:induction false} LatestAppend(a: seq<Event>, b: seq<Event>, kind: Kind)
    ensures Latest(a + b, kind) == if Latest(b, kind).Some? then Latest(b, kind) else Latest(a, kind)
    decreases |b|
  {
    if b == [] {
      assert a + b == a;
    } else {
      var init := b[..|b| - 1];
      assert (a + b)[..|a + b| - 1] == a + init;
      LatestAppend(a, init, kind);
    }
  }

  /** A broadcast tells each callback `ev` once per registration, and
      nothing else. */
  lemma {:induction false} BroadcastEvents(callbacks: seq<CallbackId>, ev: Event, cb: CallbackId)
    ensures |EventsFor(Broadcast(callbacks, ev), cb)| == multiset(callbacks)[cb]
    ensures forall e :: e in EventsFor(Broadcast(callbacks, ev), cb) ==> e == ev
  {
    if callbacks != [] {
      var init := callbacks[..|callbacks| - 1];
      var last := callbacks[|callbacks| - 1];
      var b := Broadcast(callbacks, ev);
      assert callbacks == init + [last];
      BroadcastEvents(init, ev, cb);
      assert b == Broadcast(init, ev) + [Delivery(last, ev)];
      assert b[..|b| - 1] == Broadcast(init, ev);
      assert EventsFor(b, cb) == EventsFor(Broadcast(init, ev), cb) + (if last == cb then [ev] else []);
      assert multiset(callbacks) == multiset(init) + multiset{last};
    }
  }

  /** After a broadcast, a registered callback's latest event of the
      broadcast kind is the broadcast event, and of the other kind nothing
      new. */
  lemma {:induction false} LatestOfBroadcast(callbacks: seq<CallbackId>, ev: Event, cb: CallbackId, kind: Kind)
    ensures Latest(EventsFor(Broadcast(callbacks, ev), cb), kind) == if cb in callbacks && ev.Kind() == kind then Some(ev) else None
  {
    var events := EventsFor(Broadcast(callbacks, ev), cb);
    BroadcastEvents(callbacks, ev, cb);
    assert cb in callbacks <==> multiset(callbacks)[cb] > 0;
    LatestOfUniform(events, ev, kind);
  }

  lemma {:induction false} LatestOfUniform(events: seq<Event>, ev: Event, kind: Kind)
    requires forall e :: e in events ==> e == ev
    ensures Latest(events, kind) == if events != [] && ev.Kind() == kind then Some(ev) else None
    decreases |events|
  {
    if events != [] {
      assert events[|events| - 1] in events;
      var init := events[..|events| - 1];
      assert forall e :: e in init ==> e in events;
      LatestOfUniform(init, ev, kind);
    }
  }

  lemma LatestOfPair(reverse: Event, extreme: Event, kind: Kind)
    requires reverse.ReverseChanged? && extreme.ExtremeSaverChanged?
    ensures Latest([reverse, extreme], kind) == Some(if kind == ReverseKind then reverse else extreme)
  {
    assert [reverse, extreme][..1] == [reverse];
    assert [reverse][..0] == [];
  }

  // ---------------------------------------------------------------------
  // The controller

  class BatteryControllerImplGoogle {
    var extremeSaver: bool
    var reverse: bool
    var rtxLevel: int
    var rtxName: Option<string>
    /** `mChangeCallbacks`, in registration order. */
    var callbacks: seq<CallbackId>
    /** Every callback invocation so far. */
    var delivered: seq<Delivery>
    /** `setReverseState` requests forwarded to the reverse-charging controller. */
    var reverseRequests: seq<bool>
    var registeredWithReverseController: bool
    var observingProvider: bool

    function ReverseEvent(): Event
      reads this
    {
      ReverseChanged(reverse, rtxLevel, rtxName)
    }

    /** Every registered callback's latest reverse and extreme-saver events
        carry the controller's current values. */
    ghost predicate InSync()
      reads this
    {
      forall cb :: cb in callbacks ==>
        && Latest(EventsFor(delivered, cb), ReverseKind) == Some(ReverseEvent())
        && Latest(EventsFor(delivered, cb), ExtremeKind) == Some(ExtremeSaverChanged(extremeSaver))
    }

    constructor ()
      ensures InSync()
      ensures !extremeSaver && !reverse && rtxLevel == 0 && rtxName.None?
      ensures callbacks == [] && delivered == [] && reverseRequests == []
      ensures !registeredWithReverseController && !observingProvider
    {
      extremeSaver := false;
      reverse := false;
      rtxLevel := 0;
      rtxName := None;
      callbacks := [];
      delivered := [];
      reverseRequests := [];
      registeredWithReverseController := false;
      observingProvider := false;
    }

    /** `isReverseOn`. */
    function IsReverseOn(): (r: bool)
      reads this
      ensures r <==> ReverseEvent().isReverse
      ensures InSync() ==> forall cb :: cb in callbacks ==>
                Latest(EventsFor(delivered, cb), ReverseKind).Some? && Latest(EventsFor(delivered, cb), ReverseKind).value.isReverse == r
    {
      reverse
    }

    /** `fireReverseChanged`. */
    method FireReverseChanged()
      modifies this
      ensures delivered == old(delivered) + Broadcast(callbacks, ReverseEvent())
      ensures callbacks == old(callbacks) && ReverseEvent() == old(ReverseEvent()) && extremeSaver == old(extremeSaver)
      ensures reverseRequests == old(reverseRequests)
      ensures registeredWithReverseController == old(registeredWithReverseController)
      ensures observingProvider == old(observingProvider)
    {
      var n := |callbacks|;
      for i := 0 to n
        invariant callbacks == old(callbacks) && ReverseEvent() == old(ReverseEvent()) && extremeSaver == old(extremeSaver)
        invariant delivered == old(delivered) + Broadcast(callbacks[..i], ReverseEvent())
        invariant reverseRequests == old(reverseRequests)
        invariant registeredWithReverseController == old(registeredWithReverseController)
        invariant observingProvider == old(observingProvider)
      {
        assert callbacks[..i + 1][..i] == callbacks[..i];
        delivered := delivered + [Delivery(callbacks[i], ReverseChanged(reverse, rtxLevel, rtxName))];
      }
      assert callbacks[..n] == callbacks;
    }

    /** `fireExtremeSaverChanged`. */
    method FireExtremeSaverChanged()
      modifies this
      ensures delivered == old(delivered) + Broadcast(callbacks, ExtremeSaverChanged(extremeSaver))
      ensures callbacks == old(callbacks) && ReverseEvent() == old(ReverseEvent()) && extremeSaver == old(extremeSaver)
      ensures reverseRequests == old(reverseRequests)
      ensures registeredWithReverseController == old(registeredWithReverseController)
      ensures observingProvider == old(observingProvider)
    {
      var n := |callbacks|;
      for i := 0 to n
        invariant callbacks == old(callbacks) && ReverseEvent() == old(ReverseEvent()) && extremeSaver == old(extremeSaver)
        invariant delivered == old(delivered) + Broadcast(callbacks[..i], ExtremeSaverChanged(extremeSaver))
        invariant reverseRequests == old(reverseRequests)
        invariant registeredWithReverseController == old(registeredWithReverseController)
        invariant observingProvider == old(observingProvider)
      {
        assert callbacks[..i + 1][..i] == callbacks[..i];
        delivered := delivered + [Delivery(callbacks[i], ExtremeSaverChanged(extremeSaver))];
      }
      assert callbacks[..n] == callbacks;
    }

    /** Appending a broadcast of the current value of one kind to a log in
        which every registered callback already has the current value of the
        other kind brings every registered callback in sync. */
    lemma BroadcastKeepsSync(before: seq<Delivery>, ev: Event)
      requires delivered == before + Broadcast(callbacks, ev)
      requires ev == (if ev.Kind() == ReverseKind then ReverseEvent() else ExtremeSaverChanged(extremeSaver))
      requires var other := if ev.Kind() == ReverseKind then ExtremeSaverChanged(extremeSaver) else ReverseEvent();
               forall cb :: cb in callbacks ==> Latest(EventsFor(before, cb), other.Kind()) == Some(other)
      ensures InSync()
    {
      forall cb | cb in callbacks
        ensures Latest(EventsFor(delivered, cb), ReverseKind) == Some(ReverseEvent())
        ensures Latest(EventsFor(delivered, cb), ExtremeKind) == Some(ExtremeSaverChanged(extremeSaver))
      {
        EventsForAppend(before, Broadcast(callbacks, ev), cb);
        LatestAppend(EventsFor(before, cb), EventsFor(Broadcast(callbacks, ev), cb), ReverseKind);
        LatestAppend(EventsFor(before, cb), EventsFor(Broadcast(callbacks, ev), cb), ExtremeKind);
        LatestOfBroadcast(callbacks, ev, cb, ReverseKind);
        LatestOfBroadcast(callbacks, ev, cb, ExtremeKind);
      }
    }

    /** `onReverseChargingChanged`: store the three values and send them to
        every callback. */
    method OnReverseChargingChanged(isReverse: bool, level: int, name: Option<string>)
      requires InSync()
      modifies this
      ensures InSync()
      ensures reverse == isReverse && rtxLevel == level && rtxName == name
      ensures delivered == old(delivered) + Broadcast(callbacks, ReverseChanged(isReverse, level, name))
      ensures callbacks == old(callbacks) && extremeSaver == old(extremeSaver) && reverseRequests == old(reverseRequests)
      ensures registeredWithReverseController == old(registeredWithReverseController)
      ensures observingProvider == old(observingProvider)
    {
      ghost var before := delivered;
      assert forall cb :: cb in callbacks ==> Latest(EventsFor(before, cb), ExtremeKind) == Some(ExtremeSaverChanged(extremeSaver));
      reverse := isReverse;
      rtxLevel := level;
      rtxName := name;
      FireReverseChanged();
      BroadcastKeepsSync(before, ReverseEvent());
    }

    /** `addCallback`: register `cb`, then tell it the reverse state and the
        extreme-saver state. Nobody else is told anything. */
    method AddCallback(cb: CallbackId)
      requires InSync()
      modifies this
      ensures InSync()
      ensures callbacks == old(callbacks) + [cb]
      ensures delivered == old(delivered) + [Delivery(cb, ReverseEvent()), Delivery(cb, ExtremeSaverChanged(extremeSaver))]
      ensures forall other :: other != cb ==> EventsFor(delivered, other) == EventsFor(old(delivered), other)
      ensures ReverseEvent() == old(ReverseEvent()) && extremeSaver == old(extremeSaver)
      ensures reverseRequests == old(reverseRequests)
      ensures registeredWithReverseController == old(registeredWithReverseController)
      ensures observingProvider == old(observingProvider)
    {
      ghost var before := delivered;
      callbacks := callbacks + [cb];
      var replay := [Delivery(cb, ReverseChanged(reverse, rtxLevel, rtxName)), Delivery(cb, ExtremeSaverChanged(extremeSaver))];
      delivered := delivered + replay;
      assert replay[..1] == [replay[0]];
      assert [replay[0]][..0] == [];
      forall other
        ensures EventsFor(delivered, other) == EventsFor(before, other) + EventsFor(replay, other)
      {
        EventsForAppend(before, replay, other);
      }
      forall c
        ensures EventsFor(replay, c) == if c == cb then [ReverseEvent(), ExtremeSaverChanged(extremeSaver)] else []
      {
        assert EventsFor(replay[..1], c) == EventsFor([], c) + (if cb == c then [ReverseEvent()] else []);
      }
      forall c | c in callbacks
        ensures Latest(EventsFor(delivered, c), ReverseKind) == Some(ReverseEvent())
        ensures Latest(EventsFor(delivered, c), ExtremeKind) == Some(ExtremeSaverChanged(extremeSaver))
      {
        LatestAppend(EventsFor(before, c), EventsFor(replay, c), ReverseKind);
        LatestAppend(EventsFor(before, c), EventsFor(replay, c), ExtremeKind);
        if c == cb {
          LatestOfPair(ReverseEvent(), ExtremeSaverChanged(extremeSaver), ReverseKind);
          LatestOfPair(ReverseEvent(), ExtremeSaverChanged(extremeSaver), ExtremeKind);
        }
      }
    }

    /** `setExtremeSaver`: callbacks hear of a change, and only of a change. */
    method SetExtremeSaver(isExtreme: bool)
      requires InSync()
      modifies this
      ensures InSync()
      ensures extremeSaver == isExtreme
      ensures delivered == old(delivered) +
                (if isExtreme != old(extremeSaver) then Broadcast(callbacks, ExtremeSaverChanged(isExtreme)) else [])
      ensures callbacks == old(callbacks) && ReverseEvent() == old(ReverseEvent()) && reverseRequests == old(reverseRequests)
      ensures registeredWithReverseController == old(registeredWithReverseController)
      ensures observingProvider == old(observingProvider)
    {
      if isExtreme != extremeSaver {
        ghost var before := delivered;
        assert forall cb :: cb in callbacks ==> Latest(EventsFor(before, cb), ReverseKind) == Some(ReverseEvent());
        extremeSaver := isExtreme;
        FireExtremeSaverChanged();
        BroadcastKeepsSync(before, ExtremeSaverChanged(extremeSaver));
      }
    }

    /** The content observer's `onChange`: re-read the provider and apply
        it. `ok` is false when the read throws, which leaves the state alone. */
    method OnProviderChange(reply: ProviderReply) returns (ok: bool)
      requires InSync()
      modifies this
      ensures InSync()
      ensures ok <==> ExtremeBatterySaving(reply).Some?
      ensures ok ==> extremeSaver == ExtremeBatterySaving(reply).value
      ensures ok ==>
                delivered == old(delivered) +
                  (if extremeSaver != old(extremeSaver) then Broadcast(callbacks, ExtremeSaverChanged(extremeSaver)) else [])
      ensures !ok ==> extremeSaver == old(extremeSaver) && delivered == old(delivered)
      ensures callbacks == old(callbacks) && ReverseEvent() == old(ReverseEvent()) && reverseRequests == old(reverseRequests)
      ensures registeredWithReverseController == old(registeredWithReverseController)
      ensures observingProvider == old(observingProvider)
    {
      var saving := ExtremeBatterySaving(reply);
      if saving.None? {
        return false;
      }
      SetExtremeSaver(saving.value);
      return true;
    }

    /** `init` (beyond the base class): reset the reverse values without
        telling anyone, register with the reverse-charging controller, then
        observe the provider and read it once; a failure there (`registerThrows`,
        or a read that throws) is caught and ends the step. */
    method Init(registerThrows: bool, reply: ProviderReply)
      modifies this
      ensures !reverse && rtxLevel == -1 && rtxName.None?
      ensures registeredWithReverseController
      ensures observingProvider == (!registerThrows || old(observingProvider))
      ensures extremeSaver == (if !registerThrows && ExtremeBatterySaving(reply).Some?
                               then ExtremeBatterySaving(reply).value else old(extremeSaver))
      ensures callbacks == old(callbacks) && reverseRequests == old(reverseRequests)
      ensures delivered == old(delivered) +
                (if !registerThrows && ExtremeBatterySaving(reply).Some? && ExtremeBatterySaving(reply).value != old(extremeSaver)
                 then Broadcast(callbacks, ExtremeSaverChanged(extremeSaver)) else [])
      ensures old(callbacks) == [] ==> InSync() && delivered == old(delivered)
    {
      reverse := false;
      rtxLevel := -1;
      rtxName := None;
      registeredWithReverseController := true;
      if registerThrows {
        return;
      }
      observingProvider := true;
      var saving := ExtremeBatterySaving(reply);
      if saving.Some? && saving.value != extremeSaver {
        extremeSaver := saving.value;
        FireExtremeSaverChanged();
      }
    }

    /** `setReverseState`: forwarded to the reverse-charging controller. */
    method SetReverseState(isReverse: bool)
      requires InSync()
      modifies this
      ensures InSync()
      ensures reverseRequests == old(reverseRequests) + [isReverse]
      ensures callbacks == old(callbacks) && delivered == old(delivered)
      ensures ReverseEvent() == old(ReverseEvent()) && extremeSaver == old(extremeSaver)
      ensures registeredWithReverseController == old(registeredWithReverseController)
      ensures observingProvider == old(observingProvider)
    {
      reverseRequests := reverseRequests + [isReverse];
    }
  }
}

/** `KeyguardSliceProviderGoogle` (Java and Kotlin twins): the lock-screen
    slice shows the current smartspace card when its sensitivity allows it,
    otherwise the date and weather. The provider tracks two "hide" flags,
    notifies its observers only when something changed, and gives each
    weather icon a drop shadow once, on a background task. Which twin is
    followed is the provider's `flavor`; the twins differ only in when the
    card's header gets a primary action. */
module KeyguardSlice {
  import opened Common

  /** An icon bitmap; `Shadowed` is the copy `applyShadow` draws. */
  datatype Bitmap = Raw(id: nat) | Shadowed(original: Bitmap)

  /** The card fields the provider reads, at one moment. */
  datatype CardView = CardView(
    expired: bool,
    title: Option<string>,
    formattedTitle: string,
    sensitive: bool,
    workProfile: bool,
    hasIcon: bool,
    hasPendingIntent: bool,
    subtitle: Option<string>)

  /** A smartspace card. Its icon and "icon processed" mark are written by
      the provider; the rest is fixed. */
  class SmartSpaceCard {
    const expired: bool
    const title: Option<string>
    const formattedTitle: string
    const sensitive: bool
    const workProfile: bool
    const hasPendingIntent: bool
    const subtitle: Option<string>
    var icon: Option<Bitmap>
    var iconProcessed: bool

    constructor (expired: bool, title: Option<string>, formattedTitle: string, sensitive: bool, workProfile: bool,
                 hasPendingIntent: bool, subtitle: Option<string>, icon: Option<Bitmap>)
      ensures this.expired == expired && this.title == title && this.formattedTitle == formattedTitle
      ensures this.sensitive == sensitive && this.workProfile == workProfile
      ensures this.hasPendingIntent == hasPendingIntent && this.subtitle == subtitle
      ensures this.icon == icon && !iconProcessed
    {
      this.expired := expired;
      this.title := title;
      this.formattedTitle := formattedTitle;
      this.sensitive := sensitive;
      this.workProfile := workProfile;
      this.hasPendingIntent := hasPendingIntent;
      this.subtitle := subtitle;
      this.icon := icon;
      iconProcessed := false;
    }

    function View(): CardView
      reads this
    {
      CardView(expired, title, formattedTitle, sensitive, workProfile, icon.Some?, hasPendingIntent, subtitle)
    }
  }

  /** `SmartSpaceData`: the current card and the weather card, either absent. */
  datatype SmartSpaceData = SmartSpaceData(currentCard: SmartSpaceCard?, weatherCard: SmartSpaceCard?)

  function ViewOf(card: SmartSpaceCard?): Option<CardView>
    reads card
  {
    if card == null then None else Some(card.View())
  }

  // ---------------------------------------------------------------------
  // What the slice shows

  /** The `hasAction` test of `onBindSlice`: a present, unexpired card with a
      title is shown when it is not sensitive, or when the flag for its kind
      (work or personal) does not hide it. */
  function ShowCard(card: Option<CardView>, hideSensitiveContent: bool, hideWorkContent: bool): (r: bool)
    ensures r <==> && card.Some? && !card.value.expired && !IsEmpty(card.value.title)
                   && (card.value.sensitive ==>
                         if card.value.workProfile then !hideWorkContent else !hideSensitiveContent)
  {
    if card.Some? && !card.value.expired && !IsEmpty(card.value.title) then
      var c := card.value;
      !c.sensitive || (c.sensitive && ((!hideSensitiveContent && !c.workProfile) || (!hideWorkContent && c.workProfile)))
    else false
  }

  /** Hiding more never shows more: a card shown under stricter flags is
      shown under laxer ones, and a non-sensitive card ignores the flags. */
  lemma ShowCardMonotone(card: Option<CardView>, hs: bool, hw: bool, hs': bool, hw': bool)
    requires (hs ==> hs') && (hw ==> hw')
    ensures ShowCard(card, hs', hw') ==> ShowCard(card, hs, hw)
    ensures card.Some? && !card.value.sensitive ==> ShowCard(card, hs, hw) == ShowCard(card, hs', hw')
  {
  }

  /** Whether the header gets a primary action: the Java twin needs an icon
      or a pending intent, the Kotlin twin both. */
  function HasPrimaryAction(flavor: Flavor, hasIcon: bool, hasPendingIntent: bool): (r: bool)
    ensures flavor == Java ==> (r <==> hasIcon || hasPendingIntent)
    ensures flavor == Kotlin ==> (r <==> hasIcon && hasPendingIntent)
  {
    match flavor
    case Java => hasIcon || hasPendingIntent
    case Kotlin => !(!hasIcon || !hasPendingIntent)
  }

  /** The twins agree except for a card with exactly one of an icon and a
      pending intent, where only the Java twin creates the action. */
  lemma PrimaryActionTwins(hasIcon: bool, hasPendingIntent: bool)
    ensures HasPrimaryAction(Kotlin, hasIcon, hasPendingIntent) ==> HasPrimaryAction(Java, hasIcon, hasPendingIntent)
    ensures (HasPrimaryAction(Java, hasIcon, hasPendingIntent) != HasPrimaryAction(Kotlin, hasIcon, hasPendingIntent))
              <==> hasIcon != hasPendingIntent
  {
  }

  /** The calendar row under a shown card's header. */
  datatype CalendarRow = CalendarRow(subtitle: string, endIcon: bool, primaryAction: bool)
  /** The weather row of the default slice. */
  datatype WeatherRow = WeatherRow(title: Option<string>, endIcon: bool)

  /** The rows this provider contributes to the slice (the date, alarm, zen
      and media rows come from the base provider). */
  datatype BoundSlice =
    | CardSlice(headerTitle: string, headerAction: bool, calendarRow: Option<CalendarRow>)
    | DefaultSlice(weatherRow: Option<WeatherRow>)

  /** `addWeather`: a row for a present, unexpired weather card, with the
      icon at its end when there is one. */
  function WeatherRowFor(weather: Option<CardView>): (r: Option<WeatherRow>)
    ensures r.Some? <==> weather.Some? && !weather.value.expired
    ensures r.Some? ==> r.value.title == weather.value.title && r.value.endIcon == weather.value.hasIcon
  {
    if weather.Some? && !weather.value.expired then Some(WeatherRow(weather.value.title, weather.value.hasIcon))
    else None
  }

  /** `onBindSlice`: the card slice when the card may be shown, with a
      calendar row for a subtitle; otherwise the default slice. */
  function BindSlice(flavor: Flavor, current: Option<CardView>, weather: Option<CardView>,
                     hideSensitiveContent: bool, hideWorkContent: bool): (s: BoundSlice)
    ensures s.CardSlice? <==> ShowCard(current, hideSensitiveContent, hideWorkContent)
    ensures s.CardSlice? ==>
              && s.headerTitle == current.value.formattedTitle
              && s.headerAction == HasPrimaryAction(flavor, current.value.hasIcon, current.value.hasPendingIntent)
              && (s.calendarRow.Some? <==> current.value.subtitle.Some?)
              && (s.calendarRow.Some? ==>
                    s.calendarRow.value == CalendarRow(current.value.subtitle.value, current.value.hasIcon, s.headerAction))
    ensures s.DefaultSlice? ==> s.weatherRow == WeatherRowFor(weather)
  {
    if ShowCard(current, hideSensitiveContent, hideWorkContent) then
      var card := current.value;
      var action := HasPrimaryAction(flavor, card.hasIcon, card.hasPendingIntent);
      var calendar := if card.subtitle.Some? then Some(CalendarRow(card.subtitle.value, card.hasIcon, action)) else None;
      CardSlice(card.formattedTitle, action, calendar)
    else DefaultSlice(WeatherRowFor(weather))
  }

  // ---------------------------------------------------------------------
  // The provider

  /** A pending `AddShadowTask`: the card and the icon it was started with. */
  datatype ShadowTask = ShadowTask(card: SmartSpaceCard, icon: Bitmap)

  class KeyguardSliceProviderGoogle {
    const flavor: Flavor
    var smartSpaceData: Option<SmartSpaceData>
    var hideSensitiveContent: bool
    var hideWorkContent: bool
    var listenerRegistered: bool
    /** `notifyChange` calls made so far. */
    var notifyCount: nat
    /** Started shadow tasks that have not delivered their bitmap, oldest first. */
    var shadowTasks: seq<ShadowTask>
    /** Every card a shadow task was ever started for, in order. */
    ghost var shadowedCards: seq<SmartSpaceCard>

    ghost function ShadowedSet(): set<SmartSpaceCard>
      reads this
    {
      set i | 0 <= i < |shadowedCards| :: shadowedCards[i]
    }

    /** No card is shadowed twice: every card a task was started for is
        marked processed, no card appears twice, and the pending tasks are
        the latest of them in order. */
    ghost predicate Valid()
      reads this, ShadowedSet()
    {
      && (forall i :: 0 <= i < |shadowedCards| ==> shadowedCards[i].iconProcessed)
      && (forall i, j :: 0 <= i < j < |shadowedCards| ==> shadowedCards[i] != shadowedCards[j])
      && |shadowTasks| <= |shadowedCards|
      && (forall i :: 0 <= i < |shadowTasks| ==>
            shadowTasks[i].card == shadowedCards[|shadowedCards| - |shadowTasks| + i])
    }

    constructor (flavor: Flavor)
      ensures Valid() && this.flavor == flavor
      ensures smartSpaceData.None? && !hideSensitiveContent && hideWorkContent
      ensures !listenerRegistered && notifyCount == 0 && shadowTasks == [] && shadowedCards == []
    {
      this.flavor := flavor;
      smartSpaceData := None;
      hideSensitiveContent := false;
      hideWorkContent := true;
      listenerRegistered := false;
      notifyCount := 0;
      shadowTasks := [];
      shadowedCards := [];
    }

    /** `onCreateSliceProvider`: empty smartspace data and a listener on the controller. */
    method OnCreateSliceProvider()
      requires Valid()
      modifies this
      ensures Valid() && smartSpaceData == Some(SmartSpaceData(null, null)) && listenerRegistered
      ensures hideSensitiveContent == old(hideSensitiveContent) && hideWorkContent == old(hideWorkContent)
      ensures notifyCount == old(notifyCount) && shadowTasks == old(shadowTasks) && shadowedCards == old(shadowedCards)
    {
      smartSpaceData := Some(SmartSpaceData(null, null));
      listenerRegistered := true;
    }

    method OnDestroy()
      requires Valid()
      modifies this
      ensures Valid() && !listenerRegistered
      ensures smartSpaceData == old(smartSpaceData) && notifyCount == old(notifyCount)
      ensures hideSensitiveContent == old(hideSensitiveContent) && hideWorkContent == old(hideWorkContent)
      ensures shadowTasks == old(shadowTasks) && shadowedCards == old(shadowedCards)
    {
      listenerRegistered := false;
    }

    method NotifyChange()
      modifies this
      ensures notifyCount == old(notifyCount) + 1
      ensures smartSpaceData == old(smartSpaceData) && listenerRegistered == old(listenerRegistered)
      ensures hideSensitiveContent == old(hideSensitiveContent) && hideWorkContent == old(hideWorkContent)
      ensures shadowTasks == old(shadowTasks) && shadowedCards == old(shadowedCards)
    {
      notifyCount := notifyCount + 1;
    }

    /** `updateClockLocked`: a clock tick always notifies. */
    method UpdateClockLocked()
      requires Valid()
      modifies this
      ensures Valid() && notifyCount == old(notifyCount) + 1
      ensures smartSpaceData == old(smartSpaceData) && listenerRegistered == old(listenerRegistered)
      ensures hideSensitiveContent == old(hideSensitiveContent) && hideWorkContent == old(hideWorkContent)
      ensures shadowTasks == old(shadowTasks) && shadowedCards == old(shadowedCards)
    {
      NotifyChange();
    }

    /** `onSensitiveModeChanged`: both flags take the new values, and
        observers are notified exactly when at least one of them changed. */
    method OnSensitiveModeChanged(hideSensitive: bool, hideWork: bool)
      requires Valid()
      modifies this
      ensures Valid()
      ensures hideSensitiveContent == hideSensitive && hideWorkContent == hideWork
      ensures notifyCount == old(notifyCount) +
                (if old(hideSensitiveContent) != hideSensitive || old(hideWorkContent) != hideWork then 1 else 0)
      ensures smartSpaceData == old(smartSpaceData) && listenerRegistered == old(listenerRegistered)
      ensures shadowTasks == old(shadowTasks) && shadowedCards == old(shadowedCards)
    {
      var changed := false;
      if hideSensitiveContent != hideSensitive {
        hideSensitiveContent := hideSensitive;
        changed := true;
      }
      if hideWorkContent != hideWork {
        hideWorkContent := hideWork;
        changed := true;
      }
      if changed {
        NotifyChange();
      }
    }

    /** `onSmartSpaceUpdated`: the data is stored; a weather card with an
        unprocessed icon is marked processed and a shadow task is started
        for it (which notifies when it finishes), otherwise observers are
        notified at once. */
    method OnSmartSpaceUpdated(data: SmartSpaceData)
      requires Valid()
      modifies this, data.weatherCard
      ensures Valid()
      ensures smartSpaceData == Some(data)
      ensures var w := data.weatherCard;
              if w == null || old(w.icon).None? || old(w.iconProcessed) then
                && notifyCount == old(notifyCount) + 1
                && shadowTasks == old(shadowTasks) && shadowedCards == old(shadowedCards)
              else
                && w.iconProcessed && w.icon == old(w.icon)
                && notifyCount == old(notifyCount)
                && shadowTasks == old(shadowTasks) + [ShadowTask(w, old(w.icon).value)]
                && shadowedCards == old(shadowedCards) + [w]
      ensures hideSensitiveContent == old(hideSensitiveContent) && hideWorkContent == old(hideWorkContent)
      ensures listenerRegistered == old(listenerRegistered)
    {
      smartSpaceData := Some(data);
      var weatherCard := data.weatherCard;
      if weatherCard == null || weatherCard.icon.None? || weatherCard.iconProcessed {
        NotifyChange();
        return;
      }
      assert weatherCard !in ShadowedSet();
      weatherCard.iconProcessed := true;
      shadowTasks := shadowTasks + [ShadowTask(weatherCard, weatherCard.icon.value)];
      shadowedCards := shadowedCards + [weatherCard];
    }

    /** The oldest shadow task finishes: its card's icon becomes the
        shadowed bitmap, and observers are notified if the provider is still
        reachable (`providerAlive`, the weak reference). */
    method RunShadowTask(providerAlive: bool)
      requires Valid() && |shadowTasks| > 0
      modifies this, shadowTasks[0].card
      ensures Valid()
      ensures var t := old(shadowTasks[0]);
              && t.card.icon == Some(Shadowed(t.icon)) && t.card.iconProcessed
              && shadowTasks == old(shadowTasks[1..])
      ensures notifyCount == old(notifyCount) + (if providerAlive then 1 else 0)
      ensures shadowedCards == old(shadowedCards) && smartSpaceData == old(smartSpaceData)
      ensures hideSensitiveContent == old(hideSensitiveContent) && hideWorkContent == old(hideWorkContent)
      ensures listenerRegistered == old(listenerRegistered)
    {
      var task := shadowTasks[0];
      task.card.icon := Some(Shadowed(task.icon));
      shadowTasks := shadowTasks[1..];
      if providerAlive {
        NotifyChange();
      }
    }

    /** `onBindSlice`, which needs the data created by `OnCreateSliceProvider`. */
    method OnBindSlice() returns (s: BoundSlice)
      requires smartSpaceData.Some?
      ensures s == BindSlice(flavor, ViewOf(smartSpaceData.value.currentCard), ViewOf(smartSpaceData.value.weatherCard),
                             hideSensitiveContent, hideWorkContent)
    {
      var data := smartSpaceData.value;
      var currentCard := data.currentCard;
      var hasAction := false;
      if currentCard != null && !currentCard.expired && !IsEmpty(currentCard.title) {
        var isSensitive := currentCard.sensitive;
        if !isSensitive || (isSensitive &&
             ((!hideSensitiveContent && !currentCard.workProfile) || (!hideWorkContent && currentCard.workProfile))) {
          hasAction := true;
        }
      }
      if hasAction {
        var action := HasPrimaryAction(flavor, currentCard.icon.Some?, currentCard.hasPendingIntent);
        var calendar := None;
        if currentCard.subtitle.Some? {
          calendar := Some(CalendarRow(currentCard.subtitle.value, currentCard.icon.Some?, action));
        }
        return CardSlice(currentCard.formattedTitle, action, calendar);
      }
      var weatherCard := data.weatherCard;
      var weatherRow := None;
      if weatherCard != null && !weatherCard.expired {
        weatherRow := Some(WeatherRow(weatherCard.title, weatherCard.icon.Some?));
      }
      return DefaultSlice(weatherRow);
    }
  }
}

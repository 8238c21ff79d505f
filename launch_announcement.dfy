/** The launch banner of `src/components/launch-announcement.tsx`: whether it
    shows on mount (two store keys and a 12-hour reappearance window), what
    dismissing it writes, and the days/hours/minutes countdown. */
module LaunchAnnouncement {
  import opened Wrappers
  import opened JsStrings

  const DismissedKey: string := "launchBannerDismissed"
  const LastDismissedKey: string := "launchBannerLastDismissed"

  const MsPerMinute: int := 1000 * 60
  const MsPerHour: int := 1000 * 60 * 60
  const MsPerDay: int := 1000 * 60 * 60 * 24

  /** The banner comes back 12 hours after a dismissal. */
  const ReappearAfterHours: real := 12.0
  const ReappearAfterMs: int := 12 * MsPerHour

  // ---------------------------------------------------------------------------
  // Showing and dismissing
  // ---------------------------------------------------------------------------

  /** `localStorage.getItem(key)` is truthy: the key is there and not empty. */
  predicate Truthy(storage: map<string, string>, key: string) {
    key in storage && storage[key] != ""
  }

  /** Both keys a dismissal writes are set. */
  predicate WasDismissed(storage: map<string, string>) {
    Truthy(storage, DismissedKey) && Truthy(storage, LastDismissedKey)
  }

  /** `(now - parseInt(lastDismissed)) / (1000 * 60 * 60)`, exactly. */
  function HoursSince(now: int, dismissedAt: int): real {
    (now - dismissedAt) as real / MsPerHour as real
  }

  /** The hour comparison is the millisecond comparison. */
  lemma HoursSinceAtLeastWindow(now: int, dismissedAt: int)
    ensures HoursSince(now, dismissedAt) >= ReappearAfterHours <==> now - dismissedAt >= ReappearAfterMs
  {
  }

  /** The stored dismissal is older than the window. A last-dismissed value
      that `parseInt` cannot read (`NaN`) never is. */
  predicate DismissalExpired(storage: map<string, string>, now: int) {
    && WasDismissed(storage)
    && match ParseInt(storage[LastDismissedKey])
       case None => false
       case Some(t) => HoursSince(now, t) >= ReappearAfterHours
  }

  datatype MountResult = MountResult(show: bool, storage: map<string, string>)

  /** The mount effect: show unless a dismissal is recorded and still
      younger than the window; an expired one is cleared by removing only
      the dismissed flag. */
  function MountCheck(storage: map<string, string>, now: int): (r: MountResult)
    // shown exactly when there is no dismissal or it has expired
    ensures r.show <==> !WasDismissed(storage) || DismissalExpired(storage, now)
    // a missing key means shown with nothing written
    ensures !WasDismissed(storage) ==> r.show && r.storage == storage
    // a hidden banner leaves the store alone
    ensures !r.show ==> r.storage == storage
    // an expired dismissal loses the flag and keeps the timestamp
    ensures DismissalExpired(storage, now) ==>
      r.storage == storage - {DismissedKey}
      && LastDismissedKey in r.storage && r.storage[LastDismissedKey] == storage[LastDismissedKey]
  {
    if WasDismissed(storage) then
      match ParseInt(storage[LastDismissedKey])
      case None => MountResult(false, storage)
      case Some(t) =>
        if HoursSince(now, t) >= ReappearAfterHours then MountResult(true, storage - {DismissedKey})
        else MountResult(false, storage)
    else
      MountResult(true, storage)
  }

  /** `handleDismiss`: the flag becomes `'true'` and the timestamp the
      decimal text of `now`, which reads back as `now`. */
  function Dismiss(storage: map<string, string>, now: int): (s: map<string, string>)
    ensures WasDismissed(s)
    ensures s[DismissedKey] == "true"
    ensures s[LastDismissedKey] == IntToString(now) && ParseInt(s[LastDismissedKey]) == Some(now)
    ensures s.Keys == storage.Keys + {DismissedKey, LastDismissedKey}
    ensures forall k :: k in storage && k != DismissedKey && k != LastDismissedKey ==> s[k] == storage[k]
  {
    ParseIntToString(now);
    storage[DismissedKey := "true"][LastDismissedKey := IntToString(now)]
  }

  /** After a dismissal at `dismissedAt`, a mount at `now` shows the banner
      exactly when 12 hours have passed; then only the flag is removed. */
  lemma DismissThenMount(storage: map<string, string>, dismissedAt: int, now: int)
    ensures var written := Dismiss(storage, dismissedAt);
      var m := MountCheck(written, now);
      && (m.show <==> now - dismissedAt >= ReappearAfterMs)
      && (m.show ==> m.storage == written - {DismissedKey}
                     && m.storage[LastDismissedKey] == IntToString(dismissedAt))
      && (!m.show ==> m.storage == written)
  {
    var written := Dismiss(storage, dismissedAt);
    assert ParseInt(written[LastDismissedKey]) == Some(dismissedAt);
    HoursSinceAtLeastWindow(now, dismissedAt);
  }

  /** A second mount right after the banner came back shows it again and
      writes nothing more: the flag is gone, so the dismissal no longer counts. */
  lemma ReappearedBannerStays(storage: map<string, string>, now: int, later: int)
    requires DismissalExpired(storage, now)
    ensures var first := MountCheck(storage, now);
      var second := MountCheck(first.storage, later);
      second.show && second.storage == first.storage
  {
  }

  // ---------------------------------------------------------------------------
  // Countdown
  // ---------------------------------------------------------------------------

  datatype TimeRemaining = TimeRemaining(days: int, hours: int, minutes: int)

  /** JavaScript `a % d` for `d > 0`: truncated, so the remainder has the
      sign of `a`. */
  function JsRemainder(a: int, d: int): (r: int)
    requires d > 0
    // on a non-negative dividend it is the ordinary remainder
    ensures a >= 0 ==> 0 <= r < d && r == a % d
    // on a negative one it is the negated remainder of the magnitude
    ensures a < 0 ==> -d < r <= 0 && -r == (-a) % d
  {
    if a >= 0 then a % d else -((-a) % d)
  }

  /** `Math.floor(a / d)` for `d > 0`. */
  function FloorDiv(a: int, d: int): (q: int)
    requires d > 0
    ensures q * d <= a < q * d + d
  {
    a / d
  }

  /** `calculateTimeRemaining` at instant `now`; the launch date string
      carries no offset, so the launch instant is a parameter. */
  function CalculateTimeRemaining(launch: int, now: int): (t: TimeRemaining)
    // before launch: a non-negative day count and in-range hours and minutes
    ensures now <= launch ==> t.days >= 0 && 0 <= t.hours < 24 && 0 <= t.minutes < 60
    // after launch: every figure is zero or negative
    ensures launch < now ==> t.days < 0 && -24 <= t.hours <= 0 && -60 <= t.minutes <= 0
  {
    var remaining := launch - now;
    TimeRemaining(
      FloorDiv(remaining, MsPerDay),
      FloorDiv(JsRemainder(remaining, MsPerDay), MsPerHour),
      FloorDiv(JsRemainder(remaining, MsPerHour), MsPerMinute))
  }

  /** Taking the remainder by a day first does not change the remainder by
      an hour, since a day is 24 hours. */
  lemma HourRemainderWithinDay(x: int)
    requires x >= 0
    ensures x % MsPerDay % MsPerHour == x % MsPerHour
  {
    var q, r := x / 86400000, x % 86400000;
    var q2, r2 := r / 3600000, r % 3600000;
    assert x == 3600000 * (24 * q + q2) + r2;
  }

  /** Before launch the three figures are a proper days/hours/minutes
      split of what remains, rounded down to the minute. */
  lemma CountdownBeforeLaunch(launch: int, now: int)
    requires now <= launch
    ensures var t := CalculateTimeRemaining(launch, now);
      var shown := t.days * MsPerDay + t.hours * MsPerHour + t.minutes * MsPerMinute;
      && t.days >= 0 && 0 <= t.hours < 24 && 0 <= t.minutes < 60
      && shown <= launch - now < shown + MsPerMinute
  {
    var remaining := launch - now;
    var inDay := remaining % 86400000;
    var inHour := remaining % 3600000;
    var days, hours, minutes := remaining / 86400000, inDay / 3600000, inHour / 60000;
    HourRemainderWithinDay(remaining);
    assert CalculateTimeRemaining(launch, now) == TimeRemaining(days, hours, minutes);
    assert remaining == 86400000 * days + inDay;
    assert inDay == 3600000 * hours + inHour;
    assert inHour == 60000 * minutes + inHour % 60000;
  }

  /** One millisecond after launch the banner reads -1d -1h -1m. */
  lemma CountdownJustAfterLaunch(launch: int)
    ensures CalculateTimeRemaining(launch, launch + 1) == TimeRemaining(-1, -1, -1)
  {
  }

  // ---------------------------------------------------------------------------
  // Rendering gate
  // ---------------------------------------------------------------------------

  /** The component returns `null` exactly when `showBanner` is false;
      otherwise it shows the countdown. */
  function Render(showBanner: bool, countdown: TimeRemaining): (view: Option<TimeRemaining>)
    ensures view.None? <==> !showBanner
    ensures view.Some? ==> view.value == countdown
  {
    if showBanner then Some(countdown) else None
  }

  // ---------------------------------------------------------------------------
  // The component
  // ---------------------------------------------------------------------------

  /** `LaunchAnnouncement`: the browser store it reads and writes, and its
      two pieces of React state. */
  class Banner {
    var storage: map<string, string>
    var showBanner: bool
    var timeRemaining: TimeRemaining

    constructor(stored: map<string, string>)
      ensures storage == stored && showBanner && timeRemaining == TimeRemaining(0, 0, 0)
    {
      storage := stored;
      showBanner := true;
      timeRemaining := TimeRemaining(0, 0, 0);
    }

    /** The mount effect. */
    method CheckDismissal(now: int)
      modifies this
      ensures MountResult(showBanner, storage) == MountCheck(old(storage), now)
      ensures timeRemaining == old(timeRemaining)
    {
      var bannerDismissed := if DismissedKey in storage then storage[DismissedKey] else "";
      var lastDismissed := if LastDismissedKey in storage then storage[LastDismissedKey] else "";
      if bannerDismissed != "" && lastDismissed != "" {
        var parsed := ParseInt(lastDismissed);
        if parsed.Some? && HoursSince(now, parsed.value) >= ReappearAfterHours {
          storage := storage - {DismissedKey};
          showBanner := true;
        } else {
          showBanner := false;
        }
      } else {
        showBanner := true;
      }
    }

    /** One run of `calculateTimeRemaining`, including its setter. */
    method UpdateCountdown(launch: int, now: int)
      modifies this
      ensures timeRemaining == CalculateTimeRemaining(launch, now)
      ensures storage == old(storage) && showBanner == old(showBanner)
    {
      timeRemaining := CalculateTimeRemaining(launch, now);
    }

    method HandleDismiss(now: int)
      modifies this
      ensures !showBanner && Render(showBanner, timeRemaining).None?
      ensures storage == Dismiss(old(storage), now)
      ensures timeRemaining == old(timeRemaining)
    {
      showBanner := false;
      storage := storage[DismissedKey := "true"];
      storage := storage[LastDismissedKey := IntToString(now)];
    }
  }
}

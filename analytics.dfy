/**
 * The analytics helpers of lib/analytics.ts: country inference from a locale,
 * device classification from a user agent, the stored user id, and the
 * once-per-session guard of `sendAnalyticsEvent`. Browser storage is held in
 * the fields of an `AnalyticsClient`; whether a window exists, the navigator's
 * language and user agent, the page path and the random id part are inputs.
 */
module Analytics {
  import opened Wrappers
  import opened Strings

  // ---------------------------------------------------------------------------
  // inferCountryFromLocale

  /** `s.split("-")[1]` when `s` has a `-`: the text between the first and the second `-`. */
  function SecondField(s: string): (f: string)
    requires Contains(s, "-")
    ensures var i := IndexOf(s, "-");
      && 0 <= i && i + 1 + |f| <= |s|
      && s[i + 1..i + 1 + |f|] == f
      && (i + 1 + |f| == |s| || s[i + 1 + |f|] == '-')
      && forall k :: 0 <= k < |f| ==> f[k] != '-'
  {
    var i := IndexOf(s, "-");
    var rest := s[i + 1..];
    var j := IndexOf(rest, "-");
    IndexOfCharFirst(rest, '-');
    if j < 0 then rest else rest[..j]
  }

  /** `inferCountryFromLocale`. */
  function InferCountry(locale: string): (country: string)
    ensures !Contains(locale, "-") ==> country == "unknown"
    ensures Contains(locale, "-") ==> country == ToUpper(SecondField(locale))
  {
    if !Contains(locale, "-") then "unknown" else ToUpper(SecondField(locale))
  }

  lemma InferCountryRegion()
    ensures InferCountry("en-US") == "US"
  {
    IndexOfCharAt("en-US", '-', 2);
    assert "en-US"[3..] == "US";
    IndexOfCharFirst("US", '-');
  }

  lemma InferCountryTrailingDash()
    ensures InferCountry("en-") == ""
  {
    IndexOfCharAt("en-", '-', 2);
  }

  lemma InferCountryNoDash()
    ensures InferCountry("en") == "unknown"
  {
    IndexOfCharFirst("en", '-');
  }

  /** Only the second field counts, whatever follows it. */
  lemma InferCountryScript()
    ensures InferCountry("zh-hant-TW") == "HANT"
  {
    IndexOfCharAt("zh-hant-TW", '-', 2);
    assert "zh-hant-TW"[3..] == "hant-TW";
    IndexOfCharAt("hant-TW", '-', 4);
    assert "hant-TW"[..4] == "hant";
  }

  // ---------------------------------------------------------------------------
  // getDeviceType

  /** `/mobile|android|iphone|ipad/` finds a match. */
  predicate MobileAgent(lowered: string)
  {
    Contains(lowered, "mobile") || Contains(lowered, "android") || Contains(lowered, "iphone") || Contains(lowered, "ipad")
  }

  /** `getDeviceType`, with the user agent lower-cased first. */
  function DeviceType(hasWindow: bool, userAgent: string): (d: string)
    ensures !hasWindow <==> d == "unknown"
    ensures d == "mobile" <==> hasWindow && MobileAgent(ToLower(userAgent))
    ensures d == "desktop" <==> hasWindow && !MobileAgent(ToLower(userAgent))
  {
    if !hasWindow then "unknown"
    else if MobileAgent(ToLower(userAgent)) then "mobile"
    else "desktop"
  }

  /** The agent test ignores case: "iPhone" counts as "iphone". */
  lemma DeviceTypeIgnoresCase()
    ensures DeviceType(true, "Mozilla (iPhone)") == "mobile"
  {
    var lowered := ToLower("Mozilla (iPhone)");
    assert lowered[9..15] == "iphone";
    assert OccursAt(lowered, "iphone", 9);
    ContainsIff(lowered, "iphone");
  }

  // ---------------------------------------------------------------------------
  // getUserId and sendAnalyticsEvent

  const UserIdKey := "analyticsUserId"
  const SentKey := "analyticsEventSent"

  /** `localStorage.getItem(key)` when it yields a truthy string. */
  function StoredId(local: map<string, string>): Option<string>
  {
    if UserIdKey in local && local[UserIdKey] != "" then Some(local[UserIdKey]) else None
  }

  /** `sessionStorage.getItem("analyticsEventSent")` is truthy. */
  predicate AlreadySent(session: map<string, string>)
  {
    SentKey in session && session[SentKey] != ""
  }

  /** The id `getUserId` creates: `guest_<random>_<country>_<locale>`. */
  function GuestId(random: string, country: string, locale: string): (id: string)
    ensures "guest_" <= id && id != ""
  {
    "guest_" + random + "_" + country + "_" + locale
  }

  /** One guard step: whether a send is attempted, and the session storage after it. */
  function GuardStep(hasWindow: bool, session: map<string, string>): (bool, map<string, string>)
  {
    if !hasWindow then (true, session)
    else if AlreadySent(session) then (false, session)
    else (true, session[SentKey := "true"])
  }

  /** How many of `n` successive calls attempt a send. */
  function Attempts(hasWindow: bool, session: map<string, string>, n: nat): nat
    decreases n
  {
    if n == 0 then 0
    else
      var step := GuardStep(hasWindow, session);
      (if step.0 then 1 else 0) + Attempts(hasWindow, step.1, n - 1)
  }

  /**
   * In a browser at most one of any number of calls attempts a send, and none
   * does once the flag is set: the flag is set before the send, so a failed
   * send blocks later ones too.
   */
  lemma {:induction false} AtMostOncePerSession(session: map<string, string>, n: nat)
    ensures Attempts(true, session, n) <= 1
    ensures AlreadySent(session) ==> Attempts(true, session, n) == 0
  {
    if n > 0 {
      var step := GuardStep(true, session);
      assert AlreadySent(step.1);
      AlreadySentStays(step.1, n - 1);
    }
  }

  lemma {:induction false} AlreadySentStays(session: map<string, string>, n: nat)
    requires AlreadySent(session)
    ensures Attempts(true, session, n) == 0
  {
    if n > 0 {
      AlreadySentStays(session, n - 1);
    }
  }

  /** Without a window there is no guard: every call attempts a send. */
  lemma {:induction false} NoWindowAlwaysSends(session: map<string, string>, n: nat)
    ensures Attempts(false, session, n) == n
  {
    if n > 0 {
      NoWindowAlwaysSends(session, n - 1);
    }
  }

  /** `navigator.language`, or "unknown" without a navigator. */
  function Locale(language: Option<string>): string
  {
    if language.Some? then language.value else "unknown"
  }

  /** The `source` value every analytics post carries in its metadata. */
  const EventSource := "CodePill"

  /** The body of the analytics post (its timestamp is left out). */
  datatype Event = Event(event: string, userId: string, source: string, device: string, path: string,
                         locale: string, country: string)

  class AnalyticsClient {
    const hasWindow: bool
    var localStorage: map<string, string>
    var sessionStorage: map<string, string>

    constructor (hasWindow: bool, local: map<string, string>, session: map<string, string>)
      ensures this.hasWindow == hasWindow && localStorage == local && sessionStorage == session
    {
      this.hasWindow := hasWindow;
      localStorage := local;
      sessionStorage := session;
    }

    /** `getUserId`: get-or-create on the `analyticsUserId` key when there is a window. */
    method GetUserId(locale: string, country: string, random: string) returns (id: string)
      modifies this`localStorage
      ensures !hasWindow ==> id == "unknown_user_" + country + "_" + locale && localStorage == old(localStorage)
      ensures hasWindow && StoredId(old(localStorage)).Some? ==>
        id == StoredId(old(localStorage)).value && localStorage == old(localStorage)
      ensures hasWindow && StoredId(old(localStorage)).None? ==>
        id == GuestId(random, country, locale) && localStorage == old(localStorage)[UserIdKey := id]
      ensures hasWindow ==> StoredId(localStorage) == Some(id)
    {
      if hasWindow {
        var stored := StoredId(localStorage);
        if stored.Some? {
          id := stored.value;
        } else {
          id := GuestId(random, country, locale);
          localStorage := localStorage[UserIdKey := id];
        }
      } else {
        id := "unknown_user_" + country + "_" + locale;
      }
    }

    /**
     * `sendAnalyticsEvent`: `attempt` is the event posted, or `None` when the
     * session has already sent one. The reply only reaches the console.
     */
    method SendAnalyticsEvent(eventName: string, language: Option<string>, userAgent: string,
                              pathname: string, random: string)
      returns (attempt: Option<Event>)
      modifies this`localStorage, this`sessionStorage
      ensures attempt.Some? == GuardStep(hasWindow, old(sessionStorage)).0
      ensures sessionStorage == GuardStep(hasWindow, old(sessionStorage)).1
      ensures hasWindow ==> AlreadySent(sessionStorage)
      ensures attempt.None? ==> localStorage == old(localStorage)
      ensures attempt.Some? ==>
        && attempt.value.event == eventName && attempt.value.source == EventSource
        && attempt.value.locale == Locale(language) && attempt.value.country == InferCountry(Locale(language))
        && attempt.value.device == DeviceType(hasWindow, userAgent)
        && attempt.value.path == (if hasWindow then pathname else "unknown")
      ensures attempt.Some? && hasWindow && StoredId(old(localStorage)).Some? ==>
        attempt.value.userId == StoredId(old(localStorage)).value && localStorage == old(localStorage)
      ensures attempt.Some? && hasWindow && StoredId(old(localStorage)).None? ==>
        && attempt.value.userId == GuestId(random, InferCountry(Locale(language)), Locale(language))
        && localStorage == old(localStorage)[UserIdKey := attempt.value.userId]
      ensures attempt.Some? && hasWindow ==> StoredId(localStorage) == Some(attempt.value.userId)
      ensures attempt.Some? && !hasWindow ==>
        && attempt.value.userId == "unknown_user_" + InferCountry(Locale(language)) + "_" + Locale(language)
        && localStorage == old(localStorage)
    {
      ghost var local0 := localStorage;
      if hasWindow {
        if AlreadySent(sessionStorage) {
          return None;
        }
        sessionStorage := sessionStorage[SentKey := "true"];
      }
      assert localStorage == local0;
      var locale := Locale(language);
      var country := InferCountry(locale);
      var userId := GetUserId(locale, country, random);
      attempt := Some(Event(eventName, userId, EventSource, DeviceType(hasWindow, userAgent),
                            if hasWindow then pathname else "unknown", locale, country));
    }
  }
}

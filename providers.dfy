/**
 * The app providers: the second reader of the consent cookie, and the
 * one-time decision of the analytics provider's mount effect — initialise the
 * analytics client, opt out of capturing, or do nothing.
 */
module Providers {
  import opened Opt
  import opened JsStrings
  import CookieConsent

  const CONSENT_PREFIX := "cookie-consent="

  /** The loop of `getCookieConsent` over the raw segments: trim, test the prefix, return the rest. */
  function ConsentIn(cookies: seq<string>): Option<string>
    decreases |cookies|
  {
    if cookies == [] then None
    else
      var c := Trim(cookies[0]);
      if StartsWith(c, CONSENT_PREFIX) then Some(c[|CONSENT_PREFIX|..])
      else ConsentIn(cookies[1..])
  }

  /** `getCookieConsent()` for a given `document.cookie`. */
  function GetCookieConsent(documentCookie: string): Option<string> {
    ConsentIn(Split(documentCookie, ';'))
  }

  /** The provider's loop and the context's `getCookie` agree segment list by segment list. */
  lemma {:induction false} ConsentInIsFirstValue(cookies: seq<string>)
    ensures ConsentIn(cookies) ==
              CookieConsent.FirstValue(seq(|cookies|, i requires 0 <= i < |cookies| => Trim(cookies[i])), CONSENT_PREFIX)
    decreases |cookies|
  {
    var trimmed := seq(|cookies|, i requires 0 <= i < |cookies| => Trim(cookies[i]));
    if cookies != [] {
      var tail := cookies[1..];
      ConsentInIsFirstValue(tail);
      assert trimmed[1..] == seq(|tail|, i requires 0 <= i < |tail| => Trim(tail[i]));
    }
  }

  /** `getCookieConsent()` is `getCookie("cookie-consent")` for every cookie string. */
  lemma GetCookieConsentIsGetCookie(documentCookie: string)
    ensures GetCookieConsent(documentCookie) ==
              CookieConsent.CookieValue(documentCookie, CookieConsent.CONSENT_COOKIE_NAME)
  {
    ConsentInIsFirstValue(Split(documentCookie, ';'));
    assert CookieConsent.CONSENT_COOKIE_NAME + "=" == CONSENT_PREFIX;
  }

  /**
   * `getCookieConsent()` is null exactly when no trimmed segment starts with
   * "cookie-consent=", and otherwise the rest of the first one that does.
   */
  lemma GetCookieConsentSpec(documentCookie: string)
    ensures var segments := CookieConsent.TrimmedSegments(documentCookie);
            (GetCookieConsent(documentCookie).None? <==>
               forall i :: 0 <= i < |segments| ==> !StartsWith(segments[i], CONSENT_PREFIX)) &&
            (GetCookieConsent(documentCookie).Some? ==>
               exists i :: 0 <= i < |segments| && StartsWith(segments[i], CONSENT_PREFIX) &&
                 GetCookieConsent(documentCookie).value == segments[i][|CONSENT_PREFIX|..] &&
                 forall j :: 0 <= j < i ==> !StartsWith(segments[j], CONSENT_PREFIX))
  {
    GetCookieConsentIsGetCookie(documentCookie);
    assert CookieConsent.CONSENT_COOKIE_NAME + "=" == CONSENT_PREFIX;
    CookieConsent.FirstValueSpec(CookieConsent.TrimmedSegments(documentCookie), CONSENT_PREFIX);
  }

  /** What the mount effect does with the analytics client. */
  datatype Decision = Init(key: string) | OptOut | NoAction

  /** A JavaScript-truthy environment string: present and non-empty. */
  predicate Truthy(v: Option<string>) {
    v.Some? && v.value != []
  }

  /**
   * The gate in the mount effect, for the consent read and the configured
   * project key. Initialisation happens exactly for consent "accepted" with a
   * non-empty key, and with that key; "declined" always opts out; every other
   * value, absent included, does neither.
   */
  function Decide(consent: Option<string>, projectKey: Option<string>): (d: Decision)
    ensures d.Init? <==> consent == Some("accepted") && Truthy(projectKey)
    ensures d.Init? ==> d.key == projectKey.value
    ensures d == OptOut <==> consent == Some("declined")
    ensures consent != Some("accepted") && consent != Some("declined") ==> d == NoAction
  {
    if consent == Some("accepted") && Truthy(projectKey) then Init(projectKey.value)
    else if consent == Some("declined") then OptOut
    else NoAction
  }

  /**
   * The gate agrees with the consent provider's reading of the same cookie:
   * it can initialise only where the provider loads Accepted, and opts out
   * exactly where the provider loads Declined.
   */
  lemma GateAgreesWithProvider(documentCookie: string, projectKey: Option<string>)
    ensures var stored := CookieConsent.StoredConsent(
                            CookieConsent.CookieValue(documentCookie, CookieConsent.CONSENT_COOKIE_NAME));
            var d := Decide(GetCookieConsent(documentCookie), projectKey);
            (d.Init? <==> stored == CookieConsent.Accepted && Truthy(projectKey)) &&
            (d == OptOut <==> stored == CookieConsent.Declined)
  {
    GetCookieConsentIsGetCookie(documentCookie);
  }
}

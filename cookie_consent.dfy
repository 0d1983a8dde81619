/**
 * The cookie-consent provider: the `consent` / `showBanner` state, the
 * `document.cookie` reader, the consent cookie with its 365-day expiry, and
 * the purge of analytics cookies and storage entries.
 *
 * `document.cookie` is read as a string of ';'-separated segments; what the
 * provider writes to it is recorded as a list of cookie writes. The two
 * storages are maps from key to value.
 */
module CookieConsent {
  import opened Opt
  import opened JsStrings

  datatype Consent = Unset | Accepted | Declined

  const CONSENT_COOKIE_NAME := "cookie-consent"
  /** In days. */
  const CONSENT_COOKIE_EXPIRY := 365

  /** An assignment to `document.cookie`; times are milliseconds since the epoch. */
  datatype CookieWrite =
    | SetCookie(name: string, value: string, expires: int)
    | DeleteCookie(name: string)

  /** The expiry `setCookie` computes: `days` whole days of milliseconds after `now`. */
  function ExpiresAt(now: int, days: int): (t: int)
    ensures t - now == days * 86_400_000
  {
    now + days * 24 * 60 * 60 * 1000
  }

  /** The consent cookie lives 365 days: 31 536 000 000 ms. */
  lemma ConsentExpiry(now: int)
    ensures ExpiresAt(now, CONSENT_COOKIE_EXPIRY) == now + 31_536_000_000
  {
  }

  /** `document.cookie.split(';')` with every segment trimmed. */
  function TrimmedSegments(cookie: string): seq<string> {
    var pieces := Split(cookie, ';');
    seq(|pieces|, i requires 0 <= i < |pieces| => Trim(pieces[i]))
  }

  /**
   * One segment per ';'-separated piece, none containing ';', and none
   * starting or ending with whitespace.
   */
  lemma TrimmedSegmentsAreTrimmed(cookie: string)
    ensures |TrimmedSegments(cookie)| == |Split(cookie, ';')|
    ensures forall i :: 0 <= i < |TrimmedSegments(cookie)| ==> ';' !in TrimmedSegments(cookie)[i]
    ensures forall i :: 0 <= i < |TrimmedSegments(cookie)| && TrimmedSegments(cookie)[i] != [] ==>
              !IsSpace(TrimmedSegments(cookie)[i][0]) &&
              !IsSpace(TrimmedSegments(cookie)[i][|TrimmedSegments(cookie)[i]| - 1])
  {
    var pieces := Split(cookie, ';');
    var r := TrimmedSegments(cookie);
    forall i | 0 <= i < |r|
      ensures ';' !in r[i]
      ensures r[i] != [] ==> !IsSpace(r[i][0]) && !IsSpace(r[i][|r[i]| - 1])
    {
      TrimIsTrimmed(pieces[i]);
      TrimSubsequence(pieces[i], ';');
    }
  }

  /** The text after `prefix` in the first segment that starts with it. */
  function FirstValue(segments: seq<string>, prefix: string): Option<string>
    decreases |segments|
  {
    if segments == [] then None
    else if StartsWith(segments[0], prefix) then Some(segments[0][|prefix|..])
    else FirstValue(segments[1..], prefix)
  }

  /**
   * `FirstValue` is `None` exactly when no segment starts with the prefix,
   * and otherwise the rest of the first segment that does.
   */
  lemma {:induction false} FirstValueSpec(segments: seq<string>, prefix: string)
    ensures FirstValue(segments, prefix).None? <==>
              forall i :: 0 <= i < |segments| ==> !StartsWith(segments[i], prefix)
    ensures FirstValue(segments, prefix).Some? ==>
              exists i :: 0 <= i < |segments| && StartsWith(segments[i], prefix) &&
                FirstValue(segments, prefix).value == segments[i][|prefix|..] &&
                forall j :: 0 <= j < i ==> !StartsWith(segments[j], prefix)
    decreases |segments|
  {
    if segments != [] && !StartsWith(segments[0], prefix) {
      var tail := segments[1..];
      FirstValueSpec(tail, prefix);
      assert forall i :: 1 <= i < |segments| ==> segments[i] == tail[i - 1];
      if FirstValue(tail, prefix).Some? {
        var i :| 0 <= i < |tail| && StartsWith(tail[i], prefix) &&
                 FirstValue(tail, prefix).value == tail[i][|prefix|..] &&
                 forall j :: 0 <= j < i ==> !StartsWith(tail[j], prefix);
        assert segments[i + 1] == tail[i];
      }
    }
  }

  /** What `getCookie(name)` returns for a given `document.cookie`. */
  function CookieValue(cookie: string, name: string): Option<string> {
    FirstValue(TrimmedSegments(cookie), name + "=")
  }

  /** `getCookie`: a linear search over the trimmed segments that returns at the first match. */
  method GetCookie(documentCookie: string, name: string) returns (r: Option<string>)
    ensures r == CookieValue(documentCookie, name)
  {
    var nameEQ := name + "=";
    var cookies := Split(documentCookie, ';');
    ghost var segments := TrimmedSegments(documentCookie);
    var i := 0;
    while i < |cookies|
      invariant 0 <= i <= |cookies|
      invariant FirstValue(segments[i..], nameEQ) == FirstValue(segments, nameEQ)
    {
      var c := Trim(cookies[i]);
      if StartsWith(c, nameEQ) {
        assert segments[i..][0] == c;
        return Some(c[|nameEQ|..]);
      }
      assert segments[i..][1..] == segments[i + 1..];
      i := i + 1;
    }
    assert segments[i..] == [];
    r := None;
  }

  /** How the load effect reads the stored value: only the two exact words count. */
  function StoredConsent(v: Option<string>): (c: Consent)
    ensures c == Accepted <==> v == Some("accepted")
    ensures c == Declined <==> v == Some("declined")
  {
    if v == Some("accepted") then Accepted
    else if v == Some("declined") then Declined
    else Unset
  }

  const ANALYTICS_COOKIE_PREFIXES: seq<string> := ["ph_phc", "_ph_", "ph_", "posthog"]

  /** `posthogCookies.some((prefix) => name.startsWith(prefix))`. */
  predicate IsAnalyticsCookie(name: string) {
    exists p :: p in ANALYTICS_COOKIE_PREFIXES && StartsWith(name, p)
  }

  /** "ph_phc" adds nothing to the list, since every name starting with it starts with "ph_". */
  lemma AnalyticsCookiePrefixes(name: string)
    ensures IsAnalyticsCookie(name) <==>
              StartsWith(name, "ph_") || StartsWith(name, "_ph_") || StartsWith(name, "posthog")
  {
    if StartsWith(name, "ph_phc") {
      assert name[..3] == name[..6][..3];
      assert StartsWith(name, "ph_");
    }
    if StartsWith(name, "ph_") {
      assert "ph_" in ANALYTICS_COOKIE_PREFIXES;
    }
    if StartsWith(name, "_ph_") {
      assert "_ph_" in ANALYTICS_COOKIE_PREFIXES;
    }
    if StartsWith(name, "posthog") {
      assert "posthog" in ANALYTICS_COOKIE_PREFIXES;
    }
  }

  /** The cookie name in a raw segment: the text before its first '=', trimmed (or the whole segment, trimmed). */
  function CookieName(segment: string): string {
    var eqPos := IndexOf(segment, '=');
    if eqPos < |segment| then Trim(segment[..eqPos]) else Trim(segment)
  }

  /** The deletions the cookie purge issues for the raw segments, in segment order. */
  function AnalyticsCookieDeletions(segments: seq<string>): seq<CookieWrite>
    decreases |segments|
  {
    if segments == [] then []
    else
      var name := CookieName(segments[0]);
      (if IsAnalyticsCookie(name) then [DeleteCookie(name)] else []) + AnalyticsCookieDeletions(segments[1..])
  }

  /**
   * The cookie half of `clearAnalyticsCookies`: the `forEach` over the raw
   * segments, issuing `deleteCookie(name)` for each analytics-named one.
   */
  method CookieDeletions(allCookies: seq<string>) returns (writes: seq<CookieWrite>)
    ensures writes == AnalyticsCookieDeletions(allCookies)
  {
    writes := [];
    var i := 0;
    while i < |allCookies|
      invariant 0 <= i <= |allCookies|
      invariant writes + AnalyticsCookieDeletions(allCookies[i..]) == AnalyticsCookieDeletions(allCookies)
    {
      var name := CookieName(allCookies[i]);
      var step := if IsAnalyticsCookie(name) then [DeleteCookie(name)] else [];
      DeletionsStep(allCookies[i..]);
      assert allCookies[i..][1..] == allCookies[i + 1..];
      writes := writes + step;
      i := i + 1;
    }
    assert allCookies[i..] == [];
  }

  /** One step of the purge: the first segment's deletion, if any, then the rest's. */
  lemma DeletionsStep(segments: seq<string>)
    requires segments != []
    ensures AnalyticsCookieDeletions(segments) ==
              (if IsAnalyticsCookie(CookieName(segments[0])) then [DeleteCookie(CookieName(segments[0]))] else []) +
              AnalyticsCookieDeletions(segments[1..])
  {
  }

  /** Some raw segment carries the cookie name `name`. */
  predicate NamesCookie(segments: seq<string>, name: string) {
    exists i :: 0 <= i < |segments| && CookieName(segments[i]) == name
  }

  /** A cookie is deleted exactly when its name is an analytics name; other cookies are untouched. */
  lemma {:induction false} DeletesExactlyAnalyticsCookies(segments: seq<string>, name: string)
    ensures DeleteCookie(name) in AnalyticsCookieDeletions(segments) <==>
              IsAnalyticsCookie(name) && NamesCookie(segments, name)
    decreases |segments|
  {
    if segments != [] {
      var tail := segments[1..];
      DeletesExactlyAnalyticsCookies(tail, name);
      var head := CookieName(segments[0]);
      assert AnalyticsCookieDeletions(segments) ==
             (if IsAnalyticsCookie(head) then [DeleteCookie(head)] else []) + AnalyticsCookieDeletions(tail);
      assert NamesCookie(segments, name) <==> head == name || NamesCookie(tail, name) by {
        if NamesCookie(segments, name) && head != name {
          var i :| 0 <= i < |segments| && CookieName(segments[i]) == name;
          assert CookieName(tail[i - 1]) == name;
        }
        if NamesCookie(tail, name) {
          var i :| 0 <= i < |tail| && CookieName(tail[i]) == name;
          assert CookieName(segments[i + 1]) == name;
        }
      }
    }
  }

  /** A storage key the purge removes: `key.includes('posthog') || key.includes('ph_')`. */
  predicate IsAnalyticsKey(key: string) {
    Includes(key, "posthog") || Includes(key, "ph_")
  }

  /** The storage after the purge: the analytics keys gone, every other key with its value. */
  function PurgedStorage(store: map<string, string>): (kept: map<string, string>)
    ensures forall k :: k in kept <==> k in store && !IsAnalyticsKey(k)
    ensures forall k :: k in kept ==> kept[k] == store[k]
  {
    map k | k in store && !IsAnalyticsKey(k) :: store[k]
  }

  /**
   * The storage half of `clearAnalyticsCookies`, for either storage: one pass
   * collecting the keys to remove, then one pass removing them.
   */
  method PurgeStorage(store: map<string, string>) returns (kept: map<string, string>)
    ensures kept == PurgedStorage(store)
  {
    var keysToRemove: seq<string> := [];
    var unvisited := store.Keys;
    while unvisited != {}
      invariant unvisited <= store.Keys
      invariant forall k :: k in keysToRemove ==> k in store && IsAnalyticsKey(k)
      invariant forall k :: k in store && k !in unvisited && IsAnalyticsKey(k) ==> k in keysToRemove
      decreases unvisited
    {
      var key :| key in unvisited;
      if IsAnalyticsKey(key) {
        keysToRemove := keysToRemove + [key];
      }
      unvisited := unvisited - {key};
    }
    kept := store;
    var i := 0;
    while i < |keysToRemove|
      invariant 0 <= i <= |keysToRemove|
      invariant kept == map k | k in store && k !in keysToRemove[..i] :: store[k]
    {
      assert keysToRemove[..i + 1] == keysToRemove[..i] + [keysToRemove[i]];
      kept := kept - {keysToRemove[i]};
      i := i + 1;
    }
    assert keysToRemove[..i] == keysToRemove;
  }

  class ConsentProvider {
    var consent: Consent
    var showBanner: bool
    /** Everything the provider assigned to `document.cookie`, oldest first. */
    var cookieWrites: seq<CookieWrite>
    var localStore: map<string, string>
    var sessionStore: map<string, string>
    /** How many times `window.location.reload()` was called. */
    var reloads: nat

    /** The initial state: consent null, banner hidden, over the storages the page has. */
    constructor (localStore: map<string, string>, sessionStore: map<string, string>)
      ensures consent == Unset && !showBanner && cookieWrites == [] && reloads == 0
      ensures this.localStore == localStore && this.sessionStore == sessionStore
    {
      consent := Unset;
      showBanner := false;
      cookieWrites := [];
      this.localStore := localStore;
      this.sessionStore := sessionStore;
      reloads := 0;
    }

    /**
     * The load effect: a stored "accepted" or "declined" is taken and hides the
     * banner; anything else leaves consent as it is and shows the banner.
     */
    method Load(documentCookie: string)
      modifies this
      ensures var stored := StoredConsent(CookieValue(documentCookie, CONSENT_COOKIE_NAME));
              if stored != Unset then consent == stored && !showBanner
              else consent == old(consent) && showBanner
      ensures cookieWrites == old(cookieWrites) && localStore == old(localStore)
      ensures sessionStore == old(sessionStore) && reloads == old(reloads)
    {
      var storedConsent := GetCookie(documentCookie, CONSENT_COOKIE_NAME);
      if storedConsent == Some("accepted") || storedConsent == Some("declined") {
        consent := StoredConsent(storedConsent);
        showBanner := false;
      } else {
        showBanner := true;
      }
    }

    /** `acceptCookies`: consent accepted, banner hidden, cookie written, page reloaded. */
    method AcceptCookies(now: int)
      modifies this
      ensures consent == Accepted && !showBanner
      ensures cookieWrites == old(cookieWrites) +
                [SetCookie(CONSENT_COOKIE_NAME, "accepted", ExpiresAt(now, CONSENT_COOKIE_EXPIRY))]
      ensures reloads == old(reloads) + 1
      ensures localStore == old(localStore) && sessionStore == old(sessionStore)
    {
      consent := Accepted;
      showBanner := false;
      cookieWrites := cookieWrites + [SetCookie(CONSENT_COOKIE_NAME, "accepted", ExpiresAt(now, CONSENT_COOKIE_EXPIRY))];
      reloads := reloads + 1;
    }

    /**
     * `clearAnalyticsCookies` against the current `document.cookie`: one
     * deletion per analytics-named segment, then both storages purged.
     */
    method ClearAnalyticsCookies(documentCookie: string)
      modifies this
      ensures cookieWrites == old(cookieWrites) + AnalyticsCookieDeletions(Split(documentCookie, ';'))
      ensures localStore == PurgedStorage(old(localStore))
      ensures sessionStore == PurgedStorage(old(sessionStore))
      ensures consent == old(consent) && showBanner == old(showBanner) && reloads == old(reloads)
    {
      var deletions := CookieDeletions(Split(documentCookie, ';'));
      cookieWrites := cookieWrites + deletions;
      localStore := PurgeStorage(localStore);
      sessionStore := PurgeStorage(sessionStore);
    }

    /** `declineCookies`: consent declined, banner hidden, cookie written, analytics data purged. */
    method DeclineCookies(now: int, documentCookie: string)
      modifies this
      ensures consent == Declined && !showBanner
      ensures cookieWrites == old(cookieWrites) +
                [SetCookie(CONSENT_COOKIE_NAME, "declined", ExpiresAt(now, CONSENT_COOKIE_EXPIRY))] +
                AnalyticsCookieDeletions(Split(documentCookie, ';'))
      ensures localStore == PurgedStorage(old(localStore))
      ensures sessionStore == PurgedStorage(old(sessionStore))
      ensures reloads == old(reloads)
    {
      consent := Declined;
      showBanner := false;
      cookieWrites := cookieWrites + [SetCookie(CONSENT_COOKIE_NAME, "declined", ExpiresAt(now, CONSENT_COOKIE_EXPIRY))];
      ClearAnalyticsCookies(documentCookie);
    }

    /** `resetConsent`: consent null, banner shown, consent cookie deleted, analytics data purged. */
    method ResetConsent(documentCookie: string)
      modifies this
      ensures consent == Unset && showBanner
      ensures cookieWrites == old(cookieWrites) + [DeleteCookie(CONSENT_COOKIE_NAME)] +
                AnalyticsCookieDeletions(Split(documentCookie, ';'))
      ensures localStore == PurgedStorage(old(localStore))
      ensures sessionStore == PurgedStorage(old(sessionStore))
      ensures reloads == old(reloads)
    {
      consent := Unset;
      showBanner := true;
      cookieWrites := cookieWrites + [DeleteCookie(CONSENT_COOKIE_NAME)];
      ClearAnalyticsCookies(documentCookie);
    }
  }
}

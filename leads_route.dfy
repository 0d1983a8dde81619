/**
 * `POST /api/leads`: the email-shape check, the fixed chain of guards that
 * answers 400, and the normalised lead handed to `insertLead`; any exception
 * (a body that is not JSON, a `main_problem` without `.trim`) answers 500.
 */
module LeadsRoute {
  import opened Opt
  import opened JsStrings
  import opened Http
  import LeadStore

  /** A character of `[^\s@]`. */
  predicate EmailChar(c: char) {
    !IsSpace(c) && c != '@'
  }

  /** One or more characters of `[^\s@]`. */
  predicate Atom(s: string) {
    |s| > 0 && forall c :: c in s ==> EmailChar(c)
  }

  /**
   * The regular expression `^[^\s@]+@[^\s@]+\.[^\s@]+$` as a pattern:
   * the string splits at an '@' (index i) and a later '.' (index j) into
   * three non-empty runs of `[^\s@]`.
   */
  ghost predicate MatchesEmailPattern(s: string) {
    exists i, j :: 0 < i < j < |s| && s[i] == '@' && s[j] == '.' &&
      Atom(s[..i]) && Atom(s[i + 1..j]) && Atom(s[j + 1..])
  }

  /** The domain part of a valid email: no whitespace or '@', and a '.' that is neither first nor last. */
  predicate ValidDomain(d: string) {
    (forall c :: c in d ==> EmailChar(c)) &&
    exists j :: 0 < j < |d| - 1 && d[j] == '.'
  }

  /**
   * `isValidEmail`, decided directly: no whitespace, exactly one '@', a
   * non-empty local part before it, and a domain after it with an inner '.'.
   */
  predicate IsValidEmail(s: string) {
    var at := IndexOf(s, '@');
    0 < at < |s| && Atom(s[..at]) && ValidDomain(s[at + 1..])
  }

  /** `isValidEmail` accepts exactly the strings the regular expression matches. */
  lemma IsValidEmailMatchesPattern(s: string)
    ensures IsValidEmail(s) <==> MatchesEmailPattern(s)
  {
    if IsValidEmail(s) {
      ValidEmailMatches(s);
    }
    if MatchesEmailPattern(s) {
      var i, j :| 0 < i < j < |s| && s[i] == '@' && s[j] == '.' &&
        Atom(s[..i]) && Atom(s[i + 1..j]) && Atom(s[j + 1..]);
      PatternIsValid(s, i, j);
    }
  }

  lemma ValidEmailMatches(s: string)
    requires IsValidEmail(s)
    ensures MatchesEmailPattern(s)
  {
    var at := IndexOf(s, '@');
    var d := s[at + 1..];
    var jd :| 0 < jd < |d| - 1 && d[jd] == '.';
    var j := at + 1 + jd;
    assert s[j] == '.';
    assert s[at + 1..j] == d[..jd];
    assert s[j + 1..] == d[jd + 1..];
    assert forall c :: c in d[..jd] ==> c in d;
    assert forall c :: c in d[jd + 1..] ==> c in d;
  }

  lemma PatternIsValid(s: string, i: nat, j: nat)
    requires 0 < i < j < |s| && s[i] == '@' && s[j] == '.'
    requires Atom(s[..i]) && Atom(s[i + 1..j]) && Atom(s[j + 1..])
    ensures IsValidEmail(s)
  {
    forall m | 0 <= m < i
      ensures s[m] != '@'
    {
      assert s[m] in s[..i];
    }
    FirstAt(s, i);
    var d := s[i + 1..];
    assert d == s[i + 1..j] + ['.'] + s[j + 1..];
    assert d[j - i - 1] == '.';
  }

  /** An '@' with no '@' before it is the one `indexOf` finds. */
  lemma {:induction false} FirstAt(s: string, i: nat)
    requires i < |s| && s[i] == '@'
    requires forall m :: 0 <= m < i ==> s[m] != '@'
    ensures IndexOf(s, '@') == i
    decreases i
  {
    if i > 0 {
      FirstAt(s[1..], i - 1);
    }
  }

  /** A valid email has no whitespace, so trimming it changes nothing. */
  lemma ValidEmailHasNoSpace(s: string)
    requires IsValidEmail(s)
    ensures NoSpace(s)
    ensures Trim(s) == s
  {
    var at := IndexOf(s, '@');
    forall k | 0 <= k < |s|
      ensures !IsSpace(s[k])
    {
      if k < at {
        assert s[k] in s[..at];
      } else if k > at {
        assert s[k] in s[at + 1..];
      }
    }
    TrimNoSpace(s);
  }

  /** A local part and a domain of the right shape, joined by '@', pass. */
  lemma AcceptsLocalAtDomain(local: string, domain: string, s: string)
    requires Atom(local) && ValidDomain(domain) && s == local + "@" + domain
    ensures IsValidEmail(s)
  {
    forall m | 0 <= m < |local|
      ensures s[m] != '@'
    {
      assert s[m] in local;
    }
    FirstAt(s, |local|);
    assert s[..|local|] == local;
    assert s[|local| + 1..] == domain;
  }

  /** Without an '@' there is no match. */
  lemma RejectsWithoutAt(s: string)
    requires '@' !in s
    ensures !IsValidEmail(s)
  {
  }

  /** An empty local part (a leading '@') fails. */
  lemma RejectsEmptyLocal(s: string)
    requires |s| > 0 && s[0] == '@'
    ensures !IsValidEmail(s)
  {
  }

  /** A domain whose only dots, if any, are its first or last character fails. */
  lemma RejectsDomainWithoutDot(local: string, domain: string, s: string)
    requires s == local + "@" + domain && '@' !in local
    requires forall j :: 0 < j < |domain| - 1 ==> domain[j] != '.'
    ensures !IsValidEmail(s)
  {
    forall m | 0 <= m < |local|
      ensures s[m] != '@'
    {
      assert s[m] in local;
    }
    FirstAt(s, |local|);
    assert s[|local| + 1..] == domain;
  }

  /** A dot right after the '@' or at the very end does not count as the domain's dot. */
  lemma RejectsDotAtDomainEdge()
    ensures !IsValidEmail("a@.com") && !IsValidEmail("a@com.")
  {
    RejectsDomainWithoutDot("a", ".com", "a@.com");
    RejectsDomainWithoutDot("a", "com.", "a@com.");
  }

  /** Whitespace anywhere fails. */
  lemma RejectsWhitespace(s: string, k: nat)
    requires k < |s| && IsSpace(s[k])
    ensures !IsValidEmail(s)
  {
    if IsValidEmail(s) {
      ValidEmailHasNoSpace(s);
    }
  }

  /** The accepted cases of the email-validation test. */
  lemma AcceptedEmailExamples(s: string)
    requires s in ["test@example.com", "user.name@domain.co.uk", "user+tag@example.com"]
    ensures IsValidEmail(s)
  {
    if s == "test@example.com" {
      assert "example.com"[7] == '.';
      AcceptsLocalAtDomain("test", "example.com", s);
    } else if s == "user.name@domain.co.uk" {
      assert "domain.co.uk"[6] == '.';
      AcceptsLocalAtDomain("user.name", "domain.co.uk", s);
    } else {
      assert "example.com"[7] == '.';
      AcceptsLocalAtDomain("user+tag", "example.com", s);
    }
  }

  /** The rejected cases of the email-validation test. */
  lemma RejectedEmailExamples(s: string)
    requires s in ["", "notanemail", "missing@domain", "@nodomain.com", "spaces in@email.com"]
    ensures !IsValidEmail(s)
  {
    if s == "notanemail" {
      RejectsWithoutAt(s);
    } else if s == "missing@domain" {
      RejectsDomainWithoutDot("missing", "domain", s);
    } else if s == "@nodomain.com" {
      RejectsEmptyLocal(s);
    } else if s == "spaces in@email.com" {
      RejectsWhitespace(s, 6);
    }
  }

  /** The fields of the JSON body the route reads. */
  datatype LeadBody = LeadBody(
    email: JsonValue,
    willingToPay: JsonValue,
    priceShown: JsonValue,
    mainProblem: JsonValue,
    source: JsonValue)

  /**
   * What `await request.json()` yields: a parse failure (which throws), the
   * JSON `null` (reading a field of it throws), or an object. A JSON array or
   * primitive reads every field as undefined, which is `ObjectBody` with every
   * field `Missing`.
   */
  datatype LeadRequest = Unparsable | NullBody | ObjectBody(body: LeadBody)

  /** Where the handler goes once it has read the body: a response, or the lead to store. */
  datatype Step = Reply(response: Response) | Store(lead: LeadStore.Lead)

  const EMAIL_REQUIRED := "Email is required"
  const INVALID_EMAIL := "Invalid email format"
  const WILLING_NOT_BOOLEAN := "willing_to_pay must be a boolean"
  const PRICE_NOT_NUMBER := "price_shown must be a number"

  /**
   * The `source` column's value for the body's `source ?? null`: a string as
   * it is, a number as its text (the column has TEXT affinity), and a missing
   * or null one as null. A boolean has no entry: the SQLite binding refuses it.
   */
  function StoredSource(v: JsonValue): (r: Option<string>)
    requires !v.JBool?
    ensures v.JStr? ==> r == Some(v.s)
    ensures v.JNum? ==> r.Some? && TextValue(r.value) == v.n
    ensures r.None? <==> v.Missing? || v.JNull?
  {
    IntegerTextRoundTrip(if v.JNum? then v.n else 0);
    match v
    case JStr(t) => Some(t)
    case JNum(n) => Some(IntegerText(n))
    case _ => None
  }

  /**
   * The guards and the normalisation, in source order. A `main_problem` that
   * is not a string has no `.trim` and throws; a boolean `source` is refused by
   * the SQLite binding and throws from inside `insertLead`; both land in the
   * catch.
   */
  function Route(req: LeadRequest): (step: Step)
    ensures step.Reply? ==> step.response.status == 400 || step.response == ErrorResponse(500, INTERNAL_ERROR)
    ensures !req.ObjectBody? ==> step == Reply(ErrorResponse(500, INTERNAL_ERROR))
    ensures step.Store? ==> req.ObjectBody? && req.body.email.JStr? && IsValidEmail(req.body.email.s)
  {
    match req
    case Unparsable => Reply(ErrorResponse(500, INTERNAL_ERROR))
    case NullBody => Reply(ErrorResponse(500, INTERNAL_ERROR))
    case ObjectBody(b) =>
      if !IsNonEmptyString(b.email) then Reply(ErrorResponse(400, EMAIL_REQUIRED))
      else if !IsValidEmail(b.email.s) then Reply(ErrorResponse(400, INVALID_EMAIL))
      else if !b.willingToPay.JBool? then Reply(ErrorResponse(400, WILLING_NOT_BOOLEAN))
      else if !b.priceShown.JNum? then Reply(ErrorResponse(400, PRICE_NOT_NUMBER))
      else if !b.mainProblem.JStr? then Reply(ErrorResponse(500, INTERNAL_ERROR))
      else if b.source.JBool? then Reply(ErrorResponse(500, INTERNAL_ERROR))
      else Store(LeadStore.Lead(
        ToLower(Trim(b.email.s)),
        b.willingToPay.b,
        b.priceShown.n,
        Trim(b.mainProblem.s),
        StoredSource(b.source)))
  }

  /** The answer once `insertLead` has returned. */
  function Complete(result: LeadStore.InsertResult): (r: Response)
    ensures result.success <==> r == Response(201, SuccessBody(true))
    ensures !result.success ==> r.status == 500
  {
    if !result.success then ErrorResponse(500, "Failed to save lead")
    else Response(201, SuccessBody(true))
  }

  /** A missing, empty or non-string email is answered 400 "Email is required", whatever else the body holds. */
  lemma MissingEmailRejected(b: LeadBody)
    requires !IsNonEmptyString(b.email)
    ensures Route(ObjectBody(b)) == Reply(ErrorResponse(400, EMAIL_REQUIRED))
  {
  }

  /** A non-empty string email failing the shape check is answered 400 "Invalid email format". */
  lemma MalformedEmailRejected(b: LeadBody)
    requires IsNonEmptyString(b.email) && !MatchesEmailPattern(b.email.s)
    ensures Route(ObjectBody(b)) == Reply(ErrorResponse(400, INVALID_EMAIL))
  {
    IsValidEmailMatchesPattern(b.email.s);
  }

  /** The index of the first guard that fails (1 to 4), or 0 when all four pass. */
  function FirstFailingGuard(b: LeadBody): nat {
    if !IsNonEmptyString(b.email) then 1
    else if !IsValidEmail(b.email.s) then 2
    else if !b.willingToPay.JBool? then 3
    else if !b.priceShown.JNum? then 4
    else 0
  }

  /**
   * The guards run in the order email present, email shape, `willing_to_pay`
   * boolean, `price_shown` number: the first one that fails alone decides the
   * 400 answer, and a 400 comes from no other place.
   */
  lemma GuardOrder(b: LeadBody)
    ensures FirstFailingGuard(b) == 1 ==> Route(ObjectBody(b)) == Reply(ErrorResponse(400, EMAIL_REQUIRED))
    ensures FirstFailingGuard(b) == 2 ==> Route(ObjectBody(b)) == Reply(ErrorResponse(400, INVALID_EMAIL))
    ensures FirstFailingGuard(b) == 3 ==> Route(ObjectBody(b)) == Reply(ErrorResponse(400, WILLING_NOT_BOOLEAN))
    ensures FirstFailingGuard(b) == 4 ==> Route(ObjectBody(b)) == Reply(ErrorResponse(400, PRICE_NOT_NUMBER))
    ensures Route(ObjectBody(b)).Reply? && Route(ObjectBody(b)).response.status == 400 <==> FirstFailingGuard(b) != 0
  {
  }

  /**
   * When every guard passes and `main_problem` is a string, the lead stored
   * is the input with the email trimmed and lowercased (for a valid email
   * that is just lowercased), `main_problem` trimmed, the two typed fields
   * unwrapped, a numeric `source` stored as its text and a missing or null
   * one turned into null.
   */
  lemma StoredLeadNormalised(b: LeadBody)
    requires FirstFailingGuard(b) == 0 && b.mainProblem.JStr? && !b.source.JBool?
    ensures Route(ObjectBody(b)) == Store(LeadStore.Lead(
              ToLower(b.email.s), b.willingToPay.b, b.priceShown.n, Trim(b.mainProblem.s),
              StoredSource(b.source)))
    ensures Route(ObjectBody(b)).lead.email == ToLower(Trim(b.email.s))
  {
    ValidEmailHasNoSpace(b.email.s);
  }

  /** A missing (or any non-string) `main_problem` after the four guards pass is a 500, not a 400. */
  lemma MissingProblemIsServerError(b: LeadBody)
    requires FirstFailingGuard(b) == 0 && !b.mainProblem.JStr?
    ensures Route(ObjectBody(b)) == Reply(ErrorResponse(500, INTERNAL_ERROR))
  {
  }

  /** There is no server-side length check on `main_problem`: a one-character problem is stored. */
  lemma NoProblemLengthCheck()
    ensures Route(ObjectBody(LeadBody(JStr("a@b.co"), JBool(true), JNum(29), JStr("x"), Missing))).Store?
  {
    FirstAt("a@b.co", 1);
    assert "a@b.co"[..1] == "a";
    assert "a@b.co"[2..] == "b.co";
    assert "b.co"[1] == '.';
  }

  /**
   * The whole handler against the store. Every answer is one of 201, 400 or
   * 500; a 201 comes exactly from a stored lead, whose upsert is the only
   * change to the table; and the "Failed to save lead" branch is never taken,
   * since `insertLead` always reports success.
   */
  method Post(db: LeadStore.LeadDatabase, req: LeadRequest, now: LeadStore.Timestamp) returns (resp: Response)
    requires db.Valid()
    modifies db
    ensures db.Valid()
    ensures Route(req).Reply? ==> resp == Route(req).response && db.leads == old(db.leads)
    ensures Route(req).Store? ==> resp == Response(201, SuccessBody(true)) &&
                                  db.leads == LeadStore.Upsert(old(db.leads), Route(req).lead, now)
    ensures resp.status == 201 || resp.status == 400 || resp.status == 500
    ensures resp != ErrorResponse(500, "Failed to save lead")
    ensures db.events == old(db.events)
  {
    var step := Route(req);
    match step
    case Reply(r) =>
      resp := r;
    case Store(lead) =>
      var result := db.InsertLead(lead, now);
      resp := Complete(result);
  }
}

/**
 * The SQLite store behind the lead endpoint: the `leads` table, whose
 * UNIQUE `email` column makes it a map from email to row, written by an
 * `INSERT ... ON CONFLICT(email) DO UPDATE` upsert, and the append-only
 * `analytics_events` table. `datetime('now')` is a supplied timestamp.
 */
module LeadStore {
  import opened Opt

  /** The text `datetime('now')` yields at the moment of the statement. */
  type Timestamp = string

  /** The record `insertLead` is given. */
  datatype Lead = Lead(
    email: string,
    willingToPay: bool,
    priceShown: int,
    mainProblem: string,
    source: Option<string>)

  /** A row of `leads`, without its key `email` and without the `id` column. */
  datatype Row = Row(
    willingToPay: int,
    priceShown: int,
    mainProblem: string,
    source: Option<string>,
    createdAt: Timestamp)

  /** What `insertLead` returns (the `id` is not modelled). */
  datatype InsertResult = InsertResult(success: bool)

  /** The binding `willing_to_pay ? 1 : 0`: 1 stands for true and 0 for false. */
  function PayFlag(b: bool): (n: int)
    ensures n == 0 || n == 1
    ensures b <==> n == 1
  {
    if b then 1 else 0
  }

  /** The column constraint the binding keeps: `willing_to_pay` is 0 or 1 in every row. */
  predicate WellFormed(leads: map<string, Row>) {
    forall e | e in leads :: leads[e].willingToPay == 0 || leads[e].willingToPay == 1
  }

  /** The row already stored for `email`, if any. */
  function Existing(leads: map<string, Row>, email: string): Option<Row> {
    if email in leads then Some(leads[email]) else None
  }

  /**
   * The row the statement leaves for `lead.email`: a fresh row when there is
   * none, otherwise the `DO UPDATE SET` applied to the stored one.
   */
  function UpsertedRow(existing: Option<Row>, lead: Lead, now: Timestamp): (r: Row)
    ensures r.willingToPay == PayFlag(lead.willingToPay)
    ensures r.priceShown == lead.priceShown && r.mainProblem == lead.mainProblem
    ensures r.createdAt == now
    ensures lead.source.Some? ==> r.source == lead.source
    ensures lead.source.None? && existing.Some? ==> r.source == existing.value.source
    ensures lead.source.None? && existing.None? ==> r.source == None
  {
    match existing
    case None =>
      Row(PayFlag(lead.willingToPay), lead.priceShown, lead.mainProblem, lead.source, now)
    case Some(stored) =>
      stored.(willingToPay := PayFlag(lead.willingToPay),
              priceShown := lead.priceShown,
              mainProblem := lead.mainProblem,
              source := Coalesce(lead.source, stored.source),
              createdAt := now)
  }

  /**
   * The `leads` table after the upsert: exactly one row for the email, whether
   * it was there or not; one more row only when it was not; every other row as
   * it was; and the 0/1 constraint kept.
   */
  function Upsert(leads: map<string, Row>, lead: Lead, now: Timestamp): (r: map<string, Row>)
    ensures r.Keys == leads.Keys + {lead.email}
    ensures r[lead.email] == UpsertedRow(Existing(leads, lead.email), lead, now)
    ensures forall e | e in leads && e != lead.email :: r[e] == leads[e]
    ensures |r| == if lead.email in leads then |leads| else |leads| + 1
    ensures WellFormed(leads) ==> WellFormed(r)
  {
    var r := leads[lead.email := UpsertedRow(Existing(leads, lead.email), lead, now)];
    if lead.email in leads then
      assert r.Keys == leads.Keys;
      r
    else
      assert r.Keys == leads.Keys + {lead.email} && lead.email !in leads.Keys;
      assert |r.Keys| == |leads.Keys| + 1;
      r
  }

  /**
   * Re-running the same upsert changes nothing but the timestamp: the table
   * equals the first result with only `created_at` of that row replaced, and
   * equals what a single run at the later time gives.
   */
  lemma UpsertIdempotent(leads: map<string, Row>, lead: Lead, first: Timestamp, second: Timestamp)
    ensures var once := Upsert(leads, lead, first);
            Upsert(once, lead, second) == once[lead.email := once[lead.email].(createdAt := second)]
    ensures Upsert(Upsert(leads, lead, first), lead, second) == Upsert(leads, lead, second)
  {
    var once := Upsert(leads, lead, first);
    var twice := Upsert(once, lead, second);
    var expected := once[lead.email := once[lead.email].(createdAt := second)];
    assert twice.Keys == expected.Keys;
    assert twice[lead.email] == expected[lead.email];
    var single := Upsert(leads, lead, second);
    assert twice.Keys == single.Keys;
    assert twice[lead.email] == single[lead.email];
  }

  /**
   * The upsert test case: a lead stored with source "utm_source_1" and then
   * re-submitted with a null source keeps one row, takes the new answers and
   * keeps the original source.
   */
  lemma UpsertKeepsSourceOnNull(now1: Timestamp, now2: Timestamp)
    ensures var email := "duplicate@example.com";
            var first := Lead(email, false, 29, "Original problem description here", Some("utm_source_1"));
            var second := Lead(email, true, 29, "Updated problem description here", None);
            var t := Upsert(Upsert(map[], first, now1), second, now2);
            && t.Keys == {email}
            && t[email] == Row(1, 29, "Updated problem description here", Some("utm_source_1"), now2)
  {
  }

  /** The six event names of `AnalyticsEvent`. */
  datatype AnalyticsEvent = PageView | CtaClick | IntentYes | IntentNo | FormSubmit | FormError

  function EventName(e: AnalyticsEvent): string {
    match e
    case PageView => "page_view"
    case CtaClick => "cta_click"
    case IntentYes => "intent_yes"
    case IntentNo => "intent_no"
    case FormSubmit => "form_submit"
    case FormError => "form_error"
  }

  /** A row of `analytics_events`, without its `id`. */
  datatype EventRow = EventRow(eventName: string, source: Option<string>, createdAt: Timestamp)

  /** The arguments of one `trackEvent` call and the time it runs at. */
  datatype TrackCall = TrackCall(event: AnalyticsEvent, source: Option<string>, at: Timestamp)

  function RowOf(call: TrackCall): EventRow {
    EventRow(EventName(call.event), call.source, call.at)
  }

  /** The event log after the calls, in order, one `INSERT` each. */
  function TrackAll(log: seq<EventRow>, calls: seq<TrackCall>): seq<EventRow>
    decreases |calls|
  {
    if calls == [] then log else TrackAll(log + [RowOf(calls[0])], calls[1..])
  }

  /** n calls add n rows, in call order, and leave the earlier rows as they were. */
  lemma {:induction false} TrackAllAppends(log: seq<EventRow>, calls: seq<TrackCall>)
    ensures |TrackAll(log, calls)| == |log| + |calls|
    ensures TrackAll(log, calls)[..|log|] == log
    ensures forall i :: 0 <= i < |calls| ==> TrackAll(log, calls)[|log| + i] == RowOf(calls[i])
    decreases |calls|
  {
    if calls != [] {
      var next := log + [RowOf(calls[0])];
      TrackAllAppends(next, calls[1..]);
      var r := TrackAll(log, calls);
      assert r == TrackAll(next, calls[1..]);
      assert r[..|log|] == next[..|next|][..|log|];
      forall i | 0 <= i < |calls|
        ensures r[|log| + i] == RowOf(calls[i])
      {
        if i > 0 {
          assert r[|next| + (i - 1)] == RowOf(calls[1..][i - 1]);
        } else {
          assert r[|log|] == r[..|next|][|log|];
        }
      }
    }
  }

  class LeadDatabase {
    var leads: map<string, Row>
    var events: seq<EventRow>

    ghost predicate Valid()
      reads this
    {
      WellFormed(leads)
    }

    /** The schema created on first use: both tables empty. */
    constructor ()
      ensures Valid() && leads == map[] && events == []
    {
      leads := map[];
      events := [];
    }

    /** `insertLead`: the upsert, which always reports success. */
    method InsertLead(lead: Lead, now: Timestamp) returns (result: InsertResult)
      requires Valid()
      modifies this
      ensures Valid()
      ensures leads == Upsert(old(leads), lead, now)
      ensures events == old(events)
      ensures result.success
    {
      leads := Upsert(leads, lead, now);
      result := InsertResult(true);
    }

    /** `trackEvent`: one row appended with `source ?? null`; always reports success. */
    method TrackEvent(event: AnalyticsEvent, source: Option<string>, now: Timestamp) returns (success: bool)
      requires Valid()
      modifies this
      ensures Valid()
      ensures events == TrackAll(old(events), [TrackCall(event, source, now)])
      ensures leads == old(leads)
      ensures success
    {
      events := events + [RowOf(TrackCall(event, source, now))];
      success := true;
    }
  }
}

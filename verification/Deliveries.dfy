/** Delivery rows, the retry-budget rules and the per-row effect of one dispatch
    (domain/notifications.py, adapters/persistence/notifications.py). */
module Deliveries {
  import opened Prelude

  type Sid = string        // the provider's message id
  type Vars = map<string, string>

  datatype DeliveryStatus = Queued | Sending | Delivered | Retrying | Failed | FailedRetryable

  datatype NotificationType = Manual | Scheduled

  datatype Notification = Notification(id: Id, kind: NotificationType, templateId: Id)

  datatype Row = Row(
    id: Id, notificationId: Id, kind: NotificationType, recipient: Id, day: Option<int>,
    status: DeliveryStatus, attempts: nat, sid: Option<Sid>, reason: Option<string>,
    updatedAt: int, vars: Vars)

  type Table = map<Id, Row>

  datatype Recipient = Recipient(mobile: Option<string>)

  // What the provider answers to one send, and when the outcome is recorded.
  datatype SendResult = Accepted(sid: Sid) | Rejected(message: string)

  datatype Answer = Answer(result: SendResult, at: int)

  // One request that reached the provider.
  datatype Call = Call(delivery: Id, to: Option<string>, contentSid: string, vars: Vars, result: SendResult)

  // The arguments dispatch_deliveries gets besides the rows.
  datatype Batch = Batch(contentSid: string, recipients: map<Id, Recipient>, varsFor: map<Id, Vars>)

  datatype Outcome = Outcome(recipient: Id, status: DeliveryStatus, reason: Option<string>)

  datatype Config = Config(max: nat, backoff1: nat, backoff2: nat, backoff3: nat)

  datatype WebhookOutcome = DeliveredCallback | FailureCallback

  datatype WebhookResult = Applied | Superseded | RejectedNonMonotonic

  /* ---------- retry budget and status order ---------- */

  function StatusAfterFailedAttempt(attempts: nat, max: nat): DeliveryStatus {
    if attempts < 1 + max then FailedRetryable else Failed
  }

  predicate Claimable(s: DeliveryStatus) {
    s.Queued? || s.FailedRetryable?
  }

  function Rank(s: DeliveryStatus): nat {
    match s
    case Queued => 0
    case Sending => 1
    case Delivered => 2
    case Retrying => 2
    case Failed => 2
    case FailedRetryable => 2
  }

  function Candidate(row: Row, outcome: WebhookOutcome, max: nat): DeliveryStatus {
    if outcome.DeliveredCallback? then Delivered else StatusAfterFailedAttempt(row.attempts, max)
  }

  /* ---------- one row's dispatch ---------- */

  // A send is attempted only for a known recipient that has content variables;
  // looking up absent variables raises inside the guarded region.
  predicate Reaches(row: Row, b: Batch) {
    row.recipient in b.recipients && row.recipient in b.varsFor
  }

  function Attempt(row: Row, b: Batch, a: Answer): SendResult {
    if row.recipient !in b.recipients then Rejected("recipient no longer exists")
    else if row.recipient !in b.varsFor then Rejected("missing content variables")
    else a.result
  }

  function CallOf(row: Row, b: Batch, a: Answer): Call
    requires Reaches(row, b)
  {
    Call(row.id, b.recipients[row.recipient].mobile, b.contentSid, b.varsFor[row.recipient], a.result)
  }

  function OutcomeOf(row: Row, b: Batch, a: Answer, max: nat): Outcome {
    match Attempt(row, b, a)
    case Accepted(_) => Outcome(row.recipient, Sending, None)
    case Rejected(m) => Outcome(row.recipient, StatusAfterFailedAttempt(row.attempts + 1, max), Some(m))
  }

  // The stored row after the attempt. The status comes from the caller's copy of the
  // row, the attempt count from the stored one.
  function Recorded(stored: Row, row: Row, b: Batch, a: Answer, max: nat): Row {
    var out := OutcomeOf(row, b, a, max);
    stored.(status := out.status,
            sid := (match Attempt(row, b, a) case Accepted(s) => Some(s) case Rejected(_) => None),
            reason := out.reason,
            attempts := stored.attempts + 1,
            updatedAt := a.at)
  }

  datatype Outbox = Outbox(rows: Table, calls: seq<Call>)

  datatype Dispatched = Dispatched(box: Outbox, outcomes: seq<Outcome>)

  predicate CanClaim(o: Outbox, id: Id) {
    id in o.rows && Claimable(o.rows[id].status)
  }

  function DispatchRow(d: Dispatched, row: Row, b: Batch, a: Answer, max: nat): Dispatched {
    if !CanClaim(d.box, row.id) then d
    else Dispatched(
        Outbox(d.box.rows[row.id := Recorded(d.box.rows[row.id], row, b, a, max)],
               if Reaches(row, b) then d.box.calls + [CallOf(row, b, a)] else d.box.calls),
        d.outcomes + [OutcomeOf(row, b, a, max)])
  }

  function DispatchAll(o: Outbox, rows: seq<Row>, b: Batch, answers: seq<Answer>, max: nat): Dispatched
    requires |answers| == |rows|
  {
    if rows == [] then Dispatched(o, [])
    else
      var n := |rows| - 1;
      DispatchRow(DispatchAll(o, rows[..n], b, answers[..n], max), rows[n], b, answers[n], max)
  }

  // The caller's rows are distinct and agree with the claimable rows stored.
  ghost predicate Snapshot(o: Outbox, rows: seq<Row>) {
    && (forall i, j :: 0 <= i < j < |rows| ==> rows[i].id != rows[j].id)
    && (forall i :: 0 <= i < |rows| ==> CanClaim(o, rows[i].id) && o.rows[rows[i].id] == rows[i])
  }

  ghost function CallsOf(rows: seq<Row>, b: Batch, answers: seq<Answer>): seq<Call>
    requires |answers| == |rows|
  {
    if rows == [] then []
    else
      var n := |rows| - 1;
      CallsOf(rows[..n], b, answers[..n]) + (if Reaches(rows[n], b) then [CallOf(rows[n], b, answers[n])] else [])
  }

  /* ---------- what an attempt leaves, field by field ---------- */

  // What the store holds after an attempt on row that ended with result.
  ghost predicate StoredAfter(row: Row, stored: Row, result: SendResult, at: int, max: nat) {
    && stored.id == row.id && stored.notificationId == row.notificationId && stored.kind == row.kind
    && stored.recipient == row.recipient && stored.day == row.day && stored.vars == row.vars
    && stored.attempts == row.attempts + 1 && stored.updatedAt == at
    && match result
       case Accepted(sid) => stored.status == Sending && stored.sid == Some(sid) && stored.reason == None
       case Rejected(message) =>
         && stored.status == (if row.attempts + 1 <= max then FailedRetryable else Failed)
         && stored.sid == None && stored.reason == Some(message)
  }

  // What one attempt makes of a claimable row, and the outcome it reports.
  ghost predicate Attempted(row: Row, stored: Row, outcome: Outcome, b: Batch, a: Answer, max: nat) {
    && outcome == Outcome(row.recipient, stored.status, stored.reason)
    && (if row.recipient !in b.recipients then StoredAfter(row, stored, Rejected("recipient no longer exists"), a.at, max)
        else if row.recipient !in b.varsFor then StoredAfter(row, stored, Rejected("missing content variables"), a.at, max)
        else StoredAfter(row, stored, a.result, a.at, max))
  }

  // The one request an attempt makes: to the recipient's number, with the template and the
  // recipient's variables; none to a recipient that is gone or has no variables.
  ghost function Requested(row: Row, b: Batch, a: Answer): seq<Call> {
    if row.recipient in b.recipients && row.recipient in b.varsFor then
      [Call(row.id, b.recipients[row.recipient].mobile, b.contentSid, b.varsFor[row.recipient], a.result)]
    else []
  }

  /** One claimable row's dispatch: exactly the request it calls for, and exactly the stored
      fields and outcome the answer calls for. */
  lemma DispatchRowMeaning(d: Dispatched, row: Row, b: Batch, a: Answer, max: nat)
    requires row.id in d.box.rows && d.box.rows[row.id] == row
    ensures var d' := DispatchRow(d, row, b, a, max);
            if row.status == Queued || row.status == FailedRetryable then
              && d'.box.calls == d.box.calls + Requested(row, b, a)
              && |d'.outcomes| == |d.outcomes| + 1 && d'.outcomes[..|d.outcomes|] == d.outcomes
              && d'.box.rows == d.box.rows[row.id := d'.box.rows[row.id]]
              && Attempted(row, d'.box.rows[row.id], d'.outcomes[|d.outcomes|], b, a, max)
            else d' == d
  {}

  // The requests made for one delivery, in order.
  ghost function CallsFor(calls: seq<Call>, id: Id): seq<Call> {
    if calls == [] then []
    else CallsFor(calls[..|calls| - 1], id) + (if calls[|calls| - 1].delivery == id then [calls[|calls| - 1]] else [])
  }

  lemma CallsForSnoc(calls: seq<Call>, c: Call, id: Id)
    ensures CallsFor(calls + [c], id) == CallsFor(calls, id) + (if c.delivery == id then [c] else [])
  {
    assert (calls + [c])[..|calls|] == calls;
  }

  lemma CallsForRow(d: Dispatched, row: Row, b: Batch, a: Answer, max: nat, id: Id)
    requires CanClaim(d.box, row.id) && d.box.rows[row.id] == row
    ensures CallsFor(DispatchRow(d, row, b, a, max).box.calls, id) ==
            CallsFor(d.box.calls, id) + (if id == row.id then Requested(row, b, a) else [])
  {
    DispatchRowMeaning(d, row, b, a, max);
    if Requested(row, b, a) == [] {
      assert d.box.calls + [] == d.box.calls && CallsFor(d.box.calls, id) + [] == CallsFor(d.box.calls, id);
    } else {
      CallsForSnoc(d.box.calls, Requested(row, b, a)[0], id);
    }
  }

  /** A row that was not handed to dispatch is left as it was. */
  lemma {:induction false} DispatchFrame(o: Outbox, rows: seq<Row>, b: Batch, answers: seq<Answer>, max: nat, id: Id)
    requires |answers| == |rows|
    requires forall i :: 0 <= i < |rows| ==> rows[i].id != id
    ensures var d := DispatchAll(o, rows, b, answers, max);
            (id in d.box.rows <==> id in o.rows) && (id in o.rows ==> d.box.rows[id] == o.rows[id])
  {
    if rows != [] {
      DispatchFrame(o, rows[..|rows| - 1], b, answers[..|rows| - 1], max, id);
    }
  }

  ghost predicate DispatchedAt(d: Dispatched, i: nat, row: Row, b: Batch, a: Answer, max: nat)
    requires i < |d.outcomes|
  {
    && d.outcomes[i] == OutcomeOf(row, b, a, max)
    && row.id in d.box.rows
    && d.box.rows[row.id] == Recorded(row, row, b, a, max)
    && d.box.rows[row.id].status == d.outcomes[i].status
    && d.box.rows[row.id].attempts == row.attempts + 1
  }

  lemma LaterRowKeepsOutcome(before: Dispatched, row: Row, b: Batch, a: Answer, max: nat, i: nat, r: Row, answer: Answer)
    requires i < |before.outcomes| && DispatchedAt(before, i, r, b, answer, max) && r.id != row.id
    ensures var d := DispatchRow(before, row, b, a, max);
            i < |d.outcomes| && DispatchedAt(d, i, r, b, answer, max)
  {}

  lemma RowDispatched(before: Dispatched, row: Row, b: Batch, a: Answer, max: nat)
    requires CanClaim(before.box, row.id) && before.box.rows[row.id] == row
    ensures var d := DispatchRow(before, row, b, a, max);
            && |d.outcomes| == |before.outcomes| + 1 && DispatchedAt(d, |before.outcomes|, row, b, a, max)
            && d.box.rows.Keys == before.box.rows.Keys
            && d.box.calls == before.box.calls + (if Reaches(row, b) then [CallOf(row, b, a)] else [])
  {}

  /** For distinct claimable rows whose copies agree with the store, every row gets exactly
      one outcome, in input order and equal to its stored status; its count rises by one;
      the provider is called once per reachable row; and each outcome depends only on that
      row's own recipient and answer. */
  lemma {:induction false} DispatchIsPointwise(o: Outbox, rows: seq<Row>, b: Batch, answers: seq<Answer>, max: nat)
    requires |answers| == |rows|
    requires Snapshot(o, rows)
    ensures var d := DispatchAll(o, rows, b, answers, max);
            && |d.outcomes| == |rows|
            && d.box.rows.Keys == o.rows.Keys
            && d.box.calls == o.calls + CallsOf(rows, b, answers)
            && (forall i :: 0 <= i < |rows| ==> DispatchedAt(d, i, rows[i], b, answers[i], max))
  {
    if rows != [] {
      var n := |rows| - 1;
      DispatchIsPointwise(o, rows[..n], b, answers[..n], max);
      DispatchFrame(o, rows[..n], b, answers[..n], max, rows[n].id);
      var before := DispatchAll(o, rows[..n], b, answers[..n], max);
      assert CanClaim(o, rows[n].id) && o.rows[rows[n].id] == rows[n];
      RowDispatched(before, rows[n], b, answers[n], max);
      forall i | 0 <= i < n ensures DispatchedAt(DispatchRow(before, rows[n], b, answers[n], max), i, rows[i], b, answers[i], max) {
        assert DispatchedAt(before, i, rows[..n][i], b, answers[..n][i], max);
        LaterRowKeepsOutcome(before, rows[n], b, answers[n], max, i, rows[i], answers[i]);
      }
    }
  }

  ghost predicate HasRow(rows: seq<Row>, id: Id) {
    exists i :: 0 <= i < |rows| && rows[i].id == id
  }

  lemma {:induction false} DispatchRequests(o: Outbox, rows: seq<Row>, b: Batch, answers: seq<Answer>, max: nat, id: Id)
    requires |answers| == |rows| && Snapshot(o, rows)
    ensures var calls := DispatchAll(o, rows, b, answers, max).box.calls;
            && (forall i :: 0 <= i < |rows| && rows[i].id == id ==> CallsFor(calls, id) == CallsFor(o.calls, id) + Requested(rows[i], b, answers[i]))
            && ((forall i :: 0 <= i < |rows| ==> rows[i].id != id) ==> CallsFor(calls, id) == CallsFor(o.calls, id))
  {
    if rows != [] {
      var n := |rows| - 1;
      DispatchRequests(o, rows[..n], b, answers[..n], max, id);
      DispatchFrame(o, rows[..n], b, answers[..n], max, rows[n].id);
      assert CanClaim(o, rows[n].id) && o.rows[rows[n].id] == rows[n];
      CallsForRow(DispatchAll(o, rows[..n], b, answers[..n], max), rows[n], b, answers[n], max, id);
      assert forall i :: 0 <= i < n ==> rows[..n][i] == rows[i] && answers[..n][i] == answers[i];
    }
  }

  lemma AttemptedAt(d: Dispatched, i: nat, row: Row, b: Batch, a: Answer, max: nat)
    requires i < |d.outcomes| && DispatchedAt(d, i, row, b, a, max)
    ensures Attempted(row, d.box.rows[row.id], d.outcomes[i], b, a, max)
  {}

  /** For distinct claimable rows whose copies agree with the store, dispatch leaves each of them
      and its outcome as the one attempt calls for, asks the provider for each delivery exactly
      what it calls for, and for no other delivery anything. */
  lemma {:induction false} DispatchMeaning(o: Outbox, rows: seq<Row>, b: Batch, answers: seq<Answer>, max: nat)
    requires |answers| == |rows| && Snapshot(o, rows)
    ensures var d := DispatchAll(o, rows, b, answers, max);
            && |d.outcomes| == |rows| && d.box.rows.Keys == o.rows.Keys
            && (forall i :: 0 <= i < |rows| ==>
                  && Attempted(rows[i], d.box.rows[rows[i].id], d.outcomes[i], b, answers[i], max)
                  && CallsFor(d.box.calls, rows[i].id) == CallsFor(o.calls, rows[i].id) + Requested(rows[i], b, answers[i]))
            && (forall id :: !HasRow(rows, id) ==> CallsFor(d.box.calls, id) == CallsFor(o.calls, id))
  {
    var d := DispatchAll(o, rows, b, answers, max);
    DispatchIsPointwise(o, rows, b, answers, max);
    forall i | 0 <= i < |rows|
      ensures Attempted(rows[i], d.box.rows[rows[i].id], d.outcomes[i], b, answers[i], max)
      ensures CallsFor(d.box.calls, rows[i].id) == CallsFor(o.calls, rows[i].id) + Requested(rows[i], b, answers[i])
    {
      AttemptedAt(d, i, rows[i], b, answers[i], max);
      DispatchRequests(o, rows, b, answers, max, rows[i].id);
    }
    forall id | !HasRow(rows, id) ensures CallsFor(d.box.calls, id) == CallsFor(o.calls, id) {
      DispatchRequests(o, rows, b, answers, max, id);
    }
  }
}

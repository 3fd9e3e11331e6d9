/** The delivery protocol as a state machine over committed transactions: a compose or a
    daily report, the retry job's listing, one row's retry, and a provider callback
    (domain/notifications.py, scheduler/main.py, adapters/persistence/notifications.py). */
module DeliveryRuns {
  import opened Prelude
  import opened Deliveries

  datatype AppliedCallback = AppliedCallback(sid: Sid, delivery: Id)

  datatype World = World(
    rows: Table, notes: map<Id, Notification>,   // committed tables
    calls: seq<Call>,                            // what reached the provider, by committed dispatches
    applied: seq<AppliedCallback>,               // callbacks that changed a row
    pending: seq<Row>, listedAt: int)            // the retry job's remaining snapshot

  // A Notification with its fresh delivery rows, as compose and the daily report build them.
  datatype Creation = Creation(note: Notification, rows: seq<Row>, batch: Batch, answers: seq<Answer>)

  datatype Lookup = Found(recipient: Recipient, contentSid: string) | Missing

  datatype Turn = Turn(lookup: Lookup, answer: Answer)

  datatype Event =
    | Create(creation: Creation)
    | ListEligible(now: int, listed: seq<Row>)
    | RetryNext(turn: Option<Turn>)    // None: an error rolled this row's work back
    | Callback(sid: Sid, outcome: WebhookOutcome, reason: Option<string>, at: int)

  const START := World(map[], map[], [], [], [], 0)

  /* ---------- inserting rows under the two partial unique indexes ---------- */

  predicate Conflict(a: Row, b: Row) {
    && a.id != b.id && a.recipient == b.recipient && a.kind == b.kind
    && (if a.kind.Manual? then a.notificationId == b.notificationId else a.day == b.day)
  }

  predicate Unique(rows: Table) {
    forall i, j :: i in rows && j in rows ==> !Conflict(rows[i], rows[j])
  }

  function Inserted(rows: Table, added: seq<Row>): Table {
    if added == [] then rows
    else Inserted(rows, added[..|added| - 1])[added[|added| - 1].id := added[|added| - 1]]
  }

  lemma {:induction false} InsertedLookup(rows: Table, added: seq<Row>)
    requires forall i, j :: 0 <= i < j < |added| ==> added[i].id != added[j].id
    ensures forall i :: 0 <= i < |added| ==> added[i].id in Inserted(rows, added) && Inserted(rows, added)[added[i].id] == added[i]
    ensures forall id :: id in Inserted(rows, added) ==>
                           (exists i :: 0 <= i < |added| && added[i].id == id) || (id in rows && Inserted(rows, added)[id] == rows[id])
    ensures rows.Keys <= Inserted(rows, added).Keys
    ensures forall id :: id in rows && (forall i :: 0 <= i < |added| ==> added[i].id != id) ==> Inserted(rows, added)[id] == rows[id]
  {
    if added != [] {
      var n := |added| - 1;
      InsertedLookup(rows, added[..n]);
      forall i | 0 <= i < |added|
        ensures added[i].id in Inserted(rows, added) && Inserted(rows, added)[added[i].id] == added[i]
      {
        if i < n { assert added[..n][i] == added[i]; }
      }
      forall id | id in Inserted(rows, added)
        ensures (exists i :: 0 <= i < |added| && added[i].id == id) || (id in rows && Inserted(rows, added)[id] == rows[id])
      {
        if id != added[n].id && exists i :: 0 <= i < n && added[..n][i].id == id {
          var i :| 0 <= i < n && added[..n][i].id == id;
          assert added[i].id == id;
        } else if id == added[n].id {
          assert added[n].id == id;
        }
      }
    }
  }

  /* ---------- the steps ---------- */

  function Backoff(attempts: nat, cfg: Config): Option<nat> {
    if attempts == 1 then Some(cfg.backoff1)
    else if attempts == 2 then Some(cfg.backoff2)
    else if attempts == 3 then Some(cfg.backoff3)
    else None
  }

  predicate Eligible(row: Row, now: int, cfg: Config) {
    && row.status.FailedRetryable?
    && ((row.attempts == 1 && row.updatedAt <= now - cfg.backoff1)
        || (row.attempts == 2 && row.updatedAt <= now - cfg.backoff2)
        || (row.attempts == 3 && row.updatedAt <= now - cfg.backoff3))
  }

  // list_retry_eligible returns the eligible rows in some order.
  ghost predicate IsListing(listed: seq<Row>, rows: Table, now: int, cfg: Config) {
    && (forall i, j :: 0 <= i < j < |listed| ==> listed[i].id != listed[j].id)
    && (forall i :: 0 <= i < |listed| ==>
          listed[i].id in rows && rows[listed[i].id] == listed[i] && Eligible(listed[i], now, cfg))
    && (forall id :: id in rows && Eligible(rows[id], now, cfg) ==> rows[id] in listed)
  }

  function RetryBatch(row: Row, lookup: Lookup): Batch {
    match lookup
    case Found(recipient, contentSid) => Batch(contentSid, map[row.recipient := recipient], map[row.recipient := row.vars])
    case Missing => Batch("", map[], map[row.recipient := row.vars])
  }

  ghost predicate Holds(rows: Table, sid: Sid, id: Id) {
    id in rows && rows[id].sid == Some(sid)
  }

  ghost predicate OnlyHolder(rows: Table, sid: Sid, id: Id) {
    Holds(rows, sid, id) && forall k :: Holds(rows, sid, k) ==> k == id
  }

  // get_by_provider_message_sid: the row, unless none or several carry the SID.
  ghost function HolderOf(rows: Table, sid: Sid): (r: Option<Id>)
    ensures r.Some? ==> OnlyHolder(rows, sid, r.value)
    ensures r.None? ==> forall id :: !OnlyHolder(rows, sid, id)
  {
    if exists id :: OnlyHolder(rows, sid, id) then
      var id :| OnlyHolder(rows, sid, id);
      Some(id)
    else None
  }

  ghost function CallbackResult(rows: Table, sid: Sid, outcome: WebhookOutcome, cfg: Config): WebhookResult {
    match HolderOf(rows, sid)
    case None => Superseded
    case Some(id) =>
      if Rank(Candidate(rows[id], outcome, cfg.max)) <= Rank(rows[id].status) then RejectedNonMonotonic else Applied
  }

  ghost function AfterCallback(w: World, sid: Sid, outcome: WebhookOutcome, reason: Option<string>, at: int, cfg: Config): World {
    if CallbackResult(w.rows, sid, outcome, cfg).Applied? then
      var id := HolderOf(w.rows, sid).value;
      w.(rows := w.rows[id := w.rows[id].(status := Candidate(w.rows[id], outcome, cfg.max), reason := reason, updatedAt := at)],
         applied := w.applied + [AppliedCallback(sid, id)])
    else w
  }

  predicate CanInsert(rows: Table, added: seq<Row>) {
    && (forall i, j :: 0 <= i < j < |added| ==> added[i].id != added[j].id)
    && (forall i :: 0 <= i < |added| ==> added[i].id !in rows)
    && Unique(Inserted(rows, added))
  }

  ghost function AfterCreate(w: World, c: Creation, cfg: Config): World {
    if |c.answers| != |c.rows| || !CanInsert(w.rows, c.rows) then w   // rolled back before any send
    else
      var d := DispatchAll(Outbox(Inserted(w.rows, c.rows), w.calls), c.rows, c.batch, c.answers, cfg.max);
      w.(rows := d.box.rows, calls := d.box.calls, notes := w.notes[c.note.id := c.note])
  }

  ghost function AfterRetry(w: World, turn: Option<Turn>, cfg: Config): World {
    if w.pending == [] then w
    else
      var row, rest := w.pending[0], w.(pending := w.pending[1..]);
      match turn
      case None => rest
      case Some(t) =>
        var d := DispatchAll(Outbox(w.rows, w.calls), [row], RetryBatch(row, t.lookup), [t.answer], cfg.max);
        rest.(rows := d.box.rows, calls := d.box.calls)
  }

  ghost function Step(w: World, e: Event, cfg: Config): World {
    match e
    case Create(c) => AfterCreate(w, c, cfg)
    case ListEligible(now, listed) => w.(pending := listed, listedAt := now)
    case RetryNext(turn) => AfterRetry(w, turn, cfg)
    case Callback(sid, outcome, reason, at) => AfterCallback(w, sid, outcome, reason, at, cfg)
  }

  /* ---------- what the environment and the callers guarantee ---------- */

  ghost function Issued(calls: seq<Call>): set<Sid> {
    if calls == [] then {}
    else
      var c := calls[|calls| - 1];
      Issued(calls[..|calls| - 1]) + (if c.result.Accepted? then {c.result.sid} else {})
  }

  // The provider never hands out a SID twice.
  ghost predicate FreshSids(issued: set<Sid>, answers: seq<Answer>) {
    && (forall i :: 0 <= i < |answers| && answers[i].result.Accepted? ==> answers[i].result.sid !in issued)
    && (forall i, j :: 0 <= i < j < |answers| && answers[i].result.Accepted? && answers[j].result.Accepted? ==>
          answers[i].result.sid != answers[j].result.sid)
  }

  // How compose_and_send and run_daily_report build the rows they insert.
  ghost predicate WellFormed(c: Creation) {
    && |c.answers| == |c.rows| && 0 < |c.rows|
    && (forall i, j :: 0 <= i < j < |c.rows| ==> c.rows[i].id != c.rows[j].id)
    && (forall i :: 0 <= i < |c.rows| ==> FreshRow(c.rows[i], c.note, c.batch))
  }

  ghost predicate FreshRow(row: Row, note: Notification, b: Batch) {
    && row.status.Queued? && row.attempts == 0 && row.sid == None && row.reason == None
    && row.notificationId == note.id && row.kind == note.kind
    && (row.kind.Scheduled? ==> row.day.Some?)
    && (Reaches(row, b) ==> b.varsFor[row.recipient] == row.vars)
  }

  ghost predicate Enabled(w: World, e: Event, cfg: Config) {
    match e
    case Create(c) =>
      && WellFormed(c) && c.note.id !in w.notes && FreshSids(Issued(w.calls), c.answers)
      && forall i :: 0 <= i < |c.rows| ==> c.rows[i].id !in w.rows   // fresh UUIDs
    case ListEligible(now, listed) => IsListing(listed, w.rows, now, cfg)
    case RetryNext(turn) =>
      turn.Some? ==> w.listedAt <= turn.value.answer.at && FreshSids(Issued(w.calls), [turn.value.answer])
    case Callback(_, _, _, _) => true   // any SID, any outcome, at any moment
  }

  ghost predicate EnabledRun(w: World, es: seq<Event>, cfg: Config)
    decreases |es|
  {
    es == [] || (Enabled(w, es[0], cfg) && EnabledRun(Step(w, es[0], cfg), es[1..], cfg))
  }

  ghost function Run(w: World, es: seq<Event>, cfg: Config): World
    decreases |es|
  {
    if es == [] then w else Run(Step(w, es[0], cfg), es[1..], cfg)
  }

  lemma {:induction false} RunAppend(w: World, es: seq<Event>, es': seq<Event>, cfg: Config)
    ensures Run(w, es + es', cfg) == Run(Run(w, es, cfg), es', cfg)
    decreases |es|
  {
    if es == [] {
      assert es + es' == es';
    } else {
      assert (es + es')[0] == es[0] && (es + es')[1..] == es[1..] + es';
      RunAppend(Step(w, es[0], cfg), es[1..], es', cfg);
    }
  }

  /* ---------- the invariant ---------- */

  predicate RowOk(r: Row, max: nat) {
    match r.status
    case Queued => r.attempts == 0 && r.sid == None
    case Sending => r.sid.Some? && 1 <= r.attempts <= 1 + max
    case Delivered => r.sid.Some? && 1 <= r.attempts <= 1 + max
    case Retrying => false
    case Failed => r.attempts == 1 + max
    case FailedRetryable => 1 <= r.attempts <= max
  }

  ghost predicate RowsOk(rows: Table, max: nat) {
    forall id :: id in rows ==> rows[id].id == id && RowOk(rows[id], max)
  }

  ghost predicate SidsOk(rows: Table, calls: seq<Call>) {
    && (forall id :: id in rows && rows[id].sid.Some? ==> rows[id].sid.value in Issued(calls))
    && (forall i, j :: i in rows && j in rows && i != j && rows[i].sid.Some? ==> rows[i].sid != rows[j].sid)
  }

  ghost function CallCount(calls: seq<Call>, id: Id): nat {
    if calls == [] then 0
    else CallCount(calls[..|calls| - 1], id) + (if calls[|calls| - 1].delivery == id then 1 else 0)
  }

  function AttemptsOf(rows: Table, id: Id): nat {
    if id in rows then rows[id].attempts else 0
  }

  ghost predicate CallsOk(rows: Table, calls: seq<Call>) {
    && (forall id :: CallCount(calls, id) <= AttemptsOf(rows, id))
    && (forall i :: 0 <= i < |calls| ==> calls[i].delivery in rows && calls[i].vars == rows[calls[i].delivery].vars)
  }

  ghost function AppliedCount(applied: seq<AppliedCallback>, id: Id): nat {
    if applied == [] then 0
    else AppliedCount(applied[..|applied| - 1], id) + (if applied[|applied| - 1].delivery == id then 1 else 0)
  }

  // Attempts whose callback can no longer be applied.
  function SettledAttempts(rows: Table, id: Id): nat {
    if id in rows && rows[id].status.Sending? && 1 <= rows[id].attempts then rows[id].attempts - 1 else AttemptsOf(rows, id)
  }

  ghost predicate AppliedOk(rows: Table, calls: seq<Call>, applied: seq<AppliedCallback>) {
    && (forall id :: AppliedCount(applied, id) <= SettledAttempts(rows, id))
    && (forall i :: 0 <= i < |applied| ==> applied[i].sid in Issued(calls))
    && (forall i, id :: 0 <= i < |applied| && id in rows && rows[id].status.Sending? ==> rows[id].sid != Some(applied[i].sid))
    && (forall i, j :: 0 <= i < j < |applied| ==> applied[i].sid != applied[j].sid)
  }

  ghost predicate PendingOk(w: World, cfg: Config) {
    && (forall i, j :: 0 <= i < j < |w.pending| ==> w.pending[i].id != w.pending[j].id)
    && (forall i :: 0 <= i < |w.pending| ==>
          && w.pending[i].id in w.rows && w.rows[w.pending[i].id] == w.pending[i]
          && Eligible(w.pending[i], w.listedAt, cfg))
  }

  ghost predicate NotesOk(rows: Table, notes: map<Id, Notification>) {
    && (forall id :: id in rows ==> rows[id].notificationId in notes)
    && (forall n :: n in notes ==> exists id :: id in rows && rows[id].notificationId == n)
  }

  ghost predicate NoneQueued(rows: Table) {
    forall id :: id in rows ==> !rows[id].status.Queued?
  }

  ghost predicate BoxOk(o: Outbox, applied: seq<AppliedCallback>, max: nat) {
    RowsOk(o.rows, max) && SidsOk(o.rows, o.calls) && CallsOk(o.rows, o.calls) && AppliedOk(o.rows, o.calls, applied)
  }

  ghost predicate Inv(w: World, cfg: Config) {
    && BoxOk(Outbox(w.rows, w.calls), w.applied, cfg.max)
    && NoneQueued(w.rows) && Unique(w.rows) && NotesOk(w.rows, w.notes) && PendingOk(w, cfg)
  }
}

/** The delivery protocol's main results, over every run from the empty store. */
module DeliveryTheorems {
  import opened Prelude
  import opened Deliveries
  import opened DeliveryRuns
  import opened DeliverySafety

  /* ---------- safety of committed states ---------- */

  lemma {:induction false} CallCountIs(calls: seq<Call>, id: Id)
    ensures CallCount(calls, id) == |CallsFor(calls, id)|
  {
    if calls != [] { CallCountIs(calls[..|calls| - 1], id); }
  }

  // Each applied callback counts once, for its own delivery.
  lemma AppliedCounts(applied: seq<AppliedCallback>, a: AppliedCallback, id: Id)
    ensures AppliedCount([], id) == 0
    ensures AppliedCount(applied + [a], id) == AppliedCount(applied, id) + (if a.delivery == id then 1 else 0)
  {
    assert (applied + [a])[..|applied|] == applied;
  }

  /** In every committed state the status bounds the attempt count, in-flight and delivered
      rows carry a SID, and neither the provider calls nor the applied callbacks of a row
      outnumber its attempts, which never exceed 1 + max. */
  lemma {:induction false} CommittedStates(es: seq<Event>, cfg: Config, id: Id)
    requires EnabledRun(START, es, cfg)
    requires id in Run(START, es, cfg).rows
    ensures var w := Run(START, es, cfg); var r := w.rows[id];
            && (r.status.FailedRetryable? ==> 1 <= r.attempts <= cfg.max)
            && (r.status.Sending? || r.status.Delivered? ==> r.sid.Some? && 1 <= r.attempts <= 1 + cfg.max)
            && (r.status.Failed? ==> r.attempts == 1 + cfg.max)
            && !r.status.Queued? && !r.status.Retrying?
            && |CallsFor(w.calls, id)| <= r.attempts <= 1 + cfg.max
            && AppliedCount(w.applied, id) <= r.attempts
  {
    StartOk(cfg);
    RunKeeps(START, es, cfg);
    var w := Run(START, es, cfg);
    assert RowOk(w.rows[id], cfg.max);
    assert CallCount(w.calls, id) <= AttemptsOf(w.rows, id);
    CallCountIs(w.calls, id);
    assert AppliedCount(w.applied, id) <= SettledAttempts(w.rows, id);
  }

  /** The two partial unique indexes hold, every delivery belongs to a Notification, every
      Notification has a delivery, and every provider call, first or retried, passed the
      content variables stored on its row. */
  lemma CommittedTables(es: seq<Event>, cfg: Config)
    requires EnabledRun(START, es, cfg)
    ensures var w := Run(START, es, cfg);
            && (forall i, j :: i in w.rows && j in w.rows && i != j && w.rows[i].kind.Scheduled? && w.rows[j].kind.Scheduled? ==>
                  w.rows[i].recipient != w.rows[j].recipient || w.rows[i].day != w.rows[j].day)
            && (forall i, j :: i in w.rows && j in w.rows && i != j && w.rows[i].kind.Manual? && w.rows[j].kind.Manual? ==>
                  w.rows[i].recipient != w.rows[j].recipient || w.rows[i].notificationId != w.rows[j].notificationId)
            && (forall id :: id in w.rows ==> w.rows[id].notificationId in w.notes)
            && (forall n :: n in w.notes ==> exists id :: id in w.rows && w.rows[id].notificationId == n)
            && (forall i :: 0 <= i < |w.calls| ==> w.calls[i].delivery in w.rows && w.calls[i].vars == w.rows[w.calls[i].delivery].vars)
  {
    StartOk(cfg);
    RunKeeps(START, es, cfg);
    var w := Run(START, es, cfg);
    forall i, j | i in w.rows && j in w.rows && i != j && w.rows[i].kind.Scheduled? && w.rows[j].kind.Scheduled?
      ensures w.rows[i].recipient != w.rows[j].recipient || w.rows[i].day != w.rows[j].day
    {
      assert !Conflict(w.rows[i], w.rows[j]);
      assert w.rows[i].id == i && w.rows[j].id == j;
    }
    forall i, j | i in w.rows && j in w.rows && i != j && w.rows[i].kind.Manual? && w.rows[j].kind.Manual?
      ensures w.rows[i].recipient != w.rows[j].recipient || w.rows[i].notificationId != w.rows[j].notificationId
    {
      assert !Conflict(w.rows[i], w.rows[j]);
      assert w.rows[i].id == i && w.rows[j].id == j;
    }
  }

  /* ---------- what creating rows does ---------- */

  lemma CreatedKeys(w: World, c: Creation, cfg: Config)
    requires WellFormed(c) && CanInsert(w.rows, c.rows)
    ensures var w' := Step(w, Create(c), cfg);
            && (forall id :: id in w'.rows <==> id in w.rows || HasRow(c.rows, id))
            && (forall id :: id in w.rows ==> w'.rows[id] == w.rows[id])
  {
    InsertedLookup(w.rows, c.rows);
    DispatchAllIdentities(Outbox(Inserted(w.rows, c.rows), w.calls), c.rows, c.batch, c.answers, cfg.max);
    forall id | id in w.rows ensures Step(w, Create(c), cfg).rows[id] == w.rows[id] {
      DispatchFrame(Outbox(Inserted(w.rows, c.rows), w.calls), c.rows, c.batch, c.answers, cfg.max, id);
    }
  }

  lemma CreatedEach(w: World, c: Creation, cfg: Config)
    requires WellFormed(c) && CanInsert(w.rows, c.rows)
    ensures var w' := Step(w, Create(c), cfg);
            && (forall i :: 0 <= i < |c.rows| ==> Created(w, w', c.rows[i], c.batch, c.answers[i], cfg))
            && (forall id :: !HasRow(c.rows, id) ==> CallsFor(w'.calls, id) == CallsFor(w.calls, id))
  {
    InsertedSnapshot(w.rows, w.calls, c);
    DispatchMeaning(Outbox(Inserted(w.rows, c.rows), w.calls), c.rows, c.batch, c.answers, cfg.max);
  }

  /** Creating a Notification's rows: when the indexes refuse one of them nothing happens;
      otherwise exactly these rows are added, each as one attempt on it leaves it, and the
      provider is asked for each exactly what its attempt calls for. */
  lemma CreateMeaning(w: World, c: Creation, cfg: Config)
    requires WellFormed(c)
    ensures var w' := Step(w, Create(c), cfg);
            if !CanInsert(w.rows, c.rows) then w' == w
            else
              && w' == w.(rows := w'.rows, calls := w'.calls, notes := w.notes[c.note.id := c.note])
              && (forall id :: id in w'.rows <==> id in w.rows || HasRow(c.rows, id))
              && (forall id :: id in w.rows ==> w'.rows[id] == w.rows[id])
              && (forall i :: 0 <= i < |c.rows| ==> Created(w, w', c.rows[i], c.batch, c.answers[i], cfg))
              && (forall id :: !HasRow(c.rows, id) ==> CallsFor(w'.calls, id) == CallsFor(w.calls, id))
  {
    if CanInsert(w.rows, c.rows) {
      CreatedKeys(w, c, cfg);
      CreatedEach(w, c, cfg);
    }
  }

  // One new row and its request, between the states before and after.
  ghost predicate Created(w: World, w': World, row: Row, b: Batch, a: Answer, cfg: Config) {
    && row.id in w'.rows
    && Attempted(row, w'.rows[row.id], Outcome(row.recipient, w'.rows[row.id].status, w'.rows[row.id].reason), b, a, cfg.max)
    && CallsFor(w'.calls, row.id) == CallsFor(w.calls, row.id) + Requested(row, b, a)
  }

  /* ---------- termination ---------- */

  // How many more times a row can change.
  function Budget(r: Row, max: nat): int {
    2 * (1 + max - r.attempts) + (if r.status.Sending? then 1 else 0)
  }

  predicate Terminal(r: Row) {
    r.status.Delivered? || r.status.Failed?
  }

  ghost predicate Spends(r: Row, r': Row, max: nat) {
    && SameIdentity(r, r')
    && 0 <= Budget(r, max)
    && (r' == r || Budget(r', max) < Budget(r, max))
    && (Terminal(r) ==> r' == r)
  }

  lemma RetrySpends(w: World, t: Turn, cfg: Config, id: Id)
    requires RowsOk(w.rows, cfg.max) && PendingOk(w, cfg) && id in w.rows
    ensures var w' := Step(w, RetryNext(Some(t)), cfg); id in w'.rows && Spends(w.rows[id], w'.rows[id], cfg.max)
  {
    assert RowOk(w.rows[id], cfg.max);
    if w.pending != [] { RetryEffect(w, t, cfg); }
  }

  lemma CallbackSpends(w: World, sid: Sid, outcome: WebhookOutcome, reason: Option<string>, at: int, cfg: Config, id: Id)
    requires RowsOk(w.rows, cfg.max) && id in w.rows
    ensures var w' := AfterCallback(w, sid, outcome, reason, at, cfg); id in w'.rows && Spends(w.rows[id], w'.rows[id], cfg.max)
  {
    assert RowOk(w.rows[id], cfg.max);
    if CallbackResult(w.rows, sid, outcome, cfg).Applied? { AppliedToSending(w, sid, outcome, cfg); }
  }

  /** One step leaves a stored row alone or strictly spends its budget; it never touches a
      terminal row and never rewrites the identifying columns. */
  lemma StepSpendsBudget(w: World, e: Event, cfg: Config, id: Id)
    requires Inv(w, cfg) && Enabled(w, e, cfg) && id in w.rows
    ensures var w' := Step(w, e, cfg); id in w'.rows && Spends(w.rows[id], w'.rows[id], cfg.max)
  {
    assert RowOk(w.rows[id], cfg.max);
    match e
    case Create(c) => CreateFrame(w, c, cfg, id);
    case ListEligible(now, listed) =>
    case RetryNext(turn) => if turn.Some? { RetrySpends(w, turn.value, cfg, id); }
    case Callback(sid, outcome, reason, at) => CallbackSpends(w, sid, outcome, reason, at, cfg, id);
  }

  ghost function Changes(w: World, es: seq<Event>, cfg: Config, id: Id): nat
    requires EnabledRun(w, es, cfg)
    decreases |es|
  {
    if es == [] then 0
    else
      var w' := Step(w, es[0], cfg);
      (if id in w.rows && id in w'.rows && w.rows[id] != w'.rows[id] then 1 else 0) + Changes(w', es[1..], cfg, id)
  }

  /** DELIVERED and FAILED are absorbing, and over any run whatever a row changes at most
      Budget times. */
  lemma {:induction false} RowsSettle(w: World, es: seq<Event>, cfg: Config, id: Id)
    requires Inv(w, cfg) && EnabledRun(w, es, cfg) && id in w.rows
    ensures var w' := Run(w, es, cfg);
            && id in w'.rows
            && (Terminal(w.rows[id]) ==> w'.rows[id] == w.rows[id])
            && 0 <= Budget(w'.rows[id], cfg.max)
            && Changes(w, es, cfg, id) + Budget(w'.rows[id], cfg.max) <= Budget(w.rows[id], cfg.max)
    decreases |es|
  {
    assert RowOk(w.rows[id], cfg.max);
    if es != [] {
      StepSpendsBudget(w, es[0], cfg, id);
      StepKeeps(w, es[0], cfg);
      RowsSettle(Step(w, es[0], cfg), es[1..], cfg, id);
    }
  }

  /* ---------- the retry job's snapshot ---------- */

  predicate NoListing(es: seq<Event>) {
    forall i :: 0 <= i < |es| ==> !es[i].ListEligible?
  }

  function RetryTurns(es: seq<Event>): nat {
    if es == [] then 0 else (if es[0].RetryNext? then 1 else 0) + RetryTurns(es[1..])
  }

  lemma {:induction false} PendingShrinks(w: World, es: seq<Event>, cfg: Config)
    requires NoListing(es)
    ensures Run(w, es, cfg).pending == (if RetryTurns(es) <= |w.pending| then w.pending[RetryTurns(es)..] else [])
    ensures Run(w, es, cfg).listedAt == w.listedAt
    decreases |es|
  {
    if es != [] { PendingShrinks(Step(w, es[0], cfg), es[1..], cfg); }
  }

  ghost predicate StoredAsListed(w: World, row: Row) {
    row in w.pending && row.id in w.rows && w.rows[row.id] == row
  }

  lemma PendingStored(w: World, cfg: Config, j: nat)
    requires PendingOk(w, cfg) && j < |w.pending|
    ensures StoredAsListed(w, w.pending[j])
  {}

  lemma RunKeepsPending(w: World, es: seq<Event>, cfg: Config)
    requires Inv(w, cfg) && EnabledRun(w, es, cfg)
    ensures PendingOk(Run(w, es, cfg), cfg)
  {
    RunKeeps(w, es, cfg);
  }

  lemma SuffixAt(s: seq<Row>, k: nat, i: nat)
    requires k <= i < |s|
    ensures s[k..][i - k] == s[i]
  {}

  /** Whatever composes, callbacks and other rows' retries commit after the listing, every
      listed row whose turn has not come is still stored exactly as it was listed. */
  lemma SnapshotStaysSound(w: World, es: seq<Event>, cfg: Config, i: nat)
    requires Inv(w, cfg) && EnabledRun(w, es, cfg) && NoListing(es)
    requires RetryTurns(es) <= i < |w.pending|
    ensures StoredAsListed(Run(w, es, cfg), w.pending[i])
  {
    var w' := Run(w, es, cfg);
    RunKeepsPending(w, es, cfg);
    PendingShrinks(w, es, cfg);
    SuffixAt(w.pending, RetryTurns(es), i);
    PendingStored(w', cfg, i - RetryTurns(es));
  }

  // A committed retry turn: one request, to the number and with the template looked up and the
  // variables stored on the row, or none when a record is missing; and on that row alone what the
  // answer calls for.
  ghost predicate Retried(w: World, w': World, row: Row, t: Turn, cfg: Config) {
    && row.id in w'.rows && w'.rows == w.rows[row.id := w'.rows[row.id]]
    && w'.notes == w.notes && w'.applied == w.applied
    && match t.lookup
       case Found(recipient, contentSid) =>
         && w'.calls == w.calls + [Call(row.id, recipient.mobile, contentSid, row.vars, t.answer.result)]
         && StoredAfter(row, w'.rows[row.id], t.answer.result, t.answer.at, cfg.max)
       case Missing =>
         && w'.calls == w.calls
         && StoredAfter(row, w'.rows[row.id], Rejected("recipient no longer exists"), t.answer.at, cfg.max)
  }

  lemma RetriedAt(w: World, t: Turn, cfg: Config)
    requires w.pending != [] && w.pending[0].id in w.rows && w.rows[w.pending[0].id] == w.pending[0]
    requires w.pending[0].status == FailedRetryable
    ensures Retried(w, Step(w, RetryNext(Some(t)), cfg), w.pending[0], t, cfg)
  {
    var row, o := w.pending[0], Outbox(w.rows, w.calls);
    DispatchRowMeaning(Dispatched(o, []), row, RetryBatch(row, t.lookup), t.answer, cfg.max);
    SingleDispatch(o, row, RetryBatch(row, t.lookup), t.answer, cfg.max);
  }

  /** In every run, a committed retry turn retries the first row left of the listing, which is
      stored as it was listed, and takes it off the list. */
  lemma RetryMeaning(w: World, t: Turn, cfg: Config)
    requires Inv(w, cfg) && w.pending != []
    ensures var row, w' := w.pending[0], Step(w, RetryNext(Some(t)), cfg);
            row.id in w.rows && w.rows[row.id] == row && Retried(w, w', row, t, cfg) && w'.pending == w.pending[1..]
  {
    RetriedAt(w, t, cfg);
  }

  /** Hence a failed retry, refused by the provider or missing a related record, records a
      status that agrees with the attempt count it stores. */
  lemma RetryStatusAgrees(w: World, t: Turn, cfg: Config)
    requires Inv(w, cfg) && w.pending != []
    requires Attempt(w.pending[0], RetryBatch(w.pending[0], t.lookup), t.answer).Rejected?
    ensures var id, w' := w.pending[0].id, Step(w, RetryNext(Some(t)), cfg);
            && id in w.rows && id in w'.rows
            && var r := w'.rows[id];
            && r.attempts == w.rows[id].attempts + 1
            && r.sid == None
            && r.status == StatusAfterFailedAttempt(r.attempts, cfg.max)
  {
    RetryEffect(w, t, cfg);
  }

  /* ---------- callbacks ---------- */

  /** What a callback does to the only row carrying its SID: a row not yet settled becomes
      DELIVERED, or after a failure FAILED_RETRYABLE while attempts remain and FAILED otherwise,
      with the callback's reason and stamp; a settled row and every other row stay as they are. */
  lemma CallbackMeaning(w: World, sid: Sid, outcome: WebhookOutcome, reason: Option<string>, at: int, cfg: Config, id: Id)
    requires OnlyHolder(w.rows, sid, id)
    ensures var w', row := Step(w, Callback(sid, outcome, reason, at), cfg), w.rows[id];
            var status := if outcome == DeliveredCallback then Delivered else if row.attempts <= cfg.max then FailedRetryable else Failed;
            if row.status == Queued || row.status == Sending then
              && CallbackResult(w.rows, sid, outcome, cfg) == Applied
              && w'.rows == w.rows[id := row.(status := status, reason := reason, updatedAt := at)]
              && w'.calls == w.calls && w'.notes == w.notes && w'.applied == w.applied + [AppliedCallback(sid, id)]
            else
              CallbackResult(w.rows, sid, outcome, cfg) == RejectedNonMonotonic && w' == w
  {}

  /** A callback whose SID no row carries, or several, is superseded and changes nothing. */
  lemma CallbackSuperseded(w: World, sid: Sid, outcome: WebhookOutcome, reason: Option<string>, at: int, cfg: Config)
    requires forall id :: !OnlyHolder(w.rows, sid, id)
    ensures CallbackResult(w.rows, sid, outcome, cfg) == Superseded
    ensures Step(w, Callback(sid, outcome, reason, at), cfg) == w
  {}

  /** In every run: a callback for a row in flight settles that row as its outcome says. */
  lemma CallbackSettles(w: World, sid: Sid, outcome: WebhookOutcome, reason: Option<string>, at: int, cfg: Config, id: Id)
    requires Inv(w, cfg) && id in w.rows && w.rows[id].sid == Some(sid) && w.rows[id].status == Sending
    ensures var w' := Step(w, Callback(sid, outcome, reason, at), cfg);
            && id in w'.rows
            && w'.rows[id].status == (if outcome == DeliveredCallback then Delivered
                                      else if w.rows[id].attempts <= cfg.max then FailedRetryable else Failed)
            && w'.rows[id].attempts == w.rows[id].attempts && w'.rows[id].sid == Some(sid)
            && w'.rows[id].reason == reason && w'.rows[id].updatedAt == at
            && w'.rows.Keys == w.rows.Keys && (forall k :: k in w.rows && k != id ==> w'.rows[k] == w.rows[k])
  {
    assert Holds(w.rows, sid, id);
    assert OnlyHolder(w.rows, sid, id);
    CallbackMeaning(w, sid, outcome, reason, at, cfg, id);
  }

  /** No two rows ever share a SID, so the ambiguous lookup branch is unreachable. */
  lemma SidsIdentifyRows(es: seq<Event>, cfg: Config, sid: Sid, i: Id, j: Id)
    requires EnabledRun(START, es, cfg)
    requires Holds(Run(START, es, cfg).rows, sid, i) && Holds(Run(START, es, cfg).rows, sid, j)
    ensures i == j
  {
    StartOk(cfg);
    RunKeeps(START, es, cfg);
  }

  lemma SendingIsApplied(w: World, sid: Sid, outcome: WebhookOutcome, cfg: Config, id: Id)
    requires SidsOk(w.rows, w.calls) && Holds(w.rows, sid, id) && w.rows[id].status.Sending?
    ensures CallbackResult(w.rows, sid, outcome, cfg).Applied?
  {
    assert OnlyHolder(w.rows, sid, id);
  }

  /** A callback is applied exactly when some row is still Sending under the SID it names. */
  lemma AppliedIffSending(w: World, sid: Sid, outcome: WebhookOutcome, cfg: Config)
    requires Inv(w, cfg)
    ensures CallbackResult(w.rows, sid, outcome, cfg).Applied? <==>
            exists id :: Holds(w.rows, sid, id) && w.rows[id].status.Sending?
  {
    if CallbackResult(w.rows, sid, outcome, cfg).Applied? {
      AppliedToSending(w, sid, outcome, cfg);
      assert Holds(w.rows, sid, HolderOf(w.rows, sid).value);
    }
    if id :| Holds(w.rows, sid, id) && w.rows[id].status.Sending? {
      SendingIsApplied(w, sid, outcome, cfg, id);
    }
  }

  lemma {:induction false} AppliedGrows(w: World, es: seq<Event>, cfg: Config)
    requires EnabledRun(w, es, cfg)
    ensures w.applied <= Run(w, es, cfg).applied
    decreases |es|
  {
    if es != [] { AppliedGrows(Step(w, es[0], cfg), es[1..], cfg); }
  }

  /** Callbacks for one SID are applied at most once: after one was, no later callback naming
      that SID is, whatever happened between. */
  lemma AppliedAtMostOnce(w: World, e: Event, es: seq<Event>, cfg: Config, outcome: WebhookOutcome)
    requires Inv(w, cfg) && EnabledRun(w, [e] + es, cfg)
    requires e.Callback? && CallbackResult(w.rows, e.sid, e.outcome, cfg).Applied?
    ensures !CallbackResult(Run(w, [e] + es, cfg).rows, e.sid, outcome, cfg).Applied?
  {
    var w1 := Step(w, e, cfg);
    assert ([e] + es)[1..] == es;
    StepKeeps(w, e, cfg);
    AppliedGrows(w1, es, cfg);
    RunKeeps(w1, es, cfg);
    var w' := Run(w1, es, cfg);
    var n := |w.applied|;
    assert w'.applied[n] == w1.applied[n] && w1.applied[n].sid == e.sid;
    if CallbackResult(w'.rows, e.sid, outcome, cfg).Applied? {
      AppliedToSending(w', e.sid, outcome, cfg);
    }
  }

  lemma {:induction false} DispatchedSids(o: Outbox, rows: seq<Row>, b: Batch, answers: seq<Answer>, max: nat, id: Id)
    requires |answers| == |rows|
    ensures var d := DispatchAll(o, rows, b, answers, max).box.rows;
            id in d && d[id].sid.Some? ==> id in o.rows && (o.rows[id].sid == d[id].sid || Answered(answers, d[id].sid.value))
  {
    if rows != [] {
      var n := |rows| - 1;
      DispatchedSids(o, rows[..n], b, answers[..n], max, id);
      DispatchAllIdentities(o, rows[..n], b, answers[..n], max);
      var d := DispatchAll(o, rows, b, answers, max).box.rows;
      if id in d && d[id].sid.Some? {
        var before := DispatchAll(o, rows[..n], b, answers[..n], max).box;
        if before.rows[id].sid == d[id].sid {
          if o.rows[id].sid != d[id].sid {
            var i :| 0 <= i < n && answers[..n][i].result == Accepted(d[id].sid.value);
            assert answers[i].result == Accepted(d[id].sid.value);
          }
        } else {
          assert answers[n].result == Accepted(d[id].sid.value);
        }
      }
    }
  }

  // A SID the provider handed out that no row carries any more.
  ghost predicate Overwritten(w: World, sid: Sid) {
    sid in Issued(w.calls) && forall id :: !Holds(w.rows, sid, id)
  }

  lemma {:induction false} IssuedByDispatch(o: Outbox, rows: seq<Row>, b: Batch, answers: seq<Answer>, max: nat)
    requires |answers| == |rows|
    ensures Issued(o.calls) <= Issued(DispatchAll(o, rows, b, answers, max).box.calls)
  {
    if rows != [] {
      var n := |rows| - 1;
      IssuedByDispatch(o, rows[..n], b, answers[..n], max);
      if Reaches(rows[n], b) {
        AppendCall(DispatchAll(o, rows[..n], b, answers[..n], max).box.calls, CallOf(rows[n], b, answers[n]));
      }
    }
  }

  lemma CreateKeepsOverwritten(w: World, c: Creation, cfg: Config, sid: Sid)
    requires Enabled(w, Create(c), cfg) && Overwritten(w, sid)
    ensures Overwritten(Step(w, Create(c), cfg), sid)
  {
    if CanInsert(w.rows, c.rows) {
      var w' := Step(w, Create(c), cfg);
      var o := Outbox(Inserted(w.rows, c.rows), w.calls);
      CreationGrows(w, c, cfg);
      IssuedByDispatch(o, c.rows, c.batch, c.answers, cfg.max);
      forall id ensures !Holds(w'.rows, sid, id) {
        DispatchedSids(o, c.rows, c.batch, c.answers, cfg.max, id);
        assert !Holds(w.rows, sid, id);
      }
    }
  }

  lemma RetryKeepsOverwritten(w: World, t: Turn, cfg: Config, sid: Sid)
    requires PendingOk(w, cfg) && Enabled(w, RetryNext(Some(t)), cfg) && Overwritten(w, sid)
    ensures Overwritten(Step(w, RetryNext(Some(t)), cfg), sid)
  {
    if w.pending != [] {
      var w' := Step(w, RetryNext(Some(t)), cfg);
      IssuedByDispatch(Outbox(w.rows, w.calls), [w.pending[0]], RetryBatch(w.pending[0], t.lookup), [t.answer], cfg.max);
      assert t.answer == [t.answer][0];
      RetryEffect(w, t, cfg);
      forall id ensures !Holds(w'.rows, sid, id) { assert !Holds(w.rows, sid, id); }
    }
  }

  lemma StepKeepsOverwritten(w: World, e: Event, cfg: Config, sid: Sid)
    requires Inv(w, cfg) && Enabled(w, e, cfg) && Overwritten(w, sid)
    ensures Overwritten(Step(w, e, cfg), sid)
  {
    match e
    case Create(c) => CreateKeepsOverwritten(w, c, cfg, sid);
    case ListEligible(now, listed) =>
    case RetryNext(turn) => if turn.Some? { RetryKeepsOverwritten(w, turn.value, cfg, sid); }
    case Callback(s, outcome, reason, at) =>
      forall id ensures !Holds(Step(w, e, cfg).rows, sid, id) { assert !Holds(w.rows, sid, id); }
  }

  /** Once a SID has been overwritten, every later callback naming it is superseded and
      changes nothing. */
  lemma {:induction false} OverwrittenForGood(w: World, es: seq<Event>, cfg: Config, late: Event)
    requires Inv(w, cfg) && EnabledRun(w, es, cfg) && late.Callback? && Overwritten(w, late.sid)
    ensures var w' := Run(w, es, cfg);
            && Overwritten(w', late.sid)
            && CallbackResult(w'.rows, late.sid, late.outcome, cfg) == Superseded
            && Step(w', late, cfg) == w'
    decreases |es|
  {
    if es != [] {
      StepKeeps(w, es[0], cfg);
      StepKeepsOverwritten(w, es[0], cfg, late.sid);
      OverwrittenForGood(Step(w, es[0], cfg), es[1..], cfg, late);
    }
  }

  lemma RetryDropsSid(w: World, t: Turn, cfg: Config, sid: Sid)
    requires SidsOk(w.rows, w.calls) && PendingOk(w, cfg) && w.pending != []
    requires FreshSids(Issued(w.calls), [t.answer]) && Holds(w.rows, sid, w.pending[0].id)
    ensures forall id :: !Holds(Step(w, RetryNext(Some(t)), cfg).rows, sid, id)
  {
    var row := w.pending[0];
    assert t.answer == [t.answer][0];
    RetryEffect(w, t, cfg);
    forall id ensures !Holds(Step(w, RetryNext(Some(t)), cfg).rows, sid, id) {
      if id != row.id { assert id in w.rows ==> w.rows[id].sid != Some(sid); }
    }
  }

  /** A retry overwrites the SID of the attempt before it. */
  lemma RetryOverwrites(w: World, t: Turn, cfg: Config, sid: Sid)
    requires Inv(w, cfg) && Enabled(w, RetryNext(Some(t)), cfg) && w.pending != []
    requires Holds(w.rows, sid, w.pending[0].id)
    ensures Overwritten(Step(w, RetryNext(Some(t)), cfg), sid)
  {
    IssuedByDispatch(Outbox(w.rows, w.calls), [w.pending[0]], RetryBatch(w.pending[0], t.lookup), [t.answer], cfg.max);
    RetryDropsSid(w, t, cfg, sid);
  }

  /* ---------- backoff: nothing stranded, nothing rushed ---------- */

  lemma ListedWhenEligible(w: World, cfg: Config, id: Id, now: int, listed: seq<Row>)
    requires RowsOk(w.rows, cfg.max) && id in w.rows && IsListing(listed, w.rows, now, cfg)
    ensures w.rows[id] in listed <==> Eligible(w.rows[id], now, cfg)
  {
    if w.rows[id] in listed {
      var i :| 0 <= i < |listed| && listed[i] == w.rows[id];
    }
  }

  /** With at most three retries every retryable row falls under exactly one backoff window,
      and a listing contains it from the moment that window has elapsed, never before. */
  lemma ListedOnceElapsed(w: World, cfg: Config, id: Id, now: int, listed: seq<Row>)
    requires Inv(w, cfg) && id in w.rows && w.rows[id].status.FailedRetryable? && cfg.max <= 3
    requires IsListing(listed, w.rows, now, cfg)
    ensures var r := w.rows[id];
            && 1 <= r.attempts <= 3
            && (r.attempts == 1 ==> (r in listed <==> r.updatedAt + cfg.backoff1 <= now))
            && (r.attempts == 2 ==> (r in listed <==> r.updatedAt + cfg.backoff2 <= now))
            && (r.attempts == 3 ==> (r in listed <==> r.updatedAt + cfg.backoff3 <= now))
  {
    assert RowOk(w.rows[id], cfg.max);
    ListedWhenEligible(w, cfg, id, now, listed);
  }

  ghost predicate WaitedBackoff(r: Row, r': Row, cfg: Config) {
    && r.status.FailedRetryable? && r'.attempts == r.attempts + 1
    && 1 <= r.attempts <= 3
    && (r.attempts == 1 ==> r.updatedAt + cfg.backoff1 <= r'.updatedAt)
    && (r.attempts == 2 ==> r.updatedAt + cfg.backoff2 <= r'.updatedAt)
    && (r.attempts == 3 ==> r.updatedAt + cfg.backoff3 <= r'.updatedAt)
  }

  lemma RetryWaits(w: World, t: Turn, cfg: Config, id: Id)
    requires PendingOk(w, cfg) && Enabled(w, RetryNext(Some(t)), cfg) && id in w.rows
    ensures var w' := Step(w, RetryNext(Some(t)), cfg);
            id in w'.rows && (w'.rows[id].attempts == w.rows[id].attempts || WaitedBackoff(w.rows[id], w'.rows[id], cfg))
  {
    if w.pending != [] { RetryEffect(w, t, cfg); }
  }

  /** A stored row's attempt count rises only out of FAILED_RETRYABLE, by one, and stamped at
      least its backoff window after the failure it recorded. */
  lemma RetryNeverRushed(w: World, e: Event, cfg: Config, id: Id)
    requires Inv(w, cfg) && Enabled(w, e, cfg) && id in w.rows
    ensures var w' := Step(w, e, cfg);
            id in w'.rows && (w'.rows[id].attempts == w.rows[id].attempts || WaitedBackoff(w.rows[id], w'.rows[id], cfg))
  {
    match e
    case Create(c) => CreateFrame(w, c, cfg, id);
    case ListEligible(now, listed) =>
    case RetryNext(turn) => if turn.Some? { RetryWaits(w, turn.value, cfg, id); }
    case Callback(sid, outcome, reason, at) =>
  }

  // A retryable row that no listing will ever return.
  ghost predicate Stranded(r: Row, cfg: Config) {
    r.status.FailedRetryable? && forall now :: !Eligible(r, now, cfg)
  }

  lemma {:induction false} RunConcat(w: World, es: seq<Event>, es': seq<Event>, cfg: Config)
    requires EnabledRun(w, es, cfg) && EnabledRun(Run(w, es, cfg), es', cfg)
    ensures EnabledRun(w, es + es', cfg)
    decreases |es|
  {
    if es == [] {
      assert es + es' == es';
    } else {
      assert (es + es')[0] == es[0] && (es + es')[1..] == es[1..] + es';
      RunConcat(Step(w, es[0], cfg), es[1..], es', cfg);
    }
  }

  ghost predicate OnlyRetryable(rows: Table, attempts: nat) {
    rows.Keys == {0} && rows[0].id == 0 && rows[0].status.FailedRetryable? && rows[0].attempts == attempts
  }

  lemma RejectedRetry(w: World, now: int, k: nat, cfg: Config)
    requires OnlyRetryable(w.rows, k) && k + 1 <= cfg.max && PendingOk(w, cfg) && w.pending == [w.rows[0]]
    ensures OnlyRetryable(Step(w, RetryNext(Some(Turn(Missing, Answer(Rejected("refused"), now)))), cfg).rows, k + 1)
  {
    RetryEffect(w, Turn(Missing, Answer(Rejected("refused"), now)), cfg);
  }

  lemma OneMoreFailure(w: World, k: nat, cfg: Config) returns (es: seq<Event>)
    requires 1 <= k <= 3 && k + 1 <= cfg.max && OnlyRetryable(w.rows, k)
    ensures EnabledRun(w, es, cfg) && OnlyRetryable(Run(w, es, cfg).rows, k + 1)
  {
    var r := w.rows[0];
    var now := r.updatedAt + Backoff(k, cfg).value;
    var list := ListEligible(now, [r]);
    var retry := RetryNext(Some(Turn(Missing, Answer(Rejected("refused"), now))));
    es := [list, retry];
    var w1 := Step(w, list, cfg);
    assert IsListing([r], w.rows, now, cfg);
    RejectedRetry(w1, now, k, cfg);
    assert es[1..] == [retry] && [retry][1..] == [];
    assert EnabledRun(Step(w1, retry, cfg), [], cfg);
    assert EnabledRun(w1, [retry], cfg);
    assert Run(w1, [retry], cfg) == Step(w1, retry, cfg);
    assert Run(w, es, cfg) == Run(w1, [retry], cfg);
  }

  lemma FirstFailure(cfg: Config) returns (es: seq<Event>)
    requires 1 <= cfg.max
    ensures EnabledRun(START, es, cfg) && OnlyRetryable(Run(START, es, cfg).rows, 1)
  {
    var row := Row(0, 0, Manual, 0, None, Queued, 0, None, None, 0, map[]);
    var c := Creation(Notification(0, Manual, 0), [row], Batch("", map[], map[]), [Answer(Rejected("refused"), 0)]);
    es := [Create(c)];
    assert FreshRow(row, c.note, c.batch);
    assert Enabled(START, Create(c), cfg);
    assert [row][..0] == [] && c.answers[..0] == [];
    assert Inserted(map[], [row]) == map[0 := row];
    assert CanInsert(map[], [row]);
    var o := Outbox(map[0 := row], []);
    assert DispatchAll(o, [row], c.batch, c.answers, cfg.max) == DispatchRow(Dispatched(o, []), row, c.batch, c.answers[0], cfg.max);
    assert es[1..] == [];
    assert Run(START, es, cfg) == Step(START, Create(c), cfg);
  }

  lemma StrandedRun(cfg: Config) returns (es: seq<Event>)
    requires 4 <= cfg.max
    ensures EnabledRun(START, es, cfg) && 0 in Run(START, es, cfg).rows && Stranded(Run(START, es, cfg).rows[0], cfg)
  {
    es := FirstFailure(cfg);
    var k := 1;
    while k < 4
      invariant 1 <= k <= 4
      invariant EnabledRun(START, es, cfg) && OnlyRetryable(Run(START, es, cfg).rows, k)
    {
      var more := OneMoreFailure(Run(START, es, cfg), k, cfg);
      RunConcat(START, es, more, cfg);
      RunAppend(START, es, more, cfg);
      es := es + more;
      k := k + 1;
    }
    assert 0 in Run(START, es, cfg).rows;
  }

  ghost predicate NothingEverStranded(cfg: Config) {
    forall es: seq<Event>, id: Id :: EnabledRun(START, es, cfg) && id in Run(START, es, cfg).rows ==>
                                       !Stranded(Run(START, es, cfg).rows[id], cfg)
  }

  /** No delivery is ever stranded exactly when max is at most the three hard-coded windows. */
  lemma StrandedIffOverThree(cfg: Config)
    ensures NothingEverStranded(cfg) <==> cfg.max <= 3
  {
    if cfg.max <= 3 {
      forall es: seq<Event>, id: Id | EnabledRun(START, es, cfg) && id in Run(START, es, cfg).rows
        ensures !Stranded(Run(START, es, cfg).rows[id], cfg)
      {
        CommittedStates(es, cfg, id);
        var r := Run(START, es, cfg).rows[id];
        if r.status.FailedRetryable? {
          assert Eligible(r, r.updatedAt + Backoff(r.attempts, cfg).value, cfg);
        }
      }
    } else {
      var es := StrandedRun(cfg);
    }
  }
}

/** What every committed state of every run of the delivery protocol satisfies. */
module DeliverySafety {
  import opened Prelude
  import opened Deliveries
  import opened DeliveryRuns

  /* ---------- one row's dispatch keeps the invariant ---------- */

  lemma AppendCall(calls: seq<Call>, c: Call)
    ensures Issued(calls + [c]) == Issued(calls) + (if c.result.Accepted? then {c.result.sid} else {})
    ensures forall id :: CallCount(calls + [c], id) == CallCount(calls, id) + (if c.delivery == id then 1 else 0)
  {
    assert (calls + [c])[..|calls|] == calls;
  }

  ghost predicate DispatchPre(d: Dispatched, row: Row, b: Batch, a: Answer) {
    && CanClaim(d.box, row.id) && d.box.rows[row.id] == row
    && (a.result.Accepted? ==> a.result.sid !in Issued(d.box.calls))
    && (Reaches(row, b) ==> b.varsFor[row.recipient] == row.vars)
  }

  lemma DispatchRowCalls(d: Dispatched, row: Row, b: Batch, a: Answer, max: nat)
    requires DispatchPre(d, row, b, a)
    ensures var d' := DispatchRow(d, row, b, a, max);
            && Issued(d.box.calls) <= Issued(d'.box.calls)
            && Issued(d'.box.calls) <= Issued(d.box.calls) + (if a.result.Accepted? then {a.result.sid} else {})
            && (d'.box.rows[row.id].sid.Some? ==>
                  a.result.Accepted? && d'.box.rows[row.id].sid.value == a.result.sid && a.result.sid in Issued(d'.box.calls))
            && (forall id :: CallCount(d'.box.calls, id) <= CallCount(d.box.calls, id) + (if row.id == id then 1 else 0))
            && |d.box.calls| <= |d'.box.calls| <= |d.box.calls| + 1
            && d'.box.calls[..|d.box.calls|] == d.box.calls
            && (|d.box.calls| < |d'.box.calls| ==>
                  d'.box.calls[|d.box.calls|].delivery == row.id && d'.box.calls[|d.box.calls|].vars == row.vars)
  {
    if Reaches(row, b) { AppendCall(d.box.calls, CallOf(row, b, a)); }
  }

  lemma DispatchRowKeepsRows(d: Dispatched, row: Row, b: Batch, a: Answer, max: nat)
    requires RowsOk(d.box.rows, max) && DispatchPre(d, row, b, a)
    ensures RowsOk(DispatchRow(d, row, b, a, max).box.rows, max)
  {
    assert RowOk(row, max);
  }

  lemma DispatchRowKeepsSids(d: Dispatched, row: Row, b: Batch, a: Answer, max: nat)
    requires SidsOk(d.box.rows, d.box.calls) && DispatchPre(d, row, b, a)
    ensures SidsOk(DispatchRow(d, row, b, a, max).box.rows, DispatchRow(d, row, b, a, max).box.calls)
  {
    DispatchRowCalls(d, row, b, a, max);
  }

  lemma DispatchRowKeepsCalls(d: Dispatched, row: Row, b: Batch, a: Answer, max: nat)
    requires CallsOk(d.box.rows, d.box.calls) && DispatchPre(d, row, b, a)
    ensures CallsOk(DispatchRow(d, row, b, a, max).box.rows, DispatchRow(d, row, b, a, max).box.calls)
  {
    var d' := DispatchRow(d, row, b, a, max);
    DispatchRowCalls(d, row, b, a, max);
    forall i | 0 <= i < |d'.box.calls|
      ensures d'.box.calls[i].delivery in d'.box.rows && d'.box.calls[i].vars == d'.box.rows[d'.box.calls[i].delivery].vars
    {
      if i < |d.box.calls| { assert d'.box.calls[i] == d.box.calls[i]; }
    }
    forall id ensures CallCount(d'.box.calls, id) <= AttemptsOf(d'.box.rows, id) {
      assert CallCount(d.box.calls, id) <= AttemptsOf(d.box.rows, id);
    }
  }

  lemma DispatchRowKeepsApplied(d: Dispatched, row: Row, b: Batch, a: Answer, max: nat, applied: seq<AppliedCallback>)
    requires AppliedOk(d.box.rows, d.box.calls, applied) && DispatchPre(d, row, b, a)
    ensures AppliedOk(DispatchRow(d, row, b, a, max).box.rows, DispatchRow(d, row, b, a, max).box.calls, applied)
  {
    var d' := DispatchRow(d, row, b, a, max);
    DispatchRowCalls(d, row, b, a, max);
    forall id ensures AppliedCount(applied, id) <= SettledAttempts(d'.box.rows, id) {
      assert AppliedCount(applied, id) <= SettledAttempts(d.box.rows, id);
    }
  }

  lemma DispatchRowKeeps(d: Dispatched, row: Row, b: Batch, a: Answer, max: nat, applied: seq<AppliedCallback>)
    requires BoxOk(d.box, applied, max) && DispatchPre(d, row, b, a)
    ensures BoxOk(DispatchRow(d, row, b, a, max).box, applied, max)
  {
    DispatchRowKeepsRows(d, row, b, a, max);
    DispatchRowKeepsSids(d, row, b, a, max);
    DispatchRowKeepsCalls(d, row, b, a, max);
    DispatchRowKeepsApplied(d, row, b, a, max, applied);
  }

  /* ---------- a whole dispatch ---------- */

  // The columns no step ever rewrites.
  predicate SameIdentity(a: Row, b: Row) {
    && a.id == b.id && a.notificationId == b.notificationId && a.kind == b.kind
    && a.recipient == b.recipient && a.day == b.day && a.vars == b.vars
  }

  ghost predicate SameIdentities(rows: Table, rows': Table) {
    rows.Keys == rows'.Keys && forall id :: id in rows ==> SameIdentity(rows[id], rows'[id])
  }

  lemma SameIdentitiesKeep(rows: Table, rows': Table, notes: map<Id, Notification>)
    requires SameIdentities(rows, rows')
    ensures Unique(rows) ==> Unique(rows')
    ensures NotesOk(rows, notes) ==> NotesOk(rows', notes)
  {
    if Unique(rows) {
      forall i, j | i in rows' && j in rows' ensures !Conflict(rows'[i], rows'[j]) {
        assert !Conflict(rows[i], rows[j]) && SameIdentity(rows[i], rows'[i]) && SameIdentity(rows[j], rows'[j]);
      }
    }
    if NotesOk(rows, notes) {
      forall n | n in notes ensures exists id :: id in rows' && rows'[id].notificationId == n {
        var id :| id in rows && rows[id].notificationId == n;
        assert SameIdentity(rows[id], rows'[id]);
      }
    }
  }

  ghost predicate VarsMatch(rows: seq<Row>, b: Batch) {
    forall i :: 0 <= i < |rows| && Reaches(rows[i], b) ==> b.varsFor[rows[i].recipient] == rows[i].vars
  }

  ghost predicate Answered(answers: seq<Answer>, s: Sid) {
    exists i :: 0 <= i < |answers| && answers[i].result == Accepted(s)
  }

  lemma {:induction false} DispatchAllIssues(o: Outbox, rows: seq<Row>, b: Batch, answers: seq<Answer>, max: nat)
    requires |answers| == |rows|
    ensures forall s :: s in Issued(DispatchAll(o, rows, b, answers, max).box.calls) ==> s in Issued(o.calls) || Answered(answers, s)
  {
    if rows != [] {
      var n := |rows| - 1;
      DispatchAllIssues(o, rows[..n], b, answers[..n], max);
      var before := DispatchAll(o, rows[..n], b, answers[..n], max);
      if Reaches(rows[n], b) { AppendCall(before.box.calls, CallOf(rows[n], b, answers[n])); }
      forall s | s in Issued(DispatchAll(o, rows, b, answers, max).box.calls) && s !in Issued(o.calls)
        ensures Answered(answers, s)
      {
        if s in Issued(before.box.calls) {
          var i :| 0 <= i < n && answers[..n][i].result == Accepted(s);
          assert answers[i].result == Accepted(s);
        } else {
          assert answers[n].result == Accepted(s);
        }
      }
    }
  }

  lemma {:induction false} DispatchAllIdentities(o: Outbox, rows: seq<Row>, b: Batch, answers: seq<Answer>, max: nat)
    requires |answers| == |rows|
    ensures SameIdentities(o.rows, DispatchAll(o, rows, b, answers, max).box.rows)
  {
    if rows != [] {
      DispatchAllIdentities(o, rows[..|rows| - 1], b, answers[..|rows| - 1], max);
    }
  }

  lemma LastDispatchPre(o: Outbox, rows: seq<Row>, b: Batch, answers: seq<Answer>, max: nat)
    requires |answers| == |rows| && rows != []
    requires Snapshot(o, rows) && FreshSids(Issued(o.calls), answers) && VarsMatch(rows, b)
    ensures var n := |rows| - 1; DispatchPre(DispatchAll(o, rows[..n], b, answers[..n], max), rows[n], b, answers[n])
  {
    var n := |rows| - 1;
    DispatchFrame(o, rows[..n], b, answers[..n], max, rows[n].id);
    DispatchAllIssues(o, rows[..n], b, answers[..n], max);
    var before := DispatchAll(o, rows[..n], b, answers[..n], max);
    assert CanClaim(o, rows[n].id) && o.rows[rows[n].id] == rows[n];
  }

  lemma PrefixPre(o: Outbox, rows: seq<Row>, b: Batch, answers: seq<Answer>)
    requires |answers| == |rows| && rows != []
    requires Snapshot(o, rows) && FreshSids(Issued(o.calls), answers) && VarsMatch(rows, b)
    ensures var n := |rows| - 1; Snapshot(o, rows[..n]) && FreshSids(Issued(o.calls), answers[..n]) && VarsMatch(rows[..n], b)
  {}

  lemma {:induction false} DispatchAllKeeps(o: Outbox, rows: seq<Row>, b: Batch, answers: seq<Answer>, max: nat, applied: seq<AppliedCallback>)
    requires |answers| == |rows|
    requires BoxOk(o, applied, max) && Snapshot(o, rows) && FreshSids(Issued(o.calls), answers) && VarsMatch(rows, b)
    ensures BoxOk(DispatchAll(o, rows, b, answers, max).box, applied, max)
  {
    if rows != [] {
      var n := |rows| - 1;
      PrefixPre(o, rows, b, answers);
      DispatchAllKeeps(o, rows[..n], b, answers[..n], max, applied);
      LastDispatchPre(o, rows, b, answers, max);
      DispatchRowKeeps(DispatchAll(o, rows[..n], b, answers[..n], max), rows[n], b, answers[n], max, applied);
    }
  }

  /* ---------- each step keeps the invariant ---------- */

  // The table grown by rows that nobody has tried to send yet.
  ghost predicate Grown(rows: Table, rows': Table, note: Id) {
    && rows.Keys <= rows'.Keys
    && (forall id :: id in rows ==> rows'[id] == rows[id])
    && (forall id :: id in rows' && id !in rows ==>
          rows'[id].status.Queued? && rows'[id].attempts == 0 && rows'[id].sid == None && rows'[id].id == id && rows'[id].notificationId == note)
  }

  lemma GrownKeeps(o: Outbox, rows': Table, note: Id, applied: seq<AppliedCallback>, max: nat)
    requires BoxOk(o, applied, max) && Grown(o.rows, rows', note)
    ensures BoxOk(Outbox(rows', o.calls), applied, max)
  {
    forall id ensures CallCount(o.calls, id) <= AttemptsOf(rows', id) {
      assert CallCount(o.calls, id) <= AttemptsOf(o.rows, id);
    }
    forall id ensures AppliedCount(applied, id) <= SettledAttempts(rows', id) {
      assert AppliedCount(applied, id) <= SettledAttempts(o.rows, id);
    }
    assert RowsOk(rows', max);
    assert SidsOk(rows', o.calls);
  }

  // Freshly inserted rows are distinct, stored as given, and claimable.
  lemma InsertedSnapshot(rows: Table, calls: seq<Call>, c: Creation)
    requires WellFormed(c)
    ensures Snapshot(Outbox(Inserted(rows, c.rows), calls), c.rows)
  {
    InsertedLookup(rows, c.rows);
    forall i | 0 <= i < |c.rows|
      ensures CanClaim(Outbox(Inserted(rows, c.rows), calls), c.rows[i].id) && Inserted(rows, c.rows)[c.rows[i].id] == c.rows[i]
    {
      assert FreshRow(c.rows[i], c.note, c.batch);
    }
  }

  lemma CreationGrows(w: World, c: Creation, cfg: Config)
    requires Enabled(w, Create(c), cfg)
    ensures Grown(w.rows, Inserted(w.rows, c.rows), c.note.id)
    ensures Snapshot(Outbox(Inserted(w.rows, c.rows), w.calls), c.rows)
  {
    var rows := Inserted(w.rows, c.rows);
    InsertedLookup(w.rows, c.rows);
    forall id | id in rows && id !in w.rows
      ensures rows[id].status.Queued? && rows[id].attempts == 0 && rows[id].sid == None && rows[id].id == id && rows[id].notificationId == c.note.id
    {
      var i :| 0 <= i < |c.rows| && c.rows[i].id == id;
      assert FreshRow(c.rows[i], c.note, c.batch);
    }
    forall id | id in w.rows ensures rows[id] == w.rows[id] {
      assert forall i :: 0 <= i < |c.rows| ==> c.rows[i].id != id;
    }
    InsertedSnapshot(w.rows, w.calls, c);
  }

  lemma GrownNotes(w: World, c: Creation, rows: Table)
    requires WellFormed(c) && c.note.id !in w.notes && NotesOk(w.rows, w.notes)
    requires Grown(w.rows, rows, c.note.id)
    requires c.rows[0].id in rows && rows[c.rows[0].id] == c.rows[0]
    ensures NotesOk(rows, w.notes[c.note.id := c.note])
  {
    var notes := w.notes[c.note.id := c.note];
    forall n | n in notes ensures exists id :: id in rows && rows[id].notificationId == n {
      if n == c.note.id {
        assert FreshRow(c.rows[0], c.note, c.batch);
        assert rows[c.rows[0].id].notificationId == n;
      } else {
        var id :| id in w.rows && w.rows[id].notificationId == n;
        assert rows[id].notificationId == n;
      }
    }
  }

  lemma {:induction false} DispatchedNotQueued(o: Outbox, rows: seq<Row>, b: Batch, answers: seq<Answer>, max: nat, i: nat)
    requires |answers| == |rows| && Snapshot(o, rows) && i < |rows|
    ensures var d := DispatchAll(o, rows, b, answers, max).box.rows; rows[i].id in d && !d[rows[i].id].status.Queued?
  {
    DispatchIsPointwise(o, rows, b, answers, max);
    assert DispatchedAt(DispatchAll(o, rows, b, answers, max), i, rows[i], b, answers[i], max);
  }

  lemma CreatedNoneQueued(w: World, c: Creation, cfg: Config)
    requires Enabled(w, Create(c), cfg) && NoneQueued(w.rows)
    requires CanInsert(w.rows, c.rows)
    ensures NoneQueued(Step(w, Create(c), cfg).rows)
  {
    var o := Outbox(Inserted(w.rows, c.rows), w.calls);
    CreationGrows(w, c, cfg);
    var rows := Step(w, Create(c), cfg).rows;
    DispatchAllIdentities(o, c.rows, c.batch, c.answers, cfg.max);
    forall id | id in rows ensures !rows[id].status.Queued? {
      if i :| 0 <= i < |c.rows| && c.rows[i].id == id {
        DispatchedNotQueued(o, c.rows, c.batch, c.answers, cfg.max, i);
      } else {
        DispatchFrame(o, c.rows, c.batch, c.answers, cfg.max, id);
        InsertedLookup(w.rows, c.rows);
        assert id in o.rows && id in w.rows && rows[id] == w.rows[id];
      }
    }
  }

  /** Creating rows never touches the rows already there. */
  lemma CreateFrame(w: World, c: Creation, cfg: Config, id: Id)
    requires Enabled(w, Create(c), cfg) && id in w.rows
    ensures id in Step(w, Create(c), cfg).rows && Step(w, Create(c), cfg).rows[id] == w.rows[id]
  {
    if CanInsert(w.rows, c.rows) {
      CreationGrows(w, c, cfg);
      DispatchFrame(Outbox(Inserted(w.rows, c.rows), w.calls), c.rows, c.batch, c.answers, cfg.max, id);
    }
  }

  lemma CreateKeepsBox(w: World, c: Creation, cfg: Config)
    requires BoxOk(Outbox(w.rows, w.calls), w.applied, cfg.max) && Enabled(w, Create(c), cfg)
    requires CanInsert(w.rows, c.rows)
    ensures BoxOk(Outbox(Step(w, Create(c), cfg).rows, Step(w, Create(c), cfg).calls), w.applied, cfg.max)
  {
    var o := Outbox(Inserted(w.rows, c.rows), w.calls);
    CreationGrows(w, c, cfg);
    GrownKeeps(Outbox(w.rows, w.calls), o.rows, c.note.id, w.applied, cfg.max);
    CreationVars(c);
    DispatchAllKeeps(o, c.rows, c.batch, c.answers, cfg.max, w.applied);
  }

  lemma CreationVars(c: Creation)
    requires WellFormed(c)
    ensures VarsMatch(c.rows, c.batch)
  {
    forall i | 0 <= i < |c.rows| && Reaches(c.rows[i], c.batch) ensures c.batch.varsFor[c.rows[i].recipient] == c.rows[i].vars {
      assert FreshRow(c.rows[i], c.note, c.batch);
    }
  }

  lemma CreateKeepsTables(w: World, c: Creation, cfg: Config)
    requires NotesOk(w.rows, w.notes) && Enabled(w, Create(c), cfg)
    requires CanInsert(w.rows, c.rows)
    ensures Unique(Step(w, Create(c), cfg).rows)
    ensures NotesOk(Step(w, Create(c), cfg).rows, Step(w, Create(c), cfg).notes)
  {
    var o := Outbox(Inserted(w.rows, c.rows), w.calls);
    CreationGrows(w, c, cfg);
    assert CanClaim(o, c.rows[0].id) && o.rows[c.rows[0].id] == c.rows[0];
    GrownNotes(w, c, o.rows);
    DispatchAllIdentities(o, c.rows, c.batch, c.answers, cfg.max);
    SameIdentitiesKeep(o.rows, Step(w, Create(c), cfg).rows, w.notes[c.note.id := c.note]);
  }

  lemma CreateKeeps(w: World, c: Creation, cfg: Config)
    requires Inv(w, cfg) && Enabled(w, Create(c), cfg)
    ensures Inv(Step(w, Create(c), cfg), cfg)
  {
    if CanInsert(w.rows, c.rows) {
      CreateKeepsBox(w, c, cfg);
      CreateKeepsTables(w, c, cfg);
      CreatedNoneQueued(w, c, cfg);
      CreateKeepsPending(w, c, cfg);
    }
  }

  lemma CreateKeepsPending(w: World, c: Creation, cfg: Config)
    requires PendingOk(w, cfg) && Enabled(w, Create(c), cfg)
    ensures PendingOk(Step(w, Create(c), cfg), cfg)
  {
    forall i | 0 <= i < |w.pending|
      ensures w.pending[i].id in Step(w, Create(c), cfg).rows && Step(w, Create(c), cfg).rows[w.pending[i].id] == w.pending[i]
    {
      CreateFrame(w, c, cfg, w.pending[i].id);
    }
  }

  /* ---------- retry of one row ---------- */

  lemma SingleDispatch(o: Outbox, row: Row, b: Batch, a: Answer, max: nat)
    ensures DispatchAll(o, [row], b, [a], max) == DispatchRow(Dispatched(o, []), row, b, a, max)
  {
    assert [row][..0] == [] && [a][..0] == [];
  }

  lemma RetryEffect(w: World, t: Turn, cfg: Config)
    requires PendingOk(w, cfg) && w.pending != []
    ensures var row, b := w.pending[0], RetryBatch(w.pending[0], t.lookup);
            && Snapshot(Outbox(w.rows, w.calls), [row]) && VarsMatch([row], b)
            && Step(w, RetryNext(Some(t)), cfg).rows == w.rows[row.id := Recorded(row, row, b, t.answer, cfg.max)]
  {
    var row, b := w.pending[0], RetryBatch(w.pending[0], t.lookup);
    var o := Outbox(w.rows, w.calls);
    assert CanClaim(o, row.id) && o.rows[row.id] == row;
    SingleDispatch(o, row, b, t.answer, cfg.max);
  }

  lemma RetryKeepsPending(w: World, t: Turn, cfg: Config)
    requires PendingOk(w, cfg)
    ensures PendingOk(Step(w, RetryNext(Some(t)), cfg), cfg)
  {
    if w.pending != [] { RetryEffect(w, t, cfg); }
  }

  lemma RetryKeepsBox(w: World, t: Turn, cfg: Config)
    requires BoxOk(Outbox(w.rows, w.calls), w.applied, cfg.max) && PendingOk(w, cfg) && w.pending != []
    requires Enabled(w, RetryNext(Some(t)), cfg)
    ensures var w' := Step(w, RetryNext(Some(t)), cfg); BoxOk(Outbox(w'.rows, w'.calls), w'.applied, cfg.max)
  {
    RetryEffect(w, t, cfg);
    DispatchAllKeeps(Outbox(w.rows, w.calls), [w.pending[0]], RetryBatch(w.pending[0], t.lookup), [t.answer], cfg.max, w.applied);
  }

  lemma RetryKeepsNoneQueued(w: World, t: Turn, cfg: Config)
    requires NoneQueued(w.rows) && PendingOk(w, cfg)
    ensures NoneQueued(Step(w, RetryNext(Some(t)), cfg).rows)
  {
    if w.pending != [] { RetryEffect(w, t, cfg); }
  }

  lemma RetryKeepsTables(w: World, t: Turn, cfg: Config)
    requires Unique(w.rows) && NotesOk(w.rows, w.notes)
    ensures var w' := Step(w, RetryNext(Some(t)), cfg); Unique(w'.rows) && NotesOk(w'.rows, w'.notes)
  {
    if w.pending != [] {
      DispatchAllIdentities(Outbox(w.rows, w.calls), [w.pending[0]], RetryBatch(w.pending[0], t.lookup), [t.answer], cfg.max);
      SameIdentitiesKeep(w.rows, Step(w, RetryNext(Some(t)), cfg).rows, w.notes);
    }
  }

  lemma RetryKeeps(w: World, turn: Option<Turn>, cfg: Config)
    requires Inv(w, cfg) && Enabled(w, RetryNext(turn), cfg)
    ensures Inv(Step(w, RetryNext(turn), cfg), cfg)
  {
    if w.pending != [] && turn.Some? {
      RetryKeepsBox(w, turn.value, cfg);
      RetryKeepsTables(w, turn.value, cfg);
      RetryKeepsNoneQueued(w, turn.value, cfg);
      RetryKeepsPending(w, turn.value, cfg);
    }
  }

  /* ---------- callbacks ---------- */

  /** A callback is applied only to a row that is still Sending and carries its SID. */
  lemma AppliedToSending(w: World, sid: Sid, outcome: WebhookOutcome, cfg: Config)
    requires RowsOk(w.rows, cfg.max)
    requires CallbackResult(w.rows, sid, outcome, cfg).Applied?
    ensures var id := HolderOf(w.rows, sid).value;
            && id in w.rows && w.rows[id].sid == Some(sid) && w.rows[id].status.Sending?
            && RowOk(w.rows[id], cfg.max) && !Candidate(w.rows[id], outcome, cfg.max).Sending?
  {}

  lemma CallbackKeepsApplied(w: World, sid: Sid, outcome: WebhookOutcome, reason: Option<string>, at: int, cfg: Config)
    requires RowsOk(w.rows, cfg.max) && SidsOk(w.rows, w.calls) && AppliedOk(w.rows, w.calls, w.applied)
    requires CallbackResult(w.rows, sid, outcome, cfg).Applied?
    ensures var w' := AfterCallback(w, sid, outcome, reason, at, cfg); AppliedOk(w'.rows, w'.calls, w'.applied)
  {
    var w' := AfterCallback(w, sid, outcome, reason, at, cfg);
    AppliedToSending(w, sid, outcome, cfg);
    var id0 := HolderOf(w.rows, sid).value;
    assert w'.applied[..|w.applied|] == w.applied;
    forall id ensures AppliedCount(w'.applied, id) <= SettledAttempts(w'.rows, id) {
      assert AppliedCount(w.applied, id) <= SettledAttempts(w.rows, id);
    }
    forall i, id | 0 <= i < |w'.applied| && id in w'.rows && w'.rows[id].status.Sending?
      ensures w'.rows[id].sid != Some(w'.applied[i].sid)
    {
      assert id != id0 && w'.rows[id] == w.rows[id];
      if i < |w.applied| { assert w'.applied[i] == w.applied[i]; }
    }
    forall i, j | 0 <= i < j < |w'.applied| ensures w'.applied[i].sid != w'.applied[j].sid {
      assert w'.applied[i] == w.applied[i];
      if j == |w.applied| { assert w.rows[id0].sid != Some(w.applied[i].sid); }
    }
  }

  lemma CallbackKeepsIdentities(w: World, sid: Sid, outcome: WebhookOutcome, reason: Option<string>, at: int, cfg: Config)
    ensures var w' := AfterCallback(w, sid, outcome, reason, at, cfg);
            SameIdentities(w.rows, w'.rows) && w'.calls == w.calls && forall id :: AttemptsOf(w'.rows, id) == AttemptsOf(w.rows, id)
  {}

  lemma CallbackKeepsCalls(w: World, sid: Sid, outcome: WebhookOutcome, reason: Option<string>, at: int, cfg: Config)
    requires CallsOk(w.rows, w.calls)
    ensures CallsOk(AfterCallback(w, sid, outcome, reason, at, cfg).rows, w.calls)
  {
    var w' := AfterCallback(w, sid, outcome, reason, at, cfg);
    CallbackKeepsIdentities(w, sid, outcome, reason, at, cfg);
    forall id ensures CallCount(w.calls, id) <= AttemptsOf(w'.rows, id) {
      assert CallCount(w.calls, id) <= AttemptsOf(w.rows, id);
    }
    forall i | 0 <= i < |w.calls|
      ensures w.calls[i].delivery in w'.rows && w.calls[i].vars == w'.rows[w.calls[i].delivery].vars
    {
      assert SameIdentity(w.rows[w.calls[i].delivery], w'.rows[w.calls[i].delivery]);
    }
  }

  lemma CallbackKeepsBox(w: World, sid: Sid, outcome: WebhookOutcome, reason: Option<string>, at: int, cfg: Config)
    requires RowsOk(w.rows, cfg.max) && SidsOk(w.rows, w.calls)
    ensures var w' := AfterCallback(w, sid, outcome, reason, at, cfg);
            RowsOk(w'.rows, cfg.max) && SidsOk(w'.rows, w'.calls) && (NoneQueued(w.rows) ==> NoneQueued(w'.rows))
  {
    if CallbackResult(w.rows, sid, outcome, cfg).Applied? { AppliedToSending(w, sid, outcome, cfg); }
  }

  lemma CallbackKeepsPending(w: World, sid: Sid, outcome: WebhookOutcome, reason: Option<string>, at: int, cfg: Config)
    requires RowsOk(w.rows, cfg.max) && PendingOk(w, cfg)
    ensures PendingOk(AfterCallback(w, sid, outcome, reason, at, cfg), cfg)
  {
    if CallbackResult(w.rows, sid, outcome, cfg).Applied? { AppliedToSending(w, sid, outcome, cfg); }
  }

  lemma CallbackKeeps(w: World, sid: Sid, outcome: WebhookOutcome, reason: Option<string>, at: int, cfg: Config)
    requires Inv(w, cfg)
    ensures Inv(AfterCallback(w, sid, outcome, reason, at, cfg), cfg)
  {
    CallbackKeepsBox(w, sid, outcome, reason, at, cfg);
    CallbackKeepsCalls(w, sid, outcome, reason, at, cfg);
    CallbackKeepsIdentities(w, sid, outcome, reason, at, cfg);
    CallbackKeepsPending(w, sid, outcome, reason, at, cfg);
    SameIdentitiesKeep(w.rows, AfterCallback(w, sid, outcome, reason, at, cfg).rows, w.notes);
    if CallbackResult(w.rows, sid, outcome, cfg).Applied? {
      CallbackKeepsApplied(w, sid, outcome, reason, at, cfg);
    }
  }

  /* ---------- every run ---------- */

  lemma StepKeeps(w: World, e: Event, cfg: Config)
    requires Inv(w, cfg) && Enabled(w, e, cfg)
    ensures Inv(Step(w, e, cfg), cfg)
  {
    match e
    case Create(c) => CreateKeeps(w, c, cfg);
    case ListEligible(now, listed) =>
    case RetryNext(turn) => RetryKeeps(w, turn, cfg);
    case Callback(sid, outcome, reason, at) => CallbackKeeps(w, sid, outcome, reason, at, cfg);
  }

  /** Every state of every run satisfies the protocol invariant. */
  lemma {:induction false} RunKeeps(w: World, es: seq<Event>, cfg: Config)
    requires Inv(w, cfg) && EnabledRun(w, es, cfg)
    ensures Inv(Run(w, es, cfg), cfg)
    decreases |es|
  {
    if es != [] {
      StepKeeps(w, es[0], cfg);
      RunKeeps(Step(w, es[0], cfg), es[1..], cfg);
    }
  }

  lemma StartOk(cfg: Config)
    ensures Inv(START, cfg)
  {}
}

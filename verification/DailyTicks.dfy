/** Daily-report ticks of any number of schedulers, interleaved statement by statement: the
    already-dispatched check, the transaction-scoped try-lock, the insert under the partial
    unique index, the sends and the commit (scheduler/main.py, domain/scheduled_notifications.py). */
module DailyTicks {
  import opened Prelude

  // Where one tick's transaction is. Its Notification carries the tick's own id.
  datatype Phase =
    | Checked(day: int)
    | Locked(day: int)
    | Sending(day: int, recipients: seq<Id>, sent: nat)
    | Done(committed: bool)

  datatype Row = Row(recipient: Id, day: int, note: Id)

  datatype Call = Call(tick: Id, recipient: Id, day: int)

  datatype World = World(
    ticks: map<Id, Phase>, lock: Option<Id>,
    rows: seq<Row>, notes: set<Id>,   // committed scheduled rows and Notifications
    calls: seq<Call>)                 // first provider calls, as they are made

  datatype Event =
    | Check(tick: Id, day: int)
    | TryLock(tick: Id)
    | Skip(tick: Id)                              // nobody to send to, or no usable template
    | Insert(tick: Id, recipients: seq<Id>)
    | Send(tick: Id, known: bool)                 // known: the recipient was still found
    | Commit(tick: Id)

  const START := World(map[], None, [], {}, [])

  predicate Scheduled(rows: seq<Row>, recipient: Id, day: int) {
    exists i :: 0 <= i < |rows| && rows[i].recipient == recipient && rows[i].day == day
  }

  predicate Dispatched(rows: seq<Row>, day: int) {
    exists i :: 0 <= i < |rows| && rows[i].day == day
  }

  // What the code lets a tick do next; the insert blocks on another transaction's
  // uncommitted conflicting rows, and resolve hands it distinct recipients.
  ghost predicate Enabled(w: World, e: Event) {
    match e
    case Check(t, _) => t !in w.ticks
    case TryLock(t) => t in w.ticks && w.ticks[t].Checked?
    case Skip(t) => t in w.ticks && w.ticks[t].Locked?
    case Insert(t, recipients) =>
      && t in w.ticks && w.ticks[t].Locked? && Distinct(recipients) && recipients != []
      && (forall o :: o in w.ticks && o != t && w.ticks[o].Sending? && w.ticks[o].day == w.ticks[t].day ==>
            forall r :: r in recipients ==> r !in w.ticks[o].recipients)
    case Send(t, _) => t in w.ticks && w.ticks[t].Sending? && w.ticks[t].sent < |w.ticks[t].recipients|
    case Commit(t) => t in w.ticks && w.ticks[t].Sending? && w.ticks[t].sent == |w.ticks[t].recipients|
  }

  function RowsOf(tick: Id, day: int, recipients: seq<Id>): seq<Row> {
    seq(|recipients|, i requires 0 <= i < |recipients| => Row(recipients[i], day, tick))
  }

  function Step(w: World, e: Event): World
    requires Enabled(w, e)
  {
    match e
    case Check(t, day) =>
      w.(ticks := w.ticks[t := if Dispatched(w.rows, day) then Done(false) else Checked(day)])
    case TryLock(t) =>
      if w.lock.None? then w.(ticks := w.ticks[t := Locked(w.ticks[t].day)], lock := Some(t))
      else w.(ticks := w.ticks[t := Done(false)])
    case Skip(t) => w.(ticks := w.ticks[t := Done(false)], lock := None)
    case Insert(t, recipients) =>
      var day := w.ticks[t].day;
      if exists r :: r in recipients && Scheduled(w.rows, r, day)
      then w.(ticks := w.ticks[t := Done(false)], lock := None)   // rolled back
      else w.(ticks := w.ticks[t := Sending(day, recipients, 0)])
    case Send(t, known) =>
      var s := w.ticks[t];
      w.(ticks := w.ticks[t := s.(sent := s.sent + 1)],
         calls := if known then w.calls + [Call(t, s.recipients[s.sent], s.day)] else w.calls)
    case Commit(t) =>
      var s := w.ticks[t];
      w.(ticks := w.ticks[t := Done(true)], lock := None, notes := w.notes + {t}, rows := w.rows + RowsOf(t, s.day, s.recipients))
  }

  ghost predicate EnabledRun(w: World, es: seq<Event>)
    decreases |es|
  {
    es == [] || (Enabled(w, es[0]) && EnabledRun(Step(w, es[0]), es[1..]))
  }

  ghost function Run(w: World, es: seq<Event>): World
    requires EnabledRun(w, es)
    decreases |es|
  {
    if es == [] then w else Run(Step(w, es[0]), es[1..])
  }

  /* ---------- the invariant ---------- */

  ghost predicate LockOk(w: World) {
    && (forall t :: t in w.ticks && (w.ticks[t].Locked? || w.ticks[t].Sending?) ==> w.lock == Some(t))
    && (w.lock.Some? ==> w.lock.value in w.ticks && (w.ticks[w.lock.value].Locked? || w.ticks[w.lock.value].Sending?))
  }

  ghost predicate OneRowEach(rows: seq<Row>) {
    forall i, j :: 0 <= i < j < |rows| ==> rows[i].recipient != rows[j].recipient || rows[i].day != rows[j].day
  }

  ghost predicate SendingOk(w: World) {
    forall t :: t in w.ticks && w.ticks[t].Sending? ==>
                  && Distinct(w.ticks[t].recipients) && w.ticks[t].recipients != [] && w.ticks[t].sent <= |w.ticks[t].recipients|
                  && forall k :: 0 <= k < |w.ticks[t].recipients| ==> !Scheduled(w.rows, w.ticks[t].recipients[k], w.ticks[t].day)
  }

  // A call belongs to a committed row, or to a row its tick has yet to commit.
  ghost predicate CallOwned(w: World, c: Call) {
    && c.tick in w.ticks
    && match w.ticks[c.tick]
       case Sending(day, recipients, sent) =>
         day == c.day && exists k :: 0 <= k < sent && k < |recipients| && recipients[k] == c.recipient
       case Done(committed) => committed && Scheduled(w.rows, c.recipient, c.day)
       case _ => false
  }

  ghost predicate CallsOwned(w: World) {
    forall i :: 0 <= i < |w.calls| ==> CallOwned(w, w.calls[i])
  }

  ghost predicate OneCallEach(calls: seq<Call>) {
    forall i, j :: 0 <= i < j < |calls| ==> calls[i].recipient != calls[j].recipient || calls[i].day != calls[j].day
  }

  ghost predicate NotesOk(w: World) {
    && (forall n :: n in w.notes <==> n in w.ticks && w.ticks[n] == Done(true))
    && (forall n :: n in w.notes ==> exists i :: 0 <= i < |w.rows| && w.rows[i].note == n)
    && (forall i :: 0 <= i < |w.rows| ==> w.rows[i].note in w.notes)
  }

  ghost predicate Inv(w: World) {
    LockOk(w) && OneRowEach(w.rows) && SendingOk(w) && CallsOwned(w) && OneCallEach(w.calls) && NotesOk(w)
  }

  /* ---------- the steps keep it ---------- */

  lemma ScheduledAfterCommit(w: World, t: Id)
    requires Enabled(w, Commit(t))
    ensures var w' := Step(w, Commit(t));
            && (forall r, d :: Scheduled(w.rows, r, d) ==> Scheduled(w'.rows, r, d))
            && (forall k :: 0 <= k < |w.ticks[t].recipients| ==> Scheduled(w'.rows, w.ticks[t].recipients[k], w.ticks[t].day))
  {
    var w', s, n := Step(w, Commit(t)), w.ticks[t], |w.rows|;
    forall k | 0 <= k < |s.recipients| ensures Scheduled(w'.rows, s.recipients[k], s.day) {
      assert w'.rows[n + k] == Row(s.recipients[k], s.day, t);
    }
    forall r, d | Scheduled(w.rows, r, d) ensures Scheduled(w'.rows, r, d) {
      var i :| 0 <= i < n && w.rows[i].recipient == r && w.rows[i].day == d;
      assert w'.rows[i] == w.rows[i];
    }
  }

  lemma OneRowAfterCommit(w: World, t: Id)
    requires Enabled(w, Commit(t)) && SendingOk(w) && OneRowEach(w.rows)
    ensures OneRowEach(Step(w, Commit(t)).rows)
  {
    var w', s, n := Step(w, Commit(t)), w.ticks[t], |w.rows|;
    forall i, j | 0 <= i < j < |w'.rows|
      ensures w'.rows[i].recipient != w'.rows[j].recipient || w'.rows[i].day != w'.rows[j].day
    {
      if n <= j {
        assert !Scheduled(w.rows, s.recipients[j - n], s.day);
        assert w'.rows[j] == Row(s.recipients[j - n], s.day, t);
        if n <= i { assert w'.rows[i] == Row(s.recipients[i - n], s.day, t); }
      }
    }
  }

  lemma CommitKeeps(w: World, t: Id)
    requires Inv(w) && Enabled(w, Commit(t))
    ensures Inv(Step(w, Commit(t)))
  {
    var w', s := Step(w, Commit(t)), w.ticks[t];
    ScheduledAfterCommit(w, t);
    OneRowAfterCommit(w, t);
    forall i | 0 <= i < |w'.calls| ensures CallOwned(w', w'.calls[i]) { assert CallOwned(w, w.calls[i]); }
    forall n | n in w'.notes ensures exists i :: 0 <= i < |w'.rows| && w'.rows[i].note == n {
      if n == t {
        assert w'.rows[|w.rows|].note == t;
      } else {
        var i :| 0 <= i < |w.rows| && w.rows[i].note == n;
        assert w'.rows[i].note == n;
      }
    }
  }

  lemma InsertKeeps(w: World, t: Id, recipients: seq<Id>)
    requires Inv(w) && Enabled(w, Insert(t, recipients))
    ensures Inv(Step(w, Insert(t, recipients)))
  {
    var w' := Step(w, Insert(t, recipients));
    forall i | 0 <= i < |w'.calls| ensures CallOwned(w', w'.calls[i]) { assert CallOwned(w, w.calls[i]); }
  }

  lemma SendKeeps(w: World, t: Id, known: bool)
    requires Inv(w) && Enabled(w, Send(t, known))
    ensures Inv(Step(w, Send(t, known)))
  {
    var w', s, n := Step(w, Send(t, known)), w.ticks[t], |w.calls|;
    forall i | 0 <= i < |w'.calls| ensures CallOwned(w', w'.calls[i]) {
      if i < n {
        assert CallOwned(w, w.calls[i]);
      } else {
        assert s.recipients[s.sent] == w'.calls[i].recipient;
      }
    }
    forall i, j | 0 <= i < j < |w'.calls|
      ensures w'.calls[i].recipient != w'.calls[j].recipient || w'.calls[i].day != w'.calls[j].day
    {
      if j == n {
        assert CallOwned(w, w.calls[i]) && !Scheduled(w.rows, s.recipients[s.sent], s.day);
      }
    }
  }

  lemma QuietKeeps(w: World, e: Event)
    requires Inv(w) && Enabled(w, e) && (e.Check? || e.TryLock? || e.Skip?)
    ensures Inv(Step(w, e))
  {
    var w' := Step(w, e);
    forall i | 0 <= i < |w'.calls| ensures CallOwned(w', w'.calls[i]) { assert CallOwned(w, w.calls[i]); }
  }

  lemma StepKeeps(w: World, e: Event)
    requires Inv(w) && Enabled(w, e)
    ensures Inv(Step(w, e))
  {
    match e
    case Insert(t, recipients) => InsertKeeps(w, t, recipients);
    case Send(t, known) => SendKeeps(w, t, known);
    case Commit(t) => CommitKeeps(w, t);
    case _ => QuietKeeps(w, e);
  }

  lemma {:induction false} RunKeeps(w: World, es: seq<Event>)
    requires Inv(w) && EnabledRun(w, es)
    ensures Inv(Run(w, es))
    decreases |es|
  {
    if es != [] {
      StepKeeps(w, es[0]);
      RunKeeps(Step(w, es[0]), es[1..]);
    }
  }

  /* ---------- what every interleaving satisfies ---------- */

  /** However the ticks interleave, each recipient gets at most one scheduled row and at most
      one first provider call per operational day, and every committed Notification has a row. */
  lemma OneReportEach(es: seq<Event>)
    requires EnabledRun(START, es)
    ensures var w := Run(START, es);
            && OneRowEach(w.rows) && OneCallEach(w.calls)
            && (forall n :: n in w.notes ==> exists i :: 0 <= i < |w.rows| && w.rows[i].note == n)
  {
    RunKeeps(START, es);
  }

  /** A tick that was turned away, whether by the check, the lock or the unique index, made no
      provider call and left neither a Notification nor a row; one that committed left both. */
  lemma RejectedTicksLeaveNothing(es: seq<Event>, tick: Id)
    requires EnabledRun(START, es) && tick in Run(START, es).ticks && Run(START, es).ticks[tick].Done?
    ensures var w := Run(START, es); var committed := w.ticks[tick].committed;
            && (committed <==> tick in w.notes)
            && (committed <==> exists i :: 0 <= i < |w.rows| && w.rows[i].note == tick)
            && (!committed ==> forall i :: 0 <= i < |w.calls| ==> w.calls[i].tick != tick)
  {
    RunKeeps(START, es);
    var w := Run(START, es);
    forall i | 0 <= i < |w.calls| && w.calls[i].tick == tick ensures w.ticks[tick].committed {
      assert CallOwned(w, w.calls[i]);
    }
  }

  /** The lock makes the insert the only uncommitted one, so it never waits for another tick. */
  lemma InsertNeverBlocks(es: seq<Event>, t: Id, o: Id)
    requires EnabledRun(START, es)
    requires t in Run(START, es).ticks && Run(START, es).ticks[t].Locked?
    requires o in Run(START, es).ticks && o != t
    ensures !Run(START, es).ticks[o].Sending? && !Run(START, es).ticks[o].Locked?
  {
    RunKeeps(START, es);
  }

  /* ---------- when a further tick of the same day commits ---------- */

  ghost predicate CanCommit(w: World, t: Id) {
    exists es :: EnabledRun(w, es) && t in Run(w, es).ticks && Run(w, es).ticks[t] == Done(true)
  }

  lemma {:induction false} DoneStays(w: World, es: seq<Event>, t: Id)
    requires EnabledRun(w, es) && t in w.ticks && w.ticks[t].Done?
    ensures t in Run(w, es).ticks && Run(w, es).ticks[t] == w.ticks[t]
    decreases |es|
  {
    if es != [] { DoneStays(Step(w, es[0]), es[1..], t); }
  }

  lemma OneMore(w: World, e: Event, es: seq<Event>)
    requires Enabled(w, e) && EnabledRun(Step(w, e), es)
    ensures EnabledRun(w, [e] + es) && Run(w, [e] + es) == Run(Step(w, e), es)
  {
    assert ([e] + es)[1..] == es;
  }

  /** A send asks the provider for the next recipient of the tick, if that recipient was found, and
      for nobody otherwise. */
  lemma SendMeaning(w: World, t: Id, known: bool)
    requires Enabled(w, Send(t, known))
    ensures var s, w' := w.ticks[t], Step(w, Send(t, known));
            && w'.calls == w.calls + (if known then [Call(t, s.recipients[s.sent], s.day)] else [])
            && w'.ticks == w.ticks[t := Sending(s.day, s.recipients, s.sent + 1)] && w'.rows == w.rows && w'.notes == w.notes
  {}

  /** The check turns away every tick that comes after a report of the day was committed, for good. */
  lemma CheckedTooLate(w: World, t: Id, day: int, es: seq<Event>)
    requires t !in w.ticks && EnabledRun(Step(w, Check(t, day)), es)
    ensures (exists i :: 0 <= i < |w.rows| && w.rows[i].day == day) ==>
              t in Run(Step(w, Check(t, day)), es).ticks && Run(Step(w, Check(t, day)), es).ticks[t] == Done(false)
    ensures (forall i :: 0 <= i < |w.rows| ==> w.rows[i].day != day) ==> Step(w, Check(t, day)).ticks[t] == Checked(day)
  {
    if exists i :: 0 <= i < |w.rows| && w.rows[i].day == day { DoneStays(Step(w, Check(t, day)), es, t); }
  }

  // Left to itself, a tick that has inserted its rows sends to each recipient and commits.
  lemma {:induction false} FinishesSending(w: World, t: Id) returns (es: seq<Event>)
    requires t in w.ticks && w.ticks[t].Sending? && w.ticks[t].sent <= |w.ticks[t].recipients|
    ensures EnabledRun(w, es)
    ensures var w', s := Run(w, es), w.ticks[t];
            && w' == World(w.ticks[t := Done(true)], None, w.rows + RowsOf(t, s.day, s.recipients), w.notes + {t}, w'.calls)
            && w'.calls == w.calls + seq(|s.recipients| - s.sent, k requires 0 <= k < |s.recipients| - s.sent => Call(t, s.recipients[s.sent + k], s.day))
    decreases |w.ticks[t].recipients| - w.ticks[t].sent
  {
    var e := if w.ticks[t].sent < |w.ticks[t].recipients| then Send(t, true) else Commit(t);
    var w1 := Step(w, e);
    if e.Send? {
      es := FinishesSending(w1, t);
      assert w1.ticks[t := Done(true)] == w.ticks[t := Done(true)];
    } else {
      es := [];
    }
    OneMore(w, e, es);
    es := [e] + es;
  }

  /** A tick that holds the lock commits its report exactly when none of its recipients has a
      row of that day yet; other reports of the day do not stop it. */
  lemma CommitsIffUnscheduled(w: World, t: Id, recipients: seq<Id>)
    requires Enabled(w, Insert(t, recipients))
    ensures CanCommit(Step(w, Insert(t, recipients)), t) <==>
            forall r :: r in recipients ==> !Scheduled(w.rows, r, w.ticks[t].day)
  {
    var w1 := Step(w, Insert(t, recipients));
    if w1.ticks[t].Sending? {
      var es := FinishesSending(w1, t);
      assert Run(w1, es).ticks[t] == Done(true);
    } else if CanCommit(w1, t) {
      var es :| EnabledRun(w1, es) && t in Run(w1, es).ticks && Run(w1, es).ticks[t] == Done(true);
      DoneStays(w1, es, t);
    }
  }

  // Tick t committed a report of the day to exactly these recipients.
  ghost predicate Reported(w: World, t: Id, day: int, recipients: seq<Id>) {
    t in w.notes && forall r :: Row(r, day, t) in w.rows <==> r in recipients
  }

  ghost predicate BothReport(es: seq<Event>, day: int, s: Id, a: seq<Id>, t: Id, b: seq<Id>) {
    EnabledRun(START, es) && Reported(Run(START, es), s, day, a) && Reported(Run(START, es), t, day, b)
  }

  lemma OneNotePerRow(rows: seq<Row>, r: Id, day: int, s: Id, t: Id)
    requires OneRowEach(rows)
    ensures Row(r, day, s) in rows && Row(r, day, t) in rows ==> s == t
  {
    if Row(r, day, s) in rows && Row(r, day, t) in rows {
      var i :| 0 <= i < |rows| && rows[i] == Row(r, day, s);
      var j :| 0 <= j < |rows| && rows[j] == Row(r, day, t);
    }
  }

  /** Since the check precedes the lock, two ticks can both report on one day: they can exactly
      when no recipient is among both. */
  lemma TwoReportsIffDisjoint(day: int, s: Id, a: seq<Id>, t: Id, b: seq<Id>)
    requires s != t && Distinct(a) && Distinct(b) && a != [] && b != []
    ensures (exists es :: BothReport(es, day, s, a, t, b)) <==> forall r :: r in a ==> r !in b
  {
    if es :| BothReport(es, day, s, a, t, b) {
      RunKeeps(START, es);
      var w := Run(START, es);
      forall r | r in a ensures r !in b {
        OneNotePerRow(w.rows, r, day, s, t);
      }
    }
    if forall r :: r in a ==> r !in b {
      var es := TwoReports(day, s, a, t, b);
    }
  }

  lemma {:induction false} RunConcat(w: World, es: seq<Event>, es': seq<Event>)
    requires EnabledRun(w, es) && EnabledRun(Run(w, es), es')
    ensures EnabledRun(w, es + es') && Run(w, es + es') == Run(Run(w, es), es')
    decreases |es|
  {
    if es == [] {
      assert es + es' == es';
    } else {
      assert (es + es')[0] == es[0] && (es + es')[1..] == es[1..] + es';
      RunConcat(Step(w, es[0]), es[1..], es');
    }
  }

  // A checked tick that finds the lock free and no row of its recipients reports.
  lemma Reports(w: World, t: Id, day: int, recipients: seq<Id>) returns (es: seq<Event>)
    requires t in w.ticks && w.ticks[t] == Checked(day) && w.lock.None? && Distinct(recipients) && recipients != []
    requires forall o :: o in w.ticks ==> !w.ticks[o].Sending?
    requires forall r :: r in recipients ==> !Scheduled(w.rows, r, day)
    ensures EnabledRun(w, es)
    ensures var w' := Run(w, es);
            w' == World(w.ticks[t := Done(true)], None, w.rows + RowsOf(t, day, recipients), w.notes + {t}, w'.calls)
  {
    var w1 := Step(w, TryLock(t));
    var w2 := Step(w1, Insert(t, recipients));
    es := FinishesSending(w2, t);
    assert w2.ticks[t := Done(true)] == w.ticks[t := Done(true)];
    OneMore(w1, Insert(t, recipients), es);
    es := [Insert(t, recipients)] + es;
    OneMore(w, TryLock(t), es);
    es := [TryLock(t)] + es;
  }

  lemma RowsOfMembers(t: Id, day: int, recipients: seq<Id>, row: Row)
    ensures row in RowsOf(t, day, recipients) <==> row.note == t && row.day == day && row.recipient in recipients
  {
    if row.note == t && row.day == day && row.recipient in recipients {
      var i :| 0 <= i < |recipients| && recipients[i] == row.recipient;
      assert RowsOf(t, day, recipients)[i] == row;
    }
  }

  lemma TwoReports(day: int, s: Id, a: seq<Id>, t: Id, b: seq<Id>) returns (es: seq<Event>)
    requires s != t && Distinct(a) && Distinct(b) && a != [] && b != [] && forall r :: r in a ==> r !in b
    ensures BothReport(es, day, s, a, t, b)
  {
    var w1 := Step(START, Check(s, day));
    var w2 := Step(w1, Check(t, day));
    var first := Reports(w2, s, day, a);
    var w3 := Run(w2, first);
    forall r | r in b ensures !Scheduled(w3.rows, r, day) {
      if i :| 0 <= i < |w3.rows| && w3.rows[i].recipient == r && w3.rows[i].day == day {
        RowsOfMembers(s, day, a, w3.rows[i]);
      }
    }
    var second := Reports(w3, t, day, b);
    RunConcat(w2, first, second);
    OneMore(w1, Check(t, day), first + second);
    OneMore(START, Check(s, day), [Check(t, day)] + (first + second));
    es := [Check(s, day)] + ([Check(t, day)] + (first + second));
    var w := Run(START, es);
    assert w.rows == RowsOf(s, day, a) + RowsOf(t, day, b);
    forall r ensures (Row(r, day, s) in w.rows <==> r in a) && (Row(r, day, t) in w.rows <==> r in b) {
      RowsOfMembers(s, day, a, Row(r, day, s));
      RowsOfMembers(t, day, b, Row(r, day, s));
      RowsOfMembers(s, day, a, Row(r, day, t));
      RowsOfMembers(t, day, b, Row(r, day, t));
    }
  }
}

/** The repository updates and the four operations of the delivery protocol over updatable
    tables, each tied to the step of the state machine it performs
    (domain/notifications.py, adapters/persistence/notifications.py,
    domain/scheduled_notifications.py, scheduler/main.py). */
module DeliveryOperations {
  import opened Prelude
  import opened Deliveries
  import opened DeliveryRuns
  import opened ContentVariables
  import Directory
  import Strings
  import Recipients
  import opened DeliveryTheorems

  datatype Template = Template(id: Id, name: string, contentSid: string, slots: seq<string>)

  datatype ComposeError = TemplateNotFound | InvalidVariableValues | NoRecipientsSelected

  datatype ReportOutcome = Succeeded | Skipped

  // What happens around one listed row's turn: the transactions that commit before it, the
  // users its lookup finds, and whether the turn raises.
  datatype JobTurn = JobTurn(before: seq<Event>, users: map<Id, Directory.User>, fails: bool, answer: Answer)

  datatype TargetType = UserTarget | TeamTarget | ListTarget

  // A raw picker selection.
  datatype Target = Target(note: Id, kind: TargetType, target: Id)

  // The notification.sent audit entry.
  datatype Sent = Sent(actor: Id, note: Id, templateId: Id, recipients: nat)

  datatype Records = Records(targets: seq<Target>, audit: seq<Sent>)

  function TargetsOf(note: Id, kind: TargetType, ids: seq<Id>): seq<Target> {
    seq(|ids|, i requires 0 <= i < |ids| => Target(note, kind, ids[i]))
  }

  function SelectionTargets(note: Id, userIds: seq<Id>, teamIds: seq<Id>, listIds: seq<Id>): seq<Target> {
    TargetsOf(note, UserTarget, userIds) + TargetsOf(note, TeamTarget, teamIds) + TargetsOf(note, ListTarget, listIds)
  }

  const KNOWN_SLOTS: set<string> :=
    {"ytd_sales", "mtd_sales", "achievement_pct", "growth_pct", "team_performance", "top_brand", "focus_brand", "top_doctors"}

  const UNASSIGNED := "Unassigned"

  /* ---------- building the rows ---------- */

  function ManualRows(note: Notification, recipients: seq<Id>, ids: nat -> Id, vars: Vars, now: int): seq<Row> {
    seq(|recipients|, k requires 0 <= k < |recipients| =>
      Row(ids(k), note.id, Manual, recipients[k], None, Queued, 0, None, None, now, vars))
  }

  function DailyRows(note: Notification, recipients: seq<Id>, ids: nat -> Id, varsFor: map<Id, Vars>, day: int, now: int): seq<Row> {
    seq(|recipients|, k requires 0 <= k < |recipients| =>
      Row(ids(k), note.id, Scheduled, recipients[k], Some(day), Queued, 0, None, None, now,
          if recipients[k] in varsFor then varsFor[recipients[k]] else map[]))
  }

  // get_many_by_ids, as dispatch sees the users.
  function RecipientsById(users: map<Id, Directory.User>, ids: seq<Id>): map<Id, Recipient> {
    map u | u in ids && u in users :: Recipient(users[u].mobile)
  }

  ghost predicate FreshIds(ids: nat -> Id, rows: Table) {
    && (forall k: nat :: ids(k) !in rows)
    && (forall j: nat, k: nat :: j != k ==> ids(j) != ids(k))
  }

  function FirstAnswers(answers: nat -> Answer, n: nat): seq<Answer> {
    seq(n, k requires 0 <= k < n => answers(k))
  }

  ghost function ManualCreation(note: Notification, template: Template, values: map<string, string>, recipients: seq<Id>,
                                users: map<Id, Directory.User>, ids: nat -> Id, answers: nat -> Answer, now: int): Creation
    requires forall s :: s in template.slots ==> s in values
  {
    var vars := Positional(template.slots, values);
    Creation(note, ManualRows(note, recipients, ids, vars, now),
             Batch(template.contentSid, RecipientsById(users, recipients), map u | u in recipients :: vars),
             FirstAnswers(answers, |recipients|))
  }

  lemma ManualRowsUnique(rows: Table, added: seq<Row>, note: Id)
    requires Unique(rows) && forall id :: id in rows ==> rows[id].notificationId != note
    requires forall i, j :: 0 <= i < j < |added| ==> added[i].id != added[j].id && added[i].recipient != added[j].recipient
    requires forall i :: 0 <= i < |added| ==> added[i].kind.Manual? && added[i].notificationId == note
    ensures Unique(Inserted(rows, added))
  {
    var all := Inserted(rows, added);
    InsertedLookup(rows, added);
    forall i, j | i in all && j in all ensures !Conflict(all[i], all[j]) {
      if a :| 0 <= a < |added| && added[a].id == i {
        if b :| 0 <= b < |added| && added[b].id == j {
          assert all[i] == added[a] && all[j] == added[b];
        } else {
          assert all[j] == rows[j];
        }
      } else {
        assert all[i] == rows[i];
        if b :| 0 <= b < |added| && added[b].id == j {
          assert all[j] == added[b];
        } else {
          assert !Conflict(rows[i], rows[j]);
        }
      }
    }
  }

  lemma ManualCreationWellFormed(note: Notification, template: Template, values: map<string, string>, recipients: seq<Id>,
                                 users: map<Id, Directory.User>, ids: nat -> Id, answers: nat -> Answer, now: int)
    requires note.kind.Manual? && (forall j: nat, k: nat :: j != k ==> ids(j) != ids(k)) && recipients != []
    requires forall s :: s in template.slots ==> s in values
    ensures WellFormed(ManualCreation(note, template, values, recipients, users, ids, answers, now))
  {
    var c := ManualCreation(note, template, values, recipients, users, ids, answers, now);
    forall i | 0 <= i < |c.rows| ensures FreshRow(c.rows[i], note, c.batch) {
      assert c.rows[i].recipient == recipients[i];
    }
  }

  /** Composing for distinct recipients builds well-formed rows, and inserting them can never
      violate the unique indexes. */
  lemma ManualCreationInserts(w: World, note: Notification, template: Template, values: map<string, string>, recipients: seq<Id>,
                              users: map<Id, Directory.User>, ids: nat -> Id, answers: nat -> Answer, now: int)
    requires Unique(w.rows) && NotesOk(w.rows, w.notes)
    requires note.id !in w.notes && note.kind.Manual? && FreshIds(ids, w.rows)
    requires Distinct(recipients) && recipients != []
    requires forall s :: s in template.slots ==> s in values
    ensures var c := ManualCreation(note, template, values, recipients, users, ids, answers, now);
            WellFormed(c) && CanInsert(w.rows, c.rows)
  {
    var c := ManualCreation(note, template, values, recipients, users, ids, answers, now);
    ManualCreationWellFormed(note, template, values, recipients, users, ids, answers, now);
    ManualRowsUnique(w.rows, c.rows, note.id);
  }

  function TerritoryOf(users: map<Id, Directory.User>, teams: map<Id, Directory.Team>, u: Id): string
    requires u in users
  {
    if users[u].team.Some? && users[u].team.value in teams then teams[users[u].team.value].name else UNASSIGNED
  }

  function DailyValues(company: map<string, string>, section: string): map<string, string> {
    company["top_doctors" := section]
  }

  // The company-wide figures cover every known slot but the doctor list.
  predicate Complete(company: map<string, string>) {
    company.Keys == KNOWN_SLOTS - {"top_doctors"}
  }

  ghost function DailyVars(slots: seq<string>, company: map<string, string>, sectionOf: string -> string,
                           territories: map<Id, string>, recipients: seq<Id>): map<Id, Vars>
    requires Complete(company) && forall s :: s in slots ==> s in KNOWN_SLOTS
  {
    map u | u in recipients && u in territories :: Positional(slots, DailyValues(company, sectionOf(territories[u])))
  }

  ghost function TerritoriesAmong(territories: map<Id, string>, recipients: seq<Id>): set<string> {
    set u | u in recipients && u in territories :: territories[u]
  }

  lemma OneMoreTerritory(territories: map<Id, string>, recipients: seq<Id>, u: Id)
    ensures TerritoriesAmong(territories, recipients + [u]) ==
            TerritoriesAmong(territories, recipients) + (if u in territories then {territories[u]} else {})
  {
    var all := recipients + [u];
    assert forall v :: v in all <==> v in recipients || v == u;
  }

  lemma OneMoreRecipient(slots: seq<string>, company: map<string, string>, sectionOf: string -> string,
                         territories: map<Id, string>, recipients: seq<Id>, u: Id)
    requires Complete(company) && forall s :: s in slots ==> s in KNOWN_SLOTS
    ensures DailyVars(slots, company, sectionOf, territories, recipients + [u]) ==
            (if u in territories
             then DailyVars(slots, company, sectionOf, territories, recipients)[u := Positional(slots, DailyValues(company, sectionOf(territories[u])))]
             else DailyVars(slots, company, sectionOf, territories, recipients))
  {
    var all := recipients + [u];
    assert forall v :: v in all <==> v in recipients || v == u;
  }

  // Cached per territory: the doctor section is asked for once per distinct territory.
  method BuildDailyVariables(slots: seq<string>, company: map<string, string>, sectionOf: string -> string,
                             territories: map<Id, string>, recipients: seq<Id>)
    returns (varsFor: map<Id, Vars>, asked: seq<string>)
    requires Complete(company) && forall s :: s in slots ==> s in KNOWN_SLOTS
    ensures varsFor == DailyVars(slots, company, sectionOf, territories, recipients)
    ensures Distinct(asked) && forall t :: t in asked <==> t in TerritoriesAmong(territories, recipients)
  {
    varsFor, asked := map[], [];
    var sections: map<string, string> := map[];
    for i := 0 to |recipients|
      invariant varsFor == DailyVars(slots, company, sectionOf, territories, recipients[..i])
      invariant sections.Keys == TerritoriesAmong(territories, recipients[..i])
      invariant forall t :: t in asked <==> t in sections
      invariant forall t :: t in sections ==> sections[t] == sectionOf(t)
      invariant Distinct(asked)
    {
      var u := recipients[i];
      OneMoreRecipient(slots, company, sectionOf, territories, recipients[..i], u);
      OneMoreTerritory(territories, recipients[..i], u);
      assert recipients[..i + 1] == recipients[..i] + [u];
      if u in territories {
        var t := territories[u];
        if t !in sections {
          sections := sections[t := sectionOf(t)];
          asked := asked + [t];
        }
        varsFor := varsFor[u := Positional(slots, DailyValues(company, sections[t]))];
      }
    }
    assert recipients[..|recipients|] == recipients;
  }

  ghost function DailyCreation(note: Notification, template: Template, company: map<string, string>, sectionOf: string -> string,
                               recipients: seq<Id>, refetched: map<Id, Directory.User>, teams: map<Id, Directory.Team>,
                               ids: nat -> Id, answers: nat -> Answer, day: int, now: int): Creation
    requires Complete(company) && forall s :: s in template.slots ==> s in KNOWN_SLOTS
  {
    var byId := RecipientsById(refetched, recipients);
    var varsFor := DailyVars(template.slots, company, sectionOf, map u | u in byId :: TerritoryOf(refetched, teams, u), recipients);
    Creation(note, DailyRows(note, recipients, ids, varsFor, day, now), Batch(template.contentSid, byId, varsFor),
             FirstAnswers(answers, |recipients|))
  }

  /** The daily report builds well-formed rows, and a recipient has content variables exactly
      when the user was re-fetched, so no known recipient is sent to without them. */
  lemma DailyCreationWellFormed(note: Notification, template: Template, company: map<string, string>, sectionOf: string -> string,
                                recipients: seq<Id>, refetched: map<Id, Directory.User>, teams: map<Id, Directory.Team>,
                                ids: nat -> Id, answers: nat -> Answer, day: int, now: int)
    requires Complete(company) && forall s :: s in template.slots ==> s in KNOWN_SLOTS
    requires note.kind.Scheduled? && recipients != [] && forall j: nat, k: nat :: j != k ==> ids(j) != ids(k)
    ensures var c := DailyCreation(note, template, company, sectionOf, recipients, refetched, teams, ids, answers, day, now);
            && WellFormed(c)
            && c.batch.varsFor.Keys == c.batch.recipients.Keys
            && (forall u :: u in recipients ==> (u in c.batch.varsFor <==> u in refetched))
            && (forall i :: 0 <= i < |c.rows| ==> c.rows[i].kind.Scheduled? && c.rows[i].day == Some(day) && c.rows[i].recipient == recipients[i])
  {
    var c := DailyCreation(note, template, company, sectionOf, recipients, refetched, teams, ids, answers, day, now);
    forall i | 0 <= i < |c.rows| ensures FreshRow(c.rows[i], note, c.batch) {
      assert c.rows[i].recipient == recipients[i];
    }
  }

  /* ---------- what composing and reporting do, recipient by recipient ---------- */

  // The number, template and variables of the one request made for a delivery, if any.
  ghost predicate Asked(before: seq<Call>, after: seq<Call>, id: Id, request: Option<Call>) {
    CallsFor(after, id) == CallsFor(before, id) + (match request case Some(c) => [c] case None => [])
  }

  lemma OutcomesReport(w: World, c: Creation, cfg: Config, recipients: seq<Id>, ids: nat -> Id)
    requires WellFormed(c) && CanInsert(w.rows, c.rows)
    requires |recipients| == |c.rows| && forall k: nat :: k < |c.rows| ==> c.rows[k].id == ids(k) && c.rows[k].recipient == recipients[k]
    ensures OutcomesStored(DispatchAll(Outbox(Inserted(w.rows, c.rows), w.calls), c.rows, c.batch, c.answers, cfg.max).outcomes,
                           Step(w, Create(c), cfg).rows, recipients, ids)
  {
    DeliverySafety.InsertedSnapshot(w.rows, w.calls, c);
    DispatchMeaning(Outbox(Inserted(w.rows, c.rows), w.calls), c.rows, c.batch, c.answers, cfg.max);
  }

  // One recipient of a compose: the new row, as the answer leaves it, and the one request.
  ghost predicate Composed(w: World, w': World, id: Id, note: Id, recipient: Id, mobile: Option<string>, contentSid: string, vars: Vars,
                           a: Answer, now: int, cfg: Config) {
    && id in w'.rows
    && StoredAfter(Row(id, note, Manual, recipient, None, Queued, 0, None, None, now, vars), w'.rows[id], a.result, a.at, cfg.max)
    && Asked(w.calls, w'.calls, id, Some(Call(id, mobile, contentSid, vars, a.result)))
  }

  // All recipients of a compose, in order, and nobody else.
  ghost predicate ComposedAll(w: World, w': World, note: Notification, recipients: seq<Id>, users: map<Id, Directory.User>, contentSid: string, vars: Vars,
                              ids: nat -> Id, answers: nat -> Answer, now: int, cfg: Config) {
    && w'.notes == w.notes[note.id := note]
    && (forall id :: id in w'.rows <==> id in w.rows || OneOf(ids, |recipients|, id))
    && (forall id :: id in w.rows ==> w'.rows[id] == w.rows[id])
    && (forall k: nat :: k < |recipients| ==>
          && recipients[k] in users
          && Composed(w, w', ids(k), note.id, recipients[k], users[recipients[k]].mobile, contentSid, vars, answers(k), now, cfg))
    && (forall id :: !OneOf(ids, |recipients|, id) ==> CallsFor(w'.calls, id) == CallsFor(w.calls, id))
  }

  // One outcome per recipient, in order, and equal to what is stored.
  ghost predicate OutcomesStored(outcomes: seq<Outcome>, rows: Table, recipients: seq<Id>, ids: nat -> Id) {
    && |outcomes| == |recipients|
    && forall k: nat :: k < |recipients| ==> ids(k) in rows && outcomes[k] == Outcome(recipients[k], rows[ids(k)].status, rows[ids(k)].reason)
  }

  lemma ComposedOne(w: World, note: Notification, template: Template, values: map<string, string>, recipients: seq<Id>,
                    users: map<Id, Directory.User>, ids: nat -> Id, answers: nat -> Answer, now: int, cfg: Config, k: nat)
    requires k < |recipients| && recipients[k] in users && note.kind.Manual?
    requires forall s :: s in template.slots ==> s in values
    requires var c := ManualCreation(note, template, values, recipients, users, ids, answers, now);
             WellFormed(c) && Created(w, Step(w, Create(c), cfg), c.rows[k], c.batch, c.answers[k], cfg)
    ensures var c := ManualCreation(note, template, values, recipients, users, ids, answers, now);
            Composed(w, Step(w, Create(c), cfg), ids(k), note.id, recipients[k], users[recipients[k]].mobile, template.contentSid,
                     Positional(template.slots, values), answers(k), now, cfg)
  {
    var c := ManualCreation(note, template, values, recipients, users, ids, answers, now);
    assert c.rows[k] == Row(ids(k), note.id, Manual, recipients[k], None, Queued, 0, None, None, now, Positional(template.slots, values));
    assert recipients[k] in c.batch.recipients && recipients[k] in c.batch.varsFor && c.answers[k] == answers(k);
  }

  /** Composing for known, distinct recipients: each gets one row, one request to the user's number
      with the template and the composed variables, and whatever the answer calls for. */
  lemma ManualMeaning(w: World, note: Notification, template: Template, values: map<string, string>, recipients: seq<Id>,
                      users: map<Id, Directory.User>, ids: nat -> Id, answers: nat -> Answer, now: int, cfg: Config)
    requires Unique(w.rows) && NotesOk(w.rows, w.notes)
    requires note.id !in w.notes && note.kind.Manual? && FreshIds(ids, w.rows)
    requires Distinct(recipients) && recipients != [] && forall u :: u in recipients ==> u in users
    requires forall s :: s in template.slots ==> s in values
    ensures var c := ManualCreation(note, template, values, recipients, users, ids, answers, now);
            ComposedAll(w, Step(w, Create(c), cfg), note, recipients, users, template.contentSid, Positional(template.slots, values), ids, answers, now, cfg)
  {
    var c := ManualCreation(note, template, values, recipients, users, ids, answers, now);
    ManualCreationInserts(w, note, template, values, recipients, users, ids, answers, now);
    CreateMeaning(w, c, cfg);
    forall k: nat | k < |recipients|
      ensures Composed(w, Step(w, Create(c), cfg), ids(k), note.id, recipients[k], users[recipients[k]].mobile, template.contentSid,
                       Positional(template.slots, values), answers(k), now, cfg)
    {
      ComposedOne(w, note, template, values, recipients, users, ids, answers, now, cfg, k);
    }
    RowsAreIds(c.rows, ids);
  }

  // One of the first n ids.
  ghost predicate OneOf(ids: nat -> Id, n: nat, id: Id) {
    exists k: nat :: k < n && ids(k) == id
  }

  lemma RowsAreIds(rows: seq<Row>, ids: nat -> Id)
    requires forall k: nat :: k < |rows| ==> rows[k].id == ids(k)
    ensures forall id :: OneOf(ids, |rows|, id) <==> HasRow(rows, id)
  {
    forall id ensures OneOf(ids, |rows|, id) <==> HasRow(rows, id) {
      if OneOf(ids, |rows|, id) {
        var k: nat :| k < |rows| && ids(k) == id;
        assert rows[k].id == id;
      }
      if HasRow(rows, id) {
        var i :| 0 <= i < |rows| && rows[i].id == id;
        assert ids(i) == id;
      }
    }
  }

  // The recipient's own team's name, or none.
  ghost predicate IsTerritory(user: Directory.User, teams: map<Id, Directory.Team>, territory: string) {
    territory == match user.team
                 case Some(t) => if t in teams then teams[t].name else "Unassigned"
                 case None => "Unassigned"
  }

  // Positions "1".."n", holding the company figures and, where a slot asks for it, the section.
  ghost predicate DailyVariables(vars: Vars, slots: seq<string>, company: map<string, string>, section: string) {
    && (forall k :: k in vars <==> IsPosition(k, |slots|))
    && (forall i: nat :: 1 <= i <= |slots| ==>
          Str(i) in vars && (if slots[i - 1] == "top_doctors" then vars[Str(i)] == section
                             else slots[i - 1] in company && vars[Str(i)] == company[slots[i - 1]]))
  }

  // One recipient of a daily report: as composed, with the recipient's own variables; a recipient
  // no longer found gets a failed row and no request.
  ghost predicate Reported(w: World, w': World, id: Id, note: Id, recipient: Id, refetched: map<Id, Directory.User>, teams: map<Id, Directory.Team>,
                           template: Template, company: map<string, string>, sectionOf: string -> string,
                           day: int, a: Answer, now: int, cfg: Config) {
    && id in w'.rows
    && var vars := w'.rows[id].vars;
       var blank := Row(id, note, Scheduled, recipient, Some(day), Queued, 0, None, None, now, vars);
       if recipient in refetched then
         && (forall t :: IsTerritory(refetched[recipient], teams, t) ==> DailyVariables(vars, template.slots, company, sectionOf(t)))
         && StoredAfter(blank, w'.rows[id], a.result, a.at, cfg.max)
         && Asked(w.calls, w'.calls, id, Some(Call(id, refetched[recipient].mobile, template.contentSid, vars, a.result)))
       else
         && vars == map[]
         && StoredAfter(blank, w'.rows[id], Rejected("recipient no longer exists"), a.at, cfg.max)
         && Asked(w.calls, w'.calls, id, None)
  }

  // All recipients of a daily report, in order, and nobody else.
  ghost predicate ReportedAll(w: World, w': World, note: Notification, recipients: seq<Id>, refetched: map<Id, Directory.User>, teams: map<Id, Directory.Team>,
                              template: Template, company: map<string, string>, sectionOf: string -> string,
                              ids: nat -> Id, answers: nat -> Answer, day: int, now: int, cfg: Config) {
    && w'.notes == w.notes[note.id := note]
    && (forall id :: id in w'.rows <==> id in w.rows || OneOf(ids, |recipients|, id))
    && (forall id :: id in w.rows ==> w'.rows[id] == w.rows[id])
    && (forall k: nat :: k < |recipients| ==>
          Reported(w, w', ids(k), note.id, recipients[k], refetched, teams, template, company, sectionOf, day, answers(k), now, cfg))
    && (forall id :: !OneOf(ids, |recipients|, id) ==> CallsFor(w'.calls, id) == CallsFor(w.calls, id))
  }

  lemma {:induction false} DailyVarsMeaning(slots: seq<string>, company: map<string, string>, section: string)
    requires Complete(company) && forall s :: s in slots ==> s in KNOWN_SLOTS
    ensures DailyVariables(Positional(slots, DailyValues(company, section)), slots, company, section)
  {
    PositionalEntries(slots, DailyValues(company, section));
  }

  lemma ReportedOne(w: World, note: Notification, template: Template, company: map<string, string>, sectionOf: string -> string,
                    recipients: seq<Id>, refetched: map<Id, Directory.User>, teams: map<Id, Directory.Team>,
                    ids: nat -> Id, answers: nat -> Answer, day: int, now: int, cfg: Config, k: nat)
    requires Complete(company) && forall s :: s in template.slots ==> s in KNOWN_SLOTS
    requires k < |recipients| && note.kind.Scheduled?
    requires var c := DailyCreation(note, template, company, sectionOf, recipients, refetched, teams, ids, answers, day, now);
             WellFormed(c) && Created(w, Step(w, Create(c), cfg), c.rows[k], c.batch, c.answers[k], cfg)
    ensures var c := DailyCreation(note, template, company, sectionOf, recipients, refetched, teams, ids, answers, day, now);
            Reported(w, Step(w, Create(c), cfg), ids(k), note.id, recipients[k], refetched, teams, template, company, sectionOf, day, answers(k), now, cfg)
  {
    var c := DailyCreation(note, template, company, sectionOf, recipients, refetched, teams, ids, answers, day, now);
    var u := recipients[k];
    assert c.rows[k].id == ids(k) && c.rows[k].recipient == u && c.answers[k] == answers(k);
    if u in refetched {
      assert u in c.batch.recipients && u in c.batch.varsFor;
      DailyVarsMeaning(template.slots, company, sectionOf(TerritoryOf(refetched, teams, u)));
    } else {
      assert u !in c.batch.recipients && u !in c.batch.varsFor;
    }
  }

  lemma ScheduledRowsUnique(rows: Table, added: seq<Row>, day: int)
    requires Unique(rows) && KeyedById(rows)
    requires forall i, j :: 0 <= i < j < |added| ==> added[i].id != added[j].id && added[i].recipient != added[j].recipient
    requires forall i :: 0 <= i < |added| ==> added[i].id !in rows && added[i].kind == Scheduled && added[i].day == Some(day)
    requires forall id, i :: id in rows && 0 <= i < |added| ==> !(rows[id].kind == Scheduled && rows[id].day == Some(day) && rows[id].recipient == added[i].recipient)
    ensures Unique(Inserted(rows, added))
  {
    var all := Inserted(rows, added);
    InsertedLookup(rows, added);
    forall i, j | i in all && j in all ensures !Conflict(all[i], all[j]) {
      if a :| 0 <= a < |added| && added[a].id == i {
        if b :| 0 <= b < |added| && added[b].id == j {
          assert all[i] == added[a] && all[j] == added[b];
        } else {
          assert all[j] == rows[j];
        }
      } else {
        assert all[i] == rows[i];
        if b :| 0 <= b < |added| && added[b].id == j {
          assert all[j] == added[b];
        } else {
          assert !Conflict(rows[i], rows[j]);
        }
      }
    }
  }

  // A stored scheduled row of the day for one of the recipients.
  ghost predicate AlreadyReported(rows: Table, day: int, recipients: seq<Id>) {
    exists id :: id in rows && rows[id].kind == Scheduled && rows[id].day == Some(day) && rows[id].recipient in recipients
  }

  lemma NotYetReported(rows: Table, day: int, recipients: seq<Id>)
    requires forall id :: id in rows ==> rows[id].day != Some(day)
    ensures !AlreadyReported(rows, day, recipients)
  {}

  lemma DailyInserts(rows: Table, added: seq<Row>, day: int, recipients: seq<Id>)
    requires Unique(rows) && KeyedById(rows) && Distinct(recipients) && |added| == |recipients|
    requires forall i, j :: 0 <= i < j < |added| ==> added[i].id != added[j].id
    requires forall i :: 0 <= i < |added| ==>
               added[i].id !in rows && added[i].kind == Scheduled && added[i].day == Some(day) && added[i].recipient == recipients[i]
    ensures CanInsert(rows, added) <==> !AlreadyReported(rows, day, recipients)
  {
    if AlreadyReported(rows, day, recipients) {
      var id :| id in rows && rows[id].kind == Scheduled && rows[id].day == Some(day) && rows[id].recipient in recipients;
      var i :| 0 <= i < |recipients| && recipients[i] == rows[id].recipient;
      InsertedLookup(rows, added);
      var all := Inserted(rows, added);
      assert all[added[i].id] == added[i] && all[id] == rows[id];
      assert Conflict(all[id], all[added[i].id]);
    } else {
      forall id, i | id in rows && 0 <= i < |added|
        ensures !(rows[id].kind == Scheduled && rows[id].day == Some(day) && rows[id].recipient == added[i].recipient)
      {
        assert recipients[i] in recipients;
      }
      ScheduledRowsUnique(rows, added, day);
    }
  }

  /** A daily report to distinct recipients: refused whole exactly when one of them already has a row
      of that day; otherwise each gets one row and, if still found, one request to the user's
      number with the template and with the figures and the doctor section of the user's own team. */
  lemma DailyMeaning(w: World, note: Notification, template: Template, company: map<string, string>, sectionOf: string -> string,
                     recipients: seq<Id>, refetched: map<Id, Directory.User>, teams: map<Id, Directory.Team>,
                     ids: nat -> Id, answers: nat -> Answer, day: int, now: int, cfg: Config)
    requires Complete(company) && forall s :: s in template.slots ==> s in KNOWN_SLOTS
    requires Unique(w.rows) && KeyedById(w.rows) && note.kind.Scheduled? && FreshIds(ids, w.rows)
    requires Distinct(recipients) && recipients != []
    ensures var c := DailyCreation(note, template, company, sectionOf, recipients, refetched, teams, ids, answers, day, now);
            var w' := Step(w, Create(c), cfg);
            if AlreadyReported(w.rows, day, recipients) then w' == w
            else
              ReportedAll(w, w', note, recipients, refetched, teams, template, company, sectionOf, ids, answers, day, now, cfg)
  {
    var c := DailyCreation(note, template, company, sectionOf, recipients, refetched, teams, ids, answers, day, now);
    DailyCreationWellFormed(note, template, company, sectionOf, recipients, refetched, teams, ids, answers, day, now);
    DailyInserts(w.rows, c.rows, day, recipients);
    CreateMeaning(w, c, cfg);
    RowsAreIds(c.rows, ids);
    if !AlreadyReported(w.rows, day, recipients) {
      forall k: nat | k < |recipients|
        ensures Reported(w, Step(w, Create(c), cfg), ids(k), note.id, recipients[k], refetched, teams, template, company, sectionOf, day, answers(k), now, cfg)
      {
        ReportedOne(w, note, template, company, sectionOf, recipients, refetched, teams, ids, answers, day, now, cfg, k);
      }
    }
  }

  lemma {:induction false} ActiveUsersMeaning(users: map<Id, Directory.User>, order: seq<Id>)
    ensures forall u :: u in ActiveUsers(users, order) <==> u in order && u in users && users[u].status == Directory.Active
    ensures forall u :: multiset(ActiveUsers(users, order))[u] ==
                        (if u in users && users[u].status == Directory.Active then multiset(order)[u] else 0)
  {
    if order != [] {
      ActiveUsersMeaning(users, order[..|order| - 1]);
      assert order == order[..|order| - 1] + [order[|order| - 1]];
    }
  }

  /** A daily report addresses every listed active user with a number and an unrevoked consent, once
      each, and nobody else. */
  lemma DailyAddressees(s: Directory.State)
    ensures var to := Recipients.Resolution(s, ActiveUsers(s.users, s.order), [], []).ids;
            Distinct(to) && forall u :: u in to <==> u in s.order && Recipients.MayReceive(s, u)
  {
    var named := Recipients.WhoReceives(s, ActiveUsers(s.users, s.order), [], []);
    ActiveUsersMeaning(s.users, s.order);
  }

  /** A compose is valid exactly when the values are named as the slots are and none is blank. */
  lemma ValidValuesMeaning(template: Template, values: map<string, string>)
    ensures ValidValues(template, values) <==>
            && (forall s :: s in values <==> s in template.slots)
            && (forall s :: s in values ==> exists k :: 0 <= k < |values[s]| && !Strings.IsSpace(values[s][k]))
  {
    forall s | s in values ensures Strings.Strip(values[s]) != "" <==> exists k :: 0 <= k < |values[s]| && !Strings.IsSpace(values[s][k]) {
      Strings.StripKeepsText(values[s]);
    }
    assert values.Keys == (set s | s in template.slots) <==> forall s :: s in values <==> s in template.slots;
  }

  /** The recorded targets are the raw selections: users, then teams, then lists, as given. */
  lemma TargetsMeaning(note: Id, userIds: seq<Id>, teamIds: seq<Id>, listIds: seq<Id>)
    ensures var t, u, v := SelectionTargets(note, userIds, teamIds, listIds), |userIds|, |userIds| + |teamIds|;
            && |t| == |userIds| + |teamIds| + |listIds|
            && (forall i :: 0 <= i < |userIds| ==> t[i] == Target(note, UserTarget, userIds[i]))
            && (forall i :: 0 <= i < |teamIds| ==> t[u + i] == Target(note, TeamTarget, teamIds[i]))
            && (forall i :: 0 <= i < |listIds| ==> t[v + i] == Target(note, ListTarget, listIds[i]))
  {}

  /* ---------- the retry job as a run ---------- */

  function LookupOf(notes: map<Id, Notification>, templates: map<Id, Template>, users: map<Id, Directory.User>, row: Row): Lookup {
    if row.notificationId in notes && notes[row.notificationId].templateId in templates && row.recipient in users
    then Found(Recipient(users[row.recipient].mobile), templates[notes[row.notificationId].templateId].contentSid)
    else Missing
  }

  ghost function TurnEvent(notes: map<Id, Notification>, templates: map<Id, Template>, row: Row, t: JobTurn): Event {
    RetryNext(if t.fails then None else Some(Turn(LookupOf(notes, templates, t.users, row), t.answer)))
  }

  // The listing from world w, then for each listed row what commits before its turn and the
  // turn, which reads the Notifications committed by then.
  ghost function JobEvents(w: World, templates: map<Id, Template>, cfg: Config, now: int, listed: seq<Row>, turns: nat -> JobTurn, n: nat): seq<Event>
    requires n <= |listed|
  {
    if n == 0 then [ListEligible(now, listed)]
    else
      var earlier := JobEvents(w, templates, cfg, now, listed, turns, n - 1) + turns(n - 1).before;
      earlier + [TurnEvent(Run(w, earlier, cfg).notes, templates, listed[n - 1], turns(n - 1))]
  }

  // What one turn of the job leaves: nothing new when it raised; otherwise one request to the
  // number of the user found, with the template of the row's own Notification and the variables
  // stored on the row, or none when one of the three is gone; and the row as that calls for.
  ghost predicate TurnDone(w: World, w': World, templates: map<Id, Template>, row: Row, t: JobTurn, cfg: Config) {
    if t.fails then w'.rows == w.rows && w'.calls == w.calls
    else
      && row.id in w'.rows && w'.rows == w.rows[row.id := w'.rows[row.id]]
      && if row.notificationId in w.notes && w.notes[row.notificationId].templateId in templates && row.recipient in t.users then
           && w'.calls == w.calls + [Call(row.id, t.users[row.recipient].mobile,
                                          templates[w.notes[row.notificationId].templateId].contentSid, row.vars, t.answer.result)]
           && StoredAfter(row, w'.rows[row.id], t.answer.result, t.answer.at, cfg.max)
         else
           && w'.calls == w.calls
           && StoredAfter(row, w'.rows[row.id], Rejected("recipient no longer exists"), t.answer.at, cfg.max)
  }

  /** One turn of the retry job on a row stored as it was listed. */
  lemma TurnMeaning(w: World, templates: map<Id, Template>, row: Row, t: JobTurn, cfg: Config)
    requires w.pending != [] && w.pending[0] == row && row.id in w.rows && w.rows[row.id] == row && row.status == FailedRetryable
    ensures var w' := Step(w, TurnEvent(w.notes, templates, row, t), cfg);
            TurnDone(w, w', templates, row, t, cfg) && w'.pending == w.pending[1..] && w'.notes == w.notes && w'.applied == w.applied
  {
    RetriedAt(w, Turn(LookupOf(w.notes, templates, t.users, row), t.answer), cfg);
  }

  lemma {:induction false} RunSnoc(w: World, es: seq<Event>, e: Event, cfg: Config)
    ensures Run(w, es + [e], cfg) == Step(Run(w, es, cfg), e, cfg)
  {
    RunAppend(w, es, [e], cfg);
    assert [e][1..] == [];
    assert Run(Run(w, es, cfg), [e], cfg) == Step(Run(w, es, cfg), e, cfg);
  }

  // One more turn of the job, after what commits before it.
  lemma JobSnoc(w: World, templates: map<Id, Template>, cfg: Config, now: int, listed: seq<Row>, turns: nat -> JobTurn, k: nat)
    requires k < |listed|
    ensures var before := Run(Run(w, JobEvents(w, templates, cfg, now, listed, turns, k), cfg), turns(k).before, cfg);
            Run(w, JobEvents(w, templates, cfg, now, listed, turns, k + 1), cfg)
            == Step(before, TurnEvent(before.notes, templates, listed[k], turns(k)), cfg)
  {
    var done := JobEvents(w, templates, cfg, now, listed, turns, k);
    RunAppend(w, done, turns(k).before, cfg);
    RunSnoc(w, done + turns(k).before, TurnEvent(Run(w, done + turns(k).before, cfg).notes, templates, listed[k], turns(k)), cfg);
  }

  // Composes, daily reports and callbacks.
  predicate FromOutside(e: Event) {
    e.Create? || e.Callback?
  }

  /* ---------- the service ---------- */

  lemma SingletonSet(s: set<Id>, x: Id)
    requires x in s && |s| == 1
    ensures s == {x}
  {
    assert |s - {x}| == 0;
  }

  lemma SingletonBy(s: set<Id>, x: Id)
    requires x in s && forall y :: y in s ==> y == x
    ensures |s| == 1
  {
    assert s == {x};
  }

  // Counting the matching rows finds the holder.
  lemma HolderByCount(rows: Table, sid: Sid, holders: set<Id>)
    requires forall id :: id in holders <==> Holds(rows, sid, id)
    ensures |holders| == 1 ==> HolderOf(rows, sid).Some? && holders == {HolderOf(rows, sid).value}
    ensures |holders| != 1 ==> HolderOf(rows, sid).None?
  {
    var r := HolderOf(rows, sid);
    if |holders| == 1 {
      var x :| x in holders;
      SingletonSet(holders, x);
      assert OnlyHolder(rows, sid, x);
    } else if r.Some? {
      assert forall k :: k in holders ==> Holds(rows, sid, k);
      SingletonBy(holders, r.value);
    }
  }

  // list_all filtered by status.
  function ActiveUsers(users: map<Id, Directory.User>, order: seq<Id>): seq<Id> {
    if order == [] then []
    else
      var u := order[|order| - 1];
      ActiveUsers(users, order[..|order| - 1]) + (if u in users && users[u].status.Active? then [u] else [])
  }

  // Rows are stored under their own ids.
  predicate KeyedById(rows: Table) {
    forall id :: id in rows ==> rows[id].id == id
  }

  predicate ValidValues(template: Template, values: map<string, string>) {
    values.Keys == (set s | s in template.slots) && forall s :: s in values ==> Strings.Strip(values[s]) != ""
  }

  class DeliveryService {
    const cfg: Config
    const directory: Recipients.DirectoryService
    var templates: map<Id, Template>
    var daily: Option<Template>   // what looking up the template named "Daily Report" finds
    var rows: Table
    var notes: map<Id, Notification>
    var records: Records
    var savedRows: Table          // as of the last commit
    var savedNotes: map<Id, Notification>
    var savedRecords: Records
    var calls: seq<Call>          // requests that reached the provider
    ghost var applied: seq<AppliedCallback>
    ghost var pending: seq<Row>
    ghost var listedAt: int

    constructor (cfg: Config, directory: Recipients.DirectoryService)
      ensures this.cfg == cfg && this.directory == directory
      ensures Clean() && Tables() == START && records == Records([], [])
    {
      this.cfg, this.directory := cfg, directory;
      templates, daily, rows, notes, savedRows, savedNotes, calls := map[], None, map[], map[], map[], map[], [];
      records, savedRecords := Records([], []), Records([], []);
      applied, pending, listedAt := [], [], 0;
    }

    ghost function Tables(): World
      reads this
    {
      World(rows, notes, calls, applied, pending, listedAt)
    }

    // Nothing uncommitted.
    ghost predicate Clean()
      reads this
    {
      rows == savedRows && notes == savedNotes && records == savedRecords
    }

    method Commit()
      modifies this`savedRows, this`savedNotes, this`savedRecords
      ensures Clean()
    {
      savedRows, savedNotes, savedRecords := rows, notes, records;
    }

    method Rollback()
      modifies this`rows, this`notes, this`records
      ensures Clean()
    {
      rows, notes, records := savedRows, savedNotes, savedRecords;
    }

    method BulkCreate(added: seq<Row>) returns (ok: bool)
      modifies this`rows, this`notes, this`records
      ensures ok <==> CanInsert(old(rows), added)
      ensures ok ==> rows == Inserted(old(rows), added) && notes == old(notes) && records == old(records)
      ensures !ok ==> Clean()
    {
      if CanInsert(rows, added) {
        rows := Inserted(rows, added);
        ok := true;
      } else {
        Rollback();
        ok := false;
      }
    }

    method ClaimForDispatch(id: Id, at: int) returns (claimed: bool)
      modifies this`rows
      ensures claimed == (id in old(rows) && Claimable(old(rows)[id].status))
      ensures rows == if claimed then old(rows)[id := old(rows)[id].(status := Sending, updatedAt := at)] else old(rows)
    {
      claimed := id in rows && Claimable(rows[id].status);
      if claimed { rows := rows[id := rows[id].(status := Sending, updatedAt := at)]; }
    }

    method UpdateAfterSend(id: Id, status: DeliveryStatus, sid: Option<Sid>, reason: Option<string>, at: int)
      modifies this`rows
      ensures rows == if id in old(rows)
                      then old(rows)[id := old(rows)[id].(status := status, sid := sid, reason := reason,
                                                          attempts := old(rows)[id].attempts + 1, updatedAt := at)]
                      else old(rows)
    {
      if id in rows {
        rows := rows[id := rows[id].(status := status, sid := sid, reason := reason, attempts := rows[id].attempts + 1, updatedAt := at)];
      }
    }

    method SendTemplateMessage(call: Call) returns (r: SendResult)
      modifies this`calls
      ensures calls == old(calls) + [call] && r == call.result
    {
      calls := calls + [call];
      r := call.result;
    }

    method Fail(row: Row, reason: string, at: int) returns (o: Outcome)
      modifies this`rows
      ensures o == Outcome(row.recipient, StatusAfterFailedAttempt(row.attempts + 1, cfg.max), Some(reason))
      ensures rows == if row.id in old(rows)
                      then old(rows)[row.id := old(rows)[row.id].(status := o.status, sid := None, reason := Some(reason),
                                                                  attempts := old(rows)[row.id].attempts + 1, updatedAt := at)]
                      else old(rows)
    {
      var status := StatusAfterFailedAttempt(row.attempts + 1, cfg.max);
      UpdateAfterSend(row.id, status, None, Some(reason), at);
      o := Outcome(row.recipient, status, Some(reason));
    }

    // One claim, send and record. A row that cannot be claimed is skipped.
    method DispatchOne(row: Row, b: Batch, a: Answer) returns (o: Option<Outcome>)
      modifies this`rows, this`calls
      ensures o.Some? <==> CanClaim(Outbox(old(rows), old(calls)), row.id)
      ensures row.id in old(rows) && old(rows)[row.id] == row && (row.status == Queued || row.status == FailedRetryable) ==>
                && o.Some? && row.id in rows && calls == old(calls) + Requested(row, b, a)
                && rows == old(rows)[row.id := rows[row.id]] && Attempted(row, rows[row.id], o.value, b, a, cfg.max)
      ensures row.id !in old(rows) || (old(rows)[row.id].status != Queued && old(rows)[row.id].status != FailedRetryable) ==>
                o.None? && rows == old(rows) && calls == old(calls)
      ensures forall before: seq<Outcome> ::
                Dispatched(Outbox(rows, calls), if o.Some? then before + [o.value] else before)
                == DispatchRow(Dispatched(Outbox(old(rows), old(calls)), before), row, b, a, cfg.max)
    {
      var claimed := ClaimForDispatch(row.id, a.at);
      if !claimed { return None; }
      var done: Outcome;
      if row.recipient !in b.recipients {
        done := Fail(row, "recipient no longer exists", a.at);
        return Some(done);
      }
      if row.recipient !in b.varsFor {
        done := Fail(row, "missing content variables", a.at);
        return Some(done);
      }
      var result := SendTemplateMessage(CallOf(row, b, a));
      match result {
        case Rejected(message) =>
          done := Fail(row, message, a.at);
        case Accepted(sid) =>
          UpdateAfterSend(row.id, Sending, Some(sid), None, a.at);
          done := Outcome(row.recipient, Sending, None);
      }
      o := Some(done);
    }

    method DispatchDeliveries(deliveryRows: seq<Row>, b: Batch, answers: seq<Answer>) returns (outcomes: seq<Outcome>)
      requires |answers| == |deliveryRows|
      modifies this`rows, this`calls
      ensures Dispatched(Outbox(rows, calls), outcomes) == DispatchAll(Outbox(old(rows), old(calls)), deliveryRows, b, answers, cfg.max)
      ensures Snapshot(Outbox(old(rows), old(calls)), deliveryRows) ==>
                && |outcomes| == |deliveryRows| && rows.Keys == old(rows).Keys
                && forall i :: 0 <= i < |deliveryRows| ==>
                     && Attempted(deliveryRows[i], rows[deliveryRows[i].id], outcomes[i], b, answers[i], cfg.max)
                     && CallsFor(calls, deliveryRows[i].id) == CallsFor(old(calls), deliveryRows[i].id) + Requested(deliveryRows[i], b, answers[i])
    {
      outcomes := [];
      for i := 0 to |deliveryRows|
        invariant Dispatched(Outbox(rows, calls), outcomes)
                  == DispatchAll(Outbox(old(rows), old(calls)), deliveryRows[..i], b, answers[..i], cfg.max)
      {
        assert deliveryRows[..i + 1][..|deliveryRows[..i + 1]| - 1] == deliveryRows[..i];
        assert answers[..i + 1][..|deliveryRows[..i + 1]| - 1] == answers[..i];
        var o := DispatchOne(deliveryRows[i], b, answers[i]);
        if o.Some? { outcomes := outcomes + [o.value]; }
      }
      assert deliveryRows[..|deliveryRows|] == deliveryRows && answers[..|deliveryRows|] == answers;
      ghost var o := Outbox(old(rows), old(calls));
      if Snapshot(o, deliveryRows) { DispatchMeaning(o, deliveryRows, b, answers, cfg.max); }
    }

    method GetByProviderMessageSid(sid: Sid) returns (r: Option<Id>)
      ensures r == HolderOf(rows, sid)
    {
      var holders := set id | id in rows && rows[id].sid == Some(sid);
      HolderByCount(rows, sid, holders);
      if |holders| != 1 { return None; }
      var id :| id in holders;
      r := Some(id);
    }

    method ApplyStatusUpdate(sid: Sid, outcome: WebhookOutcome, reason: Option<string>, at: int) returns (r: WebhookResult)
      requires Clean()
      modifies this`rows, this`savedRows, this`savedNotes, this`savedRecords, this`applied
      ensures Clean()
      ensures r == CallbackResult(old(rows), sid, outcome, cfg)
      ensures Tables() == Step(old(Tables()), Callback(sid, outcome, reason, at), cfg)
      ensures forall id :: OnlyHolder(old(rows), sid, id) ==>
                var row := old(rows)[id];
                if row.status == Queued || row.status == Sending then
                  && r == Applied
                  && rows == old(rows)[id := row.(status := if outcome == DeliveredCallback then Delivered
                                                            else if row.attempts <= cfg.max then FailedRetryable else Failed,
                                                  reason := reason, updatedAt := at)]
                else r == RejectedNonMonotonic && rows == old(rows)
      ensures (forall id :: !OnlyHolder(old(rows), sid, id)) ==> r == Superseded && rows == old(rows)
    {
      var found := GetByProviderMessageSid(sid);
      if found.None? { return Superseded; }
      var id := found.value;
      var candidate := if outcome.DeliveredCallback? then Delivered else StatusAfterFailedAttempt(rows[id].attempts, cfg.max);
      if Rank(candidate) <= Rank(rows[id].status) { return RejectedNonMonotonic; }
      rows := rows[id := rows[id].(status := candidate, reason := reason, updatedAt := at)];
      applied := applied + [AppliedCallback(sid, id)];
      Commit();
      r := Applied;
    }

    method ListRetryEligible(now: int) returns (listed: seq<Row>)
      requires KeyedById(rows)
      ensures IsListing(listed, rows, now, cfg)
    {
      listed := [];
      var left := rows.Keys;
      while left != {}
        invariant left <= rows.Keys
        invariant forall i, j :: 0 <= i < j < |listed| ==> listed[i].id != listed[j].id
        invariant forall i :: 0 <= i < |listed| ==>
                    listed[i].id in rows && listed[i].id !in left && rows[listed[i].id] == listed[i] && Eligible(listed[i], now, cfg)
        invariant forall id :: id in rows && id !in left && Eligible(rows[id], now, cfg) ==> rows[id] in listed
        decreases |left|
      {
        var id :| id in left;
        left := left - {id};
        if Eligible(rows[id], now, cfg) { listed := listed + [rows[id]]; }
      }
    }

    // One listed row's turn, committed or rolled back on its own.
    method RetryRow(row: Row, t: JobTurn)
      requires Clean() && pending != [] && pending[0] == row
      modifies this`rows, this`notes, this`records, this`savedRows, this`savedNotes, this`savedRecords, this`calls, this`pending
      ensures Clean()
      ensures Tables() == Step(old(Tables()), TurnEvent(old(notes), templates, row, t), cfg)
      ensures notes == old(notes) && records == old(records)
    {
      pending := pending[1..];
      if t.fails {
        Rollback();
        return;
      }
      var lookup := LookupOf(notes, templates, t.users, row);
      var outcomes := DispatchDeliveries([row], RetryBatch(row, lookup), [t.answer]);
      Commit();
    }

    // A transaction of another process that commits between two turns.
    method RunOutside(e: Event)
      requires Clean() && FromOutside(e)
      modifies this`rows, this`notes, this`records, this`savedRows, this`savedNotes, this`savedRecords, this`calls, this`applied
      ensures Clean()
      ensures Tables() == Step(old(Tables()), e, cfg)
    {
      match e
      case Callback(sid, outcome, reason, at) =>
        var r := ApplyStatusUpdate(sid, outcome, reason, at);
      case Create(c) =>
        if |c.answers| == |c.rows| {
          var ok, outcomes := CreateAndDispatch(c, records);
        }
    }

    method RunBefore(events: seq<Event>)
      requires Clean() && forall i :: 0 <= i < |events| ==> FromOutside(events[i])
      modifies this`rows, this`notes, this`records, this`savedRows, this`savedNotes, this`savedRecords, this`calls, this`applied
      ensures Clean()
      ensures Tables() == Run(old(Tables()), events, cfg)
    {
      for i := 0 to |events|
        invariant Clean()
        invariant Tables() == Run(old(Tables()), events[..i], cfg)
      {
        RunSnoc(old(Tables()), events[..i], events[i], cfg);
        assert events[..i + 1] == events[..i] + [events[i]];
        RunOutside(events[i]);
      }
      assert events[..|events|] == events;
    }

    // What commits before one listed row's turn, then the turn.
    method RunTurn(row: Row, t: JobTurn)
      requires Clean() && pending != [] && pending[0] == row
      requires forall i :: 0 <= i < |t.before| ==> FromOutside(t.before[i])
      modifies this`rows, this`notes, this`records, this`savedRows, this`savedNotes, this`savedRecords, this`calls, this`applied, this`pending
      ensures Clean() && pending == old(pending)[1..]
      ensures var between := Run(old(Tables()), t.before, cfg);
              Tables() == Step(between, TurnEvent(between.notes, templates, row, t), cfg)
    {
      RunBefore(t.before);
      RetryRow(row, t);
    }

    // The retry job: a snapshot, then row by row, with composes, daily reports and callbacks
    // committing between the turns.
    method RunRetryFailedDeliveries(now: int, turns: nat -> JobTurn) returns (listed: seq<Row>)
      requires Clean() && KeyedById(rows)
      requires forall k: nat, i :: 0 <= i < |turns(k).before| ==> FromOutside(turns(k).before[i])
      modifies this`rows, this`notes, this`records, this`savedRows, this`savedNotes, this`savedRecords, this`calls, this`applied, this`pending, this`listedAt
      ensures Clean()
      ensures IsListing(listed, old(rows), now, cfg)
      ensures Tables() == Run(old(Tables()), JobEvents(old(Tables()), templates, cfg, now, listed, turns, |listed|), cfg)
    {
      ghost var w := Tables();
      listed := ListRetryEligible(now);
      pending, listedAt := listed, now;
      RunSnoc(w, [], ListEligible(now, listed), cfg);
      assert [] + [ListEligible(now, listed)] == [ListEligible(now, listed)];
      RunTurns(listed, turns, now, w);
    }

    // One turn after the other, each committed or rolled back on its own.
    method RunTurns(listed: seq<Row>, turns: nat -> JobTurn, ghost now: int, ghost w: World)
      requires Clean() && pending == listed && Tables() == Run(w, JobEvents(w, templates, cfg, now, listed, turns, 0), cfg)
      requires forall k: nat, i :: 0 <= i < |turns(k).before| ==> FromOutside(turns(k).before[i])
      modifies this`rows, this`notes, this`records, this`savedRows, this`savedNotes, this`savedRecords, this`calls, this`applied, this`pending
      ensures Clean()
      ensures Tables() == Run(w, JobEvents(w, templates, cfg, now, listed, turns, |listed|), cfg)
    {
      for k := 0 to |listed|
        invariant Clean() && pending == listed[k..]
        invariant Tables() == Run(w, JobEvents(w, templates, cfg, now, listed, turns, k), cfg)
      {
        JobSnoc(w, templates, cfg, now, listed, turns, k);
        RunTurn(listed[k], turns(k));
      }
    }

    // Records the Notification, inserts its rows, sends to each and commits. after is what the
    // targets and the audit log hold with this Notification's added.
    method CreateAndDispatch(c: Creation, after: Records) returns (ok: bool, outcomes: seq<Outcome>)
      requires Clean() && |c.answers| == |c.rows|
      modifies this`rows, this`notes, this`records, this`savedRows, this`savedNotes, this`savedRecords, this`calls
      ensures Clean()
      ensures ok <==> CanInsert(old(rows), c.rows)
      ensures Tables() == Step(old(Tables()), Create(c), cfg)
      ensures records == if ok then after else old(records)
      ensures ok ==> outcomes == DispatchAll(Outbox(Inserted(old(rows), c.rows), old(calls)), c.rows, c.batch, c.answers, cfg.max).outcomes
      ensures !ok ==> outcomes == []
    {
      notes := notes[c.note.id := c.note];
      records := after;
      ok := BulkCreate(c.rows);
      if !ok { return false, []; }
      outcomes := DispatchDeliveries(c.rows, c.batch, c.answers);
      Commit();
    }

    method SendManual(template: Template, values: map<string, string>, to: seq<Id>, note: Notification,
                      ids: nat -> Id, answers: nat -> Answer, now: int, after: Records)
      returns (outcomes: seq<Outcome>)
      requires Clean() && Unique(rows) && NotesOk(rows, notes)
      requires note.id !in notes && note.kind.Manual? && FreshIds(ids, rows)
      requires Distinct(to) && to != [] && forall s :: s in template.slots ==> s in values
      requires forall u :: u in to ==> u in directory.users
      modifies this`rows, this`notes, this`records, this`savedRows, this`savedNotes, this`savedRecords, this`calls
      ensures Clean()
      ensures var c := ManualCreation(note, template, values, to, directory.users, ids, answers, now);
              && WellFormed(c) && CanInsert(old(rows), c.rows)
              && Tables() == Step(old(Tables()), Create(c), cfg)
              && outcomes == DispatchAll(Outbox(Inserted(old(rows), c.rows), old(calls)), c.rows, c.batch, c.answers, cfg.max).outcomes
      ensures records == after
      ensures ComposedAll(old(Tables()), Tables(), note, to, directory.users, template.contentSid, Positional(template.slots, values), ids, answers, now, cfg)
      ensures OutcomesStored(outcomes, rows, to, ids)
    {
      ghost var w := Tables();
      ManualMeaning(w, note, template, values, to, directory.users, ids, answers, now, cfg);
      ghost var c := ManualCreation(note, template, values, to, directory.users, ids, answers, now);
      ManualCreationInserts(w, note, template, values, to, directory.users, ids, answers, now);
      var vars := BuildPositional(template.slots, values);
      var batch := Batch(template.contentSid, RecipientsById(directory.users, to), map u | u in to :: vars);
      var ok;
      OutcomesReport(w, c, cfg, to, ids);
      ok, outcomes := CreateAndDispatch(Creation(note, ManualRows(note, to, ids, vars, now), batch, FirstAnswers(answers, |to|)), after);
    }

    // Whom a selection reaches; Recipients.WhoReceives says who that is.
    ghost function Addressees(userIds: seq<Id>, teamIds: seq<Id>, listIds: seq<Id>): seq<Id>
      reads directory
    {
      Recipients.Resolution(directory.Now(), userIds, teamIds, listIds).ids
    }

    method ValuesAreValid(template: Template, values: map<string, string>) returns (valid: bool)
      ensures valid <==> ValidValues(template, values)
      ensures valid ==> forall s :: s in template.slots ==> s in values
    {
      if values.Keys != (set s | s in template.slots) { return false; }
      if exists s :: s in values && Strings.Strip(values[s]) == "" { return false; }
      valid := true;
    }

    method ResolveAddressees(userIds: seq<Id>, teamIds: seq<Id>, listIds: seq<Id>) returns (to: seq<Id>)
      ensures to == Addressees(userIds, teamIds, listIds) && Distinct(to) && forall u :: u in to ==> u in directory.users
    {
      var resolved := directory.Resolve(userIds, teamIds, listIds);
      to := resolved.ids;
    }

    method ComposeAndSend(templateId: Id, values: map<string, string>, userIds: seq<Id>, teamIds: seq<Id>, listIds: seq<Id>,
                          actor: Id, noteId: Id, ids: nat -> Id, answers: nat -> Answer, now: int)
      returns (r: Result<seq<Outcome>, ComposeError>)
      requires Clean() && Unique(rows) && NotesOk(rows, notes)
      requires noteId !in notes && FreshIds(ids, rows)
      modifies this`rows, this`notes, this`records, this`savedRows, this`savedNotes, this`savedRecords, this`calls
      ensures Clean()
      ensures r == Err(TemplateNotFound) <==> templateId !in templates
      ensures r == Err(InvalidVariableValues) <==> templateId in templates && !ValidValues(templates[templateId], values)
      ensures r == Err(NoRecipientsSelected) <==>
                templateId in templates && ValidValues(templates[templateId], values) && Addressees(userIds, teamIds, listIds) == []
      ensures r.Err? ==> Tables() == old(Tables()) && records == old(records)
      ensures r.Ok? ==> templateId in templates && ValidValues(templates[templateId], values) && Addressees(userIds, teamIds, listIds) != []
      ensures r.Ok? ==>
                records == Records(old(records).targets + SelectionTargets(noteId, userIds, teamIds, listIds),
                                   old(records).audit + [Sent(actor, noteId, templateId, |Addressees(userIds, teamIds, listIds)|)])
      ensures r.Ok? ==>
                var c := ManualCreation(Notification(noteId, Manual, templateId), templates[templateId], values, Addressees(userIds, teamIds, listIds),
                                        directory.users, ids, answers, now);
                WellFormed(c) && CanInsert(old(rows), c.rows) && Tables() == Step(old(Tables()), Create(c), cfg)
      ensures r.Ok? ==>
                && ComposedAll(old(Tables()), Tables(), Notification(noteId, Manual, templateId), Addressees(userIds, teamIds, listIds), directory.users,
                               templates[templateId].contentSid, Positional(templates[templateId].slots, values), ids, answers, now, cfg)
                && OutcomesStored(r.value, rows, Addressees(userIds, teamIds, listIds), ids)
    {
      if templateId !in templates { return Err(TemplateNotFound); }
      var template := templates[templateId];
      var valid := ValuesAreValid(template, values);
      if !valid { return Err(InvalidVariableValues); }
      var to := ResolveAddressees(userIds, teamIds, listIds);
      if to == [] { return Err(NoRecipientsSelected); }
      var outcomes := SendManual(template, values, to, Notification(noteId, Manual, templateId), ids, answers, now,
                                 Records(records.targets + SelectionTargets(noteId, userIds, teamIds, listIds),
                                         records.audit + [Sent(actor, noteId, templateId, |to|)]));
      r := Ok(outcomes);
    }

    // The poll's guards: nothing dispatched for the day yet and the try-lock obtained.
    predicate Due(rows: Table, today: int, lockFree: bool) {
      lockFree && forall id :: id in rows ==> rows[id].day != Some(today)
    }

    predicate Provisioned()
      reads this
    {
      daily.Some? && forall s :: s in daily.value.slots ==> s in KNOWN_SLOTS
    }

    // Whom the daily report addresses; DailyAddressees says who that is.
    ghost function DailyRecipients(): seq<Id>
      reads directory
    {
      Recipients.Resolution(directory.Now(), ActiveUsers(directory.users, directory.order), [], []).ids
    }

    // The guards of one tick: what to send and to whom, if anything.
    method ReadyToReport(today: int, lockFree: bool) returns (r: Option<(Template, seq<Id>)>)
      ensures r.Some? <==> Due(rows, today, lockFree) && DailyRecipients() != [] && Provisioned()
      ensures r.Some? ==> r.value == (daily.value, DailyRecipients()) && Distinct(r.value.1)
    {
      if exists id :: id in rows && rows[id].day == Some(today) { return None; }
      if !lockFree { return None; }
      var to := ResolveAddressees(ActiveUsers(directory.users, directory.order), [], []);
      if to == [] { return None; }
      if daily.None? { return None; }
      if exists s :: s in daily.value.slots && s !in KNOWN_SLOTS { return None; }
      r := Some((daily.value, to));
    }

    // One tick of the daily report. refetched is what the second user query still finds.
    method RunDailyReport(today: int, now: int, lockFree: bool, company: map<string, string>, sectionOf: string -> string,
                          refetched: map<Id, Directory.User>, noteId: Id, ids: nat -> Id, answers: nat -> Answer)
      returns (r: ReportOutcome)
      requires Clean() && Complete(company)
      requires noteId !in notes && FreshIds(ids, rows)
      modifies this`rows, this`notes, this`records, this`savedRows, this`savedNotes, this`savedRecords, this`calls
      ensures Clean()
      ensures r.Skipped? ==> Tables() == old(Tables())
      ensures records == old(records)   // no picker selections, no audit entry
      ensures Unique(old(rows)) && KeyedById(old(rows)) ==>
                (r.Succeeded? <==>
                  && lockFree && (forall id :: id in old(rows) ==> old(rows)[id].day != Some(today))
                  && DailyRecipients() != []
                  && daily.Some? && forall s :: s in daily.value.slots ==> s in KNOWN_SLOTS)
      ensures Unique(old(rows)) && KeyedById(old(rows)) && r.Succeeded? ==>
                ReportedAll(old(Tables()), Tables(), Notification(noteId, Scheduled, daily.value.id), DailyRecipients(), refetched, directory.teams,
                            daily.value, company, sectionOf, ids, answers, today, now, cfg)
      ensures !(Due(old(rows), today, lockFree) && DailyRecipients() != [] && Provisioned()) ==> r.Skipped?
      ensures Due(old(rows), today, lockFree) && DailyRecipients() != [] && Provisioned() ==>
                var c := DailyCreation(Notification(noteId, Scheduled, daily.value.id), daily.value, company, sectionOf, DailyRecipients(),
                                       refetched, directory.teams, ids, answers, today, now);
                && WellFormed(c)
                && (r.Succeeded? <==> CanInsert(old(rows), c.rows))
                && Tables() == Step(old(Tables()), Create(c), cfg)
    {
      var ready := ReadyToReport(today, lockFree);
      if ready.None? { return Skipped; }
      var (template, to) := ready.value;
      NotYetReported(rows, today, to);
      r := SendDaily(template, to, company, sectionOf, refetched, Notification(noteId, Scheduled, template.id), ids, answers, today, now);
    }

    method BuildDaily(template: Template, to: seq<Id>, company: map<string, string>, sectionOf: string -> string,
                      refetched: map<Id, Directory.User>, note: Notification, ids: nat -> Id, answers: nat -> Answer, today: int, now: int)
      returns (c: Creation)
      requires Complete(company) && forall s :: s in template.slots ==> s in KNOWN_SLOTS
      ensures c == DailyCreation(note, template, company, sectionOf, to, refetched, directory.teams, ids, answers, today, now)
    {
      var byId := RecipientsById(refetched, to);
      var territories := map u | u in byId :: TerritoryOf(refetched, directory.teams, u);
      var varsFor, asked := BuildDailyVariables(template.slots, company, sectionOf, territories, to);
      c := Creation(note, DailyRows(note, to, ids, varsFor, today, now), Batch(template.contentSid, byId, varsFor), FirstAnswers(answers, |to|));
    }

    method SendDaily(template: Template, to: seq<Id>, company: map<string, string>, sectionOf: string -> string,
                     refetched: map<Id, Directory.User>, note: Notification, ids: nat -> Id, answers: nat -> Answer, today: int, now: int)
      returns (r: ReportOutcome)
      requires Clean() && Complete(company) && to != [] && forall s :: s in template.slots ==> s in KNOWN_SLOTS
      requires note.id !in notes && note.kind.Scheduled? && FreshIds(ids, rows)
      modifies this`rows, this`notes, this`records, this`savedRows, this`savedNotes, this`savedRecords, this`calls
      ensures Clean()
      ensures var c := DailyCreation(note, template, company, sectionOf, to, refetched, directory.teams, ids, answers, today, now);
              && WellFormed(c)
              && (r.Succeeded? <==> CanInsert(old(rows), c.rows))
              && Tables() == Step(old(Tables()), Create(c), cfg)
      ensures r.Skipped? ==> Tables() == old(Tables())
      ensures records == old(records)
      ensures Distinct(to) && Unique(old(rows)) && KeyedById(old(rows)) ==>
                && (r.Skipped? <==> AlreadyReported(old(rows), today, to))
                && (r.Succeeded? ==> ReportedAll(old(Tables()), Tables(), note, to, refetched, directory.teams, template, company, sectionOf, ids, answers, today, now, cfg))
    {
      ghost var w := Tables();
      ghost var c := DailyCreation(note, template, company, sectionOf, to, refetched, directory.teams, ids, answers, today, now);
      DailyCreationWellFormed(note, template, company, sectionOf, to, refetched, directory.teams, ids, answers, today, now);
      if Distinct(to) && Unique(rows) && KeyedById(rows) {
        DailyMeaning(w, note, template, company, sectionOf, to, refetched, directory.teams, ids, answers, today, now, cfg);
        DailyInserts(w.rows, c.rows, today, to);
      }
      var built := BuildDaily(template, to, company, sectionOf, refetched, note, ids, answers, today, now);
      var ok, outcomes := CreateAndDispatch(built, records);
      r := if ok then Succeeded else Skipped;
    }
  }
}

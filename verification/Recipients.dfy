/** Recipient resolution and the directory service over updatable tables
    (domain/notifications.py resolve; domain/recipients.py). */
module Recipients {
  import opened Prelude
  import opened Strings
  import opened Directory

  datatype Resolved = Resolved(selected: nat, overlap: nat, ineligible: nat, unique: nat, ids: seq<Id>)

  // list_by_team_id, in the table's order.
  function MembersOf(s: State, order: seq<Id>, team: Id): seq<Id> {
    if order == [] then []
    else
      var u := order[|order| - 1];
      MembersOf(s, order[..|order| - 1], team) + (if u in s.users && s.users[u].team == Some(team) then [u] else [])
  }

  function TeamExpansion(s: State, team: Id): seq<Id> {
    if team in s.teams && s.teams[team].status.Active? then MembersOf(s, s.order, team) else []
  }

  function ListExpansion(s: State, l: Id): seq<Id> {
    if l in s.lists && s.lists[l].status.Active? then s.lists[l].members else []
  }

  function Expand(s: State, userIds: seq<Id>, teamIds: seq<Id>, listIds: seq<Id>): seq<Id> {
    if listIds != [] then
      Expand(s, userIds, teamIds, listIds[..|listIds| - 1]) + ListExpansion(s, listIds[|listIds| - 1])
    else if teamIds != [] then
      Expand(s, userIds, teamIds[..|teamIds| - 1], []) + TeamExpansion(s, teamIds[|teamIds| - 1])
    else userIds
  }

  predicate Sendable(s: State, u: Id) {
    u in s.users && s.users[u].status.Active? && s.users[u].mobile.Some? && HasActiveConsent(s.consents, u)
  }

  function SendableOf(s: State, ids: seq<Id>): seq<Id> {
    if ids == [] then []
    else SendableOf(s, ids[..|ids| - 1]) + (if Sendable(s, ids[|ids| - 1]) then [ids[|ids| - 1]] else [])
  }

  lemma {:induction false} SendableOfSize(s: State, ids: seq<Id>)
    ensures |SendableOf(s, ids)| <= |ids|
  {
    if ids != [] { SendableOfSize(s, ids[..|ids| - 1]); }
  }

  ghost function Resolution(s: State, userIds: seq<Id>, teamIds: seq<Id>, listIds: seq<Id>): Resolved {
    var expanded := Expand(s, userIds, teamIds, listIds);
    var ids := SendableOf(s, Dedupe(expanded));
    DedupeMembers(expanded);
    SendableOfSize(s, Dedupe(expanded));
    Resolved(|expanded|, |expanded| - |Dedupe(expanded)|, |Dedupe(expanded)| - |ids|, |ids|, ids)
  }

  /* ---------- what resolution means ---------- */

  lemma {:induction false} SendableOfMeaning(s: State, ids: seq<Id>)
    requires Distinct(ids)
    ensures Distinct(SendableOf(s, ids))
    ensures forall u :: u in SendableOf(s, ids) <==> u in ids && Sendable(s, u)
    ensures forall k :: 0 <= k < |SendableOf(s, ids)| ==> SendableOf(s, ids)[k] in ids
  {
    if ids != [] {
      var front, last := ids[..|ids| - 1], ids[|ids| - 1];
      SendableOfMeaning(s, front);
      assert ids == front + [last];
      assert last !in front;
    }
  }

  lemma {:induction false} SendableOfOrder(s: State, ids: seq<Id>, i: nat, j: nat)
    requires Distinct(ids) && i < j < |SendableOf(s, ids)|
    ensures exists a, b :: 0 <= a < b < |ids| && ids[a] == SendableOf(s, ids)[i] && ids[b] == SendableOf(s, ids)[j]
  {
    var front, last := ids[..|ids| - 1], ids[|ids| - 1];
    var r := SendableOf(s, front);
    if j < |r| {
      SendableOfOrder(s, front, i, j);
      var a, b :| 0 <= a < b < |front| && front[a] == r[i] && front[b] == r[j];
      assert ids[a] == SendableOf(s, ids)[i] && ids[b] == SendableOf(s, ids)[j];
    } else {
      SendableOfMeaning(s, front);
      var a :| 0 <= a < |front| && front[a] == r[i];
      assert ids[a] == SendableOf(s, ids)[i] && ids[|ids| - 1] == SendableOf(s, ids)[j];
    }
  }

  /** The counts partition the raw selection, and the resolved ids are exactly the selected
      users who are active, have a number and hold an active consent, each once, in the order
      of first selection. */
  lemma ResolutionMeaning(s: State, userIds: seq<Id>, teamIds: seq<Id>, listIds: seq<Id>)
    ensures var r := Resolution(s, userIds, teamIds, listIds);
            var expanded := Expand(s, userIds, teamIds, listIds);
            && r.selected == r.overlap + r.ineligible + r.unique
            && r.unique == |r.ids| && Distinct(r.ids)
            && (forall u :: u in r.ids <==> u in expanded && Sendable(s, u))
            && (forall i, j :: 0 <= i < j < |r.ids| ==>
                  r.ids[i] in expanded && r.ids[j] in expanded && FirstAt(expanded, r.ids[i]) < FirstAt(expanded, r.ids[j]))
  {
    var expanded := Expand(s, userIds, teamIds, listIds);
    var d := Dedupe(expanded);
    DedupeMembers(expanded);
    SendableOfMeaning(s, d);
    var ids := SendableOf(s, d);
    forall i, j | 0 <= i < j < |ids|
      ensures ids[i] in expanded && ids[j] in expanded && FirstAt(expanded, ids[i]) < FirstAt(expanded, ids[j])
    {
      SendableOfOrder(s, d, i, j);
      var a, b :| 0 <= a < b < |d| && d[a] == ids[i] && d[b] == ids[j];
      DedupeOrder(expanded, a, b);
    }
  }

  // Some selected entry names the user: the user itself, the user's active team, or an active list.
  ghost predicate Selects(s: State, userIds: seq<Id>, teamIds: seq<Id>, listIds: seq<Id>, u: Id) {
    || u in userIds
    || (u in s.order && u in s.users && s.users[u].team.Some? && s.users[u].team.value in teamIds
        && s.users[u].team.value in s.teams && s.teams[s.users[u].team.value].status == Active)
    || exists l :: l in listIds && l in s.lists && s.lists[l].status == Active && u in s.lists[l].members
  }

  // An active user with a number and an unrevoked consent.
  ghost predicate MayReceive(s: State, u: Id) {
    && u in s.users && s.users[u].status == Active && s.users[u].mobile.Some?
    && exists i :: 0 <= i < |s.consents| && s.consents[i].user == u && s.consents[i].revokedAt == None
  }

  /** A team's members are the users of that team, in the table's order and as often as there. */
  lemma {:induction false} MembersOfMeaning(s: State, order: seq<Id>, team: Id)
    ensures forall u :: u in MembersOf(s, order, team) <==> u in order && u in s.users && s.users[u].team == Some(team)
    ensures forall u :: multiset(MembersOf(s, order, team))[u] ==
                        (if u in s.users && s.users[u].team == Some(team) then multiset(order)[u] else 0)
  {
    if order != [] {
      var front := order[..|order| - 1];
      MembersOfMeaning(s, front, team);
      assert order == front + [order[|order| - 1]];
    }
  }

  // Every selection, one after the other: users, then teams, then lists, each where it is given.
  lemma {:induction false} ExpandTeamsOnly(s: State, userIds: seq<Id>, teamIds: seq<Id>, t: Id)
    ensures Expand(s, userIds, teamIds + [t], []) ==
            Expand(s, userIds, teamIds, []) + (if t in s.teams && s.teams[t].status == Active then MembersOf(s, s.order, t) else [])
  {
    assert (teamIds + [t])[..|teamIds|] == teamIds;
  }

  lemma ExpandOneMoreList(s: State, userIds: seq<Id>, teamIds: seq<Id>, listIds: seq<Id>, l: Id)
    ensures Expand(s, userIds, teamIds, listIds + [l]) ==
            Expand(s, userIds, teamIds, listIds) + (if l in s.lists && s.lists[l].status == Active then s.lists[l].members else [])
  {
    assert (listIds + [l])[..|listIds|] == listIds;
  }

  /** The order of a selection's entries: the users as given, then each active team's members in
      the table's order, then each active list's members in the list's order. */
  lemma ExpansionOrder(s: State, userIds: seq<Id>, teamIds: seq<Id>, listIds: seq<Id>, x: Id, a: seq<Id>, b: seq<Id>)
    ensures Expand(s, userIds, [], []) == userIds
    ensures Expand(s, userIds, teamIds + [x], []) ==
            Expand(s, userIds, teamIds, []) + (if x in s.teams && s.teams[x].status == Active then MembersOf(s, s.order, x) else [])
    ensures Expand(s, userIds, teamIds, listIds + [x]) ==
            Expand(s, userIds, teamIds, listIds) + (if x in s.lists && s.lists[x].status == Active then s.lists[x].members else [])
    ensures MembersOf(s, a + b, x) == MembersOf(s, a, x) + MembersOf(s, b, x)
    ensures forall u :: MembersOf(s, [u], x) == if u in s.users && s.users[u].team == Some(x) then [u] else []
  {
    ExpandTeamsOnly(s, userIds, teamIds, x);
    ExpandOneMoreList(s, userIds, teamIds, listIds, x);
    MembersOfConcat(s, a, b, x);
    forall u ensures MembersOf(s, [u], x) == if u in s.users && s.users[u].team == Some(x) then [u] else [] {
      assert [u][..0] == [];
    }
  }

  lemma {:induction false} ActiveSelections(s: State, teamIds: seq<Id>, listIds: seq<Id>)
    ensures forall t :: t in ActiveTeams(s, teamIds) <==> t in teamIds && t in s.teams && s.teams[t].status == Active
    ensures forall l :: l in ActiveLists(s, listIds) <==> l in listIds && l in s.lists && s.lists[l].status == Active
    decreases |teamIds| + |listIds|
  {
    if teamIds != [] {
      ActiveSelections(s, teamIds[..|teamIds| - 1], listIds);
      assert teamIds == teamIds[..|teamIds| - 1] + [teamIds[|teamIds| - 1]];
    } else if listIds != [] {
      ActiveSelections(s, teamIds, listIds[..|listIds| - 1]);
      assert listIds == listIds[..|listIds| - 1] + [listIds[|listIds| - 1]];
    }
  }

  lemma {:induction false} TeamsSelected(s: State, userIds: seq<Id>, teamIds: seq<Id>, u: Id)
    ensures u in Expand(s, userIds, teamIds, []) <==> Selects(s, userIds, teamIds, [], u)
  {
    if teamIds != [] {
      var front, t := teamIds[..|teamIds| - 1], teamIds[|teamIds| - 1];
      assert teamIds == front + [t];
      TeamsSelected(s, userIds, front, u);
      ExpandTeamsOnly(s, userIds, front, t);
      MembersOfMeaning(s, s.order, t);
    }
  }

  lemma {:induction false} ListsSelected(s: State, userIds: seq<Id>, teamIds: seq<Id>, listIds: seq<Id>, u: Id)
    ensures u in Expand(s, userIds, teamIds, listIds) <==> Selects(s, userIds, teamIds, listIds, u)
  {
    if listIds == [] {
      TeamsSelected(s, userIds, teamIds, u);
    } else {
      var front, l := listIds[..|listIds| - 1], listIds[|listIds| - 1];
      assert listIds == front + [l];
      ListsSelected(s, userIds, teamIds, front, u);
      ExpandOneMoreList(s, userIds, teamIds, front, l);
      assert forall k :: k in listIds <==> k in front || k == l;
    }
  }

  // How many entries the selected teams and lists contribute.
  ghost function TeamEntries(s: State, order: seq<Id>, team: Id): nat {
    if order == [] || team !in s.teams || s.teams[team].status == Inactive then 0
    else TeamEntries(s, order[1..], team) + (if order[0] in s.users && s.users[order[0]].team == Some(team) then 1 else 0)
  }

  ghost function SelectedEntries(s: State, teamIds: seq<Id>, listIds: seq<Id>): nat {
    if teamIds != [] then TeamEntries(s, s.order, teamIds[0]) + SelectedEntries(s, teamIds[1..], listIds)
    else if listIds != [] then
      (if listIds[0] in s.lists && s.lists[listIds[0]].status == Active then |s.lists[listIds[0]].members| else 0) + SelectedEntries(s, [], listIds[1..])
    else 0
  }

  lemma {:induction false} MembersOfConcat(s: State, a: seq<Id>, b: seq<Id>, team: Id)
    ensures MembersOf(s, a + b, team) == MembersOf(s, a, team) + MembersOf(s, b, team)
  {
    if b == [] {
      assert a + b == a;
    } else {
      assert (a + b)[..|a + b| - 1] == a + b[..|b| - 1];
      MembersOfConcat(s, a, b[..|b| - 1], team);
    }
  }

  lemma {:induction false} TeamEntriesCount(s: State, order: seq<Id>, team: Id)
    requires team in s.teams && s.teams[team].status == Active
    ensures |MembersOf(s, order, team)| == TeamEntries(s, order, team)
  {
    if order != [] {
      assert order == [order[0]] + order[1..] && [order[0]][..0] == [];
      MembersOfConcat(s, [order[0]], order[1..], team);
      TeamEntriesCount(s, order[1..], team);
    }
  }

  lemma {:induction false} SelectedEntriesSnoc(s: State, teamIds: seq<Id>, listIds: seq<Id>)
    ensures teamIds != [] ==> SelectedEntries(s, teamIds, []) == SelectedEntries(s, teamIds[..|teamIds| - 1], []) + TeamEntries(s, s.order, teamIds[|teamIds| - 1])
    ensures listIds != [] ==>
              SelectedEntries(s, teamIds, listIds) == SelectedEntries(s, teamIds, listIds[..|listIds| - 1])
              + (if listIds[|listIds| - 1] in s.lists && s.lists[listIds[|listIds| - 1]].status == Active then |s.lists[listIds[|listIds| - 1]].members| else 0)
    decreases |teamIds| + |listIds|
  {
    if teamIds != [] {
      SelectedEntriesSnoc(s, teamIds[1..], listIds);
      if |teamIds| > 1 {
        assert teamIds[1..][..|teamIds| - 2] == teamIds[..|teamIds| - 1][1..];
      }
    } else if |listIds| > 1 {
      SelectedEntriesSnoc(s, teamIds, listIds[1..]);
      assert listIds[1..][..|listIds| - 2] == listIds[..|listIds| - 1][1..];
    }
  }

  lemma {:induction false} ExpansionSize(s: State, userIds: seq<Id>, teamIds: seq<Id>, listIds: seq<Id>)
    ensures |Expand(s, userIds, teamIds, listIds)| == |userIds| + SelectedEntries(s, teamIds, listIds)
    decreases |teamIds| + |listIds|
  {
    SelectedEntriesSnoc(s, teamIds, listIds);
    if listIds != [] {
      ExpansionSize(s, userIds, teamIds, listIds[..|listIds| - 1]);
    } else if teamIds != [] {
      ExpansionSize(s, userIds, teamIds[..|teamIds| - 1], []);
      var t := teamIds[|teamIds| - 1];
      if t in s.teams && s.teams[t].status == Active { TeamEntriesCount(s, s.order, t); }
    }
  }

  ghost function Elements(s: seq<Id>): (r: set<Id>)
    ensures forall x :: x in r <==> x in s
  {
    set x | x in s
  }

  lemma {:induction false} DistinctSize(s: seq<Id>)
    requires Distinct(s)
    ensures |Elements(s)| == |s|
  {
    if s != [] {
      var front, last := s[..|s| - 1], s[|s| - 1];
      DistinctSize(front);
      assert s == front + [last] && last !in front;
      assert Elements(s) == Elements(front) + {last};
    }
  }

  /** Who receives: exactly the users that some selected entry names and that are active, have a
      number and an unrevoked consent, each once. selected counts every entry, overlap the
      repeated ones, and ineligible the users named that may not receive; named is the set of
      users that some entry names. */
  lemma WhoReceives(s: State, userIds: seq<Id>, teamIds: seq<Id>, listIds: seq<Id>) returns (named: set<Id>)
    ensures forall u :: u in named <==> Selects(s, userIds, teamIds, listIds, u)
    ensures var r := Resolution(s, userIds, teamIds, listIds);
            && Distinct(r.ids)
            && (forall u :: u in r.ids <==> Selects(s, userIds, teamIds, listIds, u) && MayReceive(s, u))
            && r.selected == |userIds| + SelectedEntries(s, teamIds, listIds)
            && r.overlap == r.selected - |named|
            && r.ineligible == |named| - |r.ids|
            && r.unique == |r.ids|
  {
    var expanded := Expand(s, userIds, teamIds, listIds);
    named := Elements(expanded);
    forall u ensures u in expanded <==> Selects(s, userIds, teamIds, listIds, u) { ListsSelected(s, userIds, teamIds, listIds, u); }
    ResolutionMeaning(s, userIds, teamIds, listIds);
    ExpansionSize(s, userIds, teamIds, listIds);
    DedupeMembers(expanded);
    DistinctSize(Dedupe(expanded));
    assert named == Elements(Dedupe(expanded));
    forall u ensures Sendable(s, u) <==> MayReceive(s, u) { MayReceiveIsSendable(s, u); }
  }

  lemma Receivers(s: State, userIds: seq<Id>, teamIds: seq<Id>, listIds: seq<Id>)
    ensures var to := Resolution(s, userIds, teamIds, listIds).ids;
            Distinct(to) && forall u :: u in to <==> Selects(s, userIds, teamIds, listIds, u) && MayReceive(s, u)
  {
    var named := WhoReceives(s, userIds, teamIds, listIds);
  }

  lemma MayReceiveIsSendable(s: State, u: Id)
    ensures Sendable(s, u) <==> MayReceive(s, u)
  {
    if i :| 0 <= i < |s.consents| && s.consents[i].user == u && s.consents[i].revokedAt == None {
      assert ActiveAt(s.consents, i, u);
    }
  }

  /** Every resolved id is an active user whose active consent names the very number that
      will be dialled. */
  lemma {:induction false} ResolvedAreConsented(s: State, ops: seq<Op>, userIds: seq<Id>, teamIds: seq<Id>, listIds: seq<Id>, u: Id)
    requires Inv(s) && Legal(s, ops)
    requires u in Resolution(ApplyAll(s, ops), userIds, teamIds, listIds).ids
    ensures var s' := ApplyAll(s, ops);
            && u in s'.users && s'.users[u].status.Active? && s'.users[u].mobile.Some?
            && exists i :: 0 <= i < |s'.consents| && ActiveAt(s'.consents, i, u) && s'.users[u].mobile == Some(s'.consents[i].mobile)
  {
    RunKeeps(s, ops);
    var s' := ApplyAll(s, ops);
    ResolutionMeaning(s', userIds, teamIds, listIds);
    var i :| 0 <= i < |s'.consents| && ActiveAt(s'.consents, i, u);
  }

  function ActiveTeams(s: State, teamIds: seq<Id>): seq<Id> {
    if teamIds == [] then []
    else
      var t := teamIds[|teamIds| - 1];
      ActiveTeams(s, teamIds[..|teamIds| - 1]) + (if t in s.teams && s.teams[t].status.Active? then [t] else [])
  }

  function ActiveLists(s: State, listIds: seq<Id>): seq<Id> {
    if listIds == [] then []
    else
      var l := listIds[|listIds| - 1];
      ActiveLists(s, listIds[..|listIds| - 1]) + (if l in s.lists && s.lists[l].status.Active? then [l] else [])
  }

  lemma {:induction false} ExpandTeams(s: State, userIds: seq<Id>, teamIds: seq<Id>)
    ensures Expand(s, userIds, ActiveTeams(s, teamIds), []) == Expand(s, userIds, teamIds, [])
  {
    if teamIds != [] {
      var front, t := teamIds[..|teamIds| - 1], teamIds[|teamIds| - 1];
      ExpandTeams(s, userIds, front);
      var kept := ActiveTeams(s, front);
      if t in s.teams && s.teams[t].status.Active? {
        assert (kept + [t])[..|kept|] == kept;
      } else {
        assert kept + [] == kept && Expand(s, userIds, front, []) + [] == Expand(s, userIds, front, []);
      }
    }
  }

  lemma {:induction false} ExpandLists(s: State, userIds: seq<Id>, teamIds: seq<Id>, listIds: seq<Id>)
    ensures Expand(s, userIds, ActiveTeams(s, teamIds), ActiveLists(s, listIds)) == Expand(s, userIds, teamIds, listIds)
  {
    if listIds == [] {
      ExpandTeams(s, userIds, teamIds);
    } else {
      var front, l := listIds[..|listIds| - 1], listIds[|listIds| - 1];
      ExpandLists(s, userIds, teamIds, front);
      var kept := ActiveLists(s, front);
      if l in s.lists && s.lists[l].status.Active? {
        assert (kept + [l])[..|kept|] == kept;
      } else {
        assert kept + [] == kept && Expand(s, userIds, teamIds, front) + [] == Expand(s, userIds, teamIds, front);
      }
    }
  }

  /** Archived or unknown teams and lists, wherever they stand in the selection, change
      nothing: two selections resolve alike once their active teams and lists are the same. */
  lemma {:induction false} InactiveSelectionsIgnored(s: State, userIds: seq<Id>, teams: seq<Id>, lists: seq<Id>, teams': seq<Id>, lists': seq<Id>)
    requires ActiveTeams(s, teams) == ActiveTeams(s, teams') && ActiveLists(s, lists) == ActiveLists(s, lists')
    ensures Resolution(s, userIds, teams, lists) == Resolution(s, userIds, teams', lists')
  {
    ExpandLists(s, userIds, teams, lists);
    ExpandLists(s, userIds, teams', lists');
  }

  /* ---------- the service over updatable tables ---------- */

  class DirectoryService {
    var users: map<Id, User>
    var order: seq<Id>
    var teams: map<Id, Team>
    var lists: map<Id, RecipientList>
    var territories: set<string>
    var consents: seq<Consent>
    var audit: seq<Audit>

    constructor ()
      ensures Now() == State(map[], [], map[], map[], {}, [], [])
    {
      users, order, teams, lists, territories, consents, audit := map[], [], map[], map[], {}, [], [];
    }

    ghost function Now(): State
      reads this
    {
      State(users, order, teams, lists, territories, consents, audit)
    }

    method EnsureTeamActive(team: Id) returns (r: Reply)
      ensures r == TeamReply(teams, team)
    {
      if team !in teams { return TeamNotFound; }
      if !teams[team].status.Active? { return TeamInactive; }
      r := Done;
    }

    method CreateUser(id: Id, name: string, mobile: string, role: Role, team: Id) returns (r: Reply)
      requires id !in users   // a fresh UUID
      modifies this
      ensures r == ReplyTo(old(Now()), Op.CreateUser(id, name, mobile, role, team))
      ensures Now() == Apply(old(Now()), Op.CreateUser(id, name, mobile, role, team))
    {
      if role.Administrator? { return RoleNotAllowed; }
      r := EnsureTeamActive(team);
      if !r.Done? { return; }
      if MobileInUse(users, mobile, {}) { return MobileTaken; }
      users := users[id := User(id, role, Active, 1, Some(name), Some(mobile), Some(team))];
      order := order + [id];
      audit := audit + [Audit(UserCreated, id)];
    }

    method UpdateDirectoryFields(id: Id, name: string, mobile: string, team: Id, expected: nat) returns (updated: bool)
      modifies this`users
      ensures updated == (id in old(users) && old(users)[id].version == expected)
      ensures users == if updated
                       then old(users)[id := old(users)[id].(name := Some(name), mobile := Some(mobile), team := Some(team), version := expected + 1)]
                       else old(users)
    {
      updated := id in users && users[id].version == expected;
      if updated {
        users := users[id := users[id].(name := Some(name), mobile := Some(mobile), team := Some(team), version := expected + 1)];
      }
    }

    method RevokeActive(id: Id, at: int) returns (revoked: bool)
      modifies this`consents
      ensures consents == RevokedFor(old(consents), id, at)
      ensures revoked == HasActiveConsent(old(consents), id)
    {
      revoked := false;
      var k := 0;
      while k < |consents|
        invariant 0 <= k <= |consents| == |old(consents)|
        invariant consents[..k] == RevokedFor(old(consents), id, at)[..k]
        invariant consents[k..] == old(consents)[k..]
        invariant revoked <==> exists i :: 0 <= i < k && ActiveAt(old(consents), i, id)
      {
        assert consents[k] == consents[k..][0] == old(consents)[k];
        if consents[k].user == id && consents[k].revokedAt.None? {
          assert ActiveAt(old(consents), k, id);
          consents := consents[k := consents[k].(revokedAt := Some(at))];
          revoked := true;
        }
        k := k + 1;
      }
    }

    method UpdateUser(id: Id, name: string, mobile: string, team: Id, expected: nat, at: int) returns (r: Reply)
      modifies this
      ensures r == ReplyTo(old(Now()), Op.UpdateUser(id, name, mobile, team, expected, at))
      ensures Now() == Apply(old(Now()), Op.UpdateUser(id, name, mobile, team, expected, at))
      ensures r.Done? ==> id in users && users[id].name == Some(name) && users[id].mobile == Some(mobile) && users[id].team == Some(team)
    {
      if id !in users { return UserNotFound; }
      var target := users[id];
      if target.role.Administrator? { return CannotEditAdministrator; }
      if target.version != expected { return VersionConflict; }
      var mobileChanged := target.mobile != Some(mobile);
      r := EnsureTeamActive(team);
      if !r.Done? { return; }
      if MobileInUse(users, mobile, {id}) { return MobileTaken; }
      var updated := UpdateDirectoryFields(id, name, mobile, team, expected);
      if !updated { return VersionConflict; }
      if mobileChanged {
        var revoked := RevokeActive(id, at);
        if revoked { audit := audit + [Audit(ConsentAutoRevoked, id)]; }
      }
      audit := audit + [Audit(UserUpdated, id)];
    }

    // LastAdministratorGuard.ensure_can_deactivate, run alone.
    method EnsureCanDeactivate(target: User) returns (r: Reply)
      ensures r == if target.role.Administrator? && target.status.Active? && |ActiveAdministrators(users)| <= 1
                   then LastAdministrator else Done
    {
      if !target.role.Administrator? || !target.status.Active? { return Done; }
      var count := |ActiveAdministrators(users)|;
      r := if count <= 1 then LastAdministrator else Done;
    }

    method RemoveUser(id: Id) returns (r: Reply)
      modifies this
      ensures r == ReplyTo(old(Now()), Op.RemoveUser(id))
      ensures Now() == Apply(old(Now()), Op.RemoveUser(id))
      ensures r.Done? ==> id in users && users[id].status == Inactive
      ensures ActiveAdministrators(old(users)) != {} ==> ActiveAdministrators(users) != {}
    {
      if id !in users { return UserNotFound; }
      r := EnsureCanDeactivate(users[id]);
      if !r.Done? { return; }
      users := users[id := users[id].(status := Inactive, version := users[id].version + 1)];
      audit := audit + [Audit(UserDeactivated, id)];
      RemovalLeavesOne(old(users), id, users);
    }

    method UpdateTeam(id: Id, name: string, expected: nat) returns (r: Reply)
      modifies this
      ensures r == ReplyTo(old(Now()), Op.UpdateTeam(id, name, expected))
      ensures Now() == Apply(old(Now()), Op.UpdateTeam(id, name, expected))
    {
      if id !in teams { return TeamNotFound; }
      var target := teams[id];
      if target.version != expected { return VersionConflict; }
      var trimmed := Strip(name);
      if TeamNamed(teams, trimmed, {id}) { return TeamNameTaken; }
      var oldTerritory := Territory(target.name);
      if oldTerritory != Lower(trimmed) && oldTerritory in territories { return TeamRenameBreaksTerritoryMapping; }
      teams := teams[id := target.(name := trimmed, version := target.version + 1)];
      audit := audit + [Audit(TeamUpdated, id)];
      r := Done;
    }

    method DedupeIds(ids: seq<Id>) returns (r: seq<Id>)
      ensures r == Dedupe(ids)
    {
      r := [];
      for i := 0 to |ids|
        invariant r == Dedupe(ids[..i])
      {
        assert ids[..i + 1][..|ids[..i + 1]| - 1] == ids[..i];
        if ids[i] !in r { r := r + [ids[i]]; }
      }
      assert ids[..|ids|] == ids;
    }

    method EnsureMembersValid(members: seq<Id>) returns (r: Reply)
      ensures r == MembersReply(users, members)
    {
      for i := 0 to |members|
        invariant MembersReply(users, members) == MembersReply(users, members[i..])
      {
        var u := members[i];
        assert members[i..][1..] == members[i + 1..];
        if u !in users { return MemberNotFound; }
        if !users[u].status.Active? { return MemberInactive; }
        if users[u].mobile.None? { return MemberNotAddressable; }
      }
      r := Done;
    }

    method UpdateRecipientList(id: Id, name: string, kind: ListKind, members: seq<Id>, expected: nat) returns (r: Reply)
      modifies this
      ensures r == ReplyTo(old(Now()), UpdateList(id, name, kind, members, expected))
      ensures Now() == Apply(old(Now()), UpdateList(id, name, kind, members, expected))
    {
      if id !in lists { return ListNotFound; }
      var target := lists[id];
      if target.version != expected { return VersionConflict; }
      var trimmed := Strip(name);
      if ListNamed(lists, trimmed, {id}) { return ListNameTaken; }
      var unique := DedupeIds(members);
      r := EnsureMembersValid(unique);
      if !r.Done? { return; }
      lists := lists[id := target.(name := trimmed, kind := kind, members := unique, version := target.version + 1)];
      audit := audit + [Audit(ListUpdated, id)];
    }

    method GrantConsent(id: Id, at: int) returns (r: Reply)
      modifies this
      ensures r == ReplyTo(old(Now()), Op.GrantConsent(id, at))
      ensures Now() == Apply(old(Now()), Op.GrantConsent(id, at))
    {
      if id !in users { return UserNotFound; }
      var target := users[id];
      if target.mobile.None? { return ConsentTargetNotAddressable; }
      if HasActiveConsent(consents, id) { return ConsentAlreadyActive; }
      consents := consents + [Consent(id, target.mobile.value, at, None)];
      audit := audit + [Audit(ConsentGranted, id)];
      r := Done;
    }

    method RevokeConsent(id: Id, at: int) returns (r: Reply)
      modifies this
      ensures r == ReplyTo(old(Now()), Op.RevokeConsent(id, at))
      ensures Now() == Apply(old(Now()), Op.RevokeConsent(id, at))
    {
      if id !in users { return UserNotFound; }
      if users[id].mobile.None? { return ConsentTargetNotAddressable; }
      if !HasActiveConsent(consents, id) { return ConsentNotActive; }
      var revoked := RevokeActive(id, at);
      if !revoked { return ConsentNotActive; }
      audit := audit + [Audit(ConsentRevoked, id)];
      r := Done;
    }

    method ListByTeamId(team: Id) returns (r: seq<Id>)
      ensures r == MembersOf(Now(), order, team)
    {
      r := [];
      for i := 0 to |order|
        invariant r == MembersOf(Now(), order[..i], team)
      {
        assert order[..i + 1][..|order[..i + 1]| - 1] == order[..i];
        if order[i] in users && users[order[i]].team == Some(team) { r := r + [order[i]]; }
      }
      assert order[..|order|] == order;
    }

    method ExpandSelection(userIds: seq<Id>, teamIds: seq<Id>, listIds: seq<Id>) returns (expanded: seq<Id>)
      ensures expanded == Expand(Now(), userIds, teamIds, listIds)
    {
      expanded := userIds;
      for i := 0 to |teamIds|
        invariant expanded == Expand(Now(), userIds, teamIds[..i], [])
      {
        assert teamIds[..i + 1][..|teamIds[..i + 1]| - 1] == teamIds[..i];
        var team := teamIds[i];
        if team !in teams || !teams[team].status.Active? { continue; }
        var members := ListByTeamId(team);
        expanded := expanded + members;
      }
      assert teamIds[..|teamIds|] == teamIds;
      for i := 0 to |listIds|
        invariant expanded == Expand(Now(), userIds, teamIds, listIds[..i])
      {
        assert listIds[..i + 1][..|listIds[..i + 1]| - 1] == listIds[..i];
        var l := listIds[i];
        if l !in lists || !lists[l].status.Active? { continue; }
        expanded := expanded + lists[l].members;
      }
      assert listIds[..|listIds|] == listIds;
    }

    method KeepSendable(deduped: seq<Id>) returns (sendable: seq<Id>, ineligible: nat)
      ensures sendable == SendableOf(Now(), deduped) && ineligible == |deduped| - |sendable|
    {
      sendable, ineligible := [], 0;
      for i := 0 to |deduped|
        invariant sendable == SendableOf(Now(), deduped[..i])
        invariant ineligible == i - |sendable|
      {
        assert deduped[..i + 1][..|deduped[..i + 1]| - 1] == deduped[..i];
        var u := deduped[i];
        if u !in users || !users[u].status.Active? || users[u].mobile.None? || !HasActiveConsent(consents, u) {
          ineligible := ineligible + 1;
          continue;
        }
        sendable := sendable + [u];
      }
      assert deduped[..|deduped|] == deduped;
    }

    method Resolve(userIds: seq<Id>, teamIds: seq<Id>, listIds: seq<Id>) returns (r: Resolved)
      ensures r == Resolution(Now(), userIds, teamIds, listIds)
      ensures forall u :: u in r.ids <==> Selects(Now(), userIds, teamIds, listIds, u) && MayReceive(Now(), u)
      ensures Distinct(r.ids) && r.selected == |userIds| + SelectedEntries(Now(), teamIds, listIds)
      ensures r.selected == r.overlap + r.ineligible + r.unique && r.unique == |r.ids|
    {
      var expanded := ExpandSelection(userIds, teamIds, listIds);
      var deduped := DedupeIds(expanded);
      var sendable, ineligible := KeepSendable(deduped);
      DedupeMembers(expanded);
      r := Resolved(|expanded|, |expanded| - |deduped|, ineligible, |sendable|, sendable);
      ghost var named := WhoReceives(Now(), userIds, teamIds, listIds);
    }
  }

  /** Deactivating a user the guard let through leaves an active Administrator. */
  lemma RemovalLeavesOne(users: map<Id, User>, id: Id, users': map<Id, User>)
    requires id in users && users' == users[id := users[id].(status := Inactive, version := users[id].version + 1)]
    requires id in ActiveAdministrators(users) ==> |ActiveAdministrators(users)| > 1
    ensures ActiveAdministrators(users) != {} ==> ActiveAdministrators(users') != {}
  {
    assert ActiveAdministrators(users') == ActiveAdministrators(users) - {id};
    if id in ActiveAdministrators(users) {
      assert |ActiveAdministrators(users')| == |ActiveAdministrators(users)| - 1;
    } else {
      assert ActiveAdministrators(users') == ActiveAdministrators(users);
    }
  }
}

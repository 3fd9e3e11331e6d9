/** Users, teams, recipient lists and opt-in consents as a table state with serialized
    operations (domain/recipients.py, adapters/persistence/users.py, consent.py). */
module Directory {
  import opened Prelude
  import opened Strings

  datatype Role = Administrator | SalesUser | Manager

  datatype Status = Active | Inactive

  datatype User = User(id: Id, role: Role, status: Status, version: nat, name: Option<string>, mobile: Option<string>, team: Option<Id>)

  datatype Team = Team(id: Id, name: string, status: Status, version: nat)

  datatype ListKind = Group | Channel

  datatype RecipientList = RecipientList(id: Id, name: string, kind: ListKind, status: Status, version: nat, members: seq<Id>)

  datatype Consent = Consent(user: Id, mobile: string, grantedAt: int, revokedAt: Option<int>)

  datatype Action = UserCreated | UserUpdated | UserDeactivated | TeamCreated | TeamUpdated | TeamDeactivated
                  | ListCreated | ListUpdated | ListDeactivated | ConsentGranted | ConsentRevoked | ConsentAutoRevoked

  datatype Audit = Audit(action: Action, entity: Id)

  datatype State = State(
    users: map<Id, User>, order: seq<Id>,      // order: the users in creation order
    teams: map<Id, Team>, lists: map<Id, RecipientList>,
    territories: set<string>,                  // normalized Doctor territories
    consents: seq<Consent>, audit: seq<Audit>)

  datatype Op =
    | CreateUser(id: Id, name: string, mobile: string, role: Role, team: Id)
    | UpdateUser(id: Id, name: string, mobile: string, team: Id, expected: nat, at: int)
    | RemoveUser(id: Id)
    | CreateTeam(id: Id, name: string)
    | UpdateTeam(id: Id, name: string, expected: nat)
    | RemoveTeam(id: Id)
    | CreateList(id: Id, name: string, kind: ListKind, members: seq<Id>)
    | UpdateList(id: Id, name: string, kind: ListKind, members: seq<Id>, expected: nat)
    | RemoveList(id: Id)
    | GrantConsent(id: Id, at: int)
    | RevokeConsent(id: Id, at: int)

  datatype Reply = Done | RoleNotAllowed | UserNotFound | CannotEditAdministrator | VersionConflict | MobileTaken
                 | TeamNotFound | TeamInactive | TeamNameTaken | TeamRenameBreaksTerritoryMapping | LastAdministrator
                 | ListNotFound | ListNameTaken | MemberNotFound | MemberInactive | MemberNotAddressable
                 | ConsentTargetNotAddressable | ConsentAlreadyActive | ConsentNotActive

  /* ---------- lookups ---------- */

  predicate MobileInUse(users: map<Id, User>, mobile: string, except: set<Id>) {
    exists u :: u in users && u !in except && users[u].status.Active? && users[u].mobile == Some(mobile)
  }

  function ActiveAdministrators(users: map<Id, User>): set<Id> {
    set u | u in users && users[u].role.Administrator? && users[u].status.Active?
  }

  predicate ActiveAt(consents: seq<Consent>, i: int, user: Id) {
    0 <= i < |consents| && consents[i].user == user && consents[i].revokedAt.None?
  }

  predicate HasActiveConsent(consents: seq<Consent>, user: Id) {
    exists i :: 0 <= i < |consents| && ActiveAt(consents, i, user)
  }

  // UPDATE ... SET revoked_at WHERE user_id = user AND revoked_at IS NULL
  function RevokedFor(consents: seq<Consent>, user: Id, at: int): (r: seq<Consent>)
    ensures |r| == |consents|
    ensures forall i :: 0 <= i < |r| ==>
              r[i] == (if ActiveAt(consents, i, user) then consents[i].(revokedAt := Some(at)) else consents[i])
  {
    seq(|consents|, i requires 0 <= i < |consents| =>
      if ActiveAt(consents, i, user) then consents[i].(revokedAt := Some(at)) else consents[i])
  }

  // get_by_name: the active team or list of that name, other than one.
  predicate TeamNamed(teams: map<Id, Team>, name: string, except: set<Id>) {
    exists t :: t in teams && t !in except && teams[t].status.Active? && teams[t].name == name
  }

  predicate ListNamed(lists: map<Id, RecipientList>, name: string, except: set<Id>) {
    exists l :: l in lists && l !in except && lists[l].status.Active? && lists[l].name == name
  }

  function TeamReply(teams: map<Id, Team>, team: Id): Reply {
    if team !in teams then TeamNotFound else if teams[team].status.Active? then Done else TeamInactive
  }

  function MemberReply(users: map<Id, User>, u: Id): Reply {
    if u !in users then MemberNotFound
    else if !users[u].status.Active? then MemberInactive
    else if users[u].mobile.None? then MemberNotAddressable
    else Done
  }

  function MembersReply(users: map<Id, User>, members: seq<Id>): Reply {
    if members == [] then Done
    else if !MemberReply(users, members[0]).Done? then MemberReply(users, members[0])
    else MembersReply(users, members[1..])
  }

  function LowerChar(c: char): char { if 'A' <= c <= 'Z' then (c as int + 32) as char else c }

  function Lower(s: string): string { seq(|s|, i requires 0 <= i < |s| => LowerChar(s[i])) }

  function Territory(name: string): string { Lower(Strip(name)) }

  /* ---------- the operations ---------- */

  function UpdateUserReply(s: State, op: Op): Reply
    requires op.UpdateUser?
  {
    if op.id !in s.users then UserNotFound
    else if s.users[op.id].role.Administrator? then CannotEditAdministrator
    else if s.users[op.id].version != op.expected then VersionConflict
    else if !TeamReply(s.teams, op.team).Done? then TeamReply(s.teams, op.team)
    else if MobileInUse(s.users, op.mobile, {op.id}) then MobileTaken
    else Done
  }

  function UpdateTeamReply(s: State, op: Op): Reply
    requires op.UpdateTeam?
  {
    if op.id !in s.teams then TeamNotFound
    else if s.teams[op.id].version != op.expected then VersionConflict
    else if TeamNamed(s.teams, Strip(op.name), {op.id}) then TeamNameTaken
    else if Territory(s.teams[op.id].name) != Lower(Strip(op.name)) && Territory(s.teams[op.id].name) in s.territories
      then TeamRenameBreaksTerritoryMapping
    else Done
  }

  function UpdateListReply(s: State, op: Op): Reply
    requires op.UpdateList?
  {
    if op.id !in s.lists then ListNotFound
    else if s.lists[op.id].version != op.expected then VersionConflict
    else if ListNamed(s.lists, Strip(op.name), {op.id}) then ListNameTaken
    else MembersReply(s.users, Dedupe(op.members))
  }

  function ReplyTo(s: State, op: Op): Reply {
    match op
    case CreateUser(id, name, mobile, role, team) =>
      if role.Administrator? then RoleNotAllowed
      else if !TeamReply(s.teams, team).Done? then TeamReply(s.teams, team)
      else if MobileInUse(s.users, mobile, {}) then MobileTaken
      else Done
    case UpdateUser(_, _, _, _, _, _) => UpdateUserReply(s, op)
    case RemoveUser(id) =>
      if id !in s.users then UserNotFound
      else if id in ActiveAdministrators(s.users) && |ActiveAdministrators(s.users)| <= 1 then LastAdministrator
      else Done
    case CreateTeam(_, name) => if TeamNamed(s.teams, Strip(name), {}) then TeamNameTaken else Done
    case UpdateTeam(_, _, _) => UpdateTeamReply(s, op)
    case RemoveTeam(id) => if id !in s.teams then TeamNotFound else Done
    case CreateList(_, name, _, members) =>
      if ListNamed(s.lists, Strip(name), {}) then ListNameTaken else MembersReply(s.users, Dedupe(members))
    case UpdateList(_, _, _, _, _) => UpdateListReply(s, op)
    case RemoveList(id) => if id !in s.lists then ListNotFound else Done
    case GrantConsent(id, _) =>
      if id !in s.users then UserNotFound
      else if s.users[id].mobile.None? then ConsentTargetNotAddressable
      else if HasActiveConsent(s.consents, id) then ConsentAlreadyActive
      else Done
    case RevokeConsent(id, _) =>
      if id !in s.users then UserNotFound
      else if s.users[id].mobile.None? then ConsentTargetNotAddressable
      else if !HasActiveConsent(s.consents, id) then ConsentNotActive
      else Done
  }

  function WithUpdatedUser(s: State, op: Op): State
    requires op.UpdateUser? && op.id in s.users
  {
    var u := s.users[op.id];
    var changed := u.mobile != Some(op.mobile);
    s.(users := s.users[op.id := u.(name := Some(op.name), mobile := Some(op.mobile), team := Some(op.team), version := u.version + 1)],
       consents := if changed then RevokedFor(s.consents, op.id, op.at) else s.consents,
       audit := s.audit + (if changed && HasActiveConsent(s.consents, op.id) then [Audit(ConsentAutoRevoked, op.id)] else [])
                + [Audit(UserUpdated, op.id)])
  }

  function Apply(s: State, op: Op): State {
    if !ReplyTo(s, op).Done? then s
    else
      match op
      case CreateUser(id, name, mobile, role, team) =>
        s.(users := s.users[id := User(id, role, Active, 1, Some(name), Some(mobile), Some(team))],
           order := s.order + [id], audit := s.audit + [Audit(UserCreated, id)])
      case UpdateUser(_, _, _, _, _, _) => WithUpdatedUser(s, op)
      case RemoveUser(id) =>
        s.(users := s.users[id := s.users[id].(status := Inactive, version := s.users[id].version + 1)],
           audit := s.audit + [Audit(UserDeactivated, id)])
      case CreateTeam(id, name) =>
        s.(teams := s.teams[id := Team(id, Strip(name), Active, 1)], audit := s.audit + [Audit(TeamCreated, id)])
      case UpdateTeam(id, name, _) =>
        s.(teams := s.teams[id := s.teams[id].(name := Strip(name), version := s.teams[id].version + 1)],
           audit := s.audit + [Audit(TeamUpdated, id)])
      case RemoveTeam(id) =>
        s.(teams := s.teams[id := s.teams[id].(status := Inactive, version := s.teams[id].version + 1)],
           audit := s.audit + [Audit(TeamDeactivated, id)])
      case CreateList(id, name, kind, members) =>
        s.(lists := s.lists[id := RecipientList(id, Strip(name), kind, Active, 1, Dedupe(members))],
           audit := s.audit + [Audit(ListCreated, id)])
      case UpdateList(id, name, kind, members, _) =>
        s.(lists := s.lists[id := s.lists[id].(name := Strip(name), kind := kind, members := Dedupe(members), version := s.lists[id].version + 1)],
           audit := s.audit + [Audit(ListUpdated, id)])
      case RemoveList(id) =>
        s.(lists := s.lists[id := s.lists[id].(status := Inactive, version := s.lists[id].version + 1)],
           audit := s.audit + [Audit(ListDeactivated, id)])
      case GrantConsent(id, at) =>
        s.(consents := s.consents + [Consent(id, s.users[id].mobile.value, at, None)],
           audit := s.audit + [Audit(ConsentGranted, id)])
      case RevokeConsent(id, at) =>
        s.(consents := RevokedFor(s.consents, id, at), audit := s.audit + [Audit(ConsentRevoked, id)])
  }

  /* ---------- what each operation answers and stores, field by field ---------- */

  // Another active user has the number.
  ghost predicate NumberTaken(s: State, mobile: string, id: Id) {
    exists u :: u in s.users && u != id && s.users[u].status == Active && s.users[u].mobile == Some(mobile)
  }

  ghost predicate HasActiveTeam(s: State, team: Id) {
    team in s.teams && s.teams[team].status == Active
  }

  ghost predicate HasUnrevoked(s: State, user: Id) {
    exists i :: 0 <= i < |s.consents| && s.consents[i].user == user && s.consents[i].revokedAt == None
  }

  // Exactly the user's unrevoked consents were revoked.
  ghost predicate RevokedExactly(before: seq<Consent>, after: seq<Consent>, user: Id, at: int) {
    && |after| == |before|
    && forall i :: 0 <= i < |before| ==>
         after[i] == (if before[i].user == user && before[i].revokedAt == None
                      then Consent(user, before[i].mobile, before[i].grantedAt, Some(at)) else before[i])
  }

  /** Creating a user: never an Administrator, only into an active team and with a free number. */
  lemma CreateUserMeaning(s: State, id: Id, name: string, mobile: string, role: Role, team: Id)
    requires id !in s.users
    ensures var op := CreateUser(id, name, mobile, role, team); var r, s' := ReplyTo(s, op), Apply(s, op);
            && (r == RoleNotAllowed <==> role == Administrator)
            && (r == TeamNotFound <==> role != Administrator && team !in s.teams)
            && (r == TeamInactive <==> role != Administrator && team in s.teams && s.teams[team].status == Inactive)
            && (r == MobileTaken <==> role != Administrator && HasActiveTeam(s, team) && NumberTaken(s, mobile, id))
            && (r == Done <==> role != Administrator && HasActiveTeam(s, team) && !NumberTaken(s, mobile, id))
            && (r != Done ==> s' == s)
            && (r == Done ==> s' == s.(users := s.users[id := User(id, role, Active, 1, Some(name), Some(mobile), Some(team))],
                                       order := s.order + [id], audit := s.audit + [Audit(UserCreated, id)]))
  {}

  /** Saving a user: the replies in the order they are looked for, and on success the requested
      name, number and team on that user alone, every active consent revoked if and only if the
      number changes, and the audit entries saying so. */
  lemma UpdateUserMeaning(s: State, id: Id, name: string, mobile: string, team: Id, expected: nat, at: int)
    ensures var r := ReplyTo(s, UpdateUser(id, name, mobile, team, expected, at));
            var current := id in s.users && s.users[id].role != Administrator && s.users[id].version == expected;
            && (r == UserNotFound <==> id !in s.users)
            && (r == CannotEditAdministrator <==> id in s.users && s.users[id].role == Administrator)
            && (r == VersionConflict <==> id in s.users && s.users[id].role != Administrator && s.users[id].version != expected)
            && (r == TeamNotFound <==> current && team !in s.teams)
            && (r == TeamInactive <==> current && team in s.teams && s.teams[team].status == Inactive)
            && (r == MobileTaken <==> current && HasActiveTeam(s, team) && NumberTaken(s, mobile, id))
            && (r == Done <==> current && HasActiveTeam(s, team) && !NumberTaken(s, mobile, id))
    ensures var r, s' := ReplyTo(s, UpdateUser(id, name, mobile, team, expected, at)), Apply(s, UpdateUser(id, name, mobile, team, expected, at));
            && (r != Done ==> s' == s)
            && (r == Done ==>
                  var was := s.users[id];
                  && s' == s.(users := s.users[id := User(was.id, was.role, was.status, expected + 1, Some(name), Some(mobile), Some(team))],
                              consents := s'.consents, audit := s'.audit)
                  && (if was.mobile == Some(mobile) then s'.consents == s.consents else RevokedExactly(s.consents, s'.consents, id, at))
                  && s'.audit == s.audit + (if was.mobile != Some(mobile) && HasUnrevoked(s, id) then [Audit(ConsentAutoRevoked, id)] else [])
                                 + [Audit(UserUpdated, id)])
  {
    assert HasUnrevoked(s, id) <==> HasActiveConsent(s.consents, id) by { UnrevokedIsActive(s, id); }
  }

  lemma UnrevokedIsActive(s: State, user: Id)
    ensures HasUnrevoked(s, user) <==> HasActiveConsent(s.consents, user)
  {
    if i :| 0 <= i < |s.consents| && s.consents[i].user == user && s.consents[i].revokedAt == None {
      assert ActiveAt(s.consents, i, user);
    }
  }

  lemma AtMostOne(s: set<Id>, x: Id)
    requires x in s
    ensures |s| <= 1 <==> forall y :: y in s ==> y == x
  {
    var others := s - {x};
    assert s == {x} + others;
    assert |s| == 1 + |others|;
    assert (forall y :: y in s ==> y == x) <==> others == {};
  }

  /** Removing a user: refused exactly for the only active Administrator; otherwise that user,
      and nobody else, becomes inactive. */
  lemma RemoveUserMeaning(s: State, id: Id)
    ensures var r, s' := ReplyTo(s, RemoveUser(id)), Apply(s, RemoveUser(id));
            && (r == UserNotFound <==> id !in s.users)
            && (r == LastAdministrator <==>
                  && id in s.users && s.users[id].role == Administrator && s.users[id].status == Active
                  && forall u :: u in s.users && u != id ==> s.users[u].role != Administrator || s.users[u].status == Inactive)
            && (r == UserNotFound || r == LastAdministrator || r == Done)
            && (r != Done ==> s' == s)
            && (r == Done ==>
                  var was := s.users[id];
                  s' == s.(users := s.users[id := User(was.id, was.role, Inactive, was.version + 1, was.name, was.mobile, was.team)],
                           audit := s.audit + [Audit(UserDeactivated, id)]))
  {
    if id in ActiveAdministrators(s.users) {
      AtMostOne(ActiveAdministrators(s.users), id);
      if forall u :: u in s.users && u != id ==> s.users[u].role != Administrator || s.users[u].status == Inactive {
        assert forall y :: y in ActiveAdministrators(s.users) ==> y == id;
      } else {
        var u :| u in s.users && u != id && s.users[u].role == Administrator && s.users[u].status != Inactive;
        assert u in ActiveAdministrators(s.users);
      }
    }
  }

  ghost predicate TeamNameUsed(s: State, name: string, id: Id) {
    exists t :: t in s.teams && t != id && s.teams[t].status == Active && s.teams[t].name == name
  }

  ghost predicate ListNameUsed(s: State, name: string, id: Id) {
    exists l :: l in s.lists && l != id && s.lists[l].status == Active && s.lists[l].name == name
  }

  /** Creating and removing a team. */
  lemma TeamMeaning(s: State, id: Id, name: string)
    ensures id !in s.teams ==>
              var r, s' := ReplyTo(s, CreateTeam(id, name)), Apply(s, CreateTeam(id, name));
              && r == (if TeamNameUsed(s, Strip(name), id) then TeamNameTaken else Done)
              && s' == (if TeamNameUsed(s, Strip(name), id) then s
                        else s.(teams := s.teams[id := Team(id, Strip(name), Active, 1)], audit := s.audit + [Audit(TeamCreated, id)]))
    ensures var r, s' := ReplyTo(s, RemoveTeam(id)), Apply(s, RemoveTeam(id));
            && r == (if id in s.teams then Done else TeamNotFound)
            && s' == (if id in s.teams
                      then s.(teams := s.teams[id := Team(s.teams[id].id, s.teams[id].name, Inactive, s.teams[id].version + 1)],
                              audit := s.audit + [Audit(TeamDeactivated, id)]) else s)
  {}

  /** Renaming a team is refused while doctors still refer to its name, unless the new one
      differs in case and surrounding white space only. */
  lemma RenameMeaning(s: State, id: Id, name: string, expected: nat)
    ensures var r := ReplyTo(s, UpdateTeam(id, name, expected));
            var current := id in s.teams && s.teams[id].version == expected;
            && (r == TeamNotFound <==> id !in s.teams)
            && (r == VersionConflict <==> id in s.teams && s.teams[id].version != expected)
            && (r == TeamNameTaken <==> current && TeamNameUsed(s, Strip(name), id))
            && (r == TeamRenameBreaksTerritoryMapping <==>
                  && current && !TeamNameUsed(s, Strip(name), id)
                  && Lower(Strip(s.teams[id].name)) in s.territories && !SameLetters(Strip(s.teams[id].name), Strip(name)))
            && (r == TeamNotFound || r == VersionConflict || r == TeamNameTaken || r == TeamRenameBreaksTerritoryMapping || r == Done)
  {
    if id in s.teams { LowerMeaning(Strip(s.teams[id].name), Strip(name)); }
  }

  lemma RenameStores(s: State, id: Id, name: string, expected: nat)
    ensures var r, s' := ReplyTo(s, UpdateTeam(id, name, expected)), Apply(s, UpdateTeam(id, name, expected));
            && (r != Done ==> s' == s)
            && (r == Done ==> s' == s.(teams := s.teams[id := Team(s.teams[id].id, Strip(name), s.teams[id].status, expected + 1)],
                                       audit := s.audit + [Audit(TeamUpdated, id)]))
  {}

  // The same letters up to the case of the ASCII ones.
  predicate SameLetter(a: char, b: char) {
    a == b || ('A' <= a <= 'Z' && b as int == a as int + 32) || ('A' <= b <= 'Z' && a as int == b as int + 32)
  }

  predicate SameLetters(a: string, b: string) {
    |a| == |b| && forall i :: 0 <= i < |a| ==> SameLetter(a[i], b[i])
  }

  lemma LowerMeaning(a: string, b: string)
    ensures Lower(a) == Lower(b) <==> SameLetters(a, b)
  {
    if SameLetters(a, b) {
      forall i | 0 <= i < |a| ensures Lower(a)[i] == Lower(b)[i] { assert SameLetter(a[i], b[i]); }
    }
    if Lower(a) == Lower(b) {
      assert |Lower(a)| == |a| && |Lower(b)| == |b|;
      forall i | 0 <= i < |a| ensures SameLetter(a[i], b[i]) { assert Lower(a)[i] == Lower(b)[i]; }
    }
  }

  ghost predicate MayBeMember(s: State, m: Id) {
    m in s.users && s.users[m].status == Active && s.users[m].mobile.Some?
  }

  // The first member that may not be one decides the reply.
  ghost predicate MemberError(s: State, members: seq<Id>, r: Reply) {
    exists k :: 0 <= k < |members| && !MayBeMember(s, members[k]) && (forall j :: 0 <= j < k ==> MayBeMember(s, members[j])) && r == ErrorFor(s, members[k])
  }

  ghost function ErrorFor(s: State, m: Id): Reply {
    if m !in s.users then MemberNotFound else if s.users[m].status == Inactive then MemberInactive else MemberNotAddressable
  }

  lemma {:induction false} MembersReplyFirst(s: State, members: seq<Id>)
    ensures MembersReply(s.users, members) == Done <==> forall m :: m in members ==> MayBeMember(s, m)
    ensures MembersReply(s.users, members) != Done ==> MemberError(s, members, MembersReply(s.users, members))
  {
    if members != [] {
      var rest := members[1..];
      assert members == [members[0]] + rest;
      MembersReplyFirst(s, rest);
      if !MayBeMember(s, members[0]) {
        assert MembersReply(s.users, members) == ErrorFor(s, members[0]);
      } else if MembersReply(s.users, members) != Done {
        var k :| 0 <= k < |rest| && !MayBeMember(s, rest[k]) && (forall j :: 0 <= j < k ==> MayBeMember(s, rest[j]))
                 && MembersReply(s.users, rest) == ErrorFor(s, rest[k]);
        assert members[k + 1] == rest[k];
        forall j | 0 <= j < k + 1 ensures MayBeMember(s, members[j]) { if j > 0 { assert members[j] == rest[j - 1]; } }
      }
    }
  }

  lemma MembersMeaning(s: State, members: seq<Id>)
    ensures MembersReply(s.users, Dedupe(members)) == Done <==> forall m :: m in members ==> MayBeMember(s, m)
    ensures MembersReply(s.users, Dedupe(members)) != Done ==> MemberError(s, Dedupe(members), MembersReply(s.users, Dedupe(members)))
  {
    MembersReplyFirst(s, Dedupe(members));
    DedupeMembers(members);
  }

  lemma MemberErrorIs(s: State, members: seq<Id>, r: Reply)
    requires MemberError(s, members, r)
    ensures r == MemberNotFound || r == MemberInactive || r == MemberNotAddressable
  {}

  /** Creating and removing a recipient list. */
  lemma {:induction false} ListMeaning(s: State, id: Id, name: string, kind: ListKind, members: seq<Id>)
    ensures id !in s.lists ==>
              var r, s' := ReplyTo(s, CreateList(id, name, kind, members)), Apply(s, CreateList(id, name, kind, members));
              && (r == ListNameTaken <==> ListNameUsed(s, Strip(name), id))
              && (r == Done <==> !ListNameUsed(s, Strip(name), id) && forall m :: m in members ==> MayBeMember(s, m))
              && (r == Done || r == ListNameTaken || MemberError(s, Dedupe(members), r))
              && s' == (if r == Done then s.(lists := s.lists[id := RecipientList(id, Strip(name), kind, Active, 1, Dedupe(members))],
                                             audit := s.audit + [Audit(ListCreated, id)]) else s)
    ensures var r, s' := ReplyTo(s, RemoveList(id)), Apply(s, RemoveList(id));
            && r == (if id in s.lists then Done else ListNotFound)
            && s' == (if id in s.lists
                      then s.(lists := s.lists[id := s.lists[id].(status := Inactive, version := s.lists[id].version + 1)],
                              audit := s.audit + [Audit(ListDeactivated, id)]) else s)
  {
    MembersMeaning(s, members);
    var r := MembersReply(s.users, Dedupe(members));
    if r != Done { MemberErrorIs(s, Dedupe(members), r); }
  }

  /** Saving a recipient list: its name, kind and members are replaced, or the first member that
      may not be one is reported. */
  lemma {:induction false} SaveListMeaning(s: State, id: Id, name: string, kind: ListKind, members: seq<Id>, expected: nat)
    ensures var r := ReplyTo(s, UpdateList(id, name, kind, members, expected));
            var current := id in s.lists && s.lists[id].version == expected;
            && (r == ListNotFound <==> id !in s.lists)
            && (r == VersionConflict <==> id in s.lists && s.lists[id].version != expected)
            && (r == ListNameTaken <==> current && ListNameUsed(s, Strip(name), id))
            && (r == Done <==> current && !ListNameUsed(s, Strip(name), id) && forall m :: m in members ==> MayBeMember(s, m))
            && (r == Done || r == ListNotFound || r == VersionConflict || r == ListNameTaken || MemberError(s, Dedupe(members), r))
    ensures var r, s' := ReplyTo(s, UpdateList(id, name, kind, members, expected)), Apply(s, UpdateList(id, name, kind, members, expected));
            s' == (if r == Done then s.(lists := s.lists[id := RecipientList(s.lists[id].id, Strip(name), kind, s.lists[id].status, expected + 1, Dedupe(members))],
                                        audit := s.audit + [Audit(ListUpdated, id)]) else s)
  {
    MembersMeaning(s, members);
    var r := MembersReply(s.users, Dedupe(members));
    if r != Done { MemberErrorIs(s, Dedupe(members), r); }
  }

  /** Granting and revoking a consent. */
  lemma ConsentMeaning(s: State, id: Id, at: int)
    ensures var r, s' := ReplyTo(s, GrantConsent(id, at)), Apply(s, GrantConsent(id, at));
            && (r == UserNotFound <==> id !in s.users)
            && (r == ConsentTargetNotAddressable <==> id in s.users && s.users[id].mobile == None)
            && (r == ConsentAlreadyActive <==> id in s.users && s.users[id].mobile.Some? && HasUnrevoked(s, id))
            && (r == Done <==> id in s.users && s.users[id].mobile.Some? && !HasUnrevoked(s, id))
            && s' == (if r == Done then s.(consents := s.consents + [Consent(id, s.users[id].mobile.value, at, None)],
                                           audit := s.audit + [Audit(ConsentGranted, id)]) else s)
    ensures var r, s' := ReplyTo(s, RevokeConsent(id, at)), Apply(s, RevokeConsent(id, at));
            && (r == UserNotFound <==> id !in s.users)
            && (r == ConsentTargetNotAddressable <==> id in s.users && s.users[id].mobile == None)
            && (r == ConsentNotActive <==> id in s.users && s.users[id].mobile.Some? && !HasUnrevoked(s, id))
            && (r == Done <==> id in s.users && s.users[id].mobile.Some? && HasUnrevoked(s, id))
            && (if r == Done then s' == s.(consents := s'.consents, audit := s.audit + [Audit(ConsentRevoked, id)])
                                  && RevokedExactly(s.consents, s'.consents, id, at)
                else s' == s)
  {
    UnrevokedIsActive(s, id);
  }

  // A new user, team or list gets a fresh UUID.
  predicate FreshId(s: State, op: Op) {
    && (op.CreateUser? ==> op.id !in s.users)
    && (op.CreateTeam? ==> op.id !in s.teams)
    && (op.CreateList? ==> op.id !in s.lists)
  }

  ghost predicate Legal(s: State, ops: seq<Op>)
    decreases |ops|
  {
    ops == [] || (FreshId(s, ops[0]) && Legal(Apply(s, ops[0]), ops[1..]))
  }

  ghost function ApplyAll(s: State, ops: seq<Op>): State
    decreases |ops|
  {
    if ops == [] then s else ApplyAll(Apply(s, ops[0]), ops[1..])
  }

  /* ---------- what every run keeps ---------- */

  // Consents live for the number they were granted for, one active at a time; active
  // users never share a number, so the partial unique indexes never fire.
  ghost predicate Inv(s: State) {
    MobilesDistinct(s) && ConsentsCurrent(s) && OneActiveEach(s)
  }

  // Every active consent belongs to a known user and names that user's number.
  ghost predicate ConsentsCurrent(s: State) {
    forall i :: 0 <= i < |s.consents| && s.consents[i].revokedAt.None? ==>
                  s.consents[i].user in s.users && s.users[s.consents[i].user].mobile == Some(s.consents[i].mobile)
  }

  ghost predicate OneActiveEach(s: State) {
    forall i, j :: 0 <= i < j < |s.consents| && s.consents[i].revokedAt.None? && s.consents[j].revokedAt.None? ==>
                     s.consents[i].user != s.consents[j].user
  }

  ghost predicate MobilesDistinct(s: State) {
    && (forall u :: u in s.users ==> s.users[u].id == u)
    && (forall u, v :: u in s.users && v in s.users && u != v && s.users[u].status.Active? && s.users[v].status.Active? && s.users[u].mobile.Some? ==>
          s.users[u].mobile != s.users[v].mobile)
  }

  lemma MobilesKept(s: State, op: Op)
    requires MobilesDistinct(s) && FreshId(s, op)
    ensures MobilesDistinct(Apply(s, op))
  {}

  lemma ConsentsKept(s: State, op: Op)
    requires ConsentsCurrent(s) && FreshId(s, op)
    ensures ConsentsCurrent(Apply(s, op))
  {
    var s' := Apply(s, op);
    forall i | 0 <= i < |s'.consents| && s'.consents[i].revokedAt.None?
      ensures s'.consents[i].user in s'.users && s'.users[s'.consents[i].user].mobile == Some(s'.consents[i].mobile)
    {
      if i < |s.consents| { assert s'.consents[i] == s.consents[i]; }
    }
  }

  lemma OneActiveKept(s: State, op: Op)
    requires OneActiveEach(s)
    ensures OneActiveEach(Apply(s, op))
  {
    if op.GrantConsent? && ReplyTo(s, op).Done? {
      forall i | 0 <= i < |s.consents| && s.consents[i].revokedAt.None? ensures s.consents[i].user != op.id {
        assert !ActiveAt(s.consents, i, op.id);
      }
    }
  }

  lemma ApplyKeeps(s: State, op: Op)
    requires Inv(s) && FreshId(s, op)
    ensures Inv(Apply(s, op))
  {
    MobilesKept(s, op);
    ConsentsKept(s, op);
    OneActiveKept(s, op);
  }

  /** In every state of every run each user has at most one active consent, recorded for the
      number the user has now, and active users have distinct numbers. */
  lemma {:induction false} RunKeeps(s: State, ops: seq<Op>)
    requires Inv(s) && Legal(s, ops)
    ensures Inv(ApplyAll(s, ops))
    decreases |ops|
  {
    if ops != [] {
      ApplyKeeps(s, ops[0]);
      RunKeeps(Apply(s, ops[0]), ops[1..]);
    }
  }

  /** Revoked consents never change and no consent ever changes its user or number. */
  lemma {:induction false} ConsentHistory(s: State, ops: seq<Op>)
    ensures var s' := ApplyAll(s, ops);
            && |s.consents| <= |s'.consents|
            && (forall i :: 0 <= i < |s.consents| ==>
                  && s'.consents[i].(revokedAt := None) == s.consents[i].(revokedAt := None)
                  && (s.consents[i].revokedAt.Some? ==> s'.consents[i] == s.consents[i]))
    decreases |ops|
  {
    if ops != [] {
      var s1 := Apply(s, ops[0]);
      ConsentHistory(s1, ops[1..]);
      assert |s.consents| <= |s1.consents|;
      assert forall i :: 0 <= i < |s.consents| ==>
               s1.consents[i].(revokedAt := None) == s.consents[i].(revokedAt := None) && (s.consents[i].revokedAt.Some? ==> s1.consents[i] == s.consents[i]);
    }
  }

  function Entries(audit: seq<Audit>, action: Action, entity: Id): nat {
    if audit == [] then 0
    else Entries(audit[..|audit| - 1], action, entity) + (if audit[|audit| - 1] == Audit(action, entity) then 1 else 0)
  }

  // Grants minus both kinds of revocation, as the audit log records them.
  function Balance(s: State, user: Id): int {
    Entries(s.audit, ConsentGranted, user) - Entries(s.audit, ConsentRevoked, user) - Entries(s.audit, ConsentAutoRevoked, user)
  }

  lemma {:induction false} EntriesOfConcat(a: seq<Audit>, b: seq<Audit>, action: Action, entity: Id)
    ensures Entries(a + b, action, entity) == Entries(a, action, entity) + Entries(b, action, entity)
  {
    if b == [] {
      assert a + b == a;
    } else {
      assert (a + b)[..|a + b| - 1] == a + b[..|b| - 1];
      EntriesOfConcat(a, b[..|b| - 1], action, entity);
    }
  }

  lemma EntriesOfShort(a: seq<Audit>, action: Action, entity: Id)
    requires 1 <= |a| <= 2
    ensures Entries(a, action, entity) ==
            (if a[0] == Audit(action, entity) then 1 else 0) + (if |a| == 2 && a[1] == Audit(action, entity) then 1 else 0)
  {
    assert a[..|a| - 1][..0] == [];
  }

  // The entries one accepted operation writes.
  function AuditOf(s: State, op: Op): seq<Audit> {
    match op
    case CreateUser(id, _, _, _, _) => [Audit(UserCreated, id)]
    case UpdateUser(id, _, mobile, _, _, _) =>
      if id in s.users && s.users[id].mobile != Some(mobile) && HasActiveConsent(s.consents, id)
      then [Audit(ConsentAutoRevoked, id), Audit(UserUpdated, id)] else [Audit(UserUpdated, id)]
    case RemoveUser(id) => [Audit(UserDeactivated, id)]
    case CreateTeam(id, _) => [Audit(TeamCreated, id)]
    case UpdateTeam(id, _, _) => [Audit(TeamUpdated, id)]
    case RemoveTeam(id) => [Audit(TeamDeactivated, id)]
    case CreateList(id, _, _, _) => [Audit(ListCreated, id)]
    case UpdateList(id, _, _, _, _) => [Audit(ListUpdated, id)]
    case RemoveList(id) => [Audit(ListDeactivated, id)]
    case GrantConsent(id, _) => [Audit(ConsentGranted, id)]
    case RevokeConsent(id, _) => [Audit(ConsentRevoked, id)]
  }

  lemma AuditGrows(s: State, op: Op)
    requires ReplyTo(s, op).Done?
    ensures Apply(s, op).audit == s.audit + AuditOf(s, op)
  {}

  lemma {:induction false} EntriesAfter(s: State, op: Op, action: Action, user: Id)
    requires ReplyTo(s, op).Done?
    ensures var more := AuditOf(s, op);
            Entries(Apply(s, op).audit, action, user) == Entries(s.audit, action, user) +
            (if more[0] == Audit(action, user) then 1 else 0) + (if |more| == 2 && more[1] == Audit(action, user) then 1 else 0)
  {
    AuditGrows(s, op);
    EntriesOfConcat(s.audit, AuditOf(s, op), action, user);
    EntriesOfShort(AuditOf(s, op), action, user);
  }

  // How the entries of one accepted operation move the balance.
  lemma AuditStep(s: State, op: Op, user: Id)
    requires ReplyTo(s, op).Done?
    ensures Balance(Apply(s, op), user) - Balance(s, user) ==
            (if op.GrantConsent? && op.id == user then 1
             else if op.RevokeConsent? && op.id == user then -1
             else if op.UpdateUser? && op.id == user && s.users[user].mobile != Some(op.mobile) && HasActiveConsent(s.consents, user) then -1
             else 0)
  {
    EntriesAfter(s, op, ConsentGranted, user);
    EntriesAfter(s, op, ConsentRevoked, user);
    EntriesAfter(s, op, ConsentAutoRevoked, user);
  }

  lemma BalanceStep(s: State, op: Op, user: Id)
    requires Inv(s) && FreshId(s, op)
    requires Balance(s, user) == (if HasActiveConsent(s.consents, user) then 1 else 0)
    ensures Balance(Apply(s, op), user) == (if HasActiveConsent(Apply(s, op).consents, user) then 1 else 0)
  {
    if ReplyTo(s, op).Done? {
      AuditStep(s, op, user);
      ConsentStep(s, op, user);
    }
  }

  // How one accepted operation changes whether a user has an active consent.
  lemma ConsentStep(s: State, op: Op, user: Id)
    requires Inv(s) && FreshId(s, op) && ReplyTo(s, op).Done?
    ensures HasActiveConsent(Apply(s, op).consents, user) <==>
            (if op.GrantConsent? && op.id == user then true
             else if op.RevokeConsent? && op.id == user then false
             else if op.UpdateUser? && op.id == user && s.users[user].mobile != Some(op.mobile) then false
             else HasActiveConsent(s.consents, user))
  {
    var s' := Apply(s, op);
    if op.GrantConsent? && op.id == user {
      assert ActiveAt(s'.consents, |s.consents|, user);
    } else if HasActiveConsent(s.consents, user) {
      var i :| 0 <= i < |s.consents| && ActiveAt(s.consents, i, user);
      assert ActiveAt(s'.consents, i, user) || (op.RevokeConsent? && op.id == user)
             || (op.UpdateUser? && op.id == user && s.users[user].mobile != Some(op.mobile));
    }
    if HasActiveConsent(s'.consents, user) && !(op.GrantConsent? && op.id == user) {
      var i :| 0 <= i < |s'.consents| && ActiveAt(s'.consents, i, user);
      assert ActiveAt(s.consents, i, user);
    }
  }

  /** The audit log accounts for every consent: grants minus revocations is 1 exactly for the
      users with an active consent and 0 for all others. */
  lemma {:induction false} AuditBalances(s: State, ops: seq<Op>, user: Id)
    requires Inv(s) && Legal(s, ops)
    requires Balance(s, user) == (if HasActiveConsent(s.consents, user) then 1 else 0)
    ensures Balance(ApplyAll(s, ops), user) == (if HasActiveConsent(ApplyAll(s, ops).consents, user) then 1 else 0)
    decreases |ops|
  {
    if ops != [] {
      BalanceStep(s, ops[0], user);
      ApplyKeeps(s, ops[0]);
      AuditBalances(Apply(s, ops[0]), ops[1..], user);
    }
  }

  /* ---------- version-checked saves ---------- */

  predicate UserEvolves(u: User, u': User) {
    u.version <= u'.version && u.role == u'.role && (u.version == u'.version ==> u == u')
  }

  predicate TeamEvolves(t: Team, t': Team) {
    t.version <= t'.version && (t.version == t'.version ==> t == t')
  }

  predicate ListEvolves(l: RecipientList, l': RecipientList) {
    l.version <= l'.version && (l.version == l'.version ==> l == l')
  }

  ghost predicate Evolves(s: State, s': State, id: Id) {
    && (id in s.users ==> id in s'.users && UserEvolves(s.users[id], s'.users[id]))
    && (id in s.teams ==> id in s'.teams && TeamEvolves(s.teams[id], s'.teams[id]))
    && (id in s.lists ==> id in s'.lists && ListEvolves(s.lists[id], s'.lists[id]))
  }

  lemma {:induction false} VersionsTell(s: State, ops: seq<Op>, id: Id)
    requires Legal(s, ops)
    ensures Evolves(s, ApplyAll(s, ops), id)
    decreases |ops|
  {
    if ops != [] {
      assert Evolves(s, Apply(s, ops[0]), id);
      VersionsTell(Apply(s, ops[0]), ops[1..], id);
    }
  }

  /** No lost updates: a save that quotes the version its author read is accepted only if the
      record is still exactly what the author read, however many operations ran since. */
  lemma {:induction false} SavesSeeWhatWasRead(s: State, ops: seq<Op>, save: Op)
    requires Legal(s, ops) && ReplyTo(ApplyAll(s, ops), save).Done?
    ensures save.UpdateUser? && save.id in s.users && save.expected == s.users[save.id].version ==>
              ApplyAll(s, ops).users[save.id] == s.users[save.id]
    ensures save.UpdateTeam? && save.id in s.teams && save.expected == s.teams[save.id].version ==>
              ApplyAll(s, ops).teams[save.id] == s.teams[save.id]
    ensures save.UpdateList? && save.id in s.lists && save.expected == s.lists[save.id].version ==>
              ApplyAll(s, ops).lists[save.id] == s.lists[save.id]
  {
    if save.UpdateUser? || save.UpdateTeam? || save.UpdateList? { VersionsTell(s, ops, save.id); }
  }

  // Two saves of one user, team or list that quote the same version of it.
  predicate RivalSaves(a: Op, b: Op) {
    && ((a.UpdateUser? && b.UpdateUser?) || (a.UpdateTeam? && b.UpdateTeam?) || (a.UpdateList? && b.UpdateList?))
    && a.id == b.id && a.expected == b.expected
  }

  /** Of two saves of one user, team or list quoting the same version, at most one is accepted. */
  lemma OneSavePerVersion(s: State, first: Op, ops: seq<Op>, second: Op)
    requires Legal(s, [first] + ops) && RivalSaves(first, second) && ReplyTo(s, first).Done?
    ensures ReplyTo(ApplyAll(s, [first] + ops), second) == VersionConflict
  {
    assert ([first] + ops)[1..] == ops;
    VersionsTell(Apply(s, first), ops, first.id);
  }

  /* ---------- territories ---------- */

  /** Over any run, a team whose name doctors refer to as their territory keeps that territory:
      no rename disconnects its recipients from their doctor list. */
  lemma {:induction false} TerritoriesStayMapped(s: State, ops: seq<Op>, team: Id)
    requires Legal(s, ops) && team in s.teams && Territory(s.teams[team].name) in s.territories
    ensures var s' := ApplyAll(s, ops);
            team in s'.teams && Territory(s'.teams[team].name) == Territory(s.teams[team].name)
    decreases |ops|
  {
    if ops != [] {
      if ops[0].UpdateTeam? { StripTwice(ops[0].name); }
      TerritoriesStayMapped(Apply(s, ops[0]), ops[1..], team);
    }
  }

  /* ---------- first occurrences ---------- */

  // The first position at which x occurs.
  function FirstAt(s: seq<Id>, x: Id): nat
    requires x in s
  {
    if s[0] == x then 0 else 1 + FirstAt(s[1..], x)
  }

  lemma {:induction false} FirstAtPrefix(s: seq<Id>, last: Id, x: Id)
    requires x in s + [last]
    ensures x in s ==> FirstAt(s + [last], x) == FirstAt(s, x) < |s|
    ensures x !in s ==> FirstAt(s + [last], x) == |s|
  {
    if s == [] {
    } else if s[0] != x {
      assert (s + [last])[1..] == s[1..] + [last];
      FirstAtPrefix(s[1..], last, x);
    }
  }

  /** Deduplication keeps the order of first occurrence. */
  lemma {:induction false} DedupeOrder(s: seq<Id>, i: nat, j: nat)
    requires i < j < |Dedupe(s)|
    ensures Dedupe(s)[i] in s && Dedupe(s)[j] in s && FirstAt(s, Dedupe(s)[i]) < FirstAt(s, Dedupe(s)[j])
  {
    var front, last := s[..|s| - 1], s[|s| - 1];
    DedupeMembers(s);
    DedupeMembers(front);
    assert s == front + [last];
    FirstAtPrefix(front, last, Dedupe(s)[i]);
    FirstAtPrefix(front, last, Dedupe(s)[j]);
    if j < |Dedupe(front)| {
      DedupeOrder(front, i, j);
    }
  }

  lemma {:induction false} MembersReplyMeaning(users: map<Id, User>, members: seq<Id>)
    ensures MembersReply(users, members).Done? <==> forall m :: m in members ==> MemberReply(users, m).Done?
  {
    if members != [] {
      MembersReplyMeaning(users, members[1..]);
      assert members == [members[0]] + members[1..];
    }
  }

  /** A created or saved recipient list has distinct members, exactly those asked for, each an active
      user with a number at the moment of the save. */
  lemma SavedMembers(s: State, op: Op)
    requires (op.CreateList? || op.UpdateList?) && ReplyTo(s, op).Done?
    ensures var l := Apply(s, op).lists[op.id];
            && Distinct(l.members)
            && (forall m :: m in l.members <==> m in op.members)
            && (forall m :: m in l.members ==> m in s.users && s.users[m].status.Active? && s.users[m].mobile.Some?)
  {
    DedupeMembers(op.members);
    MembersReplyMeaning(s.users, Dedupe(op.members));
    forall m | m in Dedupe(op.members) ensures m in s.users && s.users[m].status.Active? && s.users[m].mobile.Some? {
      assert MemberReply(s.users, m).Done?;
    }
  }
}

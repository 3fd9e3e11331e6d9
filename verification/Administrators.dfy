/** Concurrent removals and bootstraps, interleaved statement by statement under two blocking
    advisory locks that are held to commit (domain/administrators.py, domain/bootstrap.py,
    domain/recipients.py remove_user, adapters/persistence/users.py). */
module Administrators {
  import opened Prelude
  import Directory

  type User = Directory.User

  // Where one transaction is. A removal remembers what it read of its target before any lock.
  datatype Phase =
    | Read(target: Id, guarded: bool)   // guarded: the target was read as an active Administrator
    | Holding(target: Id)               // removal lock held, count not yet read
    | Cleared(target: Id)               // count was above one; lock still held
    | BootHolding                       // bootstrap lock held, existence not yet rechecked
    | BootCleared                       // no Administrator row was found; lock still held
    | Done

  datatype World = World(
    users: map<Id, User>,                            // committed
    txs: map<Id, Phase>,
    removalLock: Option<Id>, bootLock: Option<Id>,
    bootstrapped: seq<Id>)                           // Administrators committed by bootstrap

  datatype Event =
    | StartRemoval(tx: Id, target: Id)
    | TakeRemovalLock(tx: Id)
    | CountAndDecide(tx: Id)
    | Deactivate(tx: Id)             // and commit
    | StartBootstrap(tx: Id)         // once the lock is free
    | Recheck(tx: Id)
    | InsertAdministrator(tx: Id, id: Id)   // and commit
    | CreateMember(id: Id, user: User)   // directory users are never Administrators
    | Abort(tx: Id)                  // any transaction may roll back, releasing its locks

  predicate HasAnyAdministrator(users: map<Id, User>) {
    exists u :: u in users && users[u].role.Administrator?
  }

  // What bootstrap inserts.
  function FirstAdministrator(id: Id): User {
    Directory.User(id, Directory.Administrator, Directory.Active, 1, None, None, None)
  }

  function Released(lock: Option<Id>, tx: Id): Option<Id> {
    if lock == Some(tx) then None else lock
  }

  function Finish(w: World, tx: Id): World {
    w.(txs := w.txs[tx := Done], removalLock := Released(w.removalLock, tx), bootLock := Released(w.bootLock, tx))
  }

  predicate Enabled(w: World, e: Event) {
    match e
    case StartRemoval(tx, _) => tx !in w.txs
    case TakeRemovalLock(tx) => tx in w.txs && w.txs[tx].Read? && w.txs[tx].guarded && w.removalLock.None?
    case CountAndDecide(tx) => tx in w.txs && w.txs[tx].Holding?
    case Deactivate(tx) => tx in w.txs && (w.txs[tx].Cleared? || (w.txs[tx].Read? && !w.txs[tx].guarded))
    case StartBootstrap(tx) => tx !in w.txs && w.bootLock.None?
    case Recheck(tx) => tx in w.txs && w.txs[tx].BootHolding?
    case InsertAdministrator(tx, id) => tx in w.txs && w.txs[tx].BootCleared? && id !in w.users
    case CreateMember(id, user) => id !in w.users && !user.role.Administrator?
    case Abort(tx) => tx in w.txs && !w.txs[tx].Done?
  }

  function Step(w: World, e: Event): World
    requires Enabled(w, e)
  {
    match e
    case StartRemoval(tx, target) =>
      if target !in w.users then w.(txs := w.txs[tx := Done])
      else w.(txs := w.txs[tx := Read(target, w.users[target].role.Administrator? && w.users[target].status.Active?)])
    case TakeRemovalLock(tx) => w.(txs := w.txs[tx := Holding(w.txs[tx].target)], removalLock := Some(tx))
    case CountAndDecide(tx) =>
      if |Directory.ActiveAdministrators(w.users)| <= 1 then Finish(w, tx)   // LastAdministratorError
      else w.(txs := w.txs[tx := Cleared(w.txs[tx].target)])
    case Deactivate(tx) =>
      var target := w.txs[tx].target;
      if target in w.users then Finish(w, tx).(users := w.users[target := w.users[target].(status := Directory.Inactive, version := w.users[target].version + 1)]) else Finish(w, tx)
    case StartBootstrap(tx) => w.(txs := w.txs[tx := BootHolding], bootLock := Some(tx))
    case Recheck(tx) => if HasAnyAdministrator(w.users) then Finish(w, tx) else w.(txs := w.txs[tx := BootCleared])
    case InsertAdministrator(tx, id) =>
      Finish(w, tx).(users := w.users[id := FirstAdministrator(id)], bootstrapped := w.bootstrapped + [id])
    case CreateMember(id, user) => w.(users := w.users[id := user])
    case Abort(tx) => Finish(w, tx)
  }

  ghost predicate EnabledRun(w: World, es: seq<Event>)
    decreases |es|
  {
    es == [] || (Enabled(w, es[0]) && EnabledRun(Step(w, es[0]), es[1..]))
  }

  ghost function Run(w: World, es: seq<Event>): World
    requires EnabledRun(w, es)
    decreases |es|
  {
    if es == [] then w else Run(Step(w, es[0]), es[1..])
  }

  /* ---------- the invariant ---------- */

  ghost predicate TxOk(w: World, tx: Id)
    requires tx in w.txs
  {
    match w.txs[tx]
    case Read(target, guarded) =>
      target in w.users && (!guarded ==> target !in Directory.ActiveAdministrators(w.users))
    case Holding(target) => w.removalLock == Some(tx) && target in w.users
    case Cleared(target) =>
      w.removalLock == Some(tx) && target in w.users && exists other :: other != target && other in Directory.ActiveAdministrators(w.users)
    case BootHolding => w.bootLock == Some(tx)
    case BootCleared => w.bootLock == Some(tx) && !HasAnyAdministrator(w.users)
    case Done => true
  }

  ghost predicate Inv(w: World) {
    && (forall tx :: tx in w.txs ==> TxOk(w, tx))
    && (w.bootstrapped != [] ==> HasAnyAdministrator(w.users))
    && |w.bootstrapped| <= 1
  }

  lemma MoreThanOne(s: set<Id>, x: Id) returns (y: Id)
    requires |s| > 1
    ensures y in s && y != x
  {
    if s - {x} == {} {
      assert s <= {x};
      Subsets(s, {x});
      assert false;
    }
    y :| y in s - {x};
  }

  lemma Subsets(s: set<Id>, t: set<Id>)
    requires s <= t
    ensures |s| <= |t|
  {
    assert |t| == |s| + |t - s| by { assert t == s + (t - s); }
  }

  lemma StepKeeps(w: World, e: Event)
    requires Inv(w) && Enabled(w, e)
    ensures Inv(Step(w, e))
    ensures Directory.ActiveAdministrators(w.users) != {} ==> Directory.ActiveAdministrators(Step(w, e).users) != {}
  {
    match e
    case CountAndDecide(tx) => CountKeeps(w, tx);
    case Deactivate(tx) => DeactivateKeeps(w, tx);
    case InsertAdministrator(tx, id) => InsertKeeps(w, tx, id);
    case _ => QuietKeeps(w, e);
  }

  lemma CountKeeps(w: World, tx: Id)
    requires Inv(w) && Enabled(w, CountAndDecide(tx))
    ensures Inv(Step(w, CountAndDecide(tx)))
  {
    var w' := Step(w, CountAndDecide(tx));
    assert TxOk(w, tx);
    if |Directory.ActiveAdministrators(w.users)| > 1 {
      var other := MoreThanOne(Directory.ActiveAdministrators(w.users), w.txs[tx].target);
    }
    forall t | t in w'.txs ensures TxOk(w', t) {
      if t != tx { assert TxOk(w, t); }
    }
  }

  lemma RowsStay(users: map<Id, User>, users': map<Id, User>)
    requires forall u :: u in users ==> u in users' && users'[u].role == users[u].role
    ensures HasAnyAdministrator(users) ==> HasAnyAdministrator(users')
  {
    if u :| u in users && users[u].role.Administrator? { assert users'[u].role.Administrator?; }
  }

  lemma DeactivateKeeps(w: World, tx: Id)
    requires Inv(w) && Enabled(w, Deactivate(tx))
    ensures Inv(Step(w, Deactivate(tx)))
    ensures Directory.ActiveAdministrators(w.users) != {} ==> Directory.ActiveAdministrators(Step(w, Deactivate(tx)).users) != {}
  {
    var w' := Step(w, Deactivate(tx));
    var target := w.txs[tx].target;
    RowsStay(w.users, w'.users);
    assert TxOk(w, tx);
    assert Directory.ActiveAdministrators(w'.users) == Directory.ActiveAdministrators(w.users) - {target};
    if w.txs[tx].Read? {
      assert Directory.ActiveAdministrators(w'.users) == Directory.ActiveAdministrators(w.users);
    } else {
      var other :| other != target && other in Directory.ActiveAdministrators(w.users);
      assert other in Directory.ActiveAdministrators(w'.users);
    }
    forall t | t in w'.txs ensures TxOk(w', t) {
      if t != tx {
        assert TxOk(w, t);
        if w.txs[t].BootCleared? && HasAnyAdministrator(w'.users) {
          var u :| u in w'.users && w'.users[u].role.Administrator?;
          assert w.users[u].role.Administrator?;
        }
      }
    }
  }

  lemma InsertKeeps(w: World, tx: Id, id: Id)
    requires Inv(w) && Enabled(w, InsertAdministrator(tx, id))
    ensures Inv(Step(w, InsertAdministrator(tx, id)))
    ensures Directory.ActiveAdministrators(Step(w, InsertAdministrator(tx, id)).users) != {}
  {
    var w' := Step(w, InsertAdministrator(tx, id));
    assert TxOk(w, tx);
    assert id in Directory.ActiveAdministrators(w'.users);
    assert w'.users[id].role.Administrator?;
    forall t | t in w'.txs ensures TxOk(w', t) {
      if t != tx { assert TxOk(w, t); }
    }
  }

  lemma QuietKeeps(w: World, e: Event)
    requires Inv(w) && Enabled(w, e) && !e.CountAndDecide? && !e.Deactivate? && !e.InsertAdministrator?
    ensures Inv(Step(w, e))
    ensures Directory.ActiveAdministrators(Step(w, e).users) == Directory.ActiveAdministrators(w.users)
  {
    var w' := Step(w, e);
    RowsStay(w.users, w'.users);
    assert Directory.ActiveAdministrators(w'.users) == Directory.ActiveAdministrators(w.users);
    forall t | t in w'.txs ensures TxOk(w', t) {
      if t in w.txs { assert TxOk(w, t); }
    }
  }

  /** However removals (also several of one target, each having read it before any lock) and
      bootstraps interleave, a state with an active Administrator only leads to states with
      one, and over the whole run at most one bootstrap ever commits an Administrator. */
  lemma {:induction false} AlwaysAnAdministrator(w: World, es: seq<Event>)
    requires Inv(w) && EnabledRun(w, es)
    ensures Inv(Run(w, es))
    ensures Directory.ActiveAdministrators(w.users) != {} ==> Directory.ActiveAdministrators(Run(w, es).users) != {}
    ensures |Run(w, es).bootstrapped| <= 1
    decreases |es|
  {
    if es != [] {
      StepKeeps(w, es[0]);
      AlwaysAnAdministrator(Step(w, es[0]), es[1..]);
    }
  }

  /** A bootstrap never commits once any Administrator row, active or not, exists. */
  lemma {:induction false} NoBootstrapAfterFirst(w: World, es: seq<Event>)
    requires Inv(w) && EnabledRun(w, es) && HasAnyAdministrator(w.users)
    ensures Run(w, es).bootstrapped == w.bootstrapped
    decreases |es|
  {
    if es != [] {
      StepKeeps(w, es[0]);
      if es[0].InsertAdministrator? { assert TxOk(w, es[0].tx); }
      var u :| u in w.users && w.users[u].role.Administrator?;
      assert Step(w, es[0]).users[u].role.Administrator?;
      NoBootstrapAfterFirst(Step(w, es[0]), es[1..]);
    }
  }

  lemma OneMore(w: World, e: Event, es: seq<Event>)
    requires Enabled(w, e) && EnabledRun(Step(w, e), es)
    ensures EnabledRun(w, [e] + es) && Run(w, [e] + es) == Run(Step(w, e), es)
  {
    assert ([e] + es)[1..] == es;
  }

  predicate OnlyActive(users: map<Id, User>, u: Id) {
    && u in users && users[u].role == Directory.Administrator && users[u].status == Directory.Active
    && forall o :: o in users && o != u ==> users[o].role != Directory.Administrator || users[o].status != Directory.Active
  }

  lemma CountsOne(users: map<Id, User>, u: Id)
    requires u in Directory.ActiveAdministrators(users)
    ensures |Directory.ActiveAdministrators(users)| <= 1 <==> OnlyActive(users, u)
  {
    var s := Directory.ActiveAdministrators(users);
    Directory.AtMostOne(s, u);
    if OnlyActive(users, u) {
      assert forall y :: y in s ==> y == u;
    }
    if forall y :: y in s ==> y == u {
      forall o | o in users && o != u ensures users[o].role != Directory.Administrator || users[o].status != Directory.Active {
        assert o !in s;
      }
    }
  }

  /** A removal that finds the lock free goes through, and deactivates its target alone, unless the
      target is the only active Administrator; then it changes nothing. */
  lemma RemovalAlone(w: World, tx: Id, target: Id) returns (es: seq<Event>)
    requires tx !in w.txs && w.removalLock.None? && target in w.users
    ensures EnabledRun(w, es) && tx in Run(w, es).txs && Run(w, es).txs[tx] == Done
    ensures Run(w, es).users == if OnlyActive(w.users, target) then w.users
                                else w.users[target := w.users[target].(status := Directory.Inactive, version := w.users[target].version + 1)]
  {
    var w1 := Step(w, StartRemoval(tx, target));
    if w1.txs[tx].guarded {
      CountsOne(w.users, target);
      var w2 := Step(w1, TakeRemovalLock(tx));
      var w3 := Step(w2, CountAndDecide(tx));
      if OnlyActive(w.users, target) {
        es := [];
      } else {
        OneMore(w3, Deactivate(tx), []);
        es := [Deactivate(tx)] + [];
      }
      OneMore(w2, CountAndDecide(tx), es);
      es := [CountAndDecide(tx)] + es;
      OneMore(w1, TakeRemovalLock(tx), es);
      es := [TakeRemovalLock(tx)] + es;
    } else {
      OneMore(w1, Deactivate(tx), []);
      es := [Deactivate(tx)] + [];
    }
    OneMore(w, StartRemoval(tx, target), es);
    es := [StartRemoval(tx, target)] + es;
  }

  /** A bootstrap that finds its lock free inserts an active Administrator exactly when there is no
      Administrator row yet. */
  lemma BootstrapAlone(w: World, tx: Id, id: Id) returns (es: seq<Event>)
    requires tx !in w.txs && w.bootLock.None? && id !in w.users
    ensures EnabledRun(w, es) && tx in Run(w, es).txs && Run(w, es).txs[tx] == Done
    ensures (exists u :: u in w.users && w.users[u].role == Directory.Administrator) ==>
              Run(w, es).users == w.users && Run(w, es).bootstrapped == w.bootstrapped
    ensures (forall u :: u in w.users ==> w.users[u].role != Directory.Administrator) ==>
              && Run(w, es).bootstrapped == w.bootstrapped + [id] && Run(w, es).users.Keys == w.users.Keys + {id}
              && Run(w, es).users[id].role == Directory.Administrator && Run(w, es).users[id].status == Directory.Active
              && forall u :: u in w.users ==> Run(w, es).users[u] == w.users[u]
  {
    var w1 := Step(w, StartBootstrap(tx));
    var w2 := Step(w1, Recheck(tx));
    if w2.txs[tx].BootCleared? {
      OneMore(w2, InsertAdministrator(tx, id), []);
      es := [InsertAdministrator(tx, id)] + [];
    } else {
      es := [];
    }
    OneMore(w1, Recheck(tx), es);
    es := [Recheck(tx)] + es;
    OneMore(w, StartBootstrap(tx), es);
    es := [StartBootstrap(tx)] + es;
  }
}

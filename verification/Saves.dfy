/** Version-checked saves of several transactions, interleaved statement by statement: the read,
    the early version check, the conditional UPDATE, which holds its row until the transaction
    ends, and the commit (domain/recipients.py, adapters/persistence/users.py, teams.py,
    recipient_lists.py). T is what the versioned columns of a user, team or list hold. */
module Saves {
  import opened Prelude

  datatype Record<T> = Record(version: nat, value: T)

  // Where one save's transaction is. It remembers what it read and what it overwrote.
  datatype Phase<T> =
    | HasRead(row: Id, expected: nat, seen: Record<T>)
    | Checked(row: Id, expected: nat, seen: Record<T>)
    | Updated(row: Id, expected: nat, seen: Record<T>, before: Record<T>, after: Record<T>)
    | Committed(row: Id, expected: nat, seen: Record<T>, before: Record<T>)
    | Conflict      // VersionConflict, from either guard
    | Gone          // nothing found, or rolled back for another reason

  datatype World<T> = World(
    rows: map<Id, Record<T>>,      // committed
    txs: map<Id, Phase<T>>,
    locks: map<Id, Id>)            // row to the transaction holding it

  datatype Event<T> =
    | Read(tx: Id, row: Id, expected: nat)
    | PreCheck(tx: Id)
    | Update(tx: Id, value: T)     // once nobody holds the row
    | Commit(tx: Id)
    | Abort(tx: Id)
    | Insert(row: Id, value: T)
    | Overwrite(row: Id, value: T) // an unconditional update that raises the version: deactivate, update_password

  function Release(locks: map<Id, Id>, tx: Id): map<Id, Id> {
    map r | r in locks && locks[r] != tx :: locks[r]
  }

  predicate Enabled<T(!new)>(w: World<T>, e: Event<T>) {
    match e
    case Read(tx, _, _) => tx !in w.txs
    case PreCheck(tx) => tx in w.txs && w.txs[tx].HasRead?
    case Update(tx, _) => tx in w.txs && w.txs[tx].Checked? && w.txs[tx].row !in w.locks
    case Commit(tx) => tx in w.txs && w.txs[tx].Updated?
    case Abort(tx) => tx in w.txs && (w.txs[tx].HasRead? || w.txs[tx].Checked? || w.txs[tx].Updated?)
    case Insert(row, _) => row !in w.rows
    case Overwrite(row, _) => row in w.rows && row !in w.locks
  }

  function Step<T(!new)>(w: World<T>, e: Event<T>): World<T>
    requires Enabled(w, e)
  {
    match e
    case Read(tx, row, expected) =>
      w.(txs := w.txs[tx := if row in w.rows then HasRead(row, expected, w.rows[row]) else Gone])
    case PreCheck(tx) =>
      var t := w.txs[tx];
      w.(txs := w.txs[tx := if t.seen.version != t.expected then Conflict else Checked(t.row, t.expected, t.seen)])
    case Update(tx, value) =>
      var t := w.txs[tx];
      if t.row in w.rows && w.rows[t.row].version == t.expected then
        w.(txs := w.txs[tx := Updated(t.row, t.expected, t.seen, w.rows[t.row], Record(t.expected + 1, value))],
           locks := w.locks[t.row := tx])
      else w.(txs := w.txs[tx := Conflict])
    case Commit(tx) =>
      var t := w.txs[tx];
      World(w.rows[t.row := t.after], w.txs[tx := Committed(t.row, t.expected, t.seen, t.before)], Release(w.locks, tx))
    case Abort(tx) => w.(txs := w.txs[tx := Gone], locks := Release(w.locks, tx))
    case Insert(row, value) => w.(rows := w.rows[row := Record(1, value)])
    case Overwrite(row, value) => w.(rows := w.rows[row := Record(w.rows[row].version + 1, value)])
  }

  ghost predicate EnabledRun<T(!new)>(w: World<T>, es: seq<Event<T>>)
    decreases |es|
  {
    es == [] || (Enabled(w, es[0]) && EnabledRun(Step(w, es[0]), es[1..]))
  }

  ghost function Run<T(!new)>(w: World<T>, es: seq<Event<T>>): World<T>
    requires EnabledRun(w, es)
    decreases |es|
  {
    if es == [] then w else Run(Step(w, es[0]), es[1..])
  }

  /* ---------- the invariant ---------- */

  // A row read earlier has a higher version now or is exactly as it was read.
  ghost predicate Since<T(!new)>(rows: map<Id, Record<T>>, row: Id, seen: Record<T>) {
    row in rows && seen.version <= rows[row].version && (seen.version == rows[row].version ==> seen == rows[row])
  }

  ghost predicate TxOk<T(!new)>(w: World<T>, tx: Id)
    requires tx in w.txs
  {
    match w.txs[tx]
    case HasRead(row, _, seen) => Since(w.rows, row, seen)
    case Checked(row, expected, seen) => Since(w.rows, row, seen) && seen.version == expected
    case Updated(row, expected, seen, before, after) =>
      && row in w.locks && w.locks[row] == tx
      && row in w.rows && w.rows[row] == before == seen && seen.version == expected && after.version == expected + 1
    case Committed(row, expected, seen, before) =>
      seen == before && before.version == expected && row in w.rows && expected < w.rows[row].version
    case _ => true
  }

  ghost predicate OneCommitEach<T(!new)>(txs: map<Id, Phase<T>>) {
    forall a, b :: a in txs && b in txs && a != b && txs[a].Committed? && txs[b].Committed? && txs[a].row == txs[b].row ==>
      txs[a].expected != txs[b].expected
  }

  ghost predicate Inv<T(!new)>(w: World<T>) {
    && (forall tx :: tx in w.txs ==> TxOk(w, tx))
    && (forall r :: r in w.locks ==> w.locks[r] in w.txs && w.txs[w.locks[r]].Updated? && w.txs[w.locks[r]].row == r)
    && OneCommitEach(w.txs)
  }

  lemma CommitKeeps<T(!new)>(w: World<T>, tx: Id)
    requires Inv(w) && Enabled(w, Commit(tx))
    ensures Inv(Step(w, Commit(tx)))
  {
    var w', t := Step(w, Commit(tx)), w.txs[tx];
    assert TxOk(w, tx);
    forall o | o in w'.txs ensures TxOk(w', o) {
      if o != tx { assert TxOk(w, o); }
    }
    forall a, b | a in w'.txs && b in w'.txs && a != b && w'.txs[a].Committed? && w'.txs[b].Committed? && w'.txs[a].row == w'.txs[b].row
      ensures w'.txs[a].expected != w'.txs[b].expected
    {
      assert TxOk(w, a) && TxOk(w, b);
    }
  }

  // Steps that change committed rows nobody holds.
  lemma RowsMoveKeeps<T(!new)>(w: World<T>, e: Event<T>)
    requires Inv(w) && Enabled(w, e) && (e.Insert? || e.Overwrite?)
    ensures Inv(Step(w, e))
  {
    var w' := Step(w, e);
    forall o | o in w'.txs ensures TxOk(w', o) { assert TxOk(w, o); }
  }

  // Steps that change only where one transaction is.
  lemma OwnStepKeeps<T(!new)>(w: World<T>, e: Event<T>)
    requires Inv(w) && Enabled(w, e) && (e.Read? || e.PreCheck? || e.Abort?)
    ensures Inv(Step(w, e))
  {
    var w' := Step(w, e);
    forall o | o in w'.txs ensures TxOk(w', o) {
      if o in w.txs { assert TxOk(w, o); }
    }
  }

  lemma UpdateKeeps<T(!new)>(w: World<T>, tx: Id, value: T)
    requires Inv(w) && Enabled(w, Update(tx, value))
    ensures Inv(Step(w, Update(tx, value)))
  {
    var w' := Step(w, Update(tx, value));
    assert TxOk(w, tx);
    forall o | o in w'.txs ensures TxOk(w', o) { assert TxOk(w, o); }
  }

  lemma StepKeeps<T(!new)>(w: World<T>, e: Event<T>)
    requires Inv(w) && Enabled(w, e)
    ensures Inv(Step(w, e))
  {
    match e
    case Commit(tx) => CommitKeeps(w, tx);
    case Update(tx, value) => UpdateKeeps(w, tx, value);
    case Insert(_, _) => RowsMoveKeeps(w, e);
    case Overwrite(_, _) => RowsMoveKeeps(w, e);
    case _ => OwnStepKeeps(w, e);
  }

  lemma {:induction false} RunKeeps<T(!new)>(w: World<T>, es: seq<Event<T>>)
    requires Inv(w) && EnabledRun(w, es)
    ensures Inv(Run(w, es))
    decreases |es|
  {
    if es != [] {
      StepKeeps(w, es[0]);
      RunKeeps(Step(w, es[0]), es[1..]);
    }
  }

  /* ---------- what every interleaving satisfies ---------- */

  /** However saves interleave, of all saves of one record quoting one version at most one ever
      commits, and what a committed save overwrote is exactly what it had read, so whatever it
      decided from that reading, such as whether the number changes, was right. */
  lemma ConcurrentSaves<T(!new)>(rows: map<Id, Record<T>>, es: seq<Event<T>>, a: Id, b: Id)
    requires EnabledRun(World(rows, map[], map[]), es)
    requires var w := Run(World(rows, map[], map[]), es);
             a in w.txs && b in w.txs && w.txs[a].Committed? && w.txs[b].Committed?
    ensures var w := Run(World(rows, map[], map[]), es);
            && w.txs[a].before == w.txs[a].seen
            && (w.txs[a].row == w.txs[b].row && w.txs[a].expected == w.txs[b].expected ==> a == b)
  {
    RunKeeps(World(rows, map[], map[]), es);
    assert TxOk(Run(World(rows, map[], map[]), es), a);
  }

  /** A save that passed the early check is accepted by the conditional UPDATE exactly when the
      record is still what it read; otherwise it is a version conflict. */
  lemma SecondGuard<T(!new)>(rows: map<Id, Record<T>>, es: seq<Event<T>>, tx: Id, value: T)
    requires EnabledRun(World(rows, map[], map[]), es)
    requires Enabled(Run(World(rows, map[], map[]), es), Update(tx, value))
    ensures var w := Run(World(rows, map[], map[]), es);
            var w' := Step(w, Update(tx, value));
            && w.txs[tx].row in w.rows
            && (w'.txs[tx].Updated? <==> w.rows[w.txs[tx].row] == w.txs[tx].seen)
            && (w'.txs[tx].Conflict? <==> w.rows[w.txs[tx].row] != w.txs[tx].seen)
  {
    RunKeeps(World(rows, map[], map[]), es);
    assert TxOk(Run(World(rows, map[], map[]), es), tx);
  }

  /** The early check alone would not do: when two saves quoting one version have both passed
      it, committing the first makes the conditional UPDATE turn the second away. */
  lemma SecondGuardFires<T(!new)>(w: World<T>, a: Id, b: Id, value: T, value': T)
    requires a != b && Enabled(w, Update(a, value)) && Enabled(w, Update(b, value'))
    requires w.txs[a].row == w.txs[b].row && w.txs[a].expected == w.txs[b].expected
    requires Step(w, Update(a, value)).txs[a].Updated?
    ensures var w1 := Step(w, Update(a, value));
            && !Enabled(w1, Update(b, value'))   // it waits for the first to end
            && Enabled(w1, Commit(a)) && Enabled(Step(w1, Commit(a)), Update(b, value'))
            && Step(Step(w1, Commit(a)), Update(b, value')).txs[b].Conflict?
  {}

  /** What a save stores: on commit the new value under the next version, on that record alone;
      an aborted save and one that was turned away store nothing. */
  lemma SaveStores<T(!new)>(w: World<T>, tx: Id, value: T)
    requires Inv(w) && tx in w.txs
    ensures w.txs[tx].Checked? && Enabled(w, Update(tx, value)) ==>
              var w1 := Step(w, Update(tx, value));
              && w1.rows == w.rows
              && (w1.txs[tx].Updated? ==> w1.txs[tx].row == w.txs[tx].row && w1.txs[tx].after == Record(w.txs[tx].expected + 1, value))
    ensures w.txs[tx].Updated? ==> Step(w, Commit(tx)).rows == w.rows[w.txs[tx].row := w.txs[tx].after]
    ensures w.txs[tx].Updated? ==> Step(w, Abort(tx)).rows == w.rows && w.txs[tx].row !in Step(w, Abort(tx)).locks
  {
    assert TxOk(w, tx);
  }
}

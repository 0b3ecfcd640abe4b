/**
 Link creations, consumes, deletions and the purges of accounts in porte/pg, interleaved statement by statement under
 READ COMMITTED, with the advisory locks and with the row locks an UPDATE or DELETE holds until its transaction ends:
 every run is a run of atomic operations.
 */
module MagicLinkProtocol {
  import opened Wrappers
  import opened MagicLinks

  // The account's lock comes first, then the one for link creation.
  datatype Phase = Waiting | Sharing | Locked | Superseding | Inserted

  // A Create under way: dead are the committed rows its UPDATE ended and still holds locked.
  datatype Tx = Tx(link: Link, phase: Phase, dead: set<Hash>)

  datatype PurgePhase = Asking | Holding | Deleted

  // A purge or an erase of an account under way, as far as links go: gone are the rows its DELETE took, locked.
  datatype Purger = Purger(user: nat, phase: PurgePhase, gone: set<Hash>)

  datatype World = World(db: Ledger, txs: map<nat, Tx>, purges: map<nat, Purger>)

  datatype Event =
    | Begin(tid: nat, link: Link)
    | Share(tid: nat)
    | Lock(tid: nat)
    | Supersede(tid: nat)
    | Insert(tid: nat)
    | Commit(tid: nat)
    | Abort(tid: nat)
    | BeginPurge(pid: nat, user: nat)
    | LockAccount(pid: nat)
    | DeleteLinks(pid: nat)
    | CommitPurge(pid: nat)
    | AbortPurge(pid: nat)
    | TryConsume(hash: Hash, now: int)
    | Delete(hash: Hash)

  // The magic-link advisory lock of the account, exclusive, held until the transaction ends.
  predicate HoldsLock(tx: Tx, user: nat) {
    tx.link.user == user && !tx.phase.Waiting? && !tx.phase.Sharing?
  }

  // The account's advisory lock: shared by creations, exclusive for a purge.
  predicate Shares(tx: Tx, user: nat) {
    tx.link.user == user && !tx.phase.Waiting?
  }

  predicate Excludes(p: Purger, user: nat) {
    p.user == user && !p.phase.Asking?
  }

  predicate LockFree(w: World, user: nat) {
    forall t :: t in w.txs ==> !HoldsLock(w.txs[t], user)
  }

  predicate RowLocked(w: World, hash: Hash) {
    (exists t :: t in w.txs && hash in w.txs[t].dead) || (exists p :: p in w.purges && hash in w.purges[p].gone)
  }

  function UserHashes(rows: seq<Row>, user: nat): set<Hash> {
    set i | 0 <= i < |rows| && rows[i].link.user == user :: rows[i].link.hash
  }

  // A random token: the hash was never stored and no other transaction is storing it.
  predicate FreshHash(w: World, hash: Hash) {
    hash !in w.db.used && forall t :: t in w.txs ==> w.txs[t].link.hash != hash
  }

  predicate Enabled(w: World, e: Event) {
    match e
    case Begin(tid, link) => tid !in w.txs && FreshHash(w, link.hash)
    case Share(tid) =>
      tid in w.txs && w.txs[tid].phase.Waiting?
      && forall p :: p in w.purges ==> !Excludes(w.purges[p], w.txs[tid].link.user)
    case Lock(tid) => tid in w.txs && w.txs[tid].phase.Sharing? && LockFree(w, w.txs[tid].link.user)
    case Supersede(tid) => tid in w.txs && w.txs[tid].phase.Locked?
    case Insert(tid) => tid in w.txs && w.txs[tid].phase.Superseding?
    case Commit(tid) => tid in w.txs && w.txs[tid].phase.Inserted?
    case Abort(tid) => tid in w.txs
    case BeginPurge(pid, _) => pid !in w.purges
    case LockAccount(pid) =>
      pid in w.purges && w.purges[pid].phase.Asking?
      && (forall t :: t in w.txs ==> !Shares(w.txs[t], w.purges[pid].user))
      && (forall p :: p in w.purges ==> !Excludes(w.purges[p], w.purges[pid].user))
    case DeleteLinks(pid) =>
      pid in w.purges && w.purges[pid].phase.Holding?
      && forall hash :: hash in UserHashes(w.db.rows, w.purges[pid].user) ==> !RowLocked(w, hash)
    case CommitPurge(pid) => pid in w.purges && w.purges[pid].phase.Deleted?
    case AbortPurge(pid) => pid in w.purges
    case TryConsume(hash, now) => !RowLocked(w, hash)
    case Delete(hash) => !RowLocked(w, hash)
  }

  function EndDead(rows: seq<Row>, dead: set<Hash>, at: int): seq<Row> {
    seq(|rows|, (i: nat) requires i < |rows| =>
      if rows[i].link.hash in dead then rows[i].(consumed := Some(at)) else rows[i])
  }

  // What a commit writes: the rows its UPDATE ended, and the row its INSERT added.
  function Committed(db: Ledger, tx: Tx): Ledger {
    Ledger(EndDead(db.rows, tx.dead, tx.link.created) + [Row(tx.link, None)], db.used + {tx.link.hash}, db.spent,
           db.ended + tx.dead)
  }

  function WithoutAll(rows: seq<Row>, gone: set<Hash>): seq<Row> {
    if rows == [] then []
    else
      var rest := WithoutAll(rows[..|rows| - 1], gone);
      if rows[|rows| - 1].link.hash in gone then rest else rest + [rows[|rows| - 1]]
  }

  // A blocked step waits: the world stays as it is.
  function Apply(w: World, e: Event): World {
    if !Enabled(w, e) then w
    else
      match e
      case Begin(tid, link) => w.(txs := w.txs[tid := Tx(link, Waiting, {})])
      case Share(tid) => w.(txs := w.txs[tid := w.txs[tid].(phase := Sharing)])
      case Lock(tid) => w.(txs := w.txs[tid := w.txs[tid].(phase := Locked)])
      case Supersede(tid) =>
        var tx := w.txs[tid];
        w.(txs := w.txs[tid := Tx(tx.link, Superseding, LiveHashes(w.db.rows, tx.link.user))])
      case Insert(tid) => w.(txs := w.txs[tid := w.txs[tid].(phase := Inserted)])
      case Commit(tid) => w.(db := Committed(w.db, w.txs[tid]), txs := w.txs - {tid})
      case Abort(tid) => w.(txs := w.txs - {tid})
      case BeginPurge(pid, user) => w.(purges := w.purges[pid := Purger(user, Asking, {})])
      case LockAccount(pid) => w.(purges := w.purges[pid := w.purges[pid].(phase := Holding)])
      case DeleteLinks(pid) =>
        var user := w.purges[pid].user;
        w.(purges := w.purges[pid := Purger(user, Deleted, UserHashes(w.db.rows, user))])
      case CommitPurge(pid) =>
        w.(db := w.db.(rows := WithoutAll(w.db.rows, w.purges[pid].gone)), purges := w.purges - {pid})
      case AbortPurge(pid) => w.(purges := w.purges - {pid})
      case TryConsume(hash, now) => w.(db := Step(w.db, Consume(hash, now)))
      case Delete(hash) => w.(db := Step(w.db, Remove(hash)))
  }

  function Run(w: World, events: seq<Event>): World
    decreases |events|
  {
    if events == [] then w else Run(Apply(w, events[0]), events[1..])
  }

  // The atomic operation an event takes effect as, if any.
  function Effect(w: World, e: Event): seq<Atom> {
    if !Enabled(w, e) then []
    else
      match e
      case Commit(tid) => [Create(w.txs[tid].link)]
      case CommitPurge(pid) => [Purge(w.purges[pid].user)]
      case TryConsume(hash, now) => [Consume(hash, now)]
      case Delete(hash) => [Remove(hash)]
      case _ => []
  }

  function Effects(w: World, events: seq<Event>): seq<Atom>
    decreases |events|
  {
    if events == [] then [] else Effect(w, events[0]) + Effects(Apply(w, events[0]), events[1..])
  }

  /******* The locks *******/

  ghost predicate OneLock(w: World) {
    forall s, t :: s in w.txs && t in w.txs && s != t && HoldsLock(w.txs[s], w.txs[s].link.user) ==>
      !HoldsLock(w.txs[t], w.txs[s].link.user)
  }

  ghost predicate FreshHashes(w: World) {
    && (forall t :: t in w.txs ==> w.txs[t].link.hash !in w.db.used)
    && (forall s, t :: s in w.txs && t in w.txs && s != t ==> w.txs[s].link.hash != w.txs[t].link.hash)
  }

  // Until it ends, a transaction past its UPDATE holds locked exactly the account's unconsumed rows.
  ghost predicate HoldsRows(db: Ledger, tx: Tx) {
    if tx.phase.Superseding? || tx.phase.Inserted? then tx.dead == LiveHashes(db.rows, tx.link.user) else tx.dead == {}
  }

  // Nobody shares an account's lock while a purge has it, and one purge has it at a time.
  ghost predicate AccountLock(w: World) {
    && (forall t, p :: t in w.txs && p in w.purges && Shares(w.txs[t], w.purges[p].user) ==>
          !Excludes(w.purges[p], w.purges[p].user))
    && (forall p, q :: p in w.purges && q in w.purges && p != q && Excludes(w.purges[p], w.purges[p].user) ==>
          !Excludes(w.purges[q], w.purges[p].user))
  }

  // Until it ends, a purge past its DELETE holds locked every row of the account.
  ghost predicate HoldsGone(db: Ledger, p: Purger) {
    if p.phase.Deleted? then p.gone == UserHashes(db.rows, p.user) else p.gone == {}
  }

  ghost predicate AllHold(w: World) {
    && (forall t :: t in w.txs ==> HoldsRows(w.db, w.txs[t]))
    && (forall p :: p in w.purges ==> HoldsGone(w.db, w.purges[p]))
  }

  ghost predicate Inv(w: World) {
    Tidy(w.db) && OneLock(w) && FreshHashes(w) && AccountLock(w) && AllHold(w)
  }

  // With the locks held, what a commit writes is what an atomic Create does.
  lemma CommitIsCreate(w: World, tid: nat)
    requires Inv(w) && Enabled(w, Commit(tid))
    ensures Committed(w.db, w.txs[tid]) == Step(w.db, Create(w.txs[tid].link))
  {
    var tx := w.txs[tid];
    forall i | 0 <= i < |w.db.rows|
      ensures w.db.rows[i].link.hash in tx.dead <==>
        w.db.rows[i].link.user == tx.link.user && w.db.rows[i].consumed.None?
    {
      if w.db.rows[i].link.hash in tx.dead {
        var j :| 0 <= j < |w.db.rows| && w.db.rows[j].link.user == tx.link.user && w.db.rows[j].consumed.None?
          && w.db.rows[j].link.hash == w.db.rows[i].link.hash;
        assert i == j;
      }
    }
    assert EndDead(w.db.rows, tx.dead, tx.link.created) == Superseded(w.db.rows, tx.link.user, tx.link.created);
  }

  // Another account's link, or a row no transaction holds, changes nobody's locked rows.
  lemma CreateElsewhere(l: Ledger, link: Link, user: nat)
    requires Tidy(l) && link.user != user
    ensures LiveHashes(Step(l, Create(link)).rows, user) == LiveHashes(l.rows, user)
  {
    var rows, rows' := l.rows, Step(l, Create(link)).rows;
    forall h | h in LiveHashes(rows, user)
      ensures h in LiveHashes(rows', user)
    {
      var i :| 0 <= i < |rows| && rows[i].link.user == user && rows[i].consumed.None? && rows[i].link.hash == h;
      assert rows'[i] == rows[i];
    }
  }

  lemma ConsumeElsewhere(l: Ledger, hash: Hash, now: int, user: nat)
    requires Tidy(l) && hash !in LiveHashes(l.rows, user)
    ensures LiveHashes(Step(l, Consume(hash, now)).rows, user) == LiveHashes(l.rows, user)
  {
    var rows, rows' := l.rows, Step(l, Consume(hash, now)).rows;
    forall i | 0 <= i < |rows| && rows[i].link.user == user && rows[i].consumed.None?
      ensures rows'[i] == rows[i]
    {
      assert rows[i].link.hash in LiveHashes(rows, user);
    }
    forall h | h in LiveHashes(rows, user)
      ensures h in LiveHashes(rows', user)
    {
      var i :| 0 <= i < |rows| && rows[i].link.user == user && rows[i].consumed.None? && rows[i].link.hash == h;
      assert rows'[i] == rows[i];
    }
  }

  lemma RemoveElsewhere(l: Ledger, hash: Hash, user: nat)
    requires hash !in LiveHashes(l.rows, user)
    ensures LiveHashes(Step(l, Remove(hash)).rows, user) == LiveHashes(l.rows, user)
  {
    var rows, rows' := l.rows, Without(l.rows, hash);
    forall row
      ensures row in rows' <==> row in rows && row.link.hash != hash
    {
      InWithout(rows, hash, row);
    }
    SameLive(rows, rows', user);
  }

  // The hashes of an account depend on its rows alone.
  lemma SameLive(rows: seq<Row>, rows': seq<Row>, user: nat)
    requires forall row :: row in rows' ==> row in rows
    requires forall row :: row in rows && row !in rows' && row.link.user == user && row.consumed.None? ==>
      row.link.hash !in LiveHashes(rows, user)
    ensures LiveHashes(rows', user) == LiveHashes(rows, user)
  {
    forall h | h in LiveHashes(rows, user)
      ensures h in LiveHashes(rows', user)
    {
      var i :| 0 <= i < |rows| && rows[i].link.user == user && rows[i].consumed.None? && rows[i].link.hash == h;
      assert rows[i] in rows';
      var j :| 0 <= j < |rows'| && rows'[j] == rows[i];
    }
    forall h | h in LiveHashes(rows', user)
      ensures h in LiveHashes(rows, user)
    {
      var j :| 0 <= j < |rows'| && rows'[j].link.user == user && rows'[j].consumed.None? && rows'[j].link.hash == h;
      assert rows'[j] in rows;
      var i :| 0 <= i < |rows| && rows[i] == rows'[j];
    }
  }

  lemma SameUser(rows: seq<Row>, rows': seq<Row>, user: nat)
    requires forall row :: row in rows && row.link.user == user ==> Stored(rows', row.link)
    requires forall row :: row in rows' && row.link.user == user ==> Stored(rows, row.link)
    ensures UserHashes(rows', user) == UserHashes(rows, user)
  {
    HashesWithin(rows, rows', user);
    HashesWithin(rows', rows, user);
  }

  lemma HashesWithin(rows: seq<Row>, rows': seq<Row>, user: nat)
    requires forall row :: row in rows && row.link.user == user ==> Stored(rows', row.link)
    ensures UserHashes(rows, user) <= UserHashes(rows', user)
  {
    forall h | h in UserHashes(rows, user)
      ensures h in UserHashes(rows', user)
    {
      var i :| 0 <= i < |rows| && rows[i].link.user == user && rows[i].link.hash == h;
      assert rows[i] in rows;
      var row :| row in rows' && row.link == rows[i].link;
      var j :| 0 <= j < |rows'| && rows'[j] == row;
    }
  }

  // What is created for others, consumed, or removed elsewhere leaves an account's rows in place.
  lemma UserElsewhere(l: Ledger, a: Atom, user: nat)
    requires a.Create? || a.Consume? || a.Remove? || a.Purge?
    requires match a
      case Create(link) => link.user != user
      case Remove(hash) => hash !in UserHashes(l.rows, user)
      case Purge(other) => other != user
      case _ => true
    ensures UserHashes(Step(l, a).rows, user) == UserHashes(l.rows, user)
  {
    var rows, rows' := l.rows, Step(l, a).rows;
    forall row | row in rows && row.link.user == user
      ensures Stored(rows', row.link)
    {
      var i :| 0 <= i < |rows| && rows[i] == row;
      if a.Remove? {
        assert row.link.hash in UserHashes(rows, user);
        InWithout(rows, a.hash, row);
      } else if a.Purge? {
        InOthers(rows, a.user, row);
      } else {
        assert rows'[i].link == row.link && rows'[i] in rows';
      }
    }
    forall row | row in rows' && row.link.user == user
      ensures Stored(rows, row.link)
    {
      if a.Remove? {
        InWithout(rows, a.hash, row);
      } else if a.Purge? {
        InOthers(rows, a.user, row);
      } else {
        var i :| 0 <= i < |rows'| && rows'[i] == row;
        assert rows[i].link == row.link && rows[i] in rows;
      }
    }
    SameUser(rows, rows', user);
  }

  lemma PurgeElsewhere(l: Ledger, user: nat, other: nat)
    requires user != other
    ensures LiveHashes(Step(l, Purge(other)).rows, user) == LiveHashes(l.rows, user)
  {
    var rows, rows' := l.rows, OthersOf(l.rows, other);
    forall row
      ensures row in rows' <==> row in rows && row.link.user != other
    {
      InOthers(rows, other, row);
    }
    SameLive(rows, rows', user);
  }

  // With every row of the account locked, what a purge's commit deletes is all of them.
  lemma {:induction false} CommitIsPurge(rows: seq<Row>, gone: set<Hash>, user: nat)
    requires forall row :: row in rows ==> (row.link.hash in gone <==> row.link.user == user)
    ensures WithoutAll(rows, gone) == OthersOf(rows, user)
  {
    if rows != [] {
      assert rows[|rows| - 1] in rows;
      CommitIsPurge(rows[..|rows| - 1], gone, user);
    }
  }

  lemma GoneAreTheirs(rows: seq<Row>, user: nat)
    requires Distinct(rows)
    ensures forall row :: row in rows ==> (row.link.hash in UserHashes(rows, user) <==> row.link.user == user)
  {
    forall row | row in rows
      ensures row.link.hash in UserHashes(rows, user) <==> row.link.user == user
    {
      var i :| 0 <= i < |rows| && rows[i] == row;
      if row.link.hash in UserHashes(rows, user) {
        var j :| 0 <= j < |rows| && rows[j].link.user == user && rows[j].link.hash == row.link.hash;
        assert i == j;
      }
    }
  }

  lemma ApplyKeeps(w: World, e: Event)
    requires Inv(w)
    ensures Inv(Apply(w, e)) && Apply(w, e).db == Steps(w.db, Effect(w, e))
  {
    if Enabled(w, e) {
      OneLockKept(w, e);
      AccountLockKept(w, e);
      match e
      case Commit(tid) => CommitKeeps(w, tid);
      case CommitPurge(pid) => CommitPurgeKeeps(w, pid);
      case TryConsume(hash, now) => ConsumeKeeps(w, hash, now);
      case Delete(hash) => DeleteKeeps(w, hash);
      case _ => OwnStepKeeps(w, e);
    }
  }

  lemma OneLockKept(w: World, e: Event)
    requires OneLock(w) && Enabled(w, e)
    ensures OneLock(Apply(w, e))
  {
    hide LiveHashes, UserHashes, Committed, RowLocked, WithoutAll, FreshHash;
  }

  lemma AccountLockKept(w: World, e: Event)
    requires AccountLock(w) && Enabled(w, e)
    ensures AccountLock(Apply(w, e))
  {
    hide LiveHashes, UserHashes, Committed, RowLocked, WithoutAll, FreshHash, LockFree;
  }

  // A step of a creation's or a purge's own, before its commit.
  lemma OwnStepKeeps(w: World, e: Event)
    requires Inv(w) && Enabled(w, e) && !e.Commit? && !e.CommitPurge? && !e.TryConsume? && !e.Delete?
    ensures FreshHashes(Apply(w, e)) && AllHold(Apply(w, e)) && Apply(w, e).db == w.db
  {
    hide Tidy, LiveHashes, UserHashes, OneLock, AccountLock, LockFree, RowLocked;
  }

  lemma CommitKeeps(w: World, tid: nat)
    requires Inv(w) && Enabled(w, Commit(tid))
    ensures var v := Apply(w, Commit(tid));
      Tidy(v.db) && FreshHashes(v) && AllHold(v) && v.db == Steps(w.db, Effect(w, Commit(tid)))
  {
    CommitIsCreate(w, tid);
    var tx := w.txs[tid];
    StepIsTidy(w.db, Create(tx.link));
    hide Tidy, LiveHashes, UserHashes, Created, Committed, RowLocked;
    var v := Apply(w, Commit(tid));
    forall t | t in v.txs
      ensures HoldsRows(v.db, v.txs[t])
    {
      assert HoldsRows(w.db, w.txs[t]);
      if w.txs[t].link.user != tx.link.user {
        CreateElsewhere(w.db, tx.link, w.txs[t].link.user);
      } else {
        assert HoldsLock(tx, tx.link.user);
      }
    }
    forall p | p in v.purges
      ensures HoldsGone(v.db, v.purges[p])
    {
      assert HoldsGone(w.db, w.purges[p]);
      if w.purges[p].user != tx.link.user {
        UserElsewhere(w.db, Create(tx.link), w.purges[p].user);
      } else {
        assert Shares(tx, w.purges[p].user);
      }
    }
  }

  lemma CommitPurgeKeeps(w: World, pid: nat)
    requires Inv(w) && Enabled(w, CommitPurge(pid))
    ensures var v := Apply(w, CommitPurge(pid));
      Tidy(v.db) && FreshHashes(v) && AllHold(v) && v.db == Steps(w.db, Effect(w, CommitPurge(pid)))
  {
    var u := w.purges[pid].user;
    StepIsTidy(w.db, Purge(u));
    assert Distinct(w.db.rows);
    GoneAreTheirs(w.db.rows, u);
    CommitIsPurge(w.db.rows, w.purges[pid].gone, u);
    hide Tidy, LiveHashes, UserHashes, OthersOf, WithoutAll, RowLocked;
    var v := Apply(w, CommitPurge(pid));
    assert v.db == Step(w.db, Purge(u));
    forall t | t in v.txs
      ensures HoldsRows(v.db, v.txs[t])
    {
      assert HoldsRows(w.db, w.txs[t]);
      if w.txs[t].link.user != u {
        PurgeElsewhere(w.db, w.txs[t].link.user, u);
      } else {
        assert Excludes(w.purges[pid], u) && !Shares(w.txs[t], u);
      }
    }
    forall p | p in v.purges
      ensures HoldsGone(v.db, v.purges[p])
    {
      assert HoldsGone(w.db, w.purges[p]);
      if w.purges[p].user != u {
        UserElsewhere(w.db, Purge(u), w.purges[p].user);
      } else {
        assert Excludes(w.purges[pid], u);
      }
    }
  }

  lemma ConsumeKeeps(w: World, hash: Hash, now: int)
    requires Inv(w) && Enabled(w, TryConsume(hash, now))
    ensures var v := Apply(w, TryConsume(hash, now)); Tidy(v.db) && FreshHashes(v) && AllHold(v)
  {
    StepIsTidy(w.db, Consume(hash, now));
    hide Tidy, LiveHashes, UserHashes, Consumed;
    var v := Apply(w, TryConsume(hash, now));
    forall t | t in v.txs
      ensures HoldsRows(v.db, v.txs[t])
    {
      assert HoldsRows(w.db, w.txs[t]) && hash !in w.txs[t].dead;
      if w.txs[t].dead == LiveHashes(w.db.rows, w.txs[t].link.user) {
        ConsumeElsewhere(w.db, hash, now, w.txs[t].link.user);
      }
    }
    forall p | p in v.purges
      ensures HoldsGone(v.db, v.purges[p])
    {
      assert HoldsGone(w.db, w.purges[p]);
      UserElsewhere(w.db, Consume(hash, now), w.purges[p].user);
    }
  }

  lemma DeleteKeeps(w: World, hash: Hash)
    requires Inv(w) && Enabled(w, Delete(hash))
    ensures var v := Apply(w, Delete(hash)); Tidy(v.db) && FreshHashes(v) && AllHold(v)
  {
    StepIsTidy(w.db, Remove(hash));
    hide Tidy, LiveHashes, UserHashes, Without;
    var v := Apply(w, Delete(hash));
    forall t | t in v.txs
      ensures HoldsRows(v.db, v.txs[t])
    {
      assert HoldsRows(w.db, w.txs[t]) && hash !in w.txs[t].dead;
      if w.txs[t].dead == LiveHashes(w.db.rows, w.txs[t].link.user) {
        RemoveElsewhere(w.db, hash, w.txs[t].link.user);
      }
    }
    forall p | p in v.purges
      ensures HoldsGone(v.db, v.purges[p])
    {
      assert HoldsGone(w.db, w.purges[p]) && hash !in w.purges[p].gone;
      if w.purges[p].gone == UserHashes(w.db.rows, w.purges[p].user) {
        UserElsewhere(w.db, Remove(hash), w.purges[p].user);
      }
    }
  }

  /******* Every interleaving *******/

  lemma {:induction false} StepsConcat(l: Ledger, a: seq<Atom>, b: seq<Atom>)
    ensures Steps(l, a + b) == Steps(Steps(l, a), b)
    decreases |a|
  {
    if a == [] {
      assert a + b == b;
    } else {
      assert (a + b)[1..] == a[1..] + b;
      StepsConcat(Step(l, a[0]), a[1..], b);
    }
  }

  /** Every interleaving commits what some run of atomic creates, consumes, deletions and purges does. */
  lemma {:induction false} RunIsAtomic(w: World, events: seq<Event>)
    requires Inv(w)
    ensures Inv(Run(w, events)) && Run(w, events).db == Steps(w.db, Effects(w, events))
    decreases |events|
  {
    if events != [] {
      ApplyKeeps(w, events[0]);
      hide Inv, Apply, Effect;
      RunIsAtomic(Apply(w, events[0]), events[1..]);
      StepsConcat(w.db, Effect(w, events[0]), Effects(Apply(w, events[0]), events[1..]));
    }
  }

  const EMPTY := World(Ledger([], {}, [], {}), map[], map[])

  /** So in every interleaving an account has at most one unconsumed link committed. */
  lemma OneLiveLink(events: seq<Event>)
    ensures OneLive(Run(EMPTY, events).db.rows)
  {
    RunIsAtomic(EMPTY, events);
  }

  /** And a token is spent at most once, never after its link was superseded. */
  lemma SpentAtMostOnce(events: seq<Event>, more: seq<Event>, hash: Hash)
    ensures var w := Run(EMPTY, events);
      var v := Run(w, more);
      && multiset(v.db.spent)[hash] <= 1
      && (hash in w.db.ended ==> hash !in v.db.spent)
  {
    RunIsAtomic(EMPTY, events);
    var w := Run(EMPTY, events);
    RunIsAtomic(w, more);
    SpentOnce(Run(w, more).db, hash);
    if hash in w.db.ended {
      DeadStaysDead(w.db, Effects(w, more), hash);
    }
  }

  /**
   A purge and a creation never cross: when a purge commits, in any interleaving, no link of the account is left and
   none is past the account's lock, so whatever link of the account is committed later was created after; and no link
   it deleted is spent afterwards.
   */
  lemma PurgeOrLinkFirst(events: seq<Event>, pid: nat, more: seq<Event>)
    requires Enabled(Run(EMPTY, events), CommitPurge(pid))
    ensures var w := Run(EMPTY, events);
      var u, v := w.purges[pid].user, Apply(w, CommitPurge(pid));
      var z := Run(v, more);
      && (forall row :: row in v.db.rows ==> row.link.user != u)
      && (forall t :: t in v.txs && v.txs[t].link.user == u ==> v.txs[t].phase.Waiting?)
      && (forall row :: row in z.db.rows && row.link.user == u ==> row.link.hash !in v.db.used)
      && (forall hash :: hash in UserHashes(w.db.rows, u) ==> (hash in z.db.spent <==> hash in v.db.spent))
  {
    RunIsAtomic(EMPTY, events);
    var w := Run(EMPTY, events);
    var u, v := w.purges[pid].user, Apply(w, CommitPurge(pid));
    ApplyKeeps(w, CommitPurge(pid));
    RunIsAtomic(v, more);
    PurgedAlone(w, pid);
    hide Inv, Run, Apply, Enabled;
    PurgedForGood(w.db, v.db, u, Effects(v, more));
  }

  lemma PurgedAlone(w: World, pid: nat)
    requires Inv(w) && Enabled(w, CommitPurge(pid))
    ensures var u, v := w.purges[pid].user, Apply(w, CommitPurge(pid));
      && v.db == Step(w.db, Purge(u)) && Tidy(w.db)
      && forall t :: t in v.txs && v.txs[t].link.user == u ==> v.txs[t].phase.Waiting?
  {
    CommitPurgeKeeps(w, pid);
    hide Tidy, OthersOf, WithoutAll;
    assert Excludes(w.purges[pid], w.purges[pid].user);
  }

  lemma PurgedForGood(l: Ledger, m: Ledger, user: nat, atoms: seq<Atom>)
    requires m == Step(l, Purge(user)) && Tidy(l)
    ensures forall row :: row in m.rows ==> row.link.user != user
    ensures forall row :: row in Steps(m, atoms).rows && row.link.user == user ==> row.link.hash !in m.used
    ensures forall hash :: hash in UserHashes(l.rows, user) ==> (hash in Steps(m, atoms).spent <==> hash in m.spent)
  {
    forall row | row in m.rows
      ensures row in l.rows && row.link.user != user
    {
      InOthers(l.rows, user, row);
    }
    forall row | row in Steps(m, atoms).rows && row.link.user == user
      ensures row.link.hash !in m.used
    {
      StepsLinks(m, atoms, row);
    }
    forall hash | hash in UserHashes(l.rows, user)
      ensures hash in Steps(m, atoms).spent <==> hash in m.spent
    {
      var i :| 0 <= i < |l.rows| && l.rows[i].link.user == user && l.rows[i].link.hash == hash;
      GoneAreTheirs(l.rows, user);
      GoneStaysUnspent(m, atoms, hash);
    }
  }
}

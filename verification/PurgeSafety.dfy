/** What a committed purge guarantees for the rest of every run. */
module PurgeSafety {
  import opened PurgeProtocol
  import opened PurgeInvariant

  // What a purge deleted from one account: identity incarnations and sessions.
  datatype Buried = Buried(user: Account, ids: set<(Ident, nat)>, sessions: set<nat>)

  predicate Purges(w: World, tid: nat) {
    tid in w.txs && w.txs[tid].purging && w.txs[tid].pc == Commit
  }

  function BuriedBy(w: World, tid: nat): Buried
    requires tid in w.txs
  {
    var tx := w.txs[tid];
    Buried(tx.user, set i | i in tx.dropIdentities && i in w.db.identities :: (i, w.db.identities[i].gen),
           tx.dropSessions)
  }

  function Rank(v: Voucher): nat {
    if v.BySession? then v.issuer + 1 else 0
  }

  // The voucher, or the voucher of a session in its chain of issuers, was deleted by the purge.
  predicate Tainted(h: map<nat, IssuedRow>, d: Buried, v: Voucher)
    decreases Rank(v)
  {
    match v
    case Unbound => false
    case ByIdentity(i, g) => (i, g) in d.ids
    case BySession(s) =>
      s in d.sessions || (s in h && Rank(h[s].voucher) < Rank(v) && Tainted(h, d, h[s].voucher))
  }

  ghost predicate CleanTables(db: Tables, h: map<nat, IssuedRow>, d: Buried) {
    && (forall i :: i in db.identities ==> (i, db.identities[i].gen) !in d.ids)
    && (forall s :: s in db.sessions ==> s !in d.sessions)
    && (forall s :: s in db.sessions && db.sessions[s].user == d.user ==> !Tainted(h, d, db.sessions[s].voucher))
    && (forall c :: c in db.codes && db.codes[c].user == d.user ==> !Tainted(h, d, db.codes[c].voucher))
  }

  ghost predicate CleanTx(h: map<nat, IssuedRow>, d: Buried, tx: Tx) {
    && (tx.user == d.user ==> !Tainted(h, d, tx.voucher))
    && (PutsSession(tx) ==> tx.sid !in d.sessions)
    && (forall i :: PutsIdentity(tx, i) ==> (i, tx.gen) !in d.ids)
  }

  ghost predicate Past(w: World, d: Buried) {
    && (forall p :: p in d.ids ==> p.1 < w.nextGen)
    && (forall s :: s in d.sessions ==> s < w.nextSession)
  }

  ghost predicate Clean(w: World, d: Buried) {
    && Past(w, d)
    && CleanTables(w.db, w.history, d)
    && (forall t {:trigger CleanTx(w.history, d, w.txs[t])} :: t in w.txs ==> CleanTx(w.history, d, w.txs[t]))
  }

  lemma CleanOne(w: World, d: Buried, t: nat)
    requires Clean(w, d) && t in w.txs
    ensures Past(w, d) && CleanTables(w.db, w.history, d) && CleanTx(w.history, d, w.txs[t])
  {
  }

  lemma {:induction false} TaintStays(h: map<nat, IssuedRow>, g: map<nat, IssuedRow>, d: Buried, v: Voucher)
    requires WellFormedHistory(h)
    requires forall s :: s in h ==> s in g && g[s] == h[s]
    requires v.BySession? ==> v.issuer in h
    ensures Tainted(h, d, v) <==> Tainted(g, d, v)
    decreases Rank(v)
  {
    if v.BySession? && Rank(h[v.issuer].voucher) < Rank(v) {
      TaintStays(h, g, d, h[v.issuer].voucher);
    }
  }

  /******* One step *******/

  lemma PutClean(w: World, v: World, d: Buried, tid: nat, tx: Tx)
    requires Clean(w, d) && v.db == w.db && v.txs == w.txs[tid := tx] && v.history == w.history
    requires w.nextGen <= v.nextGen && w.nextSession <= v.nextSession
    requires CleanTx(w.history, d, tx)
    ensures Clean(v, d)
  {
    hide CleanTables, CleanTx;
    forall t | t in v.txs
      ensures CleanTx(v.history, d, v.txs[t])
    {
      if t != tid {
        CleanOne(w, d, t);
      }
    }
  }

  lemma EndClean(w: World, d: Buried, tid: nat)
    requires Clean(w, d)
    ensures Clean(End(w, tid), d)
  {
    hide CleanTables, CleanTx;
    var v := End(w, tid);
    forall t | t in v.txs
      ensures CleanTx(v.history, d, v.txs[t])
    {
      CleanOne(w, d, t);
    }
  }

  // A step that issues nothing and writes no identity keeps its record clean.
  lemma SameVoucher(h: map<nat, IssuedRow>, d: Buried, x: Tx, y: Tx)
    requires CleanTx(h, d, x) && y.voucher == Unbound && y.pc != Commit
    ensures CleanTx(h, d, y)
  {
  }

  lemma WriteIdentityClean(w: World, d: Buried, tid: nat, i: Ident)
    requires Clean(w, d) && tid in w.txs && w.txs[tid].voucher == Unbound
    requires w.txs[tid].work == SaveFederated(i) || (w.txs[tid].work.Login? && w.txs[tid].work.claims.id == i)
    ensures Clean(WriteIdentity(w, tid, i), d)
  {
    CleanOne(w, d, tid);
    var v := WriteIdentity(w, tid, i);
    PutClean(w, v, d, tid, v.txs[tid]);
  }

  lemma CheckClean(w: World, d: Buried, tid: nat, binding: Binding)
    requires Clean(w, d) && Ids(w) && tid in w.txs && w.txs[tid].pc == CheckVoucher
    ensures Clean(StepCheck(w, tid, binding), d)
  {
    CleanOne(w, d, tid);
    EndClean(w, d, tid);
    var v := StepCheck(w, tid, binding);
    if tid in v.txs {
      PutClean(w, v, d, tid, v.txs[tid]);
    }
  }

  lemma GrownTables(w: World, g: map<nat, IssuedRow>, d: Buried)
    requires Ids(w) && CleanTables(w.db, w.history, d)
    requires forall s :: s in w.history ==> s in g && g[s] == w.history[s]
    ensures CleanTables(w.db, g, d)
  {
    forall s | s in w.db.sessions && w.db.sessions[s].user == d.user
      ensures !Tainted(g, d, w.db.sessions[s].voucher)
    {
      TaintStays(w.history, g, d, w.db.sessions[s].voucher);
    }
    forall c | c in w.db.codes && w.db.codes[c].user == d.user
      ensures !Tainted(g, d, w.db.codes[c].voucher)
    {
      TaintStays(w.history, g, d, w.db.codes[c].voucher);
    }
  }

  lemma GrownTx(w: World, g: map<nat, IssuedRow>, d: Buried, tx: Tx)
    requires Ids(w) && TxOk(w, tx) && CleanTx(w.history, d, tx)
    requires forall s :: s in w.history ==> s in g && g[s] == w.history[s]
    ensures CleanTx(g, d, tx)
  {
    TaintStays(w.history, g, d, tx.voucher);
  }

  lemma InsertSessionClean(w: World, d: Buried, tid: nat)
    requires Clean(w, d) && Inv(w) && tid in w.txs
    requires w.txs[tid].work.IssueSession? && w.txs[tid].pc == InsertIssued
    ensures Clean(StepInsertSession(w, tid), d)
  {
    hide Inv, CleanTables, CleanTx, TxOk;
    OneOf(w, tid);
    CleanOne(w, d, tid);
    var v := StepInsertSession(w, tid);
    GrownTables(w, v.history, d);
    forall t | t in v.txs
      ensures CleanTx(v.history, d, v.txs[t])
    {
      OneOf(w, t);
      CleanOne(w, d, t);
      GrownTx(w, v.history, d, w.txs[t]);
      if t == tid {
        InsertedTx(w, v.history, d, w.txs[tid]);
      }
    }
  }

  lemma InsertedTx(w: World, g: map<nat, IssuedRow>, d: Buried, tx: Tx)
    requires Past(w, d) && CleanTx(g, d, tx) && tx.work.IssueSession?
    ensures CleanTx(g, d, tx.(pc := Commit, sid := w.nextSession))
  {
  }

  lemma CommitClean(w: World, d: Buried, tid: nat)
    requires Clean(w, d) && tid in w.txs && w.txs[tid].pc == Commit
    ensures Clean(CommitTx(w, tid), d)
  {
    CleanOne(w, d, tid);
    EndClean(w, d, tid);
    var tx := w.txs[tid];
    if tx.work.Login? {
      assert PutsIdentity(tx, tx.work.claims.id);
    } else if tx.work.SaveFederated? {
      assert PutsIdentity(tx, tx.work.saved);
    }
  }

  // Any other step of a login moves only its own record, short of its commit.
  ghost predicate OwnStep(w: World, v: World, tid: nat)
    requires tid in w.txs
  {
    || v == w || v == End(w, tid)
    || (tid in v.txs && v.db == w.db && v.txs == w.txs[tid := v.txs[tid]] && v.history == w.history
        && w.nextGen <= v.nextGen && w.nextSession <= v.nextSession
        && v.txs[tid].voucher == w.txs[tid].voucher && v.txs[tid].pc != Commit)
  }

  lemma LoginOwnStep(w: World, tid: nat)
    requires tid in w.txs && w.txs[tid].work.Login? && w.txs[tid].pc != Commit && w.txs[tid].pc != LinkIdentity
    requires w.txs[tid].pc == Resolve ==> w.txs[tid].work.claims.id !in w.db.identities
    ensures OwnStep(w, StepLogin(w, tid), tid)
  {
    hide Linked, EmailTaken, EmailBusy, UserBusy, EmailClash, IdentityBusy;
  }

  lemma LoginClean(w: World, d: Buried, tid: nat)
    requires Clean(w, d) && Inv(w) && tid in w.txs && w.txs[tid].work.Login? && w.txs[tid].pc != Commit
    ensures Clean(StepLogin(w, tid), d)
  {
    hide Inv, CleanTables, CleanTx, TxOk, Clean, StepReread, StepInsertUser, StepPurgeIdentities, StepDropSessions,
         StepDropCodes, StepUpdateUser, SubjectLogin, WriteIdentity, IdentityBusy, EmailTaken;
    OneOf(w, tid);
    CleanOne(w, d, tid);
    EndClean(w, d, tid);
    var tx, v := w.txs[tid], StepLogin(w, tid);
    LoginVoucher(w, tx);
    if tx.pc == Resolve && tx.work.claims.id in w.db.identities {
      SubjectLoginClean(w, d, tid, w.db.identities[tx.work.claims.id].user, tx.work.claims);
    } else if tx.pc == LinkIdentity {
      WriteIdentityClean(w, d, tid, tx.work.claims.id);
    } else {
      LoginOwnStep(w, tid);
      if tid in v.txs && v != w {
        SameVoucher(w.history, d, tx, v.txs[tid]);
        PutClean(w, v, d, tid, v.txs[tid]);
      }
    }
  }

  lemma LoginVoucher(w: World, tx: Tx)
    requires TxOk(w, tx) && !Issues(tx.work)
    ensures tx.voucher == Unbound
  {
  }

  lemma SubjectLoginClean(w: World, d: Buried, tid: nat, a: Account, claims: Claims)
    requires Clean(w, d)
    ensures Clean(SubjectLogin(w, tid, a, claims), d)
  {
    hide CleanTx;
    EndClean(w, d, tid);
  }

  lemma SaveClean(w: World, d: Buried, tid: nat)
    requires Clean(w, d) && Inv(w) && tid in w.txs && w.txs[tid].work.SaveFederated?
    ensures Clean(StepSave(w, tid), d)
  {
    hide Inv, Clean, TxOk;
    OneOf(w, tid);
    LoginVoucher(w, w.txs[tid]);
    EndClean(w, d, tid);
    WriteIdentityClean(w, d, tid, w.txs[tid].work.saved);
  }

  lemma EraseClean(w: World, d: Buried, tid: nat)
    requires Clean(w, d) && Inv(w) && tid in w.txs && w.txs[tid].work.Erase? && w.txs[tid].pc != Commit
    ensures Clean(StepErase(w, tid), d)
  {
    hide Inv, CleanTables, TxOk;
    OneOf(w, tid);
    LoginVoucher(w, w.txs[tid]);
    CleanOne(w, d, tid);
    EndClean(w, d, tid);
    var v := StepErase(w, tid);
    if tid in v.txs && v != w {
      PutClean(w, v, d, tid, v.txs[tid]);
    }
  }

  lemma IssueClean(w: World, d: Buried, tid: nat)
    requires Clean(w, d) && Inv(w) && tid in w.txs && (w.txs[tid].work.IssueSession? || w.txs[tid].work.IssueCode?)
    ensures Clean(StepIssue(w, tid), d)
  {
    hide Inv, CleanTables, TxOk, CodeBusy, StepCheck, StepInsertSession;
    OneOf(w, tid);
    CleanOne(w, d, tid);
    EndClean(w, d, tid);
    var tx := w.txs[tid];
    if tx.pc == CheckVoucher {
      CheckClean(w, d, tid, if tx.work.IssueSession? then tx.work.binding else OnIdentity(tx.work.codeId));
    } else if tx.pc == InsertIssued {
      if tx.work.IssueSession? {
        InsertSessionClean(w, d, tid);
      } else {
        var v := StepInsertCode(w, tid);
        if tid in v.txs && v != w {
          PutClean(w, v, d, tid, v.txs[tid]);
        }
      }
    }
  }

  lemma LockClean(w: World, d: Buried, tid: nat)
    requires Clean(w, d) && tid in w.txs && (w.txs[tid].pc == LockExclusive || w.txs[tid].pc == LockShared)
    ensures Clean(StepLock(w, tid), d)
  {
    hide CleanTables, CanLockExclusive, CanLockShared;
    CleanOne(w, d, tid);
    var v := StepLock(w, tid);
    if v != w {
      PutClean(w, v, d, tid, v.txs[tid]);
    }
  }

  lemma StepTxClean(w: World, d: Buried, tid: nat)
    requires Clean(w, d) && Inv(w)
    ensures Clean(StepTx(w, tid), d)
  {
    hide Clean, Inv, StepLogin, StepErase, StepIssue, StepLock, StepSave, CommitTx;
    if tid in w.txs {
      var tx := w.txs[tid];
      if tx.pc == LockExclusive || tx.pc == LockShared { LockClean(w, d, tid); }
      else if tx.pc == Commit { CommitClean(w, d, tid); }
      else if tx.work.Login? { LoginClean(w, d, tid); }
      else if tx.work.SaveFederated? { SaveClean(w, d, tid); }
      else if tx.work.Erase? { EraseClean(w, d, tid); }
      else { IssueClean(w, d, tid); }
    }
  }

  lemma BeginClean(w: World, d: Buried, tid: nat, work: Work, a: Account)
    requires Clean(w, d)
    ensures Clean(StepBegin(w, tid, work, a), d)
  {
    hide CleanTables;
    var v := StepBegin(w, tid, work, a);
    if v != w {
      PutClean(w, v, d, tid, v.txs[tid]);
    }
  }

  lemma IssueUnboundClean(w: World, d: Buried, a: Account)
    requires Clean(w, d) && Inv(w)
    ensures Clean(StepIssueUnbound(w, a), d)
  {
    hide Inv, TxOk, CleanTx;
    IdsOf(w);
    var v := StepIssueUnbound(w, a);
    if v != w {
      GrownTables(w, v.history, d);
      forall t | t in v.txs
        ensures CleanTx(v.history, d, v.txs[t])
      {
        OneOf(w, t);
        CleanOne(w, d, t);
        GrownTx(w, v.history, d, w.txs[t]);
      }
    }
  }

  // A password Save inserts a new incarnation or updates the one that is there.
  lemma SaveLocalClean(w: World, d: Buried, i: Ident, a: Account)
    requires Clean(w, d)
    ensures Clean(StepSaveLocal(w, i, a), d)
  {
    hide CleanTx;
  }

  lemma ApplyClean(w: World, d: Buried, e: Event)
    requires Clean(w, d) && Inv(w)
    ensures Clean(Apply(w, e), d)
  {
    hide Inv, CleanTx, StepTx, StepBegin, StepIssueUnbound, StepSaveLocal;
    match e
    case Begin(tid, work, a) => BeginClean(w, d, tid, work, a);
    case Step(tid) => StepTxClean(w, d, tid);
    case Abort(tid) => EndClean(w, d, tid);
    case IssueUnbound(a) => IssueUnboundClean(w, d, a);
    case SaveLocal(i, a) => SaveLocalClean(w, d, i, a);
    case _ =>
  }

  lemma {:induction false} RunClean(w: World, d: Buried, events: seq<Event>)
    requires Clean(w, d) && Inv(w)
    ensures Clean(Run(w, events), d)
    decreases |events|
  {
    hide Clean, Inv, Apply;
    if events != [] {
      ApplyClean(w, d, events[0]);
      ApplyKeeps(w, events[0]);
      RunClean(Apply(w, events[0]), d, events[1..]);
    }
  }

  /******* The purge's own commit *******/

  // Its exclusive lock means that no bound insert is under way, so none can land behind the DELETE.
  lemma NobodyElseIssues(w: World, tid: nat, t: nat)
    requires Inv(w) && Purges(w, tid) && t in w.txs && t != tid && w.txs[t].user == w.txs[tid].user
    ensures w.txs[t].voucher == Unbound && !PutsSession(w.txs[t])
  {
    hide Inv;
    OneOf(w, tid);
    OneOf(w, t);
    TwoOf(w, tid, t);
  }

  lemma BuriedTx(w: World, tid: nat, t: nat)
    requires Inv(w) && Purges(w, tid) && t in w.txs && t != tid
    ensures CleanTx(w.history, BuriedBy(w, tid), w.txs[t])
  {
    hide Inv;
    var tx, d := w.txs[t], BuriedBy(w, tid);
    OneOf(w, tid);
    OneOf(w, t);
    TwoOf(w, tid, t);
    if tx.user == d.user {
      NobodyElseIssues(w, tid, t);
    }
    forall i | PutsIdentity(tx, i)
      ensures (i, tx.gen) !in d.ids
    {
      assert TouchesIdentity(tx, i);
      assert !TouchesIdentity(w.txs[tid], i);
    }
  }

  lemma BuriedIdentities(w: World, tid: nat)
    requires Ids(w) && Purges(w, tid) && Written(w, w.txs[tid])
    ensures var v, d := CommitTx(w, tid), BuriedBy(w, tid);
            && (forall i :: i in v.db.identities ==> (i, v.db.identities[i].gen) !in d.ids)
            && (forall p :: p in d.ids ==> p.1 < w.nextGen)
  {
    hide WellFormedHistory;
    var tx, d, v := w.txs[tid], BuriedBy(w, tid), CommitTx(w, tid);
    forall i | i in v.db.identities
      ensures (i, v.db.identities[i].gen) !in d.ids
    {
      if PutsIdentity(tx, i) {
        assert i in tx.dropIdentities && i in w.db.identities ==> w.db.identities[i].gen < tx.gen;
      } else {
        assert i !in tx.dropIdentities;
      }
    }
  }

  // The lock kept every bound row that is not deleted from appearing.
  lemma BuriedIssued(w: World, tid: nat)
    requires Ids(w) && Purges(w, tid) && TxOk(w, w.txs[tid])
    ensures var db, d := CommitTx(w, tid).db, BuriedBy(w, tid);
            && (forall s :: s in db.sessions ==> s !in d.sessions)
            && (forall s :: s in db.sessions && db.sessions[s].user == d.user ==> db.sessions[s].voucher == Unbound)
            && (forall c :: c in db.codes && db.codes[c].user == d.user ==> db.codes[c].voucher == Unbound)
            && (forall s :: s in d.sessions ==> s < w.nextSession)
  {
    hide WellFormedHistory, PutsIdentity;
  }

  lemma UnboundIsClean(h: map<nat, IssuedRow>, d: Buried)
    ensures !Tainted(h, d, Unbound)
  {
  }

  lemma BuriedTables(w: World, tid: nat)
    requires Ids(w) && Purges(w, tid) && TxOk(w, w.txs[tid])
    ensures CleanTables(CommitTx(w, tid).db, w.history, BuriedBy(w, tid)) && Past(w, BuriedBy(w, tid))
  {
    hide Ids, Holds, Written, Covers, CommitTx, Tainted;
    BuriedIdentities(w, tid);
    BuriedIssued(w, tid);
    UnboundIsClean(w.history, BuriedBy(w, tid));
  }

  lemma PurgedIdentities(w: World, tid: nat)
    requires Purges(w, tid) && TxOk(w, w.txs[tid])
    ensures var a, db := w.txs[tid].user, CommitTx(w, tid).db;
            && (w.txs[tid].work.Login? ==>
                  forall i :: i in db.identities && db.identities[i].user == a && i.provider != LOCAL ==>
                                i == w.txs[tid].work.claims.id)
            && (w.txs[tid].work.Erase? ==> w.txs[tid].work.erased !in db.identities)
  {
    hide Written;
  }

  lemma PurgeCommits(w: World, tid: nat)
    requires Inv(w) && Purges(w, tid)
    ensures Clean(CommitTx(w, tid), BuriedBy(w, tid))
  {
    hide Inv, TxOk, CleanTables, CleanTx;
    OneOf(w, tid);
    BuriedTables(w, tid);
    var v, d := CommitTx(w, tid), BuriedBy(w, tid);
    forall t | t in v.txs
      ensures CleanTx(v.history, d, v.txs[t])
    {
      BuriedTx(w, tid, t);
    }
  }

  /******* The main results *******/

  // Any committed tables, nobody connected.
  ghost predicate Quiescent(w: World) {
    Ids(w) && w.txs == map[]
  }

  /** A purge deletes everything bound that its account holds, and every federated identity. */
  lemma PurgeIsComplete(start: World, before: seq<Event>, tid: nat)
    requires Quiescent(start) && Purges(Run(start, before), tid)
    ensures var w := Run(start, before);
            var a, db := w.txs[tid].user, Apply(w, Step(tid)).db;
            && (forall s :: s in db.sessions && db.sessions[s].user == a ==> db.sessions[s].voucher == Unbound)
            && (forall c :: c in db.codes && db.codes[c].user == a ==> db.codes[c].voucher == Unbound)
            && (w.txs[tid].work.Login? ==>
                  forall i :: i in db.identities && db.identities[i].user == a && i.provider != LOCAL ==>
                                i == w.txs[tid].work.claims.id)
            && (w.txs[tid].work.Erase? ==> w.txs[tid].work.erased !in db.identities)
  {
    hide Inv, TxOk, CommitTx;
    var w := Run(start, before);
    QuiescentInv(start);
    RunKeeps(start, before);
    OneOf(w, tid);
    CommitKeepsPurge(w, tid);
    BuriedIssued(w, tid);
    PurgedIdentities(w, tid);
  }

  /**
   Once a purge commits, no later event brings back what it deleted, and nothing vouched for by it,
   directly or through any chain of issuing sessions, is ever committed on the account.
   */
  lemma PurgedStaysPurged(start: World, before: seq<Event>, tid: nat, after: seq<Event>)
    requires Quiescent(start) && Purges(Run(start, before), tid)
    ensures var w := Run(start, before);
            var d, later := BuriedBy(w, tid), Run(Apply(w, Step(tid)), after);
            && (forall s :: s in later.db.sessions && later.db.sessions[s].user == d.user ==>
                              !Tainted(later.history, d, later.db.sessions[s].voucher))
            && (forall c :: c in later.db.codes && later.db.codes[c].user == d.user ==>
                              !Tainted(later.history, d, later.db.codes[c].voucher))
            && (forall s :: s in d.sessions ==> s !in later.db.sessions)
            && (forall i :: i in later.db.identities ==> (i, later.db.identities[i].gen) !in d.ids)
  {
    hide Inv, CleanTx;
    var w := Run(start, before);
    QuiescentInv(start);
    RunKeeps(start, before);
    PurgeCommits(w, tid);
    CommitKeepsPurge(w, tid);
    RunClean(Apply(w, Step(tid)), BuriedBy(w, tid), after);
  }

  lemma QuiescentInv(w: World)
    requires Quiescent(w)
    ensures Inv(w)
  {
  }

  lemma CommitKeepsPurge(w: World, tid: nat)
    requires Inv(w) && Purges(w, tid)
    ensures Apply(w, Step(tid)) == CommitTx(w, tid) && Inv(CommitTx(w, tid))
  {
    hide Inv;
    CommitKeeps(w, tid);
  }

  /******* A late federated Save *******/

  predicate Owns(db: Tables, a: Account, i: Ident) {
    i in db.identities && db.identities[i].user == a
  }

  ghost predicate KeepsOwner(w: World, events: seq<Event>, a: Account, owner: Ident)
    decreases |events|
  {
    && Owns(w.db, a, owner)
    && (events == [] || KeepsOwner(Apply(w, events[0]), events[1..], a, owner))
  }

  predicate Verified(db: Tables, a: Account) {
    a in db.users && db.users[a].verified
  }

  predicate TxBarred(tx: Tx, a: Account, i: Ident) {
    tx.user == a ==>
      && !PutsIdentity(tx, i)
      && (tx.work.Login? && tx.work.claims.id == i ==> BeforeLock(tx.pc) || tx.pc == Reread)
  }

  // Identity i is not on account a, and nobody is on the way to putting it there.
  ghost predicate Barred(w: World, a: Account, i: Ident) {
    && !Owns(w.db, a, i)
    && (forall t {:trigger TxBarred(w.txs[t], a, i)} :: t in w.txs ==> TxBarred(w.txs[t], a, i))
  }

  lemma BarredOne(w: World, a: Account, i: Ident, t: nat)
    requires Barred(w, a, i) && t in w.txs
    ensures TxBarred(w.txs[t], a, i)
  {
  }

  lemma VerifiedStaysInTx(w: World, tid: nat, a: Account)
    requires tid in w.txs && Written(w, w.txs[tid]) && Verified(w.db, a)
    ensures Verified(StepTx(w, tid).db, a)
  {
    hide Linked, EmailTaken, EmailBusy, UserBusy, EmailClash, IdentityBusy, CodeBusy, CanLockExclusive, CanLockShared;
    if w.txs[tid].work.Login? {
      VerifiedStaysInLogin(w, tid, a);
    }
    hide StepLogin;
  }

  lemma VerifiedStaysInLogin(w: World, tid: nat, a: Account)
    requires tid in w.txs && w.txs[tid].work.Login? && Written(w, w.txs[tid]) && Verified(w.db, a)
    ensures Verified(StepLogin(w, tid).db, a)
  {
    hide Linked, EmailTaken, EmailBusy, UserBusy, EmailClash, IdentityBusy, CodeBusy, CanLockExclusive, CanLockShared;
  }

  lemma VerifiedStays(w: World, e: Event, a: Account)
    requires Inv(w) && Verified(w.db, a)
    ensures Verified(Apply(w, e).db, a)
  {
    hide Inv, Holds, Written, Covers, StepTx;
    IdsOf(w);
    if e.Step? {
      if e.tid in w.txs {
        OneOf(w, e.tid);
        VerifiedStaysInTx(w, e.tid, a);
      } else {
        NoSuchTx(w, e.tid);
      }
    }
  }

  ghost predicate BarredStep(w: World, v: World, tid: nat, a: Account, i: Ident) {
    && v.db.identities == w.db.identities
    && (tid in v.txs ==> TxBarred(v.txs[tid], a, i))
    && (forall t :: t in v.txs && t != tid ==> t in w.txs && v.txs[t] == w.txs[t])
  }

  // A login of i itself finds the account verified and linked, and does not link there.
  lemma RereadBarred(w: World, tid: nat, a: Account, i: Ident)
    requires tid in w.txs && w.txs[tid].work.Login? && w.txs[tid].pc == Reread
    requires Verified(w.db, a) && Linked(w.db, a, i.provider)
    ensures BarredStep(w, StepReread(w, tid), tid, a, i)
  {
    hide Linked;
  }

  lemma InsertUserBarred(w: World, tid: nat, a: Account, i: Ident)
    requires tid in w.txs && w.txs[tid].work.Login? && w.txs[tid].pc == InsertUser && a < w.nextUser
    ensures BarredStep(w, StepInsertUser(w, tid), tid, a, i)
  {
    hide EmailTaken, EmailBusy;
  }

  lemma UpdateUserBarred(w: World, tid: nat, a: Account, i: Ident)
    requires tid in w.txs && w.txs[tid].work.Login? && w.txs[tid].pc == UpdateUser && TxBarred(w.txs[tid], a, i)
    ensures BarredStep(w, StepUpdateUser(w, tid), tid, a, i)
  {
    hide EmailClash, EmailBusy, UserBusy;
  }

  lemma LoginBarred(w: World, tid: nat, a: Account, i: Ident)
    requires a < w.nextUser && tid in w.txs && w.txs[tid].work.Login? && w.txs[tid].pc != Commit
    requires TxBarred(w.txs[tid], a, i) && Verified(w.db, a) && Linked(w.db, a, i.provider)
    ensures BarredStep(w, StepLogin(w, tid), tid, a, i)
  {
    hide Linked, StepReread, StepInsertUser, StepUpdateUser, StepResolve, StepPurgeIdentities, StepDropSessions,
         StepDropCodes, WriteIdentity, IdentityBusy, BarredStep, TxBarred;
    var pc := w.txs[tid].pc;
    if pc == Reread { RereadBarred(w, tid, a, i); }
    else if pc == InsertUser { InsertUserBarred(w, tid, a, i); }
    else if pc == UpdateUser { UpdateUserBarred(w, tid, a, i); }
    else { OtherBarred(w, tid, a, i); }
  }

  lemma OtherBarred(w: World, tid: nat, a: Account, i: Ident)
    requires tid in w.txs && w.txs[tid].work.Login? && TxBarred(w.txs[tid], a, i)
    requires w.txs[tid].pc !in {Reread, InsertUser, UpdateUser, Commit}
    ensures BarredStep(w, StepLogin(w, tid), tid, a, i)
  {
    hide EmailTaken, UserBusy, EmailClash, IdentityBusy;
  }

  lemma SaveBarred(w: World, tid: nat, a: Account, i: Ident)
    requires tid in w.txs && w.txs[tid].work.SaveFederated? && TxBarred(w.txs[tid], a, i)
    requires Linked(w.db, a, i.provider) && !Owns(w.db, a, i)
    ensures BarredStep(w, StepSave(w, tid), tid, a, i)
  {
    hide Linked, IdentityBusy;
  }

  lemma EraseBarred(w: World, tid: nat, a: Account, i: Ident)
    requires tid in w.txs && w.txs[tid].work.Erase?
    ensures BarredStep(w, StepErase(w, tid), tid, a, i)
  {
    hide IdentityBusy;
  }

  lemma IssueBarred(w: World, tid: nat, a: Account, i: Ident)
    requires tid in w.txs && (w.txs[tid].work.IssueSession? || w.txs[tid].work.IssueCode?)
    ensures BarredStep(w, StepIssue(w, tid), tid, a, i)
  {
    hide CodeBusy;
  }

  lemma LockBarred(w: World, tid: nat, a: Account, i: Ident)
    requires tid in w.txs && (w.txs[tid].pc == LockExclusive || w.txs[tid].pc == LockShared)
    requires TxBarred(w.txs[tid], a, i)
    ensures BarredStep(w, StepLock(w, tid), tid, a, i)
  {
    hide CanLockExclusive, CanLockShared;
  }

  // The step's own record: only a login or a Save of i itself could put i on a, and both are refused.
  lemma StepBarred(w: World, tid: nat, a: Account, i: Ident, owner: Ident)
    requires Ids(w) && tid in w.txs && TxBarred(w.txs[tid], a, i)
    requires owner != i && owner.provider == i.provider
    requires Owns(w.db, a, owner) && Verified(w.db, a) && !Owns(w.db, a, i)
    requires w.txs[tid].pc != Commit
    ensures BarredStep(w, StepTx(w, tid), tid, a, i)
  {
    assert Linked(w.db, a, i.provider);
    hide Linked, StepLogin, StepSave, StepErase, StepIssue, StepLock, BarredStep, TxBarred, WellFormedHistory;
    var tx := w.txs[tid];
    if tx.pc == LockExclusive || tx.pc == LockShared { LockBarred(w, tid, a, i); }
    else if tx.work.Login? { LoginBarred(w, tid, a, i); }
    else if tx.work.SaveFederated? { SaveBarred(w, tid, a, i); }
    else if tx.work.Erase? { EraseBarred(w, tid, a, i); }
    else { IssueBarred(w, tid, a, i); }
  }

  lemma ApplyBarred(w: World, e: Event, a: Account, i: Ident, owner: Ident)
    requires Inv(w) && Barred(w, a, i)
    requires owner != i && owner.provider == i.provider != LOCAL
    requires Owns(w.db, a, owner) && Verified(w.db, a)
    ensures Barred(Apply(w, e), a, i)
  {
    hide Inv, TxOk, StepTx;
    IdsOf(w);
    var v := Apply(w, e);
    if e.Step? && e.tid in w.txs && w.txs[e.tid].pc == Commit {
      CommitBarred(w, e.tid, a, i);
    } else {
      if e.Step? && e.tid in w.txs {
        BarredOne(w, a, i, e.tid);
        StepBarred(w, e.tid, a, i, owner);
      } else if e.Step? {
        NoSuchTx(w, e.tid);
      }
      forall t | t in v.txs
        ensures TxBarred(v.txs[t], a, i)
      {
        if t in w.txs {
          BarredOne(w, a, i, t);
        }
      }
    }
  }

  lemma NoSuchTx(w: World, tid: nat)
    requires tid !in w.txs
    ensures StepTx(w, tid) == w
  {
  }

  lemma CommitBarred(w: World, tid: nat, a: Account, i: Ident)
    requires Barred(w, a, i) && tid in w.txs && w.txs[tid].pc == Commit
    ensures Apply(w, Step(tid)) == CommitTx(w, tid) && Barred(CommitTx(w, tid), a, i)
  {
    BarredOne(w, a, i, tid);
    var v := CommitTx(w, tid);
    forall t | t in v.txs
      ensures TxBarred(v.txs[t], a, i)
    {
      BarredOne(w, a, i, t);
    }
  }

  lemma {:induction false} RunBarred(w: World, events: seq<Event>, a: Account, i: Ident, owner: Ident)
    requires Inv(w) && Barred(w, a, i) && Verified(w.db, a)
    requires owner != i && owner.provider == i.provider != LOCAL
    requires KeepsOwner(w, events, a, owner)
    ensures Barred(Run(w, events), a, i) && Owns(Run(w, events).db, a, owner)
    decreases |events|
  {
    hide Inv, Barred, Apply;
    if events != [] {
      var v := Apply(w, events[0]);
      ApplyBarred(w, events[0], a, i, owner);
      ApplyKeeps(w, events[0]);
      VerifiedStays(w, events[0], a);
      RunBarred(v, events[1..], a, i, owner);
    }
  }

  // The purging login holds the account's lock, so nobody beside it is past taking that lock.
  lemma BarredBeside(w: World, tid: nat, t: nat, i: Ident)
    requires Inv(w) && Purges(w, tid) && w.txs[tid].work.Login? && t in w.txs && t != tid
    ensures TxBarred(w.txs[t], w.txs[tid].user, i)
  {
    hide Inv, Written, Covers, Ids, TouchesIdentity;
    OneOf(w, tid);
    OneOf(w, t);
    TwoOf(w, tid, t);
  }

  lemma OwnerCommits(w: World, tid: nat, i: Ident)
    requires Inv(w) && Purges(w, tid) && w.txs[tid].work.Login?
    requires i != w.txs[tid].work.claims.id && i.provider == w.txs[tid].work.claims.id.provider
    ensures var v, a := CommitTx(w, tid), w.txs[tid].user;
            Barred(v, a, i) && Verified(v.db, a) && i.provider != LOCAL
  {
    hide Inv, TxBarred;
    OneOf(w, tid);
    var v, tx := CommitTx(w, tid), w.txs[tid];
    forall t | t in v.txs
      ensures TxBarred(v.txs[t], tx.user, i)
    {
      BarredBeside(w, tid, t, i);
    }
  }

  /**
   As long as the login that purged keeps its identity, no identity of its provider that was purged returns to the
   account, and a late Save of one writes no row.
   */
  lemma LateSaveIsRefused(start: World, before: seq<Event>, tid: nat, after: seq<Event>, i: Ident)
    requires Quiescent(start)
    requires var w := Run(start, before);
             && Purges(w, tid) && w.txs[tid].work.Login?
             && i != w.txs[tid].work.claims.id && i.provider == w.txs[tid].work.claims.id.provider
             && KeepsOwner(Apply(w, Step(tid)), after, w.txs[tid].user, w.txs[tid].work.claims.id)
    ensures var w := Run(start, before);
            var a, later := w.txs[tid].user, Run(Apply(w, Step(tid)), after);
            && !Owns(later.db, a, i)
            && !SaveWrites(later.db, a, i)
  {
    hide Inv;
    var w := Run(start, before);
    var a, owner := w.txs[tid].user, w.txs[tid].work.claims.id;
    QuiescentInv(start);
    RunKeeps(start, before);
    CommitKeepsPurge(w, tid);
    OwnerCommits(w, tid, i);
    RunBarred(Apply(w, Step(tid)), after, a, i, owner);
    assert Linked(Run(Apply(w, Step(tid)), after).db, a, i.provider);
  }

  lemma PurgeUnlinks(w: World, tid: nat, i: Ident)
    requires Inv(w) && Purges(w, tid) && w.txs[tid].work.Login? && i in w.txs[tid].dropIdentities
    requires i.provider != w.txs[tid].work.claims.id.provider && i.provider != LOCAL
    ensures var v, a := CommitTx(w, tid), w.txs[tid].user;
            a in v.db.users && i !in v.db.identities && !Linked(v.db, a, i.provider)
  {
    hide Inv;
    OneOf(w, tid);
  }

  /**
   At the purge's commit, whatever else is under way, the INSERT of a late Save of a purged identity would write its
   row exactly when the identity is of another provider than the login that purged.
   */
  lemma LateSaveWritesExactly(start: World, before: seq<Event>, tid: nat, i: Ident)
    requires Quiescent(start)
    requires var w := Run(start, before);
             && Purges(w, tid) && w.txs[tid].work.Login? && i in w.txs[tid].dropIdentities
             && i != w.txs[tid].work.claims.id && i.provider != LOCAL
    ensures var w := Run(start, before);
            SaveWrites(Apply(w, Step(tid)).db, w.txs[tid].user, i) <==>
              i.provider != w.txs[tid].work.claims.id.provider
  {
    hide Inv, Linked, Committed, StepTx, Barred;
    var w := Run(start, before);
    QuiescentInv(start);
    RunKeeps(start, before);
    CommitKeepsPurge(w, tid);
    if i.provider != w.txs[tid].work.claims.id.provider {
      PurgeUnlinks(w, tid, i);
    } else {
      OwnerCommits(w, tid, i);
      OwnerIsLinked(w, tid, i);
    }
  }

  lemma OwnerIsLinked(w: World, tid: nat, i: Ident)
    requires tid in w.txs && w.txs[tid].work.Login? && Barred(CommitTx(w, tid), w.txs[tid].user, i)
    requires i.provider == w.txs[tid].work.claims.id.provider
    ensures !SaveWrites(CommitTx(w, tid).db, w.txs[tid].user, i)
  {
    assert Owns(CommitTx(w, tid).db, w.txs[tid].user, w.txs[tid].work.claims.id);
  }

  lemma SaveAlone(w: World, late: nat, a: Account, i: Ident)
    requires w.txs == map[late := Started(SaveFederated(i), a)]
    requires a in w.db.users && i !in w.db.identities && !Linked(w.db, a, i.provider)
    ensures Owns(Apply(Apply(Apply(w, Step(late)), Step(late)), Step(late)).db, a, i)
  {
    hide Linked;
    var locked := Apply(w, Step(late));
    assert CanLockExclusive(w, late, a);
    assert locked == Put(w, late, w.txs[late].(pc := SaveIdentity, exclusive := w.txs[late].exclusive + {a}));
    assert !IdentityBusy(locked, late, i);
    assert Apply(locked, Step(late)) == WriteIdentity(locked, late, i);
  }

  /**
   The refusal rests on the provider being the owner's: a late Save of a purged identity of another
   provider is accepted, and puts it back on the account.
   */
  lemma LateSaveOfAnotherProviderIsAccepted(start: World, before: seq<Event>, tid: nat, late: nat, i: Ident)
    requires Quiescent(start)
    requires var w := Run(start, before);
             && Purges(w, tid) && w.txs[tid].work.Login? && i in w.txs[tid].dropIdentities
             && i.provider != w.txs[tid].work.claims.id.provider && i.provider != LOCAL
             && w.txs.Keys == {tid, late} && late != tid
             && w.txs[late] == Started(SaveFederated(i), w.txs[tid].user)
    ensures var w := Run(start, before);
            Owns(Apply(Apply(Apply(Apply(w, Step(tid)), Step(late)), Step(late)), Step(late)).db, w.txs[tid].user, i)
  {
    hide Inv, Linked, Committed, StepTx;
    var w := Run(start, before);
    QuiescentInv(start);
    RunKeeps(start, before);
    CommitKeepsPurge(w, tid);
    PurgeUnlinks(w, tid, i);
    SaveAlone(CommitTx(w, tid), late, w.txs[tid].user, i);
  }
}

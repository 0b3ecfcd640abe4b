/** What every event of PurgeProtocol keeps, whatever the interleaving. */
module PurgeInvariant {
  import opened PurgeProtocol

  predicate BeforeLock(pc: Pc) {
    pc == Resolve || pc == LockExclusive || pc == LockShared || pc == InsertUser
  }

  predicate BeforeWrites(pc: Pc) {
    BeforeLock(pc) || pc == Reread || pc == RereadOwner || pc == CheckVoucher || pc == SaveIdentity
  }

  predicate Deleting(pc: Pc) {
    pc == PurgeIdentities || pc == PurgeSessions || pc == PurgeCodes
    || pc == EraseSessions || pc == EraseCodes || pc == EraseIdentity
  }

  predicate Fits(work: Work, pc: Pc) {
    if work.Login? then
      pc in {Resolve, LockExclusive, Reread, InsertUser, PurgeIdentities, PurgeSessions, PurgeCodes, UpdateUser,
             LinkIdentity, Commit}
    else if work.SaveFederated? then pc in {LockExclusive, SaveIdentity, Commit}
    else if work.Erase? then
      pc in {Resolve, LockExclusive, RereadOwner, EraseSessions, EraseCodes, EraseIdentity, Commit}
    else pc in {LockShared, CheckVoucher, InsertIssued, Commit}
  }

  predicate Issues(work: Work) {
    work.IssueSession? || work.IssueCode?
  }

  // The account this login is creating, which nobody else can see yet.
  predicate Newborn(w: World, tx: Tx) {
    PutsUser(tx) && !tx.purging && tx.user !in w.db.users
  }

  // A transaction past its lock holds it.
  ghost predicate Holds(w: World, tx: Tx) {
    && Fits(tx.work, tx.pc)
    && (tx.work.Login? ==> tx.work.claims.id.provider != LOCAL)
    && (tx.work.SaveFederated? ==> tx.work.saved.provider != LOCAL)
    && (!BeforeLock(tx.pc) ==>
          if Issues(tx.work) then tx.user in tx.shared else tx.user in tx.exclusive || Newborn(w, tx))
    && (Deleting(tx.pc) ==> tx.purging)
    && (tx.purging ==> !BeforeWrites(tx.pc) && (tx.work.Login? || tx.work.Erase?))
    && (tx.work.Erase? && !BeforeWrites(tx.pc) ==> tx.purging)
    && (tx.work.Erase? && tx.pc == Commit ==> tx.dropIdentities == {tx.work.erased})
    && (!tx.purging ==> tx.dropIdentities == {} && tx.dropSessions == {} && tx.dropCodes == {})
    && (tx.voucher != Unbound ==> Issues(tx.work) && !BeforeWrites(tx.pc))
    && (tx.work.Login? && (tx.purging || tx.pc in {LockExclusive, Reread, UpdateUser}) ==> tx.work.claims.verified)
    && (tx.purging && PutsUser(tx) ==> tx.profile.verified)
  }

  // The rows a transaction has written carry ids of their own.
  ghost predicate Written(w: World, tx: Tx) {
    && (PutsUser(tx) ==> tx.user < w.nextUser)
    && (PutsUser(tx) && tx.user in w.db.users && w.db.users[tx.user].verified ==> tx.profile.verified)
    && (PutsSession(tx) ==> tx.sid in w.history && w.history[tx.sid] == IssuedRow(tx.user, tx.voucher))
    && (tx.voucher.BySession? ==> tx.voucher.issuer in w.history)
    && (forall s :: s in tx.dropSessions ==> s in w.history && w.history[s].user == tx.user)
    && (forall i :: PutsIdentity(tx, i) ==>
          && tx.gen < w.nextGen
          && (tx.user in w.db.users || PutsUser(tx))
          && (i in tx.dropIdentities && i in w.db.identities ==> w.db.identities[i].gen < tx.gen))
  }

  predicate PastIdentities(pc: Pc) {
    pc == PurgeSessions || PastSessions(pc)
  }

  predicate PastSessions(pc: Pc) {
    pc == PurgeCodes || pc == EraseCodes || PastCodes(pc)
  }

  predicate PastCodes(pc: Pc) {
    pc == UpdateUser || pc == LinkIdentity || pc == EraseIdentity || pc == Commit
  }

  // What a purge has deleted so far is all there is: nothing the account's lock protects appears behind
  // its DELETE.
  ghost predicate Covers(w: World, tx: Tx) {
    tx.purging ==>
      && tx.user in w.db.users
      && (tx.work.Login? && PastIdentities(tx.pc) ==>
            forall i :: i in w.db.identities && w.db.identities[i].user == tx.user && i.provider != LOCAL ==>
                          i in tx.dropIdentities)
      && (PastSessions(tx.pc) ==>
            forall s :: s in w.db.sessions && w.db.sessions[s].user == tx.user ==>
                          w.db.sessions[s].voucher == Unbound || s in tx.dropSessions)
      && (PastCodes(tx.pc) ==>
            forall c :: c in w.db.codes && w.db.codes[c].user == tx.user ==>
                          w.db.codes[c].voucher == Unbound || c in tx.dropCodes)
  }

  ghost predicate TxOk(w: World, tx: Tx) {
    Holds(w, tx) && Written(w, tx) && Covers(w, tx)
  }

  // Advisory locks exclude each other, and two open transactions never write the same row.
  ghost predicate Apart(x: Tx, y: Tx) {
    && x.exclusive !! y.exclusive && x.exclusive !! y.shared && x.shared !! y.exclusive
    && (forall i :: TouchesIdentity(x, i) ==> !TouchesIdentity(y, i))
    && !(PutsUser(x) && PutsUser(y) && x.user == y.user)
  }

  ghost predicate WellFormedHistory(h: map<nat, IssuedRow>) {
    forall s :: s in h && h[s].voucher.BySession? ==> h[s].voucher.issuer < s && h[s].voucher.issuer in h
  }

  ghost predicate Ids(w: World) {
    && WellFormedHistory(w.history)
    && (forall u :: u in w.db.users ==> u < w.nextUser)
    && (forall s :: s in w.history ==> s < w.nextSession)
    && (forall s :: s in w.db.sessions ==> s in w.history && w.history[s] == w.db.sessions[s])
    && (forall c :: c in w.db.codes && w.db.codes[c].voucher.BySession? ==> w.db.codes[c].voucher.issuer in w.history)
    && (forall i :: i in w.db.identities ==>
                      w.db.identities[i].gen < w.nextGen && w.db.identities[i].user in w.db.users)
  }

  ghost predicate Inv(w: World) {
    && Ids(w)
    && (forall t {:trigger TxOk(w, w.txs[t])} :: t in w.txs ==> TxOk(w, w.txs[t]))
    && (forall t, u {:trigger Apart(w.txs[t], w.txs[u])} :: t in w.txs && u in w.txs && t != u ==>
                                                               Apart(w.txs[t], w.txs[u]))
  }

  lemma OneOf(w: World, t: nat)
    requires Inv(w) && t in w.txs
    ensures TxOk(w, w.txs[t]) && Ids(w)
  {
  }

  lemma TwoOf(w: World, t: nat, u: nat)
    requires Inv(w) && t in w.txs && u in w.txs && t != u
    ensures Apart(w.txs[t], w.txs[u])
  {
  }

  lemma EndKeeps(w: World, tid: nat)
    requires Inv(w)
    ensures Inv(End(w, tid))
  {
    var v := End(w, tid);
    forall t | t in v.txs
      ensures TxOk(v, v.txs[t])
    {
      assert TxOk(w, w.txs[t]);
    }
    forall t, u | t in v.txs && u in v.txs && t != u
      ensures Apart(v.txs[t], v.txs[u])
    {
      assert Apart(w.txs[t], w.txs[u]);
    }
  }

  ghost predicate Grows(w: World, v: World) {
    && w.nextUser <= v.nextUser && w.nextGen <= v.nextGen
    && (forall s :: s in w.history ==> s in v.history && v.history[s] == w.history[s])
  }

  lemma GrowthKeepsTx(w: World, v: World, tx: Tx)
    requires TxOk(w, tx) && Grows(w, v) && v.db == w.db
    ensures TxOk(v, tx)
  {
  }

  // One transaction's own step: the tables stay, only its record and the counters move.
  lemma PutKeeps(w: World, v: World, tid: nat, tx: Tx)
    requires Inv(w) && Grows(w, v) && Ids(v)
    requires v.db == w.db && v.txs == w.txs[tid := tx]
    requires TxOk(v, tx)
    requires forall u {:trigger Apart(tx, w.txs[u])} :: u in w.txs && u != tid ==> Apart(tx, w.txs[u])
    ensures Inv(v)
  {
    hide Holds, Written, Covers;
    forall t | t in v.txs
      ensures TxOk(v, v.txs[t])
    {
      if t != tid {
        OneOf(w, t);
        GrowthKeepsTx(w, v, w.txs[t]);
      }
    }
    forall t, u | t in v.txs && u in v.txs && t != u
      ensures Apart(v.txs[t], v.txs[u])
    {
      if t == tid {
        assert Apart(tx, w.txs[u]);
      } else if u == tid {
        assert Apart(tx, w.txs[t]);
      } else {
        TwoOf(w, t, u);
      }
    }
  }

  lemma PutIsQuiet(w: World, tid: nat, tx: Tx)
    requires Ids(w)
    ensures Ids(Put(w, tid, tx)) && Grows(w, Put(w, tid, tx))
  {
  }

  // A step that only moves its own record, and touches nothing it did not already.
  lemma QuietKeeps(w: World, v: World, tid: nat)
    requires Inv(w) && Grows(w, v) && Ids(v) && tid in w.txs && tid in v.txs
    requires v.db == w.db && v.txs == w.txs[tid := v.txs[tid]]
    requires v.txs[tid].exclusive == w.txs[tid].exclusive && v.txs[tid].shared == w.txs[tid].shared
    requires PutsUser(v.txs[tid]) ==> PutsUser(w.txs[tid]) && v.txs[tid].user == w.txs[tid].user
    requires forall i :: TouchesIdentity(v.txs[tid], i) ==> TouchesIdentity(w.txs[tid], i)
    requires TxOk(v, v.txs[tid])
    ensures Inv(v)
  {
    hide Holds, Written, Covers, Inv;
    forall u | u in w.txs && u != tid
      ensures Apart(v.txs[tid], w.txs[u])
    {
      TwoOf(w, tid, u);
    }
    PutKeeps(w, v, tid, v.txs[tid]);
  }

  lemma LockTx(w: World, tid: nat)
    requires tid in w.txs && TxOk(w, w.txs[tid])
    requires w.txs[tid].pc == LockExclusive || w.txs[tid].pc == LockShared
    ensures TxOk(StepLock(w, tid), StepLock(w, tid).txs[tid])
  {
    hide CanLockExclusive, CanLockShared;
  }

  lemma LockKeeps(w: World, tid: nat)
    requires Inv(w) && tid in w.txs
    requires w.txs[tid].pc == LockExclusive || w.txs[tid].pc == LockShared
    ensures Inv(StepLock(w, tid))
  {
    hide Holds, Written, Covers, Inv;
    OneOf(w, tid);
    LockTx(w, tid);
    var v := StepLock(w, tid);
    if v != w {
      forall u | u in w.txs && u != tid
        ensures Apart(v.txs[tid], w.txs[u])
      {
        TwoOf(w, tid, u);
      }
      PutKeeps(w, v, tid, v.txs[tid]);
    }
  }

  lemma ResolveTx(w: World, tid: nat)
    requires tid in w.txs && TxOk(w, w.txs[tid]) && w.txs[tid].work.Login? && w.txs[tid].pc == Resolve
    requires w.txs[tid].work.claims.id !in w.db.identities
    ensures TxOk(StepResolve(w, tid), StepResolve(w, tid).txs[tid])
  {
    hide EmailTaken;
  }

  lemma RereadTx(w: World, tid: nat)
    requires tid in w.txs && TxOk(w, w.txs[tid]) && w.txs[tid].work.Login? && w.txs[tid].pc == Reread
    ensures TxOk(StepReread(w, tid), StepReread(w, tid).txs[tid])
  {
    RereadHolds(w, tid);
    RereadWritten(w, tid);
    RereadCovers(w, tid);
    hide Holds, Written, Covers, StepReread;
  }

  lemma RereadHolds(w: World, tid: nat)
    requires tid in w.txs && Holds(w, w.txs[tid]) && w.txs[tid].work.Login? && w.txs[tid].pc == Reread
    ensures Holds(StepReread(w, tid), StepReread(w, tid).txs[tid])
  {
    hide Linked;
  }

  lemma RereadWritten(w: World, tid: nat)
    requires tid in w.txs && Written(w, w.txs[tid]) && w.txs[tid].work.Login? && w.txs[tid].pc == Reread
    ensures Written(StepReread(w, tid), StepReread(w, tid).txs[tid])
  {
    hide Linked;
  }

  lemma RereadCovers(w: World, tid: nat)
    requires tid in w.txs && TxOk(w, w.txs[tid]) && w.txs[tid].work.Login? && w.txs[tid].pc == Reread
    ensures Covers(StepReread(w, tid), StepReread(w, tid).txs[tid])
  {
    hide Linked, Written;
  }

  lemma InsertUserTx(w: World, tid: nat)
    requires tid in w.txs && TxOk(w, w.txs[tid]) && Ids(w)
    requires w.txs[tid].work.Login? && w.txs[tid].pc == InsertUser
    ensures var v := StepInsertUser(w, tid); tid in v.txs ==> TxOk(v, v.txs[tid])
  {
    hide EmailBusy, EmailTaken;
  }

  lemma UpdateUserTx(w: World, tid: nat)
    requires tid in w.txs && TxOk(w, w.txs[tid]) && Ids(w)
    requires w.txs[tid].work.Login? && w.txs[tid].pc == UpdateUser
    ensures var v := StepUpdateUser(w, tid); tid in v.txs ==> TxOk(v, v.txs[tid])
  {
    hide UserBusy, EmailBusy, EmailClash;
  }

  lemma PurgeIdentitiesTx(w: World, tid: nat)
    requires tid in w.txs && TxOk(w, w.txs[tid]) && w.txs[tid].work.Login? && w.txs[tid].pc == PurgeIdentities
    ensures var v := StepPurgeIdentities(w, tid); TxOk(v, v.txs[tid])
  {
  }

  lemma DropSessionsTx(w: World, tid: nat, next: Pc)
    requires tid in w.txs && TxOk(w, w.txs[tid]) && Ids(w)
    requires (w.txs[tid].work.Login? && w.txs[tid].pc == PurgeSessions && next == PurgeCodes)
             || (w.txs[tid].work.Erase? && w.txs[tid].pc == EraseSessions && next == EraseCodes)
    ensures var v := StepDropSessions(w, tid, next); TxOk(v, v.txs[tid])
  {
  }

  lemma DropCodesTx(w: World, tid: nat, next: Pc)
    requires tid in w.txs && TxOk(w, w.txs[tid])
    requires (w.txs[tid].work.Login? && w.txs[tid].pc == PurgeCodes && next == UpdateUser)
             || (w.txs[tid].work.Erase? && w.txs[tid].pc == EraseCodes && next == EraseIdentity)
    ensures var v := StepDropCodes(w, tid, next); TxOk(v, v.txs[tid])
  {
  }

  lemma WriteIdentityTx(w: World, tid: nat, i: Ident)
    requires tid in w.txs && TxOk(w, w.txs[tid]) && Ids(w)
    requires w.txs[tid].work.Login? ==> w.txs[tid].pc == LinkIdentity && i == w.txs[tid].work.claims.id
    requires !w.txs[tid].work.Login? ==> w.txs[tid].work == SaveFederated(i) && w.txs[tid].pc == SaveIdentity
                                         && w.txs[tid].user in w.db.users
    ensures var v := WriteIdentity(w, tid, i); TxOk(v, v.txs[tid])
  {
    hide Holds, Written, Covers, WriteIdentity, Ids;
    LinkHolds(w, tid, i);
    LinkWritten(w, tid, i);
    LinkCovers(w, tid, i);
  }

  lemma LinkHolds(w: World, tid: nat, i: Ident)
    requires tid in w.txs && Holds(w, w.txs[tid])
    requires w.txs[tid].work.Login? ==> w.txs[tid].pc == LinkIdentity && i == w.txs[tid].work.claims.id
    requires !w.txs[tid].work.Login? ==> w.txs[tid].work == SaveFederated(i) && w.txs[tid].pc == SaveIdentity
    ensures var v := WriteIdentity(w, tid, i); tid in v.txs && Holds(v, v.txs[tid])
  {
  }

  lemma LinkWritten(w: World, tid: nat, i: Ident)
    requires tid in w.txs && Holds(w, w.txs[tid]) && Written(w, w.txs[tid]) && Ids(w)
    requires w.txs[tid].work.Login? ==> w.txs[tid].pc == LinkIdentity && i == w.txs[tid].work.claims.id
    requires !w.txs[tid].work.Login? ==> w.txs[tid].work == SaveFederated(i) && w.txs[tid].pc == SaveIdentity
                                         && w.txs[tid].user in w.db.users
    ensures var v := WriteIdentity(w, tid, i); Written(v, v.txs[tid])
  {
    hide WellFormedHistory;
  }

  lemma LinkCovers(w: World, tid: nat, i: Ident)
    requires tid in w.txs && Holds(w, w.txs[tid]) && Covers(w, w.txs[tid])
    requires w.txs[tid].work.Login? ==> w.txs[tid].pc == LinkIdentity && i == w.txs[tid].work.claims.id
    requires !w.txs[tid].work.Login? ==> w.txs[tid].work == SaveFederated(i) && w.txs[tid].pc == SaveIdentity
                                         && w.txs[tid].user in w.db.users
    ensures var v := WriteIdentity(w, tid, i); Covers(v, v.txs[tid])
  {
  }

  lemma CheckTx(w: World, tid: nat, binding: Binding)
    requires tid in w.txs && TxOk(w, w.txs[tid]) && Ids(w)
    requires Issues(w.txs[tid].work) && w.txs[tid].pc == CheckVoucher
    ensures var v := StepCheck(w, tid, binding); tid in v.txs ==> TxOk(v, v.txs[tid])
  {
    hide WellFormedHistory, Linked;
  }

  lemma InsertSessionTx(w: World, tid: nat)
    requires tid in w.txs && TxOk(w, w.txs[tid]) && Ids(w)
    requires w.txs[tid].work.IssueSession? && w.txs[tid].pc == InsertIssued
    ensures var v := StepInsertSession(w, tid); TxOk(v, v.txs[tid]) && Ids(v) && Grows(w, v)
  {
    InsertSessionIds(w, tid);
    InsertedOk(w, tid);
    hide Ids, Grows, TxOk, StepInsertSession;
  }

  lemma InsertSessionIds(w: World, tid: nat)
    requires tid in w.txs && Written(w, w.txs[tid]) && Ids(w)
    ensures var v := StepInsertSession(w, tid); Ids(v) && Grows(w, v)
  {
  }

  lemma InsertedOk(w: World, tid: nat)
    requires tid in w.txs && TxOk(w, w.txs[tid]) && Ids(w)
    requires w.txs[tid].work.IssueSession? && w.txs[tid].pc == InsertIssued
    ensures var v := StepInsertSession(w, tid); TxOk(v, v.txs[tid])
  {
    InsertedWritten(w, tid);
    hide WellFormedHistory, Written;
  }

  lemma InsertedWritten(w: World, tid: nat)
    requires tid in w.txs && Written(w, w.txs[tid]) && Ids(w)
    requires w.txs[tid].work.IssueSession? && w.txs[tid].pc == InsertIssued
    ensures var v := StepInsertSession(w, tid); Written(v, v.txs[tid])
  {
    hide WellFormedHistory;
  }

  lemma InsertCodeTx(w: World, tid: nat)
    requires tid in w.txs && TxOk(w, w.txs[tid])
    requires w.txs[tid].work.IssueCode? && w.txs[tid].pc == InsertIssued
    ensures var v := StepInsertCode(w, tid); tid in v.txs ==> TxOk(v, v.txs[tid])
  {
    hide CodeBusy;
  }

  lemma FindOwnerTx(w: World, tid: nat)
    requires tid in w.txs && TxOk(w, w.txs[tid]) && Ids(w) && w.txs[tid].work.Erase? && w.txs[tid].pc == Resolve
    ensures var v := StepErase(w, tid); tid in v.txs ==> TxOk(v, v.txs[tid])
  {
    hide IdentityBusy;
  }

  lemma RereadOwnerTx(w: World, tid: nat)
    requires tid in w.txs && TxOk(w, w.txs[tid]) && Ids(w) && w.txs[tid].work.Erase? && w.txs[tid].pc == RereadOwner
    ensures var v := StepErase(w, tid); tid in v.txs ==> TxOk(v, v.txs[tid])
  {
    hide IdentityBusy;
  }

  lemma EraseIdentityTx(w: World, tid: nat)
    requires tid in w.txs && TxOk(w, w.txs[tid]) && Ids(w) && w.txs[tid].work.Erase? && w.txs[tid].pc == EraseIdentity
    ensures var v := StepErase(w, tid); tid in v.txs ==> TxOk(v, v.txs[tid])
  {
    hide IdentityBusy;
  }

  lemma SubjectLoginKeeps(w: World, tid: nat, a: Account, claims: Claims)
    requires Inv(w) && tid in w.txs
    ensures Inv(SubjectLogin(w, tid, a, claims))
  {
    hide Inv, Holds, Written, Covers, Frame;
    EndKeeps(w, tid);
    var v := SubjectLogin(w, tid, a, claims);
    if v != w && v != End(w, tid) {
      forall t | t in v.txs
        ensures v.txs[t] == w.txs[t] && Frame(w.db, v.db, w.txs[t])
      {
        SubjectLoginFrame(w, tid, a, claims, t);
      }
      SubjectLoginIds(w, tid, a, claims);
      FrameKeeps(w, v);
    }
  }

  lemma ResolveKeeps(w: World, tid: nat)
    requires Inv(w) && tid in w.txs
    requires w.txs[tid].work.Login? && w.txs[tid].pc == Resolve && w.txs[tid].work.claims.id !in w.db.identities
    ensures Inv(StepResolve(w, tid))
  {
    hide Inv, Holds, Written, Covers;
    OneOf(w, tid);
    EndKeeps(w, tid);
    ResolveTx(w, tid);
    var v := StepResolve(w, tid);
    if v != w && tid in v.txs {
      QuietKeeps(w, v, tid);
    }
  }

  lemma RereadKeeps(w: World, tid: nat)
    requires Inv(w) && tid in w.txs
    requires w.txs[tid].work.Login? && w.txs[tid].pc == Reread
    ensures Inv(StepReread(w, tid))
  {
    hide Inv, Holds, Written, Covers, Ids, Grows, Linked;
    OneOf(w, tid);
    RereadTx(w, tid);
    var v := StepReread(w, tid);
    PutIsQuiet(w, tid, v.txs[tid]);
    QuietKeeps(w, v, tid);
  }

  lemma InsertUserKeeps(w: World, tid: nat)
    requires Inv(w) && tid in w.txs
    requires w.txs[tid].work.Login? && w.txs[tid].pc == InsertUser
    ensures Inv(StepInsertUser(w, tid))
  {
    hide Inv, Holds, Written, Covers;
    OneOf(w, tid);
    EndKeeps(w, tid);
    InsertUserTx(w, tid);
    var v := StepInsertUser(w, tid);
    if v != w && tid in v.txs {
      forall u | u in w.txs && u != tid
        ensures Apart(v.txs[tid], w.txs[u])
      {
        TwoOf(w, tid, u);
        ProfileOf(w, u);
      }
      PutKeeps(w, v, tid, v.txs[tid]);
    }
  }

  lemma UpdateUserKeeps(w: World, tid: nat)
    requires Inv(w) && tid in w.txs
    requires w.txs[tid].work.Login? && w.txs[tid].pc == UpdateUser
    ensures Inv(StepUpdateUser(w, tid))
  {
    hide Inv, Holds, Written, Covers;
    OneOf(w, tid);
    EndKeeps(w, tid);
    UpdateUserTx(w, tid);
    var v := StepUpdateUser(w, tid);
    if v != w && tid in v.txs {
      forall u | u in w.txs && u != tid
        ensures Apart(v.txs[tid], w.txs[u])
      {
        TwoOf(w, tid, u);
      }
      PutKeeps(w, v, tid, v.txs[tid]);
    }
  }

  lemma PurgeIdentitiesKeeps(w: World, tid: nat)
    requires Inv(w) && tid in w.txs
    requires w.txs[tid].work.Login? && w.txs[tid].pc == PurgeIdentities
    ensures Inv(StepPurgeIdentities(w, tid))
  {
    hide Inv, Holds, Written, Covers;
    OneOf(w, tid);
    EndKeeps(w, tid);
    PurgeIdentitiesTx(w, tid);
    var v := StepPurgeIdentities(w, tid);
    if v != w && tid in v.txs {
      forall u | u in w.txs && u != tid
        ensures Apart(v.txs[tid], w.txs[u])
      {
        TwoOf(w, tid, u);
      }
      PutKeeps(w, v, tid, v.txs[tid]);
    }
  }

  lemma DropSessionsKeeps(w: World, tid: nat, next: Pc)
    requires Inv(w) && tid in w.txs
    requires (w.txs[tid].work.Login? && w.txs[tid].pc == PurgeSessions && next == PurgeCodes)
             || (w.txs[tid].work.Erase? && w.txs[tid].pc == EraseSessions && next == EraseCodes)
    ensures Inv(StepDropSessions(w, tid, next))
  {
    hide Inv, Holds, Written, Covers;
    OneOf(w, tid);
    EndKeeps(w, tid);
    DropSessionsTx(w, tid, next);
    var v := StepDropSessions(w, tid, next);
    if v != w && tid in v.txs {
      QuietKeeps(w, v, tid);
    }
  }

  lemma DropCodesKeeps(w: World, tid: nat, next: Pc)
    requires Inv(w) && tid in w.txs
    requires (w.txs[tid].work.Login? && w.txs[tid].pc == PurgeCodes && next == UpdateUser)
             || (w.txs[tid].work.Erase? && w.txs[tid].pc == EraseCodes && next == EraseIdentity)
    ensures Inv(StepDropCodes(w, tid, next))
  {
    hide Inv, Holds, Written, Covers;
    OneOf(w, tid);
    EndKeeps(w, tid);
    DropCodesTx(w, tid, next);
    var v := StepDropCodes(w, tid, next);
    if v != w && tid in v.txs {
      QuietKeeps(w, v, tid);
    }
  }

  lemma WriteIdentityKeeps(w: World, tid: nat, i: Ident)
    requires Inv(w) && tid in w.txs
    requires !IdentityBusy(w, tid, i)
    requires w.txs[tid].work.Login? ==> w.txs[tid].pc == LinkIdentity && i == w.txs[tid].work.claims.id
    requires !w.txs[tid].work.Login? ==> w.txs[tid].work == SaveFederated(i) && w.txs[tid].pc == SaveIdentity
                                         && w.txs[tid].user in w.db.users
    ensures Inv(WriteIdentity(w, tid, i))
  {
    hide Inv, Holds, Written, Covers;
    OneOf(w, tid);
    EndKeeps(w, tid);
    WriteIdentityTx(w, tid, i);
    var v := WriteIdentity(w, tid, i);
    if v != w && tid in v.txs {
      forall u | u in w.txs && u != tid
        ensures Apart(v.txs[tid], w.txs[u])
      {
        TwoOf(w, tid, u);
      }
      PutKeeps(w, v, tid, v.txs[tid]);
    }
  }

  lemma CheckKeeps(w: World, tid: nat, binding: Binding)
    requires Inv(w) && tid in w.txs
    requires Issues(w.txs[tid].work) && w.txs[tid].pc == CheckVoucher
    ensures Inv(StepCheck(w, tid, binding))
  {
    hide Inv, Holds, Written, Covers;
    OneOf(w, tid);
    EndKeeps(w, tid);
    CheckTx(w, tid, binding);
    var v := StepCheck(w, tid, binding);
    if v != w && tid in v.txs {
      QuietKeeps(w, v, tid);
    }
  }

  lemma InsertSessionKeeps(w: World, tid: nat)
    requires Inv(w) && tid in w.txs
    requires w.txs[tid].work.IssueSession? && w.txs[tid].pc == InsertIssued
    ensures Inv(StepInsertSession(w, tid))
  {
    hide Inv, Holds, Written, Covers;
    OneOf(w, tid);
    EndKeeps(w, tid);
    InsertSessionTx(w, tid);
    var v := StepInsertSession(w, tid);
    if v != w && tid in v.txs {
      QuietKeeps(w, v, tid);
    }
  }

  lemma InsertCodeKeeps(w: World, tid: nat)
    requires Inv(w) && tid in w.txs
    requires w.txs[tid].work.IssueCode? && w.txs[tid].pc == InsertIssued
    ensures Inv(StepInsertCode(w, tid))
  {
    hide Inv, Holds, Written, Covers;
    OneOf(w, tid);
    EndKeeps(w, tid);
    InsertCodeTx(w, tid);
    var v := StepInsertCode(w, tid);
    if v != w && tid in v.txs {
      QuietKeeps(w, v, tid);
    }
  }

  lemma FindOwnerKeeps(w: World, tid: nat)
    requires Inv(w) && tid in w.txs
    requires w.txs[tid].work.Erase? && w.txs[tid].pc == Resolve
    ensures Inv(StepErase(w, tid))
  {
    hide Inv, Holds, Written, Covers;
    OneOf(w, tid);
    EndKeeps(w, tid);
    FindOwnerTx(w, tid);
    var v := StepErase(w, tid);
    if v != w && tid in v.txs {
      QuietKeeps(w, v, tid);
    }
  }

  lemma RereadOwnerKeeps(w: World, tid: nat)
    requires Inv(w) && tid in w.txs
    requires w.txs[tid].work.Erase? && w.txs[tid].pc == RereadOwner
    ensures Inv(StepErase(w, tid))
  {
    hide Inv, Holds, Written, Covers;
    OneOf(w, tid);
    EndKeeps(w, tid);
    RereadOwnerTx(w, tid);
    var v := StepErase(w, tid);
    if v != w && tid in v.txs {
      QuietKeeps(w, v, tid);
    }
  }

  lemma EraseIdentityKeeps(w: World, tid: nat)
    requires Inv(w) && tid in w.txs
    requires w.txs[tid].work.Erase? && w.txs[tid].pc == EraseIdentity
    ensures Inv(StepErase(w, tid))
  {
    hide Inv, Holds, Written, Covers;
    OneOf(w, tid);
    EndKeeps(w, tid);
    EraseIdentityTx(w, tid);
    var v := StepErase(w, tid);
    if v != w && tid in v.txs {
      forall u | u in w.txs && u != tid
        ensures Apart(v.txs[tid], w.txs[u])
      {
        TwoOf(w, tid, u);
      }
      PutKeeps(w, v, tid, v.txs[tid]);
    }
  }

  lemma ProfileOf(w: World, t: nat)
    requires Inv(w) && t in w.txs
    ensures PutsUser(w.txs[t]) ==> w.txs[t].user < w.nextUser
  {
    OneOf(w, t);
  }

  // What an open transaction relies on in tables that somebody else changes.
  ghost predicate Frame(db: Tables, next: Tables, tx: Tx) {
    && db.users.Keys <= next.users.Keys
    && (PutsUser(tx) ==>
          (tx.user in next.users <==> tx.user in db.users)
          && (tx.user in db.users ==> next.users[tx.user] == db.users[tx.user]))
    && (forall i :: i in tx.dropIdentities && i in next.identities ==>
                      i in db.identities && next.identities[i] == db.identities[i])
    && (tx.purging ==>
          && (forall i :: i in next.identities && next.identities[i].user == tx.user && i.provider != LOCAL ==>
                            i in db.identities && db.identities[i].user == tx.user)
          && (forall s :: s in next.sessions && next.sessions[s].user == tx.user ==>
                            next.sessions[s].voucher == Unbound
                             || (s in db.sessions && db.sessions[s] == next.sessions[s]))
          && (forall c :: c in next.codes && next.codes[c].user == tx.user ==>
                            next.codes[c].voucher == Unbound || (c in db.codes && db.codes[c] == next.codes[c])))
  }

  lemma FrameKeepsTx(w: World, v: World, tx: Tx)
    requires Grows(w, v) && Frame(w.db, v.db, tx) && TxOk(w, tx)
    ensures TxOk(v, tx)
  {
  }

  lemma FrameKeeps(w: World, v: World)
    requires Inv(w) && Grows(w, v) && Ids(v)
    requires v.txs.Keys <= w.txs.Keys
    requires forall t {:trigger Frame(w.db, v.db, w.txs[t])} :: t in v.txs ==>
               v.txs[t] == w.txs[t] && Frame(w.db, v.db, w.txs[t])
    ensures Inv(v)
  {
    hide Holds, Written, Covers, Frame, Apart;
    forall t | t in v.txs
      ensures TxOk(v, v.txs[t])
    {
      assert Frame(w.db, v.db, w.txs[t]) && TxOk(w, w.txs[t]);
      FrameKeepsTx(w, v, w.txs[t]);
    }
    forall t, u | t in v.txs && u in v.txs && t != u
      ensures Apart(v.txs[t], v.txs[u])
    {
      assert Frame(w.db, v.db, w.txs[t]) && Frame(w.db, v.db, w.txs[u]);
      assert Apart(w.txs[t], w.txs[u]);
    }
  }

  lemma SubjectLoginFrame(w: World, tid: nat, a: Account, claims: Claims, t: nat)
    requires tid in w.txs && t in w.txs && t != tid && !UserBusy(w, tid, a)
    ensures Frame(w.db, SubjectLogin(w, tid, a, claims).db, w.txs[t])
  {
  }

  lemma SubjectLoginIds(w: World, tid: nat, a: Account, claims: Claims)
    requires Inv(w) && tid in w.txs
    ensures Ids(SubjectLogin(w, tid, a, claims))
  {
    hide Holds, Written, Covers, Apart;
  }

  // The committer holds no row and no lock that the other transaction's purge depends on.
  lemma CommitAway(w: World, x: Tx, y: Tx)
    requires TxOk(w, x) && TxOk(w, y) && Apart(x, y) && x.pc == Commit && y.purging
    ensures x.user != y.user
  {
  }

  lemma CommitFrame(w: World, tid: nat, t: nat)
    requires tid in w.txs && t in w.txs && t != tid
    requires Apart(w.txs[tid], w.txs[t]) && w.txs[tid].pc == Commit
    requires w.txs[t].purging ==> w.txs[tid].user != w.txs[t].user
    ensures Frame(w.db, CommitTx(w, tid).db, w.txs[t])
  {
    var x, y := w.txs[tid], w.txs[t];
    forall i | i in y.dropIdentities
      ensures !TouchesIdentity(x, i)
    {
      assert TouchesIdentity(y, i);
    }
  }

  lemma CommitIds(w: World, tid: nat)
    requires Ids(w) && tid in w.txs && TxOk(w, w.txs[tid]) && w.txs[tid].pc == Commit
    ensures Ids(CommitTx(w, tid))
  {
    hide Committed, Written, Covers, Holds, WellFormedHistory;
    CommitIdentities(w, tid);
    CommitIssued(w, tid);
  }

  lemma CommitIdentities(w: World, tid: nat)
    requires Ids(w) && tid in w.txs && Written(w, w.txs[tid]) && w.txs[tid].pc == Commit
    ensures var db := CommitTx(w, tid).db;
            && (forall u :: u in db.users ==> u < w.nextUser)
            && (forall i :: i in db.identities ==>
                              db.identities[i].gen < w.nextGen && db.identities[i].user in db.users)
  {
    hide WellFormedHistory;
    var tx := w.txs[tid];
    if tx.work.Login? {
      assert PutsIdentity(tx, tx.work.claims.id);
    } else if tx.work.SaveFederated? {
      assert PutsIdentity(tx, tx.work.saved);
    }
  }

  lemma CommitIssued(w: World, tid: nat)
    requires Ids(w) && tid in w.txs && Written(w, w.txs[tid]) && w.txs[tid].pc == Commit
    ensures var db := CommitTx(w, tid).db;
            && (forall s :: s in db.sessions ==> s in w.history && w.history[s] == db.sessions[s])
            && (forall c :: c in db.codes && db.codes[c].voucher.BySession? ==> db.codes[c].voucher.issuer in w.history)
  {
    hide WellFormedHistory, PutsIdentity;
  }

  lemma CommitKeeps(w: World, tid: nat)
    requires Inv(w) && tid in w.txs && w.txs[tid].pc == Commit
    ensures Inv(CommitTx(w, tid))
  {
    hide Inv, Holds, Written, Covers, Frame, Apart, Committed;
    OneOf(w, tid);
    var v := CommitTx(w, tid);
    forall t | t in v.txs
      ensures v.txs[t] == w.txs[t] && Frame(w.db, v.db, w.txs[t])
    {
      OneOf(w, t);
      TwoOf(w, tid, t);
      if w.txs[t].purging {
        CommitAway(w, w.txs[tid], w.txs[t]);
      }
      CommitFrame(w, tid, t);
    }
    CommitIds(w, tid);
    FrameKeeps(w, v);
  }

  lemma LoginKeeps(w: World, tid: nat)
    requires Inv(w) && tid in w.txs && w.txs[tid].work.Login?
    requires w.txs[tid].pc != LockExclusive && w.txs[tid].pc != LockShared && w.txs[tid].pc != Commit
    ensures Inv(StepLogin(w, tid))
  {
    hide Inv;
    var tx := w.txs[tid];
    if tx.pc == Resolve {
      if tx.work.claims.id in w.db.identities {
        SubjectLoginKeeps(w, tid, w.db.identities[tx.work.claims.id].user, tx.work.claims);
      } else {
        ResolveKeeps(w, tid);
      }
    }
    else if tx.pc == Reread { RereadKeeps(w, tid); }
    else if tx.pc == InsertUser { InsertUserKeeps(w, tid); }
    else if tx.pc == PurgeIdentities { PurgeIdentitiesKeeps(w, tid); }
    else if tx.pc == PurgeSessions { DropSessionsKeeps(w, tid, PurgeCodes); }
    else if tx.pc == PurgeCodes { DropCodesKeeps(w, tid, UpdateUser); }
    else if tx.pc == UpdateUser { UpdateUserKeeps(w, tid); }
    else if tx.pc == LinkIdentity && !IdentityBusy(w, tid, tx.work.claims.id) {
      WriteIdentityKeeps(w, tid, tx.work.claims.id);
    }
  }

  lemma EraseKeeps(w: World, tid: nat)
    requires Inv(w) && tid in w.txs && w.txs[tid].work.Erase?
    ensures Inv(StepErase(w, tid))
  {
    hide Inv;
    var tx := w.txs[tid];
    if tx.pc == Resolve { FindOwnerKeeps(w, tid); }
    else if tx.pc == RereadOwner { RereadOwnerKeeps(w, tid); }
    else if tx.pc == EraseSessions { DropSessionsKeeps(w, tid, EraseCodes); }
    else if tx.pc == EraseCodes { DropCodesKeeps(w, tid, EraseIdentity); }
    else if tx.pc == EraseIdentity { EraseIdentityKeeps(w, tid); }
  }

  lemma IssueKeeps(w: World, tid: nat)
    requires Inv(w) && tid in w.txs && (w.txs[tid].work.IssueSession? || w.txs[tid].work.IssueCode?)
    ensures Inv(StepIssue(w, tid))
  {
    hide Inv;
    var tx := w.txs[tid];
    if tx.pc == CheckVoucher {
      CheckKeeps(w, tid, if tx.work.IssueSession? then tx.work.binding else OnIdentity(tx.work.codeId));
    } else if tx.pc == InsertIssued {
      if tx.work.IssueSession? { InsertSessionKeeps(w, tid); } else { InsertCodeKeeps(w, tid); }
    }
  }

  lemma StepTxKeeps(w: World, tid: nat)
    requires Inv(w)
    ensures Inv(StepTx(w, tid))
  {
    hide Inv, StepLogin, StepErase, StepIssue, StepLock;
    if tid in w.txs {
      var tx := w.txs[tid];
      if tx.pc == LockExclusive || tx.pc == LockShared { LockKeeps(w, tid); }
      else if tx.pc == Commit { CommitKeeps(w, tid); }
      else if tx.work.Login? { LoginKeeps(w, tid); }
      else if tx.work.SaveFederated? {
        EndKeeps(w, tid);
        if tx.pc == SaveIdentity && !IdentityBusy(w, tid, tx.work.saved) && SaveWrites(w.db, tx.user, tx.work.saved) {
          WriteIdentityKeeps(w, tid, tx.work.saved);
        }
      }
      else if tx.work.Erase? { EraseKeeps(w, tid); }
      else { IssueKeeps(w, tid); }
    }
  }

  lemma BeginKeeps(w: World, tid: nat, work: Work, a: Account)
    requires Inv(w)
    ensures Inv(StepBegin(w, tid, work, a))
  {
    hide Inv;
    var v := StepBegin(w, tid, work, a);
    if v != w {
      StartedOk(w, v, work, a);
      PutKeeps(w, v, tid, v.txs[tid]);
    }
  }

  lemma StartedOk(w: World, v: World, work: Work, a: Account)
    requires Inv(w)
    requires work.SaveFederated? ==> work.saved.provider != LOCAL
    requires work.Login? ==> work.claims.id.provider != LOCAL
    ensures Ids(w) && TxOk(v, Started(work, a))
    ensures forall u :: u in w.txs ==> Apart(Started(work, a), w.txs[u])
  {
  }

  lemma SaveLocalFrame(w: World, i: Ident, a: Account, t: nat)
    requires t in w.txs
    ensures Frame(w.db, StepSaveLocal(w, i, a).db, w.txs[t])
  {
    if !exists u :: u in w.txs && TouchesIdentity(w.txs[u], i) {
      assert !TouchesIdentity(w.txs[t], i);
    }
  }

  lemma UnlockedFrame(w: World, e: Event, t: nat)
    requires t in w.txs && !e.Begin? && !e.Step? && !e.Abort?
    requires Ids(w) && (PutsUser(w.txs[t]) ==> w.txs[t].user < w.nextUser)
    ensures Frame(w.db, Apply(w, e).db, w.txs[t])
  {
    hide StepSaveLocal, StepRegister, Frame, PutsUser, WellFormedHistory;
    if e.SaveLocal? {
      SaveLocalFrame(w, e.localId, e.owner, t);
    } else if e.Register? {
      RegisterFrame(w, e.email, t);
    } else {
      IssuedFrame(w, e, t);
    }
  }

  lemma RegisterFrame(w: World, email: string, t: nat)
    requires t in w.txs && (PutsUser(w.txs[t]) ==> w.txs[t].user < w.nextUser)
    ensures Frame(w.db, StepRegister(w, email).db, w.txs[t])
  {
    hide EmailTaken, PutsUser;
  }

  lemma IssuedFrame(w: World, e: Event, t: nat)
    requires t in w.txs && (e.IssueUnbound? || e.IssueUnboundCode? || e.DropSessions? || e.DropCodes?)
    ensures Frame(w.db, Apply(w, e).db, w.txs[t])
  {
    hide PutsUser, PutsCode;
  }

  lemma UnlockedIds(w: World, e: Event)
    requires Ids(w) && !e.Begin? && !e.Step? && !e.Abort?
    ensures Ids(Apply(w, e)) && Grows(w, Apply(w, e))
  {
  }

  lemma UnlockedKeeps(w: World, e: Event)
    requires Inv(w) && !e.Begin? && !e.Step? && !e.Abort?
    ensures Inv(Apply(w, e))
  {
    hide Inv, Ids, Holds, Written, Covers, Frame, Apply;
    IdsOf(w);
    var v := Apply(w, e);
    UnlockedIds(w, e);
    UnlockedTxs(w, e);
    forall t | t in w.txs
      ensures Frame(w.db, v.db, w.txs[t])
    {
      ProfileOf(w, t);
      UnlockedFrame(w, e, t);
    }
    FrameKeeps(w, v);
  }

  lemma IdsOf(w: World)
    requires Inv(w)
    ensures Ids(w)
  {
  }

  lemma UnlockedTxs(w: World, e: Event)
    requires !e.Begin? && !e.Step? && !e.Abort?
    ensures Apply(w, e).txs == w.txs
  {
  }

  /** No event, in any order, breaks the locks, the row locks or a purge's cover. */
  lemma ApplyKeeps(w: World, e: Event)
    requires Inv(w)
    ensures Inv(Apply(w, e))
  {
    hide Inv, StepTx, StepBegin;
    match e
    case Begin(tid, work, a) => BeginKeeps(w, tid, work, a);
    case Step(tid) => StepTxKeeps(w, tid);
    case Abort(tid) => EndKeeps(w, tid);
    case _ => UnlockedKeeps(w, e);
  }

  lemma {:induction false} RunKeeps(w: World, events: seq<Event>)
    requires Inv(w)
    ensures Inv(Run(w, events))
    decreases |events|
  {
    hide Inv, Apply;
    if events != [] {
      ApplyKeeps(w, events[0]);
      RunKeeps(Apply(w, events[0]), events[1..]);
    }
  }
}

/** Which logins purge: those that take over an account whose address nobody had verified, in every interleaving. */
module PurgeDecision {
  import opened PurgeProtocol
  import opened PurgeInvariant
  import opened PurgeSafety

  // Where a login has matched an account by its address and not written it yet.
  predicate Matched(pc: Pc) {
    match pc
    case LockExclusive | LockShared | Reread | PurgeIdentities | PurgeSessions | PurgeCodes | UpdateUser => true
    case _ => false
  }

  // A login that matched by address has a verified claim, and the row a login writes is its claim's.
  predicate Claimed(tx: Tx) {
    tx.work.Login? ==>
      && (Matched(tx.pc) ==> tx.work.claims.verified)
      && (PutsUser(tx) ==> tx.profile == UserRow(tx.work.claims.email, tx.work.claims.verified))
  }

  // One about to write onto an account it does not purge found it verified, or is creating it.
  ghost predicate Vetted(w: World, tx: Tx) {
    && Claimed(tx)
    && (tx.work.Login? && !tx.purging && tx.pc in {UpdateUser, LinkIdentity, Commit} ==>
          Verified(w.db, tx.user) || (tx.pc != UpdateUser && tx.user !in w.db.users))
    && (PutsUser(tx) && !tx.work.claims.verified ==> tx.user !in w.db.users)
  }

  ghost predicate AllVetted(w: World) {
    forall t {:trigger Vetted(w, w.txs[t])} :: t in w.txs ==> Vetted(w, w.txs[t])
  }

  // A login's own statements end it or move it on; they add no account, and take none its vetting.
  ghost predicate MovesOn(w: World, v: World, tid: nat) {
    && (forall t :: t != tid ==> (t in v.txs <==> t in w.txs))
    && (forall t :: t in w.txs && t != tid ==> v.txs[t] == w.txs[t])
    && v.db.users.Keys == w.db.users.Keys
    && (tid in v.txs ==> Vetted(v, v.txs[tid]))
  }

  lemma ResolveMovesOn(w: World, tid: nat)
    requires tid in w.txs && w.txs[tid].work.Login? && w.txs[tid].pc == Resolve
    ensures MovesOn(w, StepResolve(w, tid), tid)
  {
    hide EmailTaken, UserBusy, EmailClash;
  }

  lemma RereadMovesOn(w: World, tid: nat)
    requires tid in w.txs && w.txs[tid].work.Login? && w.txs[tid].pc == Reread && Vetted(w, w.txs[tid])
    ensures MovesOn(w, StepReread(w, tid), tid)
  {
    hide Linked;
  }

  lemma InsertUserMovesOn(w: World, tid: nat)
    requires tid in w.txs && w.txs[tid].work.Login? && w.txs[tid].pc == InsertUser && Ids(w)
    ensures MovesOn(w, StepInsertUser(w, tid), tid)
  {
    hide EmailBusy, EmailTaken;
  }

  lemma PurgeMovesOn(w: World, tid: nat)
    requires tid in w.txs && w.txs[tid].work.Login? && w.txs[tid].purging && Vetted(w, w.txs[tid])
    ensures w.txs[tid].pc.PurgeIdentities? ==> MovesOn(w, StepPurgeIdentities(w, tid), tid)
  {
    hide IdentityBusy;
  }

  lemma DropsMoveOn(w: World, tid: nat)
    requires tid in w.txs && w.txs[tid].work.Login? && w.txs[tid].purging && Vetted(w, w.txs[tid])
    ensures w.txs[tid].pc.PurgeSessions? ==> MovesOn(w, StepDropSessions(w, tid, PurgeCodes), tid)
    ensures w.txs[tid].pc.PurgeCodes? ==> MovesOn(w, StepDropCodes(w, tid, UpdateUser), tid)
  {
  }

  lemma WritesMoveOn(w: World, tid: nat)
    requires tid in w.txs && w.txs[tid].work.Login? && Vetted(w, w.txs[tid])
    ensures w.txs[tid].pc == UpdateUser ==> MovesOn(w, StepUpdateUser(w, tid), tid)
    ensures w.txs[tid].pc == LinkIdentity ==> MovesOn(w, WriteIdentity(w, tid, w.txs[tid].work.claims.id), tid)
  {
    hide EmailBusy, UserBusy, EmailClash;
  }

  lemma LoginMovesOn(w: World, tid: nat)
    requires tid in w.txs && w.txs[tid].work.Login? && Ids(w) && Vetted(w, w.txs[tid])
    requires Deleting(w.txs[tid].pc) ==> w.txs[tid].purging
    ensures MovesOn(w, StepLogin(w, tid), tid)
  {
    hide Ids, Vetted, MovesOn, StepResolve, StepReread, StepInsertUser, StepPurgeIdentities, StepDropSessions,
         StepDropCodes, StepUpdateUser, WriteIdentity, IdentityBusy;
    match w.txs[tid].pc
    case Resolve => ResolveMovesOn(w, tid);
    case Reread => RereadMovesOn(w, tid);
    case InsertUser => InsertUserMovesOn(w, tid);
    case PurgeIdentities => PurgeMovesOn(w, tid);
    case PurgeSessions => DropsMoveOn(w, tid);
    case PurgeCodes => DropsMoveOn(w, tid);
    case UpdateUser => WritesMoveOn(w, tid);
    case LinkIdentity =>
      WritesMoveOn(w, tid);
      StaysPut(w, tid);
    case _ => StaysPut(w, tid);
  }

  lemma StaysPut(w: World, tid: nat)
    requires tid in w.txs && Vetted(w, w.txs[tid])
    ensures MovesOn(w, w, tid)
  {
  }

  lemma LockMovesOn(w: World, tid: nat)
    requires tid in w.txs && (w.txs[tid].pc == LockExclusive || w.txs[tid].pc == LockShared)
    requires Vetted(w, w.txs[tid])
    ensures MovesOn(w, StepLock(w, tid), tid)
  {
    hide CanLockExclusive, CanLockShared;
  }

  lemma SaveMovesOn(w: World, tid: nat)
    requires tid in w.txs && w.txs[tid].work.SaveFederated?
    ensures MovesOn(w, StepSave(w, tid), tid)
  {
    hide Linked, IdentityBusy;
  }

  lemma EraseMovesOn(w: World, tid: nat)
    requires tid in w.txs && w.txs[tid].work.Erase?
    ensures MovesOn(w, StepErase(w, tid), tid)
  {
    hide IdentityBusy;
  }

  lemma IssueMovesOn(w: World, tid: nat)
    requires tid in w.txs && Issues(w.txs[tid].work)
    ensures MovesOn(w, StepIssue(w, tid), tid)
  {
    hide CodeBusy;
  }

  lemma StepMovesOn(w: World, tid: nat)
    requires tid in w.txs && Ids(w) && Vetted(w, w.txs[tid]) && w.txs[tid].pc != Commit
    requires Deleting(w.txs[tid].pc) ==> w.txs[tid].purging
    ensures MovesOn(w, StepTx(w, tid), tid)
  {
    hide Ids, Vetted, MovesOn, StepLock, StepSave, StepErase, StepIssue, StepLogin, CommitTx;
    if w.txs[tid].pc == LockExclusive || w.txs[tid].pc == LockShared {
      LockMovesOn(w, tid);
    } else {
      match w.txs[tid].work
      case Login(_) => LoginMovesOn(w, tid);
      case SaveFederated(_) => SaveMovesOn(w, tid);
      case Erase(_) => EraseMovesOn(w, tid);
      case _ => IssueMovesOn(w, tid);
    }
  }

  // The step of a transaction leaves the others alone, and can add one account: its own, at its commit.
  lemma StepFrames(w: World, tid: nat)
    requires tid in w.txs && Ids(w) && Vetted(w, w.txs[tid])
    requires Deleting(w.txs[tid].pc) ==> w.txs[tid].purging
    ensures var v := StepTx(w, tid);
            && (forall t :: t != tid ==> (t in v.txs <==> t in w.txs))
            && (forall t :: t in w.txs && t != tid ==> v.txs[t] == w.txs[t])
            && (forall u :: u in v.db.users ==> u in w.db.users || (PutsUser(w.txs[tid]) && u == w.txs[tid].user))
            && (tid in v.txs ==> Vetted(v, v.txs[tid]))
  {
    hide Ids, Vetted;
    if w.txs[tid].pc == Commit {
      hide StepLogin, StepSave, StepErase, StepIssue, StepLock;
      assert StepTx(w, tid) == CommitTx(w, tid);
    } else {
      StepMovesOn(w, tid);
      hide StepTx;
    }
  }

  lemma OtherVetted(w: World, tid: nat, t: nat)
    requires Inv(w) && tid in w.txs && t in w.txs && t != tid && Vetted(w, w.txs[tid]) && Vetted(w, w.txs[t])
    ensures var v := StepTx(w, tid); t in v.txs && Vetted(v, v.txs[t])
  {
    OneOf(w, tid);
    hide Inv, StepTx, Ids, Written, Covers;
    StepFrames(w, tid);
    TwoOf(w, tid, t);
    if Verified(w.db, w.txs[t].user) {
      VerifiedStays(w, Step(tid), w.txs[t].user);
      assert Apply(w, Step(tid)) == StepTx(w, tid);
    }
  }

  lemma StepVetted(w: World, tid: nat)
    requires Inv(w) && AllVetted(w)
    ensures AllVetted(StepTx(w, tid))
  {
    if tid !in w.txs {
      NoSuchTx(w, tid);
    } else {
      OneOf(w, tid);
      hide Inv, Vetted, Ids, StepTx, Written, Covers;
      StepFrames(w, tid);
      var v := StepTx(w, tid);
      forall t | t in v.txs
        ensures Vetted(v, v.txs[t])
      {
        if t != tid {
          OtherVetted(w, tid, t);
        }
      }
    }
  }

  // Events that are no transaction's step start one, end one, or add an account with an id of its own.
  lemma OtherEventVetted(w: World, e: Event)
    requires Inv(w) && AllVetted(w) && !e.Step?
    ensures AllVetted(Apply(w, e))
  {
    var v := Apply(w, e);
    forall t | t in v.txs
      ensures Vetted(v, v.txs[t])
    {
      if t in w.txs && v.txs[t] == w.txs[t] {
        OneOf(w, t);
        assert Vetted(w, w.txs[t]);
        hide Inv, Covers, Holds;
        if Verified(w.db, w.txs[t].user) {
          VerifiedStays(w, e, w.txs[t].user);
        }
      }
    }
  }

  lemma {:induction false} RunVetted(w: World, events: seq<Event>)
    requires Inv(w) && AllVetted(w)
    ensures Inv(Run(w, events)) && AllVetted(Run(w, events))
    decreases |events|
  {
    if events != [] {
      var e := events[0];
      ApplyKeeps(w, e);
      if e.Step? {
        StepVetted(w, e.tid);
        assert Apply(w, e) == StepTx(w, e.tid);
      } else {
        OtherEventVetted(w, e);
      }
      hide Inv, Apply, AllVetted;
      RunVetted(Apply(w, e), events[1..]);
    }
  }

  /** A subject's login is one step: it moves a verified address, or changes nothing when another account has it. */
  lemma SubjectLoginRefreshes(w: World, tid: nat)
    requires tid in w.txs && w.txs[tid].work.Login? && w.txs[tid].pc == Resolve
    requires var i := w.txs[tid].work.claims.id; i in w.db.identities && w.db.identities[i].user in w.db.users
    requires !UserBusy(w, tid, w.db.identities[w.txs[tid].work.claims.id].user)
    ensures var v, claims := Apply(w, Step(tid)), w.txs[tid].work.claims;
            var db, a := w.db, w.db.identities[claims.id].user;
            var clash := claims.verified && exists u :: u in db.users && u != a && db.users[u].email == claims.email;
            && v.txs == w.txs - {tid} && (clash ==> v.db == w.db)
            && v.db.identities == w.db.identities && v.db.sessions == w.db.sessions && v.db.codes == w.db.codes
            && (!clash && claims.verified ==> v.db.users == w.db.users[a := UserRow(claims.email, true)])
            && (!claims.verified && !EmailClash(w.db, a, w.db.users[a].email) ==> v.db == w.db)
  {
  }

  /**
   In every interleaving, a login that matched an account by its address and is about to commit has purged it, unless
   the account is verified; so what a purge leaves is what is left of every account taken over.
   */
  lemma UnverifiedIsPurged(start: World, before: seq<Event>, tid: nat)
    requires Quiescent(start)
    requires var w := Run(start, before);
             && tid in w.txs && w.txs[tid].work.Login? && w.txs[tid].pc == Commit
             && w.txs[tid].user in w.db.users && !w.db.users[w.txs[tid].user].verified
    ensures var w := Run(start, before);
            var a, db := w.txs[tid].user, Apply(w, Step(tid)).db;
            && Purges(w, tid) && Verified(db, a)
            && (forall s :: s in db.sessions && db.sessions[s].user == a ==> db.sessions[s].voucher == Unbound)
            && (forall c :: c in db.codes && db.codes[c].user == a ==> db.codes[c].voucher == Unbound)
            && (forall i :: i in db.identities && db.identities[i].user == a && i.provider != LOCAL ==>
                  i == w.txs[tid].work.claims.id)
  {
    hide Inv, Apply, TxOk, CommitTx;
    var w := Run(start, before);
    QuiescentInv(start);
    assert AllVetted(start);
    RunVetted(start, before);
    assert Vetted(w, w.txs[tid]);
    PurgeIsComplete(start, before, tid);
    CommitKeepsPurge(w, tid);
    OneOf(w, tid);
    PurgeVerifies(w, tid);
  }

  lemma PurgeVerifies(w: World, tid: nat)
    requires tid in w.txs && TxOk(w, w.txs[tid]) && Purges(w, tid) && w.txs[tid].work.Login?
    ensures Verified(CommitTx(w, tid).db, w.txs[tid].user)
  {
  }

  /******* What a purge takes *******/

  // A purge under way holds what its statements so far found; only those to come add to it.
  ghost predicate Holding(w: World, tid: nat, claims: Claims, ids: set<Ident>, sessions: set<nat>, codes: set<string>)
  {
    tid in w.txs ==>
      var tx := w.txs[tid];
      && tx.work == Login(claims) && tx.pc in {PurgeSessions, PurgeCodes, UpdateUser, LinkIdentity, Commit}
      && ids <= tx.dropIdentities
      && sessions <= tx.dropSessions && (tx.pc == PurgeSessions ==> sessions == {})
      && codes <= tx.dropCodes && (tx.pc == PurgeSessions || tx.pc == PurgeCodes ==> codes == {})
  }

  // A step before the commit leaves every other transaction as it is, and the tables unless it is a subject's login.
  ghost predicate Leaves(w: World, v: World, tid: nat, t: nat) {
    && (t in v.txs <==> t in w.txs) && (t in w.txs ==> v.txs[t] == w.txs[t])
    && (v.db == w.db || (tid in w.txs && w.txs[tid].work.Login? && w.txs[tid].pc.Resolve?))
  }

  lemma LoginLeaves(w: World, tid: nat, t: nat)
    requires t != tid && tid in w.txs && w.txs[tid].work.Login?
    ensures Leaves(w, StepLogin(w, tid), tid, t)
  {
    hide IdentityBusy, Linked, EmailTaken, UserBusy, EmailBusy, EmailClash, Refreshed;
  }

  lemma SaveLeaves(w: World, tid: nat, t: nat)
    requires t != tid && tid in w.txs && w.txs[tid].work.SaveFederated?
    ensures Leaves(w, StepSave(w, tid), tid, t)
  {
    hide IdentityBusy, SaveWrites;
  }

  lemma EraseLeaves(w: World, tid: nat, t: nat)
    requires t != tid && tid in w.txs && w.txs[tid].work.Erase?
    ensures Leaves(w, StepErase(w, tid), tid, t)
  {
    hide IdentityBusy;
  }

  lemma IssueLeaves(w: World, tid: nat, t: nat)
    requires t != tid && tid in w.txs && Issues(w.txs[tid].work)
    ensures Leaves(w, StepIssue(w, tid), tid, t)
  {
    hide CodeBusy;
  }

  lemma LockLeaves(w: World, tid: nat, t: nat)
    requires t != tid && tid in w.txs && (w.txs[tid].pc.LockExclusive? || w.txs[tid].pc.LockShared?)
    ensures Leaves(w, StepLock(w, tid), tid, t)
  {
    hide CanLockExclusive, CanLockShared;
  }

  lemma StepLeaves(w: World, tid: nat, t: nat)
    requires t != tid && tid in w.txs && !w.txs[tid].pc.Commit?
    ensures Leaves(w, StepTx(w, tid), tid, t)
  {
    hide StepLogin, StepSave, StepErase, StepIssue, StepLock, Leaves;
    if w.txs[tid].pc.LockExclusive? || w.txs[tid].pc.LockShared? {
      LockLeaves(w, tid, t);
    } else {
      match w.txs[tid].work
      case Login(_) => LoginLeaves(w, tid, t);
      case SaveFederated(_) => SaveLeaves(w, tid, t);
      case Erase(_) => EraseLeaves(w, tid, t);
      case _ => IssueLeaves(w, tid, t);
    }
  }

  lemma StepHolds(w: World, e: Event, tid: nat, claims: Claims, ids: set<Ident>, sessions: set<nat>,
                  codes: set<string>)
    requires Holding(w, tid, claims, ids, sessions, codes) && !(e.Begin? && e.tid == tid)
    ensures Holding(Apply(w, e), tid, claims, ids, sessions, codes)
  {
    if e.Step? && e.tid == tid {
      hide StepSave, StepErase, StepIssue, StepLock;
    } else if e.Step? && e.tid in w.txs && !w.txs[e.tid].pc.Commit? {
      StepLeaves(w, e.tid, tid);
      hide StepTx;
    } else {
      hide StepLogin, StepSave, StepErase, StepIssue, StepLock;
    }
  }

  lemma {:induction false} RunHolds(w: World, events: seq<Event>, tid: nat, claims: Claims, ids: set<Ident>,
                                    sessions: set<nat>, codes: set<string>)
    requires Holding(w, tid, claims, ids, sessions, codes)
    requires forall e :: e in events ==> !(e.Begin? && e.tid == tid)
    ensures Holding(Run(w, events), tid, claims, ids, sessions, codes)
    decreases |events|
  {
    if events != [] {
      StepHolds(w, events[0], tid, claims, ids, sessions, codes);
      hide Apply, Holding;
      RunHolds(Apply(w, events[0]), events[1..], tid, claims, ids, sessions, codes);
    }
  }

  lemma IdentitiesHeld(w: World, tid: nat)
    requires tid in w.txs && w.txs[tid].work.Login? && w.txs[tid].pc.PurgeIdentities? && Apply(w, Step(tid)) != w
    ensures var ids := set i | i in w.db.identities && w.db.identities[i].user == w.txs[tid].user;
            Holding(Apply(w, Step(tid)), tid, w.txs[tid].work.claims, ids, {}, {})
  {
    hide IdentityBusy;
  }

  lemma RestHeld(w: World, tid: nat)
    requires tid in w.txs && w.txs[tid].work.Login?
    ensures var v, c, a := Apply(w, Step(tid)), w.txs[tid].work.claims, w.txs[tid].user;
            var sessions := set s | s in w.db.sessions && w.db.sessions[s].user == a;
            var codes := set k | k in w.db.codes && w.db.codes[k].user == a;
            && (w.txs[tid].pc.PurgeSessions? ==> Holding(v, tid, c, {}, sessions, {}))
            && (w.txs[tid].pc.PurgeCodes? ==> Holding(v, tid, c, {}, {}, codes))
  {
    hide StepResolve, StepReread, StepInsertUser, StepUpdateUser, StepPurgeIdentities, WriteIdentity;
    hide StepLock, CommitTx;
  }

  lemma CommitTakes(w: World, tid: nat, claims: Claims, ids: set<Ident>, sessions: set<nat>, codes: set<string>)
    requires Holding(w, tid, claims, ids, sessions, codes) && tid in w.txs && w.txs[tid].pc.Commit?
    ensures var db := Apply(w, Step(tid)).db;
            && (forall i :: i in ids && i != claims.id ==> i !in db.identities)
            && (forall s :: s in sessions ==> s !in db.sessions)
            && (forall k :: k in codes ==> k !in db.codes)
  {
    hide StepLogin, StepLock;
  }

  /**
   Whatever runs between a statement of a login's purge and its commit: every identity of the account there at the
   first, a password included, every session at the second and every code at the third is gone, bound or not.
   */
  lemma PurgeTakesAll(w: World, tid: nat, rest: seq<Event>)
    requires tid in w.txs && w.txs[tid].work.Login? && w.txs[tid].purging
    requires forall e :: e in rest ==> !(e.Begin? && e.tid == tid)
    requires var x := Run(Apply(w, Step(tid)), rest); tid in x.txs && x.txs[tid].pc == Commit
    ensures var a, x := w.txs[tid].user, Run(Apply(w, Step(tid)), rest);
            var db := Apply(x, Step(tid)).db;
            && (w.txs[tid].pc == PurgeIdentities && Apply(w, Step(tid)) != w ==>
                  forall i :: i in w.db.identities && w.db.identities[i].user == a && i != w.txs[tid].work.claims.id ==>
                    i !in db.identities)
            && (w.txs[tid].pc == PurgeSessions ==>
                  forall s :: s in w.db.sessions && w.db.sessions[s].user == a ==> s !in db.sessions)
            && (w.txs[tid].pc == PurgeCodes ==>
                  forall c :: c in w.db.codes && w.db.codes[c].user == a ==> c !in db.codes)
  {
    hide Run, Holding, Apply;
    var c := w.txs[tid].work.claims;
    var a, v, x := w.txs[tid].user, Apply(w, Step(tid)), Run(Apply(w, Step(tid)), rest);
    var ids := set i | i in w.db.identities && w.db.identities[i].user == a;
    var sessions := set s | s in w.db.sessions && w.db.sessions[s].user == a;
    var codes := set k | k in w.db.codes && w.db.codes[k].user == a;
    match w.txs[tid].pc
    case PurgeIdentities =>
      if v != w {
        IdentitiesHeld(w, tid);
        RunHolds(v, rest, tid, c, ids, {}, {});
        CommitTakes(x, tid, c, ids, {}, {});
      }
    case PurgeSessions =>
      RestHeld(w, tid);
      RunHolds(v, rest, tid, c, {}, sessions, {});
      CommitTakes(x, tid, c, {}, sessions, {});
    case PurgeCodes =>
      RestHeld(w, tid);
      RunHolds(v, rest, tid, c, {}, {}, codes);
      CommitTakes(x, tid, c, {}, {}, codes);
    case _ =>
  }

  /******* Who changes a profile *******/

  /**
   In every interleaving an event changes a user's row in one of three ways: a registration adds one nobody verified, a
   login adds one as its claim has it, or a login with a verified claim makes it the claim's. No other event, and no
   unverified claim, ever touches a row that exists.
   */
  lemma RowsFollowClaims(start: World, before: seq<Event>, e: Event, u: Account)
    requires Quiescent(start)
    ensures var w := Run(start, before);
            var was, now := w.db.users, Apply(w, e).db.users;
            && (u in was ==> u in now)
            && (u in now && !(u in was && now[u] == was[u]) ==>
                  || (e.Register? && u !in was && now[u] == UserRow(e.email, false))
                  || (e.Step? && e.tid in w.txs && w.txs[e.tid].work.Login?
                      && var claims := w.txs[e.tid].work.claims;
                         now[u] == UserRow(claims.email, claims.verified) && (u in was ==> claims.verified)))
  {
    var w := Run(start, before);
    QuiescentInv(start);
    assert AllVetted(start);
    RunVetted(start, before);
    if e.Step? && e.tid in w.txs {
      assert Vetted(w, w.txs[e.tid]);
      hide Inv, AllVetted;
      StepRow(w, e.tid, u);
    } else {
      hide Inv, AllVetted;
    }
  }

  // A user's row is as it was, or as a login's claim has it; an unverified claim makes only new ones.
  ghost predicate RowFollows(w: World, v: World, tx: Tx, u: Account) {
    && (u in w.db.users ==> u in v.db.users)
    && (u in v.db.users && !(u in w.db.users && v.db.users[u] == w.db.users[u]) ==>
          && tx.work.Login? && v.db.users[u] == UserRow(tx.work.claims.email, tx.work.claims.verified)
          && (u in w.db.users ==> tx.work.claims.verified))
  }

  lemma ResolveRow(w: World, tid: nat, u: Account)
    requires tid in w.txs && w.txs[tid].work.Login? && w.txs[tid].pc.Resolve?
    ensures RowFollows(w, StepTx(w, tid), w.txs[tid], u)
  {
    hide EmailTaken, UserBusy, EmailClash;
  }

  lemma StepRow(w: World, tid: nat, u: Account)
    requires tid in w.txs && Vetted(w, w.txs[tid])
    ensures RowFollows(w, StepTx(w, tid), w.txs[tid], u)
  {
    hide StepLogin, StepSave, StepErase, StepIssue, StepLock;
    var tx := w.txs[tid];
    if tx.work.Login? && tx.pc.Resolve? {
      ResolveRow(w, tid, u);
    } else if !tx.pc.Commit? {
      StepLeaves(w, tid, tid + 1);
      hide StepTx;
    }
  }
}

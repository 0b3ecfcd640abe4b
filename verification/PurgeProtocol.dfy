/**
 The writers of porte_identities, porte_sessions and porte_login_codes as a state machine.

 Every transaction advances one SQL statement at a time under READ COMMITTED: a statement reads the
 committed tables plus the transaction's own writes, and nobody else sees those writes before the
 commit. The account's advisory lock is held until the transaction ends. A run is any sequence of
 events, so every interleaving is one.
 */
module PurgeProtocol {

  type Account = nat

  const LOCAL := "local"

  datatype Ident = Ident(provider: string, subject: string)

  // gen tells two incarnations of one (provider, subject) apart: a row deleted and inserted again is
  // another row.
  datatype IdentityRow = IdentityRow(user: Account, gen: nat)

  datatype UserRow = UserRow(email: string, verified: bool)

  // What a session or a login code was issued on: nothing, an identity row, or another session.
  datatype Voucher = Unbound | ByIdentity(id: Ident, gen: nat) | BySession(issuer: nat)

  datatype IssuedRow = IssuedRow(user: Account, voucher: Voucher)

  datatype Tables = Tables(
    users: map<Account, UserRow>,
    identities: map<Ident, IdentityRow>,
    sessions: map<nat, IssuedRow>,
    codes: map<string, IssuedRow>)

  datatype Claims = Claims(id: Ident, email: string, verified: bool)

  datatype Binding = OnIdentity(id: Ident) | OnSession(issuer: nat)

  datatype Work =
    | Login(claims: Claims)
    | SaveFederated(saved: Ident)
    | IssueSession(binding: Binding)
    | IssueCode(hash: string, codeId: Ident)
    | Erase(erased: Ident)

  // The statement a transaction runs next.
  datatype Pc =
    | Resolve | LockExclusive | Reread | InsertUser
    | PurgeIdentities | PurgeSessions | PurgeCodes | UpdateUser | LinkIdentity
    | LockShared | CheckVoucher | InsertIssued
    | SaveIdentity
    | RereadOwner | EraseSessions | EraseCodes | EraseIdentity
    | Commit

  // profile, gen and sid are the rows this transaction has written, once its pc says it has.
  datatype Tx = Tx(
    work: Work, pc: Pc, user: Account, retried: bool, purging: bool,
    exclusive: set<Account>, shared: set<Account>,
    voucher: Voucher, profile: UserRow, gen: nat, sid: nat,
    dropIdentities: set<Ident>, dropSessions: set<nat>, dropCodes: set<string>)

  // history keeps every session row ever inserted: the voucher is checked at insert time and not stored,
  // so the chain of issuers is only known to history.
  datatype World = World(
    db: Tables, txs: map<nat, Tx>,
    nextUser: nat, nextSession: nat, nextGen: nat,
    history: map<nat, IssuedRow>)

  // Besides the steps of a transaction: writers that are one statement, or take no account lock.
  datatype Event =
    | Begin(tid: nat, work: Work, account: Account)
    | Step(tid: nat)
    | Abort(tid: nat)
    | Register(email: string)
    | SaveLocal(localId: Ident, owner: Account)
    | IssueUnbound(holder: Account)
    | IssueUnboundCode(hash: string, holder: Account)
    | DropSessions(ids: set<nat>)
    | DropCodes(hashes: set<string>)

  /******* Uncommitted writes *******/

  predicate PutsUser(tx: Tx) {
    tx.work.Login? && (tx.pc == LinkIdentity || tx.pc == Commit)
  }

  predicate PutsIdentity(tx: Tx, i: Ident) {
    tx.pc == Commit && (tx.work == SaveFederated(i) || (tx.work.Login? && tx.work.claims.id == i))
  }

  predicate PutsSession(tx: Tx) {
    tx.work.IssueSession? && tx.pc == Commit
  }

  predicate PutsCode(tx: Tx, hash: string) {
    tx.work.IssueCode? && tx.pc == Commit && tx.work.hash == hash
  }

  predicate TouchesIdentity(tx: Tx, i: Ident) {
    i in tx.dropIdentities || PutsIdentity(tx, i)
  }

  function Committed(db: Tables, tx: Tx): Tables {
    var users := if PutsUser(tx) then db.users[tx.user := tx.profile] else db.users;
    var kept := db.identities - tx.dropIdentities;
    var row := IdentityRow(tx.user, tx.gen);
    var identities := if tx.work.Login? then kept[tx.work.claims.id := row]
                      else if tx.work.SaveFederated? then kept[tx.work.saved := row] else kept;
    var live := db.sessions - tx.dropSessions;
    var sessions := if tx.work.IssueSession? then live[tx.sid := IssuedRow(tx.user, tx.voucher)] else live;
    var pending := db.codes - tx.dropCodes;
    var codes := if tx.work.IssueCode? then pending[tx.work.hash := IssuedRow(tx.user, tx.voucher)] else pending;
    Tables(users, identities, sessions, codes)
  }

  /******* Statements *******/

  predicate Linked(db: Tables, a: Account, provider: string) {
    exists i :: i in db.identities && db.identities[i].user == a && i.provider == provider
  }

  predicate EmailTaken(db: Tables, email: string) {
    exists u :: u in db.users && db.users[u].email == email
  }

  // The UNIQUE constraint on porte_users.email fails the statement.
  predicate EmailClash(db: Tables, a: Account, email: string) {
    exists u :: u in db.users && u != a && db.users[u].email == email
  }

  ghost function HolderOf(db: Tables, email: string): (u: Account)
    requires EmailTaken(db, email)
    ensures u in db.users && db.users[u].email == email
  {
    var u :| u in db.users && db.users[u].email == email;
    u
  }

  // Row locks: a statement waits for the open transaction that wrote the row it needs.
  ghost predicate IdentityBusy(w: World, tid: nat, i: Ident) {
    exists t :: t in w.txs && t != tid && TouchesIdentity(w.txs[t], i)
  }

  predicate UserBusy(w: World, tid: nat, a: Account) {
    exists t :: t in w.txs && t != tid && PutsUser(w.txs[t]) && w.txs[t].user == a
  }

  predicate EmailBusy(w: World, tid: nat, email: string) {
    exists t :: t in w.txs && t != tid && PutsUser(w.txs[t]) && w.txs[t].profile.email == email
  }

  predicate CodeBusy(w: World, tid: nat, hash: string) {
    exists t :: t in w.txs && t != tid && PutsCode(w.txs[t], hash)
  }

  predicate CanLockExclusive(w: World, tid: nat, a: Account) {
    forall t :: t in w.txs && t != tid ==> a !in w.txs[t].exclusive && a !in w.txs[t].shared
  }

  predicate CanLockShared(w: World, tid: nat, a: Account) {
    forall t :: t in w.txs && t != tid ==> a !in w.txs[t].exclusive
  }

  function Put(w: World, tid: nat, tx: Tx): World {
    w.(txs := w.txs[tid := tx])
  }

  function End(w: World, tid: nat): World {
    w.(txs := w.txs - {tid})
  }

  function CommitTx(w: World, tid: nat): World
    requires tid in w.txs
  {
    End(w, tid).(db := Committed(w.db, w.txs[tid]))
  }

  // INSERT ... ON CONFLICT (provider, subject) DO UPDATE: a row that exists is updated and stays the
  // same incarnation, whatever account it moves to.
  function WriteIdentity(w: World, tid: nat, i: Ident): World
    requires tid in w.txs
  {
    var tx := w.txs[tid];
    var live := i in w.db.identities && i !in tx.dropIdentities;
    Put(w, tid, tx.(pc := Commit, gen := if live then w.db.identities[i].gen else w.nextGen))
    .(nextGen := w.nextGen + 1)
  }

  function Refreshed(u: UserRow, claims: Claims): UserRow {
    UserRow(if claims.verified then claims.email else u.email, u.verified || claims.verified)
  }

  // A login that matches by subject is kept whole: it refreshes the profile and writes no identity.
  function SubjectLogin(w: World, tid: nat, a: Account, claims: Claims): World {
    if a !in w.db.users then End(w, tid)
    else if UserBusy(w, tid, a) then w
    else
      var refreshed := Refreshed(w.db.users[a], claims);
      if EmailClash(w.db, a, refreshed.email) then End(w, tid)
      else End(w, tid).(db := w.db.(users := w.db.users[a := refreshed]))
  }

  // existingUser's SELECTs, without the lock.
  ghost function StepResolve(w: World, tid: nat): World
    requires tid in w.txs && w.txs[tid].work.Login?
  {
    var tx := w.txs[tid];
    var claims := tx.work.claims;
    if claims.id in w.db.identities then SubjectLogin(w, tid, w.db.identities[claims.id].user, claims)
    else if !claims.verified || !EmailTaken(w.db, claims.email) then Put(w, tid, tx.(pc := InsertUser))
    else Put(w, tid, tx.(pc := LockExclusive, user := HolderOf(w.db, claims.email)))
  }

  // byVerifiedEmail's second read, under the lock.
  function StepReread(w: World, tid: nat): World
    requires tid in w.txs && w.txs[tid].work.Login?
  {
    var tx := w.txs[tid];
    var claims := tx.work.claims;
    if tx.user !in w.db.users || w.db.users[tx.user].email != claims.email then Put(w, tid, tx.(pc := InsertUser))
    else if !w.db.users[tx.user].verified then Put(w, tid, tx.(pc := PurgeIdentities, purging := true))
    else if Linked(w.db, tx.user, claims.id.provider) then Put(w, tid, tx.(pc := InsertUser))
    else Put(w, tid, tx.(pc := UpdateUser))
  }

  // insertUser, and the second resolution when the address is taken. Resolving twice in vain is refused.
  function StepInsertUser(w: World, tid: nat): World
    requires tid in w.txs && w.txs[tid].work.Login?
  {
    var tx := w.txs[tid];
    var claims := tx.work.claims;
    if tx.retried then End(w, tid)
    else if EmailBusy(w, tid, claims.email) then w
    else if EmailTaken(w.db, claims.email) then Put(w, tid, tx.(pc := Resolve, retried := true))
    else
      Put(w, tid, tx.(pc := LinkIdentity, user := w.nextUser, profile := UserRow(claims.email, claims.verified)))
      .(nextUser := w.nextUser + 1)
  }

  function StepUpdateUser(w: World, tid: nat): World
    requires tid in w.txs && w.txs[tid].work.Login?
  {
    var tx := w.txs[tid];
    var claims := tx.work.claims;
    if tx.user !in w.db.users then End(w, tid)
    else if UserBusy(w, tid, tx.user) || EmailBusy(w, tid, claims.email) then w
    else if EmailClash(w.db, tx.user, claims.email) then End(w, tid)
    else Put(w, tid, tx.(pc := LinkIdentity, profile := Refreshed(w.db.users[tx.user], claims)))
  }

  ghost function StepPurgeIdentities(w: World, tid: nat): World
    requires tid in w.txs
  {
    var tx := w.txs[tid];
    var ids := set i | i in w.db.identities && w.db.identities[i].user == tx.user;
    if exists i :: i in ids && IdentityBusy(w, tid, i) then w
    else Put(w, tid, tx.(pc := PurgeSessions, dropIdentities := ids))
  }

  function StepDropSessions(w: World, tid: nat, next: Pc): World
    requires tid in w.txs
  {
    var tx := w.txs[tid];
    Put(w, tid, tx.(pc := next, dropSessions := set s | s in w.db.sessions && w.db.sessions[s].user == tx.user))
  }

  function StepDropCodes(w: World, tid: nat, next: Pc): World
    requires tid in w.txs
  {
    var tx := w.txs[tid];
    Put(w, tid, tx.(pc := next, dropCodes := set c | c in w.db.codes && w.db.codes[c].user == tx.user))
  }

  ghost function StepLogin(w: World, tid: nat): World
    requires tid in w.txs && w.txs[tid].work.Login?
  {
    var tx := w.txs[tid];
    if tx.pc == Resolve then StepResolve(w, tid)
    else if tx.pc == Reread then StepReread(w, tid)
    else if tx.pc == InsertUser then StepInsertUser(w, tid)
    else if tx.pc == PurgeIdentities then StepPurgeIdentities(w, tid)
    else if tx.pc == PurgeSessions then StepDropSessions(w, tid, PurgeCodes)
    else if tx.pc == PurgeCodes then StepDropCodes(w, tid, UpdateUser)
    else if tx.pc == UpdateUser then StepUpdateUser(w, tid)
    else if tx.pc == LinkIdentity && !IdentityBusy(w, tid, tx.work.claims.id) then
      WriteIdentity(w, tid, tx.work.claims.id)
    else w
  }

  // saveFederated's INSERT ... SELECT ... WHERE ... ON CONFLICT ... WHERE: no row written is a refusal.
  predicate SaveWrites(db: Tables, a: Account, i: Ident) {
    && a in db.users
    && (if i in db.identities then db.identities[i].user == a else !Linked(db, a, i.provider))
  }

  ghost function StepSave(w: World, tid: nat): World
    requires tid in w.txs && w.txs[tid].work.SaveFederated?
  {
    var tx := w.txs[tid];
    if tx.pc != SaveIdentity || IdentityBusy(w, tid, tx.work.saved) then w
    else if SaveWrites(w.db, tx.user, tx.work.saved) then WriteIdentity(w, tid, tx.work.saved)
    else End(w, tid)
  }

  // The check a bound insert makes: what vouches for it is there, and the account's.
  function StepCheck(w: World, tid: nat, binding: Binding): World
    requires tid in w.txs
  {
    var tx := w.txs[tid];
    match binding
    case OnIdentity(i) =>
      if i in w.db.identities && w.db.identities[i].user == tx.user
      then Put(w, tid, tx.(pc := InsertIssued, voucher := ByIdentity(i, w.db.identities[i].gen)))
      else End(w, tid)
    case OnSession(s) =>
      if s in w.db.sessions && w.db.sessions[s].user == tx.user
      then Put(w, tid, tx.(pc := InsertIssued, voucher := BySession(s)))
      else End(w, tid)
  }

  // The id comes from a sequence, so it is spent even when the transaction rolls back.
  function StepInsertSession(w: World, tid: nat): World
    requires tid in w.txs
  {
    var tx := w.txs[tid];
    Put(w, tid, tx.(pc := Commit, sid := w.nextSession))
    .(nextSession := w.nextSession + 1, history := w.history[w.nextSession := IssuedRow(tx.user, tx.voucher)])
  }

  function StepInsertCode(w: World, tid: nat): World
    requires tid in w.txs && w.txs[tid].work.IssueCode?
  {
    var tx := w.txs[tid];
    if CodeBusy(w, tid, tx.work.hash) then w
    else if tx.work.hash in w.db.codes then End(w, tid)
    else Put(w, tid, tx.(pc := Commit))
  }

  function StepIssue(w: World, tid: nat): World
    requires tid in w.txs && (w.txs[tid].work.IssueSession? || w.txs[tid].work.IssueCode?)
  {
    var tx := w.txs[tid];
    if tx.pc == CheckVoucher then
      StepCheck(w, tid, if tx.work.IssueSession? then tx.work.binding else OnIdentity(tx.work.codeId))
    else if tx.pc == InsertIssued then
      if tx.work.IssueSession? then StepInsertSession(w, tid) else StepInsertCode(w, tid)
    else w
  }

  // EraseIdentity's statements; an identity that moved meanwhile ends the attempt.
  ghost function StepErase(w: World, tid: nat): World
    requires tid in w.txs && w.txs[tid].work.Erase?
  {
    var tx := w.txs[tid];
    var i := tx.work.erased;
    if tx.pc == Resolve then
      if i in w.db.identities then Put(w, tid, tx.(pc := LockExclusive, user := w.db.identities[i].user))
      else End(w, tid)
    else if tx.pc == RereadOwner then
      if i in w.db.identities && w.db.identities[i].user == tx.user
      then Put(w, tid, tx.(pc := EraseSessions, purging := true)) else End(w, tid)
    else if tx.pc == EraseSessions then StepDropSessions(w, tid, EraseCodes)
    else if tx.pc == EraseCodes then StepDropCodes(w, tid, EraseIdentity)
    else if tx.pc == EraseIdentity && !IdentityBusy(w, tid, i) then
      Put(w, tid, tx.(pc := Commit, dropIdentities := {i}))
    else w
  }

  function AfterLock(work: Work): Pc {
    if work.Login? then Reread
    else if work.SaveFederated? then SaveIdentity
    else if work.Erase? then RereadOwner
    else CheckVoucher
  }

  function StepLock(w: World, tid: nat): World
    requires tid in w.txs
  {
    var tx := w.txs[tid];
    if tx.pc == LockExclusive then
      if CanLockExclusive(w, tid, tx.user)
      then Put(w, tid, tx.(pc := AfterLock(tx.work), exclusive := tx.exclusive + {tx.user})) else w
    else
      if CanLockShared(w, tid, tx.user)
      then Put(w, tid, tx.(pc := AfterLock(tx.work), shared := tx.shared + {tx.user})) else w
  }

  // One statement of one transaction. A statement that must wait leaves the world as it is.
  ghost function StepTx(w: World, tid: nat): World {
    if tid !in w.txs then w
    else if w.txs[tid].pc == LockExclusive || w.txs[tid].pc == LockShared then StepLock(w, tid)
    else if w.txs[tid].pc == Commit then CommitTx(w, tid)
    else if w.txs[tid].work.Login? then StepLogin(w, tid)
    else if w.txs[tid].work.SaveFederated? then StepSave(w, tid)
    else if w.txs[tid].work.Erase? then StepErase(w, tid)
    else StepIssue(w, tid)
  }

  function First(work: Work): Pc {
    if work.Login? || work.Erase? then Resolve
    else if work.SaveFederated? then LockExclusive
    else LockShared
  }

  function Started(work: Work, a: Account): Tx {
    Tx(work, First(work), a, false, false, {}, {}, Unbound, UserRow("", false), 0, 0, {}, {}, {})
  }

  function StepBegin(w: World, tid: nat, work: Work, a: Account): World {
    if tid in w.txs || (work.SaveFederated? && work.saved.provider == LOCAL)
       || (work.Login? && work.claims.id.provider == LOCAL) then w
    else Put(w, tid, Started(work, a))
  }

  // Save of a password identity: one statement, no account lock.
  ghost function StepSaveLocal(w: World, i: Ident, a: Account): World {
    if i.provider != LOCAL || a !in w.db.users || (exists t :: t in w.txs && TouchesIdentity(w.txs[t], i)) then w
    else
      var row := IdentityRow(a, if i in w.db.identities then w.db.identities[i].gen else w.nextGen);
      w.(db := w.db.(identities := w.db.identities[i := row]), nextGen := w.nextGen + 1)
  }

  function StepRegister(w: World, email: string): World {
    if EmailTaken(w.db, email) || (exists t :: t in w.txs && PutsUser(w.txs[t]) && w.txs[t].profile.email == email)
    then w
    else w.(db := w.db.(users := w.db.users[w.nextUser := UserRow(email, false)]), nextUser := w.nextUser + 1)
  }

  function StepIssueUnbound(w: World, a: Account): World {
    var row := IssuedRow(a, Unbound);
    if a !in w.db.users then w
    else
      w.(db := w.db.(sessions := w.db.sessions[w.nextSession := row]),
         nextSession := w.nextSession + 1, history := w.history[w.nextSession := row])
  }

  function StepIssueUnboundCode(w: World, hash: string, a: Account): World {
    if a !in w.db.users || hash in w.db.codes || (exists t :: t in w.txs && PutsCode(w.txs[t], hash)) then w
    else w.(db := w.db.(codes := w.db.codes[hash := IssuedRow(a, Unbound)]))
  }

  ghost function Apply(w: World, e: Event): World {
    match e
    case Begin(tid, work, a) => StepBegin(w, tid, work, a)
    case Step(tid) => StepTx(w, tid)
    case Abort(tid) => End(w, tid)
    case Register(email) => StepRegister(w, email)
    case SaveLocal(i, a) => StepSaveLocal(w, i, a)
    case IssueUnbound(a) => StepIssueUnbound(w, a)
    case IssueUnboundCode(hash, a) => StepIssueUnboundCode(w, hash, a)
    case DropSessions(ids) => w.(db := w.db.(sessions := w.db.sessions - ids))
    case DropCodes(hashes) => w.(db := w.db.(codes := w.db.codes - hashes))
  }

  ghost function Run(w: World, events: seq<Event>): World
    decreases |events|
  {
    if events == [] then w else Run(Apply(w, events[0]), events[1..])
  }
}

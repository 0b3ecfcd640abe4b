/**
 UpsertFromOIDC, Save and EraseIdentity as whole transactions over the tables of porte/pg: the
 statements in order, the first failure ending the transaction without a trace.
 */
module Accounts {
  import Decimal

  type Account = nat

  const LOCAL := "local"

  // How often an erase looks for the owner.
  const ROUNDS := 3

  datatype Ident = Ident(provider: string, subject: string)

  datatype User = User(email: string, verified: bool, name: string)

  datatype Tables = Tables(
    users: map<Account, User>,
    identities: map<Ident, Account>,
    sessions: map<nat, Account>,
    codes: map<string, Account>,
    links: map<string, Account>,
    nextUser: nat)

  datatype Claims = Claims(id: Ident, email: string, verified: bool, name: string)

  datatype Error = NoEmail | Refused | NotFound | Moved | Database

  datatype Result<T> = Ok(value: T) | Err(error: Error)

  /******* What a login, a Save and an erase come to *******/

  // How the claims meet the accounts that exist.
  datatype Resolution = Subject(user: Account) | TakeOver(user: Account) | Link(user: Account) | Create | Refuse

  ghost predicate Holds(t: Tables, u: Account, email: string) {
    u in t.users && t.users[u].email == email
  }

  ghost predicate Linked(t: Tables, u: Account, provider: string) {
    exists i :: i in t.identities && t.identities[i] == u && i.provider == provider
  }

  ghost function Resolve(t: Tables, c: Claims): Resolution {
    if c.id in t.identities then Subject(t.identities[c.id])
    else if !exists u :: Holds(t, u, c.email) then Create
    else if !c.verified then Refuse
    else
      var u :| Holds(t, u, c.email);
      if !t.users[u].verified then TakeOver(u)
      else if !Linked(t, u, c.id.provider) then Link(u)
      else Refuse
  }

  function Refreshed(u: User, c: Claims): User {
    User(if c.verified then c.email else u.email, u.verified || c.verified, if c.name == "" then u.name else c.name)
  }

  function Purged(t: Tables, u: Account): Tables {
    t.(identities := map i | i in t.identities && t.identities[i] != u :: t.identities[i],
       sessions := map s | s in t.sessions && t.sessions[s] != u :: t.sessions[s],
       codes := map k | k in t.codes && t.codes[k] != u :: t.codes[k],
       links := map k | k in t.links && t.links[k] != u :: t.links[k])
  }

  function Signed(t: Tables, u: Account, c: Claims): Tables
    requires u in t.users
  {
    t.(users := t.users[u := Refreshed(t.users[u], c)], identities := t.identities[c.id := u])
  }

  function Created(t: Tables, c: Claims): Tables {
    t.(users := t.users[t.nextUser := User(c.email, c.verified, c.name)],
       identities := t.identities[c.id := t.nextUser], nextUser := t.nextUser + 1)
  }

  // The address a verified claim moves the account to is somebody else's: the UNIQUE index refuses it.
  ghost predicate Clash(t: Tables, u: Account, c: Claims) {
    c.verified && exists v :: v != u && Holds(t, v, c.email)
  }

  // The account the login answers and the tables it commits, or a refusal.
  ghost function LoggedIn(t: Tables, c: Claims): Result<(Account, Tables)>
    requires WellFormed(t)
  {
    match Resolve(t, c)
    case Subject(u) => if Clash(t, u, c) then Err(Database) else Ok((u, Signed(t, u, c)))
    case TakeOver(u) => Ok((u, Signed(Purged(t, u), u, c)))
    case Link(u) => Ok((u, Signed(t, u, c)))
    case Create => Ok((t.nextUser, Created(t, c)))
    case Refuse => Err(Refused)
  }

  ghost predicate CanSave(t: Tables, u: Account, i: Ident) {
    if i in t.identities then t.identities[i] == u else !Linked(t, u, i.provider)
  }

  function Erased(t: Tables, i: Ident): Tables {
    if i !in t.identities then t
    else
      var u := t.identities[i];
      Purged(t, u).(identities := t.identities - {i})
  }

  // The tables when a round of an erase reads the owner, and when it has the owner's lock.
  datatype Round = Round(atRead: Tables, atLock: Tables)

  // The identity was somebody's at the read and somebody else's under the lock.
  predicate Moves(round: Round, i: Ident) {
    && i in round.atRead.identities && i in round.atLock.identities
    && round.atLock.identities[i] != round.atRead.identities[i]
  }

  /******* The invariant *******/

  // Emails and federated identities are unique per account, and every row has its account. Ids start at 1.
  predicate WellFormed(t: Tables) {
    && 0 !in t.users && 0 < t.nextUser
    && (forall u :: u in t.users ==> u < t.nextUser)
    && (forall i :: i in t.identities ==> t.identities[i] in t.users)
    && (forall u, v :: u in t.users && v in t.users && t.users[u].email == t.users[v].email ==> u == v)
    && OneSubjectPerProvider(t)
  }

  predicate OneSubjectPerProvider(t: Tables) {
    forall i, j :: i in t.identities && j in t.identities && i.provider == j.provider && i.provider != LOCAL
      ==> t.identities[i] == t.identities[j] ==> i == j
  }

  /******* The transactions, statement by statement *******/

  // What the lookups found; user 0 when they found nobody.
  datatype Match = Match(user: Account, byEmail: bool, unverified: bool, inserted: bool)

  const NO_MATCH := Match(0, false, false, false)

  datatype Table = IdentitiesTable | SessionsTable | CodesTable | LinksTable

  function Without<K>(m: map<K, Account>, u: Account): map<K, Account> {
    map k | k in m && m[k] != u :: m[k]
  }

  // One database transaction: t is what its own statements see. faulted records whether one of them
  // failed for a reason of the connection's or the server's.
  class Tx {
    var t: Tables
    ghost var faulted: bool

    constructor (committed: Tables)
      ensures t == committed && !faulted
    {
      t, faulted := committed, false;
    }

    // Any statement may fail.
    method Fails() returns (failed: bool)
      modifies this`faulted
      ensures faulted == (old(faulted) || failed)
    {
      failed := *;
      faulted := faulted || failed;
    }

    method ByVerifiedEmail(c: Claims) returns (m: Match, ok: bool, err: bool)
      requires WellFormed(t) && c.verified && c.id !in t.identities
      modifies this`faulted
      ensures faulted == (old(faulted) || err)
      ensures !err && ok ==> (Resolve(t, c) == TakeOver(m.user) && m == Match(m.user, true, true, false))
                             || (Resolve(t, c) == Link(m.user) && m == Match(m.user, true, false, false))
      ensures !err && !ok ==> Resolve(t, c).Create? || Resolve(t, c).Refuse?
    {
      m, ok := NO_MATCH, false;
      err := Fails();
      if err { return; }
      if u :| u in t.users && t.users[u].email == c.email {
        assert Holds(t, u, c.email);
        assert forall v :: Holds(t, v, c.email) ==> v == u;
        var unverified := !t.users[u].verified;
        var linked := exists i :: i in t.identities && t.identities[i] == u && i.provider == c.id.provider;
        m, ok := Match(u, true, unverified, false), unverified || !linked;
      }
    }

    method ExistingUser(c: Claims) returns (m: Match, ok: bool, err: bool)
      requires WellFormed(t)
      modifies this`faulted
      ensures faulted == (old(faulted) || err)
      ensures !err && ok ==> var r := Resolve(t, c);
                             (r == Subject(m.user) && m == Match(m.user, false, false, false))
                             || (r == TakeOver(m.user) && m == Match(m.user, true, true, false))
                             || (r == Link(m.user) && m == Match(m.user, true, false, false))
      ensures !err && !ok ==> Resolve(t, c).Create? || Resolve(t, c).Refuse?
    {
      m, ok := NO_MATCH, false;
      err := Fails();
      if err { return; }
      if c.id in t.identities {
        m, ok := Match(t.identities[c.id], false, false, false), true;
      } else if c.verified {
        m, ok, err := ByVerifiedEmail(c);
      }
    }

    // Gives 0, and no error, when the address is somebody's.
    method InsertUser(c: Claims) returns (user: Account, err: bool)
      requires WellFormed(t)
      modifies this
      ensures faulted == (old(faulted) || err)
      ensures err ==> t == old(t)
      ensures !err && user == 0 ==> t == old(t) && exists u :: Holds(t, u, c.email)
      ensures !err && user != 0 ==> user == old(t).nextUser && !(exists u :: Holds(old(t), u, c.email))
                                    && t == old(t).(users := old(t).users[user := User(c.email, c.verified, c.name)],
                                                    nextUser := user + 1)
    {
      user := 0;
      err := Fails();
      if err { return; }
      if exists u :: u in t.users && t.users[u].email == c.email {
        ghost var u :| u in t.users && t.users[u].email == c.email;
        assert Holds(t, u, c.email);
      } else {
        user := t.nextUser;
        t := t.(users := t.users[user := User(c.email, c.verified, c.name)], nextUser := user + 1);
      }
    }

    method FindOrInsert(c: Claims) returns (m: Match, err: bool)
      requires WellFormed(t)
      modifies this
      ensures faulted == (old(faulted) || err)
      ensures !err && m.inserted ==> Resolve(old(t), c).Create? && m.user == old(t).nextUser
                                     && t.(identities := t.identities[c.id := m.user]) == Created(old(t), c)
      ensures !err && !m.inserted ==> t == old(t)
      ensures !err && !m.inserted && m.user == 0 ==> Resolve(t, c).Refuse?
      ensures !err && !m.inserted && m.user != 0 ==>
                match Resolve(t, c)
                case Subject(u) => m == Match(u, false, false, false)
                case TakeOver(u) => m == Match(u, true, true, false)
                case Link(u) => m == Match(u, true, false, false)
                case _ => false
    {
      var ok;
      m, ok, err := ExistingUser(c);
      if err || ok { return; }
      var inserted;
      inserted, err := InsertUser(c);
      if err || inserted != 0 {
        m := Match(inserted, false, false, true);
        return;
      }
      m, ok, err := ExistingUser(c);
      if !ok { m := NO_MATCH; }
    }

    // DELETE FROM each table that holds rows of the account.
    method Purge(u: Account) returns (err: bool)
      modifies this
      ensures faulted == (old(faulted) || err)
      ensures !err ==> t == Purged(old(t), u)
    {
      var list := [IdentitiesTable, SessionsTable, CodesTable, LinksTable];
      err := false;
      for k := 0 to |list|
        invariant faulted == old(faulted)
        invariant t == old(t).(
                         identities := if k > 0 then Without(old(t).identities, u) else old(t).identities,
                         sessions := if k > 1 then Without(old(t).sessions, u) else old(t).sessions,
                         codes := if k > 2 then Without(old(t).codes, u) else old(t).codes,
                         links := if k > 3 then Without(old(t).links, u) else old(t).links)
      {
        err := Fails();
        if err { return; }
        match list[k]
        case IdentitiesTable => t := t.(identities := Without(t.identities, u));
        case SessionsTable => t := t.(sessions := Without(t.sessions, u));
        case CodesTable => t := t.(codes := Without(t.codes, u));
        case LinksTable => t := t.(links := Without(t.links, u));
      }
    }

    method UpdateUser(u: Account, c: Claims) returns (err: bool)
      requires u in t.users
      modifies this
      ensures err <== Clash(old(t), u, c)
      ensures err ==> faulted || Clash(old(t), u, c)
      ensures old(faulted) ==> faulted
      ensures !err ==> t == old(t).(users := old(t).users[u := Refreshed(old(t).users[u], c)])
    {
      err := Fails();
      if err { return; }
      if c.verified && exists v :: v in t.users && v != u && t.users[v].email == c.email {
        ghost var v :| v in t.users && v != u && t.users[v].email == c.email;
        assert Holds(t, v, c.email);
        err := true;
        return;
      }
      assert forall v :: v != u && Holds(t, v, c.email) ==> v in t.users && t.users[v].email == c.email;
      t := t.(users := t.users[u := Refreshed(t.users[u], c)]);
    }

    method ResolveOrCreate(c: Claims) returns (r: Result<Account>)
      requires WellFormed(t)
      modifies this
      ensures r.Ok? ==> LoggedIn(old(t), c) == Ok((r.value, t.(identities := t.identities[c.id := r.value])))
      ensures r.Err? ==> faulted || LoggedIn(old(t), c) == Err(r.error)
      ensures old(faulted) ==> faulted
    {
      var m, err := FindOrInsert(c);
      if err { return Err(Database); }
      if m.inserted { return Ok(m.user); }
      if m.user == 0 { return Err(Refused); }
      if m.byEmail && m.unverified {
        err := Purge(m.user);
        if err { return Err(Database); }
      }
      if Resolve(old(t), c).TakeOver? || Resolve(old(t), c).Link? {
        NoClash(old(t), m.user, c);
      }
      err := UpdateUser(m.user, c);
      r := if err then Err(Database) else Ok(m.user);
    }
  }

  class Store {
    var tables: Tables

    constructor (initial: Tables)
      ensures tables == initial
    {
      tables := initial;
    }

    /**
     The answer and the tables are what the resolution comes to; an error, of the resolution's or of the
     database's, leaves the tables as they were.
     */
    method UpsertFromOIDC(c: Claims) returns (r: Result<Account>, ghost faulted: bool)
      requires WellFormed(tables)
      modifies this
      ensures c.email == "" ==> r == Err(NoEmail)
      ensures r.Ok? ==> LoggedIn(old(tables), c) == Ok((r.value, tables))
      ensures r.Err? ==> tables == old(tables)
      ensures r.Err? && c.email != "" && !faulted ==> LoggedIn(old(tables), c) == Err(r.error)
    {
      faulted := false;
      if c.email == "" { return Err(NoEmail), false; }
      var tx := new Tx(tables);
      r := tx.ResolveOrCreate(c);
      if r.Err? { return r, tx.faulted; }
      var failed := tx.Fails();
      if failed { return Err(Database), true; }
      tx.t := tx.t.(identities := tx.t.identities[c.id := r.value]);
      failed := tx.Fails();
      if failed { return Err(Database), true; }
      tables := tx.t;
    }

    /** A federated identity is never re-pointed, and never joins another subject of its provider. */
    method SaveFederated(u: Account, i: Ident) returns (r: Result<()>, ghost faulted: bool)
      modifies this
      ensures r.Ok? ==> u in old(tables).users && CanSave(old(tables), u, i)
                        && tables == old(tables).(identities := old(tables).identities[i := u])
      ensures r.Err? ==> tables == old(tables)
      ensures r == Err(NotFound) ==> !CanSave(old(tables), u, i)
      ensures !faulted && u in old(tables).users ==> r == if CanSave(old(tables), u, i) then Ok(()) else Err(NotFound)
    {
      faulted := false;
      var tx := new Tx(tables);
      var failed := tx.Fails();
      if failed { return Err(Database), true; }
      var here := i in tx.t.identities && tx.t.identities[i] == u;
      var linked := exists j :: j in tx.t.identities && tx.t.identities[j] == u && j.provider == i.provider;
      if !here && linked { return Err(NotFound), false; }
      if i in tx.t.identities && tx.t.identities[i] != u { return Err(NotFound), false; }
      if u !in tx.t.users { return Err(Database), false; }
      tx.t := tx.t.(identities := tx.t.identities[i := u]);
      failed := tx.Fails();
      if failed { return Err(Database), true; }
      tables := tx.t;
      r := Ok(());
    }

    method EraseLocked(u: Account, i: Ident) returns (r: Result<()>, ghost faulted: bool)
      modifies this
      ensures r.Err? && !faulted ==> r == Err(Moved)
      ensures r.Ok? ==> tables == Erased(old(tables), i)
      ensures r.Err? ==> tables == old(tables)
      ensures !faulted ==> (r == Err(Moved) <==> i in old(tables).identities && old(tables).identities[i] != u)
      ensures faulted ==> r == Err(Database)
    {
      faulted := false;
      var tx := new Tx(tables);
      var failed := tx.Fails();
      if failed { return Err(Database), true; }
      if i !in tx.t.identities { return Ok(()), false; }
      if tx.t.identities[i] != u { return Err(Moved), false; }
      var list := [SessionsTable, CodesTable, LinksTable];
      for k := 0 to |list|
        invariant tables == old(tables)
        invariant tx.t == tables.(sessions := if k > 0 then Without(tables.sessions, u) else tables.sessions,
                                  codes := if k > 1 then Without(tables.codes, u) else tables.codes,
                                  links := if k > 2 then Without(tables.links, u) else tables.links)
      {
        failed := tx.Fails();
        if failed { return Err(Database), true; }
        match list[k]
        case IdentitiesTable =>
        case SessionsTable => tx.t := tx.t.(sessions := Without(tx.t.sessions, u));
        case CodesTable => tx.t := tx.t.(codes := Without(tx.t.codes, u));
        case LinksTable => tx.t := tx.t.(links := Without(tx.t.links, u));
      }
      failed := tx.Fails();
      if failed { return Err(Database), true; }
      tx.t := tx.t.(identities := tx.t.identities - {i});
      failed := tx.Fails();
      if failed { return Err(Database), true; }
      tables := tx.t;
      return Ok(()), false;
    }

    /**
     Each round reads the owner, waits for that owner's lock, and looks again: others[k] is what the other
     transactions had committed by then. It gives up after three rounds in which the identity changed hands in
     between. Nothing but the erase of the identity, whole or not at all, is added to what the others left.
     */
    method EraseIdentity(i: Ident, others: seq<Round>)
      returns (r: Result<()>, rounds: nat, locked: bool, ghost faulted: bool)
      requires |others| == ROUNDS
      modifies this
      ensures 1 <= rounds <= ROUNDS && forall k :: 0 <= k < rounds - 1 ==> Moves(others[k], i)
      ensures var seen := if locked then others[rounds - 1].atLock else others[rounds - 1].atRead;
        tables == if r.Ok? then Erased(seen, i) else seen
      ensures r.Ok? ==> i !in tables.identities && !Moves(others[rounds - 1], i)
      ensures !faulted ==> if forall k :: 0 <= k < ROUNDS ==> Moves(others[k], i) then r == Err(Moved) else r.Ok?
      ensures !faulted ==> (locked <==> i in others[rounds - 1].atRead.identities)
      ensures faulted ==> r == Err(Database)
    {
      rounds, locked, faulted := 0, false, false;
      for k := 0 to ROUNDS
        invariant rounds == k && !faulted && forall j :: 0 <= j < k ==> Moves(others[j], i)
        invariant k > 0 ==> locked && tables == others[k - 1].atLock
      {
        tables, rounds, locked := others[k].atRead, k + 1, false;
        var failed: bool := *;
        if failed { return Err(Database), rounds, locked, true; }
        if i !in tables.identities { return Ok(()), rounds, locked, false; }
        var u := tables.identities[i];
        tables, locked := others[k].atLock, true;
        r, faulted := EraseLocked(u, i);
        if r != Err(Moved) {
          assert faulted || !Moves(others[k], i);
          return;
        }
      }
      r := Err(Moved);
    }
  }

  /******* Runs *******/

  datatype Op =
    | Login(claims: Claims)
    | Save(owner: Account, saved: Ident)
    | Erase(erased: Ident)
    | Register(email: string, name: string)
    | SetPassword(holder: Account)
    | Issue(session: nat, code: string, link: string, user: Account)

  // A step that the store refuses changes nothing.
  ghost function Apply(t: Tables, op: Op): Tables
    requires WellFormed(t)
  {
    match op
    case Login(c) =>
      var r := LoggedIn(t, c);
      if c.email != "" && r.Ok? then r.value.1 else t
    case Save(u, i) =>
      if u in t.users && i.provider != LOCAL && CanSave(t, u, i) then t.(identities := t.identities[i := u]) else t
    case Erase(i) => Erased(t, i)
    case Register(email, name) =>
      if exists u :: Holds(t, u, email) then t
      else t.(users := t.users[t.nextUser := User(email, false, name)], nextUser := t.nextUser + 1)
    case SetPassword(u) =>
      // LocalSubject: the account's own id.
      if u in t.users then t.(identities := t.identities[Ident(LOCAL, Decimal.PrintNatural(u)) := u]) else t
    case Issue(s, c, l, u) =>
      if u in t.users then t.(sessions := t.sessions[s := u], codes := t.codes[c := u], links := t.links[l := u]) else t
  }

  lemma FreeAddress(t: Tables, email: string)
    requires !exists u :: Holds(t, u, email)
    ensures forall u :: u in t.users ==> t.users[u].email != email
  {
    forall u | u in t.users
      ensures t.users[u].email != email
    {
      assert !Holds(t, u, email);
    }
  }

  lemma PurgedKeeps(t: Tables, u: Account)
    requires WellFormed(t)
    ensures WellFormed(Purged(t, u)) && Purged(t, u).users == t.users
    ensures forall provider :: !Linked(Purged(t, u), u, provider)
  {
  }

  lemma SignedKeeps(t: Tables, u: Account, c: Claims)
    requires WellFormed(t) && u in t.users && !Clash(t, u, c)
    requires if c.id in t.identities then t.identities[c.id] == u else !Linked(t, u, c.id.provider)
    ensures WellFormed(Signed(t, u, c))
  {
    if c.verified {
      forall v | v in t.users && v != u
        ensures t.users[v].email != c.email
      {
        assert !Holds(t, v, c.email);
      }
    }
  }

  lemma CreatedKeeps(t: Tables, c: Claims)
    requires WellFormed(t) && c.id !in t.identities && !exists u :: Holds(t, u, c.email)
    ensures WellFormed(Created(t, c))
  {
    FreeAddress(t, c.email);
  }

  lemma NoClash(t: Tables, u: Account, c: Claims)
    requires WellFormed(t) && Holds(t, u, c.email)
    ensures !Clash(t, u, c)
  {
  }

  lemma LoginKeeps(t: Tables, c: Claims)
    requires WellFormed(t)
    ensures LoggedIn(t, c).Ok? ==> WellFormed(LoggedIn(t, c).value.1)
  {
    hide WellFormed, Signed, Created, Purged, Clash, Linked;
    OwnerExists(t, c.id);
    match Resolve(t, c)
    case Subject(u) =>
      if !Clash(t, u, c) { SignedKeeps(t, u, c); }
    case TakeOver(u) =>
      PurgedKeeps(t, u);
      PurgedForgets(t, u, c.id);
      NoClash(Purged(t, u), u, c);
      SignedKeeps(Purged(t, u), u, c);
    case Link(u) =>
      NoClash(t, u, c);
      SignedKeeps(t, u, c);
    case Create =>
      CreatedKeeps(t, c);
    case Refuse =>
  }

  lemma OwnerExists(t: Tables, i: Ident)
    requires WellFormed(t)
    ensures i in t.identities ==> t.identities[i] in t.users
  {
  }

  lemma PurgedForgets(t: Tables, u: Account, i: Ident)
    ensures i !in t.identities ==> i !in Purged(t, u).identities
  {
  }

  lemma SaveKeeps(t: Tables, u: Account, i: Ident)
    requires WellFormed(t) && u in t.users && CanSave(t, u, i)
    ensures WellFormed(t.(identities := t.identities[i := u]))
  {
  }

  lemma RegisterKeeps(t: Tables, email: string, name: string)
    requires WellFormed(t) && !exists u :: Holds(t, u, email)
    ensures WellFormed(t.(users := t.users[t.nextUser := User(email, false, name)], nextUser := t.nextUser + 1))
  {
    FreeAddress(t, email);
  }

  lemma PasswordKeeps(t: Tables, u: Account, subject: string)
    requires WellFormed(t) && u in t.users
    ensures WellFormed(t.(identities := t.identities[Ident(LOCAL, subject) := u]))
  {
  }

  // Sessions, codes and links are no part of the invariant, and an erase only removes.
  lemma FewerKeep(t: Tables, r: Tables)
    requires WellFormed(t) && r.users == t.users && r.nextUser == t.nextUser
    requires forall i :: i in r.identities ==> i in t.identities && r.identities[i] == t.identities[i]
    ensures WellFormed(r)
  {
  }

  lemma ApplyKeeps(t: Tables, op: Op)
    requires WellFormed(t)
    ensures WellFormed(Apply(t, op))
  {
    hide WellFormed, LoggedIn, CanSave;
    match op
    case Login(c) => LoginKeeps(t, c);
    case Save(u, i) =>
      if u in t.users && CanSave(t, u, i) { SaveKeeps(t, u, i); }
    case Erase(i) => FewerKeep(t, Erased(t, i));
    case Register(email, name) =>
      if !exists u :: Holds(t, u, email) { RegisterKeeps(t, email, name); }
    case SetPassword(u) =>
      if u in t.users { PasswordKeeps(t, u, Decimal.PrintNatural(u)); }
    case Issue(_, _, _, _) => FewerKeep(t, Apply(t, op));
  }

  ghost function Run(t: Tables, ops: seq<Op>): Tables
    requires WellFormed(t)
    decreases |ops|
  {
    if ops == [] then t
    else
      ApplyKeeps(t, ops[0]);
      Run(Apply(t, ops[0]), ops[1..])
  }

  /** Every run of logins, Saves, erases and registrations keeps the invariant. */
  lemma {:induction false} RunKeeps(t: Tables, ops: seq<Op>)
    requires WellFormed(t)
    ensures WellFormed(Run(t, ops))
    decreases |ops|
  {
    if ops != [] {
      ApplyKeeps(t, ops[0]);
      RunKeeps(Apply(t, ops[0]), ops[1..]);
    }
  }

  /** An unverified claim only ever reaches its own subject's account, or a new one. */
  lemma UnverifiedClaimStaysHome(t: Tables, c: Claims)
    requires WellFormed(t) && !c.verified && LoggedIn(t, c).Ok?
    ensures var u := LoggedIn(t, c).value.0;
            (c.id in t.identities && u == t.identities[c.id]) || u !in t.users
  {
  }

  /** A login never takes anything from an account that was verified before it. */
  lemma VerifiedAccountIsNeverPurged(t: Tables, c: Claims, v: Account)
    requires WellFormed(t) && LoggedIn(t, c).Ok? && v in t.users && t.users[v].verified
    ensures var next := LoggedIn(t, c).value.1;
            && (forall i :: i in t.identities && t.identities[i] == v ==>
                  i in next.identities && next.identities[i] == v)
            && (forall s :: s in t.sessions && t.sessions[s] == v ==> s in next.sessions && next.sessions[s] == v)
            && (forall k :: k in t.codes && t.codes[k] == v ==> k in next.codes && next.codes[k] == v)
            && (forall k :: k in t.links && t.links[k] == v ==> k in next.links && next.links[k] == v)
            && (forall i :: i in next.identities && next.identities[i] == v && i !in t.identities ==>
                              i == c.id && c.verified)
  {
    assert Resolve(t, c) != TakeOver(v);
  }

  /**
   A new subject that shows it owns the address of an account nobody showed to own takes the account over, and leaves
   it the login's own identity and nothing else.
   */
  lemma TakeOverLeavesNothing(t: Tables, c: Claims, u: Account)
    requires WellFormed(t) && c.id !in t.identities && c.verified && Holds(t, u, c.email) && !t.users[u].verified
    ensures LoggedIn(t, c).Ok? && LoggedIn(t, c).value.0 == u
    ensures var next := LoggedIn(t, c).value.1;
            && (forall i :: i in next.identities && next.identities[i] == u <==> i == c.id)
            && (forall s :: s in next.sessions ==> next.sessions[s] != u)
            && (forall k :: k in next.codes ==> next.codes[k] != u)
            && (forall k :: k in next.links ==> next.links[k] != u)
            && next.users[u].verified && next.users[u].email == c.email
  {
    assert forall v :: Holds(t, v, c.email) ==> v == u;
  }

  /**
   Whom a login answers: the subject's account; else the account of the address, if the claim is verified; else, at an
   address nobody holds, a new one.
   */
  lemma LoginAnswers(t: Tables, c: Claims)
    requires WellFormed(t) && LoggedIn(t, c).Ok?
    ensures var u := LoggedIn(t, c).value.0;
            if c.id in t.identities then u == t.identities[c.id]
            else if exists v :: Holds(t, v, c.email) then c.verified && Holds(t, u, c.email)
            else u == t.nextUser
  {
  }

  /** A login of a known subject fails exactly when its verified claim is to somebody else's address. */
  lemma KnownSubjectGetsIn(t: Tables, c: Claims)
    requires WellFormed(t) && c.id in t.identities
    ensures LoggedIn(t, c).Err? <==> c.verified && exists v :: v != t.identities[c.id] && Holds(t, v, c.email)
  {
  }

  /**
   What a login makes of its account's profile: a verified claim moves the address and verifies it, an unverified one
   does neither, and a name is taken unless it is empty.
   */
  lemma LoginRefreshes(t: Tables, c: Claims)
    requires WellFormed(t) && LoggedIn(t, c).Ok?
    ensures var (u, next) := LoggedIn(t, c).value;
            && u in next.users
            && (c.verified || u !in t.users ==> next.users[u].email == c.email)
            && (c.name != "" || u !in t.users ==> next.users[u].name == c.name)
            && (next.users[u].verified <==> c.verified || (u in t.users && t.users[u].verified))
            && (!c.verified && u in t.users ==> next.users[u].email == t.users[u].email)
            && (c.name == "" && u in t.users ==> next.users[u].name == t.users[u].name)
  {
    hide Linked, Clash, Purged, WellFormed;
    OwnerExists(t, c.id);
    match Resolve(t, c)
    case TakeOver(u) => PurgedUsers(t, u);
    case Create => NewIsNobody(t);
    case _ =>
  }

  lemma NewIsNobody(t: Tables)
    requires WellFormed(t)
    ensures t.nextUser !in t.users
  {
  }

  // The rows before and after, but for some keys: nothing is new, others' rows stay, and the account's own if kept.
  ghost predicate Spares<K(!new)>(before: map<K, Account>, after: map<K, Account>, u: Account, kept: bool, but: set<K>)
  {
    && (forall k :: k in after ==> k in before && after[k] == before[k])
    && (forall k :: k in before && k !in but && (kept || before[k] != u) ==> k in after)
  }

  // The account's rows and everybody's, in all four tables.
  ghost predicate SparesAll(t: Tables, next: Tables, u: Account, kept: bool, id: Ident) {
    && Spares(t.identities, next.identities - {id}, u, kept, {id}) && Spares(t.sessions, next.sessions, u, kept, {})
    && Spares(t.codes, next.codes, u, kept, {}) && Spares(t.links, next.links, u, kept, {})
  }

  lemma SignedSpares(t: Tables, u: Account, c: Claims)
    requires u in t.users
    ensures SparesAll(t, Signed(t, u, c), u, true, c.id)
  {
  }

  lemma TakenOverSpares(t: Tables, u: Account, c: Claims)
    requires u in t.users
    ensures SparesAll(t, Signed(Purged(t, u), u, c), u, false, c.id)
  {
  }

  lemma CreatedSpares(t: Tables, c: Claims)
    ensures SparesAll(t, Created(t, c), t.nextUser, true, c.id)
  {
  }

  /**
   What else it changes: nothing of another account; and of its own, unless it takes it over, it adds the identity and
   takes nothing.
   */
  lemma LoginTouchesOneAccount(t: Tables, c: Claims)
    requires WellFormed(t) && LoggedIn(t, c).Ok?
    ensures var (u, next) := LoggedIn(t, c).value;
            && (forall v :: v != u ==> (v in next.users <==> v in t.users))
            && (forall v :: v in t.users && v != u ==> next.users[v] == t.users[v])
            && c.id in next.identities && next.identities[c.id] == u
            && SparesAll(t, next, u, c.id in t.identities || u !in t.users || t.users[u].verified, c.id)
  {
    hide Linked, Clash, SparesAll;
    OwnerExists(t, c.id);
    match Resolve(t, c)
    case Subject(u) => SignedSpares(t, u, c);
    case TakeOver(u) =>
      hide Purged;
      PurgedUsers(t, u);
      TakenOverSpares(t, u, c);
    case Link(u) => SignedSpares(t, u, c);
    case Create => CreatedSpares(t, c);
    case Refuse =>
  }

  /** Which logins are turned away: those whose address belongs to somebody they cannot show they are. */
  lemma RefusedExactlyWhen(t: Tables, c: Claims)
    requires WellFormed(t)
    ensures LoggedIn(t, c) == Err(Refused) <==>
            c.id !in t.identities
            && exists u :: Holds(t, u, c.email) && (!c.verified || (t.users[u].verified && Linked(t, u, c.id.provider)))
  {
    if c.id !in t.identities && (exists u :: Holds(t, u, c.email)) {
      var u :| Holds(t, u, c.email);
      assert forall v :: Holds(t, v, c.email) ==> v == u;
    }
  }

  /** Signing in again resolves to the same account and changes nothing more. */
  lemma LoginIsIdempotent(t: Tables, c: Claims)
    requires WellFormed(t) && LoggedIn(t, c).Ok?
    ensures var (u, next) := LoggedIn(t, c).value;
            WellFormed(next) && LoggedIn(next, c) == Ok((u, next))
  {
    LoginKeeps(t, c);
    LoginLands(t, c);
    var (u, next) := LoggedIn(t, c).value;
    SignedAgain(next, u, c);
  }

  // After a login the identity is the account's, and the profile says what the claims say.
  lemma LoginLands(t: Tables, c: Claims)
    requires WellFormed(t) && LoggedIn(t, c).Ok?
    ensures var (u, next) := LoggedIn(t, c).value;
            && c.id in next.identities && next.identities[c.id] == u
            && u in next.users && Refreshed(next.users[u], c) == next.users[u]
  {
    hide Linked, Clash, Purged, WellFormed;
    OwnerExists(t, c.id);
    match Resolve(t, c)
    case TakeOver(u) => PurgedUsers(t, u);
    case _ =>
  }

  lemma SignedAgain(t: Tables, u: Account, c: Claims)
    requires WellFormed(t) && c.id in t.identities && t.identities[c.id] == u
    requires Refreshed(t.users[u], c) == t.users[u]
    ensures LoggedIn(t, c) == Ok((u, t))
  {
    if c.verified {
      NoClash(t, u, c);
    }
    assert t.users[u := Refreshed(t.users[u], c)] == t.users;
    assert t.identities[c.id := u] == t.identities;
  }

  // A verified claim of one of the account's own subjects is the only thing that moves its address.
  predicate MovesAddress(t: Tables, op: Op, v: Account) {
    op.Login? && op.claims.verified && op.claims.id in t.identities && t.identities[op.claims.id] == v
  }

  lemma LoginOnAccount(t: Tables, c: Claims, v: Account)
    requires WellFormed(t) && v in t.users && LoggedIn(t, c).Ok?
    ensures var next := LoggedIn(t, c).value.1;
            && v in next.users
            && (t.users[v].verified ==> next.users[v].verified)
            && (next.users[v].email != t.users[v].email ==>
                  MovesAddress(t, Login(c), v) && next.users[v].email == c.email)
  {
    hide Linked, Purged;
    match Resolve(t, c)
    case TakeOver(u) => PurgedUsers(t, u);
    case _ =>
  }

  lemma PurgedUsers(t: Tables, u: Account)
    ensures Purged(t, u).users == t.users && Purged(t, u).nextUser == t.nextUser
  {
  }

  lemma StepOnAccount(t: Tables, op: Op, v: Account)
    requires WellFormed(t) && v in t.users
    ensures var next := Apply(t, op);
            && v in next.users
            && (t.users[v].verified ==> next.users[v].verified)
            && (next.users[v].email != t.users[v].email ==> MovesAddress(t, op, v))
  {
    hide Resolve, LoggedIn;
    if op.Login? && LoggedIn(t, op.claims).Ok? {
      LoginOnAccount(t, op.claims, v);
    }
  }

  ghost predicate ClaimsNothingFor(t: Tables, ops: seq<Op>, v: Account)
    requires WellFormed(t)
    decreases |ops|
  {
    ops == []
    || (!MovesAddress(t, ops[0], v)
        && (ApplyKeeps(t, ops[0]); ClaimsNothingFor(Apply(t, ops[0]), ops[1..], v)))
  }

  /**
   Over every run an account, once there, stays; it stays verified once verified; and its address stands
   unless a verified claim of one of its own subjects moved it.
   */
  lemma {:induction false} AccountsOverARun(t: Tables, ops: seq<Op>, v: Account)
    requires WellFormed(t) && v in t.users
    ensures v in Run(t, ops).users
    ensures t.users[v].verified ==> Run(t, ops).users[v].verified
    ensures ClaimsNothingFor(t, ops, v) ==> Run(t, ops).users[v].email == t.users[v].email
    decreases |ops|
  {
    if ops != [] {
      ApplyKeeps(t, ops[0]);
      StepOnAccount(t, ops[0], v);
      AccountsOverARun(Apply(t, ops[0]), ops[1..], v);
    }
  }

  /**
   A federated Save is let through exactly when it neither takes the identity from its account nor gives an account a
   provider twice.
   */
  lemma SavedExactlyWhen(t: Tables, u: Account, i: Ident)
    requires WellFormed(t) && u in t.users && i.provider != LOCAL
    ensures CanSave(t, u, i) <==>
            (i in t.identities ==> t.identities[i] == u)
            && OneSubjectPerProvider(t.(identities := t.identities[i := u]))
  {
    if i !in t.identities && Linked(t, u, i.provider) {
      var j :| j in t.identities && t.identities[j] == u && j.provider == i.provider;
      var next := t.identities[i := u];
      assert next[j] == next[i] == u && i != j;
    } else if i in t.identities && t.identities[i] == u {
      assert t.identities[i := u] == t.identities;
    }
  }

  /** An erase takes one identity and the account's credentials, and nothing of anybody else's. */
  lemma EraseTakesOneAccount(t: Tables, i: Ident)
    requires WellFormed(t) && i in t.identities
    ensures var u, next := t.identities[i], Erased(t, i);
            && next.users == t.users && next.nextUser == t.nextUser
            && (forall j :: j in next.identities <==> j in t.identities && j != i)
            && (forall j :: j in next.identities ==> next.identities[j] == t.identities[j])
            && (forall s :: s in next.sessions <==> s in t.sessions && t.sessions[s] != u)
            && (forall k :: k in next.codes <==> k in t.codes && t.codes[k] != u)
            && (forall k :: k in next.links <==> k in t.links && t.links[k] != u)
            && (forall s :: s in next.sessions ==> next.sessions[s] == t.sessions[s])
            && (forall k :: k in next.codes ==> next.codes[k] == t.codes[k])
            && (forall k :: k in next.links ==> next.links[k] == t.links[k])
            && Erased(next, i) == next
  {
  }
}

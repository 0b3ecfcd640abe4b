/**
 Sessions of porte/session over the table of porte/pg: issue, authenticate by cookie or by bearer, sweep, revoke.
 Times are nanoseconds.
 */
module Sessions {
  import opened Wrappers

  const MINUTE := 60_000_000_000
  const DEFAULT_IDLE := 7 * 24 * 60 * MINUTE

  type Hash = string

  // A name makes a session a named API token, which has no expiry.
  datatype Session = Session(id: nat, user: nat, name: string, lastUsed: int, expires: Option<int>)

  // Who vouches for a session about to be issued: nobody, an identity, or the session that issues it.
  datatype Template = Template(user: nat, name: string, provider: string, subject: string, issuedBy: nat)

  // The signed-in caller of a request: by a session, or by a bearer JWT (session 0, a subject).
  datatype Caller = Caller(user: nat, session: nat, subject: string)

  datatype Config = Config(issuer: string, ttl: int, idleTTL: int)

  function IdleTimeout(cfg: Config): int {
    if cfg.idleTTL < 0 then 0 else if cfg.idleTTL == 0 then DEFAULT_IDLE else cfg.idleTTL
  }

  /******* Binding *******/

  /** What a named token is bound to: the caller's session or identity, where the template says nothing. */
  function BindToCaller(cfg: Config, caller: Option<Caller>, t: Template): Template {
    if caller.None? || t.name == "" || t.provider != "" || t.issuedBy != 0 || caller.value.user != t.user then t
    else if caller.value.session != 0 then t.(issuedBy := caller.value.session)
    else if caller.value.subject != "" then t.(provider := cfg.issuer, subject := caller.value.subject)
    else t
  }

  predicate Bound(t: Template) {
    t.provider != "" || t.issuedBy != 0
  }

  /** So a named token for oneself is always bound when the caller has a session, or a subject and an issuer. */
  lemma NamedTokensAreBound(cfg: Config, caller: Caller, t: Template)
    requires t.name != "" && caller.user == t.user
    ensures Bound(BindToCaller(cfg, Some(caller), t)) <==>
      Bound(t) || caller.session != 0 || (caller.subject != "" && cfg.issuer != "")
    ensures Bound(t) ==> BindToCaller(cfg, Some(caller), t) == t
    ensures !Bound(t) && caller.session != 0 ==> BindToCaller(cfg, Some(caller), t) == t.(issuedBy := caller.session)
    ensures !Bound(t) && caller.session == 0 && caller.subject != "" ==>
      BindToCaller(cfg, Some(caller), t) == t.(provider := cfg.issuer, subject := caller.subject)
  {
  }

  /** Nobody else's token, and no login, is bound to the caller. */
  lemma OthersAreNotBound(cfg: Config, caller: Option<Caller>, t: Template)
    requires t.name == "" || caller.None? || caller.value.user != t.user
    ensures BindToCaller(cfg, caller, t) == t
  {
  }

  /******* Authentication *******/

  datatype Transport = Cookie | Bearer

  datatype Request = Request(transport: Transport, hash: Hash, now: int, mutating: bool, csrf: bool)

  // What the store failed to do: find, delete or touch.
  datatype Faults = Faults(find: bool, delete: bool, touch: bool)

  const WORKING := Faults(false, false, false)

  datatype Answer = In(user: nat, session: nat) | NoHeader | NoSession | Over | Failure

  predicate Expired(s: Session, now: int) {
    s.expires.Some? && now > s.expires.value
  }

  predicate IdledOut(cfg: Config, s: Session, transport: Transport, now: int) {
    transport.Cookie? && IdleTimeout(cfg) > 0 && now - s.lastUsed >= IdleTimeout(cfg)
  }

  type Table = map<Hash, Session>

  // The statement Touch runs: the column moves only if it is more than a minute behind.
  function Touched(t: Table, hash: Hash, at: int): Table {
    if hash in t && t[hash].lastUsed < at - MINUTE then t[hash := t[hash].(lastUsed := at)] else t
  }

  function Authenticated(cfg: Config, t: Table, r: Request, f: Faults): (Table, Answer) {
    if r.transport.Cookie? && r.mutating && !r.csrf then (t, NoHeader)
    else if f.find then (t, Failure)
    else if r.hash !in t then (t, NoSession)
    else
      var s := t[r.hash];
      if Expired(s, r.now) || IdledOut(cfg, s, r.transport, r.now) then (if f.delete then t else t - {r.hash}, Over)
      else (if f.touch || r.now - s.lastUsed < MINUTE then t else Touched(t, r.hash, r.now), In(s.user, s.id))
  }

  function Swept(t: Table, now: int): Table {
    map h | h in t && !(t[h].expires.Some? && t[h].expires.value < now) :: t[h]
  }

  /******* Runs *******/

  // The table, every hash ever issued, when each was truly last used, the ones refused as dead, the clock.
  datatype State = State(t: Table, used: set<Hash>, lastUse: map<Hash, int>, refused: set<Hash>, now: int)

  datatype Op =
    | Issue(hash: Hash, session: Session, now: int)
    | Authenticate(request: Request, faults: Faults)
    | Sweep(now: int)
    | Revoke(hashes: set<Hash>, now: int)

  function When(op: Op): int {
    match op
    case Issue(_, _, now) => now
    case Authenticate(r, _) => r.now
    case Sweep(now) => now
    case Revoke(_, now) => now
  }

  // A token is random, a new session was last used now, and the clock does not go back.
  predicate Possible(s: State, op: Op) {
    When(op) >= s.now && (op.Issue? ==> op.hash !in s.used && op.session.lastUsed == op.now)
  }

  function Step(cfg: Config, s: State, op: Op): State {
    match op
    case Issue(hash, session, now) =>
      s.(t := s.t[hash := session], used := s.used + {hash}, lastUse := s.lastUse[hash := now], now := now)
    case Authenticate(r, f) =>
      var (t, answer) := Authenticated(cfg, s.t, r, f);
      s.(t := t, now := r.now,
         lastUse := if answer.In? then s.lastUse[r.hash := r.now] else s.lastUse,
         refused := if answer.Over? then s.refused + {r.hash} else s.refused)
    case Sweep(now) => s.(t := Swept(s.t, now), now := now)
    case Revoke(hashes, now) => s.(t := s.t - hashes, now := now)
  }

  predicate AllPossible(cfg: Config, s: State, ops: seq<Op>)
    decreases |ops|
  {
    ops == [] || (Possible(s, ops[0]) && AllPossible(cfg, Step(cfg, s, ops[0]), ops[1..]))
  }

  function Run(cfg: Config, s: State, ops: seq<Op>): State
    decreases |ops|
  {
    if ops == [] then s else Run(cfg, Step(cfg, s, ops[0]), ops[1..])
  }

  predicate Working(ops: seq<Op>) {
    forall op :: op in ops && op.Authenticate? ==> op.faults == WORKING
  }

  ghost predicate Sound(s: State) {
    && (forall h :: h in s.t ==> h in s.used && h in s.lastUse && s.t[h].lastUsed <= s.lastUse[h] <= s.now)
    && s.refused <= s.used
  }

  /** With a working store the column trails the true last use by at most a minute, and the refused are gone. */
  ghost predicate Exact(s: State) {
    && Sound(s)
    && (forall h :: h in s.t ==> s.lastUse[h] - MINUTE <= s.t[h].lastUsed)
    && (forall h :: h in s.refused ==> h !in s.t)
  }

  lemma StepIsExact(cfg: Config, s: State, op: Op)
    requires Exact(s) && Possible(s, op) && (op.Authenticate? ==> op.faults == WORKING)
    ensures Exact(Step(cfg, s, op))
  {
  }

  lemma {:induction false} RunIsExact(cfg: Config, s: State, ops: seq<Op>)
    requires Exact(s) && AllPossible(cfg, s, ops) && Working(ops)
    ensures Exact(Run(cfg, s, ops))
    decreases |ops|
  {
    if ops != [] {
      assert ops[0] in ops;
      StepIsExact(cfg, s, ops[0]);
      hide Exact, Step, Possible;
      RunIsExact(cfg, Step(cfg, s, ops[0]), ops[1..]);
    }
  }

  const START := State(map[], {}, map[], {}, 1)

  /** A cookie unused for the idle window is refused, whatever was used meanwhile. */
  lemma UnusedIsRefused(cfg: Config, ops: seq<Op>, r: Request)
    requires AllPossible(cfg, START, ops) && Working(ops) && r.transport.Cookie? && IdleTimeout(cfg) > 0
    requires var s := Run(cfg, START, ops);
      r.hash in s.lastUse && r.now >= s.now && r.now - s.lastUse[r.hash] >= IdleTimeout(cfg)
    ensures !Authenticated(cfg, Run(cfg, START, ops).t, r, WORKING).1.In?
  {
    RunIsExact(cfg, START, ops);
  }

  /** One used within the window less a minute is never idled out: only its expiry or its end refuses it. */
  lemma UsedIsKept(cfg: Config, ops: seq<Op>, r: Request)
    requires AllPossible(cfg, START, ops) && Working(ops) && r.transport.Cookie? && (r.mutating ==> r.csrf)
    requires var s := Run(cfg, START, ops);
      r.hash in s.lastUse && r.now >= s.now && r.now - s.lastUse[r.hash] < IdleTimeout(cfg) - MINUTE
    ensures var s := Run(cfg, START, ops);
      Authenticated(cfg, s.t, r, WORKING).1.In? <==> r.hash in s.t && !Expired(s.t[r.hash], r.now)
  {
    RunIsExact(cfg, START, ops);
  }

  /** An expired session stays refused, whatever fails: nothing moves an expiry. */
  lemma {:induction false} ExpiredForGood(cfg: Config, s: State, ops: seq<Op>, r: Request, f: Faults)
    requires AllPossible(cfg, s, ops) && Run(cfg, s, ops).now <= r.now && r.hash in s.used
    requires r.hash in s.t ==> Expired(s.t[r.hash], s.now)
    ensures !Authenticated(cfg, Run(cfg, s, ops).t, r, f).1.In?
    decreases |ops|
  {
    if ops != [] {
      ExpiredForGood(cfg, Step(cfg, s, ops[0]), ops[1..], r, f);
    }
  }

  // A hash once issued is never issued again.
  lemma {:induction false} GoneForGood(cfg: Config, s: State, ops: seq<Op>, r: Request, f: Faults)
    requires AllPossible(cfg, s, ops) && r.hash in s.used && r.hash !in s.t
    ensures !Authenticated(cfg, Run(cfg, s, ops).t, r, f).1.In?
    decreases |ops|
  {
    if ops != [] {
      GoneForGood(cfg, Step(cfg, s, ops[0]), ops[1..], r, f);
    }
  }

  lemma {:induction false} RunIsSound(cfg: Config, s: State, ops: seq<Op>)
    requires Sound(s) && AllPossible(cfg, s, ops)
    ensures Sound(Run(cfg, s, ops)) && s.now <= Run(cfg, s, ops).now
    decreases |ops|
  {
    if ops != [] {
      StepIsSound(cfg, s, ops[0]);
      RunIsSound(cfg, Step(cfg, s, ops[0]), ops[1..]);
    }
  }

  lemma StepIsSound(cfg: Config, s: State, op: Op)
    requires Sound(s) && Possible(s, op)
    ensures Sound(Step(cfg, s, op)) && s.now <= Step(cfg, s, op).now
  {
  }

  // After some operations, whatever fails in them, a request with the hash is let in.
  ghost predicate LetsIn(cfg: Config, s: State, ops: seq<Op>, r: Request, f: Faults) {
    AllPossible(cfg, s, ops) && r.now >= Run(cfg, s, ops).now && Authenticated(cfg, Run(cfg, s, ops).t, r, f).1.In?
  }

  ghost predicate ComesBack(cfg: Config, s: State, hash: Hash) {
    exists ops, r, f :: LetsIn(cfg, s, ops, r, f) && r.hash == hash
  }

  /**
   A session refused as dead, after any run with any faults, can ever be let in again if and only if the store failed
   to delete it then and it was refused for idling rather than expired.
   */
  lemma RefusedForGood(cfg: Config, ops: seq<Op>, r: Request, f: Faults)
    requires AllPossible(cfg, START, ops) && r.now >= Run(cfg, START, ops).now
    requires Authenticated(cfg, Run(cfg, START, ops).t, r, f).1.Over?
    ensures var s := Run(cfg, START, ops);
      ComesBack(cfg, Step(cfg, s, Authenticate(r, f)), r.hash) <==> f.delete && !Expired(s.t[r.hash], r.now)
  {
    RunIsSound(cfg, START, ops);
    RefusedOnceForGood(cfg, Run(cfg, START, ops), r, f);
  }

  lemma RefusedOnceForGood(cfg: Config, s: State, r: Request, f: Faults)
    requires r.hash in s.used && r.now >= s.now && Authenticated(cfg, s.t, r, f).1.Over?
    ensures ComesBack(cfg, Step(cfg, s, Authenticate(r, f)), r.hash) <==> f.delete && !Expired(s.t[r.hash], r.now)
  {
    var later := Step(cfg, s, Authenticate(r, f));
    if f.delete && !Expired(s.t[r.hash], r.now) {
      assert LetsIn(cfg, later, [], r.(transport := Bearer), WORKING);
    } else {
      forall ops, q, g | LetsIn(cfg, later, ops, q, g)
        ensures q.hash != r.hash
      {
        if q.hash == r.hash && !f.delete {
          GoneForGood(cfg, later, ops, q, g);
        } else if q.hash == r.hash {
          ExpiredForGood(cfg, later, ops, q, g);
        }
      }
    }
  }

  /**
   The way back: a bearer request with the same token touches the session, and then the very cookie that was refused
   for idling authenticates again.
   */
  lemma FailedDeleteRevives(cfg: Config, s: State, hash: Hash, now: int)
    requires hash in s.t && !Expired(s.t[hash], now) && now - s.t[hash].lastUsed >= IdleTimeout(cfg) > MINUTE
    ensures var cookie := Request(Cookie, hash, now, false, false);
      var dead := Authenticated(cfg, s.t, cookie, Faults(false, true, false));
      var bearer := Authenticated(cfg, dead.0, cookie.(transport := Bearer), WORKING);
      dead.1 == Over && Authenticated(cfg, bearer.0, cookie, WORKING).1.In?
  {
  }

  /** When each answer is given; the request is read by the row of its hash, if there is one. */
  lemma AnsweredExactly(cfg: Config, t: Table, r: Request, f: Faults)
    ensures var (next, answer) := Authenticated(cfg, t, r, f);
      && (answer == NoHeader <==> r.transport.Cookie? && r.mutating && !r.csrf)
      && (answer == Failure <==> answer != NoHeader && f.find)
      && (answer == NoSession <==> answer != NoHeader && !f.find && r.hash !in t)
      && (answer.Over? <==>
            && answer != NoHeader && !f.find && r.hash in t
            && (Past(t[r.hash].expires, r.now) || (r.transport.Cookie? && Idle(cfg, t[r.hash], r.now))))
      && (answer.In? ==> r.hash in t && answer == In(t[r.hash].user, t[r.hash].id))
  {
  }

  predicate Past(expires: Option<int>, now: int) {
    match expires
    case None => false
    case Some(at) => now > at
  }

  // Unused for as long as is configured: a week if nothing is, and never if it is negative.
  predicate Idle(cfg: Config, s: Session, now: int) {
    cfg.idleTTL >= 0 && now - s.lastUsed >= if cfg.idleTTL == 0 then 7 * 24 * 60 * MINUTE else cfg.idleTTL
  }

  /** What it does to the table: a refusal deletes the row, and a use moves a column more than a minute behind. */
  lemma AuthenticatedRow(cfg: Config, t: Table, r: Request, f: Faults)
    ensures var (next, answer) := Authenticated(cfg, t, r, f);
      && (forall h :: h != r.hash ==> (h in next <==> h in t) && (h in t ==> next[h] == t[h]))
      && (r.hash in t && !(answer.Over? && !f.delete) ==> r.hash in next)
      && (r.hash in next ==>
            && r.hash in t && !(answer.Over? && !f.delete)
            && next[r.hash] ==
               if answer.In? && !f.touch && t[r.hash].lastUsed < r.now - MINUTE then t[r.hash].(lastUsed := r.now)
               else t[r.hash])
  {
  }

  // What a session is besides its use.
  predicate SameSession(s: Session, issued: Session) {
    s.id == issued.id && s.user == issued.user && s.name == issued.name && s.expires == issued.expires
  }

  ghost predicate IssuedIn(ops: seq<Op>, hash: Hash, s: Session) {
    exists op :: op in ops && op.Issue? && op.hash == hash && SameSession(s, op.session)
  }

  lemma StepRows(cfg: Config, s: State, op: Op, hash: Hash)
    requires hash in Step(cfg, s, op).t
    ensures (op.Issue? && op.hash == hash && SameSession(Step(cfg, s, op).t[hash], op.session))
            || (hash in s.t && SameSession(Step(cfg, s, op).t[hash], s.t[hash]))
  {
  }

  lemma {:induction false} RowsAreIssued(cfg: Config, s: State, ops: seq<Op>, hash: Hash)
    requires hash in Run(cfg, s, ops).t
    ensures var row := Run(cfg, s, ops).t[hash];
      IssuedIn(ops, hash, row) || (hash in s.t && SameSession(row, s.t[hash]))
    decreases |ops|
  {
    if ops != [] {
      RowsAreIssued(cfg, Step(cfg, s, ops[0]), ops[1..], hash);
      var row := Run(cfg, s, ops).t[hash];
      assert ops == [ops[0]] + ops[1..];
      if IssuedIn(ops[1..], hash, row) {
        var op :| op in ops[1..] && op.Issue? && op.hash == hash && SameSession(row, op.session);
        assert op in ops;
      } else {
        StepRows(cfg, s, ops[0], hash);
        assert ops[0] in ops;
      }
    }
  }

  /**
   Whoever is let in, after any run with any faults, is the user of the session issued with that very hash, under its
   id, and not past the expiry it was issued with.
   */
  lemma LetInAsIssued(cfg: Config, ops: seq<Op>, r: Request, f: Faults)
    requires Authenticated(cfg, Run(cfg, START, ops).t, r, f).1.In?
    ensures exists op ::
      && op in ops && op.Issue? && op.hash == r.hash && !Past(op.session.expires, r.now)
      && Authenticated(cfg, Run(cfg, START, ops).t, r, f).1 == In(op.session.user, op.session.id)
  {
    RowsAreIssued(cfg, START, ops, r.hash);
    AnsweredExactly(cfg, Run(cfg, START, ops).t, r, f);
    var row := Run(cfg, START, ops).t[r.hash];
    var op :| op in ops && op.Issue? && op.hash == r.hash && SameSession(row, op.session);
  }

  /** Sweeping deletes only what would be refused from then on, and all that expired before. */
  lemma SweepNeverShows(cfg: Config, t: Table, now: int, r: Request, f: Faults)
    requires r.now >= now
    ensures Authenticated(cfg, Swept(t, now), r, f).1.In? <==> Authenticated(cfg, t, r, f).1.In?
    ensures Authenticated(cfg, t, r, f).1.In? ==>
      Authenticated(cfg, Swept(t, now), r, f).1 == Authenticated(cfg, t, r, f).1
    ensures forall h :: h in Swept(t, now) ==> h in t && Swept(t, now)[h] == t[h]
    ensures forall h :: h in t ==> (h !in Swept(t, now) <==> Past(t[h].expires, now))
  {
  }

  /******* The manager *******/

  class Manager {
    const cfg: Config
    var t: Table
    var identities: map<(string, string), nat>
    var nextID: nat

    constructor (config: Config)
      ensures t == map[] && cfg == config && nextID == 1
    {
      cfg, t, identities, nextID := config, map[], map[], 1;
    }

    predicate Vouched(b: Template)
      reads this
    {
      if b.provider != "" then
        (b.provider, b.subject) in identities && identities[(b.provider, b.subject)] == b.user
      else if b.issuedBy != 0 then exists h :: h in t && t[h].id == b.issuedBy && t[h].user == b.user
      else true
    }

    /**
     Stores a session for the template, bound to the caller where it should be, only while what vouches for it
     exists. Only a login gets an expiry.
     */
    method IssueFor(caller: Option<Caller>, template: Template, hash: Hash, now: int)
      returns (session: Option<Session>)
      requires hash !in t
      modifies this`t, this`nextID
      ensures session.Some? <==> old(Vouched(BindToCaller(cfg, caller, template)))
      ensures session.Some? ==>
        var bound := BindToCaller(cfg, caller, template);
        && (bound.provider != "" ==>
              (bound.provider, bound.subject) in identities
              && identities[(bound.provider, bound.subject)] == template.user)
        && (bound.provider == "" && bound.issuedBy != 0 ==>
              exists h :: h in old(t) && old(t)[h].id == bound.issuedBy && old(t)[h].user == template.user)
      ensures t == if session.Some? then old(t)[hash := session.value] else old(t)
      ensures session.Some? ==> session.value.id == old(nextID) < nextID && session.value == Session(
        old(nextID), template.user, template.name, now, if template.name == "" then Some(now + cfg.ttl) else None)
    {
      var bound := BindToCaller(cfg, caller, template);
      if !Vouched(bound) {
        return None;
      }
      var expires := if bound.name == "" then Some(now + cfg.ttl) else None;
      session := Some(Session(nextID, bound.user, bound.name, now, expires));
      t := t[hash := session.value];
      nextID := nextID + 1;
    }

    method Find(hash: Hash) returns (session: Option<Session>, failed: bool)
      ensures !failed ==> session == if hash in t then Some(t[hash]) else None
    {
      failed := *;
      session := if hash in t then Some(t[hash]) else None;
    }

    method Delete(hash: Hash) returns (failed: bool)
      modifies this`t
      ensures t == if failed then old(t) else old(t) - {hash}
    {
      failed := *;
      if !failed {
        t := t - {hash};
      }
    }

    method Touch(hash: Hash, at: int) returns (failed: bool)
      modifies this`t
      ensures t == if failed then old(t) else Touched(old(t), hash, at)
    {
      failed := *;
      if !failed && hash in t && t[hash].lastUsed < at - MINUTE {
        t := t[hash := t[hash].(lastUsed := at)];
      }
    }

    /** Resolves the credential of a request; a failed delete or touch is logged and forgotten. */
    method Authenticate(r: Request) returns (answer: Answer, faults: Faults)
      modifies this`t
      ensures (t, answer) == Authenticated(cfg, old(t), r, faults)
    {
      faults := WORKING;
      if r.transport.Cookie? && r.mutating && !r.csrf {
        return NoHeader, faults;
      }
      var stored, failed := Find(r.hash);
      faults := faults.(find := failed);
      if failed {
        return Failure, faults;
      }
      if stored.None? {
        return NoSession, faults;
      }
      if Expired(stored.value, r.now) || IdledOut(cfg, stored.value, r.transport, r.now) {
        failed := Delete(r.hash);
        return Over, faults.(delete := failed);
      }
      if r.now - stored.value.lastUsed >= MINUTE {
        failed := Touch(r.hash, r.now);
        faults := faults.(touch := failed);
      }
      answer := In(stored.value.user, stored.value.id);
    }
  }
}

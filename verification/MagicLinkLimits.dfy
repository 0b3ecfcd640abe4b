/** The request limits of porte/magiclink over serialised requests, and why sweeping stale links never shows. */
module MagicLinkLimits {
  import opened Wrappers
  import opened MagicLinks

  datatype Config = Config(ttl: int, maxPerEmail: int, maxPerIP: int)

  predicate Sane(cfg: Config) {
    cfg.ttl > 0 && cfg.maxPerEmail > 0 && cfg.maxPerIP > 0
  }

  // Requests for an address (user 0 is an address without an account), consumes, and sweeps.
  datatype Op =
    | Request(hash: Hash, user: nat, ip: string, at: int)
    | Redeem(hash: Hash, allowed: bool, at: int)
    | Clean(cutoff: int, at: int)

  datatype Outcome = Issued(link: Link) | Quiet | SignedIn(user: nat) | Invalid | Cleaned

  predicate WithinLimits(cfg: Config, rows: seq<Row>, user: nat, ip: string, now: int) {
    && CountSince(rows, Key(user, ""), now - WINDOW) < cfg.maxPerEmail
    && CountSince(rows, Key(0, ip), now - WINDOW) < cfg.maxPerIP
  }

  // The token is spent even when the app then refuses the user.
  function Serve(cfg: Config, rows: seq<Row>, op: Op): (seq<Row>, Outcome) {
    match op
    case Request(hash, user, ip, now) =>
      if user == 0 || !WithinLimits(cfg, rows, user, ip, now) then (rows, Quiet)
      else
        var link := Link(hash, user, ip, now, now + cfg.ttl);
        (Created(rows, link), Issued(link))
    case Redeem(hash, allowed, now) =>
      var i := Spent(rows, hash, now);
      (Consumed(rows, hash, now), if i < |rows| && allowed then SignedIn(rows[i].link.user) else Invalid)
    case Clean(cutoff, now) => (Swept(rows, cutoff), Cleaned)
  }

  /**
   A request issues exactly for a known account with fewer links in the last hour than the limit, from a source that is
   unknown or has fewer too; a link is the account's, lives so long, and ends the account's earlier ones.
   */
  lemma RequestExactly(cfg: Config, rows: seq<Row>, hash: Hash, user: nat, ip: string, now: int)
    requires Sane(cfg)
    ensures var (next, outcome) := Serve(cfg, rows, Request(hash, user, ip, now));
      var link := Link(hash, user, ip, now, now + cfg.ttl);
      && (outcome == Issued(link) <==>
            && user != 0 && |RowsSince(rows, Key(user, ""), now - WINDOW)| < cfg.maxPerEmail
            && (ip == "" || |RowsSince(rows, Key(0, ip), now - WINDOW)| < cfg.maxPerIP))
      && (outcome != Issued(link) ==> outcome == Quiet && next == rows)
      && (outcome == Issued(link) ==> next == Created(rows, link))
  {
    if user != 0 {
      CountSinceMeans(rows, Key(user, ""), now - WINDOW);
    }
    if ip != "" {
      CountSinceMeans(rows, Key(0, ip), now - WINDOW);
    }
    hide CountSince, RowsSince, Created;
    NoKeyCounts(rows, now - WINDOW);
  }

  lemma NoKeyCounts(rows: seq<Row>, since: int)
    ensures CountSince(rows, Key(0, ""), since) == 0
  {
  }

  /**
   A consume signs in exactly an allowed user with a live link, as the account of that link; the link is spent whether
   or not the user is allowed, and without one nothing changes.
   */
  lemma RedeemExactly(cfg: Config, rows: seq<Row>, hash: Hash, allowed: bool, now: int, i: int)
    ensures var (next, outcome) := Serve(cfg, rows, Redeem(hash, allowed, now));
      && (LiveAt(rows, hash, now, i) ==>
            && outcome == (if allowed then SignedIn(rows[i].link.user) else Invalid)
            && next == rows[i := Row(rows[i].link, Some(now))])
      && ((forall j :: !LiveAt(rows, hash, now, j)) ==> outcome == Invalid && next == rows)
  {
    ConsumedMeans(rows, hash, now, i);
  }

  /******* Any window of an hour *******/

  // The table, every link ever issued, and the clock.
  datatype State = State(rows: seq<Row>, log: seq<Link>, now: int)

  function Next(cfg: Config, s: State, op: Op): State {
    var (rows, outcome) := Serve(cfg, s.rows, op);
    State(rows, if outcome.Issued? then s.log + [outcome.link] else s.log, op.at)
  }

  // The clock does not go back, and a sweep leaves the last hour.
  predicate Timely(now: int, op: Op) {
    op.at >= now && (op.Clean? ==> op.cutoff <= op.at - WINDOW)
  }

  predicate AllTimely(now: int, ops: seq<Op>)
    decreases |ops|
  {
    ops == [] || (Timely(now, ops[0]) && AllTimely(ops[0].at, ops[1..]))
  }

  function Run(cfg: Config, s: State, ops: seq<Op>): State
    decreases |ops|
  {
    if ops == [] then s else Run(cfg, Next(cfg, s, ops[0]), ops[1..])
  }

  // Every link lives at least so long.
  ghost predicate Lasting(rows: seq<Row>, life: int) {
    forall i :: 0 <= i < |rows| ==> rows[i].link.created + life <= rows[i].link.expires
  }

  // For any span of the last hour, the table counts what was issued.
  ghost predicate Accurate(s: State) {
    forall key, from :: from >= s.now - WINDOW ==>
      Tally(Links(s.rows), Span(key, from, None)) == Tally(s.log, Span(key, from, None))
  }

  function Hour(key: Key, from: int): Span {
    Span(key, from, Some(from + WINDOW))
  }

  /** In any closed hour at most so many links per account and per known source address. */
  ghost predicate Limited(cfg: Config, log: seq<Link>) {
    && (forall user, from :: user > 0 ==>
          Tally(log, Hour(Key(user, ""), from)) <= cfg.maxPerEmail)
    && (forall ip, from :: ip != "" ==>
          Tally(log, Hour(Key(0, ip), from)) <= cfg.maxPerIP)
  }

  ghost predicate Kept(cfg: Config, s: State) {
    && Lasting(s.rows, 1) && Accurate(s) && Limited(cfg, s.log)
    && forall l :: l in s.log ==> l.created <= s.now
  }

  lemma LinksSwept(rows: seq<Row>, cutoff: int, sp: Span)
    requires forall i :: 0 <= i < |rows| && Counts(sp, rows[i].link) ==> rows[i].link.expires >= cutoff
    ensures Tally(Links(Swept(rows, cutoff)), sp) == Tally(Links(rows), sp)
  {
    if rows != [] {
      LinksSwept(rows[1..], cutoff, sp);
      assert Links(rows) == [rows[0].link] + Links(rows[1..]);
      TallyFirst(rows[0].link, Links(rows[1..]), sp);
      if rows[0].link.expires >= cutoff {
        var rest := Swept(rows[1..], cutoff);
        assert Links([rows[0]] + rest) == [rows[0].link] + Links(rest);
        TallyFirst(rows[0].link, Links(rest), sp);
      }
    }
  }

  lemma {:induction false} TallyFirst(link: Link, links: seq<Link>, sp: Span)
    ensures Tally([link] + links, sp) == Tally(links, sp) + if Counts(sp, link) then 1 else 0
  {
    if links == [] {
      assert [link] + links == links + [link];
      TallyOneMore([], link, sp);
    } else {
      var last := |links| - 1;
      TallyFirst(link, links[..last], sp);
      assert ([link] + links)[..last + 1] == [link] + links[..last];
    }
  }

  lemma {:induction false} SweptLasts(rows: seq<Row>, cutoff: int, life: int)
    requires Lasting(rows, life)
    ensures Lasting(Swept(rows, cutoff), life)
  {
    if rows != [] {
      SweptLasts(rows[1..], cutoff, life);
    }
  }

  lemma LinksCreated(rows: seq<Row>, link: Link)
    ensures Links(Created(rows, link)) == Links(rows) + [link]
  {
  }

  lemma LinksConsumed(rows: seq<Row>, hash: Hash, now: int)
    ensures Links(Consumed(rows, hash, now)) == Links(rows)
  {
  }

  // One more link keeps a limit: every link of the window was created within an hour of it.
  lemma OneMoreWithin(log: seq<Link>, link: Link, key: Key, from: int, max: int)
    requires forall l :: l in log ==> l.created <= link.created
    requires Matches(link, key) ==> Tally(log, Span(key, link.created - WINDOW, None)) < max
    requires Tally(log, Hour(key, from)) <= max
    ensures Tally(log + [link], Hour(key, from)) <= max
  {
    var sp := Hour(key, from);
    TallyOneMore(log, link, sp);
    if Counts(sp, link) {
      TallyWithin(log, sp, Span(key, link.created - WINDOW, None));
    }
  }

  lemma IssueIsLimited(cfg: Config, s: State, link: Link)
    requires Kept(cfg, s) && link.created >= s.now && link.user > 0
    requires WithinLimits(cfg, s.rows, link.user, link.ip, link.created)
    ensures Limited(cfg, s.log + [link])
  {
    hide Tally, Counts, Matches, Links, Hour;
    var since := link.created - WINDOW;
    forall user, from | user > 0
      ensures Tally(s.log + [link], Hour(Key(user, ""), from)) <= cfg.maxPerEmail
    {
      MatchesOne(link, user, "");
      OneMoreWithin(s.log, link, Key(user, ""), from, cfg.maxPerEmail);
    }
    forall ip, from | ip != ""
      ensures Tally(s.log + [link], Hour(Key(0, ip), from)) <= cfg.maxPerIP
    {
      MatchesOne(link, 0, ip);
      OneMoreWithin(s.log, link, Key(0, ip), from, cfg.maxPerIP);
    }
  }

  lemma MatchesOne(link: Link, user: nat, ip: string)
    ensures user > 0 ==> (Matches(link, Key(user, "")) <==> link.user == user)
    ensures ip != "" ==> (Matches(link, Key(0, ip)) <==> link.ip == ip)
  {
  }

  lemma RequestIsKept(cfg: Config, s: State, op: Op)
    requires Sane(cfg) && Kept(cfg, s) && Timely(s.now, op) && op.Request?
    ensures Kept(cfg, Next(cfg, s, op))
  {
    hide Tally, Counts, Matches, Links, Limited;
    var n := Next(cfg, s, op);
    if n.log != s.log {
      var link := Link(op.hash, op.user, op.ip, op.at, op.at + cfg.ttl);
      IssueIsLimited(cfg, s, link);
      LinksCreated(s.rows, link);
      forall key, from | from >= n.now - WINDOW
        ensures Tally(Links(n.rows), Span(key, from, None)) == Tally(n.log, Span(key, from, None))
      {
        TallyOneMore(Links(s.rows), link, Span(key, from, None));
        TallyOneMore(s.log, link, Span(key, from, None));
      }
    }
  }

  lemma OtherIsKept(cfg: Config, s: State, op: Op)
    requires Kept(cfg, s) && Timely(s.now, op) && !op.Request?
    ensures Kept(cfg, Next(cfg, s, op))
  {
    hide Tally, Matches, Links, Limited, Swept;
    var n := Next(cfg, s, op);
    if op.Redeem? {
      LinksConsumed(s.rows, op.hash, op.at);
    } else {
      SweptLasts(s.rows, op.cutoff, 1);
      forall key, from | from >= n.now - WINDOW
        ensures Tally(Links(n.rows), Span(key, from, None)) == Tally(n.log, Span(key, from, None))
      {
        LinksSwept(s.rows, op.cutoff, Span(key, from, None));
      }
    }
  }

  /** Whatever requests, consumes and sweeps come, any closed hour holds no more links than the limits allow. */
  lemma {:induction false} WindowsAreLimited(cfg: Config, start: int, ops: seq<Op>)
    requires Sane(cfg) && AllTimely(start, ops)
    ensures Limited(cfg, Run(cfg, State([], [], start), ops).log)
  {
    assert Kept(cfg, State([], [], start));
    RunIsKept(cfg, State([], [], start), ops);
  }

  lemma {:induction false} RunIsKept(cfg: Config, s: State, ops: seq<Op>)
    requires Sane(cfg) && Kept(cfg, s) && AllTimely(s.now, ops)
    ensures Kept(cfg, Run(cfg, s, ops))
    decreases |ops|
  {
    if ops != [] {
      if ops[0].Request? {
        RequestIsKept(cfg, s, ops[0]);
      } else {
        OtherIsKept(cfg, s, ops[0]);
      }
      hide Kept;
      RunIsKept(cfg, Next(cfg, s, ops[0]), ops[1..]);
    }
  }

  /******* Sweeping never shows *******/

  function Outcomes(cfg: Config, rows: seq<Row>, ops: seq<Op>): seq<Outcome>
    decreases |ops|
  {
    if ops == [] then []
    else
      var (rows', outcome) := Serve(cfg, rows, ops[0]);
      [outcome] + Outcomes(cfg, rows', ops[1..])
  }

  lemma {:induction false} SweptTwice(rows: seq<Row>, c: int, d: int)
    ensures Swept(Swept(rows, c), d) == Swept(rows, if c < d then d else c)
  {
    if rows != [] {
      SweptTwice(rows[1..], c, d);
      if rows[0].link.expires >= c {
        assert ([rows[0]] + Swept(rows[1..], c))[1..] == Swept(rows[1..], c);
      }
    }
  }

  lemma {:induction false} SupersededSwept(rows: seq<Row>, user: nat, at: int, cutoff: int)
    ensures Swept(Superseded(rows, user, at), cutoff) == Superseded(Swept(rows, cutoff), user, at)
  {
    if rows != [] {
      SupersededSwept(rows[1..], user, at, cutoff);
      assert Superseded(rows, user, at)[1..] == Superseded(rows[1..], user, at);
    }
  }

  lemma CreatedSwept(rows: seq<Row>, link: Link, cutoff: int)
    requires link.expires >= cutoff
    ensures Swept(Created(rows, link), cutoff) == Created(Swept(rows, cutoff), link)
  {
    SweptConcat(Superseded(rows, link.user, link.created), [Row(link, None)], cutoff);
    SupersededSwept(rows, link.user, link.created, cutoff);
  }

  lemma SpentFirst(row: Row, rest: seq<Row>, hash: Hash, now: int)
    ensures var i := Spent([row] + rest, hash, now);
      if Spendable(row, hash, now) then
        i == 0 && Consumed([row] + rest, hash, now) == [row.(consumed := Some(now))] + rest
      else i == Spent(rest, hash, now) + 1 && Consumed([row] + rest, hash, now) == [row] + Consumed(rest, hash, now)
  {
    assert ([row] + rest)[1..] == rest;
  }

  // A row swept by now could not have been spent any more.
  lemma {:induction false} SpentSwept(rows: seq<Row>, hash: Hash, now: int, cutoff: int)
    requires cutoff <= now + 1
    ensures var i, j, thin := Spent(rows, hash, now), Spent(Swept(rows, cutoff), hash, now), Swept(rows, cutoff);
      && (i < |rows| <==> j < |thin|)
      && (i < |rows| ==> rows[i] == thin[j])
      && Swept(Consumed(rows, hash, now), cutoff) == Consumed(thin, hash, now)
  {
    hide Consumed;
    if rows == [] {
      NothingToSpend(hash, now);
    } else {
      var rest := rows[1..];
      assert rows == [rows[0]] + rest;
      SpentSwept(rest, hash, now, cutoff);
      SpentFirst(rows[0], rest, hash, now);
      SpentFirst(rows[0], Swept(rest, cutoff), hash, now);
      SweptConcat([rows[0]], Consumed(rest, hash, now), cutoff);
      SweptConcat([rows[0].(consumed := Some(now))], rest, cutoff);
    }
  }

  lemma NothingToSpend(hash: Hash, now: int)
    ensures Spent([], hash, now) == 0 && Consumed([], hash, now) == []
  {
  }

  lemma CountSwept(rows: seq<Row>, key: Key, since: int, cutoff: int, life: int)
    requires Lasting(rows, life) && cutoff <= since + life
    ensures CountSince(Swept(rows, cutoff), key, since) == CountSince(rows, key, since)
  {
    LinksSwept(rows, cutoff, Span(key, since, None));
  }

  // What is swept by a cutoff can neither be spent nor count from a moment on, if every link lives so long.
  predicate Spared(cutoff: int, now: int, life: int) {
    cutoff <= now + 1 && cutoff <= now - WINDOW + life
  }

  lemma ServeSwept(cfg: Config, rows: seq<Row>, op: Op, cutoff: int, life: int)
    requires Sane(cfg) && life <= cfg.ttl && Lasting(rows, life) && Spared(cutoff, op.at, life)
    ensures Serve(cfg, Swept(rows, cutoff), op).1 == Serve(cfg, rows, op).1
    ensures Swept(Serve(cfg, Swept(rows, cutoff), op).0, cutoff) == Swept(Serve(cfg, rows, op).0, cutoff)
    ensures Lasting(Serve(cfg, rows, op).0, life)
  {
    hide Swept, CountSince, Created, Consumed, Lasting;
    var thin := Swept(rows, cutoff);
    SweptTwice(rows, cutoff, cutoff);
    ServeLasts(cfg, rows, op, life);
    match op
    case Request(hash, user, ip, now) =>
      CountSwept(rows, Key(user, ""), now - WINDOW, cutoff, life);
      CountSwept(rows, Key(0, ip), now - WINDOW, cutoff, life);
      var link := Link(hash, user, ip, now, now + cfg.ttl);
      CreatedSwept(rows, link, cutoff);
      CreatedSwept(thin, link, cutoff);
    case Redeem(hash, allowed, now) =>
      SpentSwept(rows, hash, now, cutoff);
      SpentSwept(thin, hash, now, cutoff);
    case Clean(c, now) =>
      SweptTwice(rows, cutoff, c);
      SweptTwice(rows, c, cutoff);
      SweptTwice(rows, if cutoff < c then c else cutoff, cutoff);
  }

  lemma ServeLasts(cfg: Config, rows: seq<Row>, op: Op, life: int)
    requires life <= cfg.ttl && Lasting(rows, life)
    ensures Lasting(Serve(cfg, rows, op).0, life)
  {
    hide Swept, CountSince;
    if op.Clean? {
      SweptLasts(rows, op.cutoff, life);
    }
  }

  // Two tables that differ only in links nobody can see answer alike for ever.
  lemma {:induction false} ThinnedAnswersAlike(cfg: Config, a: seq<Row>, b: seq<Row>, cutoff: int, now: int,
                                               life: int, ops: seq<Op>)
    requires Sane(cfg) && life <= cfg.ttl && Lasting(a, life) && Lasting(b, life)
    requires Swept(a, cutoff) == Swept(b, cutoff) && Spared(cutoff, now, life) && AllTimely(now, ops)
    ensures Outcomes(cfg, a, ops) == Outcomes(cfg, b, ops)
    decreases |ops|
  {
    if ops != [] {
      ServeSwept(cfg, a, ops[0], cutoff, life);
      ServeSwept(cfg, b, ops[0], cutoff, life);
      hide Serve, Swept, Lasting;
      ThinnedAnswersAlike(cfg, Serve(cfg, a, ops[0]).0, Serve(cfg, b, ops[0]).0, cutoff, ops[0].at, life, ops[1..]);
    }
  }

  /**
   A sweep changes no later decision of Request and no later outcome of Consume, if what it takes is expired and, as
   long as links live, has left the hour that counts.
   */
  lemma SweepNeverShows(cfg: Config, rows: seq<Row>, cutoff: int, now: int, life: int, ops: seq<Op>)
    requires Sane(cfg) && life <= cfg.ttl && Lasting(rows, life) && Spared(cutoff, now, life) && AllTimely(now, ops)
    ensures Outcomes(cfg, Swept(rows, cutoff), ops) == Outcomes(cfg, rows, ops)
  {
    SweptTwice(rows, cutoff, cutoff);
    SweptLasts(rows, cutoff, life);
    ThinnedAnswersAlike(cfg, Swept(rows, cutoff), rows, cutoff, now, life, ops);
  }

  /******* The latest cutoff *******/

  // Tokens are random.
  ghost predicate FreshTokens(ops: seq<Op>) {
    forall i, j :: 0 <= i < j < |ops| && ops[i].Request? && ops[j].Request? ==> ops[i].hash != ops[j].hash
  }

  // After some run, sweeping at a time changes nothing that happens from then on.
  ghost predicate Unseen(cfg: Config, cutoff: int, now: int, start: int, ops: seq<Op>, more: seq<Op>) {
    var s := Run(cfg, State([], [], start), ops);
    AllTimely(start, ops) && s.now <= now && AllTimely(now, more) && FreshTokens(ops + more) ==>
      Outcomes(cfg, Swept(s.rows, cutoff), more) == Outcomes(cfg, s.rows, more)
  }

  ghost predicate NeverShows(cfg: Config, cutoff: int, now: int) {
    forall start, ops, more :: Unseen(cfg, cutoff, now, start, ops, more)
  }

  lemma {:induction false} RunLasts(cfg: Config, s: State, ops: seq<Op>)
    requires Lasting(s.rows, cfg.ttl)
    ensures Lasting(Run(cfg, s, ops).rows, cfg.ttl)
    decreases |ops|
  {
    if ops != [] {
      ServeLasts(cfg, s.rows, ops[0], cfg.ttl);
      hide Lasting, Serve;
      RunLasts(cfg, Next(cfg, s, ops[0]), ops[1..]);
    }
  }

  // Links of user 1 made at one time for an unknown source.
  ghost predicate AllMadeAt(cfg: Config, rows: seq<Row>, at: int) {
    forall i :: 0 <= i < |rows| ==>
      var link := rows[i].link; link == Link(link.hash, 1, "", at, at + cfg.ttl)
  }

  function Token(k: nat): Hash {
    seq(k, (i: nat) => 'x')
  }

  function Asks(at: int, from: nat, n: nat): seq<Op> {
    seq(n, (k: nat) => Request(Token(from + k), 1, "", at))
  }

  lemma {:induction false} AllCount(cfg: Config, rows: seq<Row>, at: int, since: int)
    requires AllMadeAt(cfg, rows, at) && since <= at
    ensures CountSince(rows, Key(1, ""), since) == |rows|
  {
    if rows != [] {
      var rest, last := rows[..|rows| - 1], rows[|rows| - 1];
      AllCount(cfg, rest, at, since);
      assert Links(rows) == Links(rest) + [last.link];
      TallyOneMore(Links(rest), last.link, Span(Key(1, ""), since, None));
    }
  }

  // So many requests fill an account's places.
  lemma {:induction false} AsksFill(cfg: Config, s: State, at: int, from: nat, n: nat)
    requires Sane(cfg) && AllMadeAt(cfg, s.rows, at) && s.now == at && |s.rows| + n <= cfg.maxPerEmail
    ensures var v := Run(cfg, s, Asks(at, from, n));
      AllMadeAt(cfg, v.rows, at) && |v.rows| == |s.rows| + n && v.now == at
    ensures AllTimely(at, Asks(at, from, n))
    decreases n
  {
    if n > 0 {
      var ops := Asks(at, from, n);
      assert ops[1..] == Asks(at, from + 1, n - 1);
      AllCount(cfg, s.rows, at, at - WINDOW);
      AsksFill(cfg, Next(cfg, s, ops[0]), at, from + 1, n - 1);
    }
  }

  lemma AsksAreFresh(at: int, n: nat, now: int)
    ensures FreshTokens(Asks(at, 0, n) + [Request(Token(n), 1, "", now)])
  {
    var all := Asks(at, 0, n) + [Request(Token(n), 1, "", now)];
    forall k | 0 <= k < |all|
      ensures |all[k].hash| == k
    {
      assert all[k].hash == Token(k);
    }
  }

  lemma {:induction false} AllSwept(cfg: Config, rows: seq<Row>, at: int, cutoff: int)
    requires AllMadeAt(cfg, rows, at) && at + cfg.ttl < cutoff
    ensures Swept(rows, cutoff) == []
  {
    if rows != [] {
      AllSwept(cfg, rows[1..], at, cutoff);
    }
  }

  // A cutoff too late for the hour frees places still taken.
  lemma LateCutoffFrees(cfg: Config, cutoff: int, now: int)
    requires Sane(cfg) && cutoff > now - WINDOW + cfg.ttl
    ensures !NeverShows(cfg, cutoff, now)
  {
    var at, n := now - WINDOW, cfg.maxPerEmail;
    var ops, request := Asks(at, 0, n), Request(Token(n), 1, "", now);
    AsksFill(cfg, State([], [], at), at, 0, n);
    AsksAreFresh(at, n, now);
    var rows := Run(cfg, State([], [], at), ops).rows;
    AllCount(cfg, rows, at, at);
    AllSwept(cfg, rows, at, cutoff);
    hide Swept, AllMadeAt, Run;
    assert Serve(cfg, rows, request).1 == Quiet && Serve(cfg, [], request).1.Issued?;
    assert Outcomes(cfg, rows, [request])[0] == Quiet && Outcomes(cfg, [], [request])[0].Issued?;
    assert AllTimely(now, [request]) && !Unseen(cfg, cutoff, now, at, ops, [request]);
  }

  // A cutoff ahead of the clock takes links that could be spent.
  lemma FutureCutoffTakes(cfg: Config, cutoff: int, now: int)
    requires Sane(cfg) && cutoff > now + 1
    ensures !NeverShows(cfg, cutoff, now)
  {
    var at := now + 1 - cfg.ttl;
    var ops, redeem := Asks(at, 0, 1), Redeem(Token(0), true, now);
    AsksFill(cfg, State([], [], at), at, 0, 1);
    var rows := Run(cfg, State([], [], at), ops).rows;
    AllSwept(cfg, rows, at, cutoff);
    var link := Link(Token(0), 1, "", at, now + 1);
    assert rows == [Row(link, None)] by {
      assert ops[1..] == [];
    }
    hide Swept, AllMadeAt, Run;
    assert Outcomes(cfg, rows, [redeem])[0] == SignedIn(1) && Outcomes(cfg, [], [redeem])[0] == Invalid;
    assert FreshTokens(ops + [redeem]);
    assert AllTimely(now, [redeem]) && Run(cfg, State([], [], at), ops).now <= now;
    assert !Unseen(cfg, cutoff, now, at, ops, [redeem]);
  }

  /**
   The latest cutoff that never shows, whatever was requested, consumed and swept before and comes after: a link's
   life past the start of the hour that counts, and no later than the next instant.
   */
  lemma LatestCutoff(cfg: Config, cutoff: int, now: int)
    requires Sane(cfg)
    ensures NeverShows(cfg, cutoff, now) <==> cutoff <= now + 1 && cutoff <= now - WINDOW + cfg.ttl
  {
    if cutoff > now - WINDOW + cfg.ttl {
      LateCutoffFrees(cfg, cutoff, now);
    } else if cutoff > now + 1 {
      FutureCutoffTakes(cfg, cutoff, now);
    } else {
      forall start, ops, more
        ensures Unseen(cfg, cutoff, now, start, ops, more)
      {
        RunLasts(cfg, State([], [], start), ops);
        if AllTimely(now, more) {
          SweepNeverShows(cfg, Run(cfg, State([], [], start), ops).rows, cutoff, now, cfg.ttl, more);
        }
      }
    }
  }
}

/**
 Magic links: what a link table promises, whatever stores it. Rows are in the order they were created, times
 are nanoseconds.
 */
module MagicLinks {
  import opened Wrappers

  const WINDOW := 3_600_000_000_000

  type Hash = string

  // User 0 is nobody, the empty address is an unknown source.
  datatype Link = Link(hash: Hash, user: nat, ip: string, created: int, expires: int)

  datatype Row = Row(link: Link, consumed: Option<int>)

  datatype Key = Key(user: nat, ip: string)

  /******* What each operation does to the table *******/

  function Ended(row: Row, user: nat, at: int): Row {
    if row.link.user == user && row.consumed.None? then row.(consumed := Some(at)) else row
  }

  function Superseded(rows: seq<Row>, user: nat, at: int): seq<Row> {
    seq(|rows|, (i: nat) requires i < |rows| => Ended(rows[i], user, at))
  }

  function Created(rows: seq<Row>, link: Link): seq<Row> {
    Superseded(rows, link.user, link.created) + [Row(link, None)]
  }

  predicate Spendable(row: Row, hash: Hash, now: int) {
    row.link.hash == hash && row.consumed.None? && row.link.expires > now
  }

  // The row a consume spends, |rows| if there is none.
  function Spent(rows: seq<Row>, hash: Hash, now: int): (i: nat)
    ensures i <= |rows| && (i < |rows| ==> Spendable(rows[i], hash, now))
    ensures forall j :: 0 <= j < i ==> !Spendable(rows[j], hash, now)
  {
    if rows == [] then 0
    else if Spendable(rows[0], hash, now) then 0
    else
      var i := Spent(rows[1..], hash, now);
      assert forall j :: 1 <= j < i + 1 ==> rows[j] == rows[1..][j - 1];
      i + 1
  }

  function Consumed(rows: seq<Row>, hash: Hash, now: int): seq<Row> {
    var i := Spent(rows, hash, now);
    if i < |rows| then rows[i := rows[i].(consumed := Some(now))] else rows
  }

  function Swept(rows: seq<Row>, cutoff: int): seq<Row> {
    if rows == [] then []
    else if rows[0].link.expires < cutoff then Swept(rows[1..], cutoff)
    else [rows[0]] + Swept(rows[1..], cutoff)
  }

  lemma {:induction false} SweptConcat(a: seq<Row>, b: seq<Row>, cutoff: int)
    ensures Swept(a + b, cutoff) == Swept(a, cutoff) + Swept(b, cutoff)
  {
    if a == [] {
      assert a + b == b;
    } else {
      assert (a + b)[1..] == a[1..] + b;
      SweptConcat(a[1..], b, cutoff);
    }
  }

  /** A creation ends the account's unconsumed links, touches no other row, and adds the link unconsumed. */
  lemma CreatedMeans(rows: seq<Row>, link: Link)
    ensures var next := Created(rows, link);
      && |next| == |rows| + 1 && next[|rows|] == Row(link, None)
      && forall i :: 0 <= i < |rows| ==>
           next[i] ==
             if rows[i].link.user == link.user && rows[i].consumed.None? then Row(rows[i].link, Some(link.created))
             else rows[i]
  {
  }

  // The first unconsumed, unexpired row of a hash.
  ghost predicate LiveAt(rows: seq<Row>, hash: Hash, now: int, i: int) {
    && 0 <= i < |rows| && rows[i].link.hash == hash && rows[i].consumed.None? && rows[i].link.expires > now
    && forall j :: 0 <= j < i ==> rows[j].link.hash != hash || rows[j].consumed.Some? || rows[j].link.expires <= now
  }

  /** A consume marks that row and no other, and finds none exactly when there is none. */
  lemma ConsumedMeans(rows: seq<Row>, hash: Hash, now: int, i: int)
    ensures LiveAt(rows, hash, now, i) ==>
      Spent(rows, hash, now) == i && Consumed(rows, hash, now) == rows[i := Row(rows[i].link, Some(now))]
    ensures (forall j :: !LiveAt(rows, hash, now, j)) ==>
      Spent(rows, hash, now) == |rows| && Consumed(rows, hash, now) == rows
  {
    var k := Spent(rows, hash, now);
    if k < |rows| {
      assert LiveAt(rows, hash, now, k);
    }
  }

  function Links(rows: seq<Row>): seq<Link> {
    seq(|rows|, (i: nat) requires i < |rows| => rows[i].link)
  }

  /******* Counting *******/

  predicate Matches(link: Link, key: Key) {
    (key.user == 0 || link.user == key.user) && (key.ip == "" || link.ip == key.ip)
  }

  // Links of a key created in a closed span of time; without an end, from a moment on.
  datatype Span = Span(key: Key, from: int, to: Option<int>)

  predicate Counts(sp: Span, link: Link) {
    Matches(link, sp.key) && link.created >= sp.from && (sp.to.Some? ==> link.created <= sp.to.value)
  }

  function Tally(links: seq<Link>, sp: Span): nat {
    if links == [] then 0
    else Tally(links[..|links| - 1], sp) + if Counts(sp, links[|links| - 1]) then 1 else 0
  }

  // No link has the zero key.
  function CountSince(rows: seq<Row>, key: Key, since: int): nat {
    if key == Key(0, "") then 0 else Tally(Links(rows), Span(key, since, None))
  }

  // The rows of a key created from a moment on; an empty part of the key asks for nothing.
  function RowsSince(rows: seq<Row>, key: Key, since: int): set<nat> {
    set i: nat | i < |rows| && rows[i].link.created >= since && (key.user == 0 || rows[i].link.user == key.user)
      && (key.ip == "" || rows[i].link.ip == key.ip)
  }

  /** The count is their number, but for the zero key, which counts nothing. */
  lemma {:induction false} CountSinceMeans(rows: seq<Row>, key: Key, since: int)
    requires key != Key(0, "")
    ensures CountSince(rows, key, since) == |RowsSince(rows, key, since)|
  {
    if rows != [] {
      var last := |rows| - 1;
      var rest := rows[..last];
      CountSinceMeans(rest, key, since);
      assert Links(rows) == Links(rest) + [rows[last].link];
      TallyOneMore(Links(rest), rows[last].link, Span(key, since, None));
      hide Tally, RowsSince;
      RowsSinceMore(rows, key, since);
    }
  }

  lemma RowsSinceMore(rows: seq<Row>, key: Key, since: int)
    requires rows != []
    ensures var last := |rows| - 1;
      var before := RowsSince(rows[..last], key, since);
      |RowsSince(rows, key, since)| == |before| + if Counts(Span(key, since, None), rows[last].link) then 1 else 0
  {
    var last := |rows| - 1;
    var before := RowsSince(rows[..last], key, since);
    assert RowsSince(rows, key, since) ==
      if Counts(Span(key, since, None), rows[last].link) then before + {last} else before;
  }

  lemma TallyOneMore(links: seq<Link>, link: Link, sp: Span)
    ensures Tally(links + [link], sp) == Tally(links, sp) + if Counts(sp, link) then 1 else 0
  {
    assert (links + [link])[..|links|] == links;
  }

  lemma {:induction false} TallyWithin(links: seq<Link>, small: Span, big: Span)
    requires forall l :: l in links && Counts(small, l) ==> Counts(big, l)
    ensures Tally(links, small) <= Tally(links, big)
  {
    if links != [] {
      assert links[|links| - 1] in links;
      TallyWithin(links[..|links| - 1], small, big);
    }
  }

  /******* Single use and supersession, for any run of atomic operations *******/

  // The table, and what the whole run did: the hashes ever stored, spent in order, and superseded.
  datatype Ledger = Ledger(rows: seq<Row>, used: set<Hash>, spent: seq<Hash>, ended: set<Hash>)

  datatype Atom =
    | Create(link: Link)
    | Consume(hash: Hash, now: int)
    | Remove(hash: Hash)
    | Purge(user: nat)
    | Sweep(cutoff: int)

  function LiveHashes(rows: seq<Row>, user: nat): set<Hash> {
    set i | 0 <= i < |rows| && rows[i].link.user == user && rows[i].consumed.None? :: rows[i].link.hash
  }

  function Without(rows: seq<Row>, hash: Hash): seq<Row> {
    if rows == [] then []
    else
      var rest := Without(rows[..|rows| - 1], hash);
      if rows[|rows| - 1].link.hash == hash then rest else rest + [rows[|rows| - 1]]
  }

  function OthersOf(rows: seq<Row>, user: nat): seq<Row> {
    if rows == [] then []
    else
      var rest := OthersOf(rows[..|rows| - 1], user);
      if rows[|rows| - 1].link.user == user then rest else rest + [rows[|rows| - 1]]
  }

  // A token is random: no link is ever stored under a hash stored before.
  function Step(l: Ledger, a: Atom): Ledger {
    match a
    case Create(link) =>
      if link.hash in l.used then l
      else Ledger(Created(l.rows, link), l.used + {link.hash}, l.spent, l.ended + LiveHashes(l.rows, link.user))
    case Consume(hash, now) =>
      if Spent(l.rows, hash, now) == |l.rows| then l
      else l.(rows := Consumed(l.rows, hash, now), spent := l.spent + [hash])
    case Remove(hash) => l.(rows := Without(l.rows, hash))
    case Purge(user) => l.(rows := OthersOf(l.rows, user))
    case Sweep(cutoff) => l.(rows := Swept(l.rows, cutoff))
  }

  function Steps(l: Ledger, atoms: seq<Atom>): Ledger
    decreases |atoms|
  {
    if atoms == [] then l else Steps(Step(l, atoms[0]), atoms[1..])
  }

  predicate Dead(l: Ledger, hash: Hash) {
    forall i :: 0 <= i < |l.rows| && l.rows[i].link.hash == hash ==> l.rows[i].consumed.Some?
  }

  ghost predicate OneLive(rows: seq<Row>) {
    forall i, j :: 0 <= i < j < |rows| && rows[i].consumed.None? && rows[j].consumed.None? ==>
      rows[i].link.user != rows[j].link.user
  }

  ghost predicate Distinct(rows: seq<Row>) {
    forall i, j :: 0 <= i < j < |rows| ==> rows[i].link.hash != rows[j].link.hash
  }

  ghost predicate Tidy(l: Ledger) {
    && OneLive(l.rows) && Distinct(l.rows)
    && (forall i :: 0 <= i < |l.rows| ==> l.rows[i].link.hash in l.used)
    && (forall k :: 0 <= k < |l.spent| ==> l.spent[k] in l.used && Dead(l, l.spent[k]) && l.spent[k] !in l.ended)
    && (forall h :: h in l.ended ==> h in l.used && Dead(l, h))
    && (forall i, j :: 0 <= i < j < |l.spent| ==> l.spent[i] != l.spent[j])
  }

  ghost predicate Sub(rows: seq<Row>, rows': seq<Row>) {
    && OneLive(rows') && Distinct(rows') && forall i :: 0 <= i < |rows'| ==> rows'[i] in rows
  }

  // Keeping the last row as well, or not.
  lemma LastIsSub(rows: seq<Row>, last: nat, kept: seq<Row>)
    requires OneLive(rows) && Distinct(rows) && last == |rows| - 1 && Sub(rows[..last], kept)
    ensures Sub(rows, kept) && Sub(rows, kept + [rows[last]])
  {
    forall i | 0 <= i < |kept|
      ensures kept[i] in rows && !Clashes(kept[i], rows[last])
    {
      var j :| 0 <= j < last && rows[j] == kept[i];
    }
  }

  lemma {:induction false} WithoutIsSub(rows: seq<Row>, hash: Hash)
    requires OneLive(rows) && Distinct(rows)
    ensures Sub(rows, Without(rows, hash))
  {
    if rows != [] {
      var last := |rows| - 1;
      hide OneLive, Distinct, Sub;
      WithoutIsSub(rows[..last], hash);
      LastIsSub(rows, last, Without(rows[..last], hash));
    }
  }

  lemma {:induction false} OthersIsSub(rows: seq<Row>, user: nat)
    requires OneLive(rows) && Distinct(rows)
    ensures Sub(rows, OthersOf(rows, user))
  {
    if rows != [] {
      var last := |rows| - 1;
      hide OneLive, Distinct, Sub;
      OthersIsSub(rows[..last], user);
      LastIsSub(rows, last, OthersOf(rows[..last], user));
    }
  }

  lemma {:induction false} SweptIsSub(rows: seq<Row>, cutoff: int)
    requires OneLive(rows) && Distinct(rows)
    ensures Sub(rows, Swept(rows, cutoff))
  {
    if rows != [] {
      var rest := rows[1..];
      assert rows == [rows[0]] + rest;
      RestIsSub(rows[0], rest);
      SweptIsSub(rest, cutoff);
      FirstIsSub(rows[0], rest, Swept(rest, cutoff));
    }
  }

  lemma RestIsSub(first: Row, rest: seq<Row>)
    requires OneLive([first] + rest) && Distinct([first] + rest)
    ensures OneLive(rest) && Distinct(rest)
  {
    assert forall i :: 0 <= i < |rest| ==> ([first] + rest)[i + 1] == rest[i];
  }

  predicate Clashes(a: Row, b: Row) {
    a.link.hash == b.link.hash || (a.consumed.None? && b.consumed.None? && a.link.user == b.link.user)
  }

  lemma FirstDiffers(first: Row, rest: seq<Row>, r: Row)
    requires OneLive([first] + rest) && Distinct([first] + rest) && r in rest
    ensures !Clashes(first, r)
  {
    var j :| 0 <= j < |rest| && rest[j] == r;
    assert ([first] + rest)[0] == first && ([first] + rest)[j + 1] == r;
  }

  lemma AddFirst(first: Row, kept: seq<Row>)
    requires OneLive(kept) && Distinct(kept) && forall r :: r in kept ==> !Clashes(first, r)
    ensures OneLive([first] + kept) && Distinct([first] + kept)
  {
    var all := [first] + kept;
    forall i, j | 0 <= i < j < |all|
      ensures !Clashes(all[i], all[j])
    {
      assert all[j] == kept[j - 1] && kept[j - 1] in kept;
      if i > 0 {
        assert all[i] == kept[i - 1];
      }
    }
  }

  lemma FirstIsSub(first: Row, rest: seq<Row>, kept: seq<Row>)
    requires OneLive([first] + rest) && Distinct([first] + rest) && Sub(rest, kept)
    ensures Sub([first] + rest, kept) && Sub([first] + rest, [first] + kept)
  {
    hide OneLive, Distinct, Clashes;
    forall r | r in kept
      ensures !Clashes(first, r)
    {
      var i :| 0 <= i < |kept| && kept[i] == r;
      FirstDiffers(first, rest, r);
    }
    AddFirst(first, kept);
  }

  lemma SubIsTidy(l: Ledger, rows: seq<Row>)
    requires Tidy(l) && Sub(l.rows, rows)
    ensures Tidy(l.(rows := rows))
  {
  }

  lemma CreatedRows(l: Ledger, link: Link)
    requires Tidy(l) && link.hash !in l.used
    ensures OneLive(Created(l.rows, link)) && Distinct(Created(l.rows, link))
  {
  }

  lemma CreateIsTidy(l: Ledger, link: Link)
    requires Tidy(l) && link.hash !in l.used
    ensures Tidy(Step(l, Create(link)))
  {
    var r := Step(l, Create(link));
    var ended := LiveHashes(l.rows, link.user);
    CreatedRows(l, link);
    hide OneLive, Distinct;
    forall h | h in ended
      ensures h in l.used && Dead(r, h) && h !in l.spent
    {
      var i :| 0 <= i < |l.rows| && l.rows[i].link.user == link.user && l.rows[i].consumed.None?
        && l.rows[i].link.hash == h;
    }
  }

  lemma ConsumedRows(l: Ledger, hash: Hash, now: int)
    requires Tidy(l)
    ensures OneLive(Consumed(l.rows, hash, now)) && Distinct(Consumed(l.rows, hash, now))
    ensures Spent(l.rows, hash, now) < |l.rows| ==> !Dead(l, hash) && hash in l.used
  {
  }

  lemma ConsumeIsTidy(l: Ledger, hash: Hash, now: int)
    requires Tidy(l)
    ensures Tidy(Step(l, Consume(hash, now)))
  {
    ConsumedRows(l, hash, now);
    hide OneLive;
  }

  /** Whatever the run, an account has at most one unconsumed link, and a token is spent at most once, and never
      after a newer link superseded it. */
  lemma {:induction false} StepsAreTidy(l: Ledger, atoms: seq<Atom>)
    requires Tidy(l)
    ensures Tidy(Steps(l, atoms))
    decreases |atoms|
  {
    if atoms != [] {
      StepIsTidy(l, atoms[0]);
      StepsAreTidy(Step(l, atoms[0]), atoms[1..]);
    }
  }

  lemma StepIsTidy(l: Ledger, a: Atom)
    requires Tidy(l)
    ensures Tidy(Step(l, a))
    ensures l.used <= Step(l, a).used && l.spent <= Step(l, a).spent && l.ended <= Step(l, a).ended
  {
    hide Tidy, Created, Consumed;
    match a
    case Create(link) =>
      if link.hash !in l.used {
        CreateIsTidy(l, link);
      }
    case Consume(hash, now) => ConsumeIsTidy(l, hash, now);
    case Remove(hash) =>
      TidyRows(l);
      WithoutIsSub(l.rows, hash);
      SubIsTidy(l, Without(l.rows, hash));
    case Purge(user) =>
      TidyRows(l);
      OthersIsSub(l.rows, user);
      SubIsTidy(l, OthersOf(l.rows, user));
    case Sweep(cutoff) =>
      TidyRows(l);
      SweptIsSub(l.rows, cutoff);
      SubIsTidy(l, Swept(l.rows, cutoff));
  }

  lemma TidyRows(l: Ledger)
    requires Tidy(l)
    ensures OneLive(l.rows) && Distinct(l.rows)
  {
  }

  /** A link once superseded, or once spent, is never spent afterwards. */
  lemma {:induction false} DeadStaysDead(l: Ledger, atoms: seq<Atom>, hash: Hash)
    requires Tidy(l) && (hash in l.ended || hash in l.spent)
    ensures multiset(Steps(l, atoms).spent)[hash] == multiset(l.spent)[hash] == if hash in l.spent then 1 else 0
    decreases |atoms|
  {
    SpentOnce(l, hash);
    if atoms != [] {
      var m := Step(l, atoms[0]);
      StepIsTidy(l, atoms[0]);
      assert hash in m.spent <==> hash in l.spent;
      DeadStaysDead(m, atoms[1..], hash);
    }
  }

  /******* What is gone stays gone *******/

  lemma {:induction false} InWithout(rows: seq<Row>, hash: Hash, row: Row)
    ensures row in Without(rows, hash) <==> row in rows && row.link.hash != hash
  {
    if rows != [] {
      InWithout(rows[..|rows| - 1], hash, row);
      assert rows == rows[..|rows| - 1] + [rows[|rows| - 1]];
    }
  }

  lemma {:induction false} InOthers(rows: seq<Row>, user: nat, row: Row)
    ensures row in OthersOf(rows, user) <==> row in rows && row.link.user != user
  {
    if rows != [] {
      InOthers(rows[..|rows| - 1], user, row);
      assert rows == rows[..|rows| - 1] + [rows[|rows| - 1]];
    }
  }

  lemma {:induction false} InSwept(rows: seq<Row>, cutoff: int, row: Row)
    requires row in Swept(rows, cutoff)
    ensures row in rows
  {
    if rows != [] && row != rows[0] {
      InSwept(rows[1..], cutoff, row);
    }
  }

  ghost predicate Stored(rows: seq<Row>, link: Link) {
    exists row :: row in rows && row.link == link
  }

  // A link stored later was stored already, or its hash is new.
  lemma StepLinks(l: Ledger, a: Atom, row: Row)
    requires row in Step(l, a).rows
    ensures Stored(l.rows, row.link) || row.link.hash !in l.used
    ensures l.used <= Step(l, a).used
  {
    match a
    case Remove(hash) => InWithout(l.rows, hash, row);
    case Purge(user) => InOthers(l.rows, user, row);
    case Sweep(cutoff) => InSwept(l.rows, cutoff, row);
    case _ =>
      var rows := Step(l, a).rows;
      var i :| 0 <= i < |rows| && rows[i] == row;
      if i < |l.rows| {
        assert l.rows[i].link == row.link && l.rows[i] in l.rows;
      }
  }

  lemma {:induction false} StepsLinks(l: Ledger, atoms: seq<Atom>, row: Row)
    requires row in Steps(l, atoms).rows
    ensures Stored(l.rows, row.link) || row.link.hash !in l.used
    decreases |atoms|
  {
    if atoms == [] {
      assert Stored(l.rows, row.link);
    } else {
      var m := Step(l, atoms[0]);
      StepsLinks(m, atoms[1..], row);
      hide Step;
      if Stored(m.rows, row.link) {
        var kept :| kept in m.rows && kept.link == row.link;
        StepLinks(l, atoms[0], kept);
      }
    }
  }

  ghost predicate Holds(rows: seq<Row>, hash: Hash) {
    exists row :: row in rows && row.link.hash == hash
  }

  lemma GoneStaysGone(l: Ledger, a: Atom, hash: Hash)
    requires hash in l.used && !Holds(l.rows, hash)
    ensures !Holds(Step(l, a).rows, hash)
  {
    forall row | row in Step(l, a).rows
      ensures row.link.hash != hash
    {
      StepLinks(l, a, row);
    }
  }

  /** A deleted link is never spent any more. */
  lemma {:induction false} GoneStaysUnspent(l: Ledger, atoms: seq<Atom>, hash: Hash)
    requires hash in l.used && !Holds(l.rows, hash)
    ensures hash in Steps(l, atoms).spent <==> hash in l.spent
    decreases |atoms|
  {
    if atoms != [] {
      var m := Step(l, atoms[0]);
      GoneStaysGone(l, atoms[0], hash);
      StepSpends(l, atoms[0], hash);
      hide Step;
      GoneStaysUnspent(m, atoms[1..], hash);
    }
  }

  lemma StepSpends(l: Ledger, a: Atom, hash: Hash)
    requires !Holds(l.rows, hash)
    ensures hash in Step(l, a).spent <==> hash in l.spent
  {
    if a.Consume? {
      var i := Spent(l.rows, a.hash, a.now);
      assert i < |l.rows| ==> l.rows[i] in l.rows;
    }
  }

  lemma {:induction false} DistinctCount(s: seq<Hash>, hash: Hash)
    requires forall i, j :: 0 <= i < j < |s| ==> s[i] != s[j]
    ensures multiset(s)[hash] == if hash in s then 1 else 0
  {
    if s != [] {
      var t := s[..|s| - 1];
      assert s == t + [s[|s| - 1]];
      DistinctCount(t, hash);
    }
  }

  lemma SpentOnce(l: Ledger, hash: Hash)
    requires Tidy(l)
    ensures multiset(l.spent)[hash] == if hash in l.spent then 1 else 0
  {
    DistinctCount(l.spent, hash);
  }
}

/**
 What a run over porte_identities did, told from the log of every write to the table: a reseal's own, its process's
 Saves, and other writers'.
 */
module ResealLog {
  import opened Wrappers
  import opened Sealing

  const RESEAL_BATCH := 200

  datatype Keyed = Keyed(key: nat, row: Row)

  predicate HasToken(row: Row) {
    row.access != EMPTY || row.refresh != EMPTY
  }

  /** The keyset query: the first 200 rows with a token whose keys are after a given one, in order. */
  predicate IsBatch(rows: seq<Keyed>, t: Table, after: nat) {
    && |rows| <= RESEAL_BATCH
    && (forall i :: 0 <= i < |rows| ==>
          rows[i].key > after && rows[i].key in t && t[rows[i].key] == rows[i].row && HasToken(rows[i].row))
    && (forall i, j :: 0 <= i < j < |rows| ==> rows[i].key < rows[j].key)
    && (forall k :: k in t && k > after && HasToken(t[k]) ==>
          InBatch(rows, k) || (|rows| == RESEAL_BATCH && k > rows[|rows| - 1].key))
  }

  predicate InBatch(rows: seq<Keyed>, k: nat) {
    exists i :: 0 <= i < |rows| && rows[i].key == k
  }

  /******* The log *******/

  // A statement of another writer, a guarded update of the reseal, a Save of this process; each under the keys
  // this process had.
  datatype Write =
    | Other(turn: nat, keys: seq<Secret>, before: Table, after: Table)
    | Own(keys: seq<Secret>, row: Keyed, before: Table, after: Table)
    | Saved(keys: seq<Secret>, key: nat, access: string, refresh: string, before: Table, after: Table)

  // What the other writers would make of the table at each of their turns. It is given, not chosen by the reseal.
  type Moves = (nat, Table) -> Table

  // Who writes besides: nobody, writers that seal under the same first key, or anyone.
  datatype Company = Alone | Disciplined | Anyone

  // No row is keyed by two empty strings, which the keyset query would never reach.
  ghost predicate Below(t: Table, top: nat) {
    forall k :: k in t ==> 0 < k <= top
  }

  predicate Others(keys: seq<Secret>, t: Table, u: Table, top: nat, company: Company) {
    && (company.Alone? ==> u == t)
    && (forall k :: k in u && (k !in t || t[k] != u[k]) ==>
          0 < k <= top && (company.Disciplined? ==> SettledRow(keys, u[k])))
  }

  // Only the row that was read, only if it still is what was read, and only if there was something to do.
  ghost predicate RowStep(keys: seq<Secret>, t: Table, u: Table, row: Keyed) {
    && t.Keys == u.Keys
    && (forall k :: k in u && k != row.key ==> u[k] == t[k])
    && (row.key in t ==> Resealed(keys, t[row.key], u[row.key]))
    && (t != u ==> row.key in t && t[row.key] == row.row && !SettledRow(keys, row.row))
  }

  // The row reads back as it was saved, and is sealed, if there is a key to seal with.
  ghost predicate SaveStep(keys: seq<Secret>, t: Table, u: Table, key: nat, access: string, refresh: string) {
    && key in u && u == t[key := u[key]]
    && (keys != [] ==> View(keys, u[key]) == Pair(Some(access), Some(refresh)) && SettledRow(keys, u[key]))
    && (!(PREFIX <= access) ==> View(keys, u[key]).access == Some(access))
    && (!(PREFIX <= refresh) ==> View(keys, u[key]).refresh == Some(refresh))
  }

  ghost predicate Lawful(e: Write, top: nat, company: Company) {
    match e
    case Other(_, keys, before, after) => Others(keys, before, after, top, company)
    case Own(keys, row, before, after) => RowStep(keys, before, after, row)
    case Saved(keys, key, access, refresh, before, after) =>
      SaveStep(keys, before, after, key, access, refresh) && 0 < key <= top
  }

  ghost predicate AllLawful(log: seq<Write>, top: nat, company: Company) {
    forall i :: 0 <= i < |log| ==> Lawful(log[i], top, company)
  }

  /** What the log says others wrote is what they would have, turn by turn, or nothing. */
  ghost predicate Theirs(log: seq<Write>, others: Moves, turn: nat) {
    && (forall i :: 0 <= i < |log| && log[i].Other? ==>
          log[i].turn < turn && log[i].after in {log[i].before, others(log[i].turn, log[i].before)})
    && (forall i, j :: 0 <= i < j < |log| && log[i].Other? && log[j].Other? ==> log[i].turn < log[j].turn)
  }

  lemma TheirsAppend(log: seq<Write>, others: Moves, turn: nat, e: Write)
    requires Theirs(log, others, turn)
    requires e.Other? ==> e.turn == turn && e.after in {e.before, others(turn, e.before)}
    ensures Theirs(log + [e], others, if e.Other? then turn + 1 else turn)
  {
  }

  /** The table went from one to the other by exactly the writes of the log. */
  ghost predicate Chain(log: seq<Write>, t: Table, u: Table) {
    if log == [] then t == u
    else log[|log| - 1].after == u && Chain(log[..|log| - 1], t, log[|log| - 1].before)
  }

  function Changed(t: Table, u: Table): set<nat> {
    (set k | k in t && (k !in u || t[k] != u[k])) + (set k | k in u && k !in t)
  }

  // The rows other writers changed.
  function Touched(log: seq<Write>): set<nat> {
    if log == [] then {}
    else
      var e := log[|log| - 1];
      Touched(log[..|log| - 1]) + if e.Other? then Changed(e.before, e.after) else {}
  }

  // The rows the reseal came to, in order.
  function Visited(log: seq<Write>): seq<nat> {
    if log == [] then []
    else
      var e := log[|log| - 1];
      Visited(log[..|log| - 1]) + if e.Own? then [e.row.key] else []
  }

  // The rows it rewrote.
  function Rewritten(log: seq<Write>): set<nat> {
    if log == [] then {}
    else
      var e := log[|log| - 1];
      Rewritten(log[..|log| - 1]) + if e.Own? && e.before != e.after then {e.row.key} else {}
  }

  // What was saved, in order.
  function Saves(log: seq<Write>): seq<(nat, string, string)> {
    if log == [] then []
    else
      var e := log[|log| - 1];
      Saves(log[..|log| - 1]) + if e.Saved? then [(e.key, e.access, e.refresh)] else []
  }

  lemma LogAppend(log: seq<Write>, e: Write)
    ensures Touched(log + [e]) == Touched(log) + if e.Other? then Changed(e.before, e.after) else {}
    ensures Visited(log + [e]) == Visited(log) + if e.Own? then [e.row.key] else []
    ensures Rewritten(log + [e]) == Rewritten(log) + if e.Own? && e.before != e.after then {e.row.key} else {}
    ensures Saves(log + [e]) == Saves(log) + if e.Saved? then [(e.key, e.access, e.refresh)] else []
  {
    assert (log + [e])[..|log + [e]| - 1] == log;
    hide Changed;
  }

  lemma {:induction false} RowsConcat(a: seq<Write>, b: seq<Write>)
    ensures Touched(a + b) == Touched(a) + Touched(b)
    ensures Rewritten(a + b) == Rewritten(a) + Rewritten(b)
  {
    if b == [] {
      assert a + b == a;
    } else {
      hide Touched, Visited, Rewritten, Saves, Changed;
      var rest, e := b[..|b| - 1], b[|b| - 1];
      assert b == rest + [e] && a + b == (a + rest) + [e];
      RowsConcat(a, rest);
      LogAppend(a + rest, e);
      LogAppend(rest, e);
    }
  }

  lemma {:induction false} LogConcat(a: seq<Write>, b: seq<Write>)
    ensures Touched(a + b) == Touched(a) + Touched(b) && Rewritten(a + b) == Rewritten(a) + Rewritten(b)
    ensures Visited(a + b) == Visited(a) + Visited(b)
    ensures Saves(a + b) == Saves(a) + Saves(b)
  {
    hide Touched, Rewritten;
    RowsConcat(a, b);
    if b == [] {
      assert a + b == a;
    } else {
      hide Visited, Saves, Changed;
      var rest, e := b[..|b| - 1], b[|b| - 1];
      assert b == rest + [e] && a + b == (a + rest) + [e];
      LogConcat(a, rest);
      LogAppend(a + rest, e);
      LogAppend(rest, e);
    }
  }

  lemma {:induction false} ChainConcat(a: seq<Write>, b: seq<Write>, t: Table, u: Table, v: Table)
    requires Chain(a, t, u) && Chain(b, u, v)
    ensures Chain(a + b, t, v)
  {
    if b == [] {
      assert a + b == a;
    } else {
      assert (a + b)[..|a + b| - 1] == a + b[..|b| - 1];
      ChainConcat(a, b[..|b| - 1], t, u, b[|b| - 1].before);
    }
  }

  lemma ChainAppend(log: seq<Write>, e: Write, t: Table)
    requires Chain(log, t, e.before)
    ensures Chain(log + [e], t, e.after)
  {
    assert (log + [e])[..|log|] == log;
  }

  lemma AlonePasses(log: seq<Write>, top: nat)
    requires AllLawful(log, top, Alone)
    ensures Touched(log) == {}
  {
    if log != [] {
      assert Lawful(log[|log| - 1], top, Alone);
      AlonePasses(log[..|log| - 1], top);
    }
  }

  lemma {:induction false} RewrittenIsVisited(log: seq<Write>)
    ensures forall k :: k in Rewritten(log) ==> k in Visited(log)
  {
    if log != [] {
      RewrittenIsVisited(log[..|log| - 1]);
    }
  }

  /******* What a reseal does *******/

  // Rows no other writer touched were neither added nor removed, and at most resealed.
  ghost predicate Untouched(keys: seq<Secret>, t: Table, u: Table, touched: set<nat>) {
    && (forall k :: k !in touched ==> (k in t <==> k in u))
    && (forall k :: k in t && k !in touched ==> Resealed(keys, t[k], u[k]))
  }

  // Among the rows nobody else touched, only those that were not settled have been rewritten.
  ghost predicate Rewrites(keys: seq<Secret>, t: Table, u: Table, touched: set<nat>, rewritten: set<nat>) {
    forall k :: k in t && k !in touched ==>
      (if k in rewritten then !SettledRow(keys, t[k]) else k in u && u[k] == t[k])
  }

  ghost predicate Increasing(visited: seq<nat>) {
    forall i, j :: 0 <= i < j < |visited| ==> visited[i] < visited[j]
  }

  ghost predicate Resealing(log: seq<Write>, keys: seq<Secret>) {
    forall i :: 0 <= i < |log| ==> log[i].keys == keys && !log[i].Saved?
  }

  lemma UntouchedStep(keys: seq<Secret>, t: Table, u: Table, e: Write, touched: set<nat>, top: nat, company: Company)
    requires Untouched(keys, t, u, touched) && e.before == u && e.keys == keys && !e.Saved? && Lawful(e, top, company)
    ensures Untouched(keys, t, e.after, touched + if e.Other? then Changed(e.before, e.after) else {})
  {
    hide View, Settled;
    if e.Own? {
      forall k | k in t && k !in touched
        ensures Resealed(keys, t[k], e.after[k])
      {
        assert Resealed(keys, t[k], u[k]);
      }
    }
  }

  lemma {:induction false} ChainUntouched(log: seq<Write>, keys: seq<Secret>, t: Table, u: Table, top: nat,
                                          company: Company)
    requires Chain(log, t, u) && AllLawful(log, top, company) && Resealing(log, keys)
    ensures Untouched(keys, t, u, Touched(log))
  {
    if log != [] {
      var e := log[|log| - 1];
      ChainUntouched(log[..|log| - 1], keys, t, e.before, top, company);
      assert Lawful(e, top, company);
      hide Lawful, Untouched;
      UntouchedStep(keys, t, e.before, e, Touched(log[..|log| - 1]), top, company);
    }
  }

  lemma RewritesStep(keys: seq<Secret>, t: Table, u: Table, e: Write, touched: set<nat>, r: set<nat>, top: nat,
                     company: Company)
    requires Rewrites(keys, t, u, touched, r) && e.before == u && e.keys == keys && !e.Saved? && Lawful(e, top, company)
    requires e.Own? ==> e.row.key !in r
    ensures Rewrites(keys, t, e.after, touched + if e.Other? then Changed(e.before, e.after) else {},
                     r + if e.Own? && e.before != e.after then {e.row.key} else {})
  {
    hide SettledRow, Resealed;
  }

  lemma {:induction false} ChainRewrites(log: seq<Write>, keys: seq<Secret>, t: Table, u: Table, top: nat,
                                         company: Company)
    requires Chain(log, t, u) && AllLawful(log, top, company) && Resealing(log, keys) && Increasing(Visited(log))
    ensures Rewrites(keys, t, u, Touched(log), Rewritten(log))
  {
    if log != [] {
      var e, rest := log[|log| - 1], log[..|log| - 1];
      var n := |Visited(rest)|;
      assert forall i :: 0 <= i < n ==> Visited(log)[i] == Visited(rest)[i];
      ChainRewrites(rest, keys, t, e.before, top, company);
      RewrittenIsVisited(rest);
      assert Lawful(e, top, company);
      assert e.Own? ==> e.row.key !in Rewritten(rest) by {
        if e.Own? {
          assert Visited(log)[n] == e.row.key;
        }
      }
      hide Lawful, Rewrites;
      RewritesStep(keys, t, e.before, e, Touched(rest), Rewritten(rest), top, company);
    }
  }

  // Nothing is left to reseal up to a key.
  ghost predicate SettledUpTo(keys: seq<Secret>, t: Table, upTo: nat) {
    forall k :: k in t && 0 < k <= upTo ==> SettledRow(keys, t[k])
  }

  // Up to a key, only the given rows, as they were read, are left to reseal.
  ghost predicate Left(keys: seq<Secret>, t: Table, rows: seq<Keyed>, upTo: nat) {
    forall k :: k in t && 0 < k <= upTo ==> SettledRow(keys, t[k]) || Keyed(k, t[k]) in rows
  }

  lemma LeftAfterOthers(keys: seq<Secret>, t: Table, u: Table, top: nat, company: Company, rows: seq<Keyed>, upTo: nat)
    requires Left(keys, t, rows, upTo) && Others(keys, t, u, top, company) && !company.Anyone?
    ensures Left(keys, u, rows, upTo)
  {
    hide SettledRow;
  }

  lemma LeftAfterRow(keys: seq<Secret>, t: Table, u: Table, row: Keyed, rest: seq<Keyed>, upTo: nat)
    requires Left(keys, t, [row] + rest, upTo) && RowStep(keys, t, u, row)
    requires row.key in t && t[row.key] == row.row ==> SettledRow(keys, u[row.key])
    ensures Left(keys, u, rest, upTo)
  {
    hide SettledRow, Resealed;
    forall k | k in u && 0 < k <= upTo
      ensures SettledRow(keys, u[k]) || Keyed(k, u[k]) in rest
    {
      if k == row.key && t[k] != row.row {
        assert t == u;
      }
    }
  }

  lemma SettledAfterRow(keys: seq<Secret>, t: Table, u: Table, row: Keyed, upTo: nat)
    requires SettledUpTo(keys, t, upTo) && RowStep(keys, t, u, row) && 0 < row.key <= upTo
    ensures SettledUpTo(keys, u, upTo) && u == t
  {
    hide View, Settled;
  }

  lemma SettledAfterOthers(keys: seq<Secret>, t: Table, u: Table, top: nat, company: Company, upTo: nat)
    requires SettledUpTo(keys, t, upTo) && Others(keys, t, u, top, company) && !company.Anyone?
    ensures SettledUpTo(keys, u, upTo)
  {
    hide SettledRow;
  }

  /******* What rows read as *******/

  predicate Writes(e: Write, k: nat) {
    match e
    case Other(_, _, before, after) => k in Changed(before, after)
    case Own(_, _, _, _) => false
    case Saved(_, key, _, _, _, _) => k == key
  }

  /** The last time somebody meant to change a row; a reseal does not. */
  function LastWrite(log: seq<Write>, k: nat): Option<Write> {
    if log == [] then None
    else if Writes(log[|log| - 1], k) then Some(log[|log| - 1])
    else LastWrite(log[..|log| - 1], k)
  }

  /** Whatever was readable when a row was last written still is, with the same plaintext, and so is the row. */
  ghost predicate ReadsBack(keys: seq<Secret>, t: Table, keys0: seq<Secret>, t0: Table, log: seq<Write>, k: nat) {
    var last := LastWrite(log, k);
    if last.None? then (k in t <==> k in t0) && (k in t ==> Covers(View(keys, t[k]), View(keys0, t0[k])))
    else
      var e := last.value;
      (k in t <==> k in e.after) && (k in t ==> Covers(View(keys, t[k]), View(e.keys, e.after[k])))
  }

  ghost predicate Faithful(keys: seq<Secret>, t: Table, keys0: seq<Secret>, t0: Table, log: seq<Write>) {
    forall k {:trigger ReadsBack(keys, t, keys0, t0, log, k)} :: ReadsBack(keys, t, keys0, t0, log, k)
  }

  lemma FaithfulOnwards(keys: seq<Secret>, t: Table, keys0: seq<Secret>, t0: Table, log: seq<Write>, e: Write,
                        top: nat, company: Company)
    requires Faithful(keys, t, keys0, t0, log) && e.before == t && e.keys == keys && Lawful(e, top, company)
    ensures Faithful(keys, e.after, keys0, t0, log + [e])
  {
    var more := log + [e];
    assert more[..|log|] == log;
    forall k
      ensures ReadsBack(keys, e.after, keys0, t0, more, k)
    {
      assert ReadsBack(keys, t, keys0, t0, log, k);
      hide Others, Settled, Plain;
      if !Writes(e, k) {
        assert LastWrite(more, k) == LastWrite(log, k);
        UnwrittenStays(e, k, top, company);
      }
    }
  }

  lemma UnwrittenStays(e: Write, k: nat, top: nat, company: Company)
    requires Lawful(e, top, company) && !Writes(e, k)
    ensures k in e.before <==> k in e.after
    ensures k in e.before ==> View(e.keys, e.after[k]) == View(e.keys, e.before[k])
  {
    hide Others, Settled, Plain;
  }

  // More keys read whatever fewer did.
  lemma FaithfulWithMore(keys: seq<Secret>, key: Secret, t: Table, keys0: seq<Secret>, t0: Table, log: seq<Write>)
    requires Faithful(keys, t, keys0, t0, log)
    ensures Faithful([key] + keys, t, keys0, t0, log)
  {
    forall k
      ensures ReadsBack([key] + keys, t, keys0, t0, log, k)
    {
      assert ReadsBack(keys, t, keys0, t0, log, k);
      if k in t {
        AddOne(keys, key, t[k].access);
        AddOne(keys, key, t[k].refresh);
      }
    }
  }

  // Once everything is settled, the first key reads whatever they all did.
  lemma FaithfulWithFirst(keys: seq<Secret>, t: Table, keys0: seq<Secret>, t0: Table, log: seq<Write>, top: nat)
    requires Faithful(keys, t, keys0, t0, log) && Below(t, top) && SettledUpTo(keys, t, top) && keys != []
    ensures Faithful(keys[..1], t, keys0, t0, log) && SettledUpTo(keys[..1], t, top)
  {
    forall k
      ensures ReadsBack(keys[..1], t, keys0, t0, log, k)
      ensures k in t ==> SettledRow(keys[..1], t[k])
    {
      assert ReadsBack(keys, t, keys0, t0, log, k);
      if k in t {
        assert SettledRow(keys, t[k]);
        DropOne(keys, 1, t[k].access);
        DropOne(keys, 1, t[k].refresh);
      }
    }
  }

  /** In particular what was saved is read. */
  lemma SavedReads(keys: seq<Secret>, t: Table, keys0: seq<Secret>, t0: Table, log: seq<Write>, k: nat, top: nat,
                   company: Company)
    requires Faithful(keys, t, keys0, t0, log) && AllLawful(log, top, company)
    requires LastWrite(log, k).Some? && LastWrite(log, k).value.Saved?
    ensures var e := LastWrite(log, k).value;
      && k in t && e.key == k
      && (e.keys != [] || !(PREFIX <= e.access) ==> View(keys, t[k]).access == Some(e.access))
      && (e.keys != [] || !(PREFIX <= e.refresh) ==> View(keys, t[k]).refresh == Some(e.refresh))
  {
    assert ReadsBack(keys, t, keys0, t0, log, k);
    LastIsLawful(log, k, top, company);
  }

  lemma {:induction false} LastIsLawful(log: seq<Write>, k: nat, top: nat, company: Company)
    requires AllLawful(log, top, company) && LastWrite(log, k).Some?
    ensures var e := LastWrite(log, k).value; e in log && Writes(e, k) && Lawful(e, top, company)
  {
    if Writes(log[|log| - 1], k) {
      assert Lawful(log[|log| - 1], top, company);
    } else {
      LastIsLawful(log[..|log| - 1], k, top, company);
    }
  }

  // The last of some saves to a row.
  function LastOf(saves: seq<(nat, string, string)>, k: nat): Option<(string, string)> {
    var n := |saves| - 1;
    if saves == [] then None else if saves[n].0 == k then Some((saves[n].1, saves[n].2)) else LastOf(saves[..n], k)
  }

  /** A row others left alone was last written by the last Save of it, if any. */
  lemma {:induction false} LastIsLastSaved(log: seq<Write>, k: nat)
    requires k !in Touched(log)
    ensures LastWrite(log, k).None? <==> LastOf(Saves(log), k).None?
    ensures LastWrite(log, k).Some? ==> LastWrite(log, k).value.Saved?
    ensures LastWrite(log, k).Some? ==>
      LastOf(Saves(log), k) == Some((LastWrite(log, k).value.access, LastWrite(log, k).value.refresh))
  {
    hide Changed;
    if log != [] {
      var e, rest := log[|log| - 1], log[..|log| - 1];
      LastIsLastSaved(rest, k);
      if e.Saved? {
        assert Saves(log)[..|Saves(log)| - 1] == Saves(rest);
      } else {
        assert Saves(log) == Saves(rest);
      }
    }
  }

  /******* Segments of a log *******/

  lemma Unchanged(keys: seq<Secret>, t: Table, top: nat, company: Company)
    ensures Others(keys, t, t, top, company)
  {
  }

  lemma OneMore(log: seq<Write>, e: Write, u: Table, top: nat, company: Company)
    requires Chain(log, u, e.before) && AllLawful(log, top, company) && Resealing(log, e.keys)
    requires Lawful(e, top, company) && !e.Saved?
    ensures Chain(log + [e], u, e.after) && AllLawful(log + [e], top, company) && Resealing(log + [e], e.keys)
  {
    hide Lawful;
    assert (log + [e])[..|log|] == log;
  }

  // One row of a reseal, after what others did before it.
  lemma TwoWrites(log: seq<Write>, keys: seq<Secret>, u: Table, a: Table, b: Table, c: Table, row: Keyed, turn: nat,
                  top: nat, company: Company)
    requires Chain(log, u, a) && AllLawful(log, top, company) && Resealing(log, keys)
    requires Others(keys, a, b, top, company) && RowStep(keys, b, c, row)
    ensures var more := log + [Other(turn, keys, a, b)] + [Own(keys, row, b, c)];
      && Chain(more, u, c) && AllLawful(more, top, company) && Resealing(more, keys)
      && Visited(more) == Visited(log) + [row.key]
      && Rewritten(more) == Rewritten(log) + if b == c then {} else {row.key}
  {
    var e, f := Other(turn, keys, a, b), Own(keys, row, b, c);
    hide Others, RowStep, Chain, AllLawful, Resealing, Touched, Visited, Rewritten, Saves, Changed;
    assert Lawful(e, top, company) && Lawful(f, top, company);
    hide Lawful;
    OneMore(log, e, u, top, company);
    OneMore(log + [e], f, u, top, company);
    LogAppend(log, e);
    LogAppend(log + [e], f);
  }

  lemma WroteConcat(a: seq<Write>, b: seq<Write>, keys: seq<Secret>, top: nat, company: Company)
    requires AllLawful(a, top, company) && AllLawful(b, top, company) && Resealing(a, keys) && Resealing(b, keys)
    ensures AllLawful(a + b, top, company) && Resealing(a + b, keys)
  {
    hide Lawful;
  }

  lemma NothingWritten(keys: seq<Secret>, t: Table, top: nat, company: Company)
    ensures Chain([], t, t) && AllLawful([], top, company) && Resealing([], keys)
    ensures Visited([]) == [] && Rewritten([]) == {}
  {
  }

  lemma BelowOnwards(keys: seq<Secret>, t: Table, u: Table, v: Table, top: nat, company: Company, row: Keyed)
    requires Below(t, top) && Others(keys, t, u, top, company) && RowStep(keys, u, v, row)
    ensures Below(v, top) && u.Keys == v.Keys
  {
  }

  lemma NothingLeft(keys: seq<Secret>, t: Table, rows: seq<Keyed>, upTo: nat)
    requires Left(keys, t, rows, upTo) && rows == []
    ensures SettledUpTo(keys, t, upTo)
  {
  }

  /******* Batches *******/

  function Keys(rows: seq<Keyed>): seq<nat> {
    seq(|rows|, (i: nat) requires i < |rows| => rows[i].key)
  }

  ghost predicate Ascending(rows: seq<Keyed>, after: nat, upTo: nat) {
    && (forall i :: 0 <= i < |rows| ==> after < rows[i].key <= upTo)
    && (forall i, j :: 0 <= i < j < |rows| ==> rows[i].key < rows[j].key)
  }

  ghost predicate UpTo(visited: seq<nat>, last: nat) {
    forall k :: k in visited ==> k <= last
  }

  // Every row with a token that nobody else touched, up to a key, was visited.
  ghost predicate AllVisited(t: Table, touched: set<nat>, visited: seq<nat>, upTo: nat) {
    forall k :: k in t && 0 < k <= upTo && k !in touched && HasToken(t[k]) ==> k in visited
  }

  // And of those nobody else touched, no other.
  ghost predicate VisitedHave(t: Table, touched: set<nat>, visited: seq<nat>) {
    forall k :: k in visited && k !in touched ==> k in t && HasToken(t[k])
  }

  lemma KeysOneMore(rows: seq<Keyed>, i: nat, after: nat, upTo: nat)
    requires i < |rows| && Ascending(rows, after, upTo)
    ensures Keys(rows[..i + 1]) == Keys(rows[..i]) + [rows[i].key] && rows[i].key !in Keys(rows[..i])
  {
  }

  lemma BatchBounds(rows: seq<Keyed>, t: Table, after: nat, top: nat, upTo: nat)
    requires IsBatch(rows, t, after) && Below(t, top) && after <= top
    requires upTo == if |rows| < RESEAL_BATCH then top else rows[|rows| - 1].key
    ensures |rows| <= RESEAL_BATCH && Ascending(rows, after, upTo) && after <= upTo <= top
    ensures |rows| == RESEAL_BATCH ==> after < upTo
  {
    forall i | 0 <= i < |rows|
      ensures after < rows[i].key <= rows[|rows| - 1].key <= top
    {
      assert rows[|rows| - 1].key in t && rows[i].key in t;
    }
  }

  lemma BatchVisits(keys: seq<Secret>, t0: Table, t: Table, log: seq<Write>, rows: seq<Keyed>, last: nat, upTo: nat)
    requires Untouched(keys, t0, t, Touched(log)) && Rewrites(keys, t0, t, Touched(log), Rewritten(log))
    requires AllVisited(t0, Touched(log), Visited(log), last) && VisitedHave(t0, Touched(log), Visited(log))
    requires IsBatch(rows, t, last) && (|rows| < RESEAL_BATCH || upTo == rows[|rows| - 1].key)
    ensures AllVisited(t0, Touched(log), Visited(log) + Keys(rows), upTo)
    ensures VisitedHave(t0, Touched(log), Visited(log) + Keys(rows))
  {
    RewrittenIsVisited(log);
    hide Resealed, SettledRow;
    var touched, visited := Touched(log), Visited(log);
    forall k | k in t0 && 0 < k <= upTo && k !in touched && HasToken(t0[k])
      ensures k in visited + Keys(rows)
    {
      if k !in visited {
        assert k > last && t[k] == t0[k];
        assert InBatch(rows, k);
        var i :| 0 <= i < |rows| && rows[i].key == k;
        assert Keys(rows)[i] == k;
      }
    }
    forall k | k in Keys(rows) && k !in touched
      ensures k in t0 && HasToken(t0[k])
    {
      var i :| 0 <= i < |rows| && rows[i].key == k;
      assert Resealed(keys, t0[k], t[k]);
    }
  }

  lemma BatchLeaves(keys: seq<Secret>, t: Table, rows: seq<Keyed>, last: nat, upTo: nat)
    requires SettledUpTo(keys, t, last) && IsBatch(rows, t, last)
    requires |rows| < RESEAL_BATCH || upTo == rows[|rows| - 1].key
    ensures Left(keys, t, rows, upTo)
  {
    forall k | k in t && 0 < k <= upTo
      ensures SettledRow(keys, t[k]) || Keyed(k, t[k]) in rows
    {
      if k > last && HasToken(t[k]) {
        assert InBatch(rows, k);
        var i :| 0 <= i < |rows| && rows[i].key == k;
        assert rows[i] == Keyed(k, t[k]);
      }
    }
  }

  lemma IncreasingOnwards(visited: seq<nat>, rows: seq<Keyed>, last: nat, upTo: nat, more: seq<nat>)
    requires Increasing(visited) && UpTo(visited, last) && more <= Keys(rows) && Ascending(rows, last, upTo)
    requires last <= upTo
    ensures Increasing(visited + more) && UpTo(visited + more, upTo)
  {
    assert forall i :: 0 <= i < |visited| ==> visited[i] in visited;
    forall i | 0 <= i < |more|
      ensures more[i] == rows[i].key
    {
      assert more[i] == Keys(rows)[i];
    }
  }

  // Where a reseal is after the rows up to a key.
  ghost predicate Swept(keys: seq<Secret>, t: Table, u: Table, log: seq<Write>, last: nat) {
    && Increasing(Visited(log)) && UpTo(Visited(log), last) && VisitedHave(t, Touched(log), Visited(log))
    && Untouched(keys, t, u, Touched(log)) && Rewrites(keys, t, u, Touched(log), Rewritten(log))
  }

  lemma NothingSwept(keys: seq<Secret>, t: Table, top: nat, company: Company)
    ensures Chain([], t, t) && AllLawful([], top, company) && Resealing([], keys) && Rewritten([]) == {}
    ensures Swept(keys, t, t, [], 0) && AllVisited(t, Touched([]), Visited([]), 0) && SettledUpTo(keys, t, 0)
  {
  }

  lemma SweptBelow(keys: seq<Secret>, t: Table, u: Table, log: seq<Write>, last: nat, top: nat)
    requires Swept(keys, t, u, log, last) && last <= top
    ensures Swept(keys, t, u, log, top)
  {
    hide Touched, Visited, Rewritten;
  }

  // A batch comes after the rows visited before it.
  lemma RewrittenApart(seg: seq<Write>, more: seq<Write>, rows: seq<Keyed>, last: nat, upTo: nat)
    requires UpTo(Visited(seg), last) && Visited(more) <= Keys(rows) && Ascending(rows, last, upTo)
    ensures |Rewritten(seg + more)| == |Rewritten(seg)| + |Rewritten(more)|
  {
    LogConcat(seg, more);
    RewrittenIsVisited(seg);
    RewrittenIsVisited(more);
    forall k | k in Visited(more)
      ensures k > last
    {
      var i :| 0 <= i < |Visited(more)| && Visited(more)[i] == k;
      assert Keys(rows)[i] == k;
    }
    assert Rewritten(seg) !! Rewritten(more);
  }

  lemma SweptOnwards(keys: seq<Secret>, t: Table, u: Table, v: Table, seg: seq<Write>, more: seq<Write>,
                     rows: seq<Keyed>, last: nat, upTo: nat, top: nat, company: Company)
    requires Swept(keys, t, u, seg, last) && AllVisited(t, Touched(seg), Visited(seg), last)
    requires IsBatch(rows, u, last) && Ascending(rows, last, upTo) && last <= upTo
    requires |rows| < RESEAL_BATCH || upTo == rows[|rows| - 1].key
    requires Visited(more) <= Keys(rows)
    requires Chain(seg, t, u) && AllLawful(seg, top, company) && Resealing(seg, keys)
    requires Chain(more, u, v) && AllLawful(more, top, company) && Resealing(more, keys) && upTo <= top
    ensures Chain(seg + more, t, v) && AllLawful(seg + more, top, company) && Resealing(seg + more, keys)
    ensures Swept(keys, t, v, seg + more, upTo) && Swept(keys, t, v, seg + more, top)
    ensures |Rewritten(seg + more)| == |Rewritten(seg)| + |Rewritten(more)|
    ensures Visited(more) == Keys(rows) ==> AllVisited(t, Touched(seg + more), Visited(seg + more), upTo)
  {
    hide Touched, Visited, Rewritten, Chain, AllLawful, Resealing, IsBatch, Untouched, Rewrites;
    ChainConcat(seg, more, t, u, v);
    WroteConcat(seg, more, keys, top, company);
    BatchVisits(keys, t, u, seg, rows, last, upTo);
    LogConcat(seg, more);
    var visited, a, b := Visited(seg), Touched(seg), Touched(seg + more);
    assert forall k :: k in Visited(more) ==> k in Keys(rows);
    IncreasingOnwards(visited, rows, last, upTo, Visited(more));
    RewrittenApart(seg, more, rows, last, upTo);
    ChainUntouched(seg + more, keys, t, v, top, company);
    ChainRewrites(seg + more, keys, t, v, top, company);
  }

  /**
   A reseal nobody disturbed: it came to the rows with a token, each once and in order, and rewrote those that were
   not settled; the rows are the same, each reads the same, and what is settled, an unreadable token among it, is
   the same value.
   */
  lemma AloneIsExact(keys: seq<Secret>, t: Table, u: Table, log: seq<Write>, top: nat)
    requires Swept(keys, t, u, log, top) && AllLawful(log, top, Alone) && Below(t, top)
    ensures Touched(log) == {} && t.Keys == u.Keys && Increasing(Visited(log))
    ensures forall k :: k in t ==> Resealed(keys, t[k], u[k])
    ensures AllVisited(t, Touched(log), Visited(log), top) ==>
      forall k :: k in Visited(log) <==> k in t && HasToken(t[k])
    ensures SettledUpTo(keys, u, top) ==> Rewritten(log) == set k | k in t && !SettledRow(keys, t[k])
    ensures keys != [] && SettledUpTo(keys, u, top) ==>
      forall k :: k in u ==> UnderFirst(keys, t[k].access, u[k].access) && UnderFirst(keys, t[k].refresh, u[k].refresh)
  {
    AlonePasses(log, top);
    RewrittenIsVisited(log);
    if keys != [] && SettledUpTo(keys, u, top) {
      forall k | k in u
        ensures UnderFirst(keys, t[k].access, u[k].access) && UnderFirst(keys, t[k].refresh, u[k].refresh)
      {
        assert SettledRow(keys, u[k]) && Resealed(keys, t[k], u[k]);
        SealedUnderFirst(keys, t[k].access, u[k].access);
        SealedUnderFirst(keys, t[k].refresh, u[k].refresh);
      }
    }
    hide SettledRow, Resealed;
  }

  // A token that could be read is sealed under the first key, with its plaintext, whatever it was before.
  predicate UnderFirst(keys: seq<Secret>, before: Stored, after: Stored)
    requires keys != []
  {
    match before
    case Clear(text) => text != "" ==> after.Sealed? && after.key == keys[0] && after.plain == text
    case Sealed(key, _, plain) =>
      key in keys && plain != "" ==> after.Sealed? && after.key == keys[0] && after.plain == plain
    case Garbled(_) => after == before
  }

  lemma SealedUnderFirst(keys: seq<Secret>, before: Stored, after: Stored)
    requires keys != [] && Settled(keys, after) && Plain(keys, after) == Plain(keys, before)
    requires Settled(keys, before) ==> after == before
    ensures UnderFirst(keys, before, after)
  {
  }
}

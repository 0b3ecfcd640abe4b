/**
 Resealing the tokens of porte_identities beside other writers, and rotating keys.
 */
module Resealing {
  import opened Wrappers
  import opened Sealing
  import opened ResealLog

  datatype Op =
    | AddKey(key: Secret)
    | SaveTokens(row: nat, access: string, refresh: string)
    | LetOthers(company: Company)
    | RunReseal(company: Company)
    | DropOldKeys

  // What is configured after an operation that was done or not.
  function NextKeys(keys: seq<Secret>, op: Op, done: bool): seq<Secret> {
    match op
    case AddKey(key) => [key] + keys
    case DropOldKeys => if done && keys != [] then keys[..1] else keys
    case _ => keys
  }

  // Whether a reseal has finished since the last key came, with every writer sealing under the first key since.
  predicate NextClean(clean: bool, op: Op, done: bool) {
    match op
    case AddKey(_) => false
    case LetOthers(company) => clean && !company.Anyone?
    case RunReseal(company) => !company.Anyone? && (clean || done)
    case _ => clean
  }

  function NextSaves(op: Op, done: bool): seq<(nat, string, string)> {
    if op.SaveTokens? && done then [(op.row, op.access, op.refresh)] else []
  }

  function KeysAfter(keys: seq<Secret>, ops: seq<Op>, done: seq<bool>): seq<Secret>
    requires |ops| == |done|
  {
    var n := |ops| - 1;
    if ops == [] then keys else NextKeys(KeysAfter(keys, ops[..n], done[..n]), ops[n], done[n])
  }

  predicate CleanAfter(ops: seq<Op>, done: seq<bool>)
    requires |ops| == |done|
  {
    var n := |ops| - 1;
    ops != [] && NextClean(CleanAfter(ops[..n], done[..n]), ops[n], done[n])
  }

  // Old keys were dropped exactly where that was so.
  predicate DropsWhenClean(ops: seq<Op>, done: seq<bool>)
    requires |ops| == |done|
  {
    var n := |ops| - 1;
    ops == [] || (DropsWhenClean(ops[..n], done[..n]) &&
                  (ops[n].DropOldKeys? ==> (done[n] <==> CleanAfter(ops[..n], done[..n]))))
  }

  function SavesOf(ops: seq<Op>, done: seq<bool>): seq<(nat, string, string)>
    requires |ops| == |done|
  {
    var n := |ops| - 1;
    if ops == [] then [] else SavesOf(ops[..n], done[..n]) + NextSaves(ops[n], done[n])
  }

  // A row is there as it was, and reads what it read.
  ghost predicate SameRow(keys: seq<Secret>, t: Table, keys0: seq<Secret>, t0: Table, k: nat) {
    (k in t <==> k in t0) && (k in t ==> Covers(View(keys, t[k]), View(keys0, t0[k])))
  }

  function Intended(e: Write): Pair
    requires e.Saved?
  {
    Pair(Some(e.access), Some(e.refresh))
  }

  // An operation in which nobody else wrote.
  predicate Undisturbed(op: Op) {
    op.LetOthers? || op.RunReseal? ==> op.company.Alone?
  }

  // What an operation may add to the log.
  ghost predicate Adds(more: seq<Write>, keys: seq<Secret>, op: Op, done: bool, top: nat) {
    && AllLawful(more, top, Anyone) && Saves(more) == NextSaves(op, done)
    && (Undisturbed(op) ==> Touched(more) == {})
    && forall i :: 0 <= i < |more| ==> more[i].keys == keys
  }

  lemma AddsOne(e: Write, keys: seq<Secret>, op: Op, top: nat, company: Company)
    requires Lawful(e, top, company) && e.keys == keys
    requires (e.Other? && op == LetOthers(company)) || (e.Saved? && op == SaveTokens(e.key, e.access, e.refresh))
    ensures Adds([e], keys, op, true, top)
  {
    LogAppend([], e);
    assert [] + [e] == [e] && Saves([]) == [] && Touched([]) == {};
    assert AllLawful([e], top, company);
    AnyoneMay([e], top, company);
    hide Lawful, SaveStep, Saves, Touched;
    if company.Alone? && e.Other? {
      assert e.before == e.after;
    }
  }

  lemma AddsNothing(keys: seq<Secret>, op: Op, done: bool, top: nat)
    requires op.AddKey? || op.DropOldKeys? || (op.SaveTokens? && !done)
    ensures Adds([], keys, op, done, top)
  {
  }

  lemma SaveStepKeeps(keys: seq<Secret>, t: Table, u: Table, key: nat, access: string, refresh: string, top: nat,
                      done: bool)
    requires if done then SaveStep(keys, t, u, key, access, refresh) else t == u
    requires Below(t, top) && 0 < key <= top
    ensures Below(u, top)
    ensures keys != [] && SettledUpTo(keys, t, top) ==> SettledUpTo(keys, u, top)
  {
    hide View, SettledRow;
  }

  lemma OthersStayBelow(keys: seq<Secret>, t: Table, u: Table, top: nat, company: Company)
    requires Below(t, top) && Others(keys, t, u, top, company)
    ensures Below(u, top)
  {
  }

  lemma AddsReseal(more: seq<Write>, keys: seq<Secret>, done: bool, top: nat, company: Company)
    requires AllLawful(more, top, company) && Resealing(more, keys)
    ensures Adds(more, keys, RunReseal(company), done, top)
  {
    hide Lawful;
    NoSaves(more, keys);
    AnyoneMay(more, top, company);
    if company.Alone? {
      AlonePasses(more, top);
    }
  }

  lemma {:induction false} NoSaves(log: seq<Write>, keys: seq<Secret>)
    requires Resealing(log, keys)
    ensures Saves(log) == []
  {
    if log != [] {
      NoSaves(log[..|log| - 1], keys);
    }
  }

  lemma Beginning(keys: seq<Secret>, t: Table, ops: seq<Op>, top: nat)
    ensures Faithful(keys, t, keys, t, []) && Chain([], t, t) && AllLawful([], top, Anyone)
    ensures Touched([]) == {} && Saves([]) == [] && ops[..0] == []
    ensures KeysAfter(keys, [], []) == keys && !CleanAfter([], []) && SavesOf([], []) == [] && DropsWhenClean([], [])
  {
  }

  lemma NobodyYet(others: Moves, turn: nat)
    ensures Theirs([], others, turn)
  {
  }

  lemma AddsOnwards(log: seq<Write>, more: seq<Write>, keys: seq<Secret>, op: Op, done: bool, top: nat)
    requires AllLawful(log, top, Anyone) && Adds(more, keys, op, done, top)
    ensures AllLawful(log + more, top, Anyone) && Saves(log + more) == Saves(log) + NextSaves(op, done)
    ensures Undisturbed(op) ==> Touched(log + more) == Touched(log)
    ensures forall i :: 0 <= i < |more| ==> more[i].keys == keys
    ensures keys != [] ==> NextKeys(keys, op, done) != []
  {
    hide Lawful;
    LogConcat(log, more);
  }

  lemma OneMoreOp(keys: seq<Secret>, ops: seq<Op>, done: seq<bool>, i: nat, d: bool)
    requires |done| == i < |ops|
    ensures KeysAfter(keys, ops[..i + 1], done + [d]) == NextKeys(KeysAfter(keys, ops[..i], done), ops[i], d)
    ensures CleanAfter(ops[..i + 1], done + [d]) == NextClean(CleanAfter(ops[..i], done), ops[i], d)
    ensures SavesOf(ops[..i + 1], done + [d]) == SavesOf(ops[..i], done) + NextSaves(ops[i], d)
    ensures DropsWhenClean(ops[..i + 1], done + [d]) <==>
      DropsWhenClean(ops[..i], done) && (ops[i].DropOldKeys? ==> (d <==> CleanAfter(ops[..i], done)))
  {
    hide NextKeys, NextClean, NextSaves;
    assert ops[..i + 1][..i] == ops[..i] && (done + [d])[..i] == done;
  }

  lemma RotationReads(keys: seq<Secret>, t: Table, keys0: seq<Secret>, t0: Table, log: seq<Write>, top: nat)
    requires Faithful(keys, t, keys0, t0, log) && AllLawful(log, top, Anyone)
    requires forall i :: 0 <= i < |log| ==> log[i].keys != []
    ensures forall k :: LastWrite(log, k).Some? && LastWrite(log, k).value.Saved? ==>
      k in t && View(keys, t[k]) == Intended(LastWrite(log, k).value)
  {
    forall k | LastWrite(log, k).Some? && LastWrite(log, k).value.Saved?
      ensures k in t && View(keys, t[k]) == Intended(LastWrite(log, k).value)
    {
      SavedReads(keys, t, keys0, t0, log, k, top, Anyone);
      LastIsLawful(log, k, top, Anyone);
    }
  }

  lemma LeftAloneReads(keys: seq<Secret>, t: Table, keys0: seq<Secret>, t0: Table, log: seq<Write>, top: nat)
    requires Faithful(keys, t, keys0, t0, log) && AllLawful(log, top, Anyone)
    ensures forall k :: k !in Touched(log) && LastOf(Saves(log), k).None? ==> SameRow(keys, t, keys0, t0, k)
    ensures (forall i :: 0 <= i < |log| ==> log[i].keys != []) ==>
      forall k :: k !in Touched(log) && LastOf(Saves(log), k).Some? ==>
        k in t && View(keys, t[k]) == Pair(Some(LastOf(Saves(log), k).value.0), Some(LastOf(Saves(log), k).value.1))
  {
    forall k | k !in Touched(log)
      ensures LastOf(Saves(log), k).None? ==> SameRow(keys, t, keys0, t0, k)
      ensures LastOf(Saves(log), k).Some? && (forall i :: 0 <= i < |log| ==> log[i].keys != []) ==>
        k in t && View(keys, t[k]) == Pair(Some(LastOf(Saves(log), k).value.0), Some(LastOf(Saves(log), k).value.1))
    {
      LastIsLastSaved(log, k);
      assert ReadsBack(keys, t, keys0, t0, log, k);
      if forall i :: 0 <= i < |log| ==> log[i].keys != [] {
        RotationReads(keys, t, keys0, t0, log, top);
      }
    }
  }

  lemma AnyoneMay(log: seq<Write>, top: nat, company: Company)
    requires AllLawful(log, top, company)
    ensures AllLawful(log, top, Anyone)
  {
    forall i | 0 <= i < |log|
      ensures Lawful(log[i], top, Anyone)
    {
      assert Lawful(log[i], top, company);
      hide RowStep, SaveStep, SettledRow;
    }
  }

  class IdentityStore {
    var keys: seq<Secret>
    var t: Table

    // What other writers do, and how often they had a turn.
    const others: Moves
    var turn: nat

    // Every write since the log was begun, and the keys and the table it began with; the times the database
    // failed, and the times there was no randomness.
    ghost var log: seq<Write>
    ghost var keys0: seq<Secret>
    ghost var t0: Table
    ghost var faults: nat
    ghost var dry: nat

    ghost predicate Valid()
      reads this
    {
      Faithful(keys, t, keys0, t0, log) && Chain(log, t0, t) && Theirs(log, others, turn)
    }

    // The writes since an index of the log made the table what it is, and were this reseal's or others'.
    ghost predicate Wrote(from: nat, u: Table, top: nat, company: Company)
      reads this
    {
      && from <= |log| && Chain(log[from..], u, t) && AllLawful(log[from..], top, company)
      && Resealing(log[from..], keys)
    }

    constructor (configured: seq<Secret>, rows: Table, moves: Moves)
      ensures Valid() && keys == configured && t == rows && log == [] && others == moves
    {
      keys, t, keys0, t0, log, others := configured, rows, configured, rows, [], moves;
      faults, dry, turn := 0, 0, 0;
    }

    /******* What others do *******/

    // Other writers have their turn between two statements.
    method Meanwhile(top: nat, company: Company)
      requires Valid()
      modifies this`t, this`turn, this`log
      ensures Valid() && log == old(log) + [Other(old(turn), keys, old(t), t)] && turn == old(turn) + 1
      ensures Others(keys, old(t), t, top, company)
      ensures Others(keys, old(t), others(old(turn), old(t)), top, company) ==> t == others(old(turn), old(t))
    {
      hide Faithful, Others, SettledRow, Chain, Theirs;
      var u := others(turn, t);
      Unchanged(keys, t, top, company);
      if !Others(keys, t, u, top, company) {
        u := t;
      }
      ghost var e := Other(turn, keys, t, u);
      FaithfulOnwards(keys, t, keys0, t0, log, e, top, company);
      ChainAppend(log, e, t0);
      TheirsAppend(log, others, turn, e);
      t, turn, log := u, turn + 1, log + [e];
    }

    // One page of the query, or an error of the database's.
    method TokenBatch(after: nat) returns (rows: Option<seq<Keyed>>)
      modifies this`faults
      ensures rows.Some? ==> IsBatch(rows.value, t, after) && faults == old(faults)
      ensures rows.None? ==> faults == old(faults) + 1
    {
      var page: seq<Keyed> := *;
      var answered := *;
      if answered && IsBatch(page, t, after) {
        return Some(page);
      }
      faults := faults + 1;
      rows := None;
    }

    /******* The reseal *******/

    /** Rewrites one row as read, if it still is what was read. */
    method ResealRow(row: Keyed, ghost top: nat) returns (changed: nat, failed: bool, starved: bool)
      requires Valid() && keys != []
      modifies this`t, this`log, this`faults, this`dry
      ensures Valid() && log == old(log) + [Own(keys, row, old(t), t)] && RowStep(keys, old(t), t, row)
      ensures changed == if t == old(t) then 0 else 1
      ensures failed ==> faults > old(faults) && t == old(t)
      ensures !failed ==> faults == old(faults)
      ensures dry >= old(dry) && (starved <==> dry > old(dry))
      ensures !failed && !starved && row.key in t && old(t)[row.key] == row.row ==> SettledRow(keys, t[row.key])
    {
      hide Faithful, Plain, Settled, Chain, Theirs;
      var access, accessChanged, s := ResealValue(keys, row.row.access);
      var refresh, refreshChanged, r := ResealValue(keys, row.row.refresh);
      changed, failed, starved := 0, false, s || r;
      dry := if starved then dry + 1 else dry;
      ghost var before := t;
      if accessChanged || refreshChanged {
        failed := *;
        if failed {
          faults := faults + 1;
        } else if row.key in t && t[row.key] == row.row {
          t := t[row.key := Row(access, refresh)];
          changed := 1;
        }
      }
      ghost var e := Own(keys, row, before, t);
      FaithfulOnwards(keys, before, keys0, t0, log, e, top, Anyone);
      ChainAppend(log, e, t0);
      TheirsAppend(log, others, turn, e);
      log := log + [e];
    }

    // One row of a batch, after whatever others did since it was read.
    method ResealNext(row: Keyed, ghost rest: seq<Keyed>, ghost upTo: nat, top: nat, company: Company,
                      ghost from: nat, ghost u: Table)
      returns (changed: nat, failed: bool, starved: bool)
      requires Valid() && keys != [] && Below(t, top) && Wrote(from, u, top, company) && 0 < row.key <= top
      modifies this`t, this`turn, this`log, this`faults, this`dry
      ensures Valid() && Below(t, top) && Wrote(from, u, top, company) && old(log) <= log
      ensures Visited(log[from..]) == Visited(old(log)[from..]) + [row.key]
      ensures Rewritten(log[from..]) == Rewritten(old(log)[from..]) + if changed == 0 then {} else {row.key}
      ensures changed <= 1 && dry >= old(dry) && (starved <==> dry > old(dry))
      ensures faults >= old(faults) && (failed <==> faults > old(faults))
      ensures !company.Anyone? && !failed && !starved && old(Left(keys, t, [row] + rest, upTo)) ==>
        Left(keys, t, rest, upTo)
      ensures !company.Anyone? && old(SettledUpTo(keys, t, top)) ==> changed == 0 && SettledUpTo(keys, t, top)
    {
      hide Faithful, Others, RowStep, Left, SettledUpTo, SettledRow, Below, Touched, Visited, Rewritten, Saves, Chain,
           AllLawful, Resealing, Theirs;
      ghost var a, seg, k := t, log[from..], turn;
      Meanwhile(top, company);
      ghost var v := t;
      changed, failed, starved := ResealRow(row, top);
      assert log[from..] == seg + [Other(k, keys, a, v)] + [Own(keys, row, v, t)];
      TwoWrites(seg, keys, u, a, v, t, row, k, top, company);
      BelowOnwards(keys, a, v, t, top, company, row);
      if !company.Anyone? && SettledUpTo(keys, a, top) {
        SettledAfterOthers(keys, a, v, top, company, top);
        SettledAfterRow(keys, v, t, row, top);
      }
      if !company.Anyone? && !failed && !starved && Left(keys, a, [row] + rest, upTo) {
        LeftAfterOthers(keys, a, v, top, company, [row] + rest, upTo);
        LeftAfterRow(keys, v, t, row, rest, upTo);
      }
    }

    /** Reseals a batch row by row while others write; the first error ends it. */
    method ResealRows(rows: seq<Keyed>, ghost after: nat, ghost upTo: nat, top: nat, company: Company)
      returns (total: nat, failed: bool, starved: bool)
      requires Valid() && keys != [] && Below(t, top) && upTo <= top && Ascending(rows, after, upTo)
      modifies this`t, this`turn, this`log, this`faults, this`dry
      ensures Valid() && Below(t, top) && old(log) <= log && Wrote(|old(log)|, old(t), top, company)
      ensures Visited(log[|old(log)|..]) <= Keys(rows)
      ensures !failed ==> Visited(log[|old(log)|..]) == Keys(rows)
      ensures total == |Rewritten(log[|old(log)|..])|
      ensures dry >= old(dry) && (starved <==> dry > old(dry))
      ensures faults >= old(faults) && (failed <==> faults > old(faults))
      ensures !company.Anyone? && !failed && !starved && old(Left(keys, t, rows, upTo)) ==> SettledUpTo(keys, t, upTo)
      ensures !company.Anyone? && old(SettledUpTo(keys, t, top)) ==> total == 0 && SettledUpTo(keys, t, top)
    {
      hide Theirs, Faithful, Chain, Lawful, Left, SettledUpTo, SettledRow, Below, Touched, Visited, Rewritten, Saves,
           AllLawful, Resealing;
      total, failed, starved := 0, false, false;
      ghost var from, u := |log|, t;
      ghost var lucky := !company.Anyone? && Left(keys, t, rows, upTo);
      ghost var idle := !company.Anyone? && SettledUpTo(keys, t, top);
      assert rows[0..] == rows && Keys(rows[..0]) == [] && log[from..] == [];
      NothingWritten(keys, t, top, company);
      for i := 0 to |rows|
        invariant Valid() && Below(t, top) && old(log) <= log && from == |old(log)|
        invariant Wrote(from, u, top, company)
        invariant Visited(log[from..]) == Keys(rows[..i]) && total == |Rewritten(log[from..])|
        invariant dry >= old(dry) && (starved <==> dry > old(dry)) && faults == old(faults)
        invariant lucky && !starved ==> Left(keys, t, rows[i..], upTo)
        invariant idle ==> total == 0 && SettledUpTo(keys, t, top)
      {
        assert rows[i..] == [rows[i]] + rows[i + 1..];
        KeysOneMore(rows, i, after, upTo);
        RewrittenIsVisited(log[from..]);
        var changed, hungry;
        changed, failed, hungry := ResealNext(rows[i], rows[i + 1..], upTo, top, company, from, u);
        starved := starved || hungry;
        total := total + changed;
        if failed {
          return;
        }
      }
      assert rows[..|rows|] == rows;
      if lucky && !starved {
        NothingLeft(keys, t, rows[|rows|..], upTo);
      }
    }

    // One turn of the loop: a batch after a key, and its rows.
    method ResealNextBatch(last: nat, top: nat, company: Company, ghost from: nat, ghost u: Table)
      returns (changed: nat, more: bool, next: nat, failed: bool, starved: bool)
      requires Valid() && keys != [] && Below(t, top) && last <= top && Wrote(from, u, top, company)
      requires Swept(keys, u, t, log[from..], last) && AllVisited(u, Touched(log[from..]), Visited(log[from..]), last)
      modifies this`t, this`turn, this`log, this`faults, this`dry
      ensures Valid() && Below(t, top) && old(log) <= log && Wrote(from, u, top, company)
      ensures last <= next <= top && Swept(keys, u, t, log[from..], top)
      ensures !failed ==>
        Swept(keys, u, t, log[from..], next) && AllVisited(u, Touched(log[from..]), Visited(log[from..]), next)
      ensures if more then !failed && last < next else failed || next == top
      ensures |Rewritten(log[from..])| == |Rewritten(old(log)[from..])| + changed
      ensures !company.Anyone? && !failed && !starved && old(SettledUpTo(keys, t, last)) ==> SettledUpTo(keys, t, next)
      ensures !company.Anyone? && old(SettledUpTo(keys, t, top)) ==> changed == 0 && SettledUpTo(keys, t, top)
      ensures dry >= old(dry) && (starved <==> dry > old(dry))
      ensures faults >= old(faults) && (failed <==> faults > old(faults))
    {
      hide Theirs, Faithful, Chain, Lawful, Left, SettledUpTo, SettledRow, Below, Touched, Visited, Rewritten, Saves,
           AllLawful, Resealing, IsBatch, AllVisited, Ascending, Swept, Keys;
      changed, more, next, failed, starved := 0, false, last, false, false;
      SweptBelow(keys, u, t, log[from..], last, top);
      var batch := TokenBatch(last);
      if batch.None? {
        failed := true;
        return;
      }
      var rows := batch.value;
      ghost var upTo := if |rows| < RESEAL_BATCH then top else rows[|rows| - 1].key;
      ghost var v, seg, mid, clean := t, log[from..], |log|, !company.Anyone? && SettledUpTo(keys, t, last);
      BatchBounds(rows, t, last, top, upTo);
      if clean {
        BatchLeaves(keys, t, rows, last, upTo);
      }
      changed, failed, starved := ResealRows(rows, last, upTo, top, company);
      assert log[from..] == seg + log[mid..];
      SweptOnwards(keys, u, v, t, seg, log[mid..], rows, last, upTo, top, company);
      more := !failed && |rows| == RESEAL_BATCH;
      next := if more then rows[|rows| - 1].key else top;
    }

    /**
     Seals every readable token under the first key while others write. It ends; it fails only with the database
     or without a key; it comes to each row with a token that nobody else touches, once, and rewrites exactly
     those that were not settled; and no row reads differently for it. If the others seal under the same first
     key, nothing is left to reseal afterwards, and a run that begins so rewrites no row.
     */
    method ResealIdentities(top: nat, company: Company) returns (total: nat, failed: bool, starved: bool)
      requires Valid() && Below(t, top)
      modifies this`t, this`turn, this`log, this`faults, this`dry
      ensures Valid() && Below(t, top) && old(log) <= log && Wrote(|old(log)|, old(t), top, company)
      ensures var run := log[|old(log)|..];
        && Swept(keys, old(t), t, run, top) && total == |Rewritten(run)|
        && (!failed ==> AllVisited(old(t), Touched(run), Visited(run), top))
      ensures !company.Anyone? && !failed && !starved ==> SettledUpTo(keys, t, top)
      ensures !company.Anyone? && old(SettledUpTo(keys, t, top)) ==> total == 0 && SettledUpTo(keys, t, top)
      ensures keys == [] ==> failed && t == old(t)
      ensures faults >= old(faults) && (failed ==> keys == [] || faults > old(faults))
      ensures dry >= old(dry) && (starved <==> dry > old(dry))
    {
      hide Theirs, Faithful, Chain, Lawful, Left, SettledUpTo, SettledRow, Below, Touched, Visited, Rewritten, Saves,
           AllLawful, Resealing, IsBatch, AllVisited, Ascending, Swept, Keys;
      total, failed, starved := 0, false, false;
      ghost var from, u := |log|, t;
      assert log[from..] == [];
      NothingSwept(keys, t, top, company);
      SweptBelow(keys, t, t, [], 0, top);
      if keys == [] {
        failed := true;
        return;
      }
      ghost var idle := !company.Anyone? && SettledUpTo(keys, t, top);
      var last := 0;
      while true
        invariant Valid() && Below(t, top) && last <= top && old(log) <= log && from == |old(log)|
        invariant Wrote(from, u, top, company) && Swept(keys, u, t, log[from..], last)
        invariant AllVisited(u, Touched(log[from..]), Visited(log[from..]), last)
        invariant total == |Rewritten(log[from..])|
        invariant !company.Anyone? && !starved ==> SettledUpTo(keys, t, last)
        invariant idle ==> total == 0 && SettledUpTo(keys, t, top)
        invariant dry >= old(dry) && (starved <==> dry > old(dry)) && faults == old(faults) && !failed
        decreases top - last
      {
        var changed, more, next, hungry;
        changed, more, next, failed, hungry := ResealNextBatch(last, top, company, from, u);
        total, starved := total + changed, starved || hungry;
        if !more {
          return;
        }
        last := next;
      }
    }

    /** Stores a person's tokens, sealed when there is a key; what is written is what will be read. */
    method Save(key: nat, access: string, refresh: string, ghost top: nat) returns (ok: bool)
      requires Valid() && 0 < key <= top
      modifies this`t, this`log, this`faults
      ensures Valid()
      ensures ok ==> log == old(log) + [Saved(keys, key, access, refresh, old(t), t)] && faults == old(faults)
      ensures ok ==> SaveStep(keys, old(t), t, key, access, refresh)
      ensures !ok ==> t == old(t) && log == old(log) && faults > old(faults)
    {
      hide Faithful, Chain, Theirs;
      var failed, first: nat, second: nat := *, *, *;
      if failed {
        faults := faults + 1;
        return false;
      }
      OpenSeal(keys, access, first);
      OpenSeal(keys, refresh, second);
      ghost var before := t;
      t := t[key := Row(Seal(keys, access, first), Seal(keys, refresh, second))];
      ghost var e := Saved(keys, key, access, refresh, before, t);
      assert Lawful(e, top, Anyone);
      FaithfulOnwards(keys, before, keys0, t0, log, e, top, Anyone);
      ChainAppend(log, e, t0);
      TheirsAppend(log, others, turn, e);
      log := log + [e];
      ok := true;
    }

    // One operation of a rotation. Old keys are dropped only when clean.
    method Do(op: Op, clean: bool, top: nat) returns (done: bool)
      requires Valid() && Below(t, top) && (op.SaveTokens? ==> 0 < op.row <= top)
      requires clean ==> keys != [] && SettledUpTo(keys, t, top)
      modifies this`keys, this`t, this`turn, this`log, this`faults, this`dry
      ensures Valid() && Below(t, top) && old(log) <= log && faults >= old(faults) && dry >= old(dry)
      ensures Adds(log[|old(log)|..], old(keys), op, done, top)
      ensures keys == NextKeys(old(keys), op, done)
      ensures NextClean(clean, op, done) ==> keys != [] && SettledUpTo(keys, t, top)
      ensures op.DropOldKeys? ==> (done <==> clean)
      ensures !done ==> op.DropOldKeys? || old(keys) == [] || faults > old(faults) || dry > old(dry)
    {
      hide Theirs, Faithful, Chain, Others, SaveStep, SettledUpTo, Touched, Saves, AllLawful, Resealing, Below, Adds,
           Swept, AllVisited;
      done := true;
      ghost var from := |log|;
      assert log[from..] == [];
      match op
      case AddKey(key) =>
        FaithfulWithMore(keys, key, t, keys0, t0, log);
        AddsNothing(keys, op, done, top);
        keys := [key] + keys;
      case SaveTokens(row, access, refresh) =>
        ghost var u := t;
        done := Save(row, access, refresh, top);
        SaveStepKeeps(keys, u, t, row, access, refresh, top, done);
        if done {
          assert log[from..] == [log[from]];
          AddsOne(log[from], keys, op, top, Anyone);
        } else {
          AddsNothing(keys, op, done, top);
        }
      case LetOthers(company) =>
        ghost var u := t;
        Meanwhile(top, company);
        assert log[from..] == [log[from]];
        AddsOne(log[from], keys, op, top, company);
        OthersStayBelow(keys, u, t, top, company);
        if clean && !company.Anyone? {
          SettledAfterOthers(keys, u, t, top, company, top);
        }
      case RunReseal(company) =>
        var _, failed, starved := ResealIdentities(top, company);
        done := !failed && !starved;
        AddsReseal(log[from..], keys, done, top, company);
      case DropOldKeys =>
        done := clean;
        AddsNothing(keys, op, done, top);
        if clean {
          FaithfulWithFirst(keys, t, keys0, t0, log, top);
          keys := keys[..1];
        }
    }

    /**
     A rotation of keys: keys added, tokens saved, others at work, reseals, and old keys dropped, in any order and
     with any failures. Old keys go only once a reseal has finished since the last key came, with every other
     writer sealing under the first key since. What was saved last is read from then on, and what nobody wrote is
     read as at the start.
     */
    method Rotate(ops: seq<Op>, top: nat) returns (done: seq<bool>)
      requires Valid() && Below(t, top)
      requires forall op :: op in ops && op.SaveTokens? ==> 0 < op.row <= top
      modifies this
      ensures Valid() && keys0 == old(keys) && t0 == old(t) && AllLawful(log, top, Anyone) && |done| == |ops|
      ensures keys == KeysAfter(old(keys), ops, done) && Saves(log) == SavesOf(ops, done)
      ensures DropsWhenClean(ops, done)
      ensures (exists i :: 0 <= i < |ops| && !done[i] && !ops[i].DropOldKeys?) ==>
        old(keys) == [] || faults > old(faults) || dry > old(dry)
      ensures (forall op :: op in ops ==> Undisturbed(op)) ==> Touched(log) == {}
      ensures old(keys) != [] ==> keys != [] && forall i :: 0 <= i < |log| ==> log[i].keys != []
      ensures forall k :: k !in Touched(log) && LastOf(SavesOf(ops, done), k).None? ==>
        SameRow(keys, t, old(keys), old(t), k)
      ensures old(keys) != [] ==> forall k :: k !in Touched(log) && LastOf(SavesOf(ops, done), k).Some? ==>
        && k in t
        && View(keys, t[k]) == Pair(Some(LastOf(SavesOf(ops, done), k).value.0),
                                    Some(LastOf(SavesOf(ops, done), k).value.1))
      ensures old(keys) != [] ==> forall k :: LastWrite(log, k).Some? && LastWrite(log, k).value.Saved? ==>
        k in t && View(keys, t[k]) == Intended(LastWrite(log, k).value)
    {
      hide Theirs, Faithful, SettledUpTo, Touched, Saves, AllLawful, Below, NextKeys, NextClean, NextSaves, Undisturbed,
           Chain, Adds, CleanAfter, KeysAfter, SavesOf, DropsWhenClean, View, SameRow, LastWrite, LastOf, Intended;
      Beginning(keys, t, ops, top);
      NobodyYet(others, turn);
      keys0, t0, log, done := keys, t, [], [];
      var clean := false;
      for i := 0 to |ops|
        invariant Valid() && Below(t, top) && keys0 == old(keys) && t0 == old(t) && |done| == i
        invariant AllLawful(log, top, Anyone)
        invariant keys == KeysAfter(old(keys), ops[..i], done) && Saves(log) == SavesOf(ops[..i], done)
        invariant clean == CleanAfter(ops[..i], done) && (clean ==> keys != [] && SettledUpTo(keys, t, top))
        invariant DropsWhenClean(ops[..i], done)
        invariant faults >= old(faults) && dry >= old(dry)
        invariant forall j :: 0 <= j < i && !done[j] && !ops[j].DropOldKeys? ==>
          old(keys) == [] || faults > old(faults) || dry > old(dry)
        invariant (forall op :: op in ops ==> Undisturbed(op)) ==> Touched(log) == {}
        invariant old(keys) != [] ==> keys != [] && forall j :: 0 <= j < |log| ==> log[j].keys != []
      {
        assert ops[i] in ops;
        ghost var before, u := log, keys;
        var d := Do(ops[i], clean, top);
        ghost var more := log[|before|..];
        assert log == before + more;
        AddsOnwards(before, more, u, ops[i], d, top);
        OneMoreOp(old(keys), ops, done, i, d);
        clean, done := NextClean(clean, ops[i], d), done + [d];
      }
      assert ops[..|ops|] == ops;
      if old(keys) != [] {
        RotationReads(keys, t, keys0, t0, log, top);
      }
      LeftAloneReads(keys, t, keys0, t0, log, top);
    }
  }
}

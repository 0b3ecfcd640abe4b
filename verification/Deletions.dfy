/**
 The deletion receiver of porte/directory: polls, pushes, restarts, and everything that can fail around them.
 */
module Deletions {
  import opened Wrappers
  import opened DeletionPages

  /******* A pushed notice *******/

  const LEEWAY := 60 * SECOND
  const NOTICE_LIFE := 3600 * SECOND

  // Times of a notice are whole seconds; a missing subject is None.
  datatype Notice = Notice(issuer: string, audience: seq<string>, subject: Option<Subject>, issued: int,
                           expires: int, deletes: bool)

  // What checking the signature came to: the keys could not be fetched, it is no signed notice, or it is one.
  datatype Signature = NoKeys | Forged | Signed(notice: Notice)

  // At most one slash goes, and only from the end.
  function TrimIssuer(s: string): (r: string)
    ensures if |s| > 0 && s[|s| - 1] == '/' then r + "/" == s else r == s
  {
    if s != "" && s[|s| - 1] == '/' then s[..|s| - 1] else s
  }

  method HasAudience(list: seq<string>, clientID: string) returns (found: bool)
    ensures found <==> clientID in list
  {
    for k := 0 to |list|
      invariant clientID !in list[..k]
    {
      if list[k] == clientID {
        return true;
      }
    }
    found := false;
  }

  ghost predicate Acceptable(n: Notice, issuer: string, clientID: string, now: int) {
    && n.deletes && n.subject.Some? && TrimIssuer(n.issuer) == TrimIssuer(issuer) && clientID in n.audience
    && n.expires * SECOND > now - LEEWAY && n.issued * SECOND <= now + LEEWAY
    && (n.expires - n.issued) * SECOND <= NOTICE_LIFE
  }

  method Accept(n: Notice, issuer: string, clientID: string, now: int) returns (ok: bool)
    ensures ok <==> Acceptable(n, issuer, clientID, now)
  {
    var ours := HasAudience(n.audience, clientID);
    ok := n.deletes && n.subject.Some? && TrimIssuer(n.issuer) == TrimIssuer(issuer) && ours
      && n.expires * SECOND > now - LEEWAY && n.issued * SECOND <= now + LEEWAY
      && (n.expires - n.issued) * SECOND <= NOTICE_LIFE;
  }

  /** Each of the checks refuses by itself. */
  lemma EachCheckRefuses(n: Notice, issuer: string, clientID: string, now: int, other: Notice, later: nat, earlier: nat)
    requires Acceptable(n, issuer, clientID, now)
    ensures Acceptable(n.(deletes := other.deletes), issuer, clientID, now) <==> other.deletes
    ensures Acceptable(n.(subject := other.subject), issuer, clientID, now) <==> other.subject != None
    ensures Acceptable(n.(issuer := other.issuer), issuer, clientID, now) <==>
      TrimIssuer(other.issuer) == TrimIssuer(issuer)
    ensures Acceptable(n.(audience := other.audience), issuer, clientID, now) <==> clientID in other.audience
    ensures Acceptable(n, issuer, clientID, now + later) <==> now + later < n.expires * SECOND + 60 * SECOND
    ensures Acceptable(n, issuer, clientID, now - earlier) <==> n.issued * SECOND - 60 * SECOND <= now - earlier
    ensures Acceptable(n.(expires := n.expires + later), issuer, clientID, now) <==>
      n.expires + later <= n.issued + 3600
  {
  }

  /** A captured notice can be replayed for less than an hour and two minutes. */
  lemma ReplaySpan(n: Notice, issuer: string, clientID: string, first: int, last: int)
    requires Acceptable(n, issuer, clientID, first) && Acceptable(n, issuer, clientID, last)
    ensures last - first < NOTICE_LIFE + 2 * LEEWAY
  {
  }

  /******* The receiver *******/

  // Why a poll stopped: it listed everything, or something kept it from doing so.
  datatype Stop = Complete | LoadFailed | ListFailed | SaveFailed | SharedInstant

  // What a run is made of; span bounds how long the clock runs meanwhile.
  datatype Op = DoPoll(span: nat) | DoPush(signature: Signature, span: nat) | DoWait(span: nat) | DoRestart

  /** One operation: the world evolves, nobody listed is lost, and a cursor that is kept never goes back. */
  ghost predicate Continues(a: Moment, b: Moment, kept: bool) {
    && Sound(a.w) && Evolves(a.w, b.w) && KeepsVisible(a, b) && Honest(a.w, a.s) && Honest(b.w, b.s)
    && (kept ==> a.s.cursor <= b.s.cursor)
  }

  // Somebody erased at that time is recorded, or was and is listed no more.
  ghost predicate ErasedAt(w: World, s: State, cursor: int) {
    exists p :: p in w.erased && w.erased[p] == cursor && (p in s.done || cursor <= w.now - RETENTION)
  }

  // Only a poll moves a cursor, to when somebody it dealt with was erased; and a restart may lose one.
  ghost predicate CursorMoves(op: Op, a: Moment, b: Moment, kept: bool) {
    || b.s.cursor == a.s.cursor
    || (op.DoPoll? && ErasedAt(b.w, b.s, b.s.cursor))
    || (op.DoRestart? && !kept && b.s.cursor == 0)
  }

  ghost predicate Traced(trace: seq<Moment>, kept: bool) {
    trace != [] && forall k :: 0 <= k < |trace| - 1 ==> Continues(trace[k], trace[k + 1], kept)
  }

  lemma ContinuesHere(a: Moment, kept: bool)
    requires Sound(a.w) && Honest(a.w, a.s)
    ensures Continues(a, a, kept)
  {
  }

  lemma ContinuesOnwards(a: Moment, b: Moment, c: Moment, kept: bool)
    requires Continues(a, b, kept) && Continues(b, c, kept)
    ensures Continues(a, c, kept)
  {
    EvolvesOnwards(a.w, b.w, c.w);
    KeepsVisibleOnwards(a, b, c);
  }

  lemma TracedOnwards(trace: seq<Moment>, b: Moment, kept: bool)
    requires Traced(trace, kept) && Continues(trace[|trace| - 1], b, kept)
    ensures Traced(trace + [b], kept)
  {
    hide Continues;
  }

  ghost predicate Rising(marks: seq<nat>) {
    forall i, j :: 0 <= i <= j < |marks| ==> marks[i] <= marks[j]
  }

  lemma AllSpareOnwards(trace: seq<Moment>, marks: seq<nat>, a: Moment, b: Moment, before: seq<Call>, calls: seq<Call>)
    requires |trace| == |marks| && Continues(a, b, true) && before <= calls
    requires forall j :: 0 <= j < |trace| ==> Spares(a.w, trace[j].s, a.s, before, marks[j])
    requires Spares(b.w, a.s, b.s, calls, |before|)
    ensures forall j :: 0 <= j < |trace| ==> Spares(b.w, trace[j].s, b.s, calls, marks[j])
    ensures Spares(b.w, b.s, b.s, calls, |calls|)
  {
    hide Spares, Sound, Evolves, KeepsVisible, Honest;
    SparesNobody(b.w, b.s, calls);
    var more := calls[|before|..];
    assert calls == before + more;
    forall j | 0 <= j < |trace|
      ensures Spares(b.w, trace[j].s, b.s, calls, marks[j])
    {
      SparesOnwards(a.w, b.w, trace[j].s, a.s, b.s, before, more, marks[j]);
    }
  }

  lemma DrainReaches(since: int)
    ensures ReachOf([], since) == Some(since) && Notices([]) == []
  {
  }

  lemma CursorIsNoRecord(calls: seq<Call>, rows: bool, s: State, cursor: int)
    requires AllDelivered(calls, rows, s)
    ensures AllDelivered(calls, rows, s.(cursor := cursor))
  {
  }

  lemma SinceIsPast(w: World, s: State)
    requires Sound(w) && Honest(w, s)
    ensures Since(s, w.now) <= w.now && s.cursor >= 0
  {
  }

  lemma SinceAdvances(w: World, v: World, s: State, r: State)
    requires Evolves(w, v) && s.cursor == r.cursor
    ensures Since(s, w.now) <= Since(r, v.now)
  {
  }

  lemma FailureIsListed(w: World, s: State, log: Log, handled: seq<int>, failed: Option<int>, offered: seq<Deleted>)
    requires AllDealt(w, s, log, handled, failed, offered)
    ensures failed.Some? ==>
      exists d :: d in offered && d.at == failed.value && Refused(log.calls, log.from, d.subject)
  {
  }

  lemma DealtIsDelivered(w: World, s: State, log: Log, handled: seq<int>, failed: Option<int>, offered: seq<Deleted>,
                         cursor: int)
    requires AllDealt(w, s, log, handled, failed, offered)
    requires forall h :: h in handled && Before(h, failed) ==> h <= cursor
    ensures forall d :: d in offered && Before(d.at, failed) ==>
      d.at <= cursor && Delivered(log.calls, log.rows, d.subject)
    ensures cursor in handled && Before(cursor, failed) ==>
      (exists d :: d in offered && d.at == cursor) && ErasedAt(w, s, cursor)
  {
    if cursor in handled && Before(cursor, failed) {
      var d :| d in offered && d.at == cursor;
      assert Dealt(w, s, log, handled, failed, d);
    }
    forall d | d in offered && Before(d.at, failed)
      ensures d.at <= cursor && Delivered(log.calls, log.rows, d.subject)
    {
      assert Dealt(w, s, log, handled, failed, d);
    }
  }

  lemma ErasedAtAlso(w: World, s: State, cursor: int)
    requires ErasedAt(w, s, cursor)
    ensures ErasedAt(w, s.(cursor := cursor), cursor)
  {
  }

  lemma EvolvesKeeps(a: Moment, w: World, v: World, s: State)
    requires Sound(a.w) && Sound(w) && Evolves(a.w, w) && Evolves(w, v)
    requires Honest(w, s) && KeepsVisible(a, Moment(w, s))
    ensures Honest(v, s) && KeepsVisible(a, Moment(v, s))
  {
    EvolvesIsHonest(w, v, s);
    EvolvesKeepsVisible(a, w, v, s);
  }

  lemma RecordedIsDelivered(calls: seq<Call>, rows: bool, s: State, subject: Subject, r: State)
    requires AllDelivered(calls, rows, s) && Delivered(calls, rows, subject)
    requires forall p :: p in r.done ==> p == subject || p in s.done
    ensures AllDelivered(calls, rows, r)
  {
  }

  class Receiver {
    // Whether the app gave a place to keep the state, and whether porte keeps rows of its own.
    const hasStore: bool
    const rows: bool
    const issuer: string
    const clientID: string

    // The receiver's own memory.
    var state: Option<State>

    // Outside it: what the app stored, the world, the calls made to erase people, and how often the store or
    // Registre failed.
    var stored: Option<State>
    var w: World
    ghost var calls: seq<Call>
    ghost var faults: nat

    // What the next call would load if memory were dropped; without a store, memory is all there is.
    ghost function Saved(): State
      reads this`state, this`stored
    {
      var kept := if hasStore then stored else state;
      if kept.Some? then kept.value else FRESH
    }

    ghost function Now(): Moment
      reads this`state, this`stored, this`w
    {
      Moment(w, Saved())
    }

    ghost predicate Good(a: Moment, s: State)
      reads this`w, this`calls
    {
      Honest(w, s) && KeepsVisible(a, Moment(w, s)) && AllDelivered(calls, rows, s)
    }

    // While an operation that began at a moment runs.
    ghost predicate Mid(a: Moment)
      reads this
    {
      && Sound(a.w) && Sound(w) && Evolves(a.w, w) && Good(a, Saved())
      && (state.Some? ==> Good(a, state.value) && state.value.cursor == Saved().cursor)
    }

    // Between operations memory holds nothing the store does not, and only people who were erased.
    ghost predicate Valid()
      reads this
    {
      && Sound(w) && Honest(w, Saved()) && AllDelivered(calls, rows, Saved())
      && (state.Some? ==> state.value == Saved())
    }

    constructor (persistent: bool, keepsRows: bool, provider: string, client: string, clock: int)
      requires clock > RETENTION
      ensures Valid() && state == None && stored == None && hasStore == persistent && rows == keepsRows
    {
      hasStore, rows, issuer, clientID := persistent, keepsRows, provider, client;
      state, stored := None, None;
      w := World(map[], map[], clock);
      calls, faults := [], 0;
    }

    lemma Begins()
      requires Valid()
      ensures Mid(Now()) && Evolves(w, w)
    {
      EvolvesNowhere(w);
    }

    /******* What the world does *******/

    // Time passes, up to deadline.
    method Meanwhile(deadline: int, ghost a: Moment)
      requires Mid(a) && w.now <= deadline
      modifies this`w
      ensures Mid(a) && w.now <= deadline && Evolves(old(w), w)
    {
      hide Sound, Honest, KeepsVisible, AllDelivered, Evolves;
      var v: World := *;
      EvolvesNowhere(w);
      if v.now <= deadline && Evolves(w, v) {
        EvolvesIsSound(w, v);
        EvolvesOnwards(a.w, w, v);
        EvolvesKeeps(a, w, v, Saved());
        if state.Some? {
          EvolvesKeeps(a, w, v, state.value);
        }
        w := v;
      }
    }

    // One call, to the app or to porte's own erasure. It takes time and may fail.
    method Ask(subject: Subject, stage: Stage, deadline: int, ghost a: Moment) returns (ok: bool)
      requires Mid(a) && w.now <= deadline
      modifies this`w, this`calls
      ensures Mid(a) && w.now <= deadline && Evolves(old(w), w)
      ensures calls == old(calls) + [Call(subject, stage, ok)]
    {
      hide Sound, Honest, KeepsVisible, AllDelivered, Evolves;
      ok := *;
      AllDeliveredGrows(calls, [Call(subject, stage, ok)], rows, Saved());
      if state.Some? {
        AllDeliveredGrows(calls, [Call(subject, stage, ok)], rows, state.value);
      }
      calls := calls + [Call(subject, stage, ok)];
      Meanwhile(deadline, a);
    }

    // Registre's answer to one listing, if one comes.
    method List(since: int) returns (page: Option<seq<Deleted>>)
      modifies this`faults
      ensures page.Some? ==> IsPage(page.value, w.registre, since) && faults == old(faults)
      ensures page.None? ==> faults == old(faults) + 1
    {
      var list: seq<Deleted> := *;
      var answered: bool := *;
      if answered && IsPage(list, w.registre, since) {
        return Some(list);
      }
      faults := faults + 1;
      page := None;
    }

    // What the app's store answers to a read, if it does.
    method ReadStore() returns (raw: Option<State>, ok: bool)
      modifies this`faults
      ensures ok ==> raw == stored && faults == old(faults)
      ensures !ok ==> faults == old(faults) + 1
    {
      raw, ok := stored, *;
      if !ok {
        faults := faults + 1;
      }
    }

    // A write to the app's store. One reported as failed may have been taken all the same.
    method WriteStore(s: State) returns (ok: bool)
      modifies this`stored, this`faults
      ensures ok ==> stored == Some(s) && faults == old(faults)
      ensures !ok ==> (stored == old(stored) || stored == Some(s)) && faults == old(faults) + 1
    {
      ok := *;
      var taken: bool := *;
      if ok || taken {
        stored := Some(s);
      }
      if !ok {
        faults := faults + 1;
      }
    }

    /******* What the receiver does *******/

    /** Memory, or what the store holds; a failed read changes nothing. */
    method Load(ghost a: Moment) returns (ok: bool)
      requires Mid(a)
      modifies this`state, this`faults
      ensures Mid(a) && Saved() == old(Saved())
      ensures ok ==> state == Some(old(if state.Some? then state.value else Saved())) && faults == old(faults)
      ensures !ok ==> state == old(state) == None && faults > old(faults)
    {
      hide Sound, Honest, KeepsVisible, AllDelivered, Evolves;
      if state.Some? {
        return true;
      }
      var fresh' := FRESH;
      if hasStore {
        var raw, read := ReadStore();
        if !read {
          return false;
        }
        if raw.Some? {
          fresh' := raw.value;
        }
      }
      state := Some(fresh');
      ok := true;
    }

    /** Two calls in a row, the app's and then this library's; a failure of the first leaves out the second. */
    method Erase(subject: Subject, deadline: int, ghost a: Moment) returns (ok: bool)
      requires Mid(a) && w.now <= deadline
      modifies this`w, this`calls
      ensures Mid(a) && w.now <= deadline && Evolves(old(w), w)
      ensures ok ==> calls == old(calls) + Success(rows, subject)
      ensures !ok ==> old(calls) <= calls && Failure(rows, subject, calls[|old(calls)|..])
      ensures |old(calls)| < |calls| <= |old(calls)| + 2 && calls[|old(calls)|].stage == Callback
      ensures |calls| == |old(calls)| + 2 <==> rows && calls[|old(calls)|].ok
      ensures |calls| == |old(calls)| + 2 ==> calls[|old(calls)| + 1].stage == Rows
    {
      hide Sound, Honest, KeepsVisible, AllDelivered, Evolves;
      ok := Ask(subject, Callback, deadline, a);
      if !ok || !rows {
        return;
      }
      ghost var v := w;
      ok := Ask(subject, Rows, deadline, a);
      EvolvesOnwards(old(w), v, w);
    }

    /**
     Erases one person unless that was done already. Recorded are exactly the people for whom every call
     succeeded; a failed call records nobody, and nobody Registre still lists is forgotten.
     */
    method Handle(subject: Subject, deadline: int, ghost a: Moment) returns (ok: bool)
      requires Mid(a) && subject in w.erased && w.now <= deadline
      modifies this`state, this`w, this`calls, this`faults
      ensures Mid(a) && w.now <= deadline && Evolves(old(w), w) && Saved().cursor == old(Saved()).cursor
      ensures old(calls) <= calls
      ensures var s := old(if state.Some? then state.value else Saved());
        && (subject in s.done ==> calls == old(calls) && (ok ==> state == Some(s)))
        && (ok && subject !in s.done ==> calls == old(calls) + Success(rows, subject))
        && (!ok && state.Some? ==> state.value == s && Failure(rows, subject, calls[|old(calls)|..]))
        && (state.Some? ==> Spares(w, s, state.value, calls, |old(calls)|) && faults == old(faults))
      ensures ok ==> state.Some? && subject in state.value.done && Delivered(calls, rows, subject)
      ensures state.None? ==> !ok && old(state).None? && calls == old(calls) && faults > old(faults)
    {
      hide Sound, Honest, KeepsVisible, AllDelivered, Evolves, Remembers, Spares;
      EvolvesNowhere(w);
      ok := Load(a);
      if !ok {
        return;
      }
      SparesNobody(w, state.value, calls);
      if subject in state.value.done {
        RecordedAreDelivered(state.value);
        return;
      }
      ghost var v, c := w, calls;
      ok := Erase(subject, deadline, a);
      EvolvesErased(v, w, subject);
      SparesOthers(w, state.value, subject, c, calls, rows);
      if ok {
        var recorded := Record(state.value, subject, w.now);
        DeliveredNow(old(calls), rows, subject);
        RecordedIsGood(a, w, state.value, subject, recorded);
        RecordedIsDelivered(calls, rows, state.value, subject, recorded);
        RecordedSpares(w, state.value, recorded, calls, |c|);
        state := Some(recorded);
      }
    }

    /** Saves the state. A failed save drops the copy in memory, whether or not the store took it. */
    method Persist() returns (ok: bool)
      requires state.Some?
      modifies this`state, this`stored, this`faults
      ensures ok ==> state == old(state) && (hasStore ==> stored == old(state)) && faults == old(faults)
      ensures !ok ==> hasStore && state == None && (stored == old(stored) || stored == old(state))
      ensures !ok ==> faults > old(faults)
      ensures !hasStore ==> stored == old(stored)
    {
      if !hasStore {
        return true;
      }
      ok := WriteStore(state.value);
      if !ok {
        state := None;
      }
    }

    /** Persists a state whose cursor has not moved. */
    method Save(ghost a: Moment) returns (ok: bool)
      requires Mid(a) && state.Some?
      modifies this`state, this`stored, this`faults
      ensures Mid(a) && (state.Some? ==> state.value == Saved())
      ensures ok ==> state == old(state) && faults == old(faults)
      ensures !ok ==> state == None && faults > old(faults)
      ensures Saved() == old(Saved()) || Saved() == old(state.value)
      ensures Saved().cursor == old(Saved()).cursor
    {
      hide Sound, Honest, KeepsVisible, AllDelivered, Evolves;
      ok := Persist();
    }

    /** Hands a page to Handle, one person at a time; whoever fails, the rest are still handed over. */
    method HandleAll(list: seq<Deleted>, handled: seq<int>, failed: Option<int>, deadline: int, ghost a: Moment,
                     ghost from: nat, ghost offered: seq<Deleted>)
      returns (handled': seq<int>, failed': Option<int>)
      requires Mid(a) && state.Some? && w.now <= deadline && from <= |calls|
      requires AllDealt(w, state.value, Log(calls, from, rows), handled, failed, offered)
      requires forall d :: d in list ==> d.at > 0 && d.subject in w.erased && w.erased[d.subject] == d.at
      modifies this`state, this`w, this`calls, this`faults
      ensures Mid(a) && state.Some? && w.now <= deadline && Evolves(old(w), w)
      ensures Saved().cursor == old(Saved()).cursor && faults == old(faults) && old(calls) <= calls
      ensures Remembers(w, old(state).value, state.value)
      ensures Spares(w, old(state).value, state.value, calls, |old(calls)|)
      ensures AllDealt(w, state.value, Log(calls, from, rows), handled', failed', offered + list)
      ensures forall h :: h in handled' ==> h in handled || exists d :: d in list && d.at == h
    {
      hide Sound, Honest, KeepsVisible, AllDelivered, Evolves, Remembers, AllDealt, Delivered, Refused, Failure, Spares;
      handled', failed' := handled, failed;
      EvolvesNowhere(w);
      RemembersItself(w, state.value);
      SparesNobody(w, state.value, calls);
      assert offered + list[..0] == offered;
      for k := 0 to |list|
        invariant Mid(a) && state.Some? && w.now <= deadline && Evolves(old(w), w)
        invariant Saved().cursor == old(Saved()).cursor && faults == old(faults) && old(calls) <= calls
        invariant Remembers(w, old(state).value, state.value)
        invariant Spares(w, old(state).value, state.value, calls, |old(calls)|)
        invariant AllDealt(w, state.value, Log(calls, from, rows), handled', failed', offered + list[..k])
        invariant forall h :: h in handled' ==> h in handled || exists d :: d in list && d.at == h
      {
        var d := list[k];
        ghost var v, s, c, h, f := w, state.value, calls, handled', failed';
        EvolvesErased(old(w), w, d.subject);
        var ok := Handle(d.subject, deadline, a);
        EvolvesErased(v, w, d.subject);
        EvolvesOnwards(old(w), v, w);
        SparesItself(w, s, state.value, calls, |c|);
        EvolvesIsHonest(old(w), v, old(state).value);
        RemembersOnwards(v, w, old(state).value, s, state.value);
        assert offered + list[..k + 1] == (offered + list[..k]) + [d];
        ghost var more := calls[|c|..];
        assert calls == c + more;
        SparesOnwards(v, w, old(state).value, s, state.value, c, more, |old(calls)|);
        if ok {
          handled' := handled' + [d.at];
        } else {
          if failed'.None? || d.at < failed'.value {
            failed' := Some(d.at);
          }
          RefusedNow(c, rows, d.subject, more, from);
        }
        AllDealtOnwards(v, w, s, state.value, Log(c, from, rows), more, h, f, offered + list[..k], handled', failed',
                        d);
      }
      assert list[..|list|] == list;
    }

    /**
     Goes from page to page. It ends, stops early only for a fault or a thousand notices of one instant, and
     hands every notice Registre lists after since to Handle, but for one that no page could have listed.
     */
    method Drain(since0: int, deadline: int, ghost a: Moment)
      returns (handled: seq<int>, failed: Option<int>, stop: Stop, ghost pages: seq<Page>)
      requires Mid(a) && state.Some? && state.value == Saved() && since0 <= w.now <= deadline
      modifies this
      ensures Mid(a) && (state.Some? ==> state.value == Saved()) && w.now <= deadline
      ensures Saved().cursor == old(Saved()).cursor && old(calls) <= calls
      ensures Paged(pages, since0, old(w), w) && Spares(w, old(Saved()), Saved(), calls, |old(calls)|)
      ensures stop.SaveFailed? <==> state.None?
      ensures stop.SaveFailed? || stop.ListFailed? <==> faults > old(faults)
      ensures faults >= old(faults) && !stop.LoadFailed?
      ensures stop.Complete? ==> pages != [] && ReachOf(pages, since0) == None
      ensures stop.SharedInstant? ==>
        pages != [] && NextPage(pages[|pages| - 1].list, pages[|pages| - 1].since).SameInstant?
      ensures !stop.SaveFailed? ==>
        && Remembers(w, old(state).value, state.value)
        && AllDealt(w, state.value, Log(calls, |old(calls)|, rows), handled, failed, Notices(pages))
        && Covered(w, since0, pages) && Reached(ReachOf(pages, since0), handled)
    {
      hide Sound, Honest, KeepsVisible, AllDelivered, Evolves, Remembers, AllDealt, Delivered, Refused, Covered,
           Reached, Paged, NextPage, IsPage, ReachOf, Notices, Spares;
      handled, failed := [], None;
      var since := since0;
      pages := [];
      ghost var from := |calls|;
      DrainStarts(w, state.value, Log(calls, from, rows), since0);
      DrainReaches(since0);
      EvolvesNowhere(w);
      RemembersItself(w, state.value);
      SparesNobody(w, state.value, calls);
      while true
        invariant Mid(a) && state.Some? && state.value == Saved() && since <= w.now <= deadline
        invariant Saved().cursor == old(Saved()).cursor && faults == old(faults)
        invariant old(calls) <= calls && Evolves(old(w), w)
        invariant Spares(w, old(state).value, state.value, calls, |old(calls)|)
        invariant Remembers(w, old(state).value, state.value) && Paged(pages, since0, old(w), w)
        invariant AllDealt(w, state.value, Log(calls, from, rows), handled, failed, Notices(pages))
        invariant ReachOf(pages, since0) == Some(since)
        invariant pages != [] ==> NextPage(pages[|pages| - 1].list, pages[|pages| - 1].since).More?
        invariant Covered(w, since0, pages) && Reached(Some(since), handled)
        decreases deadline - since
      {
        var page := List(since);
        if page.None? {
          stop := ListFailed;
          return;
        }
        var list := page.value;
        ghost var v, s, c, before := w, state.value, calls, pages;
        PageIsTrue(w, list, since);
        var handled', failed' := HandleAll(list, handled, failed, deadline, a, from, Notices(pages));
        assert calls == c + calls[|c|..];
        SparesOnwards(v, w, old(state).value, s, state.value, c, calls[|c|..], from);
        SparesItself(w, s, state.value, calls, |c|);
        SparesOnwards(v, w, old(state).value, s, s, c, calls[|c|..], from);
        PageDone(old(w), v, w, since0, since, list, pages, handled, handled');
        EvolvesOnwards(old(w), v, w);
        EvolvesIsHonest(old(w), v, old(state).value);
        RemembersOnwards(v, w, old(state).value, s, state.value);
        handled, failed, pages := handled', failed', pages + [Page(since, list, v)];
        var ok := Save(a);
        if !ok {
          stop := SaveFailed;
          return;
        }
        var next := NextPage(list, since);
        NextPageAdvances(list, v, w, since);
        if next.Last? {
          stop := Complete;
          return;
        }
        if next.SameInstant? {
          stop := SharedInstant;
          return;
        }
        since := next.since;
      }
    }

    /** Moves the cursor and saves it. */
    method Advance(cursor: int, ghost a: Moment, ghost since: int, ghost pages: seq<Page>, handled: seq<int>,
                   failed: Option<int>, ghost from: nat)
      returns (saved: bool)
      requires Mid(a) && state.Some? && since <= Since(state.value, w.now) && state.value == Saved()
      requires Paged(pages, since, a.w, w) && Covered(w, since, pages) && Reached(ReachOf(pages, since), handled)
      requires AllDealt(w, state.value, Log(calls, from, rows), handled, failed, Notices(pages))
      requires cursor in handled && Before(cursor, failed) && cursor > state.value.cursor
      modifies this`state, this`stored, this`faults
      ensures Valid() && KeepsVisible(a, Now())
      ensures saved ==> faults == old(faults) && Saved() == old(Saved()).(cursor := cursor)
      ensures !saved ==> faults > old(faults) && (Saved() == old(Saved()) || Saved() == old(Saved()).(cursor := cursor))
    {
      hide Sound, Honest, KeepsVisible, AllDelivered, Evolves, AllDealt, Covered, Reached, Paged, Since;
      ghost var s, log := state.value, Log(calls, from, rows);
      AdvanceKeepsVisible(a, w, s, cursor, since, pages, log, handled, failed);
      AdvanceIsHonest(w, s, cursor, log, handled, failed, Notices(pages));
      CursorIsNoRecord(calls, rows, s, cursor);
      state := Some(state.value.(cursor := cursor));
      saved := Persist();
    }

    /**
     One run over everything after the cursor less its overlap. Whatever fails, nobody listed when it begins is lost,
     the cursor goes neither back nor to or past a failure, and everyone recorded was erased. It reports success
     exactly when nothing failed, and then everyone it could list is erased, recorded and behind the cursor.
     */
    method Poll(deadline: int)
      returns (ok: bool, ghost stop: Stop, ghost pages: seq<Page>, ghost failed: Option<int>)
      requires Valid() && w.now <= deadline
      modifies this
      ensures Valid() && w.now <= deadline && Continues(old(Now()), Now(), true) && old(calls) <= calls
      ensures Spares(w, old(Saved()), Saved(), calls, |old(calls)|)
      ensures Paged(pages, Since(old(Saved()), old(w.now)), old(w), w)
      ensures Saved().cursor != old(Saved()).cursor ==>
        && Before(Saved().cursor, failed) && (exists d :: d in Notices(pages) && d.at == Saved().cursor)
        && ErasedAt(w, Saved(), Saved().cursor)
      ensures faults == old(faults) ==> forall d :: d in Notices(pages) && Before(d.at, failed) ==>
        d.at <= Saved().cursor && Delivered(calls, rows, d.subject)
      ensures failed.Some? ==>
        exists d :: d in Notices(pages) && d.at == failed.value && Refused(calls, |old(calls)|, d.subject)
      ensures stop.SharedInstant? ==>
        pages != [] && NextPage(pages[|pages| - 1].list, pages[|pages| - 1].since).SameInstant?
      ensures ok <==> faults == old(faults) && failed.None? && !stop.SharedInstant?
      ensures ok ==> CaughtUp(old(Now()), Now())
    {
      hide Sound, Honest, KeepsVisible, AllDelivered, Evolves, Remembers, AllDealt, Delivered, Refused, Covered,
           Reached, Paged, CaughtUp, Since, NextPage, ReachOf, IsPage, Notices, ErasedAt, Spares;
      ghost var a, from := Now(), |calls|;
      Begins();
      stop, pages, failed := LoadFailed, [], None;
      SinceIsPast(w, Saved());
      DrainStarts(w, Saved(), Log(calls, from, rows), Since(Saved(), w.now));
      DrainReaches(0);
      SparesNobody(w, Saved(), calls);
      ok := Load(a);
      if !ok {
        return;
      }
      var since := Since(state.value, w.now);
      var handled, failed', stop', pages' := Drain(since, deadline, a);
      stop, pages := stop', pages';
      if state.None? {
        return false, stop, pages, failed;
      }
      failed := failed';
      ghost var s, log := state.value, Log(calls, from, rows);
      HandledIsPositive(w, s, log, handled, failed', Notices(pages));
      FailureIsListed(w, s, log, handled, failed', Notices(pages));
      SinceAdvances(a.w, w, a.s, s);
      var cursor := CursorAfter(handled, failed');
      DealtIsDelivered(w, s, log, handled, failed', Notices(pages), cursor);
      ok := stop'.Complete? && failed'.None?;
      if ok {
        PollCatchesUp(a, w, s, cursor, pages, log, handled);
      }
      if cursor > state.value.cursor {
        ErasedAtAlso(w, s, cursor);
        SparesSame(w, a.s, s, s.(cursor := cursor), calls, from);
        var saved := Advance(cursor, a, since, pages, handled, failed', from);
        ok := ok && saved;
      }
    }

    /** One pushed notice: 202 means that both calls succeeded for the person and that a restart would know. */
    method Receive(signature: Signature, deadline: int) returns (status: int)
      requires Valid() && w.now <= deadline
      requires signature.Signed? && signature.notice.subject.Some? ==> signature.notice.subject.value in w.erased
      modifies this
      ensures Valid() && w.now <= deadline && Continues(old(Now()), Now(), true) && old(calls) <= calls
      ensures Saved().cursor == old(Saved()).cursor && Spares(w, old(Saved()), Saved(), calls, |old(calls)|)
      ensures status in {202, 400, 500, 503}
      ensures status == 503 <==> signature.NoKeys?
      ensures status == 400 <==>
        signature.Forged? || (signature.Signed? && !Acceptable(signature.notice, issuer, clientID, old(w.now)))
      ensures status in {400, 503} ==> state == old(state) && stored == old(stored) && calls == old(calls)
      ensures status == 202 ==>
        signature.notice.subject.value in Saved().done && Delivered(calls, rows, signature.notice.subject.value)
      ensures status == 500 ==>
        faults > old(faults) || Refused(calls, |old(calls)|, signature.notice.subject.value)
    {
      hide Sound, Honest, KeepsVisible, AllDelivered, Evolves, Remembers, Delivered, Refused, Failure, Spares;
      ghost var a := Now();
      Begins();
      SparesNobody(w, Saved(), calls);
      if signature.NoKeys? {
        return 503;
      }
      if signature.Forged? {
        return 400;
      }
      var acceptable := Accept(signature.notice, issuer, clientID, w.now);
      if !acceptable {
        return 400;
      }
      ghost var c := calls;
      var ok := Handle(signature.notice.subject.value, deadline, a);
      if state.Some? {
        SparesItself(w, a.s, state.value, calls, |c|);
      } else {
        SparesNobody(w, Saved(), calls);
      }
      if !ok && state.Some? {
        assert calls == c + calls[|c|..];
        RefusedNow(c, rows, signature.notice.subject.value, calls[|c|..], |c|);
      }
      if ok {
        ok := Save(a);
      }
      status := if ok then 202 else 500;
    }

    /** The process restarts: memory is gone, and without a store so is everything. */
    method Restart()
      requires Valid()
      modifies this`state
      ensures Valid() && state == None && Continues(old(Now()), Now(), hasStore)
      ensures Saved() == if hasStore then old(Saved()) else FRESH
      ensures hasStore ==> Spares(w, old(Saved()), Saved(), calls, |calls|)
    {
      EvolvesNowhere(w);
      state := None;
    }

    method Wait(span: nat)
      requires Valid()
      modifies this`w
      ensures Valid() && w.now <= old(w.now) + span && Continues(old(Now()), Now(), true)
      ensures Spares(w, old(Saved()), Saved(), calls, |calls|)
    {
      Begins();
      Meanwhile(w.now + span, Now());
    }

    /**
     Any run of polls, pushes, waits and restarts, with any failures in them. Nobody who was listed and safe is
     lost, a stored cursor never goes back, and whoever is recorded was erased. The trace is the moments between
     the operations; each follows from the one before. With a store, whoever is recorded at one of them is in no call
     made after it while Registre lists them; marks says how many calls were made by each.
     */
    method Run(ops: seq<Op>) returns (ghost trace: seq<Moment>, ghost marks: seq<nat>)
      requires Valid()
      modifies this
      ensures Valid() && old(calls) <= calls && KeepsVisible(old(Now()), Now())
      ensures hasStore ==> Saved().cursor >= old(Saved()).cursor
      ensures Traced(trace, hasStore) && |trace| == |ops| + 1
      ensures forall k :: 0 <= k < |ops| ==> CursorMoves(ops[k], trace[k], trace[k + 1], hasStore)
      ensures trace[0] == old(Now()) && trace[|ops|] == Now()
      ensures forall p :: p in Saved().done ==> Delivered(calls, rows, p)
      ensures |marks| == |trace| && marks[0] == |old(calls)| && marks[|ops|] == |calls| && Rising(marks)
      ensures hasStore ==> forall k :: 0 <= k <= |ops| ==> Spares(w, trace[k].s, Saved(), calls, marks[k])
    {
      hide Sound, Honest, KeepsVisible, AllDelivered, Evolves, Delivered, Acceptable, CursorMoves, Spares;
      ghost var first := Now();
      EvolvesNowhere(w);
      ContinuesHere(first, hasStore);
      SparesNobody(w, Saved(), calls);
      trace, marks := [Now()], [|calls|];
      for k := 0 to |ops|
        invariant Valid() && old(calls) <= calls && Continues(first, Now(), hasStore)
        invariant Traced(trace, hasStore) && |trace| == k + 1
        invariant forall j :: 0 <= j < k ==> CursorMoves(ops[j], trace[j], trace[j + 1], hasStore)
        invariant trace[0] == first && trace[k] == Now()
        invariant |marks| == k + 1 && marks[0] == |old(calls)| && marks[k] == |calls| && Rising(marks)
        invariant hasStore ==> forall j :: 0 <= j <= k ==> Spares(w, trace[j].s, Saved(), calls, marks[j])
      {
        ghost var before, c := Now(), calls;
        Do(ops[k]);
        ContinuesOnwards(first, before, Now(), hasStore);
        TracedOnwards(trace, Now(), hasStore);
        if hasStore {
          AllSpareOnwards(trace, marks, before, Now(), c, calls);
        }
        trace, marks := trace + [Now()], marks + [|calls|];
      }
      RecordedAreDelivered(Saved());
    }

    lemma RecordedAreDelivered(s: State)
      requires AllDelivered(calls, rows, s)
      ensures forall p :: p in s.done ==> Delivered(calls, rows, p)
    {
    }

    method Do(op: Op)
      requires Valid()
      modifies this
      ensures Valid() && old(calls) <= calls && Continues(old(Now()), Now(), hasStore)
      ensures CursorMoves(op, old(Now()), Now(), hasStore)
      ensures hasStore ==> Spares(w, old(Saved()), Saved(), calls, |old(calls)|)
    {
      hide Sound, Honest, KeepsVisible, AllDelivered, Evolves, Delivered, Acceptable, ErasedAt, Spares;
      Begins();
      SparesNobody(w, Saved(), calls);
      match op
      case DoPoll(span) =>
        var _, _, _, _ := Poll(w.now + span);
      case DoPush(signature, span) =>
        if signature.Signed? && signature.notice.subject.Some? && signature.notice.subject.value !in w.erased {
          // Registre signs no such notice.
          ContinuesHere(Now(), hasStore);
        } else {
          var _ := Receive(signature, w.now + span);
        }
      case DoWait(span) =>
        Wait(span);
      case DoRestart =>
        Restart();
    }
  }

  /******* What a run can lose, exactly *******/

  lemma {:induction false} TraceContinues(trace: seq<Moment>, i: nat, j: nat, kept: bool)
    requires Traced(trace, kept) && i < j < |trace|
    ensures Continues(trace[i], trace[j], kept)
    decreases j
  {
    hide Continues;
    assert Continues(trace[j - 1], trace[j], kept);
    if i < j - 1 {
      TraceContinues(trace, i, j - 1, kept);
      ContinuesOnwards(trace[i], trace[j - 1], trace[j], kept);
    }
  }

  /**
   A notice listed at the end of a run with a store is lost if and only if it is not recorded by then and, at the
   first moment it was visible (or at any other), it was a minute or more behind the cursor stored then.
   */
  lemma LostExactly(trace: seq<Moment>, k: nat, p: Subject)
    requires Traced(trace, true) && k < |trace| && p in trace[k].w.registre && p in trace[|trace| - 1].w.registre
    requires Sound(trace[k].w) && Sound(trace[|trace| - 1].w) && Honest(trace[k].w, trace[k].s)
    ensures var last := trace[|trace| - 1];
      !Safe(last.w, last.s, p) <==>
        p !in last.s.done && trace[k].s.cursor > 0 && trace[k].w.registre[p] <= trace[k].s.cursor - OVERLAP
  {
    var last := trace[|trace| - 1];
    if k < |trace| - 1 {
      TraceContinues(trace, k, |trace| - 1, true);
      assert trace[k].w.registre[p] == last.w.registre[p];
    }
  }

  ghost predicate NobodyLost(a: Moment) {
    forall p :: p in a.w.registre ==> Safe(a.w, a.s, p)
  }

  /** Whoever became visible during an operation is less than a minute behind the cursor stored at its end. */
  ghost predicate ArrivesInTime(a: Moment, b: Moment) {
    forall p :: p in b.w.registre && p !in a.w.registre ==> b.s.cursor == 0 || b.w.registre[p] > b.s.cursor - OVERLAP
  }

  /** If that holds of every operation of a run, the run loses nobody. */
  lemma {:induction false} TimelyRunLosesNobody(trace: seq<Moment>, kept: bool)
    requires Traced(trace, kept) && NobodyLost(trace[0])
    requires forall k :: 0 <= k < |trace| - 1 ==> ArrivesInTime(trace[k], trace[k + 1])
    ensures NobodyLost(trace[|trace| - 1])
    decreases |trace|
  {
    var n := |trace| - 1;
    if n > 0 {
      var rest := trace[..n];
      assert forall k :: 0 <= k < n ==> rest[k] == trace[k];
      TimelyRunLosesNobody(rest, kept);
      assert rest[n - 1] == trace[n - 1] && Continues(trace[n - 1], trace[n - 1 + 1], kept);
      TimelyStep(trace[n - 1], trace[n], kept);
    }
  }

  lemma TimelyStep(a: Moment, b: Moment, kept: bool)
    requires Continues(a, b, kept) && NobodyLost(a) && ArrivesInTime(a, b)
    ensures NobodyLost(b)
  {
    forall p | p in b.w.registre
      ensures Safe(b.w, b.s, p)
    {
      if p in a.w.registre {
        assert Safe(a.w, a.s, p);
      }
    }
  }

  // Registre lists every erasure by a delay after its stamp.
  ghost predicate Prompt(w: World, delay: int) {
    forall p :: p in w.erased && w.erased[p] > w.now - RETENTION && w.erased[p] + delay < w.now ==> p in w.registre
  }

  /**
   Something to check beforehand: the delay with which notices become visible and the time an operation that moves
   the cursor takes are together under a minute.
   */
  lemma PromptArrivesInTime(a: Moment, b: Moment, delay: int)
    requires Continues(a, b, true) && Prompt(a.w, delay) && 0 <= delay < OVERLAP
    requires b.s.cursor == a.s.cursor || b.w.now - a.w.now + delay < OVERLAP
    ensures ArrivesInTime(a, b)
  {
    forall p | p in b.w.registre && p !in a.w.registre
      ensures b.w.registre[p] > b.s.cursor - OVERLAP
    {
      assert p in a.w.erased ==> a.w.erased[p] + delay >= a.w.now;
    }
  }

  /******* The overlap does not cover paging *******/

  const START := 2 * RETENTION

  function Stamp(p: Subject): int {
    if p < LIST_LIMIT then START + (p + 1) * OVERLAP else START + 1
  }

  // A thousand people, one a minute, and a thousand-and-first whose notice is not visible yet.
  function Crowd(size: nat): map<Subject, int> {
    map p: Subject | 0 <= p < size :: Stamp(p)
  }

  function CrowdPage(): seq<Deleted> {
    seq(LIST_LIMIT, (k: nat) => Deleted(k, Stamp(k)))
  }

  function Crowded(visible: nat): World {
    World(Crowd(LIST_LIMIT + 1), Crowd(visible), START + (LIST_LIMIT + 1) * OVERLAP)
  }

  // The page a poll lists before the late notice appears, and the one after.
  function CrowdPages(): seq<Page> {
    [Page(START - OVERLAP, CrowdPage(), Crowded(LIST_LIMIT)),
     Page(Stamp(LIST_LIMIT - 1) - MICROSECOND, [Deleted(LIST_LIMIT - 1, Stamp(LIST_LIMIT - 1))],
          Crowded(LIST_LIMIT + 1))]
  }

  lemma CrowdIsPage()
    ensures IsPage(CrowdPage(), Crowded(LIST_LIMIT).registre, START - OVERLAP)
    ensures NextPage(CrowdPage(), START - OVERLAP) == More(Stamp(LIST_LIMIT - 1) - MICROSECOND)
  {
    var page := CrowdPage();
    assert page[LIST_LIMIT - 1] == Deleted(LIST_LIMIT - 1, Stamp(LIST_LIMIT - 1));
    forall p | p in Crowd(LIST_LIMIT)
      ensures Lists(page, p)
    {
      assert page[p].subject == p;
    }
  }

  lemma CrowdEnds()
    ensures var page := CrowdPages()[1];
      IsPage(page.list, page.w.registre, page.since) && NextPage(page.list, page.since).Last?
  {
    var last := CrowdPages()[1].list;
    assert last[0].subject == LIST_LIMIT - 1;
  }

  lemma CrowdEvolves()
    ensures Sound(Crowded(LIST_LIMIT)) && Evolves(Crowded(LIST_LIMIT), Crowded(LIST_LIMIT + 1))
    ensures Evolves(Crowded(LIST_LIMIT), Crowded(LIST_LIMIT))
    ensures Evolves(Crowded(LIST_LIMIT + 1), Crowded(LIST_LIMIT + 1))
  {
  }

  /**
   A notice can appear ahead of the stored cursor and still be lost. Here the cursor is START when a poll lists a
   full page; a notice stamped just after START appears; the poll's last page misses it as the first did, and the
   cursor the poll then stores leaves it behind.
   */
  lemma LateBetweenPagesIsLost(s: State)
    requires s.cursor == START && s.done == map[]
    ensures var w, v, pages := Crowded(LIST_LIMIT), Crowded(LIST_LIMIT + 1), CrowdPages();
      && Sound(w) && LIST_LIMIT !in w.registre && v.registre[LIST_LIMIT] > s.cursor
      && Paged(pages, Since(s, w.now), w, v) && ReachOf(pages, Since(s, w.now)) == None
      && Missed(pages, LIST_LIMIT)
      && v.registre[LIST_LIMIT] <= Since(s.(cursor := pages[1].list[0].at), v.now)
  {
    hide CrowdPage, IsPage, NextPage, Evolves, Sound;
    CrowdIsPage();
    CrowdEnds();
    CrowdEvolves();
    var w, v, pages := Crowded(LIST_LIMIT), Crowded(LIST_LIMIT + 1), CrowdPages();
    assert PageAt(pages, Since(s, w.now), 0) && PageAt(pages, Since(s, w.now), 1);
  }
}

/**
 What the deletion receiver of porte/directory reasons about: pages of notices, the world outside, and what a
 poll has dealt with so far. Times are nanoseconds; 0 is the zero time.
 */
module DeletionPages {
  import opened Wrappers

  const MICROSECOND := 1_000
  const SECOND := 1_000_000_000
  const OVERLAP := 60 * SECOND
  const RETENTION := 60 * 24 * 3600 * SECOND
  const LIST_LIMIT := 1000

  // A subject is an opaque identifier.
  type Subject = nat

  datatype Deleted = Deleted(subject: Subject, at: int)

  // What the app stores for the receiver: how far it got in order, and whom it handled when.
  datatype State = State(cursor: int, done: map<Subject, int>)

  const FRESH := State(0, map[])

  // The start of the next poll.
  function Since(s: State, now: int): int {
    if s.cursor == 0 then now - RETENTION else s.cursor - OVERLAP
  }

  /******* One page *******/

  // At most a page of truthful entries after since, oldest first.
  predicate IsListing(list: seq<Deleted>, registre: map<Subject, int>, since: int) {
    && |list| <= LIST_LIMIT
    && (forall k :: 0 <= k < |list| ==>
          list[k].subject in registre && registre[list[k].subject] == list[k].at && list[k].at > since)
    && (forall j, k :: 0 <= j < k < |list| ==> list[j].at <= list[k].at)
  }

  predicate Lists(list: seq<Deleted>, s: Subject) {
    exists k :: 0 <= k < |list| && list[k].subject == s
  }

  /** Registre's contract: such a listing, and the oldest entries there are. */
  predicate IsPage(list: seq<Deleted>, registre: map<Subject, int>, since: int) {
    && IsListing(list, registre, since)
    && (forall s :: s in registre && registre[s] > since ==>
          Lists(list, s) || (|list| == LIST_LIMIT && registre[s] >= list[|list| - 1].at))
  }

  datatype Next = More(since: int) | Last | SameInstant

  // Only a full page can have a successor, which overlaps it by the entries of its last instant.
  function NextPage(list: seq<Deleted>, since: int): (n: Next)
    ensures n.SameInstant? <==> |list| >= LIST_LIMIT && list[|list| - 1].at <= since + MICROSECOND
    ensures n.More? ==> n.since > since && |list| >= LIST_LIMIT && n.since + MICROSECOND == list[|list| - 1].at
    ensures n.Last? <==> |list| < LIST_LIMIT
  {
    if |list| < LIST_LIMIT then Last
    else
      var next := list[|list| - 1].at - MICROSECOND;
      if next <= since then SameInstant else More(next)
  }

  /** No gap between pages: what a page leaves out is after the next page's start. */
  lemma PagesMeet(list: seq<Deleted>, registre: map<Subject, int>, since: int, s: Subject)
    requires IsPage(list, registre, since) && s in registre && registre[s] > since
    ensures var n := NextPage(list, since);
      Lists(list, s) || (n.More? && registre[s] > n.since) || (n.SameInstant? && registre[s] >= list[|list| - 1].at)
  {
  }

  /** The page that stops a poll for good: a thousand notices within one microsecond. */
  lemma SameInstantMeans(list: seq<Deleted>, registre: map<Subject, int>, since: int)
    requires IsPage(list, registre, since)
    ensures NextPage(list, since).SameInstant? <==>
      |list| == LIST_LIMIT && forall k :: 0 <= k < |list| ==> since < list[k].at <= since + MICROSECOND
  {
    if |list| == LIST_LIMIT {
      assert since < list[|list| - 1].at;
    }
  }

  /** How far the cursor may go: up to what was handled, short of what failed. */
  method CursorAfter(handled: seq<int>, failed: Option<int>) returns (cursor: int)
    requires forall h :: h in handled ==> h > 0
    ensures cursor == 0 || (cursor in handled && Before(cursor, failed))
    ensures forall h :: h in handled && Before(h, failed) ==> h <= cursor
    ensures cursor >= 0
  {
    cursor := 0;
    for k := 0 to |handled|
      invariant cursor == 0 || (cursor in handled && Before(cursor, failed))
      invariant cursor >= 0
      invariant forall h :: h in handled[..k] && Before(h, failed) ==> h <= cursor
    {
      assert handled[k] in handled;
      assert handled[..k + 1] == handled[..k] + [handled[k]];
      if (failed.None? || handled[k] < failed.value) && handled[k] > cursor {
        cursor := handled[k];
      }
    }
    assert handled[..|handled|] == handled;
  }

  /** Marks the subject handled and forgets, by editing the map in place, those no longer listed. */
  method Record(s: State, subject: Subject, now: int) returns (r: State)
    ensures r.cursor == s.cursor && subject in r.done
    ensures forall p ::
      p in r.done <==> p == subject || (p in s.done && now - s.done[p] <= RETENTION + OVERLAP)
    ensures forall p :: p in r.done ==> r.done[p] == (if p == subject then now else s.done[p])
  {
    var done := s.done[subject := now];
    var rest := done.Keys;
    while rest != {}
      invariant forall p ::
        p in done <==> p == subject || (p in s.done && (p in rest || now - s.done[p] <= RETENTION + OVERLAP))
      invariant forall p :: p in done ==> done[p] == (if p == subject then now else s.done[p])
      invariant rest <= done.Keys
      decreases |rest|
    {
      var p :| p in rest;
      rest := rest - {p};
      if now - done[p] > RETENTION + OVERLAP {
        done := done - {p};
      }
    }
    r := s.(done := done);
  }

  /******* The world outside *******/

  // The stamp of every erasure, the ones Registre lists, and the clock.
  datatype World = World(erased: map<Subject, int>, registre: map<Subject, int>, now: int)

  ghost predicate Sound(w: World) {
    && w.now > RETENTION
    && (forall p :: p in w.erased ==> w.erased[p] <= w.now)
    && (forall p :: p in w.registre ==>
          p in w.erased && w.registre[p] == w.erased[p] && w.registre[p] > w.now - RETENTION)
  }

  // Between two moments the clock runs, people are erased, a notice becomes visible at any time after its
  // stamp, and one past retention is listed no more.
  predicate Evolves(w: World, v: World) {
    && w.now <= v.now
    && (forall p :: p in w.erased ==> p in v.erased && v.erased[p] == w.erased[p])
    && (forall p :: p in v.erased && p !in w.erased ==> w.now <= v.erased[p] <= v.now)
    && (forall p :: p in v.registre ==>
          p in v.erased && v.registre[p] == v.erased[p] && v.registre[p] > v.now - RETENTION)
    && (forall p :: p in w.registre && w.registre[p] > v.now - RETENTION ==> p in v.registre)
  }

  lemma EvolvesNowhere(w: World)
    requires Sound(w)
    ensures Evolves(w, w)
  {
  }

  lemma EvolvesIsSound(w: World, v: World)
    requires Sound(w) && Evolves(w, v)
    ensures Sound(v)
  {
  }

  lemma EvolvesOnwards(u: World, v: World, w: World)
    requires Sound(u) && Evolves(u, v) && Evolves(v, w)
    ensures Evolves(u, w)
  {
    EvolvesIsSound(u, v);
  }

  lemma EvolvesErased(w: World, v: World, p: Subject)
    requires Evolves(w, v) && p in w.erased
    ensures p in v.erased && v.erased[p] == w.erased[p]
  {
  }

  /******* Nobody lost *******/

  ghost predicate Honest(w: World, s: State) {
    && 0 <= s.cursor <= w.now
    && (forall p :: p in s.done ==> p in w.erased && w.erased[p] <= s.done[p] <= w.now)
  }

  /** Recorded as handled, or listed again by the next poll. */
  ghost predicate Safe(w: World, s: State, p: Subject)
    requires p in w.registre
  {
    p in s.done || w.registre[p] > Since(s, w.now)
  }

  // The world and what a restart would load, at one moment.
  datatype Moment = Moment(w: World, s: State)

  /** Whoever was listed and safe, and still is listed, is safe. */
  ghost predicate KeepsVisible(a: Moment, b: Moment) {
    forall p :: p in a.w.registre && p in b.w.registre && Safe(a.w, a.s, p) ==> Safe(b.w, b.s, p)
  }

  // Nobody Registre still lists has been forgotten.
  ghost predicate Remembers(w: World, s: State, r: State) {
    forall p :: p in s.done && p in w.erased && w.erased[p] > w.now - RETENTION ==> p in r.done
  }

  lemma EvolvesIsHonest(w: World, v: World, s: State)
    requires Sound(w) && Evolves(w, v) && Honest(w, s)
    ensures Honest(v, s)
  {
  }

  lemma EvolvesKeepsVisible(a: Moment, w: World, v: World, s: State)
    requires Sound(a.w) && Evolves(a.w, w) && Evolves(w, v) && KeepsVisible(a, Moment(w, s))
    ensures KeepsVisible(a, Moment(v, s))
  {
    forall p | p in a.w.registre && p in v.registre && Safe(a.w, a.s, p)
      ensures Safe(v, s, p)
    {
      assert Safe(w, s, p);
    }
  }

  lemma KeepsVisibleOnwards(a: Moment, b: Moment, c: Moment)
    requires Sound(a.w) && Evolves(a.w, b.w) && Evolves(b.w, c.w) && KeepsVisible(a, b) && KeepsVisible(b, c)
    ensures KeepsVisible(a, c)
  {
    forall p | p in a.w.registre && p in c.w.registre && Safe(a.w, a.s, p)
      ensures Safe(c.w, c.s, p)
    {
      assert Safe(b.w, b.s, p);
    }
  }

  lemma RecordedIsGood(a: Moment, w: World, s: State, subject: Subject, r: State)
    requires Sound(w) && Honest(w, s) && KeepsVisible(a, Moment(w, s)) && subject in w.erased
    requires r.cursor == s.cursor
    requires forall p ::
      p in r.done <==> p == subject || (p in s.done && w.now - s.done[p] <= RETENTION + OVERLAP)
    requires forall p :: p in r.done ==> r.done[p] == (if p == subject then w.now else s.done[p])
    ensures Honest(w, r) && KeepsVisible(a, Moment(w, r)) && Remembers(w, s, r)
  {
    forall p | p in a.w.registre && p in w.registre && Safe(a.w, a.s, p)
      ensures Safe(w, r, p)
    {
      assert Safe(w, s, p);
    }
  }

  lemma RemembersItself(w: World, s: State)
    ensures Remembers(w, s, s)
  {
  }

  lemma RemembersOnwards(w: World, v: World, s: State, m: State, r: State)
    requires Honest(w, s) && Evolves(w, v) && Remembers(w, s, m) && Remembers(v, m, r)
    ensures Remembers(v, s, r)
  {
  }

  /******* The app's part *******/

  // A person is erased by the app's callback and then, where porte keeps rows, by porte's own erasure.
  datatype Stage = Callback | Rows

  datatype Call = Call(subject: Subject, stage: Stage, ok: bool)

  function Success(rows: bool, p: Subject): seq<Call> {
    if rows then [Call(p, Callback, true), Call(p, Rows, true)] else [Call(p, Callback, true)]
  }

  // A failure ends the attempt, at either stage.
  predicate Failure(rows: bool, p: Subject, calls: seq<Call>) {
    calls == [Call(p, Callback, false)] || (rows && calls == [Call(p, Callback, true), Call(p, Rows, false)])
  }

  ghost predicate SuccessAt(calls: seq<Call>, rows: bool, p: Subject, k: int) {
    var n := |Success(rows, p)|;
    0 <= k && k + n <= |calls| && calls[k..k + n] == Success(rows, p)
  }

  /** The app was told, and it and porte erased the person. */
  ghost predicate Delivered(calls: seq<Call>, rows: bool, p: Subject) {
    exists k :: SuccessAt(calls, rows, p, k)
  }

  // Some call for the person failed, from an index of the log on.
  ghost predicate Refused(calls: seq<Call>, from: nat, p: Subject) {
    exists k :: from <= k < |calls| && calls[k].subject == p && !calls[k].ok
  }

  /** Recorded means erased, never just attempted. */
  ghost predicate AllDelivered(calls: seq<Call>, rows: bool, s: State) {
    forall p :: p in s.done ==> Delivered(calls, rows, p)
  }

  lemma DeliveredGrows(calls: seq<Call>, more: seq<Call>, rows: bool, p: Subject)
    requires Delivered(calls, rows, p)
    ensures Delivered(calls + more, rows, p)
  {
    var k :| SuccessAt(calls, rows, p, k);
    var n := |Success(rows, p)|;
    assert (calls + more)[k..k + n] == calls[k..k + n];
    assert SuccessAt(calls + more, rows, p, k);
  }

  lemma DeliveredNow(calls: seq<Call>, rows: bool, p: Subject)
    ensures Delivered(calls + Success(rows, p), rows, p)
  {
    var all := calls + Success(rows, p);
    assert all[|calls|..|calls| + |Success(rows, p)|] == Success(rows, p);
    assert SuccessAt(all, rows, p, |calls|);
  }

  lemma RefusedNow(calls: seq<Call>, rows: bool, p: Subject, failure: seq<Call>, from: nat)
    requires Failure(rows, p, failure) && from <= |calls|
    ensures Refused(calls + failure, from, p)
  {
    var all, k := calls + failure, |calls| + |failure| - 1;
    assert all[k] == failure[|failure| - 1];
  }

  lemma AllDeliveredGrows(calls: seq<Call>, more: seq<Call>, rows: bool, s: State)
    requires AllDelivered(calls, rows, s)
    ensures AllDelivered(calls + more, rows, s)
  {
    forall p | p in s.done
      ensures Delivered(calls + more, rows, p)
    {
      DeliveredGrows(calls, more, rows, p);
    }
  }

  /**
   From one state to another and over the calls made since: nobody the first records is forgotten, and none of the
   calls is for somebody it records, while Registre lists them.
   */
  ghost predicate Spares(w: World, s: State, r: State, calls: seq<Call>, from: nat) {
    && Honest(w, s) && Remembers(w, s, r) && from <= |calls|
    && forall k :: from <= k < |calls| && calls[k].subject in s.done ==>
         w.erased[calls[k].subject] <= w.now - RETENTION
  }

  lemma SparesNobody(w: World, s: State, calls: seq<Call>)
    requires Honest(w, s)
    ensures Spares(w, s, s, calls, |calls|)
  {
  }

  lemma SparesOnwards(w: World, v: World, s: State, m: State, r: State, calls: seq<Call>, more: seq<Call>, from: nat)
    requires Sound(w) && Evolves(w, v)
    requires Spares(w, s, m, calls, from) && Spares(v, m, r, calls + more, |calls|)
    ensures Spares(v, s, r, calls + more, from)
  {
    EvolvesIsHonest(w, v, s);
    RemembersOnwards(w, v, s, m, r);
    hide Sound;
    var all := calls + more;
    forall k | from <= k < |all| && all[k].subject in s.done
      ensures v.erased[all[k].subject] <= v.now - RETENTION
    {
      var p := all[k].subject;
      EvolvesErased(w, v, p);
      if k < |calls| {
        assert calls[k].subject == p;
      } else {
        assert w.erased[p] > w.now - RETENTION ==> p in m.done;
      }
    }
  }

  // The calls for one person spare everybody else.
  lemma SparesOthers(w: World, s: State, subject: Subject, before: seq<Call>, calls: seq<Call>, rows: bool)
    requires Honest(w, s) && subject !in s.done && before <= calls
    requires var more := calls[|before|..]; more == Success(rows, subject) || Failure(rows, subject, more)
    ensures Spares(w, s, s, calls, |before|)
  {
    forall k | |before| <= k < |calls|
      ensures calls[k].subject == subject
    {
      assert calls[k] == calls[|before|..][k - |before|];
    }
  }

  lemma RecordedSpares(w: World, s: State, r: State, calls: seq<Call>, from: nat)
    requires Spares(w, s, s, calls, from) && Remembers(w, s, r)
    ensures Spares(w, s, r, calls, from)
  {
  }

  lemma SparesItself(w: World, s: State, r: State, calls: seq<Call>, from: nat)
    requires Spares(w, s, r, calls, from)
    ensures Spares(w, s, s, calls, from) && Remembers(w, s, r)
  {
  }

  // Only who is recorded matters, not the cursor.
  lemma SparesSame(w: World, s: State, m: State, r: State, calls: seq<Call>, from: nat)
    requires Spares(w, s, m, calls, from) && m.done == r.done
    ensures Spares(w, s, r, calls, from)
  {
  }

  /******* What a poll has dealt with so far *******/

  predicate Before(at: int, failed: Option<int>) {
    failed.None? || at < failed.value
  }

  // Everything but the receiver's part of a poll: the log of calls, where the poll's part of it begins, and
  // whether porte keeps rows.
  datatype Log = Log(calls: seq<Call>, from: nat, rows: bool)

  /** A listed notice was delivered, and is recorded while Registre lists it; or a call for it failed. */
  ghost predicate Dealt(w: World, s: State, log: Log, handled: seq<int>, failed: Option<int>, d: Deleted) {
    || (d.at in handled && Delivered(log.calls, log.rows, d.subject)
        && (d.subject in s.done || d.at <= w.now - RETENTION))
    || (failed.Some? && failed.value <= d.at && Refused(log.calls, log.from, d.subject))
  }

  ghost predicate AllDealt(w: World, s: State, log: Log, handled: seq<int>, failed: Option<int>,
                           offered: seq<Deleted>) {
    && (forall d :: d in offered ==> d.at > 0 && d.subject in w.erased && w.erased[d.subject] == d.at)
    && (forall d :: d in offered ==> Dealt(w, s, log, handled, failed, d))
    && (forall h :: h in handled ==> exists d :: d in offered && d.at == h)
    && (failed.Some? ==>
          exists d :: d in offered && d.at == failed.value && Refused(log.calls, log.from, d.subject))
  }

  lemma RefusedGrows(calls: seq<Call>, more: seq<Call>, from: nat, p: Subject)
    requires Refused(calls, from, p)
    ensures Refused(calls + more, from, p)
  {
    var k :| from <= k < |calls| && calls[k].subject == p && !calls[k].ok;
    assert (calls + more)[k] == calls[k];
  }

  lemma DealtOnwards(w: World, v: World, s: State, r: State, log: Log, more: seq<Call>, handled: seq<int>,
                     failed: Option<int>, handled': seq<int>, failed': Option<int>, d: Deleted)
    requires Dealt(w, s, log, handled, failed, d) && Evolves(w, v) && Remembers(v, s, r)
    requires d.subject in w.erased && w.erased[d.subject] == d.at
    requires handled <= handled' && (failed.Some? ==> failed'.Some? && failed'.value <= failed.value)
    ensures Dealt(v, r, log.(calls := log.calls + more), handled', failed', d)
  {
    hide Delivered, Refused;
    if d.at in handled && Delivered(log.calls, log.rows, d.subject) {
      DeliveredGrows(log.calls, more, log.rows, d.subject);
    }
    if Refused(log.calls, log.from, d.subject) {
      RefusedGrows(log.calls, more, log.from, d.subject);
    }
  }

  lemma AllDealtOnwards(w: World, v: World, s: State, r: State, log: Log, more: seq<Call>, handled: seq<int>,
                        failed: Option<int>, offered: seq<Deleted>, handled': seq<int>, failed': Option<int>,
                        d: Deleted)
    requires AllDealt(w, s, log, handled, failed, offered) && Evolves(w, v) && Remembers(v, s, r)
    requires d.at > 0 && d.subject in v.erased && v.erased[d.subject] == d.at
    requires handled' == handled || handled' == handled + [d.at]
    requires failed' == failed || (failed'.Some? && failed'.value == d.at && Before(d.at, failed)
                                   && Refused(log.calls + more, log.from, d.subject))
    requires Dealt(v, r, log.(calls := log.calls + more), handled', failed', d)
    ensures AllDealt(v, r, log.(calls := log.calls + more), handled', failed', offered + [d])
  {
    hide Dealt, Delivered, Refused, Remembers;
    var o' := offered + [d];
    var log' := log.(calls := log.calls + more);
    assert d in o';
    forall e | e in offered
      ensures Dealt(v, r, log', handled', failed', e) && e in o' && e.subject in v.erased && v.erased[e.subject] == e.at
    {
      EvolvesErased(w, v, e.subject);
      DealtOnwards(w, v, s, r, log, more, handled, failed, handled', failed', e);
    }
    forall h | h in handled'
      ensures exists e :: e in o' && e.at == h
    {
      if h in handled {
        var e :| e in offered && e.at == h;
        assert e in o';
      }
    }
    if failed' == failed && failed.Some? {
      var e :| e in offered && e.at == failed.value && Refused(log.calls, log.from, e.subject);
      RefusedGrows(log.calls, more, log.from, e.subject);
      assert e in o';
    }
  }

  /******* The pages of a poll *******/

  // A page as it was answered.
  datatype Page = Page(since: int, list: seq<Deleted>, w: World)

  function Notices(pages: seq<Page>): seq<Deleted> {
    if pages == [] then [] else Notices(pages[..|pages| - 1]) + pages[|pages| - 1].list
  }

  ghost predicate PageAt(pages: seq<Page>, since: int, k: int)
    requires 0 <= k < |pages|
  {
    && IsPage(pages[k].list, pages[k].w.registre, pages[k].since)
    && (if k == 0 then pages[k].since == since
        else NextPage(pages[k - 1].list, pages[k - 1].since) == More(pages[k].since))
  }

  /** Every page is what Registre answered at its moment, and starts where the one before says. */
  ghost predicate Paged(pages: seq<Page>, since: int, w: World, v: World) {
    && Evolves(w, v)
    && (forall k :: 0 <= k < |pages| ==> PageAt(pages, since, k))
    && (forall k :: 0 <= k < |pages| ==> Evolves(w, pages[k].w) && Evolves(pages[k].w, v))
  }

  // How far the pages reach: everything after it is still to be listed; None when nothing is.
  function Reach(list: seq<Deleted>, since: int): Option<int> {
    var next := NextPage(list, since);
    if next.Last? then None else if next.More? then Some(next.since) else Some(since)
  }

  function ReachOf(pages: seq<Page>, since: int): Option<int> {
    if pages == [] then Some(since) else Reach(pages[|pages| - 1].list, pages[|pages| - 1].since)
  }

  /** Whenever a page was listed, the notice was not visible, or not after where the page started. */
  ghost predicate Missed(pages: seq<Page>, p: Subject) {
    forall k :: 0 <= k < |pages| && p in pages[k].w.registre ==> pages[k].w.registre[p] <= pages[k].since
  }

  /** Every listed notice after since was handed to handle, was missed by every page, or is beyond their reach. */
  ghost predicate Covered(w: World, since: int, pages: seq<Page>) {
    forall p :: p in w.registre && w.registre[p] > since ==>
      Lists(Notices(pages), p) || Missed(pages, p)
      || (ReachOf(pages, since).Some? && w.registre[p] > ReachOf(pages, since).value)
  }

  ghost predicate Reached(reach: Option<int>, handled: seq<int>) {
    reach.Some? ==> forall h :: h in handled ==> h <= reach.value + MICROSECOND
  }

  lemma PagedOneMore(pages: seq<Page>, since0: int, w0: World, w: World, v: World, list: seq<Deleted>, since: int)
    requires Sound(w0) && Sound(w) && Paged(pages, since0, w0, w) && Evolves(w, v)
    requires IsPage(list, w.registre, since) && ReachOf(pages, since0) == Some(since)
    requires pages != [] ==> NextPage(pages[|pages| - 1].list, pages[|pages| - 1].since).More?
    ensures Paged(pages + [Page(since, list, w)], since0, w0, v)
  {
    hide IsPage, NextPage, Evolves;
    var more := pages + [Page(since, list, w)];
    EvolvesNowhere(w);
    EvolvesOnwards(w0, w, v);
    forall k | 0 <= k < |more|
      ensures PageAt(more, since0, k)
    {
      if k < |pages| {
        assert PageAt(pages, since0, k) && more[k] == pages[k] && (k > 0 ==> more[k - 1] == pages[k - 1]);
      } else if k > 0 {
        assert more[k - 1] == pages[k - 1];
      }
    }
    forall k | 0 <= k < |more|
      ensures Evolves(w0, more[k].w) && Evolves(more[k].w, v)
    {
      if k < |pages| {
        assert more[k] == pages[k] && Evolves(w0, pages[k].w) && Evolves(pages[k].w, w);
        EvolvesIsSound(w0, pages[k].w);
        EvolvesOnwards(pages[k].w, w, v);
      }
    }
  }

  // A notice that appeared only after a page was listed was missed by every page up to it.
  lemma MissedUnlessSeen(pages: seq<Page>, since0: int, w0: World, w: World, v: World, p: Subject)
    requires Sound(w0) && Paged(pages, since0, w0, w) && Evolves(w, v) && p in v.registre && p !in w.registre
    ensures Missed(pages, p)
  {
    hide IsPage, NextPage;
    forall k | 0 <= k < |pages|
      ensures p !in pages[k].w.registre
    {
      assert Evolves(w0, pages[k].w);
      EvolvesIsSound(w0, pages[k].w);
      if p in pages[k].w.registre {
      }
    }
  }

  lemma NoticesOneMore(pages: seq<Page>, page: Page, since: int)
    ensures ReachOf(pages + [page], since) == Reach(page.list, page.since)
    ensures Notices(pages + [page]) == Notices(pages) + page.list
  {
    assert (pages + [page])[..|pages|] == pages;
  }

  lemma ListsEither(a: seq<Deleted>, b: seq<Deleted>, p: Subject)
    requires Lists(a, p) || Lists(b, p)
    ensures Lists(a + b, p)
  {
    if Lists(a, p) {
      var k :| 0 <= k < |a| && a[k].subject == p;
      assert (a + b)[k].subject == p;
    } else {
      var k :| 0 <= k < |b| && b[k].subject == p;
      assert (a + b)[|a| + k].subject == p;
    }
  }

  lemma PageCovers(w0: World, w: World, v: World, since0: int, since: int, list: seq<Deleted>, pages: seq<Page>)
    requires Sound(w0) && Sound(w) && Paged(pages, since0, w0, w) && Evolves(w, v) && IsPage(list, w.registre, since)
    requires Covered(w, since0, pages) && ReachOf(pages, since0) == Some(since)
    ensures Covered(v, since0, pages + [Page(since, list, w)])
  {
    hide IsPage, NextPage, Paged;
    var page := Page(since, list, w);
    var reach := Reach(list, since);
    NoticesOneMore(pages, page, since0);
    forall p | p in v.registre && v.registre[p] > since0
      ensures Lists(Notices(pages + [page]), p) || Missed(pages + [page], p)
        || (reach.Some? && v.registre[p] > reach.value)
    {
      if p !in w.registre {
        MissedUnlessSeen(pages, since0, w0, w, v, p);
      } else if Lists(Notices(pages), p) {
        ListsEither(Notices(pages), list, p);
      } else if w.registre[p] <= since {
      } else {
        PagesMeet(list, w.registre, since, p);
        if Lists(list, p) {
          ListsEither(Notices(pages), list, p);
        } else {
          SameInstantMeans(list, w.registre, since);
        }
      }
    }
  }

  lemma PageReaches(w: World, since: int, list: seq<Deleted>, handled: seq<int>, handled': seq<int>)
    requires IsListing(list, w.registre, since) && Reached(Some(since), handled)
    requires forall h :: h in handled' ==> h in handled || exists d :: d in list && d.at == h
    ensures Reached(Reach(list, since), handled')
  {
    var reach := Reach(list, since);
    if reach.Some? {
      forall h | h in handled'
        ensures h <= reach.value + MICROSECOND
      {
        if h !in handled {
          var d :| d in list && d.at == h;
        }
      }
    }
  }

  // One more page: the poll has reached further, and nothing listed up to there is unaccounted for.
  lemma PageDone(w0: World, w: World, v: World, since0: int, since: int, list: seq<Deleted>, pages: seq<Page>,
                 handled: seq<int>, handled': seq<int>)
    requires Sound(w0) && Sound(w) && Paged(pages, since0, w0, w) && Evolves(w, v) && IsPage(list, w.registre, since)
    requires Covered(w, since0, pages) && ReachOf(pages, since0) == Some(since) && Reached(Some(since), handled)
    requires pages != [] ==> NextPage(pages[|pages| - 1].list, pages[|pages| - 1].since).More?
    requires forall h :: h in handled' ==> h in handled || exists d :: d in list && d.at == h
    ensures var more := pages + [Page(since, list, w)];
      && Paged(more, since0, w0, v) && Covered(v, since0, more) && Notices(more) == Notices(pages) + list
      && ReachOf(more, since0) == Reach(list, since) && Reached(Reach(list, since), handled')
  {
    PageIsTrue(w, list, since);
    hide IsPage, NextPage, Paged, Covered, Reached, Evolves, Sound;
    PageReaches(w, since, list, handled, handled');
    PageCovers(w0, w, v, since0, since, list, pages);
    PagedOneMore(pages, since0, w0, w, v, list, since);
    NoticesOneMore(pages, Page(since, list, w), since0);
  }

  lemma PageIsTrue(w: World, list: seq<Deleted>, since: int)
    requires Sound(w) && IsPage(list, w.registre, since)
    ensures IsListing(list, w.registre, since)
    ensures forall d :: d in list ==> d.at > 0 && d.subject in w.erased && w.erased[d.subject] == d.at
  {
  }

  lemma NextPageAdvances(list: seq<Deleted>, v: World, w: World, since: int)
    requires Sound(v) && Evolves(v, w) && IsListing(list, v.registre, since)
    ensures var n := NextPage(list, since);
      && (n.More? ==> since < n.since <= w.now && Reach(list, since) == Some(n.since))
      && (n.Last? ==> Reach(list, since) == None)
      && (n.SameInstant? ==> Reach(list, since) == Some(since))
  {
    if |list| > 0 {
      assert list[|list| - 1].at <= v.now;
    }
  }

  lemma DrainStarts(w: World, s: State, log: Log, since: int)
    requires Sound(w)
    ensures Paged([], since, w, w) && Covered(w, since, []) && Reached(Some(since), [])
    ensures AllDealt(w, s, log, [], None, [])
  {
  }

  // Whatever was listed all along was seen by the first page.
  lemma SeenIsNotMissed(pages: seq<Page>, since: int, w: World, v: World, p: Subject)
    requires Sound(w) && Paged(pages, since, w, v) && pages != []
    requires p in w.registre && p in v.registre && w.registre[p] > since
    ensures !Missed(pages, p)
  {
    hide IsPage, NextPage;
    assert PageAt(pages, since, 0);
  }

  /** Moving the cursor to the newest time handled before any failure loses nobody listed when the poll began. */
  lemma AdvanceKeepsVisible(a: Moment, w: World, s: State, cursor: int, since: int, pages: seq<Page>, log: Log,
                            handled: seq<int>, failed: Option<int>)
    requires Sound(a.w) && Sound(w) && KeepsVisible(a, Moment(w, s)) && Paged(pages, since, a.w, w)
    requires since <= Since(s, w.now) && Covered(w, since, pages) && Reached(ReachOf(pages, since), handled)
    requires AllDealt(w, s, log, handled, failed, Notices(pages))
    requires cursor in handled && Before(cursor, failed)
    ensures KeepsVisible(a, Moment(w, s.(cursor := cursor)))
  {
    hide Paged, Missed, Delivered, Refused;
    var d :| d in Notices(pages) && d.at == cursor;
    assert pages != [];
    forall p | p in a.w.registre && p in w.registre && Safe(a.w, a.s, p)
      ensures Safe(w, s.(cursor := cursor), p)
    {
      assert Safe(w, s, p);
      if p !in s.done {
        VisibleSame(pages, since, a.w, w, p);
        SeenIsNotMissed(pages, since, a.w, w, p);
        if Lists(Notices(pages), p) {
          var k :| 0 <= k < |Notices(pages)| && Notices(pages)[k].subject == p;
          assert Dealt(w, s, log, handled, failed, Notices(pages)[k]);
        }
      }
    }
  }

  lemma VisibleSame(pages: seq<Page>, since: int, w: World, v: World, p: Subject)
    requires Sound(w) && Paged(pages, since, w, v) && p in w.registre && p in v.registre
    ensures w.registre[p] == v.registre[p]
  {
  }

  lemma AdvanceIsHonest(w: World, s: State, cursor: int, log: Log, handled: seq<int>, failed: Option<int>,
                        offered: seq<Deleted>)
    requires Sound(w) && Honest(w, s) && AllDealt(w, s, log, handled, failed, offered) && cursor in handled
    ensures Honest(w, s.(cursor := cursor)) && cursor > 0
  {
    var d :| d in offered && d.at == cursor;
  }

  lemma HandledIsPositive(w: World, s: State, log: Log, handled: seq<int>, failed: Option<int>, offered: seq<Deleted>)
    requires AllDealt(w, s, log, handled, failed, offered)
    ensures forall h :: h in handled ==> h > 0
  {
    forall h | h in handled
      ensures h > 0
    {
      var d :| d in offered && d.at == h;
    }
  }

  /** A poll without a failure: everyone listed throughout is recorded, and the cursor is past whom it listed. */
  ghost predicate CaughtUp(a: Moment, b: Moment) {
    forall p :: p in a.w.registre && p in b.w.registre ==>
      && (Safe(a.w, a.s, p) ==> p in b.s.done)
      && (b.w.registre[p] > Since(a.s, a.w.now) ==> p in b.s.done && b.w.registre[p] <= b.s.cursor)
  }

  lemma PollCatchesUp(a: Moment, v: World, r: State, cursor: int, pages: seq<Page>, log: Log, handled: seq<int>)
    requires Sound(a.w) && Sound(v) && Honest(a.w, a.s)
    requires Paged(pages, Since(a.s, a.w.now), a.w, v) && Remembers(v, a.s, r)
    requires AllDealt(v, r, log, handled, None, Notices(pages)) && Covered(v, Since(a.s, a.w.now), pages)
    requires pages != [] && ReachOf(pages, Since(a.s, a.w.now)) == None
    requires forall h :: h in handled ==> h <= cursor
    ensures forall c :: c >= cursor ==> CaughtUp(a, Moment(v, r.(cursor := c)))
  {
    hide Missed, Delivered, Refused;
    var since := Since(a.s, a.w.now);
    forall p | p in a.w.registre && p in v.registre
      ensures Safe(a.w, a.s, p) ==> p in r.done
      ensures v.registre[p] > since ==> p in r.done && v.registre[p] <= cursor
    {
      if v.registre[p] > since {
        SeenIsNotMissed(pages, since, a.w, v, p);
        var k :| 0 <= k < |Notices(pages)| && Notices(pages)[k].subject == p;
        assert Dealt(v, r, log, handled, None, Notices(pages)[k]);
      }
    }
  }
}

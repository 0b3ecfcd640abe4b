/**
 The two signing-key caches: the bearer-token verifier of porte/oidc/jwt and the notice verifier of
 porte/directory. A kid comes from an unverified token, so what it may cost is bounded. Times are nanoseconds.
 */
module KeyCaches {
  import opened Wrappers

  const SECOND := 1_000_000_000
  const REFETCH_INTERVAL := 30 * SECOND
  const REFETCH_GAP := 60 * SECOND
  const DEFAULT_TTL := 3600 * SECOND

  type Key = nat

  type Keys = map<string, Key>

  // One entry of a key document; material is None when its modulus or exponent is unusable.
  datatype Entry = Entry(kid: string, signing: bool, material: Option<Key>)

  predicate Usable(e: Entry) {
    e.signing && e.material.Some?
  }

  // The last usable entry of a kid is the one kept.
  function KeysOf(document: seq<Entry>): Keys {
    if document == [] then map[]
    else
      var e := document[|document| - 1];
      var rest := KeysOf(document[..|document| - 1]);
      if Usable(e) then rest[e.kid := e.material.value] else rest
  }

  // A signing key whose numbers could be read, and the last such of its kid.
  ghost predicate LastUsable(document: seq<Entry>, kid: string, k: int) {
    && 0 <= k < |document| && document[k].kid == kid && document[k].signing && document[k].material.Some?
    && forall j :: k < j < |document| && document[j].kid == kid ==>
         !(document[j].signing && document[j].material.Some?)
  }

  /** And what is held is the material of the last such entry. */
  lemma {:induction false} HeldIsLastUsable(document: seq<Entry>, kid: string, k: int)
    requires LastUsable(document, kid, k)
    ensures kid in KeysOf(document) && KeysOf(document)[kid] == document[k].material.value
  {
    var last := |document| - 1;
    if k < last {
      assert LastUsable(document[..last], kid, k);
      HeldIsLastUsable(document[..last], kid, k);
    }
  }

  /** A malformed entry costs the others nothing: a kid is held exactly when one of its entries is usable. */
  lemma {:induction false} HeldWhenUsable(document: seq<Entry>, kid: string)
    ensures kid in KeysOf(document) <==>
      exists k :: 0 <= k < |document| && document[k].kid == kid && document[k].signing && document[k].material.Some?
  {
    if document != [] {
      var last := |document| - 1;
      var rest := document[..last];
      HeldWhenUsable(rest, kid);
      if kid in KeysOf(rest) {
        var k :| 0 <= k < |rest| && rest[k].kid == kid && Usable(rest[k]);
        assert document[k] == rest[k];
      } else if kid in KeysOf(document) {
        assert document[last].kid == kid && Usable(document[last]);
      }
    }
  }

  method ReadKeys(document: seq<Entry>) returns (keys: Keys)
    ensures keys == KeysOf(document)
  {
    keys := map[];
    for k := 0 to |document|
      invariant keys == KeysOf(document[..k])
    {
      assert document[..k + 1][..k] == document[..k];
      if Usable(document[k]) {
        keys := keys[document[k].kid := document[k].material.value];
      }
    }
    assert document[..|document|] == document;
  }

  /******* Counting spaced moments *******/

  ghost predicate Spaced(times: seq<int>, gap: int) {
    forall i, j :: 0 <= i < j < |times| ==> times[i] + gap <= times[j]
  }

  function CountIn(times: seq<int>, from: int, to: int): nat {
    if times == [] then 0
    else CountIn(times[..|times| - 1], from, to) + if from <= times[|times| - 1] <= to then 1 else 0
  }

  function Gaps(n: nat, gap: nat): nat {
    if n == 0 then 0 else Gaps(n - 1, gap) + gap
  }

  lemma OneMoreGap(n: nat, gap: nat)
    ensures Gaps(0, gap) == 0 && Gaps(n + 1, gap) == Gaps(n, gap) + gap
  {
  }

  // The last of n spaced moments from a start is at least n - 1 gaps after it.
  lemma {:induction false} LastIsLate(times: seq<int>, from: int, to: int, gap: nat) returns (k: nat)
    requires Spaced(times, gap) && CountIn(times, from, to) > 0
    ensures k < |times| && from + Gaps(CountIn(times, from, to) - 1, gap) <= times[k] <= to
  {
    hide Gaps;
    OneMoreGap(0, gap);
    var last := |times| - 1;
    var rest := times[..last];
    if !(from <= times[last] <= to) {
      k := LastIsLate(rest, from, to, gap);
      return;
    }
    k := last;
    if CountIn(rest, from, to) > 0 {
      var j := LastIsLate(rest, from, to, gap);
      assert times[j] + gap <= times[last];
      OneMoreGap(CountIn(rest, from, to) - 1, gap);
    }
  }

  lemma {:induction false} GapsIsProduct(n: nat, gap: nat)
    ensures Gaps(n, gap) == n * gap
  {
    if n > 0 {
      GapsIsProduct(n - 1, gap);
    }
  }

  lemma {:induction false} GapsGrow(n: nat, m: nat, gap: nat)
    requires n <= m
    ensures Gaps(n, gap) <= Gaps(m, gap)
  {
    if n < m {
      GapsGrow(n, m - 1, gap);
    }
  }

  lemma GapsFit(n: nat, span: nat, gap: nat)
    requires gap > 0 && Gaps(n, gap) <= span
    ensures n <= span / gap
  {
    var q := span / gap;
    assert span < q * gap + gap;
    GapsIsProduct(q, gap);
    if n > q {
      GapsGrow(q + 1, n, gap);
    }
  }

  function InSpan(times: seq<int>, from: int, span: nat): nat {
    CountIn(times, from, from + span)
  }

  /** In any closed span at most one and the whole gaps that fit. */
  ghost predicate Rated(times: seq<int>, gap: nat)
    requires gap > 0
  {
    forall from: int, span: nat :: InSpan(times, from, span) <= 1 + span / gap
  }

  lemma SpacedIsRated(times: seq<int>, gap: nat)
    requires gap > 0 && Spaced(times, gap)
    ensures Rated(times, gap)
  {
    forall from: int, span: nat
      ensures InSpan(times, from, span) <= 1 + span / gap
    {
      var n := InSpan(times, from, span);
      if n > 0 {
        var _ := LastIsLate(times, from, from + span, gap);
        GapsFit(n - 1, span, gap);
      }
    }
  }

  /******* Fetches *******/

  // One reading of a key set: when it began and ended, what it read, and whether the set held before it was young
  // enough and only lacked a kid.
  datatype Fetch = Made(at: int, ended: int, read: Option<Keys>, unknown: bool)

  function Starts(log: seq<Fetch>): seq<int> {
    if log == [] then [] else Starts(log[..|log| - 1]) + [log[|log| - 1].at]
  }

  // When the fetches made for unknown kids began.
  function Refetches(log: seq<Fetch>): seq<int> {
    if log == [] then []
    else Refetches(log[..|log| - 1]) + if log[|log| - 1].unknown then [log[|log| - 1].at] else []
  }

  // The last fetch that read anything.
  function LastRead(log: seq<Fetch>): Option<Fetch> {
    if log == [] then None
    else if log[|log| - 1].read.Some? then Some(log[|log| - 1])
    else LastRead(log[..|log| - 1])
  }

  lemma NoFetch()
    ensures Starts([]) == [] && Refetches([]) == [] && LastRead([]) == None
  {
  }

  lemma OneMoreFetch(log: seq<Fetch>, f: Fetch)
    ensures Starts(log + [f]) == Starts(log) + [f.at]
    ensures Refetches(log + [f]) == if f.unknown then Refetches(log) + [f.at] else Refetches(log)
    ensures LastRead(log + [f]) == if f.read.Some? then Some(f) else LastRead(log)
  {
    assert (log + [f])[..|log|] == log;
  }

  lemma {:induction false} LastReadIsLogged(log: seq<Fetch>)
    ensures LastRead(log).Some? ==> LastRead(log).value in log && LastRead(log).value.read.Some?
  {
    if log != [] && log[|log| - 1].read.None? {
      LastReadIsLogged(log[..|log| - 1]);
    }
  }

  // A key that some logged fetch read for the kid.
  ghost predicate ReadFor(log: seq<Fetch>, kid: string, key: Key) {
    exists f :: f in log && f.read.Some? && kid in f.read.value && f.read.value[kid] == key
  }

  lemma SpacedOnwards(times: seq<int>, gap: int, at: int)
    requires Spaced(times, gap) && forall k :: 0 <= k < |times| ==> times[k] + gap <= at
    ensures Spaced(times + [at], gap)
  {
  }

  /******* The bearer-token verifier *******/

  class Verifier {
    const cacheTTL: int
    var keys: Option<Keys>
    var fetchedAt: int
    var refetchedAt: int
    var now: int

    // Every fetch so far.
    ghost var fetches: seq<Fetch>

    function TTL(): int {
      if cacheTTL == 0 then DEFAULT_TTL else cacheTTL
    }

    // What is held is what the last fetch that read anything read, and when it ended.
    ghost predicate Holds()
      reads this
    {
      && now > 0 && (keys.Some? ==> fetchedAt <= now)
      && (match LastRead(fetches)
          case None => keys == None
          case Some(f) => keys == f.read && fetchedAt == f.ended)
      && Spaced(Refetches(fetches), REFETCH_INTERVAL) && 0 <= refetchedAt <= now
    }

    ghost predicate Valid()
      reads this
    {
      var times := Refetches(fetches);
      && Holds() && (times == [] <==> refetchedAt == 0) && (forall k :: 0 <= k < |times| ==> times[k] <= refetchedAt)
    }

    // A slot was taken and its fetch has not begun.
    ghost predicate Taken()
      reads this
    {
      var times := Refetches(fetches);
      Holds() && refetchedAt == now && (forall k :: 0 <= k < |times| ==> times[k] + REFETCH_INTERVAL <= now)
    }

    // An hour is a set's age when none is configured.
    predicate Stale(): (stale: bool)
      reads this
      ensures stale <==> keys.None? || now - fetchedAt >= if cacheTTL == 0 then 3600 * SECOND else cacheTTL
    {
      keys.None? || now - fetchedAt >= TTL()
    }

    predicate SlotFree()
      reads this
    {
      refetchedAt == 0 || now - refetchedAt >= REFETCH_INTERVAL
    }

    constructor (ttl: int, clock: int)
      requires clock > 0
      ensures Valid() && keys == None && fetches == [] && cacheTTL == ttl && now == clock
    {
      cacheTTL, keys, fetchedAt, refetchedAt, now := ttl, None, 0, 0, clock;
      fetches := [];
    }

    // Time passes; it never goes back.
    method Wait()
      requires Valid()
      modifies this`now
      ensures Valid() && now >= old(now)
    {
      var later: int := *;
      if later > now {
        now := later;
      }
    }

    /** Reads the provider's key set; a failure leaves the held one as it is. */
    method Fetch() returns (ok: bool)
      requires if Stale() then Valid() else Taken()
      modifies this`now, this`keys, this`fetchedAt, this`fetches
      ensures Valid() && now >= old(now)
      ensures fetches == old(fetches) + [Made(old(now), now, if ok then keys else None, !old(Stale()))]
      ensures ok ==> keys.Some? && fetchedAt == now
      ensures !ok ==> keys == old(keys) && fetchedAt == old(fetchedAt)
    {
      hide Spaced, Refetches, LastRead;
      ghost var at, unknown, was := now, !Stale(), fetches;
      var later: int := *;
      if later > now {
        now := later;
      }
      ok := *;
      if ok {
        var document: seq<Entry> := *;
        var read := ReadKeys(document);
        keys, fetchedAt := Some(read), now;
      }
      ghost var f := Made(at, now, if ok then keys else None, unknown);
      OneMoreFetch(was, f);
      if unknown {
        SpacedOnwards(Refetches(was), REFETCH_INTERVAL, at);
      }
      fetches := was + [f];
    }

    /** Takes the slot for a fetch on an unknown kid, if thirty seconds are over since the last one was taken. */
    method TakeRefetchSlot() returns (taken: bool)
      requires Valid()
      modifies this`refetchedAt
      ensures taken <==> old(refetchedAt == 0 || now - refetchedAt >= 30 * SECOND)
      ensures if taken then Taken() else Valid() && refetchedAt == old(refetchedAt)
    {
      if refetchedAt != 0 && now - refetchedAt < REFETCH_INTERVAL {
        return false;
      }
      refetchedAt := now;
      taken := true;
    }

    /**
     The key of a kid. What is returned is in a set younger than the TTL, or fetched by this very call. A stale set
     costs one fetch; a fresh one costs a fetch exactly for a kid it lacks, with a slot free.
     */
    method Lookup(kid: string) returns (key: Option<Key>)
      requires Valid()
      modifies this
      ensures Valid() && now >= old(now)
      ensures key.Some? ==> keys.Some? && kid in keys.value && key.value == keys.value[kid]
      ensures key.Some? ==> now - fetchedAt < TTL() || fetchedAt == now
      ensures key.Some? ==> ReadFor(fetches, kid, key.value)
      ensures !old(Stale()) && kid in old(keys).value ==> key == Some(old(keys).value[kid])
      ensures old(fetches) <= fetches && |fetches| - |old(fetches)| <= 1
      ensures |fetches| == |old(fetches)| + 1 <==> old(Stale()) || (kid !in old(keys).value && old(SlotFree()))
      ensures |fetches| == |old(fetches)| + 1 ==>
        fetches[|old(fetches)|].at == old(now) && fetches[|old(fetches)|].unknown == !old(Stale())
      ensures |fetches| == |old(fetches)| ==> unchanged(this)
      ensures keys.Some? && kid in keys.value && (|fetches| > |old(fetches)| ==> fetches[|old(fetches)|].read.Some?) ==>
        key.Some?
    {
      hide Spaced, Refetches;
      var stale := Stale();
      if stale {
        var ok := Fetch();
        if !ok {
          return None;
        }
      }
      LastReadIsLogged(fetches);
      if kid in keys.value {
        return Some(keys.value[kid]);
      }
      if !stale {
        var taken := TakeRefetchSlot();
        if taken {
          var ok := Fetch();
          if !ok {
            return None;
          }
          LastReadIsLogged(fetches);
          if kid in keys.value {
            return Some(keys.value[kid]);
          }
        }
      }
      key := None;
    }

    /**
     Whatever kids arrive, and however the fetches go: each costs one fetch at most, the fetches for unknown ones are
     at most one in thirty seconds, and what is answered was read by a fetch.
     */
    method Serve(kids: seq<string>) returns (found: seq<Option<Key>>)
      requires Valid()
      modifies this
      ensures Valid() && |found| == |kids|
      ensures old(fetches) <= fetches && |fetches| - |old(fetches)| <= |kids|
      ensures Rated(Refetches(fetches), REFETCH_INTERVAL)
      ensures forall k :: 0 <= k < |kids| && found[k].Some? ==> ReadFor(fetches, kids[k], found[k].value)
    {
      found := [];
      for k := 0 to |kids|
        invariant Valid() && |found| == k && old(fetches) <= fetches && |fetches| - |old(fetches)| <= k
        invariant forall j :: 0 <= j < k && found[j].Some? ==> ReadFor(fetches, kids[j], found[j].value)
      {
        Wait();
        ghost var was := fetches;
        var key := Lookup(kids[k]);
        assert forall f :: f in was ==> f in fetches;
        found := found + [key];
      }
      SpacedIsRated(Refetches(fetches), REFETCH_INTERVAL);
    }
  }

  /******* The notice verifier *******/

  datatype Answer = Found(key: Key) | Unknown | Unavailable

  class KeySet {
    var keys: Keys
    var fetched: int
    var now: int

    // Every fetch so far.
    ghost var fetches: seq<Fetch>

    // What is held is what the last fetch that read anything read; the last to end, read or not, ended at fetched.
    ghost predicate Valid()
      reads this
    {
      var times := Starts(fetches);
      && now > 0 && 0 <= fetched <= now && (fetches == [] <==> fetched == 0)
      && (fetches != [] ==> fetched == fetches[|fetches| - 1].ended)
      && (match LastRead(fetches)
          case None => keys == map[]
          case Some(f) => f.read == Some(keys))
      && Spaced(times, REFETCH_GAP) && (forall k :: 0 <= k < |times| ==> times[k] <= fetched)
    }

    predicate GapOver()
      reads this
    {
      fetched == 0 || now - fetched >= REFETCH_GAP
    }

    constructor (clock: int)
      requires clock > 0
      ensures Valid() && keys == map[] && fetches == [] && now == clock
    {
      keys, fetched, now, fetches := map[], 0, clock, [];
    }

    method Wait()
      requires Valid()
      modifies this`now
      ensures Valid() && now >= old(now)
    {
      var later: int := *;
      if later > now {
        now := later;
      }
    }

    // One reading of the issuer's keys, which may fail.
    method FetchKeys() returns (read: Keys, ok: bool)
      requires now > 0
      modifies this`now, this`fetches
      ensures now >= old(now)
      ensures fetches == old(fetches) + [Made(old(now), now, if ok then Some(read) else None, true)]
    {
      ghost var at := now;
      var later: int := *;
      if later > now {
        now := later;
      }
      ok := *;
      var document: seq<Entry> := *;
      read := ReadKeys(document);
      fetches := fetches + [Made(at, now, if ok then Some(read) else None, true)];
    }

    /** Reads the keys anew, held if they come and not if they do not; either way the gap begins again. */
    method Refetch() returns (ok: bool)
      requires Valid() && GapOver()
      modifies this
      ensures Valid() && now >= old(now)
      ensures fetches == old(fetches) + [Made(old(now), now, if ok then Some(keys) else None, true)]
      ensures !ok ==> keys == old(keys)
    {
      hide Spaced, Starts, LastRead;
      ghost var was, at := fetches, now;
      NoFetch();
      assert forall k :: 0 <= k < |Starts(was)| ==> Starts(was)[k] + REFETCH_GAP <= at;
      var read;
      read, ok := FetchKeys();
      OneMoreFetch(was, fetches[|was|]);
      SpacedOnwards(Starts(was), REFETCH_GAP, at);
      fetched := now;
      if ok {
        keys := read;
      }
    }

    lemma HeldWasRead(kid: string)
      requires Valid() && kid in keys
      ensures ReadFor(fetches, kid, keys[kid])
    {
      LastReadIsLogged(fetches);
    }

    /**
     The key of a kid. A held kid is answered as it is; another costs a fetch exactly when none ended less than a
     minute ago, and else the answer is to retry. A failed fetch counts, and drops nothing.
     */
    method Lookup(kid: string) returns (answer: Answer)
      requires Valid()
      modifies this
      ensures Valid() && now >= old(now)
      ensures kid in old(keys) ==> answer == Found(old(keys)[kid]) && unchanged(this)
      ensures old(fetches) <= fetches && |fetches| - |old(fetches)| <= 1
      ensures |fetches| == |old(fetches)| + 1 <==>
        kid !in old(keys) && old(fetched == 0 || now - fetched >= 60 * SECOND)
      ensures |fetches| == |old(fetches)| + 1 ==> fetches[|old(fetches)|].at == old(now)
      ensures |fetches| == |old(fetches)| ==> unchanged(this) && (kid !in keys ==> answer == Unavailable)
      ensures answer.Found? <==> kid in keys
      ensures answer.Found? ==> answer.key == keys[kid] && ReadFor(fetches, kid, answer.key)
      ensures answer.Unavailable? ==> keys == old(keys)
      ensures answer.Unknown? <==>
        kid !in keys && |fetches| == |old(fetches)| + 1 && fetches[|old(fetches)|].read.Some?
    {
      hide Valid, ReadFor;
      if kid in keys {
        HeldWasRead(kid);
        return Found(keys[kid]);
      }
      if fetched != 0 && now - fetched < REFETCH_GAP {
        return Unavailable;
      }
      var ok := Refetch();
      if !ok {
        return Unavailable;
      }
      if kid in keys {
        HeldWasRead(kid);
        return Found(keys[kid]);
      }
      answer := Unknown;
    }

    /** Whatever kids arrive, at most one fetch a minute starts, failed ones included. */
    method Serve(kids: seq<string>) returns (answers: seq<Answer>)
      requires Valid()
      modifies this
      ensures Valid() && |answers| == |kids|
      ensures old(fetches) <= fetches && |fetches| - |old(fetches)| <= |kids|
      ensures Rated(Starts(fetches), REFETCH_GAP)
      ensures forall k :: 0 <= k < |kids| && answers[k].Found? ==> ReadFor(fetches, kids[k], answers[k].key)
    {
      answers := [];
      for k := 0 to |kids|
        invariant Valid() && |answers| == k && old(fetches) <= fetches && |fetches| - |old(fetches)| <= k
        invariant forall j :: 0 <= j < k && answers[j].Found? ==> ReadFor(fetches, kids[j], answers[j].key)
      {
        Wait();
        ghost var was := fetches;
        var answer := Lookup(kids[k]);
        assert forall f :: f in was ==> f in fetches;
        answers := answers + [answer];
      }
      SpacedIsRated(Starts(fetches), REFETCH_GAP);
    }
  }
}

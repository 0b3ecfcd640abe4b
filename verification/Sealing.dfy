/**
 Token sealing in porte/pg. Authenticated encryption is ideal: a sealed value is its key, its nonce and its
 plaintext, and only that key opens it.
 */
module Sealing {
  import opened Wrappers

  const PREFIX := "pv1:"
  const SECRET_SIZE := 32

  type Secret = string

  // A stored token: text without the prefix, a sealed value, or text with the prefix that no key made.
  datatype Stored = Clear(text: string) | Sealed(key: Secret, nonce: nat, plain: string) | Garbled(text: string)

  datatype Row = Row(access: Stored, refresh: Stored)

  // Rows by (provider, subject). A key is its place in the table's order among all the keys a run ever sees;
  // 0 is the pair of empty strings.
  type Table = map<nat, Row>

  const EMPTY := Clear("")

  /******* One value *******/

  function Verbatim(text: string): Stored {
    if PREFIX <= text then Garbled(text) else Clear(text)
  }

  datatype Opened = Opened(plain: string, current: bool) | Unreadable

  /** What a reader sees; current says that the first key opened it. */
  function Open(keys: seq<Secret>, v: Stored): Opened {
    match v
    case Clear(text) => Opened(text, false)
    case Garbled(_) => Unreadable
    case Sealed(key, _, plain) =>
      if key in keys then Opened(plain, keys[0] == key) else Unreadable
  }

  function Plain(keys: seq<Secret>, v: Stored): Option<string> {
    var o := Open(keys, v);
    if o.Opened? then Some(o.plain) else None
  }

  method OpenValue(keys: seq<Secret>, v: Stored) returns (o: Opened)
    ensures o == Open(keys, v)
  {
    if v.Clear? {
      return Opened(v.text, false);
    }
    if v.Garbled? {
      return Unreadable;
    }
    for i := 0 to |keys|
      invariant v.key !in keys[..i]
    {
      if keys[i] == v.key {
        return Opened(v.plain, i == 0);
      }
    }
    o := Unreadable;
  }

  // Under the first key, with a fresh nonce; nothing is sealed without a key, and a missing token stays missing.
  function Seal(keys: seq<Secret>, plain: string, nonce: nat): Stored {
    if keys == [] || plain == "" then Verbatim(plain) else Sealed(keys[0], nonce, plain)
  }

  /** A token written is the token read, unless no key is configured and it looks like a sealed value. */
  lemma OpenSeal(keys: seq<Secret>, plain: string, nonce: nat)
    ensures Plain(keys, Seal(keys, plain, nonce)) == Some(plain) <==> keys != [] || !(PREFIX <= plain)
    ensures keys != [] && plain != "" ==> Open(keys, Seal(keys, plain, nonce)) == Opened(plain, true)
  {
  }

  /** Builds the key list from secrets, newest first, each of 32 bytes. */
  method NewSealer(secrets: seq<Secret>) returns (keys: Option<seq<Secret>>)
    ensures keys.Some? <==> secrets != [] && forall s :: s in secrets ==> |s| == SECRET_SIZE
    ensures keys.Some? ==> keys.value == secrets
  {
    if secrets == [] {
      return None;
    }
    var built := [];
    for i := 0 to |secrets|
      invariant built == secrets[..i] && forall s :: s in built ==> |s| == SECRET_SIZE
    {
      if |secrets[i]| != SECRET_SIZE {
        return None;
      }
      built := built + [secrets[i]];
    }
    keys := Some(built);
  }

  /******* Resealing one value *******/

  // Reseal has nothing to do here: absent, unreadable, or sealed under the first key.
  predicate Settled(keys: seq<Secret>, v: Stored) {
    v == EMPTY || Open(keys, v).Unreadable? || Open(keys, v).current
  }

  predicate SettledRow(keys: seq<Secret>, row: Row) {
    Settled(keys, row.access) && Settled(keys, row.refresh)
  }

  /** So what is neither absent nor unreadable is sealed under the first key, and nothing else is. */
  lemma SettledExactly(keys: seq<Secret>, v: Stored)
    requires keys != []
    ensures Settled(keys, v) <==>
      v == EMPTY || v.Garbled? || (v.Sealed? && (v.key == keys[0] || v.key !in keys))
    ensures Plain(keys, v).Some? <==> v.Clear? || (v.Sealed? && v.key in keys)
  {
  }

  // Seals again what is readable and not current. The random source may fail, and then the value stays;
  // starved says so here, where the code reports nothing.
  method ResealValue(keys: seq<Secret>, v: Stored) returns (w: Stored, changed: bool, starved: bool)
    requires keys != []
    ensures Plain(keys, w) == Plain(keys, v)
    ensures changed ==> !Settled(keys, v) && Settled(keys, w)
    ensures !changed ==> w == v
    ensures !starved ==> Settled(keys, w)
  {
    starved := false;
    var o := OpenValue(keys, v);
    if o.Unreadable? || o.current || v == EMPTY {
      return v, false, false;
    }
    var failed, nonce: nat := *, *;
    if failed {
      return v, false, true;
    }
    w, changed := Seal(keys, o.plain, nonce), true;
  }

  // What a row reads as; None where a token is not readable.
  datatype Pair = Pair(access: Option<string>, refresh: Option<string>)

  function View(keys: seq<Secret>, row: Row): Pair {
    Pair(Plain(keys, row.access), Plain(keys, row.refresh))
  }

  /** Whatever is readable in one view is the same in the other. */
  predicate Covers(v: Pair, m: Pair) {
    (m.access.Some? ==> v.access == m.access) && (m.refresh.Some? ==> v.refresh == m.refresh)
  }

  // One row before and after: it reads the same, and what had nothing to do is the same value.
  predicate Resealed(keys: seq<Secret>, before: Row, after: Row) {
    && View(keys, after) == View(keys, before)
    && (Settled(keys, before.access) ==> after.access == before.access)
    && (Settled(keys, before.refresh) ==> after.refresh == before.refresh)
  }

  /******* Changing keys *******/

  /** Keeping only the first keys changes no reading exactly when no readable token needs a later one. */
  lemma DropIsSafeExactly(keys: seq<Secret>, n: nat, t: Table)
    requires n <= |keys|
    ensures (forall k :: k in t ==> View(keys[..n], t[k]) == View(keys, t[k])) <==>
      (forall k :: k in t ==> !Needs(keys, n, t[k].access) && !Needs(keys, n, t[k].refresh))
  {
    forall k | k in t
      ensures View(keys[..n], t[k]) == View(keys, t[k]) <==>
        !Needs(keys, n, t[k].access) && !Needs(keys, n, t[k].refresh)
    {
      DropOne(keys, n, t[k].access);
      DropOne(keys, n, t[k].refresh);
    }
  }

  predicate Needs(keys: seq<Secret>, n: nat, v: Stored)
    requires n <= |keys|
  {
    v.Sealed? && v.key in keys && v.key !in keys[..n]
  }

  lemma DropOne(keys: seq<Secret>, n: nat, v: Stored)
    requires n <= |keys|
    ensures Plain(keys[..n], v) == Plain(keys, v) <==> !Needs(keys, n, v)
  {
  }

  lemma AddOne(keys: seq<Secret>, key: Secret, v: Stored)
    ensures Plain(keys, v).Some? ==> Plain([key] + keys, v) == Plain(keys, v)
  {
  }
}

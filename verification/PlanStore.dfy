/**
 The plan store of porte/forfait: entitlements decoded once, when a snapshot or a saved document is accepted,
 against keeping that snapshot or document raw and decoding on every read.
 */
module PlanStore {
  import opened Wrappers
  import opened PlanValues

  const EXPORT_VERSION := 1

  datatype Scope = Scope(spaceID: string, subject: string)

  datatype Entry = Entry(id: string, entitlements: Raws)

  datatype Snapshot = Snapshot(version: int64, revision: int64, spaces: seq<Entry>, people: seq<Entry>)

  datatype Document = Document(format: int, version: int64, revision: int64,
                               spaces: map<string, Raws>, people: map<string, Raws>)

  // What the app's storage holds: nothing, bytes that are no document, or a document.
  datatype Input = Blank | Unreadable | Readable(document: Document)

  datatype ImportError = BadDocument | BadFormat | NegativeVersion | AlreadyApplied

  datatype Usage = Allowed | Invalid | Refused(key: string, limit: int64)

  /******* The simple form: keep the last accepted source, decode on read *******/

  datatype Source = FromSnapshot(snapshot: Snapshot) | FromDocument(document: Document) {
    function Version(): int64 {
      if FromSnapshot? then snapshot.version else document.version
    }

    function Revision(): int64 {
      if FromSnapshot? then snapshot.revision else document.revision
    }
  }

  // The last entry of an id is the one that counts.
  function Last(list: seq<Entry>, id: string): Raws {
    if list == [] then map[]
    else if list[|list| - 1].id == id then list[|list| - 1].entitlements
    else Last(list[..|list| - 1], id)
  }

  function Get<V>(m: map<string, map<string, V>>, id: string): map<string, V> {
    if id in m then m[id] else map[]
  }

  // The person's own values have no id; an entry of a snapshot that lacks one is nobody's.
  function ScopeOf(source: Source, sc: Scope): Raws {
    if source.FromDocument? then
      if sc.spaceID != "" then Get(source.document.spaces, sc.spaceID) else Get(source.document.people, sc.subject)
    else if sc.spaceID != "" then Last(source.snapshot.spaces, sc.spaceID)
    else if sc.subject != "" then Last(source.snapshot.people, sc.subject)
    else map[]
  }

  predicate IsKeyPart(s: string) {
    s != "" && forall c :: c in s ==> 'a' <= c <= 'z' || '0' <= c <= '9' || c == '_'
  }

  predicate IsKey(s: string) {
    exists k :: 0 <= k < |s| && s[k] == '.' && IsKeyPart(s[..k]) && IsKeyPart(s[k + 1..])
  }

  // A dot is where a string is split, or in one of the two parts.
  lemma DotSomewhere(s: string, k: int, dot: int)
    requires 0 <= k < |s| && 0 <= dot < |s| && s[dot] == '.'
    ensures dot == k || '.' in s[..k] || '.' in s[k + 1..]
  {
    if dot < k {
      assert s[..k][dot] == '.';
    } else if dot > k {
      assert s[k + 1..][dot - k - 1] == '.';
    }
  }

  /** A key is two parts around a dot, in lower case letters, digits and underscores. */
  lemma KeyShape(group: string, name: string)
    ensures IsKey(group + "." + name) <==>
      && group != "" && name != ""
      && (forall c :: c in group ==> 'a' <= c <= 'z' || '0' <= c <= '9' || c == '_')
      && (forall c :: c in name ==> 'a' <= c <= 'z' || '0' <= c <= '9' || c == '_')
  {
    var s, dot := group + "." + name, |group|;
    assert s[..dot] == group && s[dot + 1..] == name && s[dot] == '.';
    assert IsKeyPart(group) && IsKeyPart(name) ==> IsKey(s);
    if IsKey(s) {
      var k :| 0 <= k < |s| && s[k] == '.' && IsKeyPart(s[..k]) && IsKeyPart(s[k + 1..]);
      DotSomewhere(s, k, dot);
    }
  }

  // The first declaration of a well-formed key wins.
  function Find(declared: seq<Feature>, key: string): Option<Feature> {
    if declared == [] || !IsKey(key) then None
    else
      var earlier := Find(declared[..|declared| - 1], key);
      if earlier.None? && declared[|declared| - 1].key == key then Some(declared[|declared| - 1]) else earlier
  }

  function OrDenied(v: Option<Value>): Value {
    if v.Some? then v.value else DENIED
  }

  /** What a read answers: everything until a source was accepted, then the scope's value, then the default. */
  function Answer(declared: seq<Feature>, accepted: Option<Source>, sc: Scope, key: string, kind: Kind): Value {
    var feature := Find(declared, key);
    if feature.None? || feature.value.kind != kind then DENIED
    else if accepted.None? then OPEN
    else
      var raws := ScopeOf(accepted.value, sc);
      var own := if |raws| <= MAX_KEYS && key in raws then Decode(kind, raws[key]) else None;
      if own.Some? then own.value else OrDenied(Decode(kind, feature.value.fallback))
  }

  predicate Accepts(held: Option<Source>, version: int64, revision: int64) {
    && revision > 0
    && (held.None? || revision > held.value.Revision()
        || (revision == held.value.Revision() && (version == 0 || version >= held.value.Version())))
  }

  // Why a document cannot be read into a store, whatever the store.
  function Unfit(document: Document): Option<ImportError> {
    if document.format != EXPORT_VERSION then Some(BadFormat)
    else if document.version < 0 || document.revision < 0 then Some(NegativeVersion)
    else None
  }

  function Imported(held: Option<Source>, input: Input): (Option<Source>, Option<ImportError>) {
    if input.Blank? then (held, None)
    else if input.Unreadable? then (held, Some(BadDocument))
    else if Unfit(input.document).Some? then (held, Unfit(input.document))
    else if held.Some? then (held, Some(AlreadyApplied))
    else if input.document.revision == 0 then (held, None)
    else (Some(FromDocument(input.document)), None)
  }

  datatype Op = DoApply(snapshot: Snapshot) | DoImport(input: Input) | DoReset

  function Step(held: Option<Source>, op: Op): Option<Source> {
    match op
    case DoApply(snap) => if Accepts(held, snap.version, snap.revision) then Some(FromSnapshot(snap)) else held
    case DoImport(input) => Imported(held, input).0
    case DoReset => None
  }

  function Steps(held: Option<Source>, ops: seq<Op>): Option<Source>
    decreases |ops|
  {
    if ops == [] then held else Steps(Step(held, ops[0]), ops[1..])
  }

  /******* The cache *******/

  ghost predicate Declares(declared: seq<Feature>, features: map<string, Feature>, defaults: map<string, Value>) {
    && (forall k :: k in features <==> Find(declared, k).Some?)
    && (forall k :: k in features ==> features[k] == Find(declared, k).value)
    && defaults.Keys == features.Keys
    && (forall k :: k in features ==> defaults[k] == OrDenied(Decode(features[k].kind, features[k].fallback)))
  }

  ghost predicate AllClean(features: map<string, Feature>, scopes: map<string, map<string, Value>>) {
    forall id :: id in scopes ==> Clean(features, scopes[id])
  }

  method Declare(declared: seq<Feature>) returns (features: map<string, Feature>, defaults: map<string, Value>)
    ensures Declares(declared, features, defaults)
  {
    hide Decode, IsKey, Find;
    FindNothing();
    features, defaults := map[], map[];
    for k := 0 to |declared|
      invariant Declares(declared[..k], features, defaults)
    {
      var feature := declared[k];
      assert declared[..k + 1] == declared[..k] + [feature];
      FindOneMore(declared[..k], feature);
      if feature.key !in features && IsKey(feature.key) {
        features := features[feature.key := feature];
        var fallback := Decode(feature.kind, feature.fallback);
        defaults := defaults[feature.key := if fallback.Some? then fallback.value else DENIED];
      }
    }
    assert declared[..|declared|] == declared;
  }

  lemma FindNothing()
    ensures forall key :: Find([], key) == None
  {
  }

  lemma FindOneMore(declared: seq<Feature>, feature: Feature)
    ensures forall key :: key != feature.key || !IsKey(key) || Find(declared, key).Some? ==>
      Find(declared + [feature], key) == Find(declared, key)
    ensures IsKey(feature.key) && Find(declared, feature.key).None? ==>
      Find(declared + [feature], feature.key) == Some(feature)
  {
    hide IsKey;
    assert (declared + [feature])[..|declared|] == declared;
    forall key | !IsKey(key)
      ensures Find(declared, key) == None
    {
    }
  }

  ghost predicate FirstAt(declared: seq<Feature>, key: string, k: int) {
    0 <= k < |declared| && declared[k].key == key && forall j :: 0 <= j < k ==> declared[j].key != key
  }

  /** Find is the first declaration of the key, if the key is well formed. */
  lemma {:induction false} FindMeans(declared: seq<Feature>, key: string)
    ensures !IsKey(key) ==> Find(declared, key) == None
    ensures IsKey(key) && Find(declared, key).None? ==> forall k :: 0 <= k < |declared| ==> declared[k].key != key
    ensures Find(declared, key).Some? ==>
      exists k :: FirstAt(declared, key, k) && Find(declared, key) == Some(declared[k])
  {
    hide IsKey;
    if declared != [] && IsKey(key) {
      var last := |declared| - 1;
      var rest := declared[..last];
      FindMeans(rest, key);
      if Find(rest, key).Some? {
        var k :| FirstAt(rest, key, k) && Find(rest, key) == Some(rest[k]);
        assert FirstAt(declared, key, k);
      } else if declared[last].key == key {
        assert FirstAt(declared, key, last);
      }
    }
  }

  lemma IndexedAt(features: map<string, Feature>, raws: Raws, key: string)
    requires key in features
    ensures var own := if |raws| <= MAX_KEYS && key in raws then Decode(features[key].kind, raws[key]) else None;
      var values := Indexed(features, raws);
      (key in values <==> own.Some?) && (key in values ==> values[key] == own.value)
  {
    hide Decode;
  }

  method IndexEntries(features: map<string, Feature>, list: seq<Entry>)
    returns (scopes: map<string, map<string, Value>>)
    ensures "" !in scopes && AllClean(features, scopes)
    ensures forall id :: id != "" ==> Get(scopes, id) == Indexed(features, Last(list, id))
  {
    hide Indexed, Clean;
    scopes := map[];
    IndexedNothing(features);
    for k := 0 to |list|
      invariant "" !in scopes && AllClean(features, scopes)
      invariant forall id :: id != "" ==> Get(scopes, id) == Indexed(features, Last(list[..k], id))
    {
      assert list[..k + 1][..k] == list[..k];
      if list[k].id != "" {
        var values := Index(features, list[k].entitlements);
        IndexedIsClean(features, list[k].entitlements);
        scopes := scopes[list[k].id := values];
      }
    }
    assert list[..|list|] == list;
  }

  lemma IndexedNothing(features: map<string, Feature>)
    ensures Indexed(features, map[]) == map[]
  {
  }

  method IndexScopes(features: map<string, Feature>, scopes: map<string, Raws>)
    returns (resolved: map<string, map<string, Value>>)
    ensures resolved.Keys == scopes.Keys && AllClean(features, resolved)
    ensures forall id :: id in scopes ==> resolved[id] == Indexed(features, scopes[id])
  {
    hide Indexed, Clean;
    resolved := map[];
    var rest := scopes.Keys;
    while rest != {}
      invariant rest <= scopes.Keys && resolved.Keys == scopes.Keys - rest && AllClean(features, resolved)
      invariant forall id :: id in resolved ==> resolved[id] == Indexed(features, scopes[id])
      decreases |rest|
    {
      var id :| id in rest;
      rest := rest - {id};
      var values := Index(features, scopes[id]);
      IndexedIsClean(features, scopes[id]);
      resolved := resolved[id := values];
    }
  }

  method EncodeScope(features: map<string, Feature>, values: map<string, Value>) returns (raws: Raws)
    ensures raws == Encoded(features, values)
  {
    hide Encode;
    raws := map[];
    var rest := values.Keys;
    while rest != {}
      invariant rest <= values.Keys
      invariant forall k :: k in raws <==> k in values && k !in rest
      invariant forall k :: k in raws ==> raws[k] == Encoded(features, values)[k]
      decreases |rest|
    {
      var key :| key in rest;
      rest := rest - {key};
      raws := raws[key := Encode(KindOf(features, key), values[key])];
    }
  }

  method EncodeScopes(features: map<string, Feature>, scopes: map<string, map<string, Value>>)
    returns (encoded: map<string, Raws>)
    ensures encoded.Keys == scopes.Keys
    ensures forall id :: id in scopes ==> encoded[id] == Encoded(features, scopes[id])
  {
    hide Encoded;
    encoded := map[];
    var rest := scopes.Keys;
    while rest != {}
      invariant rest <= scopes.Keys && encoded.Keys == scopes.Keys - rest
      invariant forall id :: id in encoded ==> encoded[id] == Encoded(features, scopes[id])
      decreases |rest|
    {
      var id :| id in rest;
      rest := rest - {id};
      var raws := EncodeScope(features, scopes[id]);
      encoded := encoded[id := raws];
    }
  }

  class Store {
    const features: map<string, Feature>
    const defaults: map<string, Value>
    ghost const declared: seq<Feature>

    var version: int64
    var revision: int64
    var spaces: map<string, map<string, Value>>
    var people: map<string, map<string, Value>>

    // The raw source the simple form would hold.
    ghost var accepted: Option<Source>

    ghost function Held(sc: Scope): map<string, Value>
      reads this
    {
      if sc.spaceID != "" then Get(spaces, sc.spaceID) else Get(people, sc.subject)
    }

    // The cache is the accepted source, indexed.
    ghost predicate Valid()
      reads this
    {
      && Declares(declared, features, defaults)
      && AllClean(features, spaces) && AllClean(features, people)
      && revision >= 0 && (revision == 0 <==> accepted.None?)
      && (accepted.None? ==> version == 0)
      && (accepted.Some? ==>
            && version == accepted.value.Version() && revision == accepted.value.Revision()
            && forall sc :: Held(sc) == Indexed(features, ScopeOf(accepted.value, sc)))
    }

    constructor (declaring: seq<Feature>)
      ensures Valid() && declared == declaring && accepted == None
    {
      var fs, ds := Declare(declaring);
      features, defaults, declared := fs, ds, declaring;
      version, revision, spaces, people, accepted := 0, 0, map[], map[], None;
    }

    predicate AcceptsNow(newVersion: int64, newRevision: int64)
      reads this
    {
      if newRevision <= 0 || newRevision < revision then false
      else if newRevision > revision then true
      else newVersion == 0 || newVersion >= version
    }

    /** Takes the snapshot whole; one that the revision and version held rule out changes nothing. */
    method Apply(snap: Snapshot)
      requires Valid()
      modifies this
      ensures Valid() && accepted == Step(old(accepted), DoApply(snap))
    {
      hide Indexed, Clean, Declares;
      var newSpaces := IndexEntries(features, snap.spaces);
      var newPeople := IndexEntries(features, snap.people);
      IndexedNothing(features);
      if AcceptsNow(snap.version, snap.revision) {
        spaces, people, version, revision := newSpaces, newPeople, snap.version, snap.revision;
        accepted := Some(FromSnapshot(snap));
      }
    }

    /** Restores a saved document into a store that accepted nothing yet; on an error nothing changes. */
    method Import(input: Input) returns (err: Option<ImportError>)
      requires Valid()
      modifies this
      ensures Valid() && (accepted, err) == Imported(old(accepted), input)
      ensures err.Some? ==> unchanged(this)
    {
      hide Indexed, Clean, Declares;
      if input.Blank? {
        return None;
      }
      if input.Unreadable? {
        return Some(BadDocument);
      }
      var document := input.document;
      if document.format != EXPORT_VERSION {
        return Some(BadFormat);
      }
      if document.version < 0 || document.revision < 0 {
        return Some(NegativeVersion);
      }
      var newSpaces := IndexScopes(features, document.spaces);
      var newPeople := IndexScopes(features, document.people);
      IndexedNothing(features);
      if revision > 0 {
        return Some(AlreadyApplied);
      }
      if document.revision == 0 {
        return None;
      }
      spaces, people, version, revision := newSpaces, newPeople, document.version, document.revision;
      accepted := Some(FromDocument(document));
      err := None;
    }

    method Export() returns (document: Document)
      requires Valid()
      ensures document.format == EXPORT_VERSION && document.version == version && document.revision == revision
      ensures document.spaces.Keys == (if revision > 0 then spaces.Keys else {})
      ensures document.people.Keys == (if revision > 0 then people.Keys else {})
      ensures forall id :: id in document.spaces ==> document.spaces[id] == Encoded(features, spaces[id])
      ensures forall id :: id in document.people ==> document.people[id] == Encoded(features, people[id])
    {
      document := Document(EXPORT_VERSION, version, revision, map[], map[]);
      if revision > 0 {
        var ss := EncodeScopes(features, spaces);
        var ps := EncodeScopes(features, people);
        document := document.(spaces := ss, people := ps);
      }
    }

    /** Back to a store that was never given anything. */
    method Reset()
      requires Valid()
      modifies this
      ensures Valid() && accepted == Step(old(accepted), DoReset)
    {
      spaces, people, version, revision := map[], map[], 0, 0;
      accepted := None;
    }

    /** A read of the cache is a read of the raw source. */
    method Read(sc: Scope, key: string, kind: Kind) returns (v: Value)
      requires Valid()
      ensures v == Answer(declared, accepted, sc, key, kind)
    {
      hide Decode, Find, Indexed, ScopeOf, Clean;
      if key !in features || features[key].kind != kind {
        return DENIED;
      }
      if revision == 0 {
        return OPEN;
      }
      var scope := if sc.spaceID in spaces then spaces[sc.spaceID] else map[];
      if sc.spaceID == "" {
        scope := if sc.subject in people then people[sc.subject] else map[];
      }
      assert scope == Held(sc);
      IndexedAt(features, ScopeOf(accepted.value, sc), key);
      if key in scope {
        return scope[key];
      }
      v := defaults[key];
    }

    method Enabled(sc: Scope, key: string) returns (enabled: bool)
      requires Valid()
      ensures enabled == Answer(declared, accepted, sc, key, Kind.Bool).enabled
    {
      var v := Read(sc, key, Kind.Bool);
      enabled := v.enabled;
    }

    method Limit(sc: Scope, key: string) returns (limit: int64)
      requires Valid()
      ensures limit == Answer(declared, accepted, sc, key, Kind.Limit).limit
    {
      var v := Read(sc, key, Kind.Limit);
      limit := v.limit;
    }

    /** The 64-bit comparison never wraps, and decides as unbounded integers would. */
    method Check(sc: Scope, key: string, used: int64, adding: int64) returns (u: Usage)
      requires Valid()
      ensures var limit := Answer(declared, accepted, sc, key, Kind.Limit).limit;
        && (u.Invalid? <==> used < 0 || adding < 0)
        && (adding == 0 || limit == -1 ==> !u.Refused?)
        && (used >= 0 && adding > 0 && limit != -1 ==> (u.Allowed? <==> used as int + adding as int <= limit as int))
        && (u.Refused? ==> u == Refused(key, limit))
    {
      if used < 0 || adding < 0 {
        return Invalid;
      }
      var limit := Limit(sc, key);
      LimitsAtLeast(declared, accepted, sc, key);
      if adding == 0 || limit == -1 || used <= limit - adding {
        return Allowed;
      }
      u := Refused(key, limit);
    }

    /** Over any run of Apply, Import and Reset the cache follows the simple form. */
    method Run(ops: seq<Op>)
      requires Valid()
      modifies this
      ensures Valid() && accepted == Steps(old(accepted), ops)
    {
      ghost var start := accepted;
      for k := 0 to |ops|
        invariant Valid() && Steps(start, ops) == Steps(accepted, ops[k..])
      {
        assert ops[k..][1..] == ops[k + 1..];
        match ops[k]
        case DoApply(snap) => Apply(snap);
        case DoImport(input) => var _ := Import(input);
        case DoReset => Reset();
      }
    }
  }

  /** Every limit is at least -1, so that limit - adding cannot underflow. */
  lemma LimitsAtLeast(declared: seq<Feature>, accepted: Option<Source>, sc: Scope, key: string)
    ensures Answer(declared, accepted, sc, key, Kind.Limit).limit >= -1
  {
    hide Decode;
  }

  /******* What every run keeps *******/

  predicate IsDeclared(declared: seq<Feature>, key: string, kind: Kind) {
    !kind.Other? && Find(declared, key).Some? && Find(declared, key).value.kind == kind
  }

  /** A declared feature reads as open exactly while no source is held, an undeclared one never does. */
  lemma FailsOpenExactly(declared: seq<Feature>, accepted: Option<Source>, sc: Scope, key: string, kind: Kind)
    requires !kind.Other?
    ensures Answer(declared, accepted, sc, key, kind) == OPEN <==> accepted.None? && IsDeclared(declared, key, kind)
    ensures !IsDeclared(declared, key, kind) ==> Answer(declared, accepted, sc, key, kind) == DENIED
  {
    hide Decode, Find, ScopeOf;
  }

  // A scope's entitlements in a snapshot: those of its last entry, if it has one.
  ghost predicate EntryOf(snap: Snapshot, sc: Scope, entitlements: Raws) {
    if sc.spaceID != "" then LastEntry(snap.spaces, sc.spaceID, entitlements)
    else if sc.subject != "" then LastEntry(snap.people, sc.subject, entitlements)
    else entitlements == map[]
  }

  ghost predicate LastEntry(list: seq<Entry>, id: string, entitlements: Raws) {
    || (exists k :: LastAt(list, id, k) && list[k].entitlements == entitlements)
    || (entitlements == map[] && forall j :: 0 <= j < |list| ==> list[j].id != id)
  }

  ghost predicate LastAt(list: seq<Entry>, id: string, k: int) {
    0 <= k < |list| && list[k].id == id && forall j :: k < j < |list| ==> list[j].id != id
  }

  lemma {:induction false} LastIsLastEntry(list: seq<Entry>, id: string, entitlements: Raws)
    requires LastEntry(list, id, entitlements)
    ensures Last(list, id) == entitlements
  {
    if list != [] && list[|list| - 1].id != id {
      var rest := list[..|list| - 1];
      if k :| LastAt(list, id, k) && list[k].entitlements == entitlements {
        assert LastAt(rest, id, k);
      }
      LastIsLastEntry(rest, id, entitlements);
    }
  }

  /**
   What is read after a snapshot: the scope's own value if it has one that decodes and no more than 200 keys, else the
   declared default, else nothing is allowed.
   */
  lemma ReadAfterApply(declared: seq<Feature>, snap: Snapshot, sc: Scope, own: Raws, key: string, kind: Kind)
    requires IsDeclared(declared, key, kind) && EntryOf(snap, sc, own)
    ensures var read := Answer(declared, Some(FromSnapshot(snap)), sc, key, kind);
      var fallback := Find(declared, key).value.fallback;
      if |own| <= 200 && key in own && Decode(kind, own[key]).Some? then Some(read) == Decode(kind, own[key])
      else if Decode(kind, fallback).Some? then Some(read) == Decode(kind, fallback)
      else read == Value(false, 0)
  {
    hide Decode, Find;
    if sc.spaceID != "" {
      LastIsLastEntry(snap.spaces, sc.spaceID, own);
    } else if sc.subject != "" {
      LastIsLastEntry(snap.people, sc.subject, own);
    }
  }

  function RevisionOf(held: Option<Source>): int {
    if held.None? then 0 else held.value.Revision() as int
  }

  predicate Reachable(held: Option<Source>) {
    held.Some? ==> held.value.Revision() > 0
  }

  /** Between resets the held revision never goes back, and what was accepted is never forgotten. */
  lemma {:induction false} RevisionNeverBack(held: Option<Source>, ops: seq<Op>)
    requires Reachable(held) && DoReset !in ops
    ensures Reachable(Steps(held, ops)) && RevisionOf(Steps(held, ops)) >= RevisionOf(held)
    ensures held.Some? ==> Steps(held, ops).Some?
    decreases |ops|
  {
    if ops != [] {
      assert ops[0] in ops;
      RevisionNeverBack(Step(held, ops[0]), ops[1..]);
    }
  }

  /**
   A snapshot is held exactly when its revision is newer than the one held, or it is the same revision with a version
   that is not older, or no version; otherwise nothing changes.
   */
  lemma AppliedExactly(held: Option<Source>, snap: Snapshot)
    requires Reachable(held)
    ensures var next := Step(held, DoApply(snap));
      && (next == Some(FromSnapshot(snap)) || next == held)
      && (next == Some(FromSnapshot(snap)) <==>
            || snap.revision as int > RevisionOf(held)
            || (held.Some? && snap.revision == held.value.Revision()
                && (snap.version == 0 || snap.version >= held.value.Version())))
  {
  }

  /** What an import answers, and that a document is held exactly by a store that held nothing. */
  lemma ImportedExactly(held: Option<Source>, input: Input)
    ensures var (next, err) := Imported(held, input);
      && (err == Some(BadDocument) <==> input.Unreadable?)
      && (err == Some(BadFormat) <==> input.Readable? && input.document.format != 1)
      && (err == Some(NegativeVersion) <==>
            && input.Readable? && input.document.format == 1
            && (input.document.version < 0 || input.document.revision < 0))
      && (err == Some(AlreadyApplied) <==>
            && input.Readable? && input.document.format == 1 && input.document.version >= 0
            && input.document.revision >= 0 && held.Some?)
      && (if held.None? && err.None? && input.Readable? && input.document.revision > 0
          then next == Some(FromDocument(input.document)) else next == held)
  {
  }

  predicate AtLeast(held: Option<Source>, version: int64, revision: int64) {
    held.Some? && (held.value.Revision() > revision ||
      (held.value.Revision() == revision && held.value.Version() >= version))
  }

  // A snapshot without a version, at the revision held with one.
  predicate ClearsGuard(held: Option<Source>, op: Op) {
    && op.DoApply? && held.Some?
    && op.snapshot.revision == held.value.Revision() && op.snapshot.version == 0 < held.value.Version()
  }

  // Every source held is at least what was held before it.
  predicate NeverBack(held: Option<Source>, ops: seq<Op>)
    decreases |ops|
  {
    ops == [] ||
    (var next := Step(held, ops[0]);
     (held.Some? ==> AtLeast(next, held.value.Version(), held.value.Revision())) && NeverBack(next, ops[1..]))
  }

  predicate NoneClears(held: Option<Source>, ops: seq<Op>)
    decreases |ops|
  {
    ops == [] || (!ClearsGuard(held, ops[0]) && NoneClears(Step(held, ops[0]), ops[1..]))
  }

  /** An operation takes the held state back exactly when it is a snapshot that clears the guard. */
  lemma BackExactlyWhen(held: Option<Source>, op: Op)
    requires held.Some? && Reachable(held) && !op.DoReset?
    ensures !AtLeast(Step(held, op), held.value.Version(), held.value.Revision()) <==> ClearsGuard(held, op)
  {
  }

  /** So between resets the held state never goes back if and only if no such snapshot comes. */
  lemma {:induction false} VersionNeverBack(held: Option<Source>, ops: seq<Op>)
    requires Reachable(held) && DoReset !in ops
    ensures NeverBack(held, ops) <==> NoneClears(held, ops)
    decreases |ops|
  {
    if ops != [] {
      assert ops[0] in ops;
      if held.Some? {
        BackExactlyWhen(held, ops[0]);
      }
      VersionNeverBack(Step(held, ops[0]), ops[1..]);
    }
  }

  /** And then at the end it is at least whatever it was at the start. */
  lemma {:induction false} NeverBackAtAll(held: Option<Source>, ops: seq<Op>, version: int64, revision: int64)
    requires AtLeast(held, version, revision) && NeverBack(held, ops)
    ensures AtLeast(Steps(held, ops), version, revision)
    decreases |ops|
  {
    if ops != [] {
      NeverBackAtAll(Step(held, ops[0]), ops[1..], version, revision);
    }
  }

  /** After one, an older snapshot of the same revision is applied. */
  lemma ZeroVersionClearsTheGuard(older: Snapshot, newer: Snapshot)
    requires 0 < older.version < newer.version && older.revision == newer.revision > 0
    ensures Steps(None, [DoApply(newer), DoApply(older)]) == Some(FromSnapshot(newer))
    ensures Steps(None, [DoApply(newer), DoApply(newer.(version := 0)), DoApply(older)]) == Some(FromSnapshot(older))
  {
    var blank := newer.(version := 0);
    StepsOne(None, DoApply(newer), [DoApply(older)]);
    StepsOne(Some(FromSnapshot(newer)), DoApply(older), []);
    StepsOne(None, DoApply(newer), [DoApply(blank), DoApply(older)]);
    StepsOne(Some(FromSnapshot(newer)), DoApply(blank), [DoApply(older)]);
    StepsOne(Some(FromSnapshot(blank)), DoApply(older), []);
    assert [DoApply(newer), DoApply(older)] == [DoApply(newer)] + [DoApply(older)];
    assert [DoApply(older)] == [DoApply(older)] + [];
    assert [DoApply(blank), DoApply(older)] == [DoApply(blank)] + [DoApply(older)];
    assert [DoApply(newer), DoApply(blank), DoApply(older)] == [DoApply(newer)] + [DoApply(blank), DoApply(older)];
  }

  lemma StepsOne(held: Option<Source>, op: Op, rest: seq<Op>)
    ensures Steps(held, [op] + rest) == Steps(Step(held, op), rest)
  {
    assert ([op] + rest)[1..] == rest;
  }

  /******* Export and Import *******/

  // Two sources no read and no later operation tells apart.
  ghost predicate Agree(declared: seq<Feature>, a: Option<Source>, b: Option<Source>) {
    && (a.Some? <==> b.Some?)
    && (a.Some? ==>
          && a.value.Version() == b.value.Version() && a.value.Revision() == b.value.Revision()
          && forall sc, key, kind :: Answer(declared, a, sc, key, kind) == Answer(declared, b, sc, key, kind))
  }

  /** They stay so whatever both then apply. */
  lemma {:induction false} AgreeEverAfter(declared: seq<Feature>, a: Option<Source>, b: Option<Source>, ops: seq<Op>)
    requires Agree(declared, a, b)
    ensures Agree(declared, Steps(a, ops), Steps(b, ops))
    decreases |ops|
  {
    if ops != [] {
      hide Answer;
      AgreeEverAfter(declared, Step(a, ops[0]), Step(b, ops[0]), ops[1..]);
    }
  }

  lemma SameCacheAgrees(s: Store, t: Store)
    requires s.Valid() && t.Valid() && s.declared == t.declared
    requires s.revision == t.revision && s.version == t.version
    requires forall sc :: s.Held(sc) == t.Held(sc)
    ensures Agree(s.declared, s.accepted, t.accepted)
  {
    hide Decode, Find, Indexed, ScopeOf, Clean;
    DeclaredAlike(s, t);
    if s.accepted.Some? {
      forall sc, key, kind
        ensures Answer(s.declared, s.accepted, sc, key, kind) == Answer(s.declared, t.accepted, sc, key, kind)
      {
        if key in s.features {
          assert s.Held(sc) == t.Held(sc);
          IndexedAt(s.features, ScopeOf(s.accepted.value, sc), key);
          IndexedAt(s.features, ScopeOf(t.accepted.value, sc), key);
        }
      }
    }
  }

  lemma RestoredIsSame(s: Store, t: Store, document: Document)
    requires s.Valid() && t.Valid() && s.declared == t.declared && s.revision > 0
    requires t.accepted == Some(FromDocument(document))
    requires document.spaces.Keys == s.spaces.Keys && document.people.Keys == s.people.Keys
    requires forall id :: id in document.spaces ==> document.spaces[id] == Encoded(s.features, s.spaces[id])
    requires forall id :: id in document.people ==> document.people[id] == Encoded(s.features, s.people[id])
    ensures forall sc :: s.Held(sc) == t.Held(sc)
  {
    DeclaredAlike(s, t);
    hide Decode, Find, Indexed, Encoded, Clean, Declares;
    IndexedNothing(s.features);
    forall sc
      ensures s.Held(sc) == t.Held(sc)
    {
      assert t.Held(sc) == Indexed(t.features, ScopeOf(FromDocument(document), sc));
      if sc.spaceID in s.spaces {
        IndexedEncoded(s.features, s.spaces[sc.spaceID]);
      }
      if sc.subject in s.people {
        IndexedEncoded(s.features, s.people[sc.subject]);
      }
    }
  }

  lemma DeclaredAlike(s: Store, t: Store)
    requires s.Valid() && t.Valid() && s.declared == t.declared
    ensures s.features == t.features
  {
    hide Decode, Find, Indexed, ScopeOf, Clean;
    assert forall k :: k in s.features <==> k in t.features;
  }

  /**
   A store restored from another's export: the import succeeds exactly when the held version is not negative, and
   then the two agree on every scope and key, now and after any operations applied to both.
   */
  method Restore(s: Store, declared: seq<Feature>, ops: seq<Op>) returns (t: Store, err: Option<ImportError>)
    requires s.Valid() && s.declared == declared
    modifies s
    ensures fresh(t) && s.Valid() && t.Valid() && t.declared == declared
    ensures err.None? <==> old(s.version) >= 0
    ensures err.Some? ==> err.value == NegativeVersion && t.accepted == None
    ensures err.None? ==> Agree(declared, s.accepted, t.accepted)
    ensures s.accepted == Steps(old(s.accepted), ops)
  {
    hide Indexed, Encoded, Clean, Answer, Declares, ScopeOf;
    var document := s.Export();
    t := new Store(declared);
    err := t.Import(Readable(document));
    if err.None? {
      if s.revision > 0 {
        RestoredIsSame(s, t, document);
        SameCacheAgrees(s, t);
      }
      AgreeEverAfter(declared, s.accepted, t.accepted, ops);
      t.Run(ops);
    }
    s.Run(ops);
  }
}

/** The entitlement values of porte/forfait: one raw JSON value, and the values of one scope. */
module PlanValues {
  import opened Wrappers
  import opened Decimal

  newtype int64 = x: int | -0x8000_0000_0000_0000 <= x < 0x8000_0000_0000_0000

  const MAX_KEYS := 200

  datatype Kind = Bool | Limit | Other

  // The fallback is the feature's Default, as raw JSON.
  datatype Feature = Feature(key: string, kind: Kind, fallback: string)

  datatype Value = Value(enabled: bool, limit: int64)

  const DENIED := Value(false, 0)
  const OPEN := Value(true, -1)

  // One scope's entitlements, each still raw JSON.
  type Raws = map<string, string>

  /******* One raw value *******/

  predicate IsSpace(c: char) {
    || '\t' <= c <= '\r' || c == ' ' || c == '\U{0085}' || c == '\U{00A0}' || c == '\U{1680}'
    || '\U{2000}' <= c <= '\U{200A}' || c in {'\U{2028}', '\U{2029}', '\U{202F}', '\U{205F}', '\U{3000}'}
  }

  function Trim(s: string): (r: string)
    ensures |r| <= |s| && (r != "" ==> !IsSpace(r[0]) && !IsSpace(r[|r| - 1]))
    ensures forall c :: c in s && !IsSpace(c) ==> c in r
    ensures s != "" && !IsSpace(s[0]) && !IsSpace(s[|s| - 1]) ==> r == s
  {
    if s != "" && IsSpace(s[0]) then Trim(s[1..])
    else if s != "" && IsSpace(s[|s| - 1]) then Trim(s[..|s| - 1])
    else s
  }

  predicate StartsAsInteger(s: string) {
    s != "" && (s[0] == '-' || IsDigit(s[0]))
  }

  predicate InRange(n: int) {
    -0x8000_0000_0000_0000 <= n < 0x8000_0000_0000_0000
  }

  // What a raw value means for a feature of a kind; None where it means nothing.
  function Decode(kind: Kind, raw: string): (v: Option<Value>)
    ensures v.Some? ==> Fits(kind, v.value)
  {
    var trimmed := Trim(raw);
    if kind.Bool? && (trimmed == "true" || trimmed == "false") then Some(Value(trimmed == "true", 0))
    else if kind.Limit? && StartsAsInteger(trimmed) then
      if !IsInteger(trimmed) || !InRange(Parse(trimmed)) || Parse(trimmed) < -1 then None
      else Some(Value(false, Parse(trimmed) as int64))
    else None
  }

  function Encode(kind: Kind, v: Value): string {
    if kind.Bool? then if v.enabled then "true" else "false"
    else Print(v.limit as int)
  }

  // What a decoded value of a kind can be.
  predicate Fits(kind: Kind, v: Value) {
    (kind.Bool? && v.limit == 0) || (kind.Limit? && !v.enabled && v.limit >= -1)
  }

  lemma IntegerIsTrimmed(s: string)
    requires IsInteger(s)
    ensures Trim(s) == s && StartsAsInteger(s)
  {
    assert IsDigit(s[|s| - 1]) by {
      if !IsNatural(s) {
        assert s[1..][|s| - 2] == s[|s| - 1];
      }
    }
  }

  /** A value is read back exactly from the JSON it is exported as. */
  lemma DecodeEncode(kind: Kind, v: Value)
    requires Fits(kind, v)
    ensures Decode(kind, Encode(kind, v)) == Some(v)
  {
    if kind.Limit? {
      PrintParses(v.limit as int);
      IntegerIsTrimmed(Print(v.limit as int));
    } else {
      assert Trim("true") == "true" && Trim("false") == "false";
    }
  }

  /** And from nothing else but the same with space around it, and minus zero. */
  lemma DecodesExactly(kind: Kind, raw: string, v: Value)
    requires Fits(kind, v)
    ensures Decode(kind, raw) == Some(v) <==>
      Trim(raw) == Encode(kind, v) || (kind.Limit? && v.limit == 0 && Trim(raw) == "-0")
    ensures kind.Bool? ==> Encode(kind, v) == if v.enabled then "true" else "false"
  {
    hide Trim, IsInteger, Parse, Print;
    if kind.Limit? {
      var trimmed := Trim(raw);
      SpelledOnlyAs(trimmed, v.limit as int);
      if IsInteger(trimmed) {
        IntegerIsTrimmed(trimmed);
      }
    }
  }

  /******* One scope *******/

  // What a scope's raw values come to: those that decode, by declared feature; none of more than 200.
  function Indexed(features: map<string, Feature>, raws: Raws): map<string, Value> {
    if |raws| > MAX_KEYS then map[]
    else
      map k | k in raws && k in features && Decode(features[k].kind, raws[k]).Some?
        :: Decode(features[k].kind, raws[k]).value
  }

  method Index(features: map<string, Feature>, raws: Raws) returns (resolved: map<string, Value>)
    ensures resolved == Indexed(features, raws)
  {
    hide Decode;
    resolved := map[];
    if |raws| > MAX_KEYS {
      return;
    }
    var rest := raws.Keys;
    while rest != {}
      invariant rest <= raws.Keys
      invariant forall k :: k in resolved <==> k in Indexed(features, raws) && k !in rest
      invariant forall k :: k in resolved ==> resolved[k] == Indexed(features, raws)[k]
      decreases |rest|
    {
      var key :| key in rest;
      rest := rest - {key};
      if key in features {
        var v := Decode(features[key].kind, raws[key]);
        if v.Some? {
          resolved := resolved[key := v.value];
        }
      }
    }
  }

  function KindOf(features: map<string, Feature>, key: string): Kind {
    if key in features then features[key].kind else Other
  }

  function Encoded(features: map<string, Feature>, values: map<string, Value>): Raws {
    map k | k in values :: Encode(KindOf(features, k), values[k])
  }

  // What indexing can produce: declared keys, values of their kinds, and at most 200 of them.
  ghost predicate Clean(features: map<string, Feature>, values: map<string, Value>) {
    |values| <= MAX_KEYS && forall k :: k in values ==> Fits(KindOf(features, k), values[k])
  }

  lemma Fewer<K, V, W>(a: map<K, V>, b: map<K, W>)
    requires a.Keys <= b.Keys
    ensures |a| <= |b|
  {
    Subset(a.Keys, b.Keys);
  }

  lemma {:induction false} Subset<K>(a: set<K>, b: set<K>)
    requires a <= b
    ensures |a| <= |b|
  {
    if a != {} {
      var x :| x in a;
      Subset(a - {x}, b - {x});
    }
  }

  lemma IndexedIsClean(features: map<string, Feature>, raws: Raws)
    ensures Clean(features, Indexed(features, raws))
  {
    if |raws| <= MAX_KEYS {
      Fewer(Indexed(features, raws), raws);
    }
  }

  /** Decoding what encoding wrote gives the scope back, and an exported scope is never over 200 keys. */
  lemma IndexedEncoded(features: map<string, Feature>, values: map<string, Value>)
    requires Clean(features, values)
    ensures |Encoded(features, values)| <= MAX_KEYS
    ensures Indexed(features, Encoded(features, values)) == values
  {
    var raws := Encoded(features, values);
    assert raws.Keys == values.Keys;
    Fewer(raws, values);
    forall k | k in values
      ensures k in features && Decode(features[k].kind, raws[k]) == Some(values[k])
    {
      DecodeEncode(KindOf(features, k), values[k]);
    }
  }
}

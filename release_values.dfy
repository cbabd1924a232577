/** The release values as the resource stores them: the user-supplied YAML,
    re-serialised, and the full set of values flattened into a string map with
    dotted keys. */
module ReleaseValues {
  import opened Results
  import opened Strings
  import opened Json

  // ---------------------------------------------------------------------------
  // User values

  datatype SanitizeError = YamlRejected

  /** `sanitizeYAMLString`: blank input gives "" without consulting the YAML
      library; anything else is parsed and serialised again by `roundTrip`
      (None when either step fails). */
  function SanitizeYamlString(yaml: string, roundTrip: string -> Option<string>): (r: Result<string, SanitizeError>)
    ensures AllSpace(yaml) ==> r == Ok("")
    ensures !AllSpace(yaml) ==> (r.Ok? <==> roundTrip(yaml).Some?)
    ensures !AllSpace(yaml) && r.Ok? ==> r.value == roundTrip(yaml).value
  {
    TrimSpaceEmptyIff(yaml);
    if TrimSpace(yaml) == "" then Ok("")
    else match roundTrip(yaml)
      case None => Err(YamlRejected)
      case Some(out) => Ok(out)
  }

  // ---------------------------------------------------------------------------
  // Flattening

  /** The leaves under `value`, each with its dotted key, in the order the walk
      visits them; `parentKey` is the key of `value` itself. */
  function Leaves(parentKey: string, value: Json): (r: seq<(string, Json)>)
    ensures forall i :: 0 <= i < |r| ==> !r[i].1.JObject?
    ensures forall i :: 0 <= i < |r| ==> HasPrefix(r[i].0, parentKey)
    decreases value, 1
  {
    if value.JObject? then MemberLeaves(parentKey, value, 0) else [(parentKey, value)]
  }

  /** The leaves under members `i..` of an object. */
  function MemberLeaves(parentKey: string, value: Json, i: nat): (r: seq<(string, Json)>)
    requires value.JObject? && i <= |value.members|
    ensures forall j :: 0 <= j < |r| ==> !r[j].1.JObject?
    ensures forall j :: 0 <= j < |r| ==> HasPrefix(r[j].0, parentKey)
    decreases value, 0, |value.members| - i
  {
    if i == |value.members| then []
    else
      var (key, child) := value.members[i];
      var childKey := parentKey + "." + key;
      var here := Leaves(childKey, child);
      assert forall j :: 0 <= j < |here| ==> HasPrefix(here[j].0, parentKey) by {
        forall j | 0 <= j < |here| ensures HasPrefix(here[j].0, parentKey) {
          assert here[j].0[..|childKey|] == childKey;
          assert childKey[..|parentKey|] == parentKey;
        }
      }
      here + MemberLeaves(parentKey, value, i + 1)
  }

  /** The leaves of the top-level map: its keys carry no prefix. */
  function RootLeaves(raw: seq<(string, Json)>): (r: seq<(string, Json)>)
    ensures forall i :: 0 <= i < |r| ==> !r[i].1.JObject?
  {
    if raw == [] then [] else Leaves(raw[0].0, raw[0].1) + RootLeaves(raw[1..])
  }

  /** Stores the leaves one after the other; a later leaf with the same key
      overwrites an earlier one. */
  function Store(converted: map<string, string>, leaves: seq<(string, Json)>, stringify: Json -> string): (r: map<string, string>)
    ensures r.Keys == converted.Keys + set i | 0 <= i < |leaves| :: leaves[i].0
    decreases |leaves|
  {
    if leaves == [] then converted
    else Store(converted[leaves[0].0 := stringify(leaves[0].1)], leaves[1..], stringify)
  }

  /** The result of `jsonMapToStringMap` for a map walked in the order `raw`. */
  function Flatten(raw: seq<(string, Json)>, stringify: Json -> string): map<string, string> {
    Store(map[], RootLeaves(raw), stringify)
  }

  lemma {:induction false} StoreAppend(m: map<string, string>, a: seq<(string, Json)>, b: seq<(string, Json)>,
                                       stringify: Json -> string)
    ensures Store(m, a + b, stringify) == Store(Store(m, a, stringify), b, stringify)
    decreases |a|
  {
    if a == [] {
      assert a + b == b;
    } else {
      var m' := m[a[0].0 := stringify(a[0].1)];
      assert (a + b)[0] == a[0] && (a + b)[1..] == a[1..] + b;
      assert Store(m, a + b, stringify) == Store(m', a[1..] + b, stringify);
      assert Store(m, a, stringify) == Store(m', a[1..], stringify);
      StoreAppend(m', a[1..], b, stringify);
    }
  }

  /** The value stored under `k` is that of the last leaf with key `k`, or the
      earlier value when no leaf has that key. */
  lemma {:induction false} StoreLookup(m: map<string, string>, leaves: seq<(string, Json)>, stringify: Json -> string, k: string)
    ensures var r := Store(m, leaves, stringify);
      && ((forall i :: 0 <= i < |leaves| ==> leaves[i].0 != k) ==> (k in r <==> k in m) && (k in m ==> r[k] == m[k]))
      && (forall i :: 0 <= i < |leaves| && leaves[i].0 == k && (forall j :: i < j < |leaves| ==> leaves[j].0 != k)
            ==> k in r && r[k] == stringify(leaves[i].1))
    decreases |leaves|
  {
    if leaves != [] {
      var m' := m[leaves[0].0 := stringify(leaves[0].1)];
      StoreLookup(m', leaves[1..], stringify, k);
      assert forall i :: 1 <= i < |leaves| ==> leaves[i] == leaves[1..][i - 1];
    }
  }

  /** Every stored value is the formatted form of a leaf with that key, a leaf
      that is never an object. */
  lemma FlattenValues(raw: seq<(string, Json)>, stringify: Json -> string, k: string)
    requires k in Flatten(raw, stringify)
    ensures exists i :: (0 <= i < |RootLeaves(raw)| && RootLeaves(raw)[i].0 == k
      && !RootLeaves(raw)[i].1.JObject? && Flatten(raw, stringify)[k] == stringify(RootLeaves(raw)[i].1))
  {
    var leaves := RootLeaves(raw);
    var i :| 0 <= i < |leaves| && leaves[i].0 == k;
    var last := LastWithKey(leaves, k, i);
    StoreLookup(map[], leaves, stringify, k);
  }

  /** The last leaf with key `k`, at or after `i`. */
  lemma LastWithKey(leaves: seq<(string, Json)>, k: string, i: nat) returns (last: nat)
    requires i < |leaves| && leaves[i].0 == k
    ensures i <= last < |leaves| && leaves[last].0 == k
    ensures forall j :: last < j < |leaves| ==> leaves[j].0 != k
    decreases |leaves| - i
  {
    if exists j :: i < j < |leaves| && leaves[j].0 == k {
      var j :| i < j < |leaves| && leaves[j].0 == k;
      last := LastWithKey(leaves, k, j);
    } else {
      last := i;
    }
  }

  /** No two leaves share a dotted key. */
  predicate DistinctKeys(leaves: seq<(string, Json)>) {
    forall i, j :: 0 <= i < j < |leaves| ==> leaves[i].0 != leaves[j].0
  }

  /** When the dotted keys do not collide, every leaf yields exactly one entry
      holding its formatted value, whatever order the maps are walked in. */
  lemma FlattenExact(raw: seq<(string, Json)>, stringify: Json -> string)
    requires DistinctKeys(RootLeaves(raw))
    ensures var leaves := RootLeaves(raw);
      forall i :: 0 <= i < |leaves| ==>
        (leaves[i].0 in Flatten(raw, stringify) && Flatten(raw, stringify)[leaves[i].0] == stringify(leaves[i].1))
  {
    var leaves := RootLeaves(raw);
    forall i | 0 <= i < |leaves|
      ensures leaves[i].0 in Flatten(raw, stringify) && Flatten(raw, stringify)[leaves[i].0] == stringify(leaves[i].1)
    {
      StoreLookup(map[], leaves, stringify, leaves[i].0);
    }
  }

  /** A nested object contributes its leaves under `<key>.<member key>`. */
  lemma NestedKeys(key: string, child: string, grandchild: Json)
    requires !grandchild.JObject?
    ensures Leaves(key, JObject([(child, grandchild)])) == [(key + "." + child, grandchild)]
  {
    var v := JObject([(child, grandchild)]);
    assert MemberLeaves(key, v, 1) == [];
    assert MemberLeaves(key, v, 0) == Leaves(key + "." + child, grandchild) + MemberLeaves(key, v, 1);
  }

  /** The example of the resource's test: `{"foo":{"bar":42,"baz":"hello"},"qux":true}`. */
  lemma FlattenExample(stringify: Json -> string)
    requires stringify(JNumber(42.0)) == "42" && stringify(JString("hello")) == "hello" && stringify(JBool(true)) == "true"
    ensures Flatten([("foo", JObject([("bar", JNumber(42.0)), ("baz", JString("hello"))])), ("qux", JBool(true))], stringify)
      == map["foo.bar" := "42", "foo.baz" := "hello", "qux" := "true"]
  {
    var foo := JObject([("bar", JNumber(42.0)), ("baz", JString("hello"))]);
    var raw := [("foo", foo), ("qux", JBool(true))];
    assert "foo" + "." + "bar" == "foo.bar" && "foo" + "." + "baz" == "foo.baz";
    assert MemberLeaves("foo", foo, 2) == [];
    assert MemberLeaves("foo", foo, 1) == Leaves("foo.baz", JString("hello")) + MemberLeaves("foo", foo, 2);
    assert MemberLeaves("foo", foo, 0) == Leaves("foo.bar", JNumber(42.0)) + MemberLeaves("foo", foo, 1);
    assert Leaves("foo", foo) == [("foo.bar", JNumber(42.0)), ("foo.baz", JString("hello"))];
    assert raw[1..] == [("qux", JBool(true))];
    assert RootLeaves(raw[1..][1..]) == [];
    assert RootLeaves(raw) == [("foo.bar", JNumber(42.0)), ("foo.baz", JString("hello")), ("qux", JBool(true))];
  }

  /** The recursive `traverse` closure: a map is walked member by member,
      anything else is stored under `parentKey`. */
  method Traverse(parentKey: string, value: Json, converted: map<string, string>, stringify: Json -> string)
    returns (out: map<string, string>)
    ensures out == Store(converted, Leaves(parentKey, value), stringify)
    decreases value
  {
    if value.JObject? {
      out := converted;
      var i := 0;
      while i < |value.members|
        invariant 0 <= i <= |value.members|
        invariant Store(out, MemberLeaves(parentKey, value, i), stringify)
          == Store(converted, MemberLeaves(parentKey, value, 0), stringify)
      {
        var (key, child) := value.members[i];
        StoreAppend(out, Leaves(parentKey + "." + key, child), MemberLeaves(parentKey, value, i + 1), stringify);
        out := Traverse(parentKey + "." + key, child, out, stringify);
        i := i + 1;
      }
    } else {
      out := converted[parentKey := stringify(value)];
    }
  }

  /** `jsonMapToStringMap` over the top-level map walked in the order `raw`;
      it never fails. */
  method JsonMapToStringMap(raw: seq<(string, Json)>, stringify: Json -> string)
    returns (r: Result<map<string, string>, string>)
    ensures r == Ok(Flatten(raw, stringify))
  {
    var converted := map[];
    var i := 0;
    while i < |raw|
      invariant 0 <= i <= |raw|
      invariant Store(converted, RootLeaves(raw[i..]), stringify) == Flatten(raw, stringify)
    {
      var (key, value) := raw[i];
      assert raw[i..][1..] == raw[i + 1..];
      StoreAppend(converted, Leaves(key, value), RootLeaves(raw[i + 1..]), stringify);
      converted := Traverse(key, value, converted, stringify);
      i := i + 1;
    }
    return Ok(converted);
  }

  // ---------------------------------------------------------------------------
  // Decoding the values of the release

  datatype ValuesError = NotAnObject

  /** `json.Unmarshal` into a `map[string]interface{}`: an object gives its
      members, `null` an empty map, anything else an error. */
  function DecodeValues(decoded: Decoded): (r: Result<seq<(string, Json)>, ValuesError>)
    ensures r.Ok? <==> decoded.Parsed? && (decoded.value.JObject? || decoded.value.JNull?)
    ensures r.Ok? && decoded.value.JObject? ==> r.value == decoded.value.members
    ensures r.Ok? && decoded.value.JNull? ==> r.value == []
  {
    match decoded
    case Parsed(JObject(members)) => Ok(members)
    case Parsed(JNull) => Ok([])
    case _ => Err(NotAnObject)
  }
}

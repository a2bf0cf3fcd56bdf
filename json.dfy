/** Decoded JSON/YAML values as the analysers receive them from `json.loads`
    or `yaml.safe_load`, and the few Python operations the analysers apply to
    them. An object keeps its members in document order, as a Python dict
    keeps insertion order. */
module Json {
  import opened Common
  import opened Text

  datatype Json =
    | JNull
    | JBool(b: bool)
    | JNum(n: int)
    | JStr(s: string)
    | JArray(items: seq<Json>)
    | JObject(members: seq<(string, Json)>)

  /** Whether `key` names a member: Python's `key in d` on a dict. */
  predicate HasKey(members: seq<(string, Json)>, key: string)
  {
    exists i :: 0 <= i < |members| && members[i].0 == key
  }

  /** Python's `d[key]` / `d.get(key)`: the value of the member called
      `key`; with one member per key, as in a dict, it is that member. */
  function Lookup(members: seq<(string, Json)>, key: string): (r: Option<Json>)
    ensures r.None? <==> !HasKey(members, key)
    ensures r.Some? ==> (key, r.value) in members
  {
    if members == [] then None
    else if members[0].0 == key then Some(members[0].1)
    else Lookup(members[1..], key)
  }

  /** Python's `d.get(key, default)`. */
  function GetOr(members: seq<(string, Json)>, key: string, default: Json): (r: Json)
    ensures !HasKey(members, key) ==> r == default
    ensures HasKey(members, key) ==> (key, r) in members
  {
    match Lookup(members, key)
    case Some(v) => v
    case None => default
  }

  /** Python's `d.keys()`: every member name once, in order of first
      appearance. */
  function Keys(members: seq<(string, Json)>): (ks: seq<string>)
    ensures NoDuplicates(ks)
    ensures forall k :: k in ks <==> HasKey(members, k)
    ensures |ks| <= |members|
  {
    if members == [] then []
    else
      var init := members[..|members| - 1];
      var rest := Keys(init);
      var last := members[|members| - 1].0;
      assert forall k :: HasKey(members, k) <==> HasKey(init, k) || k == last by {
        forall k ensures HasKey(members, k) <==> HasKey(init, k) || k == last {
          HasKeyLast(members, k);
        }
      }
      if last in rest then rest else rest + [last]
  }

  /** A name is a key of a non-empty member list exactly when it is a key of
      all but the last member, or the last member's name. */
  lemma HasKeyLast(members: seq<(string, Json)>, k: string)
    requires members != []
    ensures HasKey(members, k) <==> HasKey(members[..|members| - 1], k) || k == members[|members| - 1].0
  {
    var init := members[..|members| - 1];
    if HasKey(members, k) {
      var i :| 0 <= i < |members| && members[i].0 == k;
      if i < |members| - 1 { assert init[i].0 == k; }
    }
    if HasKey(init, k) {
      var i :| 0 <= i < |init| && init[i].0 == k;
      assert members[i].0 == k;
    }
  }

  /** Python's truth value of a decoded value (`if parsed:`). */
  predicate Truthy(j: Json)
  {
    match j
    case JNull => false
    case JBool(b) => b
    case JNum(n) => n != 0
    case JStr(s) => s != []
    case JArray(items) => items != []
    case JObject(members) => members != []
  }

  /** Python's `name in container` for a string `name`: element equality on a
      list, key membership on a dict, substring on a string; `None` where
      Python raises `TypeError` (null, booleans and numbers). */
  function PyIn(name: string, container: Json): Option<bool>
  {
    match container
    case JArray(items) => Some(JStr(name) in items)
    case JObject(members) => Some(HasKey(members, name))
    case JStr(t) => Some(Contains(t, name))
    case _ => None
  }

  /** Python's `node.get(key, {})` on a decoded value: `None` where Python
      raises because `node` is not a dict (it has no `get`). */
  function GetObject(node: Json, key: string): (r: Option<Json>)
    ensures r.Some? <==> node.JObject?
    ensures node.JObject? && !HasKey(node.members, key) ==> r == Some(JObject([]))
  {
    match node
    case JObject(members) => Some(GetOr(members, key, JObject([])))
    case _ => None
  }

  /** A chain of `.get(key, {})` calls, one per key: `None` as soon as a
      receiver is not a dict. */
  function Descend(node: Json, keys: seq<string>): Option<Json>
    decreases |keys|
  {
    if keys == [] then Some(node)
    else match GetObject(node, keys[0])
      case Some(child) => Descend(child, keys[1..])
      case None => None
  }

  /** Below an empty dict every `.get(key, {})` yields an empty dict again. */
  lemma {:induction false} DescendEmpty(keys: seq<string>)
    ensures Descend(JObject([]), keys) == Some(JObject([]))
    decreases |keys|
  {
    if keys != [] {
      DescendEmpty(keys[1..]);
    }
  }

  /** Descending along `keys` is descending along a prefix, then the rest. */
  lemma {:induction false} DescendSplit(node: Json, keys: seq<string>, i: nat)
    requires i <= |keys|
    ensures Descend(node, keys)
      == match Descend(node, keys[..i]) case Some(mid) => Descend(mid, keys[i..]) case None => None
    decreases i
  {
    if i > 0 {
      assert keys[1..][..i - 1] == keys[..i][1..];
      assert keys[1..][i - 1..] == keys[i..];
      match GetObject(node, keys[0])
      case Some(child) => DescendSplit(child, keys[1..], i - 1);
      case None =>
    }
  }
}

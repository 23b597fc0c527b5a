/** JSON values with ordered object fields, and lookup along a path. */
module Json {
  import opened Common

  datatype Json =
    | JNull
    | JBool(b: bool)
    | JNumber(n: int)
    | JString(s: string)
    | JArray(items: seq<Json>)
    | JObject(fields: seq<(string, Json)>)

  datatype PathToken = Key(key: string) | Index(index: nat)

  function Get(fields: seq<(string, Json)>, key: string): (r: Option<Json>)
    ensures r.Some? ==> (key, r.value) in fields
    ensures r.None? <==> forall i :: 0 <= i < |fields| ==> fields[i].0 != key
  {
    if fields == [] then None
    else if fields[0].0 == key then Some(fields[0].1)
    else Get(fields[1..], key)
  }

  function Child(v: Json, token: PathToken): Option<Json> {
    match token
    case Key(key) => if v.JObject? then Get(v.fields, key) else None
    case Index(i) => if v.JArray? && i < |v.items| then Some(v.items[i]) else None
  }

  function Lookup(v: Json, tokens: seq<PathToken>): Option<Json> {
    if tokens == [] then Some(v)
    else
      var child := Child(v, tokens[0]);
      if child.None? then None else Lookup(child.value, tokens[1..])
  }

  method GetJsonValue(value: Json, tokens: seq<PathToken>) returns (r: Option<Json>)
    ensures r == Lookup(value, tokens)
  {
    var current := value;
    for i := 0 to |tokens|
      invariant Lookup(value, tokens) == Lookup(current, tokens[i..])
    {
      var child := Child(current, tokens[i]);
      if child.None? {
        return None;
      }
      current := child.value;
      assert tokens[i..][1..] == tokens[i + 1..];
    }
    r := Some(current);
  }

  /** An index selects the item at that position; past the end, or in anything but an array, there is nothing. */
  lemma IndexSelects(v: Json, i: nat)
    ensures v.JArray? && i < |v.items| ==> Lookup(v, [Index(i)]) == Some(v.items[i])
    ensures !v.JArray? || i >= |v.items| ==> Lookup(v, [Index(i)]) == None
  {
  }

  /** A key selects the field of that name, the first of several; without one, or outside objects, there is nothing. */
  lemma {:induction false} KeySelects(fields: seq<(string, Json)>, i: nat, key: string)
    ensures i < |fields| && fields[i].0 == key && (forall j :: 0 <= j < i ==> fields[j].0 != key) ==>
              Lookup(JObject(fields), [Key(key)]) == Some(fields[i].1)
    ensures (forall j :: 0 <= j < |fields| ==> fields[j].0 != key) ==> Lookup(JObject(fields), [Key(key)]) == None
    ensures forall v: Json :: !v.JObject? ==> Lookup(v, [Key(key)]) == None
  {
    if i < |fields| && fields[i].0 == key && forall j :: 0 <= j < i ==> fields[j].0 != key {
      if i > 0 {
        assert fields[0].0 != key;
        KeySelects(fields[1..], i - 1, key);
      }
    }
  }

  /** Looking up two paths in turn is looking up their concatenation. */
  lemma {:induction false} LookupComposes(v: Json, a: seq<PathToken>, b: seq<PathToken>)
    ensures Lookup(v, a + b) == if Lookup(v, a).None? then None else Lookup(Lookup(v, a).value, b)
  {
    if a == [] {
      assert a + b == b;
    } else {
      assert (a + b)[0] == a[0] && (a + b)[1..] == a[1..] + b;
      var child := Child(v, a[0]);
      if child.Some? {
        LookupComposes(child.value, a[1..], b);
      }
    }
  }
}

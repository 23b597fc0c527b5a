/** Sorting the keys of a JSON value at every depth, and why the result is a canonical form. */
module JsonKeys {
  import opened Common
  import opened Json

  type Field = (string, Json)

  // ---------------------------------------------------------------------- the order on keys

  predicate Less(a: string, b: string) {
    b != "" && (a == "" || a[0] < b[0] || (a[0] == b[0] && Less(a[1..], b[1..])))
  }

  lemma {:induction false} LessTrichotomy(a: string, b: string)
    ensures Less(a, b) || a == b || Less(b, a)
    ensures !(Less(a, b) && Less(b, a)) && !(a == b && Less(a, b))
  {
    if a != "" && b != "" && a[0] == b[0] {
      LessTrichotomy(a[1..], b[1..]);
      assert a == [a[0]] + a[1..] && b == [b[0]] + b[1..];
    }
  }

  /** The order on keys is that of their first difference; a proper prefix comes first. */
  lemma {:induction false} LessIs(a: string, b: string, n: nat)
    requires n <= |a| && n <= |b| && a[..n] == b[..n]
    ensures n < |a| && n < |b| && a[n] < b[n] ==> Less(a, b)
    ensures n == |a| && n < |b| ==> Less(a, b)
  {
    if n > 0 {
      assert a[0] == a[..n][0] == b[..n][0] == b[0];
      assert a[1..][..n - 1] == a[..n][1..] && b[1..][..n - 1] == b[..n][1..];
      LessIs(a[1..], b[1..], n - 1);
    }
  }

  lemma {:induction false} LessTransitive(a: string, b: string, c: string)
    requires Less(a, b) && Less(b, c)
    ensures Less(a, c)
  {
    if a != "" && a[0] == b[0] == c[0] {
      LessTransitive(a[1..], b[1..], c[1..]);
    }
  }

  // -------------------------------------------------------------------------------- sorting

  function InsertField(f: Field, fs: seq<Field>): (r: seq<Field>)
    ensures multiset(r) == multiset(fs) + multiset{f}
  {
    if fs == [] then [f]
    else if Less(fs[0].0, f.0) then
      assert fs == [fs[0]] + fs[1..];
      [fs[0]] + InsertField(f, fs[1..])
    else [f] + fs
  }

  /** A stable sort by key. */
  function SortFields(fs: seq<Field>): (r: seq<Field>)
    ensures multiset(r) == multiset(fs)
  {
    if fs == [] then []
    else
      assert fs == [fs[0]] + fs[1..];
      InsertField(fs[0], SortFields(fs[1..]))
  }

  predicate UniqueKeys(fs: seq<Field>) {
    forall i, j :: 0 <= i < j < |fs| ==> fs[i].0 != fs[j].0
  }

  predicate Ascending(fs: seq<Field>) {
    forall i, j :: 0 <= i < j < |fs| ==> Less(fs[i].0, fs[j].0)
  }

  lemma SameElements(a: seq<Field>, b: seq<Field>)
    requires multiset(a) == multiset(b)
    ensures forall x :: x in a <==> x in b
  {
    assert forall x :: x in a <==> x in multiset(a);
    assert forall x :: x in b <==> x in multiset(b);
  }

  lemma {:induction false} InsertAscends(f: Field, fs: seq<Field>)
    requires Ascending(fs) && forall i :: 0 <= i < |fs| ==> fs[i].0 != f.0
    ensures Ascending(InsertField(f, fs))
  {
    if fs != [] {
      LessTrichotomy(fs[0].0, f.0);
      if Less(fs[0].0, f.0) {
        var rest := InsertField(f, fs[1..]);
        InsertAscends(f, fs[1..]);
        forall j | 0 <= j < |rest|
          ensures Less(fs[0].0, rest[j].0)
        {
          assert rest[j] in multiset(rest);
          assert rest[j] == f || rest[j] in fs[1..];
        }
      } else {
        forall j | 0 <= j < |fs|
          ensures Less(f.0, fs[j].0)
        {
          if j > 0 {
            LessTransitive(f.0, fs[0].0, fs[j].0);
          }
        }
      }
    }
  }

  lemma {:induction false} SortAscends(fs: seq<Field>)
    requires UniqueKeys(fs)
    ensures Ascending(SortFields(fs))
  {
    if fs != [] {
      var rest := SortFields(fs[1..]);
      SortAscends(fs[1..]);
      SameElements(rest, fs[1..]);
      forall i | 0 <= i < |rest|
        ensures rest[i].0 != fs[0].0
      {
        assert rest[i] in fs[1..];
        var j :| 0 <= j < |fs[1..]| && fs[1..][j] == rest[i];
        assert fs[j + 1] == rest[i];
      }
      InsertAscends(fs[0], rest);
    }
  }

  lemma AscendingIsUnique(fs: seq<Field>)
    requires Ascending(fs)
    ensures UniqueKeys(fs)
  {
    forall i, j | 0 <= i < j < |fs|
      ensures fs[i].0 != fs[j].0
    {
      LessTrichotomy(fs[i].0, fs[j].0);
    }
  }

  lemma HasElement(fs: seq<Field>)
    ensures fs == [] || exists x :: x in fs
  {
    if fs != [] {
      assert fs[0] in fs;
    }
  }

  /** Ascending sequences with the same elements are the same sequence. */
  lemma {:induction false} AscendingDetermined(a: seq<Field>, b: seq<Field>)
    requires Ascending(a) && Ascending(b) && forall x :: x in a <==> x in b
    ensures a == b
  {
    if a == [] {
      HasElement(b);
    } else {
      assert a[0] in b;
      var i :| 0 <= i < |b| && b[i] == a[0];
      assert b[0] in a;
      var j :| 0 <= j < |a| && a[j] == b[0];
      LessTrichotomy(a[0].0, b[0].0);
      assert i == 0;
      AscendingIsUnique(a);
      AscendingIsUnique(b);
      forall x
        ensures x in a[1..] <==> x in b[1..]
      {
        TailElements(a, x);
        TailElements(b, x);
      }
      AscendingDetermined(a[1..], b[1..]);
      assert a == [a[0]] + a[1..] && b == [b[0]] + b[1..];
    }
  }

  lemma TailElements(fs: seq<Field>, x: Field)
    requires fs != [] && UniqueKeys(fs)
    ensures x in fs[1..] <==> x in fs && x != fs[0]
  {
    if x in fs[1..] {
      var i :| 0 <= i < |fs[1..]| && fs[1..][i] == x;
      assert fs[i + 1] == x;
    }
    if x in fs && x != fs[0] {
      var i :| 0 <= i < |fs| && fs[i] == x;
      assert fs[1..][i - 1] == x;
    }
  }

  // ---------------------------------------------------------------------- the canonical form

  /** Every object has unique keys, as a map type guarantees. */
  predicate WellFormed(v: Json) {
    match v
    case JArray(items) => forall i :: 0 <= i < |items| ==> WellFormed(items[i])
    case JObject(fields) => UniqueKeys(fields) && forall i :: 0 <= i < |fields| ==> WellFormed(fields[i].1)
    case _ => true
  }

  function Canonical(v: Json): Json {
    match v
    case JArray(items) => JArray(seq(|items|, i requires 0 <= i < |items| => Canonical(items[i])))
    case JObject(fields) =>
      JObject(SortFields(seq(|fields|, i requires 0 <= i < |fields| => (fields[i].0, Canonical(fields[i].1)))))
    case _ => v
  }

  /** The fields with canonical values, in their own order. */
  function Cleaned(fields: seq<Field>): (r: seq<Field>)
    ensures |r| == |fields|
    ensures forall i :: 0 <= i < |fields| ==> r[i] == (fields[i].0, Canonical(fields[i].1))
  {
    seq(|fields|, i requires 0 <= i < |fields| => (fields[i].0, Canonical(fields[i].1)))
  }

  lemma CanonicalObject(v: Json)
    requires v.JObject?
    ensures Canonical(v) == JObject(SortFields(Cleaned(v.fields)))
  {
    assert Cleaned(v.fields)
           == seq(|v.fields|, i requires 0 <= i < |v.fields| => (v.fields[i].0, Canonical(v.fields[i].1)));
  }

  /** Equal up to the order of object keys. */
  ghost predicate SameUpToKeyOrder(a: Json, b: Json)
    decreases a
  {
    match a
    case JArray(items) =>
      b.JArray? && |b.items| == |items| && forall i :: 0 <= i < |items| ==> SameUpToKeyOrder(items[i], b.items[i])
    case JObject(fields) =>
      && b.JObject?
      && (forall key :: Get(fields, key).None? <==> Get(b.fields, key).None?)
      && (forall i :: 0 <= i < |fields| && Get(b.fields, fields[i].0).Some? ==>
                        SameUpToKeyOrder(fields[i].1, Get(b.fields, fields[i].0).value))
    case _ => a == b
  }

  // ------------------------------------------------------------------------------- lookups

  lemma {:induction false} GetIs(fields: seq<Field>, i: nat)
    requires UniqueKeys(fields) && i < |fields|
    ensures Get(fields, fields[i].0) == Some(fields[i].1)
  {
    if i > 0 {
      GetIs(fields[1..], i - 1);
    }
  }

  /** With unique keys, lookup depends on the fields and not on their order. */
  lemma GetIgnoresOrder(a: seq<Field>, b: seq<Field>, key: string)
    requires UniqueKeys(a) && UniqueKeys(b) && forall x :: x in a <==> x in b
    ensures Get(a, key) == Get(b, key)
  {
    var r := Get(a, key);
    if r.Some? {
      assert (key, r.value) in b;
      var i :| 0 <= i < |b| && b[i] == (key, r.value);
      GetIs(b, i);
    } else {
      forall i | 0 <= i < |b|
        ensures b[i].0 != key
      {
        assert b[i] in a;
      }
    }
  }

  lemma SortedFields(fields: seq<Field>)
    requires UniqueKeys(fields)
    ensures
      var sorted := SortFields(Cleaned(fields));
      Ascending(sorted) && UniqueKeys(sorted) && forall x :: x in sorted <==> x in Cleaned(fields)
  {
    SortAscends(Cleaned(fields));
    AscendingIsUnique(SortFields(Cleaned(fields)));
    SameElements(SortFields(Cleaned(fields)), Cleaned(fields));
  }

  function Mapped(r: Option<Json>): Option<Json> {
    if r.None? then None else Some(Canonical(r.value))
  }

  lemma {:induction false} GetCleaned(fields: seq<Field>, key: string)
    ensures Get(Cleaned(fields), key) == Mapped(Get(fields, key))
  {
    if fields != [] && fields[0].0 != key {
      assert Cleaned(fields)[1..] == Cleaned(fields[1..]);
      GetCleaned(fields[1..], key);
    }
  }

  lemma ChildKept(v: Json, token: PathToken)
    requires WellFormed(v)
    ensures Child(Canonical(v), token) == Mapped(Child(v, token))
  {
    if v.JObject? && token.Key? {
      CanonicalObject(v);
      SortedFields(v.fields);
      GetIgnoresOrder(SortFields(Cleaned(v.fields)), Cleaned(v.fields), token.key);
      GetCleaned(v.fields, token.key);
    }
  }

  lemma ChildWellFormed(v: Json, token: PathToken)
    requires WellFormed(v) && Child(v, token).Some?
    ensures WellFormed(Child(v, token).value)
  {
    if token.Key? {
      assert (token.key, Child(v, token).value) in v.fields;
    }
  }

  /** Every path leads to the same place: the canonical form of what it led to before. */
  lemma {:induction false} LookupKept(v: Json, path: seq<PathToken>)
    requires WellFormed(v)
    ensures Lookup(Canonical(v), path) == Mapped(Lookup(v, path))
    decreases |path|
  {
    if path != [] {
      ChildKept(v, path[0]);
      if Child(v, path[0]).Some? {
        ChildWellFormed(v, path[0]);
        LookupKept(Child(v, path[0]).value, path[1..]);
      }
    }
  }

  // --------------------------------------------------------------------------- canonicity

  lemma {:induction false} SameGivesEqual(a: Json, b: Json)
    requires WellFormed(a) && WellFormed(b) && SameUpToKeyOrder(a, b)
    ensures Canonical(a) == Canonical(b)
    decreases a
  {
    match a
    case JArray(items) =>
      forall i | 0 <= i < |items|
        ensures Canonical(items[i]) == Canonical(b.items[i])
      {
        SameGivesEqual(items[i], b.items[i]);
      }
      assert Canonical(a).items == Canonical(b).items;
    case JObject(fields) =>
      forall i | 0 <= i < |fields|
        ensures Get(b.fields, fields[i].0).Some?
        ensures Canonical(fields[i].1) == Canonical(Get(b.fields, fields[i].0).value)
      {
        GetIs(fields, i);
        var other := Get(b.fields, fields[i].0).value;
        ChildWellFormed(b, Key(fields[i].0));
        SameGivesEqual(fields[i].1, other);
      }
      SameFields(fields, b.fields);
      CanonicalObject(a);
      CanonicalObject(b);
    case _ =>
  }

  lemma SameFields(a: seq<Field>, b: seq<Field>)
    requires UniqueKeys(a) && UniqueKeys(b) && forall key :: Get(a, key).None? <==> Get(b, key).None?
    requires forall i :: 0 <= i < |a| && Get(b, a[i].0).Some? ==> Canonical(a[i].1) == Canonical(Get(b, a[i].0).value)
    ensures SortFields(Cleaned(a)) == SortFields(Cleaned(b))
  {
    forall x | x in Cleaned(a)
      ensures x in Cleaned(b)
    {
      var i :| 0 <= i < |a| && Cleaned(a)[i] == x;
      GetIs(a, i);
      assert (a[i].0, Get(b, a[i].0).value) in b;
      var j :| 0 <= j < |b| && b[j] == (a[i].0, Get(b, a[i].0).value);
      assert Cleaned(b)[j] == x;
    }
    forall x | x in Cleaned(b)
      ensures x in Cleaned(a)
    {
      var j :| 0 <= j < |b| && Cleaned(b)[j] == x;
      GetIs(b, j);
      assert (b[j].0, Get(a, b[j].0).value) in a;
      var i :| 0 <= i < |a| && a[i] == (b[j].0, Get(a, b[j].0).value);
      assert Cleaned(a)[i] == x;
    }
    SortedFields(a);
    SortedFields(b);
    AscendingDetermined(SortFields(Cleaned(a)), SortFields(Cleaned(b)));
  }

  lemma {:induction false} EqualGivesSame(a: Json, b: Json)
    requires WellFormed(a) && WellFormed(b) && Canonical(a) == Canonical(b)
    ensures SameUpToKeyOrder(a, b)
    decreases a
  {
    match a
    case JArray(items) =>
      forall i | 0 <= i < |items|
        ensures SameUpToKeyOrder(items[i], b.items[i])
      {
        assert Canonical(a).items[i] == Canonical(b).items[i];
        EqualGivesSame(items[i], b.items[i]);
      }
    case JObject(fields) =>
      forall key
        ensures Mapped(Get(fields, key)) == Mapped(Get(b.fields, key))
        ensures Get(fields, key).None? <==> Get(b.fields, key).None?
      {
        ChildKept(a, Key(key));
        ChildKept(b, Key(key));
      }
      forall i | 0 <= i < |fields| && Get(b.fields, fields[i].0).Some?
        ensures SameUpToKeyOrder(fields[i].1, Get(b.fields, fields[i].0).value)
      {
        GetIs(fields, i);
        assert Mapped(Get(fields, fields[i].0)) == Mapped(Get(b.fields, fields[i].0));
        ChildWellFormed(b, Key(fields[i].0));
        EqualGivesSame(fields[i].1, Get(b.fields, fields[i].0).value);
      }
    case _ =>
  }

  /** Two values get the same canonical form exactly when they are equal up to key order. */
  lemma CanonicalIff(a: Json, b: Json)
    requires WellFormed(a) && WellFormed(b)
    ensures Canonical(a) == Canonical(b) <==> SameUpToKeyOrder(a, b)
  {
    if Canonical(a) == Canonical(b) {
      EqualGivesSame(a, b);
    }
    if SameUpToKeyOrder(a, b) {
      SameGivesEqual(a, b);
    }
  }

  lemma {:induction false} CanonicalWellFormed(v: Json)
    requires WellFormed(v)
    ensures WellFormed(Canonical(v))
  {
    match v
    case JArray(items) =>
      forall i | 0 <= i < |items|
        ensures WellFormed(Canonical(items[i]))
      {
        CanonicalWellFormed(items[i]);
      }
    case JObject(fields) =>
      CanonicalObject(v);
      SortedFields(fields);
      var sorted := SortFields(Cleaned(fields));
      forall i | 0 <= i < |sorted|
        ensures WellFormed(sorted[i].1)
      {
        assert sorted[i] in Cleaned(fields);
        var j :| 0 <= j < |fields| && Cleaned(fields)[j] == sorted[i];
        CanonicalWellFormed(fields[j].1);
      }
    case _ =>
  }

  /** The keys of every object, at every depth, are in ascending order. */
  predicate KeysAscend(v: Json) {
    match v
    case JArray(items) => forall i :: 0 <= i < |items| ==> KeysAscend(items[i])
    case JObject(fields) => Ascending(fields) && forall i :: 0 <= i < |fields| ==> KeysAscend(fields[i].1)
    case _ => true
  }

  lemma {:induction false} CanonicalAscends(v: Json)
    requires WellFormed(v)
    ensures KeysAscend(Canonical(v))
  {
    match v
    case JArray(items) =>
      forall i | 0 <= i < |items|
        ensures KeysAscend(Canonical(items[i]))
      {
        CanonicalAscends(items[i]);
      }
    case JObject(fields) =>
      CanonicalObject(v);
      SortedFields(fields);
      var sorted := SortFields(Cleaned(fields));
      forall i | 0 <= i < |sorted|
        ensures KeysAscend(sorted[i].1)
      {
        assert sorted[i] in Cleaned(fields);
        var j :| 0 <= j < |fields| && Cleaned(fields)[j] == sorted[i];
        CanonicalAscends(fields[j].1);
      }
    case _ =>
  }

  lemma {:induction false} CanonicalIsSame(v: Json)
    requires WellFormed(v)
    ensures SameUpToKeyOrder(v, Canonical(v))
  {
    match v
    case JArray(items) =>
      forall i | 0 <= i < |items|
        ensures SameUpToKeyOrder(items[i], Canonical(items[i]))
      {
        CanonicalIsSame(items[i]);
      }
    case JObject(fields) =>
      CanonicalObject(v);
      forall key
        ensures Get(Canonical(v).fields, key) == Mapped(Get(fields, key))
      {
        ChildKept(v, Key(key));
      }
      forall i | 0 <= i < |fields|
        ensures Get(Canonical(v).fields, fields[i].0) == Some(Canonical(fields[i].1))
        ensures SameUpToKeyOrder(fields[i].1, Canonical(fields[i].1))
      {
        GetIs(fields, i);
        CanonicalIsSame(fields[i].1);
      }
    case _ =>
  }

  /** Sorting the keys again changes nothing. */
  lemma CanonicalIdempotent(v: Json)
    requires WellFormed(v)
    ensures Canonical(Canonical(v)) == Canonical(v)
  {
    CanonicalWellFormed(v);
    CanonicalIsSame(v);
    SameGivesEqual(v, Canonical(v));
  }

  // ------------------------------------------------------------------------------ in place

  lemma CleanedElements(a: seq<Field>, b: seq<Field>, x: Field)
    requires (forall y :: y in a ==> y in b) && x in Cleaned(a)
    ensures x in Cleaned(b)
  {
    var i :| 0 <= i < |a| && Cleaned(a)[i] == x;
    assert a[i] in b;
    var j :| 0 <= j < |b| && b[j] == a[i];
    assert Cleaned(b)[j] == x;
  }

  /** Sorting first and then treating the values, as the source does, comes to the same. */
  lemma SortThenClean(fs: seq<Field>)
    requires UniqueKeys(fs)
    ensures Cleaned(SortFields(fs)) == SortFields(Cleaned(fs))
  {
    SortAscends(fs);
    SameElements(SortFields(fs), fs);
    SortedFields(fs);
    forall x
      ensures x in Cleaned(SortFields(fs)) <==> x in SortFields(Cleaned(fs))
    {
      if x in Cleaned(SortFields(fs)) {
        CleanedElements(SortFields(fs), fs, x);
      }
      if x in Cleaned(fs) {
        CleanedElements(fs, SortFields(fs), x);
      }
    }
    AscendingDetermined(Cleaned(SortFields(fs)), SortFields(Cleaned(fs)));
  }

  /** Insertion into an ordered map: replace the value of a present key, else append. */
  function Put(fields: seq<Field>, key: string, value: Json): seq<Field> {
    if fields == [] then [(key, value)]
    else if fields[0].0 == key then [(key, value)] + fields[1..]
    else [fields[0]] + Put(fields[1..], key, value)
  }

  lemma {:induction false} PutAppends(fields: seq<Field>, key: string, value: Json)
    requires forall i :: 0 <= i < |fields| ==> fields[i].0 != key
    ensures Put(fields, key, value) == fields + [(key, value)]
  {
    if fields != [] {
      PutAppends(fields[1..], key, value);
    }
  }

  lemma SortReady(fields: seq<Field>)
    requires UniqueKeys(fields)
    ensures UniqueKeys(SortFields(fields)) && forall x :: x in SortFields(fields) <==> x in fields
  {
    SameElements(SortFields(fields), fields);
    SortAscends(fields);
    AscendingIsUnique(SortFields(fields));
  }

  lemma SortDone(fields: seq<Field>, out: seq<Field>)
    requires UniqueKeys(fields) && |out| == |SortFields(fields)| && out == Cleaned(SortFields(fields))[..|out|]
    ensures JObject(out) == Canonical(JObject(fields))
  {
    SortThenClean(fields);
    CanonicalObject(JObject(fields));
    assert out == Cleaned(SortFields(fields));
  }

  method SortJsonKeys(v: Json) returns (r: Json)
    requires WellFormed(v)
    ensures r == Canonical(v)
    decreases v
  {
    match v {
      case JObject(fields) =>
        var entries := SortFields(fields);
        SortReady(fields);
        var out: seq<Field> := [];
        for i := 0 to |entries|
          invariant out == Cleaned(entries)[..i]
        {
          assert entries[i] in fields;
          var value := SortJsonKeys(entries[i].1);
          PutAppends(out, entries[i].0, value);
          out := Put(out, entries[i].0, value);
        }
        SortDone(fields, out);
        r := JObject(out);
      case JArray(items) =>
        var out: seq<Json> := [];
        for i := 0 to |items|
          invariant |out| == i && forall k :: 0 <= k < i ==> out[k] == Canonical(items[k])
        {
          var item := SortJsonKeys(items[i]);
          out := out + [item];
        }
        r := JArray(out);
      case _ => r := v;
    }
  }
}

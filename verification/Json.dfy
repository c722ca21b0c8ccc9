/** JSON values as the flow engine handles them: objects keep the order of
  their keys, and keys are unique. */
module JsonValues {
  import opened Basics
  import opened Ordering

  type Fields = seq<(string, Json)>

  /** Integers and floats are different numbers, as in the library used. */
  datatype Json =
    | Null
    | Bool(b: bool)
    | Int(i: int)
    | Float(r: real)
    | Str(s: string)
    | Arr(items: seq<Json>)
    | Obj(fields: Fields)

  function Get(fields: Fields, key: string): (r: Option<Json>)
    ensures r.Some? ==> exists i :: 0 <= i < |fields| && fields[i] == (key, r.value)
    ensures r.None? ==> forall i | 0 <= i < |fields| :: fields[i].0 != key
  {
    if fields == [] then None
    else if fields[0].0 == key then
      assert fields[0] == (key, fields[0].1);
      Some(fields[0].1)
    else
      var rest := Get(fields[1..], key);
      assert rest.Some? ==> exists i :: 0 <= i < |fields| && fields[i] == (key, rest.value) by {
        if rest.Some? {
          var i :| 0 <= i < |fields[1..]| && fields[1..][i] == (key, rest.value);
          assert fields[i + 1] == (key, rest.value);
        }
      }
      assert rest.None? ==> forall i | 0 <= i < |fields| :: fields[i].0 != key by {
        if rest.None? {
          forall i | 0 <= i < |fields| ensures fields[i].0 != key {
            if i > 0 { assert fields[1..][i - 1].0 != key; }
          }
        }
      }
      rest
  }

  /** What inserting into a key-ordered map does: a known key keeps its place,
    a new one goes to the end. */
  function Put(fields: Fields, key: string, value: Json): Fields {
    if fields == [] then [(key, value)]
    else if fields[0].0 == key then [(key, value)] + fields[1..]
    else [fields[0]] + Put(fields[1..], key, value)
  }

  function Remove(fields: Fields, key: string): Fields {
    if fields == [] then []
    else if fields[0].0 == key then fields[1..]
    else [fields[0]] + Remove(fields[1..], key)
  }

  lemma {:induction false} PutNew(fields: Fields, key: string, value: Json)
    requires Get(fields, key).None?
    ensures Put(fields, key, value) == fields + [(key, value)]
  {
    if fields != [] {
      PutNew(fields[1..], key, value);
    }
  }

  lemma {:induction false} GetAfterRemove(fields: Fields, key: string, other: string)
    requires other != key
    ensures Get(Remove(fields, key), other) == Get(fields, other)
  {
    if fields != [] && fields[0].0 != key {
      GetAfterRemove(fields[1..], key, other);
      assert Remove(fields, key)[1..] == Remove(fields[1..], key);
    }
  }

  function Keys(fields: Fields): (r: seq<string>)
    ensures |r| == |fields|
    ensures forall i | 0 <= i < |fields| :: r[i] == fields[i].0
  {
    seq(|fields|, i requires 0 <= i < |fields| => fields[i].0)
  }

  predicate UniqueKeys(fields: Fields) {
    Distinct(Keys(fields))
  }

  /** Keys are unique at every level. */
  predicate WellFormed(j: Json) {
    match j
    case Arr(items) => forall i | 0 <= i < |items| :: WellFormed(items[i])
    case Obj(fields) => UniqueKeys(fields) && forall i | 0 <= i < |fields| :: WellFormed(fields[i].1)
    case _ => true
  }

  /** A field of an object with unique keys is found under its key. */
  lemma GetField(fields: Fields, i: nat)
    requires UniqueKeys(fields) && i < |fields|
    ensures Get(fields, fields[i].0) == Some(fields[i].1)
  {
    var found := Get(fields, fields[i].0);
    if found.Some? {
      var k :| 0 <= k < |fields| && fields[k] == (fields[i].0, found.value);
      assert Keys(fields)[k] == Keys(fields)[i];
    }
  }

  lemma GetSmaller(fields: Fields, key: string)
    requires Get(fields, key).Some?
    ensures Get(fields, key).value < Obj(fields)
  {
    var i :| 0 <= i < |fields| && fields[i] == (key, Get(fields, key).value);
    assert fields[i].1 < Obj(fields);
  }

  /** Equality of values: the order of object keys does not matter. */
  predicate Same(a: Json, b: Json)
    decreases a
  {
    match a
    case Arr(items) =>
      b.Arr? && |items| == |b.items| && forall i | 0 <= i < |items| :: Same(items[i], b.items[i])
    case Obj(fields) =>
      && b.Obj?
      && (forall i | 0 <= i < |fields| ::
            var v := Get(b.fields, fields[i].0); v.Some? && Same(fields[i].1, v.value))
      && (forall i | 0 <= i < |b.fields| :: Get(fields, b.fields[i].0).Some?)
    case _ => a == b
  }

  predicate KeysSorted(fields: Fields) {
    forall i, j | 0 <= i < j < |fields| :: StringLe(fields[i].0, fields[j].0)
  }

  /** Ordered maps with the same lookups are the same sequence of fields. */
  lemma SameLookupsSameFields(a: Fields, b: Fields)
    requires UniqueKeys(a) && KeysSorted(a) && UniqueKeys(b) && KeysSorted(b)
    requires forall k :: Get(a, k) == Get(b, k)
    ensures a == b
  {
    var keys := set i | 0 <= i < |a| :: a[i].0;
    forall i | 0 <= i < |b| ensures b[i].0 in keys { assert Get(a, b[i].0).Some?; }
    forall i | 0 <= i < |a| ensures a[i].0 in Keys(b) {
      assert Get(b, a[i].0).Some?;
      var n :| 0 <= n < |b| && b[n].0 == a[i].0;
      assert Keys(b)[n] == a[i].0;
    }
    forall i | 0 <= i < |a| ensures a[i].0 in Keys(a) { assert Keys(a)[i] == a[i].0; }
    EnumerationsArePermutations(Keys(a), Keys(b), keys);
    StringLeIsTotalPreorder();
    forall x, y | x in Keys(a) && y in Keys(a) && StringLe(x, y) && StringLe(y, x) ensures x == y {
      StringLeAntisymmetric(x, y);
    }
    SortedIsUnique(StringLe, Keys(a), Keys(b));
    assert |a| == |Keys(a)| == |b|;
    forall i | 0 <= i < |a| ensures a[i] == b[i] {
      GetField(a, i);
      GetField(b, i);
      assert Keys(a)[i] == Keys(b)[i];
    }
  }
}

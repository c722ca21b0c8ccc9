/** Normalizing a flow's output before it is compared with the output recorded
  in a test file: run ids are fixed, backtraces dropped, keys sorted.  Normal
  forms are canonical: nothing is left of the order in which keys arrived. */
module SnapshotNormalize {
  import opened Basics
  import opened Ordering
  import opened JsonValues
  import opened FlowResults

  const FIXED_RUN_ID := "00000000-0000-0000-0000-000000000000"

  // ------------------------------------------------------------ normalization

  function Normalize(j: Json): Json
    decreases j, 2, 0
  {
    match j
    case Arr(items) => Arr(seq(|items|, (i: nat) requires i < |items| => Normalize(items[i])))
    case Obj(fields) => Obj(NormalizeKeys(fields, SortedKeys(fields)))
    case _ => j
  }

  function SortedKeys(fields: Fields): seq<string> {
    Sort(StringLe, Keys(fields))
  }

  /** What becomes of one field; None when it is dropped. */
  function NormalizeField(key: string, value: Json): Option<Json>
    decreases value, 3, 0
  {
    if key == "run_id" && value.Str? then Some(Str(FIXED_RUN_ID))
    else if key == "backtrace" then None
    else Some(Normalize(value))
  }

  function NormalizeKeys(fields: Fields, keys: seq<string>): Fields
    decreases Obj(fields), 1, |keys|
  {
    if keys == [] then []
    else
      var front := NormalizeKeys(fields, keys[..|keys| - 1]);
      var key := keys[|keys| - 1];
      match Get(fields, key)
      case None => front
      case Some(value) =>
        GetSmaller(fields, key);
        match NormalizeField(key, value)
        case None => front
        case Some(v) => front + [(key, v)]
  }

  function NormalizeResult(r: FlowResult): FlowResult {
    match r
    case Success(j) => Success(Normalize(j))
    case Failed(code, message, data) =>
      Failed(code, message, if data.Some? then Some(Normalize(data.value)) else None)
  }

  lemma SortedKeysFacts(fields: Fields)
    ensures multiset(SortedKeys(fields)) == multiset(Keys(fields))
    ensures Sorted(StringLe, SortedKeys(fields))
    ensures UniqueKeys(fields) ==> Distinct(SortedKeys(fields))
    ensures forall k :: k in SortedKeys(fields) <==> Get(fields, k).Some?
  {
    StringLeIsTotalPreorder();
    SortPermutes(StringLe, Keys(fields));
    SortSorts(StringLe, Keys(fields));
    if UniqueKeys(fields) {
      PermutationKeepsDistinct(Keys(fields), SortedKeys(fields));
    }
    forall k ensures k in SortedKeys(fields) <==> Get(fields, k).Some? {
      assert k in SortedKeys(fields) <==> k in multiset(Keys(fields));
      assert k in Keys(fields) <==> exists i :: 0 <= i < |fields| && fields[i].0 == k;
    }
  }

  /** The value as the code rewrites it. */
  method NormalizeValue(value: Json) returns (r: Json)
    requires WellFormed(value)
    ensures r == Normalize(value)
    decreases value, 1
  {
    match value {
      case Obj(fields) =>
        var sorted := NormalizeObject(fields);
        r := Obj(sorted);
      case Arr(items) =>
        var done: seq<Json> := [];
        for n := 0 to |items|
          invariant |done| == n
          invariant forall i | 0 <= i < n :: done[i] == Normalize(items[i])
        {
          var v := NormalizeValue(items[n]);
          done := done + [v];
        }
        r := Arr(done);
      case _ => r := value;
    }
  }

  /** The key loop: sort the keys, move each value out of the given map, insert
    what is kept into a fresh map. */
  method NormalizeObject(fields: Fields) returns (sorted: Fields)
    requires WellFormed(Obj(fields))
    ensures sorted == NormalizeKeys(fields, SortedKeys(fields))
    decreases Obj(fields), 0
  {
    SortedKeysFacts(fields);
    var keys := SortedKeys(fields);
    var remaining := fields;
    sorted := [];
    for n := 0 to |keys|
      invariant forall i | n <= i < |keys| :: Get(remaining, keys[i]) == Get(fields, keys[i])
      invariant sorted == NormalizeKeys(fields, keys[..n])
    {
      var key := keys[n];
      assert key in keys;
      var val := Get(remaining, key).value;
      ghost var before := remaining;
      remaining := Remove(remaining, key);
      forall i | n < i < |keys| ensures Get(remaining, keys[i]) == Get(fields, keys[i]) {
        GetAfterRemove(before, key, keys[i]);
      }
      NormalizeStep(fields, keys, n);
      GetSmaller(fields, key);
      FieldIsWellFormed(fields, key);
      if key == "run_id" && val.Str? {
        PutNew(sorted, key, Str(FIXED_RUN_ID));
        sorted := Put(sorted, key, Str(FIXED_RUN_ID));
      } else if key != "backtrace" {
        val := NormalizeValue(val);
        PutNew(sorted, key, val);
        sorted := Put(sorted, key, val);
      }
    }
    assert keys[..|keys|] == keys;
  }

  lemma NormalizeStep(fields: Fields, keys: seq<string>, n: nat)
    requires Distinct(keys) && n < |keys| && Get(fields, keys[n]).Some?
    ensures var done := NormalizeKeys(fields, keys[..n]);
            var kept := NormalizeField(keys[n], Get(fields, keys[n]).value);
            && Get(done, keys[n]).None?
            && NormalizeKeys(fields, keys[..n + 1])
               == if kept.Some? then done + [(keys[n], kept.value)] else done
  {
    assert keys[..n + 1][..n] == keys[..n];
    NormalizedGet(fields, keys[..n], keys[n]);
  }

  lemma FieldIsWellFormed(fields: Fields, key: string)
    requires WellFormed(Obj(fields)) && Get(fields, key).Some?
    ensures WellFormed(Get(fields, key).value)
  {
    var i :| 0 <= i < |fields| && fields[i] == (key, Get(fields, key).value);
  }

  lemma {:induction false} GetInSum(a: Fields, b: Fields, key: string)
    ensures Get(a + b, key) == if Get(a, key).Some? then Get(a, key) else Get(b, key)
  {
    if a == [] {
      assert a + b == b;
    } else {
      assert (a + b)[1..] == a[1..] + b;
      GetInSum(a[1..], b, key);
    }
  }

  /** A lookup in the normalized fields, whatever the order of `keys`. */
  lemma {:induction false} NormalizedGet(fields: Fields, keys: seq<string>, key: string)
    ensures Get(NormalizeKeys(fields, keys), key)
         == if key in keys && Get(fields, key).Some? then NormalizeField(key, Get(fields, key).value) else None
    decreases |keys|
  {
    if keys != [] {
      var front, last := keys[..|keys| - 1], keys[|keys| - 1];
      assert keys == front + [last];
      NormalizedGet(fields, front, key);
      if Get(fields, last).Some? {
        var kept := NormalizeField(last, Get(fields, last).value);
        if kept.Some? {
          GetInSum(NormalizeKeys(fields, front), [(last, kept.value)], key);
        }
      }
    }
  }

  lemma NormalizedField(fields: Fields, key: string)
    ensures Get(Normalize(Obj(fields)).fields, key)
         == if Get(fields, key).None? then None
            else if key == "run_id" && Get(fields, key).value.Str?
            then Some(Str("00000000-0000-0000-0000-000000000000"))
            else if key == "backtrace" then None
            else Some(Normalize(Get(fields, key).value))
  {
    SortedKeysFacts(fields);
    NormalizedGet(fields, SortedKeys(fields), key);
  }

  // ------------------------------------------------------------- normal forms

  /** Keys unique and in order at every level. */
  predicate Canonical(j: Json) {
    match j
    case Arr(items) => forall i | 0 <= i < |items| :: Canonical(items[i])
    case Obj(fields) =>
      && UniqueKeys(fields)
      && KeysSorted(fields)
      && forall i | 0 <= i < |fields| :: Canonical(fields[i].1)
    case _ => true
  }

  lemma {:induction false} CanonicalIsWellFormed(j: Json)
    requires Canonical(j)
    ensures WellFormed(j)
  {
    match j {
      case Arr(items) => forall i | 0 <= i < |items| ensures WellFormed(items[i]) { CanonicalIsWellFormed(items[i]); }
      case Obj(fields) =>
        forall i | 0 <= i < |fields| ensures WellFormed(fields[i].1) { CanonicalIsWellFormed(fields[i].1); }
      case _ =>
    }
  }

  /** The kept keys are a subsequence of the sorted keys. */
  lemma {:induction false} NormalizedKeysSorted(fields: Fields, keys: seq<string>)
    requires Distinct(keys) && Sorted(StringLe, keys)
    ensures UniqueKeys(NormalizeKeys(fields, keys)) && KeysSorted(NormalizeKeys(fields, keys))
    ensures forall i | 0 <= i < |NormalizeKeys(fields, keys)| ::
              var (k, v) := NormalizeKeys(fields, keys)[i];
              k in keys && Get(fields, k).Some? && NormalizeField(k, Get(fields, k).value) == Some(v)
    decreases |keys|
  {
    if keys != [] {
      NormalizedKeysSorted(fields, keys[..|keys| - 1]);
      var front, all := NormalizeKeys(fields, keys[..|keys| - 1]), NormalizeKeys(fields, keys);
      assert forall i | 0 <= i < |front| :: front[i].0 in keys[..|keys| - 1];
      assert forall i | 0 <= i < |front| :: all[i] == front[i];
    }
  }

  lemma NormalizedEntry(fields: Fields, i: nat)
    requires UniqueKeys(fields) && i < |Normalize(Obj(fields)).fields|
    ensures var (k, v) := Normalize(Obj(fields)).fields[i];
            Get(fields, k).Some? && NormalizeField(k, Get(fields, k).value) == Some(v)
  {
    SortedKeysFacts(fields);
    NormalizedKeysSorted(fields, SortedKeys(fields));
  }

  lemma {:induction false} NormalizeIsCanonical(j: Json)
    requires WellFormed(j)
    ensures Canonical(Normalize(j))
  {
    match j {
      case Arr(items) =>
        forall i | 0 <= i < |items| ensures Canonical(Normalize(items[i])) { NormalizeIsCanonical(items[i]); }
      case Obj(fields) =>
        SortedKeysFacts(fields);
        NormalizedKeysSorted(fields, SortedKeys(fields));
        var r := Normalize(j).fields;
        forall i | 0 <= i < |r| ensures Canonical(r[i].1) {
          NormalizedEntry(fields, i);
          GetSmaller(fields, r[i].0);
          FieldIsWellFormed(fields, r[i].0);
          if !(r[i].0 == "run_id" && Get(fields, r[i].0).value.Str?) {
            NormalizeIsCanonical(Get(fields, r[i].0).value);
          }
        }
      case _ =>
    }
  }

  /** Values that differ only in the order of keys have one canonical form. */
  lemma {:induction false} SameCanonicalFormsAreEqual(a: Json, b: Json)
    requires Canonical(a) && Canonical(b) && Same(a, b)
    ensures a == b
    decreases a
  {
    match a {
      case Arr(items) =>
        forall i | 0 <= i < |items| ensures items[i] == b.items[i] {
          SameCanonicalFormsAreEqual(items[i], b.items[i]);
        }
      case Obj(fields) =>
        forall k ensures Get(fields, k) == Get(b.fields, k) {
          if Get(fields, k).Some? {
            var i :| 0 <= i < |fields| && fields[i] == (k, Get(fields, k).value);
            var n :| 0 <= n < |b.fields| && b.fields[n] == (k, Get(b.fields, k).value);
            SameCanonicalFormsAreEqual(fields[i].1, b.fields[n].1);
          }
        }
        SameLookupsSameFields(fields, b.fields);
      case _ =>
    }
  }

  /** Normalizing twice is normalizing once. */
  lemma {:induction false} NormalizeIdempotent(j: Json)
    requires WellFormed(j)
    ensures Normalize(Normalize(j)) == Normalize(j)
  {
    match j {
      case Arr(items) =>
        forall i | 0 <= i < |items| ensures Normalize(Normalize(items[i])) == Normalize(items[i]) {
          NormalizeIdempotent(items[i]);
        }
      case Obj(fields) =>
        var once := Normalize(j).fields;
        NormalizeIsCanonical(j);
        CanonicalIsWellFormed(Normalize(j));
        NormalizeIsCanonical(Normalize(j));
        forall k ensures Get(Normalize(Obj(once)).fields, k) == Get(once, k) {
          NormalizedField(fields, k);
          NormalizedField(once, k);
          if Get(fields, k).Some? {
            GetSmaller(fields, k);
            FieldIsWellFormed(fields, k);
            NormalizeIdempotent(Get(fields, k).value);
          }
        }
        SameLookupsSameFields(Normalize(Obj(once)).fields, once);
      case _ =>
    }
  }
}

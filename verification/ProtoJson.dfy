/** Converting protobuf values, whose numbers are all 64-bit floats and whose
  structs are hash maps, to JSON: whole floats become integers again, and the
  iteration order of the maps is forgotten. */
module ProtoJson {
  import opened Basics
  import opened Ordering
  import opened JsonValues
  import opened Float64

  const I64_MIN: int := -0x8000_0000_0000_0000
  const I64_MAX: int := 0x7FFF_FFFF_FFFF_FFFF

  /** A double; a finite one is the real number it stands for. */
  datatype Double = NaN | Infinite(positive: bool) | Finite(x: real)

  /** A struct lists its fields in the order in which its map is iterated. */
  datatype Value =
    | NoKind
    | NullValue
    | BoolValue(b: bool)
    | NumberValue(n: Double)
    | StringValue(s: string)
    | StructValue(fields: seq<(string, Value)>)
    | ListValue(values: seq<Value>)

  // ------------------------------------------------------------- the conversion

  /** The cast `as i64` of a whole number: out of range, the nearest bound. */
  function SaturatingCast(n: int): int {
    if n < I64_MIN then I64_MIN else if n > I64_MAX then I64_MAX else n
  }

  function ConvertNumber(n: Double): Json {
    match n
    case NaN => Null
    case Infinite(_) => Null
    case Finite(x) =>
      if x == x.Floor as real && Round(SaturatingCast(x.Floor)) as real == x then Int(SaturatingCast(x.Floor))
      else Float(x)
  }

  function Convert(v: Value): Json
    decreases v, 1
  {
    match v
    case NoKind => Null
    case NullValue => Null
    case BoolValue(b) => Bool(b)
    case NumberValue(n) => ConvertNumber(n)
    case StringValue(s) => Str(s)
    case StructValue(fields) => Obj(Sort(KeyLe, ConvertFields(fields)))
    case ListValue(values) => Arr(seq(|values|, (i: nat) requires i < |values| => Convert(values[i])))
  }

  function ConvertFields(fields: seq<(string, Value)>): (r: Fields)
    ensures |r| == |fields|
    ensures forall i | 0 <= i < |fields| :: r[i].0 == fields[i].0
    decreases StructValue(fields), 0
  {
    seq(|fields|, (i: nat) requires i < |fields| => (fields[i].0, Convert(fields[i].1)))
  }

  // ------------------------------------------------------------------- numbers

  /** Every whole double: exact within the range of i64, one off at its upper
    end, where the cast saturates, and left as a float beyond. */
  lemma WholeNumbersConvert(n: int)
    requires RepresentableInt(n)
    ensures ConvertNumber(Finite(n as real))
         == if I64_MIN <= n <= I64_MAX then Int(n)
            else if n == I64_MAX + 1 then Int(I64_MAX)
            else Float(n as real)
  {
    assert (n as real).Floor == n;
    if I64_MIN <= n <= I64_MAX {
      ExactIff(n);
    } else {
      BoundsRound();
    }
  }

  lemma BoundsRound()
    ensures Round(I64_MAX) == I64_MAX + 1 && Round(I64_MIN) == I64_MIN
  {
    TwoTo63();
    assert IsScaled(I64_MAX + 1, 1, 63);
    RoundKeepsRepresentable(I64_MAX + 1);
    LargestRounds();
  }

  lemma TwoTo63()
    ensures Pow2(63) == I64_MAX + 1
  {
    assert Pow2(7) == 128;
    assert Pow2(14) == 16384 by { Pow2Sum(7, 7); }
    assert Pow2(28) == 268435456 by { Pow2Sum(14, 14); }
    assert Pow2(56) == 72057594037927936 by { Pow2Sum(28, 28); }
    assert Pow2(63) == I64_MAX + 1 by { Pow2Sum(56, 7); }
  }

  /** 2^63 - 1 has no room in 53 bits; the nearest neighbour is 2^63. */
  lemma LargestRounds()
    ensures Round(I64_MAX) == I64_MAX + 1
  {
    var a: nat := I64_MAX;
    assert Pow2(10) == 1024;
    assert RoundFrom(a, 0) == RoundFrom(a, 4) by {
      assert Pow2(1) == 2 && Pow2(2) == 4 && Pow2(3) == 8;
      assert RoundFrom(a, 3) == RoundFrom(a, 4);
      assert RoundFrom(a, 2) == RoundFrom(a, 3);
      assert RoundFrom(a, 1) == RoundFrom(a, 2);
    }
    assert RoundFrom(a, 4) == RoundFrom(a, 8) by {
      assert Pow2(4) == 16 && Pow2(5) == 32 && Pow2(6) == 64 && Pow2(7) == 128;
      assert RoundFrom(a, 7) == RoundFrom(a, 8);
      assert RoundFrom(a, 6) == RoundFrom(a, 7);
      assert RoundFrom(a, 5) == RoundFrom(a, 6);
    }
    assert RoundFrom(a, 8) == RoundFrom(a, 10) by {
      assert Pow2(8) == 256 && Pow2(9) == 512;
      assert RoundFrom(a, 9) == RoundFrom(a, 10);
    }
    Split(a, 1024);
    assert Quotient(a, 1024) == TWO_53 - 1;
  }

  /** A signed 64-bit integer survives the way through a double exactly when a
    double can hold it, and (by saturation) in the case of the largest. */
  lemma IntegerSurvivesIff(j: int)
    requires I64_MIN <= j <= I64_MAX
    ensures ConvertNumber(Finite(Round(j) as real)) == Int(j) <==> RepresentableInt(j) || j == I64_MAX
  {
    ExactIff(j);
    var a := if j >= 0 then j else -j;
    RoundIsRepresentable(a);
    BoundsRound();
    var r := Round(j);
    assert RepresentableInt(r);
    WholeNumbersConvert(r);
  }

  lemma SafeIntegersSurvive(j: int)
    requires -(TWO_53 as int) <= j <= TWO_53
    ensures ConvertNumber(Finite(Round(j) as real)) == Int(j)
  {
    var a := if j >= 0 then j else -j;
    if a == TWO_53 {
      assert IsScaled(a, TWO_52, 1);
    } else {
      assert IsScaled(a, a, 0);
    }
    IntegerSurvivesIff(j);
  }

  // ------------------------------------------------------------ order of fields

  predicate UniqueFields(fields: seq<(string, Value)>) {
    forall i, j | 0 <= i < j < |fields| :: fields[i].0 != fields[j].0
  }

  /** Keys are unique at every level, as they are in maps. */
  predicate WellFormedValue(v: Value) {
    match v
    case StructValue(fields) =>
      UniqueFields(fields) && forall i | 0 <= i < |fields| :: WellFormedValue(fields[i].1)
    case ListValue(values) => forall i | 0 <= i < |values| :: WellFormedValue(values[i])
    case _ => true
  }

  predicate HasKey(fields: seq<(string, Value)>, key: string) {
    exists i | 0 <= i < |fields| :: fields[i].0 == key
  }

  /** The same value, its maps iterated in any order at any level. */
  predicate SameValue(a: Value, b: Value)
    decreases a, 0
  {
    match a
    case StructValue(fields) =>
      && b.StructValue?
      && (forall i: nat | i < |fields| :: SameField(fields[i].0, fields[i].1, b.fields))
      && (forall j: nat | j < |b.fields| :: HasKey(fields, b.fields[j].0))
    case ListValue(values) =>
      b.ListValue? && |values| == |b.values| && forall i: nat | i < |values| :: SameValue(values[i], b.values[i])
    case _ => a == b
  }

  predicate SameField(key: string, v: Value, fields: seq<(string, Value)>)
    decreases v, 1
  {
    exists j: nat | j < |fields| :: fields[j].0 == key && SameValue(v, fields[j].1)
  }

  /** Sorting fields by key keeps every lookup. */
  lemma SortKeepsLookups(fields: Fields)
    requires UniqueKeys(fields)
    ensures UniqueKeys(Sort(KeyLe, fields)) && KeysSorted(Sort(KeyLe, fields))
    ensures forall k :: Get(Sort(KeyLe, fields), k) == Get(fields, k)
  {
    var s := Sort(KeyLe, fields);
    SortPermutes(KeyLe, fields);
    KeyLeIsTotalPreorder<Json>();
    SortSorts(KeyLe, fields);
    assert forall i, j | 0 <= i < j < |s| :: KeyLe(s[i], s[j]);
    forall i, j | 0 <= i < j < |fields| ensures fields[i] != fields[j] {
      assert Keys(fields)[i] != Keys(fields)[j];
    }
    PermutationKeepsDistinct(fields, s);
    forall i, j | 0 <= i < j < |s| ensures Keys(s)[i] != Keys(s)[j] {
      InBoth(fields, s, i);
      InBoth(fields, s, j);
    }
    forall k ensures Get(s, k) == Get(fields, k) {
      SameLookup(fields, s, k);
    }
  }

  /** An entry of the sorted fields is found under its key in the others. */
  lemma InBoth(fields: Fields, s: Fields, i: nat)
    requires UniqueKeys(fields) && multiset(s) == multiset(fields) && i < |s|
    ensures s[i] in fields && Get(fields, s[i].0) == Some(s[i].1)
  {
    assert s[i] in multiset(fields);
    var n: nat :| n < |fields| && fields[n] == s[i];
    GetField(fields, n);
  }

  lemma SameLookup(fields: Fields, s: Fields, k: string)
    requires UniqueKeys(fields) && multiset(s) == multiset(fields)
    ensures Get(s, k) == Get(fields, k)
  {
    var found := Get(s, k);
    if found.Some? {
      var i :| 0 <= i < |s| && s[i] == (k, found.value);
      InBoth(fields, s, i);
    } else {
      forall i | 0 <= i < |fields| ensures fields[i].0 != k {
        assert fields[i] in multiset(s);
      }
    }
  }

  /** The result does not depend on the iteration order of any map. */
  lemma {:induction false} ConversionIgnoresOrder(a: Value, b: Value)
    requires WellFormedValue(a) && WellFormedValue(b) && SameValue(a, b)
    ensures Convert(a) == Convert(b)
    decreases a
  {
    match a {
      case ListValue(values) =>
        forall i: nat | i < |values| ensures Convert(values[i]) == Convert(b.values[i]) {
          ConversionIgnoresOrder(values[i], b.values[i]);
        }
      case StructValue(fields) =>
        var x, y := ConvertFields(fields), ConvertFields(b.fields);
        forall i: nat | i < |fields| ensures Get(y, fields[i].0) == Some(x[i].1) {
          assert SameField(fields[i].0, fields[i].1, b.fields);
          var j: nat :| j < |b.fields| && b.fields[j].0 == fields[i].0 && SameValue(fields[i].1, b.fields[j].1);
          ConversionIgnoresOrder(fields[i].1, b.fields[j].1);
          ConvertedLookup(b.fields, j);
        }
        forall j: nat | j < |b.fields| ensures Get(x, y[j].0).Some? {
          assert HasKey(fields, b.fields[j].0);
          ConvertedKey(fields, b.fields[j].0);
        }
        ConvertedKeysUnique(fields);
        ConvertedKeysUnique(b.fields);
        SortedFieldsAgree(x, y);
      case _ =>
    }
  }

  lemma ConvertedLookup(fields: seq<(string, Value)>, j: nat)
    requires UniqueFields(fields) && j < |fields|
    ensures Get(ConvertFields(fields), fields[j].0) == Some(Convert(fields[j].1))
  {
    ConvertedKeysUnique(fields);
    GetField(ConvertFields(fields), j);
  }

  lemma ConvertedKeysUnique(fields: seq<(string, Value)>)
    requires UniqueFields(fields)
    ensures UniqueKeys(ConvertFields(fields))
  {
    var keys := Keys(ConvertFields(fields));
    forall i, j | 0 <= i < j < |keys| ensures keys[i] != keys[j] {
      assert fields[i].0 != fields[j].0;
    }
  }

  lemma ConvertedKey(fields: seq<(string, Value)>, key: string)
    requires HasKey(fields, key)
    ensures Get(ConvertFields(fields), key).Some?
  {
    var i :| 0 <= i < |fields| && fields[i].0 == key;
    assert ConvertFields(fields)[i].0 == key;
  }

  /** Fields with the same lookups are the same once they are sorted. */
  lemma SortedFieldsAgree(x: Fields, y: Fields)
    requires UniqueKeys(x) && UniqueKeys(y)
    requires forall i: nat | i < |x| :: Get(y, x[i].0) == Some(x[i].1)
    requires forall j: nat | j < |y| :: Get(x, y[j].0).Some?
    ensures Sort(KeyLe, x) == Sort(KeyLe, y)
  {
    SortKeepsLookups(x);
    SortKeepsLookups(y);
    forall k ensures Get(x, k) == Get(y, k) {
      LookupsAgree(x, y, k);
    }
    SameLookupsSameFields(Sort(KeyLe, x), Sort(KeyLe, y));
  }

  lemma LookupsAgree(x: Fields, y: Fields, k: string)
    requires forall i: nat | i < |x| :: Get(y, x[i].0) == Some(x[i].1)
    requires forall j: nat | j < |y| :: Get(x, y[j].0).Some?
    ensures Get(x, k) == Get(y, k)
  {
    if Get(x, k).Some? {
      var i: nat :| i < |x| && x[i] == (k, Get(x, k).value);
    }
  }

  /** Objects come out with unique keys in order. */
  lemma {:induction false} ConversionIsWellFormed(v: Value)
    requires WellFormedValue(v)
    ensures WellFormed(Convert(v))
    ensures v.StructValue? ==> KeysSorted(Convert(v).fields)
  {
    match v {
      case ListValue(values) =>
        forall i | 0 <= i < |values| ensures WellFormed(Convert(values[i])) { ConversionIsWellFormed(values[i]); }
      case StructValue(fields) =>
        var x := ConvertFields(fields);
        var s := Sort(KeyLe, x);
        ConvertedKeysUnique(fields);
        SortKeepsLookups(x);
        SortPermutes(KeyLe, x);
        forall i | 0 <= i < |s| ensures WellFormed(s[i].1) {
          assert s[i] in multiset(x);
          var n: nat :| n < |x| && x[n] == s[i];
          ConversionIsWellFormed(fields[n].1);
        }
      case _ =>
    }
  }
  // ------------------------------------------------------- what it stands for

  /** Whole doubles become integers where i64 has room, fractions stay floats,
    and what is no number becomes null. */
  ghost predicate NumberStandsFor(n: Double, j: Json) {
    match n
    case NaN => j == Null
    case Infinite(_) => j == Null
    case Finite(x) =>
      if x != x.Floor as real then j == Float(x)
      else RepresentableInt(x.Floor) ==>
        if I64_MIN <= x.Floor <= I64_MAX then j == Int(x.Floor)
        else if x.Floor == I64_MAX + 1 then j == Int(I64_MAX)
        else j == Float(x)
  }

  /** `j` is `v`, kind by kind: items in order, and for a struct the same keys,
    each with what its field stands for. */
  ghost predicate StandsFor(v: Value, j: Json) {
    match v
    case NoKind => j == Null
    case NullValue => j == Null
    case BoolValue(b) => j == Bool(b)
    case NumberValue(n) => NumberStandsFor(n, j)
    case StringValue(s) => j == Str(s)
    case ListValue(values) =>
      && j.Arr? && |j.items| == |values|
      && (forall i: nat | i < |values| :: StandsFor(values[i], j.items[i]))
    case StructValue(fields) =>
      && j.Obj? && UniqueKeys(j.fields)
      && (forall i: nat | i < |fields| ::
            Get(j.fields, fields[i].0).Some? && StandsFor(fields[i].1, Get(j.fields, fields[i].0).value))
      && (forall key :: Get(j.fields, key).Some? ==> HasKey(fields, key))
  }

  lemma NumbersConvert(n: Double)
    ensures NumberStandsFor(n, ConvertNumber(n))
  {
    if n.Finite? && n.x == n.x.Floor as real && RepresentableInt(n.x.Floor) {
      WholeNumbersConvert(n.x.Floor);
    }
  }

  lemma OnlyConvertedKeys(fields: seq<(string, Value)>, key: string)
    requires Get(ConvertFields(fields), key).Some?
    ensures HasKey(fields, key)
  {
    var x := ConvertFields(fields);
    var i :| 0 <= i < |x| && x[i] == (key, Get(x, key).value);
    assert fields[i].0 == key;
  }

  /** The conversion keeps what the value stands for. */
  lemma {:induction false} ConversionStandsFor(v: Value)
    requires WellFormedValue(v)
    ensures StandsFor(v, Convert(v))
  {
    match v {
      case NumberValue(n) => NumbersConvert(n);
      case ListValue(values) =>
        forall i: nat | i < |values| ensures StandsFor(values[i], Convert(values[i])) {
          ConversionStandsFor(values[i]);
        }
      case StructValue(fields) =>
        ConvertedKeysUnique(fields);
        SortKeepsLookups(ConvertFields(fields));
        forall i: nat | i < |fields|
          ensures Get(ConvertFields(fields), fields[i].0) == Some(Convert(fields[i].1))
          ensures StandsFor(fields[i].1, Convert(fields[i].1))
        {
          ConvertedLookup(fields, i);
          ConversionStandsFor(fields[i].1);
        }
        forall key | Get(ConvertFields(fields), key).Some? ensures HasKey(fields, key) {
          OnlyConvertedKeys(fields, key);
        }
      case _ =>
    }
  }
}

/**
 * `deepEqual` and `subsetMatch` on JSON values.
 *
 * Arrays are sequences here, because that an array compares like an index-keyed object is a result of this module.
 * The merge's trees are keyed to begin with: it can leave an array with any keys.
 */
module DeepEqual {
  import opened ArrayIndices
  import opened JsonTrees

  datatype Value = Prim(scalar: Scalar) | Arr(items: seq<Value>) | Obj(fields: map<string, Value>)

  datatype Type = BooleanType | NumberType | StringType | ObjectType

  function TypeOf(v: Value): Type {
    match v
    case Prim(Bool(_)) => BooleanType
    case Prim(Number(_)) => NumberType
    case Prim(Text(_)) => StringType
    case _ => ObjectType
  }

  // ---- index keys ----

  /** An array read as an object: its own enumerable keys are the decimal indices. */
  function Indexed(items: seq<Value>): (m: map<string, Value>)
    ensures forall k :: k in m ==> m[k] in items
  {
    if items == [] then map[]
    else Indexed(items[..|items| - 1])[Decimal(|items| - 1) := items[|items| - 1]]
  }

  lemma {:induction false} IndexedAt(items: seq<Value>, i: nat)
    requires i < |items|
    ensures Decimal(i) in Indexed(items) && Indexed(items)[Decimal(i)] == items[i]
  {
    var last := |items| - 1;
    if i < last {
      IndexedAt(items[..last], i);
      if Decimal(i) == Decimal(last) { DecimalInjective(i, last); }
    }
  }

  lemma {:induction false} IndexOf(items: seq<Value>, k: string) returns (i: nat)
    requires k in Indexed(items)
    ensures i < |items| && k == Decimal(i)
  {
    var last := |items| - 1;
    if k == Decimal(last) { i := last; } else { i := IndexOf(items[..last], k); }
  }

  /** `Object.keys` and the values under them. */
  function Fields(v: Value): (m: map<string, Value>)
    requires v.Arr? || v.Obj?
    ensures forall k :: k in m ==> m[k] < v
  {
    match v case Arr(items) => Indexed(items) case Obj(fields) => fields
  }

  // ---- the code ----

  predicate DeepEqual(a: Value, b: Value)
    decreases a
  {
    if TypeOf(a) != TypeOf(b) then false
    else if TypeOf(a) != ObjectType || a == Prim(Null) || b == Prim(Null) then a == b
    else
      var x, y := Fields(a), Fields(b);
      |x.Keys| == |y.Keys| && forall k :: k in x ==> k in y && DeepEqual(x[k], y[k])
  }

  /** True, or an exception naming a key. */
  predicate SubsetMatch(obj: map<string, Value>, subset: map<string, Value>) {
    forall k :: k in subset ==> k in obj && DeepEqual(obj[k], subset[k])
  }

  // ---- what it decides ----

  /** The value with every array read as an index-keyed object. */
  function Normal(v: Value): Value
    decreases v
  {
    if v.Arr? || v.Obj? then Obj(map k | k in Fields(v) :: Normal(Fields(v)[k])) else v
  }

  lemma SameKeysByCounting<T>(x: set<T>, y: set<T>)
    requires x <= y && |x| == |y|
    ensures x == y
  {
    if x != y {
      var k :| k in y && k !in x;
      SmallerSubset(x, y - {k});
    }
  }

  lemma {:induction false} SmallerSubset<T>(x: set<T>, y: set<T>)
    requires x <= y
    ensures |x| <= |y|
  {
    if x != {} {
      var k :| k in x;
      SmallerSubset(x - {k}, y - {k});
    }
  }

  /** The one-sided key loop decides equality of the normal forms: counting the keys supplies the other side. */
  lemma {:induction false} DeepEqualIff(a: Value, b: Value)
    ensures DeepEqual(a, b) <==> Normal(a) == Normal(b)
    decreases a
  {
    if (a.Arr? || a.Obj?) && (b.Arr? || b.Obj?) {
      var x, y := Fields(a), Fields(b);
      forall k | k in x && k in y ensures DeepEqual(x[k], y[k]) <==> Normal(x[k]) == Normal(y[k]) {
        DeepEqualIff(x[k], y[k]);
      }
      NormalsAgree(a, b);
      if DeepEqual(a, b) { SameKeysByCounting(x.Keys, y.Keys); }
    }
  }

  lemma NormalsAgree(a: Value, b: Value)
    requires (a.Arr? || a.Obj?) && (b.Arr? || b.Obj?)
    ensures Normal(a) == Normal(b) <==>
      Fields(a).Keys == Fields(b).Keys && forall k :: k in Fields(a) ==> Normal(Fields(a)[k]) == Normal(Fields(b)[k])
  {
    var x, y := Normal(a).fields, Normal(b).fields;
    assert x.Keys == Fields(a).Keys && y.Keys == Fields(b).Keys;
    assert forall k :: k in Fields(a) ==> x[k] == Normal(Fields(a)[k]);
    assert forall k :: k in Fields(b) ==> y[k] == Normal(Fields(b)[k]);
    SameMaps(x, y);
  }

  lemma SameMaps(x: map<string, Value>, y: map<string, Value>)
    ensures x == y <==> x.Keys == y.Keys && forall k :: k in x ==> x[k] == y[k]
  {
  }

  /** Hence it is an equivalence relation. */
  lemma DeepEqualIsEquivalence(a: Value, b: Value, c: Value)
    ensures DeepEqual(a, a)
    ensures DeepEqual(a, b) ==> DeepEqual(b, a)
    ensures DeepEqual(a, b) && DeepEqual(b, c) ==> DeepEqual(a, c)
  {
    DeepEqualIff(a, a);
    DeepEqualIff(a, b);
    DeepEqualIff(b, a);
    DeepEqualIff(b, c);
    DeepEqualIff(a, c);
  }

  /** Two objects are equal when they have the same keys and equal values under them. */
  lemma ObjectsEqualIff(x: map<string, Value>, y: map<string, Value>)
    ensures DeepEqual(Obj(x), Obj(y)) <==> x.Keys == y.Keys && forall k :: k in x ==> DeepEqual(x[k], y[k])
  {
    if DeepEqual(Obj(x), Obj(y)) { SameKeysByCounting(x.Keys, y.Keys); }
  }

  /** An array is equal to an object with as many keys that has each item, or its equal, under its decimal index. */
  lemma ArrayEqualsObjectIff(a: seq<Value>, y: map<string, Value>)
    ensures DeepEqual(Arr(a), Obj(y)) <==>
      |y.Keys| == |a| && forall i :: 0 <= i < |a| ==> Decimal(i) in y && DeepEqual(a[i], y[Decimal(i)])
  {
    IndexedSize(a);
    if DeepEqual(Arr(a), Obj(y)) {
      forall i | 0 <= i < |a| ensures Decimal(i) in y && DeepEqual(a[i], y[Decimal(i)]) { IndexedAt(a, i); }
    } else if |y.Keys| == |a| {
      var k :| k in Indexed(a) && !(k in y && DeepEqual(Indexed(a)[k], y[k]));
      var i := IndexOf(a, k);
      IndexedAt(a, i);
    }
  }

  /** A scalar, null included, is equal to itself only, on either side. */
  lemma ScalarsEqualIff(s: Scalar, v: Value)
    ensures DeepEqual(Prim(s), v) <==> v == Prim(s)
    ensures DeepEqual(v, Prim(s)) <==> v == Prim(s)
  {
  }

  /** Two arrays are equal when they have the same length and equal items. */
  lemma ArraysEqualIff(a: seq<Value>, b: seq<Value>)
    ensures DeepEqual(Arr(a), Arr(b)) <==> |a| == |b| && forall i :: 0 <= i < |a| ==> DeepEqual(a[i], b[i])
  {
    IndexedSize(a);
    IndexedSize(b);
    if |a| == |b| {
      if forall i :: 0 <= i < |a| ==> DeepEqual(a[i], b[i]) {
        EqualItems(a, b);
      } else {
        var i :| 0 <= i < |a| && !DeepEqual(a[i], b[i]);
        DifferentItem(a, b, i);
      }
    }
  }

  lemma EqualItems(a: seq<Value>, b: seq<Value>)
    requires |a| == |b| && |Indexed(a).Keys| == |Indexed(b).Keys|
    requires forall i :: 0 <= i < |a| ==> DeepEqual(a[i], b[i])
    ensures DeepEqual(Arr(a), Arr(b))
  {
    forall k | k in Indexed(a) ensures k in Indexed(b) && DeepEqual(Indexed(a)[k], Indexed(b)[k]) {
      EqualAtKey(a, b, k);
    }
  }

  lemma DifferentItem(a: seq<Value>, b: seq<Value>, i: nat)
    requires |a| == |b| && i < |a| && !DeepEqual(a[i], b[i])
    ensures !DeepEqual(Arr(a), Arr(b))
  {
    IndexedAt(a, i);
    IndexedAt(b, i);
  }

  lemma EqualAtKey(a: seq<Value>, b: seq<Value>, k: string)
    requires |a| == |b| && k in Indexed(a) && forall i :: 0 <= i < |a| ==> DeepEqual(a[i], b[i])
    ensures k in Indexed(b) && DeepEqual(Indexed(a)[k], Indexed(b)[k])
  {
    var i := IndexOf(a, k);
    IndexedAt(a, i);
    IndexedAt(b, i);
  }

  lemma {:induction false} IndexedSize(items: seq<Value>)
    ensures |Indexed(items).Keys| == |items|
  {
    if items != [] {
      var last := |items| - 1;
      IndexedSize(items[..last]);
      if Decimal(last) in Indexed(items[..last]) {
        var i := IndexOf(items[..last], Decimal(last));
        DecimalInjective(i, last);
      }
      assert Indexed(items).Keys == Indexed(items[..last]).Keys + {Decimal(last)};
    }
  }

  /** A subset matches exactly when each of its settings has the same normal form in the object. */
  lemma SubsetMatchIff(obj: map<string, Value>, subset: map<string, Value>)
    ensures SubsetMatch(obj, subset) <==> forall k :: k in subset ==> k in obj && Normal(obj[k]) == Normal(subset[k])
  {
    forall k | k in subset && k in obj ensures DeepEqual(obj[k], subset[k]) <==> Normal(obj[k]) == Normal(subset[k]) {
      DeepEqualIff(obj[k], subset[k]);
    }
  }
}

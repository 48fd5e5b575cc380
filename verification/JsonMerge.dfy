/** The right-biased merge that `deepMerge` computes on JSON trees. */
module JsonMerge {
  import opened Wrappers
  import opened ArrayIndices
  import opened JsonTrees

  /** What lands under a key of the addition: an object is merged into an object, and printed over anything else. */
  ghost function Choose(present: Option<Json>, added: Json): Json
    decreases added, 1
  {
    if BothTrees(present, added) then Merge(present.value, added) else Printed(added)
  }

  predicate BothTrees(present: Option<Json>, added: Json) {
    present.Some? && present.value.Tree? && added.Tree?
  }

  ghost function Merge(result: Json, addition: Json): (r: Json)
    requires result.Tree? && addition.Tree?
    ensures r.Tree? && r.isArray == result.isArray && r.fields.Keys == result.fields.Keys + addition.fields.Keys
    decreases addition, 0
  {
    Tree(result.isArray,
         map k | k in result.fields.Keys + addition.fields.Keys ::
           if k in addition.fields then Choose(Get(result, k), addition.fields[k]) else result.fields[k])
  }

  ghost function MergeAll(result: Json, additions: seq<Json>): Json
    requires result.Tree? && forall a :: a in additions ==> a.Tree?
    ensures MergeAll(result, additions).Tree?
  {
    if additions == [] then result
    else Merge(MergeAll(result, additions[..|additions| - 1]), additions[|additions| - 1])
  }

  // ---- reading a merge path by path ----

  lemma MergeField(result: Json, addition: Json, k: string)
    requires result.Tree? && addition.Tree? && k in addition.fields
    ensures k in Merge(result, addition).fields
    ensures Merge(result, addition).fields[k] == Choose(Get(result, k), addition.fields[k])
  {
  }

  /** The addition as it arrives: whatever the result has no object for is printed. */
  ghost function Arriving(result: Json, addition: Json): (r: Json)
    requires result.Tree? && addition.Tree?
    ensures r.Tree? && r.fields.Keys == addition.fields.Keys
    decreases addition
  {
    Tree(addition.isArray,
         map k | k in addition.fields ::
           if BothTrees(Get(result, k), addition.fields[k]) then Arriving(result.fields[k], addition.fields[k])
           else Printed(addition.fields[k]))
  }

  /** What has been read from JSON text arrives as it is. */
  lemma {:induction false} ParsedArrives(result: Json, addition: Json)
    requires result.Tree? && addition.Tree? && Parsed(addition)
    ensures Arriving(result, addition) == addition
    decreases addition
  {
    var r := Arriving(result, addition);
    forall k | k in addition.fields ensures r.fields[k] == addition.fields[k] {
      if BothTrees(Get(result, k), addition.fields[k]) {
        ParsedArrives(result.fields[k], addition.fields[k]);
      } else {
        PrintedIff(addition.fields[k]);
      }
    }
    assert r.fields == addition.fields;
  }

  /** Some proper prefix of the path ends at a leaf. */
  predicate LeafAbove(t: Json, path: seq<string>) {
    path != [] && (t.Leaf? || (Get(t, path[0]).Some? && LeafAbove(Get(t, path[0]).value, path[1..])))
  }

  /**
   * Everything a merge contains: the arriving addition wins at each of its leaves and hides what lies below them,
   * paths it does not touch keep the result's value, and where both have objects the keys are united.
   */
  ghost predicate MergedAt(result: Json, arriving: Json, merged: Json, path: seq<string>) {
    var was, m := Lookup(result, path), Lookup(merged, path);
    match Lookup(arriving, path)
    case Some(Leaf(s)) => m == Some(Leaf(s))
    case None => if LeafAbove(arriving, path) then m.None? else m == was
    case Some(Tree(kind, fields)) =>
      m.Some? && m.value.Tree? &&
      if was.Some? && was.value.Tree?
      then m.value.isArray == was.value.isArray && m.value.fields.Keys == was.value.fields.Keys + fields.Keys
      else m.value == Tree(kind, fields)
  }

  lemma {:induction false} MergeByPath(result: Json, addition: Json, path: seq<string>)
    requires result.Tree? && addition.Tree?
    ensures MergedAt(result, Arriving(result, addition), Merge(result, addition), path)
    decreases |path|
  {
    if path != [] && path[0] in addition.fields {
      var r, added, arriving := Get(result, path[0]), addition.fields[path[0]], Arriving(result, addition);
      var m, a := Merge(result, addition), arriving.fields[path[0]];
      MergeField(result, addition, path[0]);
      assert Lookup(m, path) == Lookup(m.fields[path[0]], path[1..]);
      assert Lookup(arriving, path) == Lookup(a, path[1..]);
      if BothTrees(r, added) {
        MergeByPath(r.value, added, path[1..]);
        assert Lookup(result, path) == Lookup(r.value, path[1..]);
      } else {
        assert m.fields[path[0]] == a;
        BelowLeaf(a, path[1..]);
        assert LeafAbove(arriving, path) <==> LeafAbove(a, path[1..]);
        if |path| > 1 {
          assert path[1..] != [];
          assert a.Tree? ==> Lookup(result, path).None? by {
            if r.Some? { assert Lookup(result, path) == Lookup(r.value, path[1..]); }
          }
        } else {
          assert path[1..] == [];
        }
      }
    }
  }

  lemma {:induction false} BelowLeaf(t: Json, path: seq<string>)
    ensures LeafAbove(t, path) ==> Lookup(t, path).None?
    decreases |path|
  {
    if path != [] && Get(t, path[0]).Some? { BelowLeaf(Get(t, path[0]).value, path[1..]); }
  }

  // ---- assigning below an object ----

  /** All but the last key of the path lead to objects. */
  predicate HasParent(t: Json, path: seq<string>)
    decreases |path|
  {
    path != [] && t.Tree? && (|path| > 1 ==> path[0] in t.fields && HasParent(t.fields[path[0]], path[1..]))
  }

  /** `t.a.b.c = scalar`. */
  function Assigned(t: Json, path: seq<string>, scalar: Scalar): Json
    requires HasParent(t, path)
    decreases |path|
  {
    Tree(t.isArray, t.fields[path[0] :=
      if |path| == 1 then Leaf(scalar) else Assigned(t.fields[path[0]], path[1..], scalar)])
  }

  /** The scalar is at that path, nothing is below it, and every path that does not lead there is as before. */
  lemma {:induction false} AssignedByPath(t: Json, path: seq<string>, scalar: Scalar, other: seq<string>)
    requires HasParent(t, path)
    ensures path <= other ==>
      Lookup(Assigned(t, path, scalar), other) == if other == path then Some(Leaf(scalar)) else None
    ensures !(path <= other) && !(other <= path) ==> Lookup(Assigned(t, path, scalar), other) == Lookup(t, other)
    decreases |path|
  {
    if other != [] && other[0] == path[0] && |path| > 1 {
      AssignedByPath(t.fields[path[0]], path[1..], scalar, other[1..]);
    } else if path <= other {
      assert Lookup(Leaf(scalar), other[1..]) == if other[1..] == [] then Some(Leaf(scalar)) else None;
      assert other == path <==> other[1..] == [];
    } else if |path| == 1 && other != [] {
      assert other[0] == path[0] ==> path <= other;
    }
  }

  // ---- algebra ----

  lemma {:induction false} MergeIdempotent(t: Json)
    requires t.Tree?
    ensures Merge(t, t) == t
  {
    forall k | k in t.fields ensures Merge(t, t).fields[k] == t.fields[k] {
      if t.fields[k].Tree? { MergeIdempotent(t.fields[k]); }
    }
    assert Merge(t, t).fields == t.fields;
  }

  /** The empty object is an identity on the right; on the left it prints what it is given. */
  lemma MergeIdentity(t: Json)
    requires t.Tree?
    ensures Merge(t, EMPTY) == t
    ensures !t.isArray ==> Merge(EMPTY, t) == Printed(t)
    ensures !t.isArray ==> (Merge(EMPTY, t) == t <==> Parsed(t))
  {
    assert Merge(t, EMPTY).fields == t.fields;
    if !t.isArray {
      forall k | k in t.fields ensures Merge(EMPTY, t).fields[k] == Printed(t).fields[k] {
        MergeField(EMPTY, t, k);
        PrintedField(t, k);
      }
      assert Merge(EMPTY, t).fields == Printed(t).fields;
      PrintedIff(t);
    }
  }

  /** Everything `low` has is decided by `high`, which arrives unchanged: merging `low` under `high` adds nothing. */
  ghost predicate Covered(low: Json, high: Json)
    requires low.Tree? && high.Tree?
    decreases high
  {
    && low.isArray == high.isArray && low.fields.Keys <= high.fields.Keys
    && forall k :: k in high.fields ==>
         if BothTrees(Get(low, k), high.fields[k]) then Covered(low.fields[k], high.fields[k])
         else Parsed(high.fields[k])
  }

  lemma {:induction false} CoveredIff(low: Json, high: Json)
    requires low.Tree? && high.Tree?
    ensures Merge(low, high) == high <==> Covered(low, high)
    decreases high
  {
    var m := Merge(low, high);
    forall k | k in high.fields
      ensures m.fields[k] == high.fields[k] <==>
        if BothTrees(Get(low, k), high.fields[k]) then Covered(low.fields[k], high.fields[k])
        else Parsed(high.fields[k])
    {
      MergeField(low, high, k);
      if BothTrees(Get(low, k), high.fields[k]) {
        CoveredIff(low.fields[k], high.fields[k]);
      } else {
        PrintedIff(high.fields[k]);
      }
    }
    if low.fields.Keys <= high.fields.Keys {
      assert m.fields.Keys == high.fields.Keys;
      if Covered(low, high) { assert m.fields == high.fields; }
    }
  }

  /** Every array in which the merge leaves keys of both has just its indices as keys again. */
  ghost predicate Fits(result: Json, addition: Json)
    requires result.Tree? && addition.Tree?
    decreases addition
  {
    && (result.isArray ==> Dense(result.fields.Keys + addition.fields.Keys))
    && forall k :: k in addition.fields && BothTrees(Get(result, k), addition.fields[k]) ==>
         Fits(result.fields[k], addition.fields[k])
  }

  /** Whether merging two trees read from JSON text gives one that could have been. */
  lemma {:induction false} FitsIff(result: Json, addition: Json)
    requires result.Tree? && addition.Tree? && Parsed(result) && Parsed(addition)
    ensures Parsed(Merge(result, addition)) <==> Fits(result, addition)
    decreases addition
  {
    var m := Merge(result, addition);
    forall k | k in m.fields
      ensures Parsed(m.fields[k]) <==>
        (k in addition.fields && BothTrees(Get(result, k), addition.fields[k]) ==>
           Fits(result.fields[k], addition.fields[k]))
    {
      if k in addition.fields {
        MergeField(result, addition, k);
        if BothTrees(Get(result, k), addition.fields[k]) {
          FitsIff(result.fields[k], addition.fields[k]);
        } else {
          PrintedIff(addition.fields[k]);
        }
      }
    }
  }

  /**
   * Where the order of merging three trees matters: a leaf of `b` between two objects hides `a`'s object only if it
   * comes before `c`; and where `a` has no object, what `b` and `c` make together is printed only if they are merged
   * first, which spoils an array that has taken an object's keys.
   */
  ghost predicate Compatible(a: Json, b: Json, c: Json)
    requires a.Tree? && b.Tree? && c.Tree?
    decreases c, 1
  {
    forall k :: CompatibleAt(a, b, c, k)
  }

  ghost predicate CompatibleAt(a: Json, b: Json, c: Json, k: string)
    requires a.Tree? && b.Tree? && c.Tree?
    decreases c, 0
  {
    k in b.fields && k in c.fields && c.fields[k].Tree? ==>
      if k in a.fields && a.fields[k].Tree? then
        if b.fields[k].Leaf? then Covered(a.fields[k], c.fields[k])
        else Compatible(a.fields[k], b.fields[k], c.fields[k])
      else b.fields[k].Tree? ==> Fits(b.fields[k], c.fields[k])
  }

  /** Merging trees read from JSON text is associative exactly on compatible ones. */
  lemma {:induction false} MergeAssociativeIff(a: Json, b: Json, c: Json)
    requires a.Tree? && b.Tree? && c.Tree? && Parsed(a) && Parsed(b) && Parsed(c)
    ensures Merge(Merge(a, b), c) == Merge(a, Merge(b, c)) <==> Compatible(a, b, c)
    decreases c, 1
  {
    var left, right := Merge(Merge(a, b), c), Merge(a, Merge(b, c));
    assert left.fields.Keys == right.fields.Keys;
    forall k | k in left.fields
      ensures left.fields[k] == right.fields[k] <==> CompatibleAt(a, b, c, k)
    {
      AssociativeAt(a, b, c, k);
    }
    if forall k :: k in left.fields ==> CompatibleAt(a, b, c, k) {
      assert left.fields == right.fields;
    }
    if left == right {
      forall k ensures CompatibleAt(a, b, c, k) { assert k in b.fields ==> k in left.fields; }
    }
  }

  lemma AssociativeAt(a: Json, b: Json, c: Json, k: string)
    requires a.Tree? && b.Tree? && c.Tree? && Parsed(a) && Parsed(b) && Parsed(c)
    requires k in Merge(Merge(a, b), c).fields
    ensures Merge(Merge(a, b), c).fields[k] == Merge(a, Merge(b, c)).fields[k] <==> CompatibleAt(a, b, c, k)
    decreases c, 0
  {
    if k in c.fields {
      MergeField(Merge(a, b), c, k);
      MergeField(b, c, k);
      MergeField(a, Merge(b, c), k);
      if k in b.fields {
        MergeField(a, b, k);
        if Get(a, k).Some? && a.fields[k].Tree? && b.fields[k].Tree? && c.fields[k].Tree? {
          MergeAssociativeIff(a.fields[k], b.fields[k], c.fields[k]);
        }
        ChosenTwice(Get(a, k), b.fields[k], c.fields[k]);
      } else {
        PrintedIff(c.fields[k]);
      }
    }
  }

  lemma ChosenTwice(a: Option<Json>, b: Json, c: Json)
    requires (a.Some? ==> Parsed(a.value)) && Parsed(b) && Parsed(c)
    ensures Choose(Some(Choose(a, b)), c) == Choose(a, Choose(Some(b), c)) <==>
      (c.Tree? ==>
         if a.Some? && a.value.Tree? then
           if b.Leaf? then Covered(a.value, c)
           else Merge(Merge(a.value, b), c) == Merge(a.value, Merge(b, c))
         else b.Tree? ==> Fits(b, c))
  {
    PrintedIff(b);
    PrintedIff(c);
    if c.Tree? {
      if b.Leaf? {
        if a.Some? && a.value.Tree? { CoveredIff(a.value, c); }
      } else if !(a.Some? && a.value.Tree?) {
        FitsIff(b, c);
        PrintedIff(Merge(b, c));
      }
    }
  }

  // ---- trees without arrays, like the SDK's configs ----

  predicate NoArrays(t: Json) {
    t.Tree? ==> !t.isArray && forall k :: k in t.fields ==> NoArrays(t.fields[k])
  }

  lemma {:induction false} NoArraysParsed(t: Json)
    requires NoArrays(t)
    ensures Parsed(t) && Printed(t) == t
  {
    if t.Tree? {
      forall k | k in t.fields ensures Parsed(t.fields[k]) { NoArraysParsed(t.fields[k]); }
    }
    PrintedIff(t);
  }

  lemma {:induction false} NoArraysMerge(result: Json, addition: Json)
    requires result.Tree? && addition.Tree? && NoArrays(result) && NoArrays(addition)
    ensures NoArrays(Merge(result, addition)) && Fits(result, addition)
    decreases addition
  {
    var m := Merge(result, addition);
    forall k | k in addition.fields
      ensures NoArrays(m.fields[k])
      ensures BothTrees(Get(result, k), addition.fields[k]) ==> Fits(result.fields[k], addition.fields[k])
    {
      MergeField(result, addition, k);
      if BothTrees(Get(result, k), addition.fields[k]) {
        NoArraysMerge(result.fields[k], addition.fields[k]);
      } else {
        NoArraysParsed(addition.fields[k]);
      }
    }
  }

  // ---- an array in between ----

  /** An array with one item. */
  function Single(item: Scalar): Json {
    Tree(true, map[Decimal(0) := Leaf(item)])
  }

  lemma SingleIsParsed(item: Scalar)
    ensures Parsed(Single(item)) && IndexKeys(1) == {Decimal(0)}
  {
    assert IndexKeys(1) == {Decimal(0)} == Single(item).fields.Keys;
    LengthOfIndexKeys(1);
  }

  lemma NotDense(keys: set<string>, x: string)
    requires x in keys && Index(x).None?
    ensures !Dense(keys)
  {
    if Dense(keys) {
      var i :| 0 <= i < Length(keys) && x == Decimal(i);
      IndexOfDecimal(i);
    }
  }

  /** The array with an object merged into it has the object's key as well, until it is printed. */
  lemma MixedArray(x: string, v: Scalar, w: Scalar)
    requires Index(x).None?
    ensures var both := Merge(Single(v), Tree(false, map[x := Leaf(w)]));
      && x in both.fields && both.fields[x] == Leaf(w) && !Dense(both.fields.Keys)
      && Printed(both).Tree? && x !in Printed(both).fields
  {
    var both := Merge(Single(v), Tree(false, map[x := Leaf(w)]));
    MergeField(Single(v), Tree(false, map[x := Leaf(w)]), x);
    NotDense(both.fields.Keys, x);
    if x in Printed(both).fields {
      var i :| 0 <= i < Length(both.fields.Keys) && x == Decimal(i);
      IndexOfDecimal(i);
    }
  }

  lemma LookupTwo(t: Json, k: string, x: string)
    requires t.Tree? && k in t.fields && t.fields[k].Tree?
    ensures Lookup(t, [k, x]) == Get(t.fields[k], x)
  {
    assert [k, x][1..] == [x] && [x][1..] == [];
    assert Lookup(t, [k, x]) == Lookup(t.fields[k], [x]);
  }

  /**
   * An input on which the order matters although no leaf comes between objects: an array in `b` and an object in `c`
   * with a key that is not an index, where `a` has nothing. The key stays if `c` is merged last, and is lost if `b`
   * and `c` are merged first.
   */
  lemma ArrayLosesKey(k: string, x: string, v: Scalar, w: Scalar)
    requires Index(x).None?
    ensures var b, c := Tree(false, map[k := Single(v)]), Tree(false, map[k := Tree(false, map[x := Leaf(w)])]);
      && Parsed(b) && Parsed(c) && !Compatible(EMPTY, b, c)
      && Lookup(Merge(Merge(EMPTY, b), c), [k, x]) == Some(Leaf(w))
      && Lookup(Merge(EMPTY, Merge(b, c)), [k, x]) == None
  {
    var b, c := Tree(false, map[k := Single(v)]), Tree(false, map[k := Tree(false, map[x := Leaf(w)])]);
    SingleIsParsed(v);
    PrintedIff(Single(v));
    MixedArray(x, v, w);
    assert !CompatibleAt(EMPTY, b, c, k);
    MergeField(EMPTY, b, k);
    MergeField(Merge(EMPTY, b), c, k);
    MergeField(b, c, k);
    MergeField(EMPTY, Merge(b, c), k);
    LookupTwo(Merge(Merge(EMPTY, b), c), k, x);
    LookupTwo(Merge(EMPTY, Merge(b, c)), k, x);
  }
}

/**
 * `deepMerge` and `extendConfig` on heap objects.
 *
 * The merge writes into its first argument, recursively; additions are only read, and what is taken over from
 * them is a fresh copy. `Repr` is the set of objects a tree is made of.
 */
module DeepMerge {
  import opened ArrayIndices
  import opened JsonTrees
  import opened JsonMerge

  datatype JsValue = Prim(scalar: Scalar) | Ref(target: JsObject)

  class JsObject {
    const isArray: bool
    var fields: map<string, JsValue>
    var length: nat                    // of an array
    ghost var Repr: set<JsObject>

    /** A finite tree: no object is reached by two different keys. */
    ghost predicate Valid()
      reads this, Repr
      ensures Valid() ==> this in Repr
      decreases Repr, 1
    {
      && this in Repr
      && (isArray ==> IsLength(fields.Keys, length))
      && (forall k :: k in fields ==> Child(k))
      && (forall k, l :: k in fields && l in fields && k != l ==> Apart(k, l))
    }

    ghost predicate Child(k: string)
      requires k in fields
      reads this, Repr
      decreases Repr, 0
    {
      fields[k].Ref? ==>
        var o := fields[k].target;
        o in Repr && o.Repr < Repr && this !in o.Repr && o.Valid()
    }

    ghost predicate Apart(k: string, l: string)
      requires k in fields && l in fields
      reads this, Repr
    {
      fields[k].Ref? && fields[l].Ref? && fields[k].target in Repr && fields[l].target in Repr ==>
        fields[k].target.Repr !! fields[l].target.Repr
    }

    /** The JSON tree this object stands for. */
    ghost function Tree(): (t: Json)
      requires Valid()
      reads this, Repr
      ensures t.Tree? && t.isArray == isArray && t.fields.Keys == fields.Keys
      decreases Repr, 1
    {
      Json.Tree(isArray, map k | k in fields :: Branch(k))
    }

    ghost function Branch(k: string): Json
      requires Valid() && k in fields
      reads this, Repr
      decreases Repr, 0
    {
      match fields[k] case Prim(s) => Leaf(s) case Ref(o) => (assert Child(k); o.Tree())
    }

    constructor (isArray: bool)
      ensures Valid() && fresh(Repr) && Repr == {this}
      ensures Tree() == Json.Tree(isArray, map[])
    {
      this.isArray := isArray;
      fields, length := map[], 0;
      Repr := {this};
      new;
      assert Tree().fields == map[];
    }

    /** Assigning to an index at or past the end makes an array longer. */
    method Lengthen(key: string)
      requires isArray ==> IsLength(fields.Keys, length)
      modifies this`length
      ensures isArray ==> IsLength(fields.Keys + {key}, length)
    {
      if isArray {
        LengthenedIsLength(fields.Keys, length, key);
        length := Lengthened(length, key);
      }
    }

    method PutScalar(key: string, s: Scalar)
      requires Valid()
      modifies this
      ensures Valid() && Repr == old(Repr)
      ensures Tree() == Json.Tree(isArray, old(Tree()).fields[key := Leaf(s)])
    {
      Lengthen(key);
      fields := fields[key := Prim(s)];
      assert fields.Keys == old(fields.Keys) + {key};
      forall k | k in fields && k != key ensures Child(k) {
        assert old(Child(k));
      }
      forall k, l | k in fields && l in fields && k != l ensures Apart(k, l) {
        assert k != key && l != key ==> old(Apart(k, l));
      }
      forall k | k in fields && k != key ensures Branch(k) == old(Branch(k)) {
        assert old(Child(k));
      }
      assert Tree().fields == old(Tree()).fields[key := Leaf(s)];
    }

    method PutObject(key: string, o: JsObject)
      requires Valid() && o.Valid() && o.Repr !! Repr
      modifies this
      ensures Valid() && Repr == old(Repr) + o.Repr
      ensures Tree() == Json.Tree(isArray, old(Tree()).fields[key := old(o.Tree())])
    {
      ghost var shown := o.Tree();
      Lengthen(key);
      fields := fields[key := Ref(o)];
      Repr := Repr + o.Repr;
      assert fields.Keys == old(fields.Keys) + {key};
      forall k | k in fields ensures Child(k) {
        assert k != key ==> old(Child(k));
      }
      forall k, l | k in fields && l in fields && k != l ensures Apart(k, l) {
        assert k != key ==> old(Child(k));
        assert l != key ==> old(Child(l));
        assert k != key && l != key ==> old(Apart(k, l));
      }
      forall k | k in fields && k != key ensures Branch(k) == old(Branch(k)) {
        assert old(Child(k));
      }
      assert Branch(key) == o.Tree() == shown;
      assert Tree().fields == old(Tree()).fields[key := shown];
    }
  }

  /** `JSON.parse(JSON.stringify(o))`: the printed tree, made of new objects. */
  method Clone(o: JsObject) returns (c: JsObject)
    requires o.Valid()
    ensures c.Valid() && fresh(c.Repr) && c.Tree() == Printed(o.Tree())
    decreases o.Repr, 3
  {
    if o.isArray { c := CloneArray(o); } else { c := CloneObject(o); }
  }

  /** The indices in order; a hole is printed as null, and keys that are no indices are not printed. */
  method CloneArray(o: JsObject) returns (c: JsObject)
    requires o.Valid() && o.isArray
    ensures c.Valid() && fresh(c.Repr) && c.Tree() == Printed(o.Tree())
    decreases o.Repr, 2
  {
    ghost var tree := o.Tree();
    c := new JsObject(true);
    for i := 0 to o.length
      invariant c.Valid() && fresh(c.Repr) && c.isArray && o.Valid() && o.Tree() == tree
      invariant c.Tree().fields == PrintedItems(tree, i)
    {
      NextItem(tree, i);
      CopyItem(c, o, Decimal(i));
    }
    LengthUnique(o.fields.Keys, o.length, Length(o.fields.Keys));
  }

  method CopyItem(c: JsObject, o: JsObject, k: string)
    requires c.Valid() && o.Valid() && c.Repr !! o.Repr
    modifies c
    ensures c.Valid() && fresh(c.Repr - old(c.Repr))
    ensures c.Tree().fields == old(c.Tree()).fields[k :=
              if k in old(o.Tree()).fields then Printed(old(o.Tree()).fields[k]) else Leaf(Null)]
    decreases o.Repr, 1
  {
    if k in o.fields { CopyKey(c, o, k); } else { c.PutScalar(k, Null); }
  }

  lemma NextItem(t: Json, n: nat)
    requires t.Tree?
    ensures PrintedItems(t, n + 1) ==
      PrintedItems(t, n)[Decimal(n) := if Decimal(n) in t.fields then Printed(t.fields[Decimal(n)]) else Leaf(Null)]
  {
    assert IndexKeys(n + 1) == IndexKeys(n) + {Decimal(n)};
  }

  method CloneObject(o: JsObject) returns (c: JsObject)
    requires o.Valid() && !o.isArray
    ensures c.Valid() && fresh(c.Repr) && c.Tree() == Printed(o.Tree())
    decreases o.Repr, 1
  {
    ghost var tree, done := o.Tree(), {};
    ghost var printed := Printed(tree).fields;
    c := new JsObject(false);
    var todo := o.fields.Keys;
    while todo != {}
      invariant done == o.fields.Keys - todo && todo <= o.fields.Keys
      invariant c.Valid() && fresh(c.Repr) && !c.isArray && o.Tree() == tree
      invariant c.Tree().fields == Restrict(printed, done)
      decreases todo
    {
      var k :| k in todo;
      RestrictStep(printed, done, k);
      CopyKey(c, o, k);
      todo, done := todo - {k}, done + {k};
    }
    assert Restrict(printed, printed.Keys) == printed;
  }

  method CopyKey(c: JsObject, o: JsObject, k: string)
    requires c.Valid() && o.Valid() && c.Repr !! o.Repr && k in o.fields
    modifies c
    ensures c.Valid() && fresh(c.Repr - old(c.Repr))
    ensures c.Tree() == Json.Tree(c.isArray, old(c.Tree()).fields[k := Printed(old(o.Tree()).fields[k])])
    decreases o.Repr, 0
  {
    ghost var before, printed := c.Tree().fields, Printed(o.Tree().fields[k]);
    assert o.Child(k) && o.Tree().fields[k] == o.Branch(k);
    match o.fields[k] {
      case Prim(s) =>
        assert printed == Leaf(s);
        c.PutScalar(k, s);
      case Ref(child) =>
        var copy := Clone(child);
        assert c.Tree().fields == before && copy.Tree() == printed;
        c.PutObject(k, copy);
    }
  }

  ghost function Restrict(m: map<string, Json>, keys: set<string>): map<string, Json> {
    map k | k in m && k in keys :: m[k]
  }

  lemma RestrictStep(m: map<string, Json>, keys: set<string>, k: string)
    requires k in m
    ensures Restrict(m, keys + {k}) == Restrict(m, keys)[k := m[k]]
  {
  }

  // ---- the merge ----

  /** The keys in `done` have been merged, the others are as they were. */
  ghost function Partly(before: Json, addition: Json, done: set<string>): map<string, Json>
    requires before.Tree? && addition.Tree? && done <= addition.fields.Keys
  {
    map k | k in before.fields.Keys + done ::
      if k in done then Choose(Get(before, k), addition.fields[k]) else before.fields[k]
  }

  lemma PartlyStep(before: Json, addition: Json, done: set<string>, k: string, at: Json)
    requires before.Tree? && addition.Tree? && done <= addition.fields.Keys && k in addition.fields && k !in done
    requires at.Tree? && at.fields == Partly(before, addition, done)
    ensures Partly(before, addition, done + {k}) == at.fields[k := Choose(Get(at, k), addition.fields[k])]
  {
    assert Get(at, k) == Get(before, k);
  }

  lemma PartlyAll(before: Json, addition: Json)
    requires before.Tree? && addition.Tree?
    ensures Partly(before, addition, addition.fields.Keys) == Merge(before, addition).fields
  {
  }

  /** One addition merged into `result`, in place. */
  method MergeInto(result: JsObject, addition: JsObject)
    requires result.Valid() && addition.Valid() && result.Repr !! addition.Repr
    modifies result.Repr
    ensures result.Valid() && fresh(result.Repr - old(result.Repr))
    ensures result.Tree() == Merge(old(result.Tree()), old(addition.Tree()))
    decreases addition.Repr, 2
  {
    ghost var before, added := result.Tree(), addition.Tree();
    ghost var done := {};
    var todo := addition.fields.Keys;
    while todo != {}
      invariant done == addition.fields.Keys - todo && todo <= addition.fields.Keys
      invariant result.Valid() && fresh(result.Repr - old(result.Repr))
      invariant addition.Valid() && addition.Tree() == added
      invariant result.Tree().fields == Partly(before, added, done)
      decreases todo
    {
      var k :| k in todo;
      PartlyStep(before, added, done, k, result.Tree());
      MergeKey(result, addition, k);
      todo, done := todo - {k}, done + {k};
    }
    assert done == added.fields.Keys;
    PartlyAll(before, added);
  }

  /** The body of the inner loop for one key. */
  method MergeKey(result: JsObject, addition: JsObject, key: string)
    requires result.Valid() && addition.Valid() && result.Repr !! addition.Repr && key in addition.fields
    modifies result.Repr
    ensures result.Valid() && fresh(result.Repr - old(result.Repr))
    ensures result.Tree() == Json.Tree(result.isArray,
              old(result.Tree()).fields[key := Choose(Get(old(result.Tree()), key), old(addition.Tree()).fields[key])])
    decreases addition.Repr, 1
  {
    ghost var present, added := Get(result.Tree(), key), addition.Tree().fields[key];
    assert addition.Child(key) && added == addition.Branch(key);
    match addition.fields[key] {
      case Prim(s) =>
        assert Choose(present, added) == Leaf(s);
        result.PutScalar(key, s);
      case Ref(child) =>
        if key in result.fields && result.fields[key].Ref? {
          assert result.Child(key) && result.Tree().fields[key] == result.Branch(key);
          assert Choose(present, added) == Merge(present.value, child.Tree());
          MergeChild(result, key, child);
        } else {
          assert key in result.fields ==> result.Tree().fields[key] == result.Branch(key);
          var copy := Clone(child);
          assert Choose(present, added) == copy.Tree();
          result.PutObject(key, copy);
        }
    }
  }

  /** Both sides have an object under `key`: the one in `result` is merged into where it stands. */
  method MergeChild(result: JsObject, key: string, addition: JsObject)
    requires result.Valid() && key in result.fields && result.fields[key].Ref?
    requires addition.Valid() && result.Repr !! addition.Repr
    modifies result.Repr
    ensures result.Valid() && fresh(result.Repr - old(result.Repr)) && result.fields == old(result.fields)
    ensures old(result.Tree()).fields[key].Tree?
    ensures result.Tree() == Json.Tree(result.isArray,
              old(result.Tree()).fields[key := Merge(old(result.Tree()).fields[key], old(addition.Tree()))])
    decreases addition.Repr, 3
  {
    var child := result.fields[key].target;
    ghost var before := result.Tree();
    assert result.Child(key) && before.fields[key] == result.Branch(key) == child.Tree();
    ghost var merged := Merge(child.Tree(), addition.Tree());
    MergeInto(child, addition);
    assert child.Tree() == merged;
    result.Repr := result.Repr + child.Repr;
    forall k | k in result.fields && k != key
      ensures Kept(result, k, before.fields[k]) && result.Apart(k, key) && result.Apart(key, k)
      ensures result.fields[k].Ref? ==> result.fields[k].target.Repr == old(result.fields[k].target.Repr)
    {
      assert old(result.Child(k)) && old(result.Apart(k, key));
      assert before.fields[k] == old(result.Branch(k));
    }
    forall k, l | k in result.fields && l in result.fields && k != l ensures result.Apart(k, l) {
      assert old(result.Apart(k, l));
    }
    Reassembled(result, before.fields[key := merged]);
  }

  /** What stands under `k` is a proper child, or a scalar, that shows `t`. */
  ghost predicate Kept(o: JsObject, k: string, t: Json)
    requires k in o.fields
    reads o, o.Repr
  {
    match o.fields[k]
    case Prim(s) => t == Leaf(s)
    case Ref(c) => o.Child(k) && c.Tree() == t
  }

  lemma Reassembled(o: JsObject, trees: map<string, Json>)
    requires o in o.Repr && o.fields.Keys == trees.Keys && (o.isArray ==> IsLength(o.fields.Keys, o.length))
    requires forall k :: k in o.fields ==> Kept(o, k, trees[k])
    requires forall k, l :: k in o.fields && l in o.fields && k != l ==> o.Apart(k, l)
    ensures o.Valid() && o.Tree() == Json.Tree(o.isArray, trees)
  {
    forall k | k in o.fields ensures o.Child(k) { assert Kept(o, k, trees[k]); }
    forall k | k in o.fields ensures o.Branch(k) == trees[k] { assert Kept(o, k, trees[k]); }
    assert o.Tree().fields == trees;
  }

  /**
   * Why result and addition must not share. The addition's `y` is the result's own `x`: after the loop's turn for
   * `x` has changed it, its turn for `y` copies what is there now. The merge of the trees has the old part at `y`.
   */
  method MergeSharedPart(result: JsObject, addition: JsObject, x: string, y: string)
    requires result.Valid() && addition !in result.Repr && x != y && x in result.fields && y !in result.fields
    requires x in addition.fields && y in addition.fields
    requires addition.fields[x].Ref? && addition.fields[x].target.Valid()
    requires addition.fields[x].target.Repr !! result.Repr
    requires addition.fields[y].Ref? && addition.fields[y] == result.fields[x]
    modifies result.Repr
    ensures result.Valid() && old(result.Tree()).fields[x].Tree?
    ensures result.Tree() ==
      var merged := Merge(old(result.Tree()).fields[x], old(addition.fields[x].target.Tree()));
      Json.Tree(result.isArray, old(result.Tree()).fields[x := merged][y := Printed(merged)])
  {
    ghost var before := result.Tree();
    MergeChild(result, x, addition.fields[x].target);
    assert result.Child(x) && result.Tree().fields[x] == result.Branch(x);
    var copy := Clone(addition.fields[y].target);
    result.PutObject(y, copy);
  }

  ghost predicate Disjoint(a: JsObject, b: JsObject)
    reads a, b
  {
    a.Repr !! b.Repr
  }

  /** From `n` on, each tree shares no object with any tree before it. */
  ghost predicate Separate(pool: seq<JsObject>, n: nat)
    reads pool, set o, x | o in pool && x in o.Repr :: x
  {
    forall i, j :: 0 <= i < j < |pool| && n <= j ==> Disjoint(pool[i], pool[j])
  }

  /** The pool's objects stand for these trees, in this order. */
  ghost predicate Shows(pool: seq<JsObject>, trees: seq<Json>)
    reads pool, set o, x | o in pool && x in o.Repr :: x
  {
    |pool| == |trees| && forall i :: 0 <= i < |pool| ==> pool[i].Valid() && pool[i].Tree() == trees[i]
  }

  /** All additions in order; they may be the same object more than once. */
  method Apply(result: JsObject, additions: seq<JsObject>, ghost trees: seq<Json>)
    requires result.Valid() && Shows(additions, trees)
    requires forall i :: 0 <= i < |additions| ==> Disjoint(result, additions[i])
    modifies result.Repr
    ensures result.Valid() && fresh(result.Repr - old(result.Repr))
    ensures forall t :: t in trees ==> t.Tree?
    ensures result.Tree() == MergeAll(old(result.Tree()), trees)
  {
    for i := 0 to |additions|
      invariant result.Valid() && fresh(result.Repr - old(result.Repr)) && Shows(additions, trees)
      invariant forall j :: 0 <= j < |additions| ==> Disjoint(result, additions[j])
      invariant forall t :: t in trees[..i] ==> t.Tree?
      invariant result.Tree() == MergeAll(old(result.Tree()), trees[..i])
    {
      assert Disjoint(result, additions[i]);
      MergeInto(result, additions[i]);
      assert trees[..i + 1] == trees[..i] + [trees[i]] && trees[..i + 1][..i] == trees[..i];
    }
    assert trees[..|additions|] == trees;
  }

  /** `deepMerge({}, base, additions)` on trees. */
  ghost function Extend(base: Json, additions: Json): (r: Json)
    requires base.Tree? && additions.Tree?
    ensures r.Tree? && !r.isArray
  {
    Merge(Merge(EMPTY, base), additions)
  }

  /** `extendConfig`: nothing that existed before is written, and the result shares nothing with it. */
  method ExtendConfig(additions: JsObject, base: JsObject) returns (config: JsObject)
    requires additions.Valid() && base.Valid()
    ensures config.Valid() && fresh(config.Repr)
    ensures config.Tree() == Extend(old(base.Tree()), old(additions.Tree()))
  {
    ghost var b, a := base.Tree(), additions.Tree();
    config := new JsObject(false);
    assert base.Tree() == b && additions.Tree() == a;
    ApplyBoth(config, base, additions);
  }

  /** For a base that has been read from JSON text this is the plain merge. */
  lemma ExtendValue(base: Json, additions: Json)
    requires base.Tree? && !base.isArray && additions.Tree?
    ensures Extend(base, additions) == Merge(Printed(base), additions)
    ensures Parsed(base) ==> Extend(base, additions) == Merge(base, additions)
  {
    MergeIdentity(base);
    PrintedIff(base);
  }

  method ApplyBoth(config: JsObject, base: JsObject, additions: JsObject)
    requires config.Valid() && config.Tree() == EMPTY && base.Valid() && additions.Valid()
    requires Disjoint(config, base) && Disjoint(config, additions)
    modifies config.Repr
    ensures config.Valid() && fresh(config.Repr - old(config.Repr))
    ensures config.Tree() == Extend(old(base.Tree()), old(additions.Tree()))
  {
    ghost var b, a := base.Tree(), additions.Tree();
    MergeAllTwo(EMPTY, b, a);
    Apply(config, [base, additions], [b, a]);
  }

  lemma MergeAllTwo(result: Json, first: Json, second: Json)
    requires result.Tree? && first.Tree? && second.Tree?
    ensures MergeAll(result, [first, second]) == Merge(Merge(result, first), second)
  {
    assert [first, second][..1] == [first] && [first][..0] == [];
    assert MergeAll(result, [first]) == Merge(MergeAll(result, []), first);
  }

  /** A step extends pool object `base` by pool object `additions`; its result joins the pool. */
  datatype Extension = Extension(additions: nat, base: nat)

  ghost predicate Extensible(trees: seq<Json>, steps: seq<Extension>) {
    && (forall i :: 0 <= i < |trees| ==> trees[i].Tree?)
    && (forall i :: 0 <= i < |steps| ==> steps[i].additions < |trees| + i && steps[i].base < |trees| + i)
  }

  /** The same session on values. */
  ghost function Extended(trees: seq<Json>, steps: seq<Extension>): (r: seq<Json>)
    requires Extensible(trees, steps)
    ensures |r| == |trees| + |steps| && trees <= r
    ensures forall i :: 0 <= i < |r| ==> r[i].Tree?
    decreases |steps|
  {
    if steps == [] then trees
    else
      var init := Extended(trees, steps[..|steps| - 1]);
      var s := steps[|steps| - 1];
      init + [Extend(init[s.base], init[s.additions])]
  }

  lemma ExtendedStep(trees: seq<Json>, steps: seq<Extension>)
    requires steps != [] && Extensible(trees, steps)
    ensures var init, s := Extended(trees, steps[..|steps| - 1]), steps[|steps| - 1];
      Extended(trees, steps) == init + [Extend(init[s.base], init[s.additions])]
  {
  }

  lemma ArrayFreeExtend(base: Json, additions: Json)
    requires base.Tree? && additions.Tree? && NoArrays(base) && NoArrays(additions)
    ensures Extend(base, additions) == Merge(base, additions) && NoArrays(Merge(base, additions))
  {
    NoArraysParsed(base);
    ExtendValue(base, additions);
    NoArraysMerge(base, additions);
  }

  predicate AllArrayFree(trees: seq<Json>) {
    forall i :: 0 <= i < |trees| ==> NoArrays(trees[i])
  }

  /** The `i`-th result of a session on `n` objects is the plain merge of its base and its additions. */
  ghost predicate PlainAt(r: seq<Json>, n: nat, step: Extension, i: nat)
    requires n + i < |r| && step.base < |r| && step.additions < |r|
    requires r[step.base].Tree? && r[step.additions].Tree?
  {
    r[n + i] == Merge(r[step.base], r[step.additions])
  }

  /** Without arrays nothing is lost in printing: every config is the plain merge of its base and additions. */
  lemma {:induction false} ArrayFreeSession(trees: seq<Json>, steps: seq<Extension>)
    requires Extensible(trees, steps) && AllArrayFree(trees)
    ensures AllArrayFree(Extended(trees, steps))
    ensures forall i :: 0 <= i < |steps| ==> PlainAt(Extended(trees, steps), |trees|, steps[i], i)
    decreases |steps|
  {
    if steps != [] {
      var last := |steps| - 1;
      var init, s, r := Extended(trees, steps[..last]), steps[last], Extended(trees, steps);
      ArrayFreeSession(trees, steps[..last]);
      ExtendedStep(trees, steps);
      ArrayFreeExtend(init[s.base], init[s.additions]);
      forall i | 0 <= i < |steps| ensures PlainAt(r, |trees|, steps[i], i) {
        if i < last { assert PlainAt(init, |trees|, steps[..last][i], i); }
      }
    }
  }

  /** From `n` on, the trees consist of objects in `made`. */
  ghost predicate Consist(pool: seq<JsObject>, n: nat, made: set<JsObject>)
    reads pool
  {
    forall i :: n <= i < |pool| ==> pool[i].Repr <= made
  }

  method ExtendPool(pool: seq<JsObject>, n: nat, step: Extension, ghost trees: seq<Json>, ghost made: set<JsObject>)
    returns (all: seq<JsObject>, ghost more: set<JsObject>)
    requires Separate(pool, n) && Shows(pool, trees) && Consist(pool, n, made)
    requires step.additions < |pool| && step.base < |pool|
    ensures |all| == |pool| + 1 && pool <= all && Separate(all, n)
    ensures made <= more && fresh(more - made) && Consist(all, n, more)
    ensures trees[step.base].Tree? && trees[step.additions].Tree?
    ensures Shows(all, trees + [Extend(trees[step.base], trees[step.additions])])
  {
    var config := ExtendConfig(pool[step.additions], pool[step.base]);
    all, more := pool + [config], made + config.Repr;
  }

  /**
   * No session of `extendConfig` calls, each free to use the default, a caller's object or any earlier result as
   * base or as additions, changes an object or makes a result share one with anything else. The objects it starts
   * from may share parts with each other.
   */
  method Session(pool: seq<JsObject>, steps: seq<Extension>, ghost trees: seq<Json>)
    returns (all: seq<JsObject>, ghost made: set<JsObject>)
    requires Shows(pool, trees) && Extensible(trees, steps)
    ensures |all| == |pool| + |steps| && pool <= all
    ensures Separate(all, |pool|) && Shows(all, Extended(trees, steps))
    ensures fresh(made) && Consist(all, |pool|, made)
    decreases |steps|
  {
    if steps == [] {
      all, made := pool, {};
    } else {
      var last := |steps| - 1;
      all, made := Session(pool, steps[..last], trees);
      ExtendedStep(trees, steps);
      all, made := ExtendPool(all, |pool|, steps[last], Extended(trees, steps[..last]), made);
    }
  }

  // ---- changing a setting ----

  /** `o.a.b.c = s`, through the objects on the way. */
  method SetAt(o: JsObject, path: seq<string>, s: Scalar)
    requires o.Valid() && HasParent(o.Tree(), path)
    modifies o.Repr
    ensures o.Valid() && o.Repr == old(o.Repr)
    ensures HasParent(old(o.Tree()), path) && o.Tree() == Assigned(old(o.Tree()), path, s)
    decreases |path|
  {
    ghost var before := o.Tree();
    var key := path[0];
    if |path| == 1 {
      o.PutScalar(key, s);
    } else {
      assert o.Child(key) && before.fields[key] == o.Branch(key);
      var child := o.fields[key].target;
      SetAt(child, path[1..], s);
      forall k | k in o.fields && k != key
        ensures Kept(o, k, before.fields[k])
        ensures o.fields[k].Ref? ==> o.fields[k].target.Repr == old(o.fields[k].target.Repr)
      {
        assert old(o.Child(k)) && old(o.Apart(k, key));
        assert before.fields[k] == old(o.Branch(k));
      }
      forall k, l | k in o.fields && l in o.fields && k != l ensures o.Apart(k, l) {
        assert old(o.Apart(k, l));
      }
      Reassembled(o, before.fields[key := Assigned(before.fields[key], path[1..], s)]);
    }
  }

  /** Changing a setting of a result afterwards, however deep, is invisible in every other object. */
  method ChangeSetting(pool: seq<JsObject>, n: nat, i: nat, path: seq<string>, value: Scalar, ghost trees: seq<Json>)
    requires Separate(pool, n) && Shows(pool, trees) && n <= i < |pool| && HasParent(trees[i], path)
    modifies pool[i].Repr
    ensures Separate(pool, n) && Shows(pool, trees[i := Assigned(trees[i], path, value)])
  {
    forall j | 0 <= j < |pool| && j != i ensures pool[i].Repr !! pool[j].Repr && pool[j].Valid() && j < |trees| {
      assert Disjoint(pool[if i < j then i else j], pool[if i < j then j else i]);
    }
    SetAt(pool[i], path, value);
    forall j | 0 <= j < |pool| && j != i ensures unchanged(pool[j].Repr) {
      assert old(pool[j].Valid());
    }
  }
}

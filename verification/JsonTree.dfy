/** JSON trees, and what JSON.parse(JSON.stringify(_)) makes of one. */
module JsonTrees {
  import opened Wrappers
  import opened ArrayIndices

  datatype Scalar = Null | Bool(b: bool) | Number(n: real) | Text(s: string)

  /**
   * Arrays are read as index-keyed objects that remember their kind. Assignments can give one other keys as well, or
   * leave holes.
   */
  datatype Json = Leaf(scalar: Scalar) | Tree(isArray: bool, fields: map<string, Json>)

  const EMPTY := Tree(false, map[])

  function Get(t: Json, key: string): Option<Json> {
    if t.Tree? && key in t.fields then Some(t.fields[key]) else None
  }

  /** The value at the end of a path of keys, if the path exists. */
  function Lookup(t: Json, path: seq<string>): Option<Json> {
    if path == [] then Some(t)
    else if Get(t, path[0]).None? then None
    else Lookup(Get(t, path[0]).value, path[1..])
  }

  /** The tree after it has been printed as JSON text and read again: of an array only the indices are printed. */
  ghost function Printed(t: Json): (r: Json)
    ensures r.Tree? == t.Tree? && (t.Tree? ==> r.isArray == t.isArray)
    decreases t, 1
  {
    if t.Leaf? then t
    else if t.isArray then Tree(true, PrintedItems(t, Length(t.fields.Keys)))
    else Tree(false, map k | k in t.fields :: Printed(t.fields[k]))
  }

  /** The first `n` items; a hole is printed as null. */
  ghost function PrintedItems(t: Json, n: nat): (r: map<string, Json>)
    requires t.Tree?
    ensures r.Keys == IndexKeys(n)
    decreases t, 0
  {
    map k | k in IndexKeys(n) :: if k in t.fields then Printed(t.fields[k]) else Leaf(Null)
  }

  /** The trees JSON.parse can return: every array has exactly its indices as keys. */
  ghost predicate Parsed(t: Json) {
    t.Tree? ==>
      && (t.isArray ==> Dense(t.fields.Keys))
      && forall k :: k in t.fields ==> Parsed(t.fields[k])
  }

  ghost predicate Dense(keys: set<string>) {
    keys == IndexKeys(Length(keys))
  }

  lemma PrintedField(t: Json, k: string)
    requires t.Tree? && k in Printed(t).fields
    ensures Printed(t).fields[k] == if k in t.fields then Printed(t.fields[k]) else Leaf(Null)
  {
    if t.isArray {
      var items := PrintedItems(t, Length(t.fields.Keys));
      assert Printed(t).fields == items;
      assert items[k] == if k in t.fields then Printed(t.fields[k]) else Leaf(Null);
    }
  }

  /** `k` is the index `i`, and `j` is an index in use that is no smaller. */
  predicate IndexUpTo(keys: set<string>, k: string, i: nat, j: nat) {
    i <= j < 4294967295 && k == Decimal(i) && Decimal(j) in keys
  }

  lemma InLengthIff(keys: set<string>, k: string)
    ensures k in IndexKeys(Length(keys)) <==> exists i, j :: IndexUpTo(keys, k, i, j)
  {
    var n := Length(keys);
    if k in IndexKeys(n) {
      var i: nat :| i < n && k == Decimal(i);
      assert HasIndex(keys, n - 1);
      assert IndexUpTo(keys, k, i, n - 1);
    }
    if i, j :| IndexUpTo(keys, k, i, j) {
      assert HasIndex(keys, j);
      assert i < n;
    }
  }

  /**
   * What is printed under a key: a leaf is itself and an object keeps its keys; of an array exactly the indices up to
   * the greatest one, below 2^32 - 1, with null for every hole.
   */
  lemma PrintedGet(t: Json, k: string)
    ensures t.Leaf? ==> Printed(t) == t
    ensures t.Tree? && !t.isArray ==>
      Get(Printed(t), k) == if k in t.fields then Some(Printed(t.fields[k])) else None
    ensures t.Tree? && t.isArray ==>
      Get(Printed(t), k) ==
        if exists i, j :: IndexUpTo(t.fields.Keys, k, i, j)
        then Some(if k in t.fields then Printed(t.fields[k]) else Leaf(Null)) else None
  {
    if t.Tree? && k in Printed(t).fields { PrintedField(t, k); }
    if t.Tree? && t.isArray { InLengthIff(t.fields.Keys, k); }
  }

  /** Printing and reading again changes nothing exactly on the trees that have been read. */
  lemma {:induction false} PrintedIff(t: Json)
    ensures Printed(t) == t <==> Parsed(t)
  {
    if t.Tree? {
      var p := Printed(t);
      forall k | k in t.fields && k in p.fields ensures p.fields[k] == t.fields[k] <==> Parsed(t.fields[k]) {
        PrintedIff(t.fields[k]);
        PrintedField(t, k);
      }
      assert p.fields.Keys == if t.isArray then IndexKeys(Length(t.fields.Keys)) else t.fields.Keys;
      if Parsed(t) { assert p.fields == t.fields; }
    }
  }

  /** And what comes out is such a tree. */
  lemma {:induction false} PrintedIsParsed(t: Json)
    ensures Parsed(Printed(t)) && Printed(Printed(t)) == Printed(t)
  {
    if t.Tree? {
      var p := Printed(t);
      forall k | k in p.fields ensures Parsed(p.fields[k]) {
        PrintedField(t, k);
        if k in t.fields { PrintedIsParsed(t.fields[k]); }
      }
      if t.isArray { LengthOfIndexKeys(Length(t.fields.Keys)); }
    }
    PrintedIff(Printed(t));
  }
}

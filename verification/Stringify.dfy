/**
 * `getStringifiedData`: JSON.stringify over an object graph, with a replacer that lets every object through
 * once and spells out errors.
 *
 * The graph may contain cycles and sharing. Getters, `toJSON` methods and bigints are not part of the model.
 */
module Stringify {
  import opened Wrappers

  type Id = nat

  /** `Undefined` also stands for functions and symbols, which JSON leaves out in the same way. */
  datatype Value = Undefined | Prim(text: string) | Ref(id: Id)

  datatype Property = Property(name: string, value: Value, enumerable: bool)

  datatype Kind = Plain | Array | Error

  datatype Node = Node(kind: Kind, properties: seq<Property>)

  type Graph = map<Id, Node>

  /** What is printed for a value; `id` tells which object an expansion came from. */
  datatype Output = Text(text: string) | Object(id: Id, isArray: bool, members: seq<Member>)

  datatype Member = Member(name: string, output: Output)

  predicate Closed(g: Graph) {
    forall x :: x in g ==> Within(g[x].properties, g.Keys)
  }

  /** Every object among the properties is in `ids`. */
  predicate Within(ps: seq<Property>, ids: set<Id>) {
    forall i :: 0 <= i < |ps| && ps[i].value.Ref? ==> ps[i].value.id in ids
  }

  /** The properties JSON.stringify is shown: the replacer copies all own properties of an error. */
  function Shown(n: Node): (ps: seq<Property>)
    ensures forall ids :: Within(n.properties, ids) ==> Within(ps, ids)
  {
    if n.kind.Error? then n.properties else Enumerable(n.properties)
  }

  function Enumerable(ps: seq<Property>): (r: seq<Property>)
    ensures forall p :: p in r <==> p in ps && p.enumerable
    ensures forall ids :: Within(ps, ids) ==> Within(r, ids)
  {
    if ps == [] then []
    else
      var rest := Enumerable(ps[1..]);
      assert ps == [ps[0]] + ps[1..];
      if ps[0].enumerable then [ps[0]] + rest else rest
  }

  // ---- the walk, as a function ----

  /** What a left-out value becomes: nothing in an object, null in an array. */
  function Omitted(isArray: bool, name: string): seq<Member> {
    if isArray then [Member(name, Text("null"))] else []
  }

  datatype Walked = Walked(members: seq<Member>, seen: set<Id>)

  function Walk(g: Graph, isArray: bool, ps: seq<Property>, seen: set<Id>): (w: Walked)
    requires Closed(g) && Within(ps, g.Keys)
    ensures seen <= w.seen
    decreases g.Keys - seen, |ps|
  {
    if ps == [] then Walked([], seen)
    else
      var first := WalkOne(g, isArray, ps[0], seen);
      var rest := Walk(g, isArray, ps[1..], first.seen);
      Walked(first.members + rest.members, rest.seen)
  }

  function WalkOne(g: Graph, isArray: bool, p: Property, seen: set<Id>): (w: Walked)
    requires Closed(g) && Within([p], g.Keys)
    ensures seen <= w.seen
    decreases g.Keys - seen, 0
  {
    match p.value
    case Undefined => Walked(Omitted(isArray, p.name), seen)
    case Prim(text) => Walked([Member(p.name, Text(text))], seen)
    case Ref(x) =>
      assert [p][0] == p;
      if x in seen then Walked(Omitted(isArray, p.name), seen)
      else
        var inner := Walk(g, g[x].kind.Array?, Shown(g[x]), seen + {x});
        Walked([Member(p.name, Object(x, g[x].kind.Array?, inner.members))], inner.seen)
  }

  /** The expanded objects of an output, in the order they are printed. */
  function Expanded(o: Output): seq<Id> {
    match o case Text(_) => [] case Object(x, _, members) => [x] + ExpandedAll(members)
  }

  function ExpandedAll(ms: seq<Member>): seq<Id> {
    if ms == [] then [] else Expanded(ms[0].output) + ExpandedAll(ms[1..])
  }

  // ---- the reference: depth-first preorder without a visited set ----

  /**
   * All objects met when the graph is unfolded into a tree in property order, cutting only where an object
   * would contain itself. Shared objects appear once for every way to reach them.
   */
  function Unfold(g: Graph, ps: seq<Property>, path: set<Id>): seq<Id>
    requires Closed(g) && Within(ps, g.Keys)
    decreases g.Keys - path, |ps|
  {
    if ps == [] then []
    else UnfoldOne(g, ps[0], path) + Unfold(g, ps[1..], path)
  }

  function UnfoldOne(g: Graph, p: Property, path: set<Id>): seq<Id>
    requires Closed(g) && Within([p], g.Keys)
    decreases g.Keys - path, 0
  {
    if !p.value.Ref? || p.value.id in path then []
    else
      assert [p][0] == p;
      [p.value.id] + Unfold(g, Shown(g[p.value.id]), path + {p.value.id})
  }

  /** The first occurrence of each id that is not in `seen`. */
  function FirstOccurrences(ids: seq<Id>, seen: set<Id>): seq<Id> {
    if ids == [] then []
    else if ids[0] in seen then FirstOccurrences(ids[1..], seen)
    else [ids[0]] + FirstOccurrences(ids[1..], seen + {ids[0]})
  }

  function Elements(ids: seq<Id>): set<Id> {
    set x | x in ids
  }

  lemma {:induction false} FirstOccurrencesAppend(a: seq<Id>, b: seq<Id>, seen: set<Id>)
    ensures FirstOccurrences(a + b, seen) == FirstOccurrences(a, seen) + FirstOccurrences(b, seen + Elements(a))
  {
    if a == [] {
      assert a + b == b && seen + Elements(a) == seen;
    } else {
      var seen' := seen + {a[0]};
      FirstOccurrencesAppend(a[1..], b, seen');
      assert (a + b)[1..] == a[1..] + b;
      assert a == [a[0]] + a[1..];
      assert seen' + Elements(a[1..]) == seen + Elements(a);
      if a[0] in seen { assert seen' == seen; }
    }
  }

  lemma {:induction false} FirstOccurrencesNone(a: seq<Id>, seen: set<Id>)
    requires Elements(a) <= seen
    ensures FirstOccurrences(a, seen) == []
  {
    if a != [] {
      assert a[0] in Elements(a);
      assert Elements(a[1..]) <= Elements(a);
      FirstOccurrencesNone(a[1..], seen);
    }
  }

  /** No id twice, none from `seen`, and nothing lost. */
  lemma {:induction false} FirstOccurrencesExactlyOnce(a: seq<Id>, seen: set<Id>)
    ensures var f := FirstOccurrences(a, seen);
      && (forall i, j :: 0 <= i < j < |f| ==> f[i] != f[j])
      && Elements(f) == Elements(a) - seen
  {
    if a != [] {
      var rest := FirstOccurrences(a[1..], seen + {a[0]});
      assert a == [a[0]] + a[1..];
      FirstOccurrencesExactlyOnce(a[1..], seen);
      FirstOccurrencesExactlyOnce(a[1..], seen + {a[0]});
      assert forall i :: 0 <= i < |rest| ==> rest[i] in Elements(rest);
      if a[0] !in seen { assert Elements([a[0]] + rest) == {a[0]} + Elements(rest); }
    }
  }

  // ---- the walk meets the reference ----

  /** Seen objects that are not on the current path have been walked completely. */
  predicate Complete(g: Graph, seen: set<Id>, path: set<Id>)
    requires Closed(g)
  {
    path <= seen <= g.Keys && forall x :: x in seen && x !in path ==> Within(Shown(g[x]), seen)
  }

  lemma {:induction false} UnfoldStaysSeen(g: Graph, ps: seq<Property>, seen: set<Id>, path: set<Id>)
    requires Closed(g) && Within(ps, g.Keys) && Complete(g, seen, path) && Within(ps, seen)
    ensures Elements(Unfold(g, ps, path)) <= seen
    decreases g.Keys - path, |ps|
  {
    if ps != [] {
      UnfoldStaysSeen(g, ps[1..], seen, path);
      var p := ps[0];
      if p.value.Ref? && p.value.id !in path {
        UnfoldStaysSeen(g, Shown(g[p.value.id]), seen, path + {p.value.id});
      }
    }
  }

  lemma {:induction false} WalkOneMeetsUnfold(g: Graph, isArray: bool, p: Property, seen: set<Id>, path: set<Id>)
    requires Closed(g) && Within([p], g.Keys) && Complete(g, seen, path)
    ensures var w := WalkOne(g, isArray, p, seen); var u := UnfoldOne(g, p, path);
      && ExpandedAll(w.members) == FirstOccurrences(u, seen)
      && w.seen == seen + Elements(u)
      && Complete(g, w.seen, path) && Within([p], w.seen)
    decreases g.Keys - seen, 0
  {
    if p.value.Ref? {
      var x := p.value.id;
      assert [p][0] == p;
      if x in seen {
        SeenAddsNothing(g, p, seen, path);
      } else {
        var inner := Walk(g, g[x].kind.Array?, Shown(g[x]), seen + {x});
        var u := Unfold(g, Shown(g[x]), path + {x});
        WalkMeetsUnfold(g, g[x].kind.Array?, Shown(g[x]), seen + {x}, path + {x});
        ExpandedObject(p.name, x, g[x].kind.Array?, inner.members);
        FirstIsNew(x, u, seen);
      }
    }
  }

  lemma SeenAddsNothing(g: Graph, p: Property, seen: set<Id>, path: set<Id>)
    requires Closed(g) && Within([p], g.Keys) && Complete(g, seen, path) && p.value.Ref? && p.value.id in seen
    ensures FirstOccurrences(UnfoldOne(g, p, path), seen) == [] && Elements(UnfoldOne(g, p, path)) <= seen
  {
    var x := p.value.id;
    assert [p][0] == p;
    if x !in path { UnfoldStaysSeen(g, Shown(g[x]), seen, path + {x}); }
    FirstOccurrencesNone(UnfoldOne(g, p, path), seen);
  }

  lemma ExpandedObject(name: string, x: Id, isArray: bool, members: seq<Member>)
    ensures ExpandedAll([Member(name, Object(x, isArray, members))]) == [x] + ExpandedAll(members)
  {
    var o := Object(x, isArray, members);
    assert ExpandedAll([Member(name, o)]) == Expanded(o) + ExpandedAll([]);
  }

  lemma FirstIsNew(x: Id, u: seq<Id>, seen: set<Id>)
    requires x !in seen
    ensures FirstOccurrences([x] + u, seen) == [x] + FirstOccurrences(u, seen + {x})
    ensures Elements([x] + u) == {x} + Elements(u)
  {
    assert ([x] + u)[1..] == u;
  }

  lemma {:induction false} WalkMeetsUnfold(g: Graph, isArray: bool, ps: seq<Property>, seen: set<Id>, path: set<Id>)
    requires Closed(g) && Within(ps, g.Keys) && Complete(g, seen, path)
    ensures var w := Walk(g, isArray, ps, seen); var u := Unfold(g, ps, path);
      && ExpandedAll(w.members) == FirstOccurrences(u, seen)
      && w.seen == seen + Elements(u)
      && Complete(g, w.seen, path) && Within(ps, w.seen)
    decreases g.Keys - seen, |ps|
  {
    if ps != [] {
      var first := WalkOne(g, isArray, ps[0], seen);
      var rest := Walk(g, isArray, ps[1..], first.seen);
      var a, b := UnfoldOne(g, ps[0], path), Unfold(g, ps[1..], path);
      WithinSplits(ps, g.Keys);
      WalkOneMeetsUnfold(g, isArray, ps[0], seen, path);
      WalkMeetsUnfold(g, isArray, ps[1..], first.seen, path);
      FirstOccurrencesAppend(a, b, seen);
      ExpandedAppend(first.members, rest.members);
      assert Elements(a + b) == Elements(a) + Elements(b);
      WithinSplits(ps, rest.seen);
    }
  }

  lemma WithinSplits(ps: seq<Property>, ids: set<Id>)
    requires ps != []
    ensures Within(ps, ids) <==> Within([ps[0]], ids) && Within(ps[1..], ids)
  {
    assert ps == [ps[0]] + ps[1..];
    if Within([ps[0]], ids) { assert ps[0].value.Ref? ==> [ps[0]][0].value.id in ids; }
  }

  lemma {:induction false} ExpandedAppend(a: seq<Member>, b: seq<Member>)
    ensures ExpandedAll(a + b) == ExpandedAll(a) + ExpandedAll(b)
  {
    if a == [] {
      assert a + b == b;
    } else {
      ExpandedAppend(a[1..], b);
      assert (a + b)[0] == a[0] && (a + b)[1..] == a[1..] + b;
      Associative(Expanded(a[0].output), ExpandedAll(a[1..]), ExpandedAll(b));
    }
  }

  lemma Associative<T>(a: seq<T>, b: seq<T>, c: seq<T>)
    ensures (a + b) + c == a + (b + c)
  {
  }

  // ---- reachability ----

  /** A chain of objects, each shown by the one before it, the first by `ps`. */
  predicate Chain(g: Graph, ps: seq<Property>, chain: seq<Id>)
    decreases |chain|
  {
    chain != [] && chain[0] in g &&
    (exists i :: 0 <= i < |ps| && ps[i].value == Ref(chain[0])) &&
    (|chain| > 1 ==> Chain(g, Shown(g[chain[0]]), chain[1..]))
  }

  ghost predicate Reachable(g: Graph, ps: seq<Property>, x: Id) {
    exists chain :: Chain(g, ps, chain) && chain[|chain| - 1] == x
  }

  lemma {:induction false} ChainStaysSeen(g: Graph, ps: seq<Property>, chain: seq<Id>, seen: set<Id>)
    requires Closed(g) && Chain(g, ps, chain) && Complete(g, seen, {}) && Within(ps, seen)
    ensures chain[|chain| - 1] in seen
    decreases |chain|
  {
    if |chain| > 1 { ChainStaysSeen(g, Shown(g[chain[0]]), chain[1..], seen); }
  }

  lemma ReachableThrough(g: Graph, ps: seq<Property>, y: Id, x: Id)
    requires ps != [] && ps[0].value == Ref(y) && y in g && (x == y || Reachable(g, Shown(g[y]), x))
    ensures Reachable(g, ps, x)
  {
    if x == y {
      assert Chain(g, ps, [y]);
    } else {
      var chain :| Chain(g, Shown(g[y]), chain) && chain[|chain| - 1] == x;
      assert ([y] + chain)[1..] == chain;
      assert Chain(g, ps, [y] + chain);
    }
  }

  lemma ReachableLater(g: Graph, ps: seq<Property>, x: Id)
    requires ps != [] && Reachable(g, ps[1..], x)
    ensures Reachable(g, ps, x)
  {
    var chain :| Chain(g, ps[1..], chain) && chain[|chain| - 1] == x;
    var i :| 0 <= i < |ps[1..]| && ps[1..][i].value == Ref(chain[0]);
    assert ps[i + 1].value == Ref(chain[0]);
    assert Chain(g, ps, chain);
  }

  lemma {:induction false} UnfoldIsReachable(g: Graph, ps: seq<Property>, path: set<Id>, x: Id)
    requires Closed(g) && Within(ps, g.Keys) && x in Unfold(g, ps, path)
    ensures Reachable(g, ps, x)
    decreases g.Keys - path, |ps|
  {
    if x in Unfold(g, ps[1..], path) {
      UnfoldIsReachable(g, ps[1..], path, x);
      ReachableLater(g, ps, x);
    } else {
      assert x in UnfoldOne(g, ps[0], path);
      var y := ps[0].value.id;
      if x != y { UnfoldIsReachable(g, Shown(g[y]), path + {y}, x); }
      ReachableThrough(g, ps, y, x);
    }
  }

  /**
   * On every finite graph the walk expands each object reachable from the input's own properties exactly once,
   * at its first occurrence in depth-first preorder, and nothing else.
   */
  lemma ExpandsReachableOnce(g: Graph, ps: seq<Property>)
    requires Closed(g) && Within(ps, g.Keys)
    ensures var order := ExpandedAll(Walk(g, false, ps, {}).members);
      && order == FirstOccurrences(Unfold(g, ps, {}), {})
      && (forall i, j :: 0 <= i < j < |order| ==> order[i] != order[j])
      && (forall x :: x in order <==> Reachable(g, ps, x))
  {
    WalkMeetsUnfold(g, false, ps, {}, {});
    var u := Unfold(g, ps, {});
    var order := ExpandedAll(Walk(g, false, ps, {}).members);
    FirstOccurrencesExactlyOnce(u, {});
    forall x ensures x in order <==> Reachable(g, ps, x) {
      assert x in order <==> x in Elements(order);
      if x in order {
        assert x in u;
        UnfoldIsReachable(g, ps, {}, x);
      }
      if Reachable(g, ps, x) {
        var chain :| Chain(g, ps, chain) && chain[|chain| - 1] == x;
        ChainStaysSeen(g, ps, chain, Elements(u));
      }
    }
  }

  // ---- what is printed ----

  /** `at` lists, in order, the positions in `ps` of what is kept in `kept`. */
  predicate Keeps(ps: seq<Property>, kept: seq<Property>, at: seq<nat>) {
    && |at| == |kept| && (forall i, j :: 0 <= i < j < |at| ==> at[i] < at[j])
    && (forall k :: 0 <= k < |at| ==> at[k] < |ps| && kept[k] == ps[at[k]])
  }

  /** An error shows all its own properties, any other object exactly the enumerable ones, in their order. */
  lemma ShownAre(n: Node) returns (at: seq<nat>)
    ensures Keeps(n.properties, Shown(n), at)
    ensures forall i :: 0 <= i < |n.properties| ==> (i in at <==> n.kind.Error? || n.properties[i].enumerable)
  {
    if n.kind.Error? {
      at := seq(|n.properties|, i => i);
      forall i | 0 <= i < |n.properties| ensures i in at { assert at[i] == i; }
    } else {
      at := EnumerableAre(n.properties);
    }
  }

  lemma {:induction false} EnumerableAre(ps: seq<Property>) returns (at: seq<nat>)
    ensures Keeps(ps, Enumerable(ps), at)
    ensures forall i :: 0 <= i < |ps| ==> (i in at <==> ps[i].enumerable)
  {
    if ps == [] {
      at := [];
    } else {
      var rest := EnumerableAre(ps[1..]);
      KeepsLater(ps, Enumerable(ps[1..]), rest);
      at := if ps[0].enumerable then [0] + Later(rest) else Later(rest);
      forall i | 0 <= i < |ps| ensures i in at <==> ps[i].enumerable {
        LaterIndex(rest, i);
      }
    }
  }

  lemma KeepsLater(ps: seq<Property>, kept: seq<Property>, at: seq<nat>)
    requires ps != [] && Keeps(ps[1..], kept, at)
    ensures Keeps(ps, kept, Later(at)) && Keeps(ps, [ps[0]] + kept, [0] + Later(at))
  {
  }

  function Later(at: seq<nat>): (r: seq<nat>)
    ensures |r| == |at| && forall k :: 0 <= k < |at| ==> r[k] == at[k] + 1
  {
    seq(|at|, k requires 0 <= k < |at| => at[k] + 1)
  }

  lemma LaterIndex(at: seq<nat>, i: nat)
    ensures i in Later(at) <==> i > 0 && i - 1 in at
  {
    if i > 0 && i - 1 in at {
      var k :| 0 <= k < |at| && at[k] == i - 1;
      assert Later(at)[k] == i;
    }
  }

  /** What comes before property `i` is printed: what was there already, and all that earlier properties unfold to. */
  function Before(g: Graph, ps: seq<Property>, i: nat, path: set<Id>, seen: set<Id>): set<Id>
    requires Closed(g) && Within(ps, g.Keys) && i <= |ps|
  {
    assert forall j :: 0 <= j < i ==> ps[..i][j] == ps[j];
    seen + Elements(Unfold(g, ps[..i], path))
  }

  /**
   * `ms` is how JSON writes one property inside the objects `path`, when the objects `before` have been printed. The
   * name stays; a primitive keeps its text; an object that has not been printed is written out; anything else is left
   * out of an object and null in an array.
   */
  ghost predicate Prints(g: Graph, isArray: bool, p: Property, path: set<Id>, before: set<Id>, ms: seq<Member>)
    requires Closed(g) && Within([p], g.Keys)
    decreases g.Keys - path, 0
  {
    if p.value.Prim? then
      ms == [Member(p.name, Text(p.value.text))]
    else if p.value.Ref? && p.value.id !in before + path then
      assert [p][0] == p;
      && |ms| == 1 && ms[0].name == p.name && ms[0].output.Object? && ms[0].output.id == p.value.id
      && ms[0].output.isArray == g[p.value.id].kind.Array?
      && PrintsAll(g, ms[0].output.isArray, Shown(g[p.value.id]), path + {p.value.id}, before + {p.value.id},
                   ms[0].output.members)
    else
      ms == if isArray then [Member(p.name, Text("null"))] else []
  }

  /** The members of an object or array are what its properties print, one after the other. */
  ghost predicate PrintsAll(g: Graph, isArray: bool, ps: seq<Property>, path: set<Id>, seen: set<Id>, ms: seq<Member>)
    requires Closed(g) && Within(ps, g.Keys)
    decreases g.Keys - path, 1
  {
    exists parts: seq<seq<Member>> ::
      |parts| == |ps| && ms == Joined(parts) &&
      forall i :: 0 <= i < |ps| ==> PartPrints(g, isArray, ps, i, path, seen, parts[i])
  }

  ghost predicate PartPrints(g: Graph, isArray: bool, ps: seq<Property>, i: nat, path: set<Id>, seen: set<Id>,
                             part: seq<Member>)
    requires Closed(g) && Within(ps, g.Keys) && i < |ps|
    decreases g.Keys - path, 1, 0
  {
    Prints(g, isArray, ps[i], path, Before(g, ps, i, path, seen), part)
  }

  function Joined(parts: seq<seq<Member>>): seq<Member> {
    if parts == [] then [] else parts[0] + Joined(parts[1..])
  }

  lemma WalkOnePrints(g: Graph, isArray: bool, p: Property, path: set<Id>, seen: set<Id>)
    requires Closed(g) && Within([p], g.Keys) && Complete(g, seen, path)
    ensures Prints(g, isArray, p, path, seen, WalkOne(g, isArray, p, seen).members)
    decreases g.Keys - seen, 0
  {
    assert [p][0] == p;
    if p.value.Ref? && p.value.id !in seen {
      var x := p.value.id;
      WalkPrints(g, g[x].kind.Array?, Shown(g[x]), path + {x}, seen + {x});
    }
  }

  lemma {:induction false} WalkPrints(g: Graph, isArray: bool, ps: seq<Property>, path: set<Id>, seen: set<Id>)
    requires Closed(g) && Within(ps, g.Keys) && Complete(g, seen, path)
    ensures PrintsAll(g, isArray, ps, path, seen, Walk(g, isArray, ps, seen).members)
    decreases g.Keys - seen, |ps|
  {
    if ps == [] {
      var parts: seq<seq<Member>> := [];
      assert Joined(parts) == [];
    } else {
      var first := WalkOne(g, isArray, ps[0], seen);
      WithinSplits(ps, g.Keys);
      WalkOnePrints(g, isArray, ps[0], path, seen);
      WalkOneMeetsUnfold(g, isArray, ps[0], seen, path);
      WalkPrints(g, isArray, ps[1..], path, first.seen);
      PrintsMore(g, isArray, ps, path, seen, first, Walk(g, isArray, ps[1..], first.seen).members);
    }
  }

  lemma PrintsMore(g: Graph, isArray: bool, ps: seq<Property>, path: set<Id>, seen: set<Id>,
                   first: Walked, rest: seq<Member>)
    requires Closed(g) && Within(ps, g.Keys) && ps != [] && Within([ps[0]], g.Keys) && Within(ps[1..], g.Keys)
    requires Prints(g, isArray, ps[0], path, seen, first.members)
    requires first.seen == seen + Elements(UnfoldOne(g, ps[0], path))
    requires PrintsAll(g, isArray, ps[1..], path, first.seen, rest)
    ensures PrintsAll(g, isArray, ps, path, seen, first.members + rest)
  {
    var later :| |later| == |ps[1..]| && rest == Joined(later) &&
      forall i :: 0 <= i < |ps[1..]| ==> PartPrints(g, isArray, ps[1..], i, path, first.seen, later[i]);
    var parts := [first.members] + later;
    assert parts[1..] == later;
    forall i | 0 <= i < |ps| ensures PartPrints(g, isArray, ps, i, path, seen, parts[i]) {
      BeforeShifts(g, ps, i, path, seen);
      if i > 0 { assert PartPrints(g, isArray, ps[1..], i - 1, path, first.seen, later[i - 1]); }
    }
  }

  lemma BeforeShifts(g: Graph, ps: seq<Property>, i: nat, path: set<Id>, seen: set<Id>)
    requires Closed(g) && Within(ps, g.Keys) && ps != [] && Within([ps[0]], g.Keys) && Within(ps[1..], g.Keys)
    requires i <= |ps|
    ensures Before(g, ps, i, path, seen) ==
      if i == 0 then seen else Before(g, ps[1..], i - 1, path, seen + Elements(UnfoldOne(g, ps[0], path)))
  {
    if i > 0 {
      assert ps[..i][1..] == ps[1..][..i - 1] && ps[..i][0] == ps[0];
      var a, b := UnfoldOne(g, ps[0], path), Unfold(g, ps[1..][..i - 1], path);
      assert Elements(a + b) == Elements(a) + Elements(b);
    }
  }

  lemma PrintsUnique(g: Graph, isArray: bool, p: Property, path: set<Id>, before: set<Id>,
                     a: seq<Member>, b: seq<Member>)
    requires Closed(g) && Within([p], g.Keys)
    requires Prints(g, isArray, p, path, before, a) && Prints(g, isArray, p, path, before, b)
    ensures a == b
    decreases g.Keys - path, 0
  {
    if p.value.Ref? && p.value.id !in before + path {
      var x := p.value.id;
      assert [p][0] == p;
      PrintsAllUnique(g, g[x].kind.Array?, Shown(g[x]), path + {x}, before + {x},
                      a[0].output.members, b[0].output.members);
    }
  }

  lemma {:induction false} PrintsAllUnique(g: Graph, isArray: bool, ps: seq<Property>, path: set<Id>, seen: set<Id>,
                                           a: seq<Member>, b: seq<Member>)
    requires Closed(g) && Within(ps, g.Keys)
    requires PrintsAll(g, isArray, ps, path, seen, a) && PrintsAll(g, isArray, ps, path, seen, b)
    ensures a == b
    decreases g.Keys - path, 1
  {
    var x :| |x| == |ps| && a == Joined(x) &&
      forall i :: 0 <= i < |ps| ==> PartPrints(g, isArray, ps, i, path, seen, x[i]);
    var y :| |y| == |ps| && b == Joined(y) &&
      forall i :: 0 <= i < |ps| ==> PartPrints(g, isArray, ps, i, path, seen, y[i]);
    forall i | 0 <= i < |ps| ensures x[i] == y[i] {
      assert PartPrints(g, isArray, ps, i, path, seen, x[i]) && PartPrints(g, isArray, ps, i, path, seen, y[i]);
      PrintsUnique(g, isArray, ps[i], path, Before(g, ps, i, path, seen), x[i], y[i]);
    }
    assert x == y;
  }

  /** The walk prints every property as it should be, at every depth, and there is no other way to print them. */
  lemma PrintedIff(g: Graph, isArray: bool, ps: seq<Property>, path: set<Id>, seen: set<Id>, ms: seq<Member>)
    requires Closed(g) && Within(ps, g.Keys) && Complete(g, seen, path)
    ensures PrintsAll(g, isArray, ps, path, seen, ms) <==> ms == Walk(g, isArray, ps, seen).members
  {
    WalkPrints(g, isArray, ps, path, seen);
    if PrintsAll(g, isArray, ps, path, seen, ms) {
      PrintsAllUnique(g, isArray, ps, path, seen, ms, Walk(g, isArray, ps, seen).members);
    }
  }

  // ---- the code ----

  lemma WalkStep(g: Graph, isArray: bool, ps: seq<Property>, i: nat, seen: set<Id>)
    requires Closed(g) && i < |ps| && Within(ps[i..], g.Keys)
    ensures Within([ps[i]], g.Keys) && Within(ps[i + 1..], g.Keys)
    ensures var first := WalkOne(g, isArray, ps[i], seen); var rest := Walk(g, isArray, ps[i + 1..], first.seen);
      Walk(g, isArray, ps[i..], seen) == Walked(first.members + rest.members, rest.seen)
  {
    assert ps[i..][0] == ps[i] && ps[i..][1..] == ps[i + 1..];
    var later := ps[i + 1..];
    forall j | 0 <= j < |later| && later[j].value.Ref? ensures later[j].value.id in g.Keys {
      assert ps[i..][j + 1] == later[j];
    }
  }

  datatype Data = String(s: string) | Nullish | OtherPrimitive | Instance(id: Id)

  /** The argument itself, or the rendering of an object with these members. */
  datatype Printed = Verbatim(s: string) | Rendered(members: seq<Member>)

  class Replacer {
    var cache: set<Id>

    constructor ()
      ensures cache == {}
    {
      cache := {};
    }

    /** The replacer function: `None` stands for returning undefined. */
    method Replace(g: Graph, v: Value) returns (r: Option<Value>)
      modifies this
      ensures v.Ref? && v.id in old(cache) ==> r.None? && cache == old(cache)
      ensures v.Ref? && v.id !in old(cache) ==> r == Some(v) && cache == old(cache) + {v.id}
      ensures !v.Ref? ==> r == Some(v) && cache == old(cache)
    {
      if v.Ref? {
        if v.id in cache { return None; }
        cache := cache + {v.id};
      }
      return Some(v);
    }

    /** JSON.stringify's treatment of one property. */
    method Serialize(g: Graph, isArray: bool, p: Property) returns (ms: seq<Member>)
      requires Closed(g) && Within([p], g.Keys)
      modifies this
      ensures Walked(ms, cache) == WalkOne(g, isArray, p, old(cache))
      decreases g.Keys - cache, 0
    {
      assert [p][0] == p;
      var v := Replace(g, p.value);
      match v
      case None => ms := Omitted(isArray, p.name);
      case Some(Undefined) => ms := Omitted(isArray, p.name);
      case Some(Prim(text)) => ms := [Member(p.name, Text(text))];
      case Some(Ref(x)) =>
        var inner := SerializeAll(g, g[x].kind.Array?, Shown(g[x]));
        ms := [Member(p.name, Object(x, g[x].kind.Array?, inner))];
    }

    method SerializeAll(g: Graph, isArray: bool, ps: seq<Property>) returns (ms: seq<Member>)
      requires Closed(g) && Within(ps, g.Keys)
      modifies this
      ensures Walked(ms, cache) == Walk(g, isArray, ps, old(cache))
      decreases g.Keys - cache, 1
    {
      ms := [];
      for i := 0 to |ps|
        invariant old(cache) <= cache && Within(ps[i..], g.Keys)
        invariant var w := Walk(g, isArray, ps[i..], cache);
          Walk(g, isArray, ps, old(cache)) == Walked(ms + w.members, w.seen)
      {
        WalkStep(g, isArray, ps, i, cache);
        var m := Serialize(g, isArray, ps[i]);
        Associative(ms, m, Walk(g, isArray, ps[i + 1..], cache).members);
        ms := ms + m;
      }
    }
  }

  /** `getStringifiedData`; `None` is its answer when it throws inside. */
  method GetStringifiedData(g: Graph, data: Data) returns (r: Option<Printed>)
    requires Closed(g) && (data.Instance? ==> data.id in g)
    ensures data.String? ==> r == Some(Verbatim(data.s))
    ensures data.Nullish? ==> r.None?
    ensures data.OtherPrimitive? ==> r == Some(Rendered([]))
    ensures data.Instance? ==> r.Some? && r.value.Rendered?
    ensures data.Instance? ==> PrintsAll(g, false, g[data.id].properties, {}, {}, r.value.members)
    ensures data.Instance? ==>
              ExpandedAll(r.value.members) == FirstOccurrences(Unfold(g, g[data.id].properties, {}), {})
  {
    match data
    case String(s) => return Some(Verbatim(s));
    case Nullish => return None;
    case OtherPrimitive => return Some(Rendered([]));
    case Instance(x) =>
      var replacer := new Replacer();
      var members := replacer.SerializeAll(g, false, g[x].properties);
      ExpandsReachableOnce(g, g[x].properties);
      WalkPrints(g, false, g[x].properties, {}, {});
      return Some(Rendered(members));
  }
}

/** The union-find of the legacy-duplicate clean-up script. */
module DisjointSets {
  import opened Grouping
  import opened Chains

  // ----- The abstract state: every added id mapped to the representative of its class -----

  type Labels = map<string, string>

  ghost predicate LabelKnown(rep: Labels, x: string) {
    x in rep ==> rep[x] in rep
  }

  ghost predicate IsLabelling(rep: Labels) {
    forall x :: LabelKnown(rep, x)
  }

  ghost function Label(rep: Labels, id: string): string {
    if id in rep then rep[id] else id
  }

  ghost function Added(rep: Labels, id: string): Labels {
    if id in rep then rep else rep[id := id]
  }

  /** The class of `b` joins the class of `a`; every other class stays as it was. */
  ghost function Merged(rep: Labels, a: string, b: string): Labels
    requires a in rep && b in rep
  {
    map x | x in rep :: if rep[x] == rep[b] then rep[a] else rep[x]
  }

  ghost function AddedBoth(rep: Labels, a: string, b: string): (r: Labels)
    ensures a in r && b in r
  {
    Added(Added(rep, a), b)
  }

  function WithKey(keys: seq<string>, id: string): seq<string> {
    if id in keys then keys else keys + [id]
  }

  ghost predicate Same(rep: Labels, x: string, y: string) {
    x in rep && y in rep && rep[x] == rep[y]
  }

  // ----- Whole runs -----

  datatype Op = AddOp(id: string) | UnionOp(a: string, b: string) | FindOp(id: string)

  ghost function Step(rep: Labels, op: Op): Labels {
    match op
    case AddOp(id) => Added(rep, id)
    case UnionOp(a, b) => Merged(AddedBoth(rep, a, b), a, b)
    case FindOp(_) => rep
  }

  ghost function Run(ops: seq<Op>): Labels {
    if ops == [] then map[] else Step(Run(ops[..|ops| - 1]), ops[|ops| - 1])
  }

  ghost function United(ops: seq<Op>): (string, string) -> bool {
    (x, y) => UnionOp(x, y) in ops
  }

  /** The order in which the run adds its ids. */
  function KeysOf(ops: seq<Op>): seq<string> {
    if ops == [] then []
    else
      var before := KeysOf(ops[..|ops| - 1]);
      match ops[|ops| - 1]
      case AddOp(id) => WithKey(before, id)
      case UnionOp(a, b) => WithKey(WithKey(before, a), b)
      case FindOp(_) => before
  }

  lemma {:induction false} RunIsLabelling(ops: seq<Op>)
    ensures IsLabelling(Run(ops))
  {
    if ops != [] {
      var before := Run(ops[..|ops| - 1]);
      RunIsLabelling(ops[..|ops| - 1]);
      match ops[|ops| - 1]
      case FindOp(_) =>
      case AddOp(id) => AddedSame(before, id, id, id);
      case UnionOp(a, b) =>
        AddedBothSame(before, a, b, a, b);
        var mid := AddedBoth(before, a, b);
        forall x ensures LabelKnown(Run(ops), x) {
          assert LabelKnown(mid, x) && LabelKnown(mid, a);
        }
    }
  }

  lemma MergedSame(rep: Labels, a: string, b: string, x: string, y: string)
    requires a in rep && b in rep
    ensures Same(Merged(rep, a, b), x, y) <==>
            Same(rep, x, y) || (Same(rep, x, a) && Same(rep, b, y)) || (Same(rep, x, b) && Same(rep, a, y))
  {
  }

  lemma MergedJoins(rep: Labels, a: string, b: string)
    requires a in rep && b in rep
    ensures AddedBoth(rep, a, b) == rep
    ensures Same(Merged(rep, a, b), a, a) && Same(Merged(rep, a, b), a, b)
  {
  }

  lemma AddedSame(rep: Labels, id: string, x: string, y: string)
    requires IsLabelling(rep)
    ensures IsLabelling(Added(rep, id))
    ensures Same(Added(rep, id), x, y) <==> Same(rep, x, y) || (x == y == id)
  {
    forall z ensures LabelKnown(Added(rep, id), z) {
      assert LabelKnown(rep, z);
    }
    assert LabelKnown(rep, x) && LabelKnown(rep, y);
  }

  lemma AddedBothSame(rep: Labels, a: string, b: string, x: string, y: string)
    requires IsLabelling(rep)
    ensures IsLabelling(AddedBoth(rep, a, b))
    ensures Same(AddedBoth(rep, a, b), x, y) ==> Same(rep, x, y) || x == y
    ensures Same(rep, x, y) ==> Same(AddedBoth(rep, a, b), x, y)
  {
    AddedSame(rep, a, x, y);
    AddedSame(Added(rep, a), b, x, y);
  }

  lemma LinkedGrows(ops: seq<Op>, op: Op, x: string, y: string)
    requires Linked(United(ops), x, y)
    ensures Linked(United(ops + [op]), x, y)
  {
    LinkedMono(United(ops), United(ops + [op]), x, y);
  }

  /** For every run of operations, two added ids share a representative exactly when a chain of
      `union` calls of that run joins them. */
  lemma {:induction false} RunClassesAreUnionChains(ops: seq<Op>, x: string, y: string)
    requires x in Run(ops) && y in Run(ops)
    ensures Run(ops)[x] == Run(ops)[y] <==> Linked(United(ops), x, y)
  {
    if Run(ops)[x] == Run(ops)[y] {
      SameImpliesLinked(ops, x, y);
    }
    if Linked(United(ops), x, y) {
      var cls := (u: string) => Label(Run(ops), u);
      forall u, v | United(ops)(u, v) ensures cls(u) == cls(v) {
        UnionedAreSame(ops, u, v);
      }
      LinkedRespects(United(ops), cls, x, y);
    }
  }

  lemma {:induction false} UnionedAreSame(ops: seq<Op>, u: string, v: string)
    requires UnionOp(u, v) in ops
    ensures Same(Run(ops), u, v)
    decreases |ops|
  {
    var init, op := ops[..|ops| - 1], ops[|ops| - 1];
    assert ops == init + [op];
    RunIsLabelling(init);
    if UnionOp(u, v) in init {
      UnionedAreSame(init, u, v);
      match op
      case AddOp(id) => AddedSame(Run(init), id, u, v);
      case FindOp(_) =>
      case UnionOp(a, b) =>
        AddedBothSame(Run(init), a, b, u, v);
        MergedSame(AddedBoth(Run(init), a, b), a, b, u, v);
    }
  }

  lemma {:induction false} SameImpliesLinked(ops: seq<Op>, x: string, y: string)
    requires x == y || Same(Run(ops), x, y)
    ensures Linked(United(ops), x, y)
    decreases |ops|, 0
  {
    LinkedRefl(United(ops), x);
    if x != y {
      var init, op := ops[..|ops| - 1], ops[|ops| - 1];
      assert ops == init + [op];
      RunIsLabelling(init);
      match op
      case AddOp(id) =>
        AddedSame(Run(init), id, x, y);
        StillLinked(init, op, x, y);
      case FindOp(_) =>
        StillLinked(init, op, x, y);
      case UnionOp(a, b) =>
        MergedLinked(init, a, b, x, y);
    }
  }

  lemma {:induction false} MergedLinked(init: seq<Op>, a: string, b: string, x: string, y: string)
    requires Same(Merged(AddedBoth(Run(init), a, b), a, b), x, y)
    ensures Linked(United(init + [UnionOp(a, b)]), x, y)
    decreases |init|, 3
  {
    var r := United(init + [UnionOp(a, b)]);
    var mid := AddedBoth(Run(init), a, b);
    MergedSame(mid, a, b, x, y);
    assert r(a, b);
    LinkedStep(r, a, b);
    if Same(mid, x, y) {
      MidLinked(init, a, b, x, y);
    } else if Same(mid, x, a) && Same(mid, b, y) {
      MidLinked(init, a, b, x, a);
      MidLinked(init, a, b, b, y);
      LinkedTrans(r, x, a, b);
      LinkedTrans(r, x, b, y);
    } else {
      MidLinked(init, a, b, x, b);
      MidLinked(init, a, b, a, y);
      LinkedTrans(r, x, b, a);
      LinkedTrans(r, x, a, y);
    }
  }

  lemma {:induction false} MidLinked(init: seq<Op>, a: string, b: string, x: string, y: string)
    requires Same(AddedBoth(Run(init), a, b), x, y)
    ensures Linked(United(init + [UnionOp(a, b)]), x, y)
    decreases |init|, 2
  {
    RunIsLabelling(init);
    AddedBothSame(Run(init), a, b, x, y);
    StillLinked(init, UnionOp(a, b), x, y);
  }

  lemma {:induction false} StillLinked(ops: seq<Op>, op: Op, x: string, y: string)
    requires x == y || Same(Run(ops), x, y)
    ensures Linked(United(ops + [op]), x, y)
    decreases |ops|, 1
  {
    SameImpliesLinked(ops, x, y);
    LinkedGrows(ops, op, x, y);
  }

  // ----- The classes as lists -----

  ghost function ByLabel(rep: Labels): string -> string {
    id => Label(rep, id)
  }

  ghost function Classes(keys: seq<string>, rep: Labels): seq<seq<string>> {
    GroupByRows(keys, ByLabel(rep));
    Values(GroupBy(keys, ByLabel(rep)))
  }

  /** A class is the non-empty list of the added ids sharing its representative, each once. */
  lemma ClassShape(keys: seq<string>, rep: Labels, k: nat)
    requires EachOnce(keys) && k < |Classes(keys, rep)|
    ensures var g := Classes(keys, rep)[k];
            && g != [] && EachOnce(g)
            && g == Row(keys, ByLabel(rep), Label(rep, g[0]))
            && Label(rep, g[0]) == GroupBy(keys, ByLabel(rep)).order[k]
  {
    var key := ByLabel(rep);
    GroupByRows(keys, key);
    ValueAt(keys, key, k);
    var r := GroupBy(keys, key).order[k];
    var g := Classes(keys, rep)[k];
    assert g[0] in g && HasKey(key, r)(g[0]);
    FilterDistinct(keys, HasKey(key, r));
  }

  /** The classes are pairwise disjoint ... */
  lemma ClassesDisjoint(keys: seq<string>, rep: Labels, k: nat, l: nat, x: string)
    requires EachOnce(keys) && k < l < |Classes(keys, rep)|
    ensures !(x in Classes(keys, rep)[k] && x in Classes(keys, rep)[l])
  {
    var key := ByLabel(rep);
    var t := GroupBy(keys, key);
    GroupByRows(keys, key);
    ValueAt(keys, key, k);
    ValueAt(keys, key, l);
    ListedOnce(t.order, t.rows.Keys);
    assert HasKey(key, t.order[k])(x) == (Label(rep, x) == t.order[k]);
    assert HasKey(key, t.order[l])(x) == (Label(rep, x) == t.order[l]);
  }

  /** ... and together list every added id. */
  lemma ClassesCover(keys: seq<string>, rep: Labels, x: string) returns (k: nat)
    requires x in keys
    ensures k < |Classes(keys, rep)| && x in Classes(keys, rep)[k]
  {
    var key := ByLabel(rep);
    k := KeyAt(keys, key, x);
    GroupByRows(keys, key);
    ValueAt(keys, key, k);
    assert HasKey(key, key(x))(x);
  }

  // ----- The concrete class -----

  type Parents = map<string, string>

  /** What the invariant says of one id: its pointer stays in its class, only the representative
      points to itself, and every other pointer descends. */
  ghost predicate Sound(parent: Parents, rep: Labels, depth: map<string, nat>, x: string) {
    x in parent ==>
      && x in rep && x in depth
      && parent[x] in parent && parent[x] in rep && parent[x] in depth
      && rep[parent[x]] == rep[x]
      && (parent[x] == x <==> rep[x] == x)
      && (parent[x] != x ==> depth[parent[x]] < depth[x])
  }

  ghost predicate AllSound(parent: Parents, rep: Labels, depth: map<string, nat>) {
    && parent.Keys == rep.Keys && parent.Keys == depth.Keys
    && forall x :: Sound(parent, rep, depth, x)
  }

  /** `k` parent steps from `x`. */
  ghost function Climb(parent: Parents, x: string, k: nat): string
    decreases k
  {
    if k == 0 || x !in parent then x else Climb(parent, parent[x], k - 1)
  }

  /** Parent pointers are acyclic: a climb that comes back to its start never left it. */
  lemma {:induction false} Acyclic(parent: Parents, rep: Labels, depth: map<string, nat>, x: string, k: nat)
    requires AllSound(parent, rep, depth) && x in parent && k > 0
    requires Climb(parent, x, k) == x
    ensures parent[x] == x
  {
    assert Sound(parent, rep, depth, x);
    if parent[x] != x {
      ClimbDescends(parent, rep, depth, parent[x], k - 1);
    }
  }

  lemma {:induction false} ClimbDescends(parent: Parents, rep: Labels, depth: map<string, nat>, x: string, k: nat)
    requires AllSound(parent, rep, depth) && x in parent
    ensures Climb(parent, x, k) in parent && depth[Climb(parent, x, k)] <= depth[x]
    ensures rep[Climb(parent, x, k)] == rep[x]
    decreases k
  {
    assert Sound(parent, rep, depth, x);
    if k > 0 {
      ClimbDescends(parent, rep, depth, parent[x], k - 1);
    }
  }

  /** Following parents from any id ends at its representative, which points to itself. */
  lemma {:induction false} ClimbReachesRoot(parent: Parents, rep: Labels, depth: map<string, nat>, x: string)
    returns (k: nat)
    requires AllSound(parent, rep, depth) && x in parent
    ensures Climb(parent, x, k) == rep[x] && rep[x] in parent && parent[rep[x]] == rep[x]
    decreases depth[x]
  {
    assert Sound(parent, rep, depth, x);
    if parent[x] == x {
      k := 0;
    } else {
      var j := ClimbReachesRoot(parent, rep, depth, parent[x]);
      k := j + 1;
    }
  }

  /** The ids whose pointer `find(id)` rewrites. */
  ghost function Path(parent: Parents, rep: Labels, depth: map<string, nat>, id: string): set<string>
    requires AllSound(parent, rep, depth) && id in parent
    decreases depth[id]
  {
    assert Sound(parent, rep, depth, id);
    if parent[id] == id then {} else {id} + Path(parent, rep, depth, parent[id])
  }

  ghost function Compressed(parent: Parents, rep: Labels, path: set<string>): Parents
    requires parent.Keys == rep.Keys
  {
    map x | x in parent :: if x in path then rep[x] else parent[x]
  }

  lemma Listed(keys: seq<string>, ids: set<string>, id: string)
    requires multiset(keys) == multiset(ids)
    ensures id in keys <==> id in ids
    ensures id !in ids ==> multiset(keys + [id]) == multiset(ids + {id})
  {
    assert id in keys <==> id in multiset(keys);
    assert id !in ids ==> multiset(ids + {id}) == multiset(ids) + multiset{id};
  }

  lemma SoundAdd(parent: Parents, rep: Labels, depth: map<string, nat>, id: string)
    requires AllSound(parent, rep, depth) && id !in parent
    ensures AllSound(parent[id := id], rep[id := id], depth[id := 0])
    ensures parent[id := id].Keys == parent.Keys + {id}
  {
    var parent', rep', depth' := parent[id := id], rep[id := id], depth[id := 0];
    forall x ensures Sound(parent', rep', depth', x) {
      assert Sound(parent, rep, depth, x);
    }
  }

  lemma SoundUpdate(parent: Parents, rep: Labels, depth: map<string, nat>, id: string, root: string)
    requires AllSound(parent, rep, depth) && id in parent && root in parent
    requires rep[id] == root == parent[root] && depth[root] < depth[id]
    ensures AllSound(parent[id := root], rep, depth)
  {
    var after := parent[id := root];
    forall x ensures Sound(after, rep, depth, x) {
      assert Sound(parent, rep, depth, x) && Sound(parent, rep, depth, root);
    }
  }

  lemma PathStep(parent: Parents, rep: Labels, depth: map<string, nat>, id: string, mid: Parents)
    requires AllSound(parent, rep, depth) && id in parent && parent[id] != id && parent[id] in parent
    requires mid == Compressed(parent, rep, Path(parent, rep, depth, parent[id]))
    ensures mid[id := rep[id]] == Compressed(parent, rep, Path(parent, rep, depth, id))
  {
    var path := Path(parent, rep, depth, parent[id]);
    assert Path(parent, rep, depth, id) == {id} + path;
    var goal := Compressed(parent, rep, {id} + path);
    forall x | x in goal ensures x in mid[id := rep[id]] && mid[id := rep[id]][x] == goal[x] {
    }
  }

  lemma MergedByRoots(parent: Parents, rep: Labels, depth: map<string, nat>, a: string, b: string)
    requires AllSound(parent, rep, depth) && a in parent && b in parent
    requires rep[a] in parent && rep[b] in parent && parent[rep[a]] == rep[a] && parent[rep[b]] == rep[b]
    ensures Merged(rep, a, b) == Merged(rep, rep[a], rep[b])
    ensures rep[a] == rep[b] ==> Merged(rep, a, b) == rep
  {
    assert Sound(parent, rep, depth, rep[a]) && Sound(parent, rep, depth, rep[b]);
  }

  lemma SoundMerge(parent: Parents, rep: Labels, depth: map<string, nat>, rootA: string, rootB: string,
                   parent': Parents, rep': Labels, depth': map<string, nat>)
    requires AllSound(parent, rep, depth) && rootA in parent && rootB in parent && rootA != rootB
    requires parent[rootA] == rootA && parent[rootB] == rootB
    requires parent' == parent[rootB := rootA] && rep' == Merged(rep, rootA, rootB)
    requires depth' == Lowered(depth, rep, rootA, rootB)
    ensures AllSound(parent', rep', depth')
  {
    forall x ensures Sound(parent', rep', depth', x) {
      assert Sound(parent, rep, depth, x) && Sound(parent, rep, depth, rootA) && Sound(parent, rep, depth, rootB);
    }
  }

  lemma BothKnown(parent: Parents, before: Labels, rep: Labels, depth: map<string, nat>, a: string, b: string)
    requires AllSound(parent, rep, depth) && rep == AddedBoth(before, a, b)
    ensures a in parent && b in parent && a in rep && b in rep
  {
  }

  /** For an id of the set, pointing to itself and representing itself are the same. */
  lemma RootPointsToItself(parent: Parents, rep: Labels, depth: map<string, nat>, root: string)
    requires AllSound(parent, rep, depth) && root in parent
    ensures root in rep && (parent[root] == root <==> rep[root] == root)
  {
    assert Sound(parent, rep, depth, root);
  }

  /** The class of `rootB` hangs below `rootA`. */
  ghost function Lowered(depth: map<string, nat>, rep: Labels, rootA: string, rootB: string): map<string, nat>
    requires depth.Keys == rep.Keys && rootA in depth
  {
    map x | x in depth :: if rep[x] == rootB then depth[x] + depth[rootA] + 1 else depth[x]
  }

  class DisjointSet {
    var keys: seq<string>      // iteration order of the Map
    var parent: Parents
    ghost var rep: Labels
    ghost var depth: map<string, nat>

    ghost predicate Valid()
      reads this
    {
      && multiset(keys) == multiset(parent.Keys)   // every key listed once
      && AllSound(parent, rep, depth)
    }

    constructor ()
      ensures Valid() && keys == [] && rep == map[]
    {
      keys, parent, rep, depth := [], map[], map[], map[];
    }

    method Add(id: string)
      requires Valid()
      modifies this
      ensures Valid()
      ensures keys == WithKey(old(keys), id) && rep == Added(old(rep), id)
      ensures parent == if id in old(parent) then old(parent) else old(parent)[id := id]
    {
      Listed(keys, parent.Keys, id);
      if id !in parent {
        SoundAdd(parent, rep, depth, id);
        keys := keys + [id];
        parent := parent[id := id];
        rep := rep[id := id];
        depth := depth[id := 0];
      }
    }

    method Find(id: string) returns (root: string)
      requires Valid()
      modifies this`parent
      ensures Valid()
      ensures root == Label(rep, id)
      ensures id in parent ==> root in parent && parent[root] == root && depth[root] <= depth[id]
      ensures parent.Keys == old(parent.Keys)
      ensures parent == if id !in old(parent) then old(parent)
                        else Compressed(old(parent), rep, Path(old(parent), rep, depth, id))
      decreases if id in depth then depth[id] else 0
    {
      var current := if id in parent then parent[id] else id;
      assert Sound(parent, rep, depth, id);
      if current == id {
        return id;
      }
      root := Find(current);
      SoundUpdate(parent, rep, depth, id, root);
      PathStep(old(parent), rep, depth, id, parent);
      parent := parent[id := root];
    }

    method Union(a: string, b: string)
      requires Valid()
      modifies this
      ensures Valid()
      ensures keys == WithKey(WithKey(old(keys), a), b)
      ensures rep == Merged(AddedBoth(old(rep), a, b), a, b)
    {
      hide AllSound, Added, Merged, WithKey, Compressed, Path;
      Add(a);
      Add(b);
      BothKnown(parent, old(rep), rep, depth, a, b);
      var rootA := Find(a);
      RootPointsToItself(parent, rep, depth, rootA);
      var rootB := Find(b);
      RootPointsToItself(parent, rep, depth, rootA);
      Link(rootA, rootB, a, b);
    }

    /** The last line of `Union`: two different roots, one pointer. */
    method Link(rootA: string, rootB: string, ghost a: string, ghost b: string)
      requires Valid() && a in parent && b in parent
      requires rootA == rep[a] && rootA in parent && parent[rootA] == rootA
      requires rootB == rep[b] && rootB in parent && parent[rootB] == rootB
      modifies this
      ensures Valid() && keys == old(keys) && rep == Merged(old(rep), a, b)
      ensures parent == if rootA == rootB then old(parent) else old(parent)[rootB := rootA]
    {
      MergedByRoots(parent, rep, depth, a, b);
      if rootA != rootB {
        ghost var lowered, merged := Lowered(depth, rep, rootA, rootB), Merged(rep, rootA, rootB);
        SoundMerge(parent, rep, depth, rootA, rootB, parent[rootB := rootA], merged, lowered);
        parent := parent[rootB := rootA];
        depth, rep := lowered, merged;
      }
    }

    /** The classes in the order their first member was added, each listed in order of addition. */
    method Groups() returns (groups: seq<seq<string>>)
      requires Valid()
      modifies this`parent
      ensures Valid() && groups == Classes(keys, rep)
    {
      ghost var key := ByLabel(rep);
      var grouped: Table<string> := EmptyTable();
      for i := 0 to |keys|
        invariant Valid()
        invariant grouped == GroupBy(keys[..i], key)
      {
        var root := Find(keys[i]);
        GroupByStep(keys, i, key);
        grouped := Put(grouped, root, keys[i]);
      }
      assert keys[..|keys|] == keys;
      GroupByRows(keys, key);
      groups := Values(grouped);
    }
  }

  /** Any sequence of calls on a new set leaves exactly what the run of those operations describes. */
  method Perform(ops: seq<Op>) returns (d: DisjointSet)
    ensures fresh(d) && d.Valid() && d.rep == Run(ops) && d.keys == KeysOf(ops)
  {
    hide AllSound, Added, Merged, WithKey, Compressed, Path;
    d := new DisjointSet();
    for i := 0 to |ops|
      invariant fresh(d) && d.Valid() && d.rep == Run(ops[..i]) && d.keys == KeysOf(ops[..i])
    {
      assert ops[..i + 1][..i] == ops[..i];
      match ops[i] {
        case AddOp(id) => d.Add(id);
        case UnionOp(a, b) => d.Union(a, b);
        case FindOp(id) => var _ := d.Find(id);
      }
    }
    assert ops[..|ops|] == ops;
  }
}

/** The install order of extensions: a depth-first topological sort over the requested manifests
    (src/book2skill/extensions/resolver.py). */
module Resolver {
  import opened Knowledge
  import V = Versions

  datatype Dependency = Dependency(id: string, range: seq<V.Constraint>)

  datatype Manifest = Manifest(id: string, version: V.Version, dependencies: seq<Dependency>)

  /** TypeFailure is Python's TypeError from comparing a number with a word; the others are ResolutionErrors. */
  datatype Failure = NotInstalled | OutOfRange | TypeFailure | Circular

  datatype Result = Ok | Err(failure: Failure)

  datatype Mark = InProgress | Finished

  type Catalogue = map<string, Manifest>

  type Installed = map<string, V.Version>   // the active version of each installed extension

  function Provider(id: string, byId: Catalogue, installed: Installed): Option<V.Version> {
    if id in byId then Some(byId[id].version) else if id in installed then Some(installed[id]) else None
  }

  function CheckDependency(dep: Dependency, byId: Catalogue, installed: Installed): Result {
    var provider := Provider(dep.id, byId, installed);
    if provider.None? then Err(NotInstalled)
    else
      match V.SatisfiesRange(provider.value, dep.range)
      case None => Err(TypeFailure)
      case Some(fits) => if fits then Ok else Err(OutOfRange)
  }

  /** What the answer to a dependency means. A requested manifest provides before an installed version. */
  predicate Answers(r: Result, dep: Dependency, byId: Catalogue, installed: Installed) {
    if dep.id !in byId && dep.id !in installed then r == Err(NotInstalled)
    else
      var fits := V.SatisfiesRange(if dep.id in byId then byId[dep.id].version else installed[dep.id], dep.range);
      && (r == Ok <==> fits == Some(true)) && (r == Err(OutOfRange) <==> fits == Some(false)) && (r == Err(TypeFailure) <==> fits == None)
  }

  lemma CheckAnswers(dep: Dependency, byId: Catalogue, installed: Installed)
    ensures Answers(CheckDependency(dep, byId, installed), dep, byId, installed)
    ensures forall r | r != Err(Circular) && Answers(r, dep, byId, installed) :: r == CheckDependency(dep, byId, installed)
    ensures var r := CheckDependency(dep, byId, installed); r != Err(Circular) && (r == Ok ==> dep.id in byId || dep.id in installed)
  {
    hide V.SatisfiesRange;
  }

  // ---- what a good order is ----

  predicate Needs(byId: Catalogue, a: string, b: string) {
    a in byId && exists i | 0 <= i < |byId[a].dependencies| :: byId[a].dependencies[i].id == b
  }

  ghost predicate Distinct(order: seq<string>) {
    forall i, j | 0 <= i < j < |order| :: order[i] != order[j]
  }

  /** Every dependency stands before its dependant. */
  ghost predicate Sorted(byId: Catalogue, order: seq<string>) {
    forall i, d | 0 <= i < |order| && Needs(byId, order[i], d) :: d in order[..i]
  }

  ghost predicate Chain(byId: Catalogue, path: seq<string>) {
    forall i | 0 <= i < |path| - 1 :: Needs(byId, path[i], path[i + 1])
  }

  ghost predicate Cycle(byId: Catalogue, path: seq<string>) {
    |path| >= 2 && path[0] == path[|path| - 1] && Chain(byId, path)
  }

  ghost predicate AllResolve(byId: Catalogue, installed: Installed) {
    forall a | a in byId :: Resolves(a, byId, installed)
  }

  ghost predicate Resolves(a: string, byId: Catalogue, installed: Installed) {
    a in byId ==> forall i | 0 <= i < |byId[a].dependencies| :: Answers(Ok, byId[a].dependencies[i], byId, installed)
  }

  /** Some requested extension has a dependency that is answered with the failure. */
  ghost predicate Fails(f: Failure, byId: Catalogue, installed: Installed) {
    exists a, i | a in byId && 0 <= i < |byId[a].dependencies| :: Answers(Err(f), byId[a].dependencies[i], byId, installed)
  }

  function IndexOf(order: seq<string>, id: string): (i: nat)
    requires id in order
    ensures i < |order| && order[i] == id
  {
    if order[0] == id then 0 else 1 + IndexOf(order[1..], id)
  }

  lemma IndexUnique(order: seq<string>, i: nat)
    requires Distinct(order) && i < |order|
    ensures IndexOf(order, order[i]) == i
  {
  }

  /** Along a chain that starts in a sorted order, positions strictly fall. */
  lemma {:induction false} ChainFalls(byId: Catalogue, order: seq<string>, path: seq<string>, n: nat)
    requires Distinct(order) && Sorted(byId, order) && Chain(byId, path) && n < |path| && path[0] in order
    ensures path[n] in order && IndexOf(order, path[n]) + n <= IndexOf(order, path[0])
  {
    if n > 0 {
      ChainFalls(byId, order, path, n - 1);
      var i := IndexOf(order, path[n - 1]);
      assert Needs(byId, path[n - 1], path[n - 1 + 1]);
      assert path[n] in order[..i];
      var j :| 0 <= j < i && order[j] == path[n];
      IndexUnique(order, j);
    }
  }

  /** So a sorted order that contains every requested id proves that there is no cycle. */
  lemma SortedIsAcyclic(byId: Catalogue, order: seq<string>, path: seq<string>)
    requires Distinct(order) && Sorted(byId, order) && forall id | id in byId :: id in order
    ensures !Cycle(byId, path)
  {
    if Cycle(byId, path) {
      assert Needs(byId, path[0], path[0 + 1]);
      ChainFalls(byId, order, path, |path| - 1);
      assert false;
    }
  }

  // ---- the search ----

  /** The search of one install_order call: visiting states and the order so far. */
  class Search {
    const byId: Catalogue
    const installed: Installed
    var state: map<string, Mark>
    var order: seq<string>

    constructor (byId: Catalogue, installed: Installed)
      ensures this.byId == byId && this.installed == installed && state == map[] && order == []
    {
      this.byId, this.installed := byId, installed;
      state, order := map[], [];
    }

    ghost function Universe(): set<string> { byId.Keys + installed.Keys }

    /** The open nodes form a chain of dependencies; the finished ones are sorted. */
    ghost predicate Valid(path: seq<string>)
      reads this
    {
      && state.Keys <= Universe()
      && Distinct(order) && Sorted(byId, order) && Distinct(path) && Chain(byId, path)
      && (forall id | id in state :: state[id] == InProgress <==> id in path)
      && (forall id :: id in order <==> id in state && state[id] == Finished)
      && (forall id | id in path :: id in state)
      && (forall id | id in order :: Resolves(id, byId, installed))
    }

    twostate predicate Grows()
      reads this
    {
      && old(state.Keys) <= state.Keys && old(order) <= order
      && (forall id | id in old(state) && old(state)[id] == Finished :: state[id] == Finished)
    }

    /** Visit a node whose dependants, innermost last, are open. */
    method Visit(node: string, ghost path: seq<string>) returns (r: Result)
      requires Valid(path) && node in Universe() && (path != [] ==> Needs(byId, path[|path| - 1], node))
      modifies this
      ensures r == Ok ==> Valid(path) && Grows() && node in order
      ensures r == Err(Circular) ==> exists cycle :: Cycle(byId, cycle)
      ensures r.Err? && r != Err(Circular) ==> Fails(r.failure, byId, installed)
      decreases Universe() - state.Keys, 0
    {
      hide Sorted, Distinct, Chain, CheckDependency, Resolves, Fails;
      if node in state && state[node] == Finished { return Ok; }
      if node in state && state[node] == InProgress {
        CloseCycle(byId, path, node);
        return Err(Circular);
      }
      ghost var inner := Open(node, path);
      r := VisitDependencies(node, inner);
      if r == Ok { Finish(node, path); }
    }

    method Open(node: string, ghost path: seq<string>) returns (ghost inner: seq<string>)
      requires Valid(path) && node in Universe() && node !in state && (path != [] ==> Needs(byId, path[|path| - 1], node))
      modifies this
      ensures inner == path + [node] && Valid(inner) && Grows() && node in state
    {
      hide Sorted, Distinct, Chain, Resolves;
      PathSnoc(byId, path, node);
      inner := path + [node];
      state := state[node := InProgress];
    }

    method Finish(node: string, ghost path: seq<string>)
      requires Valid(path + [node]) && Resolves(node, byId, installed) && forall d | Needs(byId, node, d) :: d in order
      modifies this
      ensures Valid(path) && Grows() && node in order
    {
      hide Sorted, Chain, Needs, Resolves;
      assert (path + [node])[|path|] == node && forall i | 0 <= i < |path| :: (path + [node])[i] == path[i];
      OrderSnoc(byId, order, node);
      PathInit(byId, path, node);
      state := state[node := Finished];
      order := order + [node];
    }

    /** Visit what an open node depends on. A node without a manifest is installed and has no work left. */
    method VisitDependencies(node: string, ghost path: seq<string>) returns (r: Result)
      requires Valid(path) && path != [] && path[|path| - 1] == node
      modifies this
      ensures r == Ok ==> Valid(path) && Grows() && Resolves(node, byId, installed) && forall d | Needs(byId, node, d) :: d in order
      ensures r == Err(Circular) ==> exists cycle :: Cycle(byId, cycle)
      ensures r.Err? && r != Err(Circular) ==> Fails(r.failure, byId, installed)
      decreases Universe() - state.Keys, 1
    {
      hide Sorted, Distinct, Chain, Answers, CheckDependency;
      if node in byId {
        var dependencies := byId[node].dependencies;
        for i := 0 to |dependencies|
          invariant Valid(path) && Grows()
          invariant forall j | 0 <= j < i :: dependencies[j].id in order && Answers(Ok, dependencies[j], byId, installed)
        {
          var dep := dependencies[i];
          var check := CheckDependency(dep, byId, installed);
          CheckAnswers(dep, byId, installed);
          if check.Err? {
            assert Answers(Err(check.failure), byId[node].dependencies[i], byId, installed);
            return check;
          }
          assert Needs(byId, node, dep.id);
          assert Universe() - state.Keys <= Universe() - old(state.Keys);
          r := Visit(dep.id, path);
          if r.Err? { return; }
        }
      }
      return Ok;
    }
  }

  /** The order in which to install the requested manifests, each dependency before its dependant. When
      every dependency is present in a fitting version, it fails exactly if there is a cycle. */
  method InstallOrder(manifests: seq<Manifest>, installed: Installed) returns (r: Result, order: seq<string>)
    ensures var byId := ById(manifests);
            && (r == Ok ==> Distinct(order) && Sorted(byId, order))
            && (r == Ok ==> forall id | id in byId :: id in order)
            && (r == Ok ==> forall id | id in order :: id in byId || id in installed)
            && (r == Ok ==> forall cycle :: !Cycle(byId, cycle))
            && (r == Err(Circular) ==> exists cycle :: Cycle(byId, cycle))
            && (r.Err? && r != Err(Circular) ==> Fails(r.failure, byId, installed))
            && (r == Ok <==> AllResolve(byId, installed) && forall cycle :: !Cycle(byId, cycle))
  {
    hide Sorted, Distinct, Chain, CheckDependency, Cycle, Needs, Resolves, Fails;
    var byId := map[];
    for i := 0 to |manifests|
      invariant byId == ById(manifests[..i])
    {
      assert manifests[..i + 1][..i] == manifests[..i];
      byId := byId[manifests[i].id := manifests[i]];
    }
    assert manifests[..|manifests|] == manifests;
    var search := new Search(byId, installed);
    EmptyOrder(byId);
    order := [];
    var rest := byId.Keys;
    while rest != {}
      invariant fresh(search) && search.byId == byId && search.installed == installed && search.Valid([])
      invariant rest <= byId.Keys && forall id | id in byId && id !in rest :: id in search.order
      decreases rest
    {
      var node :| node in rest;   // the program sorts the ids; the result is right for every choice
      rest := rest - {node};
      r := search.Visit(node, []);
      if r.Err? {
        if r != Err(Circular) { FailsResolve(r.failure, byId, installed); }
        return;
      }
    }
    order := search.order;
    r := Ok;
    forall cycle ensures !Cycle(byId, cycle) { SortedIsAcyclic(byId, order, cycle); }
  }

  /** A later manifest with the same id replaces an earlier one. */
  ghost predicate LastOf(manifests: seq<Manifest>, id: string, m: Manifest) {
    exists k | 0 <= k < |manifests| :: manifests[k] == m && m.id == id && forall j | k < j < |manifests| :: manifests[j].id != id
  }

  lemma {:induction false} ByIdIs(manifests: seq<Manifest>, id: string)
    requires id in ById(manifests)
    ensures LastOf(manifests, id, ById(manifests)[id])
  {
    var init, n := manifests[..|manifests| - 1], |manifests| - 1;
    if manifests[n].id == id {
      assert manifests[n] == manifests[|manifests| - 1];
    } else {
      var m := ById(manifests)[id];
      assert id in ById(init) && m == ById(init)[id];
      ByIdIs(init, id);
      hide ById;
      LastLater(manifests, id, m);
    }
  }

  lemma LastLater(manifests: seq<Manifest>, id: string, m: Manifest)
    requires manifests != [] && LastOf(manifests[..|manifests| - 1], id, m) && manifests[|manifests| - 1].id != id
    ensures LastOf(manifests, id, m)
  {
    var init := manifests[..|manifests| - 1];
    var k :| 0 <= k < |init| && init[k] == m && m.id == id && forall j | k < j < |init| :: init[j].id != id;
    assert manifests[k] == m && forall j | k < j < |manifests| - 1 :: manifests[j] == init[j];
  }

  function ById(manifests: seq<Manifest>): (byId: Catalogue)
    ensures forall id :: id in byId <==> exists i | 0 <= i < |manifests| :: manifests[i].id == id
  {
    if manifests == [] then map[]
    else
      var last := manifests[|manifests| - 1];
      assert forall i | 0 <= i < |manifests| - 1 :: manifests[..|manifests| - 1][i] == manifests[i];
      ById(manifests[..|manifests| - 1])[last.id := last]
  }

  lemma FailsResolve(f: Failure, byId: Catalogue, installed: Installed)
    requires Fails(f, byId, installed) && f != Circular
    ensures !AllResolve(byId, installed)
  {
    hide Answers;
    var a, i :| a in byId && 0 <= i < |byId[a].dependencies| && Answers(Err(f), byId[a].dependencies[i], byId, installed);
    CheckAnswers(byId[a].dependencies[i], byId, installed);
    assert !Answers(Ok, byId[a].dependencies[i], byId, installed);
    assert !Resolves(a, byId, installed);
  }

  lemma EmptyOrder(byId: Catalogue)
    ensures Distinct([]) && Sorted(byId, []) && Chain(byId, [])
  {
  }

  lemma PathSnoc(byId: Catalogue, path: seq<string>, node: string)
    requires Distinct(path) && Chain(byId, path) && node !in path && (path != [] ==> Needs(byId, path[|path| - 1], node))
    ensures Distinct(path + [node]) && Chain(byId, path + [node])
  {
    var inner := path + [node];
    forall i | 0 <= i < |inner| - 1 ensures Needs(byId, inner[i], inner[i + 1]) {
      if i < |path| - 1 { assert Needs(byId, path[i], path[i + 1]); }
    }
  }

  lemma PathInit(byId: Catalogue, path: seq<string>, node: string)
    requires Distinct(path + [node]) && Chain(byId, path + [node])
    ensures Distinct(path) && Chain(byId, path) && node !in path
  {
    var inner := path + [node];
    forall i | 0 <= i < |path| - 1 ensures Needs(byId, path[i], path[i + 1]) {
      assert Needs(byId, inner[i], inner[i + 1]);
    }
    forall i | 0 <= i < |path| ensures path[i] != node { assert inner[i] != inner[|path|]; }
    forall i, j | 0 <= i < j < |path| ensures path[i] != path[j] { assert inner[i] != inner[j]; }
  }

  lemma OrderSnoc(byId: Catalogue, order: seq<string>, node: string)
    requires Distinct(order) && Sorted(byId, order) && node !in order && forall d | Needs(byId, node, d) :: d in order
    ensures Distinct(order + [node]) && Sorted(byId, order + [node])
  {
    var longer := order + [node];
    forall i, d | 0 <= i < |longer| && Needs(byId, longer[i], d) ensures d in longer[..i] {
      if i < |order| {
        assert Needs(byId, order[i], d) && longer[..i] == order[..i];
      } else {
        assert longer[..i] == order;
      }
    }
  }

  /** Meeting an open node again closes a cycle along the chain. */
  lemma CloseCycle(byId: Catalogue, path: seq<string>, node: string)
    requires Chain(byId, path) && node in path && Needs(byId, path[|path| - 1], node)
    ensures exists cycle :: Cycle(byId, cycle)
  {
    var i :| 0 <= i < |path| && path[i] == node;
    var cycle := path[i..] + [node];
    forall k | 0 <= k < |cycle| - 1 ensures Needs(byId, cycle[k], cycle[k + 1]) {
      if k < |cycle| - 2 { assert Needs(byId, path[i + k], path[i + k + 1]); }
    }
    assert Cycle(byId, cycle);
  }
}

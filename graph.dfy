/** The dependency graph between spock classes (spock/graph.py): which classes
    reference which, and the rejection of cyclic references by a depth-first
    search that keeps a recursion stack. Classes are identified by name. */
module Graph {
  import opened Results
  import opened Values
  import opened Types

  type Node = string

  /** Each class maps to the set of classes that reference it: an edge goes from
      a dependency to its dependent. */
  type Dag = map<Node, set<Node>>

  // ---------------------------------------------------------------------------
  // References between classes

  /** The classes an enum refers to: its members whose value is a class. */
  function EnumClasses(members: seq<Value>): (r: seq<Node>)
    ensures forall n :: n in r <==> ClassRef(n) in members
  {
    if members == [] then []
    else (if members[0].ClassRef? then [members[0].name] else []) + EnumClasses(members[1..])
  }

  /** Whether an attribute's recorded type is `list` or the bare `typing.List`
      (a `List` subscripted with a type variable): the two the list test admits. */
  predicate IsListType(t: PyType) {
    t == Prim("list") || (t.ListOf? && t.elem.TypeVarT?)
  }

  /** The classes one attribute refers to: directly, through an enum whose
      members include a class, or through `List[C]`. Looking up the list's
      element type reads metadata["type"], which raises KeyError when absent,
      as it is for a bare `List`. */
  function AttrDeps(a: Attribute): Result<seq<Node>> {
    match a.typ
    case ClassT(n) => Ok([n])
    case EnumOf(_, ms) =>
      if exists m :: m in ms && m.ClassRef? then Ok(EnumClasses(ms)) else Ok([])
    case Prim(p) => if p == "list" then ListDeps(a.metaType) else Ok([])
    case ListOf(e) => if e.TypeVarT? then ListDeps(a.metaType) else Ok([])
    case _ => Ok([])
  }

  /** `_is_spock_instance(v.metadata["type"].__args__[0])` for a list attribute
      whose `type` metadata is `metaType`. */
  function ListDeps(metaType: Option<PyType>): Result<seq<Node>> {
    if metaType.None? then Err(KeyError)
    else
      var args := Args(metaType.value);
      if args == [] then Err(IndexError)
      else if args[0].ClassT? then Ok([args[0].name]) else Ok([])
  }

  /** The lookup fails exactly for a `list` or bare `List` whose element type
      cannot be read: KeyError without `type` metadata, IndexError when that type
      has no arguments; otherwise a list refers to its element class, if any. */
  lemma AttrDepsList(a: Attribute)
    ensures AttrDeps(a).Err? <==> IsListType(a.typ) && (a.metaType.None? || Args(a.metaType.value) == [])
    ensures AttrDeps(a).Err? ==> AttrDeps(a).exc == if a.metaType.None? then KeyError else IndexError
    ensures AttrDeps(a).Ok? && IsListType(a.typ) ==>
              AttrDeps(a).value == if Args(a.metaType.value)[0].ClassT? then [Args(a.metaType.value)[0].name] else []
  {
  }

  /** The references of a class, attribute by attribute. */
  function Deps(attrs: seq<Attribute>): (r: Result<seq<Node>>)
    ensures r.Err? ==> exists i :: 0 <= i < |attrs| && AttrDeps(attrs[i]) == r
                                   && forall j :: 0 <= j < i ==> AttrDeps(attrs[j]).Ok?
  {
    if attrs == [] then Ok([])
    else
      var d := AttrDeps(attrs[0]);
      var rest := Deps(attrs[1..]);
      if d.Err? then d
      else if rest.Err? then rest
      else Ok(d.value + rest.value)
  }

  lemma {:induction false} DepsMembers(attrs: seq<Attribute>, n: Node)
    requires Deps(attrs).Ok?
    ensures forall i :: 0 <= i < |attrs| ==> AttrDeps(attrs[i]).Ok?
    ensures n in Deps(attrs).value <==> exists i :: 0 <= i < |attrs| && n in AttrDeps(attrs[i]).value
  {
    if attrs != [] {
      DepsMembers(attrs[1..], n);
      forall i | 0 < i < |attrs| ensures AttrDeps(attrs[i]).Ok? {
        assert attrs[1..][i - 1] == attrs[i];
      }
      if n in Deps(attrs[1..]).value {
        var i :| 0 <= i < |attrs[1..]| && n in AttrDeps(attrs[1..][i]).value;
        assert attrs[1..][i] == attrs[i + 1];
      }
      if exists i :: 0 < i < |attrs| && n in AttrDeps(attrs[i]).value {
        var i :| 0 < i < |attrs| && n in AttrDeps(attrs[i]).value;
        assert attrs[1..][i - 1] == attrs[i];
      }
    }
  }

  lemma {:induction false} DepsErr(attrs: seq<Attribute>)
    ensures Deps(attrs).Err? <==> exists i :: 0 <= i < |attrs| && AttrDeps(attrs[i]).Err?
  {
    if attrs != [] {
      DepsErr(attrs[1..]);
      if exists i :: 0 < i < |attrs| && AttrDeps(attrs[i]).Err? {
        var i :| 0 < i < |attrs| && AttrDeps(attrs[i]).Err?;
        assert attrs[1..][i - 1] == attrs[i];
      }
      if Deps(attrs[1..]).Err? {
        var i :| 0 <= i < |attrs[1..]| && AttrDeps(attrs[1..][i]).Err?;
        assert attrs[1..][i] == attrs[i + 1];
      }
    }
  }

  /** `deps` followed by the references `rest`, or the failure of `rest`. */
  function After(deps: seq<Node>, rest: Result<seq<Node>>): Result<seq<Node>> {
    match rest
    case Err(e) => Err(e)
    case Ok(ns) => Ok(deps + ns)
  }

  /** One step of the loop: attribute `i` either fails or joins the references before it. */
  lemma DepsStep(attrs: seq<Attribute>, i: nat, deps: seq<Node>)
    requires i < |attrs|
    ensures var d := AttrDeps(attrs[i]);
            After(deps, Deps(attrs[i..])) == if d.Err? then Err(d.exc) else After(deps + d.value, Deps(attrs[i + 1..]))
  {
    assert attrs[i..][0] == attrs[i] && attrs[i..][1..] == attrs[i + 1..];
    var d := AttrDeps(attrs[i]);
    if d.Ok? {
      match Deps(attrs[i + 1..])
      case Err(_) =>
      case Ok(ns) => assert deps + (d.value + ns) == (deps + d.value) + ns;
    }
  }

  /** `_find_all_spock_classes`: collects the references of every attribute in order. */
  method FindAllSpockClasses(c: SpockClass) returns (r: Result<seq<Node>>)
    ensures r == Deps(c.attrs)
  {
    var deps: seq<Node> := [];
    var i := 0;
    assert c.attrs[0..] == c.attrs;
    match Deps(c.attrs) {
      case Err(_) =>
      case Ok(ns) => assert [] + ns == ns;
    }
    while i < |c.attrs|
      invariant 0 <= i <= |c.attrs|
      invariant Deps(c.attrs) == After(deps, Deps(c.attrs[i..]))
      decreases |c.attrs| - i
    {
      DepsStep(c.attrs, i, deps);
      var d := AttrDeps(c.attrs[i]);
      if d.Err? {
        return Err(d.exc);
      }
      deps := deps + d.value;
      i := i + 1;
    }
    assert c.attrs[i..] == [];
    assert deps + [] == deps;
    return Ok(deps);
  }

  /** One of the first `i` classes is named `u` and refers to `v`. */
  predicate RefBefore(classes: seq<SpockClass>, i: nat, u: Node, v: Node)
    requires i <= |classes|
  {
    exists k :: 0 <= k < i && classes[k].name == u && Deps(classes[k].attrs).Ok?
                && v in Deps(classes[k].attrs).value
  }

  /** Class `u` references class `v` (some attribute of `u` refers to `v`). */
  predicate References(classes: seq<SpockClass>, u: Node, v: Node) {
    RefBefore(classes, |classes|, u, v)
  }

  /** Class number `k` can be analysed and refers only to input classes. */
  predicate Resolves(classes: seq<SpockClass>, k: nat)
    requires k < |classes|
  {
    Deps(classes[k].attrs).Ok? && forall v :: v in Deps(classes[k].attrs).value ==> v in ClassNames(classes)
  }

  /** `_build` fails when a class cannot be analysed or refers to a class that is
      not among the inputs (`nodes.get(v)` is then None). */
  predicate BuildFails(classes: seq<SpockClass>) {
    exists k :: 0 <= k < |classes| && !Resolves(classes, k)
  }

  /** The graph `_build` produces when it succeeds. */
  function BuiltDag(classes: seq<SpockClass>): Dag {
    map v | v in ClassNames(classes) :: set u | u in ClassNames(classes) && References(classes, u, v)
  }

  lemma RefBeforeStep(classes: seq<SpockClass>, i: nat, u: Node, v: Node)
    requires i < |classes| && Deps(classes[i].attrs).Ok?
    ensures RefBefore(classes, i + 1, u, v) <==>
            RefBefore(classes, i, u, v) || (u == classes[i].name && v in Deps(classes[i].attrs).value)
  {
  }

  lemma ReferrerIsInput(classes: seq<SpockClass>, u: Node, v: Node)
    requires References(classes, u, v)
    ensures u in ClassNames(classes)
  {
    var k :| 0 <= k < |classes| && classes[k].name == u && Deps(classes[k].attrs).Ok?
             && v in Deps(classes[k].attrs).value;
  }

  /** `_build`: one node per input class, and `u` in `dag[v]` exactly when `u`
      references `v`; several references from `u` to `v` give one edge. */
  method Build(classes: seq<SpockClass>) returns (r: Result<Dag>)
    ensures r.Err? <==> BuildFails(classes)
    ensures r.Ok? ==> r.value == BuiltDag(classes)
    ensures r.Ok? ==> r.value.Keys == set n | n in ClassNames(classes)
    ensures r.Ok? ==> forall v, u :: v in r.value ==> (u in r.value[v] <==> References(classes, u, v))
  {
    var names := ClassNames(classes);
    var nodes: map<Node, seq<Node>> := map n | n in names :: [];
    var i := 0;
    while i < |classes|
      invariant 0 <= i <= |classes|
      invariant nodes.Keys == set n | n in names
      invariant forall k :: 0 <= k < i ==> Resolves(classes, k)
      invariant forall v, u :: v in nodes ==> (u in nodes[v] <==> RefBefore(classes, i, u, v))
    {
      var deps := FindAllSpockClasses(classes[i]);
      assert forall v, u :: v in nodes ==> (u in nodes[v] <==> RefBefore(classes, i, u, v));
      if deps.Err? {
        assert !Resolves(classes, i);
        return Err(deps.exc);
      }
      var name := classes[i].name;
      var added := AddReferrer(nodes, name, deps.value);
      if added.None? {
        assert !Resolves(classes, i);
        return Err(AttributeError);
      }
      nodes := added.value;
      forall v, u | v in nodes ensures u in nodes[v] <==> RefBefore(classes, i + 1, u, v) {
        RefBeforeStep(classes, i, u, v);
      }
      i := i + 1;
    }
    var dag := map v | v in nodes :: set u | u in nodes[v];
    BuiltDagIs(classes, nodes);
    return Ok(dag);
  }

  /** The inner loop of `_build`: `name` is appended to the dependents of each
      class it references; `nodes.get(v)` is None for a class outside the graph,
      which fails. */
  method AddReferrer(nodes0: map<Node, seq<Node>>, name: Node, ds: seq<Node>) returns (r: Option<map<Node, seq<Node>>>)
    ensures r.None? <==> exists v :: v in ds && v !in nodes0
    ensures r.Some? ==> r.value.Keys == nodes0.Keys && AddedEdges(nodes0, r.value, name, ds)
  {
    var nodes := nodes0;
    var j := 0;
    while j < |ds|
      invariant 0 <= j <= |ds|
      invariant nodes.Keys == nodes0.Keys
      invariant forall v :: v in ds[..j] ==> v in nodes
      invariant AddedEdges(nodes0, nodes, name, ds[..j])
    {
      var v := ds[j];
      if v !in nodes {
        return None;
      }
      AddEdge(nodes0, nodes, name, ds, j);
      nodes := nodes[v := nodes[v] + [name]];
      j := j + 1;
    }
    assert ds[..j] == ds;
    return Some(nodes);
  }

  /** `nodes` is `nodes0` with `name` appended under every class in `ds`. */
  ghost predicate AddedEdges(nodes0: map<Node, seq<Node>>, nodes: map<Node, seq<Node>>, name: Node, ds: seq<Node>) {
    forall x, u :: x in nodes && x in nodes0 ==> (u in nodes[x] <==> u in nodes0[x] || (u == name && x in ds))
  }

  lemma AddEdge(nodes0: map<Node, seq<Node>>, nodes: map<Node, seq<Node>>, name: Node, ds: seq<Node>, j: nat)
    requires j < |ds| && ds[j] in nodes && nodes.Keys == nodes0.Keys
    requires AddedEdges(nodes0, nodes, name, ds[..j])
    ensures AddedEdges(nodes0, nodes[ds[j] := nodes[ds[j]] + [name]], name, ds[..j + 1])
  {
    assert ds[..j + 1] == ds[..j] + [ds[j]];
  }

  lemma BuiltDagIs(classes: seq<SpockClass>, nodes: map<Node, seq<Node>>)
    requires nodes.Keys == set n | n in ClassNames(classes)
    requires forall v, u :: v in nodes ==> (u in nodes[v] <==> RefBefore(classes, |classes|, u, v))
    ensures (map v | v in nodes :: set u | u in nodes[v]) == BuiltDag(classes)
  {
    var dag := map v | v in nodes :: set u | u in nodes[v];
    var spec := BuiltDag(classes);
    forall v | v in dag ensures dag[v] == spec[v] {
      forall u ensures u in dag[v] <==> u in spec[v] {
        if References(classes, u, v) {
          ReferrerIsInput(classes, u, v);
        }
      }
    }
  }

  /** The `roots` property: the classes that no class references. */
  function Roots(dag: Dag): (r: set<Node>)
    ensures r <= dag.Keys
  {
    set k | k in dag && |dag[k]| == 0
  }

  /** A built graph's roots are exactly the input classes that no input class refers to. */
  lemma RootsAreUnreferenced(classes: seq<SpockClass>, dag: Dag, v: Node)
    requires dag.Keys == set n | n in ClassNames(classes)
    requires forall v, u :: v in dag ==> (u in dag[v] <==> References(classes, u, v))
    ensures v in Roots(dag) <==> v in ClassNames(classes) && forall u :: !References(classes, u, v)
  {
    if v in dag && |dag[v]| != 0 {
      var u :| u in dag[v];
      assert References(classes, u, v);
    }
  }

  // ---------------------------------------------------------------------------
  // Cycles

  predicate Edge(dag: Dag, u: Node, v: Node) {
    u in dag && v in dag[u]
  }

  /** Consecutive nodes of `p` are joined by edges. */
  predicate Chain(dag: Dag, p: seq<Node>) {
    forall i :: 0 <= i < |p| - 1 ==> Edge(dag, p[i], p[i + 1])
  }

  predicate IsCycle(dag: Dag, p: seq<Node>) {
    |p| >= 2 && p[0] == p[|p| - 1] && Chain(dag, p)
  }

  ghost predicate HasCycle(dag: Dag) {
    exists p :: IsCycle(dag, p)
  }

  /** A node all of whose search is finished: visited and off the stack. */
  predicate Done(visited: map<Node, bool>, stack: map<Node, bool>, n: Node) {
    n in visited && n in stack && visited[n] && !stack[n]
  }

  /** The stack flags mark exactly the nodes of the recursion path. */
  predicate OnPath(stack: map<Node, bool>, path: seq<Node>) {
    forall n :: n in stack ==> (stack[n] <==> n in path)
  }

  /** Every finished node has a finishing time below `clock`, and each edge out
      of it leads to a finished node with a smaller finishing time. */
  predicate Ranked(dag: Dag, visited: map<Node, bool>, stack: map<Node, bool>,
                   fin: map<Node, nat>, clock: nat)
    requires visited.Keys == dag.Keys && stack.Keys == dag.Keys
  {
    forall n :: n in dag && Done(visited, stack, n) ==>
      n in fin && fin[n] < clock &&
      forall v :: v in dag[n] && v in dag ==> Done(visited, stack, v) && v in fin && fin[v] < fin[n]
  }

  /** The state of the search: `path` is the recursion stack in order, its
      nodes are visited and joined by edges, and the finished nodes are ranked. */
  ghost predicate SearchState(dag: Dag, visited: map<Node, bool>, stack: map<Node, bool>,
                              path: seq<Node>, fin: map<Node, nat>, clock: nat)
  {
    visited.Keys == dag.Keys && stack.Keys == dag.Keys
    && OnPath(stack, path)
    && (forall i :: 0 <= i < |path| ==> path[i] in dag && visited[path[i]])
    && Chain(dag, path)
    && Ranked(dag, visited, stack, fin, clock)
  }

  function Unvisited(visited: map<Node, bool>): set<Node> {
    set n | n in visited && !visited[n]
  }

  /** Every visited node stays visited. */
  predicate Grows(visited: map<Node, bool>, visited': map<Node, bool>) {
    visited'.Keys == visited.Keys && forall n :: n in visited && visited[n] ==> visited'[n]
  }

  /** After a finished child search from `w`, the dependents handled so far,
      `w` included, are finished and visited nodes stay visited. */
  lemma AfterChild(dag: Dag, node: Node, w: Node, todo0: set<Node>,
                   v1: map<Node, bool>, v0: map<Node, bool>, v: map<Node, bool>, s: map<Node, bool>)
    requires v0.Keys == dag.Keys && s.Keys == dag.Keys && node in dag && w in dag && !s[w]
    requires Grows(v1, v0) && Grows(v0[w := true], v)
    requires forall u :: u in dag[node] && u !in todo0 && u in dag ==> Done(v0, s, u)
    ensures Grows(v1, v)
    ensures forall u :: u in dag[node] && u !in todo0 - {w} && u in dag ==> Done(v, s, u)
  {
  }

  /** A dependent that is visited and off the stack is already finished. */
  lemma SkipFinished(dag: Dag, node: Node, w: Node, todo0: set<Node>, v: map<Node, bool>, s: map<Node, bool>)
    requires v.Keys == dag.Keys && s.Keys == dag.Keys && node in dag
    requires !(w in v && !v[w]) && !(w in s && s[w])
    requires forall u :: u in dag[node] && u !in todo0 && u in dag ==> Done(v, s, u)
    ensures forall u :: u in dag[node] && u !in todo0 - {w} && u in dag ==> Done(v, s, u)
  {
  }

  lemma StackedInPath(stack: map<Node, bool>, path: seq<Node>, w: Node)
    requires OnPath(stack, path) && w in stack && stack[w]
    ensures exists j :: 0 <= j < |path| && path[j] == w
  {
  }

  lemma RestoreStack(stack: map<Node, bool>, node: Node)
    requires node in stack && !stack[node]
    ensures stack[node := true][node := false] == stack
  {
  }

  lemma UnvisitedShrinks(visited: map<Node, bool>, v: map<Node, bool>, node: Node)
    requires Grows(visited[node := true], v) && node in visited && !visited[node]
    ensures Unvisited(v) < Unvisited(visited)
  {
    assert node in Unvisited(visited) && node !in Unvisited(v);
    forall n | n in Unvisited(v) ensures n in Unvisited(visited) {
      assert n != node;
    }
  }

  lemma CycleThroughStack(dag: Dag, p: seq<Node>, j: nat, w: Node)
    requires Chain(dag, p) && j < |p| && p[j] == w && Edge(dag, p[|p| - 1], w)
    ensures HasCycle(dag)
  {
    var c := p[j..] + [w];
    forall i | 0 <= i < |c| - 1 ensures Edge(dag, c[i], c[i + 1]) {
      if i < |c| - 2 {
        assert c[i] == p[j + i] && c[i + 1] == p[j + i + 1];
      }
    }
    assert IsCycle(dag, c);
  }

  /** Entering `node`: it joins the path; no finished node changes. */
  lemma Push(dag: Dag, visited: map<Node, bool>, stack: map<Node, bool>,
             path: seq<Node>, fin: map<Node, nat>, clock: nat, node: Node)
    requires SearchState(dag, visited, stack, path, fin, clock)
    requires node in dag && !visited[node]
    requires path != [] ==> Edge(dag, path[|path| - 1], node)
    ensures node !in path && !stack[node]
    ensures SearchState(dag, visited[node := true], stack[node := true], path + [node], fin, clock)
  {
    var v, s, p := visited[node := true], stack[node := true], path + [node];
    forall i | 0 <= i < |p| - 1 ensures Edge(dag, p[i], p[i + 1]) {
      if i < |p| - 2 { assert p[i] == path[i] && p[i + 1] == path[i + 1]; }
    }
    forall n | n in dag ensures Done(v, s, n) <==> Done(visited, stack, n) {
      if n == node { assert !Done(visited, stack, n); }
    }
    forall i | 0 <= i < |p| ensures p[i] in dag && v[p[i]] {
      if i < |path| { assert p[i] == path[i]; }
    }
  }

  /** Leaving `node` once all its dependents are finished: it becomes finished
      with the newest finishing time. */
  lemma Pop(dag: Dag, v: map<Node, bool>, s: map<Node, bool>,
            path: seq<Node>, f: map<Node, nat>, c: nat, node: Node)
    requires SearchState(dag, v, s, path + [node], f, c)
    requires node in dag && node !in path
    requires forall w :: w in dag[node] && w in dag ==> Done(v, s, w)
    ensures SearchState(dag, v, s[node := false], path, f[node := c], c + 1)
  {
    var s', f' := s[node := false], f[node := c];
    assert s[node];
    forall n | n in dag && n != node ensures Done(v, s', n) <==> Done(v, s, n) {
    }
    forall i | 0 <= i < |path| ensures path[i] in dag && v[path[i]] {
      assert path[i] == (path + [node])[i];
    }
    forall i | 0 <= i < |path| - 1 ensures Edge(dag, path[i], path[i + 1]) {
      assert path[i] == (path + [node])[i] && path[i + 1] == (path + [node])[i + 1];
    }
    forall n | n in dag && Done(v, s', n)
      ensures n in f' && f'[n] < c + 1
      ensures forall w :: w in dag[n] && w in dag ==> Done(v, s', w) && w in f' && f'[w] < f'[n]
    {
      if n != node {
        assert Done(v, s, n);
        forall w | w in dag[n] && w in dag ensures Done(v, s', w) && w in f' && f'[w] < f'[n] {
          assert Done(v, s, w);
        }
      } else {
        forall w | w in dag[n] && w in dag ensures Done(v, s', w) && w in f' && f'[w] < f'[n] {
          assert Done(v, s, w);
        }
      }
    }
  }

  /** `_cycle_dfs`: marks `node` visited and on the stack, searches its
      dependents, and reports a cycle when it meets a node on the stack. */
  method CycleDfs(dag: Dag, node: Node, visited: map<Node, bool>, stack: map<Node, bool>,
                  ghost path: seq<Node>, ghost fin: map<Node, nat>, ghost clock: nat)
    returns (found: bool, visited': map<Node, bool>, stack': map<Node, bool>,
             ghost fin': map<Node, nat>, ghost clock': nat)
    requires SearchState(dag, visited, stack, path, fin, clock)
    requires node in dag && !visited[node]
    requires path != [] ==> Edge(dag, path[|path| - 1], node)
    ensures found ==> HasCycle(dag)
    ensures !found ==> SearchState(dag, visited', stack', path, fin', clock')
    ensures !found ==> Grows(visited[node := true], visited') && stack' == stack
    decreases Unvisited(visited), 1
  {
    Push(dag, visited, stack, path, fin, clock, node);
    var v := visited[node := true];
    var s := stack[node := true];
    ghost var p := path + [node];
    ghost var f := fin;
    ghost var c := clock;
    var todo := dag[node];
    while todo != {}
      invariant SearchState(dag, v, s, p, f, c)
      invariant todo <= dag[node]
      invariant s == stack[node := true]
      invariant Grows(visited[node := true], v)
      invariant forall w :: w in dag[node] && w !in todo && w in dag ==> Done(v, s, w)
      decreases todo
    {
      var w :| w in todo;
      var r;
      r, v, s, f, c := VisitDependent(dag, node, w, todo, visited, stack, path, v, s, f, c);
      if r {
        return true, v, s, f, c;
      }
      todo := todo - {w};
    }
    Pop(dag, v, s, path, f, c, node);
    RestoreStack(stack, node);
    s := s[node := false];
    f := f[node := c];
    c := c + 1;
    return false, v, s, f, c;
  }

  /** One dependent `w` of `node` in `_cycle_dfs`: an unvisited one is searched,
      one on the stack closes a cycle, and a finished one is passed over. */
  method VisitDependent(dag: Dag, node: Node, w: Node, todo: set<Node>,
                        visited: map<Node, bool>, stack: map<Node, bool>, ghost path: seq<Node>,
                        v: map<Node, bool>, s: map<Node, bool>, ghost f: map<Node, nat>, ghost c: nat)
    returns (found: bool, v': map<Node, bool>, s': map<Node, bool>, ghost f': map<Node, nat>, ghost c': nat)
    requires node in dag && node in visited && !visited[node] && w in todo
    requires SearchState(dag, v, s, path + [node], f, c)
    requires todo <= dag[node] && s == stack[node := true] && Grows(visited[node := true], v)
    requires forall u :: u in dag[node] && u !in todo && u in dag ==> Done(v, s, u)
    ensures found ==> HasCycle(dag)
    ensures !found ==> SearchState(dag, v', s', path + [node], f', c')
    ensures !found ==> s' == s && Grows(visited[node := true], v')
    ensures !found ==> forall u :: u in dag[node] && u !in todo - {w} && u in dag ==> Done(v', s', u)
    decreases Unvisited(visited), 0
  {
    ghost var p := path + [node];
    if w in v && !v[w] {
      UnvisitedShrinks(visited, v, node);
      assert Edge(dag, p[|p| - 1], w);
      assert w !in p;
      found, v', s', f', c' := CycleDfs(dag, w, v, s, p, f, c);
      if !found {
        AfterChild(dag, node, w, todo, visited[node := true], v, v', s);
      }
    } else if w in s && s[w] {
      StackedInPath(s, p, w);
      ghost var j :| 0 <= j < |p| && p[j] == w;
      CycleThroughStack(dag, p, j, w);
      return true, v, s, f, c;
    } else {
      SkipFinished(dag, node, w, todo, v, s);
      return false, v, s, f, c;
    }
  }

  /** A finishing-time ranking that decreases along every edge rules out cycles. */
  lemma {:induction false} RankDecreases(dag: Dag, fin: map<Node, nat>, p: seq<Node>)
    requires forall n :: n in dag ==> n in fin && forall v :: v in dag[n] && v in dag ==> v in fin && fin[v] < fin[n]
    requires |p| >= 2 && Chain(dag, p) && p[|p| - 1] in dag
    ensures p[0] in fin && p[|p| - 1] in fin && fin[p[|p| - 1]] < fin[p[0]]
  {
    assert Edge(dag, p[0], p[1]);
    if |p| > 2 {
      assert Edge(dag, p[1], p[2]);
      RankDecreases(dag, fin, p[1..]);
    }
  }

  /** `_has_cycles`: depth-first search from every node not yet visited. */
  method HasCycles(dag: Dag) returns (r: bool)
    ensures r <==> HasCycle(dag)
  {
    var visited := map n | n in dag :: false;
    var stack := map n | n in dag :: false;
    ghost var fin: map<Node, nat> := map[];
    ghost var clock: nat := 0;
    var todo := dag.Keys;
    while todo != {}
      invariant SearchState(dag, visited, stack, [], fin, clock)
      invariant todo <= dag.Keys
      invariant forall n :: n in dag && n !in todo ==> visited[n]
      decreases todo
    {
      var n :| n in todo;
      todo := todo - {n};
      if !visited[n] {
        var found;
        found, visited, stack, fin, clock := CycleDfs(dag, n, visited, stack, [], fin, clock);
        if found {
          return true;
        }
      }
    }
    FinishedAcyclic(dag, visited, stack, fin, clock);
    return false;
  }

  /** Once every node is visited with the path empty, the finishing times rank
      the whole graph, and so it has no cycle. */
  lemma FinishedAcyclic(dag: Dag, visited: map<Node, bool>, stack: map<Node, bool>, fin: map<Node, nat>, clock: nat)
    requires SearchState(dag, visited, stack, [], fin, clock)
    requires forall n :: n in dag ==> visited[n]
    ensures !HasCycle(dag)
  {
    forall n | n in dag ensures n in fin && forall v :: v in dag[n] && v in dag ==> v in fin && fin[v] < fin[n] {
      assert Done(visited, stack, n);
    }
    if HasCycle(dag) {
      var p :| IsCycle(dag, p);
      assert Edge(dag, p[|p| - 2], p[|p| - 1]);
      assert p[|p| - 1] in dag by { assert Edge(dag, p[0], p[1]); }
      RankDecreases(dag, fin, p);
    }
  }

  /** The `Graph` constructor: builds the graph and raises ValueError when it has a cycle. */
  method NewGraph(classes: seq<SpockClass>) returns (r: Result<Dag>)
    ensures r.Ok? <==> !BuildFails(classes) && !HasCycle(BuiltDag(classes))
    ensures r.Ok? ==> r.value == BuiltDag(classes)
    ensures r.Err? && !BuildFails(classes) ==> r.exc == ValueError
  {
    r := Build(classes);
    if r.Ok? {
      var cyclic := HasCycles(r.value);
      if cyclic {
        r := Err(ValueError);
      }
    }
  }
}

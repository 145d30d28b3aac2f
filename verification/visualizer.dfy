/**
 * The graph model behind Wirer::Visualizer: every named factory and every
 * dependency it declares becomes a node, a (class, features) pair; a node is
 * below another when its class is a subclass and it has at least the other's
 * features, and each node is linked to one node above it.
 */
module Visualizer {
  import opened Base
  import opened OrderedMaps
  import opened Classes
  import opened Errors
  import opened Values
  import opened FactoryInterface
  import opened Dependencies
  import Registry

  /** A node of the graph: a class and the features it is drawn with. */
  datatype Node = Node(cls: ClassId, features: seq<Value>)

  /** The classes whose featureless nodes are not drawn. */
  const GenericModules: seq<ClassId> := [ObjectId, StringId, HashId]

  /** `features.compact.uniq - [:default]`. */
  function CleanFeatures(xs: seq<Value>): (r: seq<Value>)
    ensures NoDuplicates(r)
    ensures forall x :: x in r <==> x in xs && x != Nil && x != Sym("default")
  {
    Without(Dedup(Without(xs, Nil)), Sym("default"))
  }

  /**
   * `node_from_factory(f, method_name)`: the provided class, and the
   * provided features without nil, repeats or `:default`; the method name is
   * dropped from them too unless the class is Object.
   */
  function NodeFromFactory(f: Factory, methodName: Value): (n: Node)
    ensures n.cls == ProvidesClass(f)
    ensures NoDuplicates(n.features)
    ensures forall x :: x in n.features <==>
      x in ProvidesFeatures(f) && x != Nil && x != Sym("default") && (ProvidesClass(f) != ObjectId ==> x != methodName)
  {
    var fs := Dedup(Without(ProvidesFeatures(f), Nil));
    var named := if ProvidesClass(f) != ObjectId then Without(fs, methodName) else fs;
    Node(ProvidesClass(f), Without(named, Sym("default")))
  }

  /**
   * `node_from_dependency(dep)`: the required class (Object when none), and
   * the required features without nil, repeats or `:default`. Resolving a
   * class name that names nothing raises, and so does a `:features` value
   * that is neither nil nor an Array.
   */
  function NodeFromDependency(d: Dependency, ns: map<string, Mod>): (r: Result<Node, ErrorClass>)
    ensures r.Err? <==> Resolved(d, ns).Err? || (Truthy(d.features) && !d.features.Arr?)
    ensures r.Ok? ==> r.value.cls == if Resolved(d, ns).value.Some? then Resolved(d, ns).value.value.id else ObjectId
    ensures r.Ok? ==> NoDuplicates(r.value.features)
    ensures r.Ok? ==> forall x :: x in r.value.features <==> x in FeatureList(d.features) && x != Nil && x != Sym("default")
  {
    match Resolved(d, ns)
    case Err(e) => Err(e)
    case Ok(rc) =>
      var cls := if rc.Some? then rc.value.id else ObjectId;
      if !Truthy(d.features) then Ok(Node(cls, []))
      else if d.features.Arr? then Ok(Node(cls, CleanFeatures(d.features.elems)))
      else Err(NoMethodError)
  }

  /** The nodes of some dependencies, in order; the first that cannot be made a node raises. */
  function DependencyNodes(ds: seq<Dependency>, ns: map<string, Mod>): (r: Result<seq<Node>, ErrorClass>)
    ensures r.Ok? <==> forall i :: 0 <= i < |ds| ==> NodeFromDependency(ds[i], ns).Ok?
    ensures r.Ok? ==> |r.value| == |ds| && forall i :: 0 <= i < |ds| ==> r.value[i] == NodeFromDependency(ds[i], ns).value
    decreases |ds|
  {
    if |ds| == 0 then Ok([])
    else
      var first := NodeFromDependency(ds[0], ns);
      var rest := DependencyNodes(ds[1..], ns);
      DependencyNodesStep(ds, ns, first, rest);
      if first.Err? then Err(first.error)
      else if rest.Err? then Err(rest.error)
      else Ok([first.value] + rest.value)
  }

  /** How the nodes of the first dependency and of the others make up the nodes of all. */
  lemma DependencyNodesStep(ds: seq<Dependency>, ns: map<string, Mod>, first: Result<Node, ErrorClass>, rest: Result<seq<Node>, ErrorClass>)
    requires |ds| > 0 && first == NodeFromDependency(ds[0], ns)
    requires rest.Ok? <==> forall i :: 0 <= i < |ds| - 1 ==> NodeFromDependency(ds[1..][i], ns).Ok?
    requires rest.Ok? ==> |rest.value| == |ds| - 1 && forall i :: 0 <= i < |ds| - 1 ==> rest.value[i] == NodeFromDependency(ds[1..][i], ns).value
    ensures first.Ok? && rest.Ok? <==> forall i :: 0 <= i < |ds| ==> NodeFromDependency(ds[i], ns).Ok?
    ensures first.Ok? && rest.Ok? ==> forall i :: 0 < i < |ds| ==> rest.value[i - 1] == NodeFromDependency(ds[i], ns).value
  {
    assert forall i :: 0 < i < |ds| ==> ds[1..][i - 1] == ds[i];
    if first.Ok? && !rest.Ok? {
      var j :| 0 <= j < |ds| - 1 && NodeFromDependency(ds[1..][j], ns).Err?;
      assert NodeFromDependency(ds[j + 1], ns).Err?;
    }
  }

  /**
   * What one named factory contributes: a node per dependency of its merged
   * constructor and setter tables, then its own node.
   */
  function FactoryNodes(name: Value, f: Factory, ns: map<string, Mod>): (r: Result<seq<Node>, ErrorClass>)
    ensures r.Ok? ==> |r.value| > 0 && r.value[|r.value| - 1] == NodeFromFactory(f, name)
  {
    var deps := Merge(ConstructorDependencies(f), SetterDependencies(f, Nil));
    match DependencyNodes(OrderedMaps.Values(deps), ns)
    case Err(e) => Err(e)
    case Ok(dn) => Ok(dn + [NodeFromFactory(f, name)])
  }

  /** The concatenation of some node lists, in order; the first failure is the result's. */
  function Flatten(parts: seq<Result<seq<Node>, ErrorClass>>): (r: Result<seq<Node>, ErrorClass>)
    decreases |parts|
  {
    if |parts| == 0 then Ok([])
    else match parts[0]
      case Err(e) => Err(e)
      case Ok(first) =>
        match Flatten(parts[1..])
        case Err(e) => Err(e)
        case Ok(rest) => Ok(first + rest)
  }

  /** Each part of a successful concatenation succeeded, and its nodes are in the result. */
  lemma {:induction false} FlattenContains(parts: seq<Result<seq<Node>, ErrorClass>>, i: nat, x: Node)
    requires i < |parts| && Flatten(parts).Ok?
    ensures parts[i].Ok?
    ensures x in parts[i].value ==> x in Flatten(parts).value
    decreases |parts|
  {
    var rest := Flatten(parts[1..]);
    assert parts[0].Ok? && rest.Ok? && Flatten(parts).value == parts[0].value + rest.value;
    if i > 0 {
      assert parts[1..][i - 1] == parts[i];
      FlattenContains(parts[1..], i - 1, x);
    }
  }

  /** `factories_by_method_name.map {...}.flatten(1)`: every named factory's nodes, in registration order. */
  function RawNodes(named: seq<(Value, Factory)>, ns: map<string, Mod>): (r: Result<seq<Node>, ErrorClass>)
  {
    Flatten(seq(|named|, i requires 0 <= i < |named| => FactoryNodes(named[i].0, named[i].1, ns)))
  }

  /** Every named factory is drawn, with the name it is registered under. */
  lemma FactoryNodeDrawn(named: seq<(Value, Factory)>, ns: map<string, Mod>, i: nat)
    requires i < |named| && RawNodes(named, ns).Ok?
    ensures NodeFromFactory(named[i].1, named[i].0) in RawNodes(named, ns).value
  {
    var parts := seq(|named|, i requires 0 <= i < |named| => FactoryNodes(named[i].0, named[i].1, ns));
    var n := NodeFromFactory(named[i].1, named[i].0);
    FlattenContains(parts, i, n);
    var fn := parts[i].value;
    assert fn[|fn| - 1] == n;
  }

  /** A featureless node of Object, String or Hash, which is not drawn. */
  predicate Generic(n: Node) {
    n.features == [] && n.cls in GenericModules
  }

  /** `reject! {|mod, feat| feat.empty? && GENERIC_MODULES.include?(mod)}`. */
  function RejectGeneric(xs: seq<Node>): (r: seq<Node>)
    ensures forall n :: n in r <==> n in xs && !Generic(n)
    decreases |xs|
  {
    if |xs| == 0 then []
    else
      assert forall n :: n in xs <==> n == xs[0] || n in xs[1..] by { assert xs == [xs[0]] + xs[1..]; }
      if Generic(xs[0]) then RejectGeneric(xs[1..]) else [xs[0]] + RejectGeneric(xs[1..])
  }

  /** A featureless node for each class, in order. */
  function Bare(classes: seq<ClassId>): (r: seq<Node>)
    ensures forall n :: n in r <==> n.features == [] && n.cls in classes
  {
    var r := seq(|classes|, i requires 0 <= i < |classes| => Node(classes[i], []));
    assert forall n: Node :: n.features == [] && n.cls in classes ==> n in r by {
      forall n: Node | n.features == [] && n.cls in classes
        ensures n in r
      {
        var i :| 0 <= i < |classes| && classes[i] == n.cls;
        assert r[i] == n;
      }
    }
    r
  }

  /** The classes of some nodes, in order. */
  function ClassesOf(xs: seq<Node>): (r: seq<ClassId>)
    ensures forall c :: c in r <==> exists n :: n in xs && n.cls == c
  {
    var r := seq(|xs|, i requires 0 <= i < |xs| => xs[i].cls);
    assert forall n :: n in xs ==> n.cls in r by {
      forall n | n in xs
        ensures n.cls in r
      {
        var i :| 0 <= i < |xs| && xs[i] == n;
        assert r[i] == n.cls;
      }
    }
    r
  }

  /**
   * `nodes`: the nodes of all named factories and their dependencies, plus a
   * featureless node for every class among them, without repeats and without
   * the featureless Object, String and Hash nodes.
   */
  function Nodes(names: OMap<Value, Factory>, ns: map<string, Mod>): (r: Result<seq<Node>, ErrorClass>)
    ensures r.Ok? <==> RawNodes(names.entries, ns).Ok?
    ensures r.Ok? ==> NoDuplicates(r.value)
    ensures r.Ok? ==> forall n :: n in r.value ==> !Generic(n)
    ensures r.Ok? ==> forall n :: n in r.value <==>
      !Generic(n) && (n in RawNodes(names.entries, ns).value ||
                      (n.features == [] && exists m :: m in RawNodes(names.entries, ns).value && m.cls == n.cls))
  {
    match RawNodes(names.entries, ns)
    case Err(e) => Err(e)
    case Ok(raw) =>
      var unique := Dedup(raw);
      var withBare := unique + Bare(Dedup(ClassesOf(unique)));
      Ok(Dedup(RejectGeneric(withBare)))
  }

  /**
   * How `nodes` (and so `inheritance_edges`) starts as written: it sends
   * `factories_by_method_name` to the container, which defines no method of
   * that name and keeps the table in an instance variable only. The call
   * resolves only when a factory was itself added under the method name
   * `:factories_by_method_name`, and then it constructs that factory's object
   * instead of returning a table; `None` stands for that case, whose outcome
   * depends on the object built. Otherwise it is a NoMethodError.
   */
  function NodesOfContainerAsWritten(c: Registry.Container, ns: map<string, Mod>): Option<Result<seq<Node>, ErrorClass>> {
    if HasKey(c.names, Sym("factories_by_method_name")) then None else Some(Err(NoMethodError))
  }

  /**
   * `nodes` over the container's own name table, as evidently intended: every
   * factory registered under a method name is drawn with that name, unless
   * its node is a featureless Object, String or Hash.
   */
  function NodesOfContainer(c: Registry.Container, ns: map<string, Mod>): (r: Result<seq<Node>, ErrorClass>)
    ensures r.Ok? <==> RawNodes(c.names.entries, ns).Ok?
    ensures r.Ok? ==> NoDuplicates(r.value)
    ensures r.Ok? ==> forall i :: 0 <= i < |c.names.entries| && !Generic(NodeFromFactory(c.names.entries[i].1, c.names.entries[i].0)) ==>
      NodeFromFactory(c.names.entries[i].1, c.names.entries[i].0) in r.value
  {
    var r := Nodes(c.names, ns);
    forall i | 0 <= i < |c.names.entries| && r.Ok?
      ensures NodeFromFactory(c.names.entries[i].1, c.names.entries[i].0) in RawNodes(c.names.entries, ns).value
    {
      FactoryNodeDrawn(c.names.entries, ns, i);
    }
    r
  }

  /**
   * As written, `nodes` fails on any container with no factory added under
   * the method name `:factories_by_method_name`, a new container among them,
   * where the intended reading draws nothing for an empty container.
   */
  lemma NodesUndefinedMethod(c: Registry.Container, ns: map<string, Mod>)
    requires !HasKey(c.names, Sym("factories_by_method_name"))
    ensures NodesOfContainerAsWritten(c, ns) == Some(Err(NoMethodError))
    ensures NodesOfContainerAsWritten(Registry.NewContainer(), ns) == Some(Err(NoMethodError))
    ensures NodesOfContainer(Registry.NewContainer(), ns) == Ok([])
  {
    var raw := RawNodes(Registry.NewContainer().names.entries, ns);
    assert raw == Ok([]);
    assert Dedup(ClassesOf([])) == [];
  }

  // ---------------------------------------------------------------------------
  // Specialisation order and inheritance edges

  /** The two lists hold the same elements, whatever their order and repeats. */
  predicate SameElements(a: seq<Value>, b: seq<Value>) {
    (forall x :: x in a ==> x in b) && (forall x :: x in b ==> x in a)
  }

  /**
   * `less_than(child, parent)`: the child is not the parent, its class is the
   * parent's class or a descendant, and it has every feature of the parent.
   * As written, "is not the parent" compares the feature lists in order; the
   * corrected form compares them as sets.
   */
  predicate LessThanWith(h: Hierarchy, child: Node, parent: Node, asWritten: bool) {
    var same := child.cls == parent.cls && if asWritten then child.features == parent.features else SameElements(child.features, parent.features);
    !same && Le(h, child.cls, parent.cls) && AllProvided(parent.features, child.features)
  }

  /** `less_than` as the rest of the model uses it. */
  predicate LessThan(h: Hierarchy, child: Node, parent: Node) {
    LessThanWith(h, child, parent, false)
  }

  /** `less_than` exactly as written. */
  predicate LessThanAsWritten(h: Hierarchy, child: Node, parent: Node) {
    LessThanWith(h, child, parent, true)
  }

  /** A node is strictly below another exactly when it specialises it without being the same node. */
  lemma LessThanMeaning(h: Hierarchy, c: Node, p: Node)
    ensures LessThan(h, c, p) <==>
      && Le(h, c.cls, p.cls)
      && (forall x :: x in p.features ==> x in c.features)
      && (c.cls != p.cls || exists x :: x in c.features && x !in p.features)
    ensures LessThanAsWritten(h, c, p) <==>
      c != p && Le(h, c.cls, p.cls) && (forall x :: x in p.features ==> x in c.features)
    ensures !LessThan(h, c, c) && !LessThanAsWritten(h, c, c)
  {
  }

  /** No two distinct modules are each other's ancestor. */
  ghost predicate Acyclic(h: Hierarchy) {
    forall a, b :: Le(h, a, b) && Le(h, b, a) ==> a == b
  }

  /**
   * The corrected order is a strict order over an acyclic, closed hierarchy:
   * no node is below itself, no two nodes are below each other, and being
   * below is transitive.
   */
  lemma LessThanStrictOrder(h: Hierarchy, a: Node, b: Node, c: Node)
    requires WellFormed(h) && Acyclic(h)
    ensures !LessThan(h, a, a)
    ensures !(LessThan(h, a, b) && LessThan(h, b, a))
    ensures LessThan(h, a, b) && LessThan(h, b, c) ==> LessThan(h, a, c)
  {
    if LessThan(h, a, b) && LessThan(h, b, c) {
      LeTransitive(h, a.cls, b.cls, c.cls);
      if a.cls == c.cls {
        assert a.cls == b.cls;
      }
    }
  }

  /**
   * As written, two nodes of one class whose features differ only in order
   * are each below the other.
   */
  lemma FeatureOrderCycle(h: Hierarchy, k: ClassId, x: Value, y: Value)
    requires x != y
    ensures var c, p := Node(k, [x, y]), Node(k, [y, x]);
      LessThanAsWritten(h, c, p) && LessThanAsWritten(h, p, c) && !LessThan(h, c, p) && !LessThan(h, p, c)
  {
  }

  /**
   * The scan for a node's most immediate parent: a candidate above the child
   * replaces the current choice when there is none yet or it is below it.
   */
  function MostImmediateParent(h: Hierarchy, child: Node, ps: seq<Node>, best: Option<Node>, asWritten: bool): (r: Option<Node>)
    ensures r.Some? <==> best.Some? || exists j :: 0 <= j < |ps| && LessThanWith(h, child, ps[j], asWritten)
    ensures r.Some? && r != best ==> r.value in ps && LessThanWith(h, child, r.value, asWritten)
    decreases |ps|
  {
    if |ps| == 0 then best
    else
      var p := ps[0];
      var best' := if LessThanWith(h, child, p, asWritten) && (best.None? || LessThanWith(h, p, best.value, asWritten)) then Some(p) else best;
      var r := MostImmediateParent(h, child, ps[1..], best', asWritten);
      assert forall j :: 0 < j < |ps| ==> ps[j] == ps[1..][j - 1];
      r
  }

  /** Some node of `all` is above `child`. */
  predicate HasParent(h: Hierarchy, child: Node, all: seq<Node>, asWritten: bool) {
    exists p :: p in all && LessThanWith(h, child, p, asWritten)
  }

  /** Some edge starts at `child`. */
  predicate HasEdge(edges: seq<(Node, Node)>, child: Node) {
    exists j :: 0 <= j < |edges| && edges[j].0 == child
  }

  /** The edges for some children, each linked to its most immediate parent among all nodes, in order. */
  function EdgesFor(h: Hierarchy, children: seq<Node>, all: seq<Node>, asWritten: bool): (r: seq<(Node, Node)>)
    ensures |r| <= |children|
    ensures forall j :: 0 <= j < |r| ==> r[j].0 in children && r[j].1 in all && LessThanWith(h, r[j].0, r[j].1, asWritten)
    decreases |children|
  {
    if |children| == 0 then []
    else
      var rest := EdgesFor(h, children[1..], all, asWritten);
      match MostImmediateParent(h, children[0], all, None, asWritten)
      case None => rest
      case Some(p) => [(children[0], p)] + rest
  }

  /** An edge leaves a child only towards a node above it. */
  lemma EdgeHasParent(h: Hierarchy, children: seq<Node>, all: seq<Node>, asWritten: bool, x: Node)
    requires HasEdge(EdgesFor(h, children, all, asWritten), x)
    ensures HasParent(h, x, all, asWritten)
  {
    var r := EdgesFor(h, children, all, asWritten);
    var j :| 0 <= j < |r| && r[j].0 == x;
    assert r[j].1 in all && LessThanWith(h, x, r[j].1, asWritten);
  }

  /** The first child, when some node is above it, gets an edge. */
  lemma FirstChildEdge(h: Hierarchy, children: seq<Node>, all: seq<Node>, asWritten: bool)
    requires |children| > 0 && HasParent(h, children[0], all, asWritten)
    ensures HasEdge(EdgesFor(h, children, all, asWritten), children[0])
  {
    var p :| p in all && LessThanWith(h, children[0], p, asWritten);
    var k :| 0 <= k < |all| && all[k] == p;
    var m := MostImmediateParent(h, children[0], all, None, asWritten);
    assert m.Some?;
    assert EdgesFor(h, children, all, asWritten)[0] == (children[0], m.value);
  }

  /** An edge for a later child is kept when the first child is put in front. */
  lemma LaterEdgeKept(h: Hierarchy, children: seq<Node>, all: seq<Node>, asWritten: bool, x: Node)
    requires |children| > 0 && HasEdge(EdgesFor(h, children[1..], all, asWritten), x)
    ensures HasEdge(EdgesFor(h, children, all, asWritten), x)
  {
    var rest := EdgesFor(h, children[1..], all, asWritten);
    var j :| 0 <= j < |rest| && rest[j].0 == x;
    var m := MostImmediateParent(h, children[0], all, None, asWritten);
    if m.Some? {
      EdgeKeptBehind((children[0], m.value), rest, j);
    }
  }

  lemma EdgeKeptBehind(e: (Node, Node), rest: seq<(Node, Node)>, j: nat)
    requires j < |rest|
    ensures HasEdge([e] + rest, rest[j].0)
  {
    assert ([e] + rest)[j + 1] == rest[j];
  }

  /** A child with a node above it gets an edge. */
  lemma {:induction false} ParentGivesEdge(h: Hierarchy, children: seq<Node>, all: seq<Node>, asWritten: bool, i: nat)
    requires i < |children| && HasParent(h, children[i], all, asWritten)
    ensures HasEdge(EdgesFor(h, children, all, asWritten), children[i])
    decreases |children|
  {
    if i == 0 {
      FirstChildEdge(h, children, all, asWritten);
    } else {
      assert children[1..][i - 1] == children[i];
      ParentGivesEdge(h, children[1..], all, asWritten, i - 1);
      LaterEdgeKept(h, children, all, asWritten, children[i]);
    }
  }

  /**
   * `inheritance_edges`: for each node in order, an edge to its most
   * immediate parent, when some node is above it.
   */
  function InheritanceEdges(h: Hierarchy, nodes: seq<Node>): (r: seq<(Node, Node)>)
    ensures forall j :: 0 <= j < |r| ==> r[j].0 in nodes && r[j].1 in nodes && LessThan(h, r[j].0, r[j].1)
  {
    EdgesFor(h, nodes, nodes, false)
  }

  /** `inheritance_edges` with `less_than` as written. */
  function InheritanceEdgesAsWritten(h: Hierarchy, nodes: seq<Node>): (r: seq<(Node, Node)>)
    ensures forall j :: 0 <= j < |r| ==> r[j].0 in nodes && r[j].1 in nodes && LessThanAsWritten(h, r[j].0, r[j].1)
  {
    EdgesFor(h, nodes, nodes, true)
  }

  /** A node has an inheritance edge exactly when some node is strictly above it. */
  lemma InheritanceEdgeExists(h: Hierarchy, nodes: seq<Node>, i: nat)
    requires i < |nodes|
    ensures HasEdge(InheritanceEdges(h, nodes), nodes[i]) <==> exists p :: p in nodes && LessThan(h, nodes[i], p)
  {
    if HasParent(h, nodes[i], nodes, false) {
      ParentGivesEdge(h, nodes, nodes, false, i);
    }
    if HasEdge(InheritanceEdges(h, nodes), nodes[i]) {
      EdgeHasParent(h, nodes, nodes, false, nodes[i]);
    }
  }

  /** Over an acyclic hierarchy, no two nodes are linked to each other. */
  lemma NoMutualEdges(h: Hierarchy, nodes: seq<Node>, i: nat, j: nat)
    requires WellFormed(h) && Acyclic(h)
    requires i < |InheritanceEdges(h, nodes)| && j < |InheritanceEdges(h, nodes)|
    ensures var e := InheritanceEdges(h, nodes); !(e[i].0 == e[j].1 && e[i].1 == e[j].0)
  {
    var e := InheritanceEdges(h, nodes);
    LessThanStrictOrder(h, e[i].0, e[i].1, e[i].0);
  }

  /** As written, two nodes differing only in feature order are linked to each other. */
  lemma MutualEdgesAsWritten(h: Hierarchy, k: ClassId, x: Value, y: Value)
    requires x != y
    ensures var c, p := Node(k, [x, y]), Node(k, [y, x]);
      InheritanceEdgesAsWritten(h, [c, p]) == [(c, p), (p, c)] && InheritanceEdges(h, [c, p]) == []
  {
    var c, p := Node(k, [x, y]), Node(k, [y, x]);
    var all := [c, p];
    FeatureOrderCycle(h, k, x, y);
    assert all[1..] == [p] && all[1..][1..] == [];
    assert MostImmediateParent(h, c, [p], None, true) == Some(p);
    assert MostImmediateParent(h, c, all, None, true) == Some(p);
    assert MostImmediateParent(h, p, [p], Some(c), true) == Some(c);
    assert MostImmediateParent(h, p, all, None, true) == Some(c);
    assert EdgesFor(h, [p], all, true) == [(p, c)];
    assert MostImmediateParent(h, c, [p], None, false) == None;
    assert MostImmediateParent(h, c, all, None, false) == None;
    assert MostImmediateParent(h, p, [p], None, false) == None;
    assert MostImmediateParent(h, p, all, None, false) == None;
    assert EdgesFor(h, [p], all, false) == [];
  }
}

/**
  Inspection of a decoded ONNX model for external data. The source walks nested graphs with an
  explicit worklist; here the walk is proved equal to plain reachability at any nesting depth.
 */
module OnnxProbe {
  import opened EmbeddingCore

  datatype Tensor = Tensor(externalData: seq<(Option<string>, Option<string>)>, dataLocation: Option<int>)

  datatype Sparse = Sparse(values: Option<Tensor>, indices: Option<Tensor>)

  datatype Graph = Graph(nodes: seq<Node>, initializers: seq<Tensor>, sparseInitializers: seq<Sparse>)

  datatype Node = Node(attributes: seq<Attribute>)

  datatype Attribute = Attribute(
    tensor: Option<Tensor>,
    graph: Option<Graph>,
    tensors: seq<Tensor>,
    graphs: seq<Graph>,
    sparseTensor: Option<Sparse>,
    sparseTensors: seq<Sparse>)

  datatype Training = Training(initialization: Option<Graph>, algorithm: Option<Graph>)

  datatype Function = Function(nodes: seq<Node>, attributes: seq<Attribute>)

  datatype Model = Model(graph: Option<Graph>, trainingInfo: seq<Training>, functions: seq<Function>)

  // ----- Reference definition: which tensors occur where -----

  ghost predicate InSparse(t: Tensor, s: Sparse) {
    s.values == Some(t) || s.indices == Some(t)
  }

  ghost predicate InSparses(t: Tensor, ss: seq<Sparse>) {
    exists i :: 0 <= i < |ss| && InSparse(t, ss[i])
  }

  /** Directly on an attribute, not inside a graph it carries. */
  ghost predicate OnAttribute(t: Tensor, a: Attribute) {
    || a.tensor == Some(t)
    || t in a.tensors
    || (a.sparseTensor.Some? && InSparse(t, a.sparseTensor.value))
    || InSparses(t, a.sparseTensors)
  }

  ghost predicate InGraph(t: Tensor, g: Graph) {
    || t in g.initializers
    || InSparses(t, g.sparseInitializers)
    || exists i :: 0 <= i < |g.nodes| && InNode(t, g.nodes[i])
  }

  ghost predicate InNode(t: Tensor, n: Node) {
    exists i :: 0 <= i < |n.attributes| && InAttribute(t, n.attributes[i])
  }

  ghost predicate InAttribute(t: Tensor, a: Attribute) {
    || OnAttribute(t, a)
    || (a.graph.Some? && InGraph(t, a.graph.value))
    || exists i :: 0 <= i < |a.graphs| && InGraph(t, a.graphs[i])
  }

  ghost predicate InNodes(t: Tensor, ns: seq<Node>) {
    exists i :: 0 <= i < |ns| && InNode(t, ns[i])
  }

  ghost predicate InAttributes(t: Tensor, attributes: seq<Attribute>) {
    exists i :: 0 <= i < |attributes| && InAttribute(t, attributes[i])
  }

  ghost predicate InGraphs(t: Tensor, gs: seq<Graph>) {
    exists i :: 0 <= i < |gs| && InGraph(t, gs[i])
  }

  ghost predicate InTraining(t: Tensor, tr: Training) {
    || (tr.initialization.Some? && InGraph(t, tr.initialization.value))
    || (tr.algorithm.Some? && InGraph(t, tr.algorithm.value))
  }

  ghost predicate InTrainings(t: Tensor, ts: seq<Training>) {
    exists i :: 0 <= i < |ts| && InTraining(t, ts[i])
  }

  ghost predicate InFunctions(t: Tensor, fs: seq<Function>) {
    exists i :: 0 <= i < |fs| && (InNodes(t, fs[i].nodes) || InAttributes(t, fs[i].attributes))
  }

  /** `t` is reachable somewhere in the model, at any depth. */
  ghost predicate Occurs(t: Tensor, m: Model) {
    || (m.graph.Some? && InGraph(t, m.graph.value))
    || InTrainings(t, m.trainingInfo)
    || InFunctions(t, m.functions)
  }

  // ----- The source's own predicates -----

  predicate TensorUsesExternal(t: Tensor) {
    t.dataLocation == Some(1) || t.externalData != []
  }

  predicate SparseUsesExternal(s: Sparse) {
    || (s.values.Some? && TensorUsesExternal(s.values.value))
    || (s.indices.Some? && TensorUsesExternal(s.indices.value))
  }

  predicate TensorsUseExternal(ts: seq<Tensor>) {
    exists i :: 0 <= i < |ts| && TensorUsesExternal(ts[i])
  }

  predicate SparsesUseExternal(ss: seq<Sparse>) {
    exists i :: 0 <= i < |ss| && SparseUsesExternal(ss[i])
  }

  predicate AttributeUsesExternal(a: Attribute) {
    || (a.tensor.Some? && TensorUsesExternal(a.tensor.value))
    || TensorsUseExternal(a.tensors)
    || (a.sparseTensor.Some? && SparseUsesExternal(a.sparseTensor.value))
    || SparsesUseExternal(a.sparseTensors)
  }

  lemma {:induction false} AttributeExact(a: Attribute)
    ensures AttributeUsesExternal(a) <==> exists t :: OnAttribute(t, a) && TensorUsesExternal(t)
  {}

  // ----- A size that every expansion of the worklist decreases -----

  function GraphSize(g: Graph): nat {
    1 + NodesSize(g.nodes)
  }

  function NodesSize(ns: seq<Node>): nat {
    if ns == [] then 0 else NodesSize(ns[..|ns| - 1]) + AttributesSize(ns[|ns| - 1].attributes)
  }

  function AttributesSize(attributes: seq<Attribute>): nat {
    if attributes == [] then 0
    else AttributesSize(attributes[..|attributes| - 1]) + AttributeSize(attributes[|attributes| - 1])
  }

  function AttributeSize(a: Attribute): nat {
    (if a.graph.Some? then GraphSize(a.graph.value) else 0) + GraphsSize(a.graphs)
  }

  function GraphsSize(gs: seq<Graph>): nat {
    if gs == [] then 0 else GraphsSize(gs[..|gs| - 1]) + GraphSize(gs[|gs| - 1])
  }

  lemma {:induction false} GraphsSizeConcat(a: seq<Graph>, b: seq<Graph>)
    ensures GraphsSize(a + b) == GraphsSize(a) + GraphsSize(b)
  {
    if b == [] {
      assert a + b == a;
    } else {
      GraphsSizeConcat(a, b[..|b| - 1]);
      assert (a + b)[..|a + b| - 1] == a + b[..|b| - 1];
    }
  }

  // ----- The walk -----

  function Listed(g: Option<Graph>): seq<Graph> {
    if g.Some? then [g.value] else []
  }

  function Children(a: Attribute): seq<Graph> {
    Listed(a.graph) + a.graphs
  }

  lemma {:induction false} ChildrenExact(a: Attribute)
    ensures GraphsSize(Children(a)) == AttributeSize(a)
    ensures forall t :: InAttribute(t, a) <==> OnAttribute(t, a) || InGraphs(t, Children(a))
  {
    GraphsSizeConcat(Listed(a.graph), a.graphs);
    if a.graph.Some? {
      assert [a.graph.value][..0] == [];
    }
    forall t ensures InAttribute(t, a) <==> OnAttribute(t, a) || InGraphs(t, Children(a)) {
      InGraphsConcat(t, Listed(a.graph), a.graphs);
      if a.graph.Some? {
        assert Listed(a.graph)[0] == a.graph.value;
      }
    }
  }

  lemma {:induction false} InGraphsConcat(t: Tensor, a: seq<Graph>, b: seq<Graph>)
    ensures InGraphs(t, a + b) <==> InGraphs(t, a) || InGraphs(t, b)
  {
    if InGraphs(t, a) {
      var i :| 0 <= i < |a| && InGraph(t, a[i]);
      assert (a + b)[i] == a[i];
    }
    if InGraphs(t, b) {
      var i :| 0 <= i < |b| && InGraph(t, b[i]);
      assert (a + b)[|a| + i] == b[i];
    }
  }

  /**
    `attributes_use_external_data`: stops at the first offending attribute; otherwise every graph
    carried by an attribute has been pushed and nothing external sits directly on one.
   */
  method ScanAttributes(attributes: seq<Attribute>, graphs: seq<Graph>) returns (found: bool, pushed: seq<Graph>)
    ensures found ==> exists t :: InAttributes(t, attributes) && TensorUsesExternal(t)
    ensures !found ==> GraphsSize(pushed) == GraphsSize(graphs) + AttributesSize(attributes)
    ensures !found ==> forall t :: TensorUsesExternal(t) ==>
      (InGraphs(t, pushed) <==> InGraphs(t, graphs) || InAttributes(t, attributes))
  {
    pushed := graphs;
    for i := 0 to |attributes|
      invariant GraphsSize(pushed) == GraphsSize(graphs) + AttributesSize(attributes[..i])
      invariant forall t :: TensorUsesExternal(t) ==>
        (InGraphs(t, pushed) <==> InGraphs(t, graphs) || InAttributes(t, attributes[..i]))
    {
      var a := attributes[i];
      assert attributes[..i + 1][..i] == attributes[..i];
      ghost var before := pushed;
      pushed := pushed + Children(a);
      GraphsSizeConcat(before, Children(a));
      ChildrenExact(a);
      AttributeExact(a);
      if AttributeUsesExternal(a) {
        ghost var t :| OnAttribute(t, a) && TensorUsesExternal(t);
        assert InAttribute(t, attributes[i]);
        return true, pushed;
      }
      forall t | TensorUsesExternal(t)
        ensures InGraphs(t, pushed) <==> InGraphs(t, graphs) || InAttributes(t, attributes[..i + 1])
      {
        InGraphsConcat(t, before, Children(a));
        OneMoreAttribute(t, attributes, i);
      }
    }
    assert attributes[..|attributes|] == attributes;
    found := false;
  }

  lemma {:induction false} OneMoreAttribute(t: Tensor, attributes: seq<Attribute>, i: nat)
    requires i < |attributes|
    ensures InAttributes(t, attributes[..i + 1]) <==> InAttributes(t, attributes[..i]) || InAttribute(t, attributes[i])
  {}

  lemma {:induction false} OneMoreNode(t: Tensor, ns: seq<Node>, i: nat)
    requires i < |ns|
    ensures InNodes(t, ns[..i + 1]) <==> InNodes(t, ns[..i]) || InAttributes(t, ns[i].attributes)
  {}

  method ScanNodes(ns: seq<Node>, graphs: seq<Graph>) returns (found: bool, pushed: seq<Graph>)
    ensures found ==> exists t :: InNodes(t, ns) && TensorUsesExternal(t)
    ensures !found ==> GraphsSize(pushed) == GraphsSize(graphs) + NodesSize(ns)
    ensures !found ==> forall t :: TensorUsesExternal(t) ==>
      (InGraphs(t, pushed) <==> InGraphs(t, graphs) || InNodes(t, ns))
  {
    pushed := graphs;
    for i := 0 to |ns|
      invariant GraphsSize(pushed) == GraphsSize(graphs) + NodesSize(ns[..i])
      invariant forall t :: TensorUsesExternal(t) ==>
        (InGraphs(t, pushed) <==> InGraphs(t, graphs) || InNodes(t, ns[..i]))
    {
      assert ns[..i + 1][..i] == ns[..i];
      found, pushed := ScanAttributes(ns[i].attributes, pushed);
      if found {
        ghost var t :| InAttributes(t, ns[i].attributes) && TensorUsesExternal(t);
        assert InNode(t, ns[i]);
        return;
      }
      forall t | TensorUsesExternal(t)
        ensures InGraphs(t, pushed) <==> InGraphs(t, graphs) || InNodes(t, ns[..i + 1])
      {
        OneMoreNode(t, ns, i);
      }
    }
    assert ns[..|ns|] == ns;
    found := false;
  }

  datatype Inspection = Accepted | Rejected | Undecodable

  /** Roots that are not functions: the main graph, then each training graph. */
  function Roots(m: Model): seq<Graph> {
    Listed(m.graph) + TrainingGraphs(m.trainingInfo)
  }

  function TrainingGraphs(ts: seq<Training>): seq<Graph> {
    if ts == [] then []
    else TrainingGraphs(ts[..|ts| - 1]) + Listed(ts[|ts| - 1].initialization) + Listed(ts[|ts| - 1].algorithm)
  }

  lemma {:induction false} InListed(t: Tensor, g: Option<Graph>)
    ensures InGraphs(t, Listed(g)) <==> g.Some? && InGraph(t, g.value)
  {
    if g.Some? {
      assert Listed(g)[0] == g.value;
    }
  }

  lemma {:induction false} OneMoreTraining(t: Tensor, init: seq<Training>, last: Training)
    ensures InTrainings(t, init + [last]) <==> InTrainings(t, init) || InTraining(t, last)
  {
    var all := init + [last];
    assert all[|init|] == last;
    if InTrainings(t, init) {
      var i :| 0 <= i < |init| && InTraining(t, init[i]);
      assert all[i] == init[i];
    }
  }

  lemma {:induction false} TrainingExact(t: Tensor, ts: seq<Training>)
    ensures InGraphs(t, TrainingGraphs(ts)) <==> InTrainings(t, ts)
  {
    if ts != [] {
      var n := |ts| - 1;
      var init, last := ts[..n], ts[n];
      TrainingExact(t, init);
      assert ts == init + [last];
      OneMoreTraining(t, init, last);
      InGraphsConcat(t, TrainingGraphs(init), Listed(last.initialization));
      InGraphsConcat(t, TrainingGraphs(init) + Listed(last.initialization), Listed(last.algorithm));
      InListed(t, last.initialization);
      InListed(t, last.algorithm);
    }
  }

  lemma {:induction false} OneMoreFunction(t: Tensor, fs: seq<Function>, i: nat)
    requires i < |fs|
    ensures InFunctions(t, fs[..i + 1]) <==>
      InFunctions(t, fs[..i]) || InNodes(t, fs[i].nodes) || InAttributes(t, fs[i].attributes)
  {}

  lemma {:induction false} RootsExact(t: Tensor, m: Model)
    ensures Occurs(t, m) <==> InGraphs(t, Roots(m)) || InFunctions(t, m.functions)
  {
    InGraphsConcat(t, Listed(m.graph), TrainingGraphs(m.trainingInfo));
    InListed(t, m.graph);
    TrainingExact(t, m.trainingInfo);
  }

  /** Popping a graph trades it for the graphs its nodes carry. */
  lemma {:induction false} PopExact(t: Tensor, graphs: seq<Graph>)
    requires graphs != []
    ensures InGraphs(t, graphs) <==> InGraphs(t, graphs[..|graphs| - 1]) || InGraph(t, graphs[|graphs| - 1])
  {}

  lemma {:induction false} LocalTensors(g: Graph)
    ensures TensorsUseExternal(g.initializers) || SparsesUseExternal(g.sparseInitializers) ==>
      exists t :: InGraph(t, g) && TensorUsesExternal(t)
    ensures !TensorsUseExternal(g.initializers) && !SparsesUseExternal(g.sparseInitializers) ==>
      forall t :: TensorUsesExternal(t) ==> (InGraph(t, g) <==> InNodes(t, g.nodes))
  {}

  /** Everything external in the model is reachable from the worklist. */
  ghost predicate Covers(graphs: seq<Graph>, m: Model) {
    forall t :: TensorUsesExternal(t) ==> (Occurs(t, m) <==> InGraphs(t, graphs))
  }

  method CollectFunctions(m: Model) returns (found: bool, graphs: seq<Graph>)
    ensures found ==> exists t :: Occurs(t, m) && TensorUsesExternal(t)
    ensures !found ==> Covers(graphs, m)
  {
    graphs := Roots(m);
    for i := 0 to |m.functions|
      invariant forall t :: TensorUsesExternal(t) ==>
        (InGraphs(t, graphs) <==> InGraphs(t, Roots(m)) || InFunctions(t, m.functions[..i]))
    {
      found, graphs := ScanNodes(m.functions[i].nodes, graphs);
      if !found {
        found, graphs := ScanAttributes(m.functions[i].attributes, graphs);
      }
      if found {
        return;
      }
      forall t | TensorUsesExternal(t)
        ensures InGraphs(t, graphs) <==> InGraphs(t, Roots(m)) || InFunctions(t, m.functions[..i + 1])
      {
        OneMoreFunction(t, m.functions, i);
      }
    }
    assert m.functions[..|m.functions|] == m.functions;
    forall t | TensorUsesExternal(t) ensures Occurs(t, m) <==> InGraphs(t, graphs) {
      RootsExact(t, m);
    }
    found := false;
  }

  /** Rejection is exactly reachability of external data, and the walk terminates. */
  method RejectExternalDataGraph(decoded: Option<Model>) returns (r: Inspection)
    ensures r == Undecodable <==> decoded.None?
    ensures decoded.Some? ==> (r == Rejected <==> exists t :: Occurs(t, decoded.value) && TensorUsesExternal(t))
  {
    if decoded.None? { return Undecodable; }
    var m := decoded.value;
    var found, graphs := CollectFunctions(m);
    if found { return Rejected; }
    while graphs != []
      invariant Covers(graphs, m)
      decreases GraphsSize(graphs)
    {
      var g := graphs[|graphs| - 1];
      ghost var before := graphs;
      graphs := graphs[..|graphs| - 1];
      assert GraphsSize(before) == GraphsSize(graphs) + 1 + NodesSize(g.nodes);
      forall t ensures InGraphs(t, before) <==> InGraphs(t, graphs) || InGraph(t, g) {
        PopExact(t, before);
      }
      LocalTensors(g);
      if TensorsUseExternal(g.initializers) || SparsesUseExternal(g.sparseInitializers) {
        return Rejected;
      }
      found, graphs := ScanNodes(g.nodes, graphs);
      if found {
        return Rejected;
      }
    }
    r := Accepted;
  }
}

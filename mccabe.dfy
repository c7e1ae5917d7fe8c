/** McCabe cyclomatic complexity (GMMcCabe, GMMcCabeFunction): the formula,
    the explicit key -> getter table, `init`, the lazy `_init` of the metric
    base class, and the rebinding to a selected function. The control-flow
    graph parser is outside the model: its outcome is a parameter. */
module McCabe {
  import opened Wrappers
  import opened MetricStore

  const Name: string := "McCabe"
  const LookupName: string := "mccabe"

  const NumEdgesKey: MetricKey := MetricKey("numEdges", 0)
  const NumNodesKey: MetricKey := MetricKey("numNodes", 1)
  const NumConnectedComponentsKey: MetricKey := MetricKey("numConnectedComponents", 2)
  const ComplexityKey: MetricKey := MetricKey("complexity", 3)

  /** GMMcCabeKey.ALL_KEYS, in iteration order. */
  const AllKeys: seq<MetricKey> := [NumEdgesKey, NumNodesKey, NumConnectedComponentsKey, ComplexityKey]

  /** m = e - n + 2p, reported as 0 when the raw value is negative: the least
      non-negative number that is at least the raw value. */
  function Complexity(edges: int, nodes: int, exits: int): (m: int)
    ensures m >= 0 && m >= edges - nodes + 2 * exits
    ensures m == 0 || m == edges - nodes + 2 * exits
  {
    var c := edges - nodes + 2 * exits;
    if c >= 0 then c else 0
  }

  /** The worked examples: a straight-line function, one if, a 6-edge graph, and a clamped graph. */
  lemma ComplexityExamples()
    ensures Complexity(0, 1, 1) == 1
    ensures Complexity(4, 4, 1) == 2
    ensures Complexity(6, 5, 1) == 3
    ensures Complexity(0, 5, 1) == 0
  {
  }

  /** The value a McCabe getter yields for key `k` once the counts are set;
      None for a key that has no getter (the reflective lookup would fail). */
  function Accessor(k: MetricKey, edges: int, nodes: int, exits: int): (r: Option<Value>)
    ensures r.Some? <==> k in AllKeys
  {
    if k == NumEdgesKey then Some(IntValue(edges))
    else if k == NumNodesKey then Some(IntValue(nodes))
    else if k == NumConnectedComponentsKey then Some(IntValue(exits))
    else if k == ComplexityKey then Some(IntValue(Complexity(edges, nodes, exits)))
    else None
  }

  /** The values `init` creates, one per key that has a getter, in key-list order. */
  function InitEntries(keys: seq<MetricKey>, edges: int, nodes: int, exits: int): seq<MetricValue>
  {
    if keys == [] then []
    else
      var k := keys[|keys| - 1];
      InitEntries(keys[..|keys| - 1], edges, nodes, exits)
        + match Accessor(k, edges, nodes, exits) { case Some(v) => [MetricValue(k, v)] case None => [] }
  }

  lemma {:induction false} InitEntriesLast(keys: seq<MetricKey>, edges: int, nodes: int, exits: int, k: MetricKey)
    ensures LastWithKey(InitEntries(keys, edges, nodes, exits), k)
      == if k in keys && k in AllKeys then Some(MetricValue(k, Accessor(k, edges, nodes, exits).value)) else None
  {
    if keys != [] {
      var front := keys[..|keys| - 1];
      var last := keys[|keys| - 1];
      assert keys == front + [last];
      InitEntriesLast(front, edges, nodes, exits, k);
      var prev := InitEntries(front, edges, nodes, exits);
      var es := InitEntries(keys, edges, nodes, exits);
      if last in AllKeys {
        assert es == prev + [MetricValue(last, Accessor(last, edges, nodes, exits).value)];
        assert es[..|es| - 1] == prev;
      } else {
        assert es == prev;
      }
    }
  }

  lemma InitEntriesStep(keys: seq<MetricKey>, i: nat, edges: int, nodes: int, exits: int)
    requires i < |keys|
    ensures InitEntries(keys[..i + 1], edges, nodes, exits)
      == InitEntries(keys[..i], edges, nodes, exits)
         + match Accessor(keys[i], edges, nodes, exits) { case Some(v) => [MetricValue(keys[i], v)] case None => [] }
  {
    assert keys[..i + 1][..i] == keys[..i];
  }

  /** On an empty store, a successful init leaves exactly the four entries, in
      ALL_KEYS order (which is also ascending key order). */
  lemma InitFreshStore(edges: int, nodes: int, exits: int)
    ensures PutAll([], InitEntries(AllKeys, edges, nodes, exits))
      == [MetricValue(NumEdgesKey, IntValue(edges)), MetricValue(NumNodesKey, IntValue(nodes)),
          MetricValue(NumConnectedComponentsKey, IntValue(exits)),
          MetricValue(ComplexityKey, IntValue(Complexity(edges, nodes, exits)))]
  {
    var es := InitEntries(AllKeys, edges, nodes, exits);
    InitEntriesAllKeys(edges, nodes, exits);
    assert Ascending(es) by {
      forall i, j | 0 <= i < j < |es| ensures KeyLess(es[i].key, es[j].key) {
        assert es[i].key.rank == i && es[j].key.rank == j;
      }
    }
    PutAllSorted(es);
  }

  /** The values `init` creates over ALL_KEYS, one per key, in order. */
  lemma InitEntriesAllKeys(edges: int, nodes: int, exits: int)
    ensures InitEntries(AllKeys, edges, nodes, exits)
      == [MetricValue(NumEdgesKey, IntValue(edges)), MetricValue(NumNodesKey, IntValue(nodes)),
          MetricValue(NumConnectedComponentsKey, IntValue(exits)),
          MetricValue(ComplexityKey, IntValue(Complexity(edges, nodes, exits)))]
  {
    var v0 := MetricValue(NumEdgesKey, IntValue(edges));
    var v1 := MetricValue(NumNodesKey, IntValue(nodes));
    var v2 := MetricValue(NumConnectedComponentsKey, IntValue(exits));
    assert AllKeys[..0] == [];
    assert AllKeys[..1][..0] == [] && AllKeys[..1] == [NumEdgesKey];
    assert AllKeys[..2][..1] == AllKeys[..1] && AllKeys[..2][1] == NumNodesKey;
    assert AllKeys[..3][..2] == AllKeys[..2] && AllKeys[..3][2] == NumConnectedComponentsKey;
    assert AllKeys[..3] == AllKeys[..|AllKeys| - 1];
    assert InitEntries(AllKeys[..1], edges, nodes, exits) == [v0];
    assert InitEntries(AllKeys[..2], edges, nodes, exits) == [v0, v1];
    assert InitEntries(AllKeys[..3], edges, nodes, exits) == [v0, v1, v2];
  }

  /** After a successful init, every key of AllKeys holds its getter's value
      and every other key keeps what the store held before. */
  lemma InitFillsEveryKey(s: seq<MetricValue>, edges: int, nodes: int, exits: int, k: MetricKey)
    ensures Lookup(PutAll(s, InitEntries(AllKeys, edges, nodes, exits)), k)
      == if k in AllKeys then Some(MetricValue(k, Accessor(k, edges, nodes, exits).value)) else Lookup(s, k)
  {
    PutAllLookup(s, InitEntries(AllKeys, edges, nodes, exits), k);
    InitEntriesLast(AllKeys, edges, nodes, exits, k);
  }

  /** What the control-flow-graph parser hands back: CancelledException, or a result with counts. */
  datatype ParseOutcome =
    | Cancelled
    | Parsed(ok: bool, edges: int, nodes: int, exits: int)

  predicate Succeeded(parse: ParseOutcome)
  {
    parse.Parsed? && parse.ok
  }

  /** A function of the analysed program (only its name matters here). */
  datatype FunctionRef = FunctionRef(name: string)

  /** The name of a function-scoped metric: the kind, a dot, the function's name. */
  function FunctionMetricName(kind: string, fnName: string): string
  {
    kind + "." + fnName
  }

  /** The composite name identifies the function. */
  lemma FunctionMetricNameInjective(kind: string, f: string, g: string)
    requires FunctionMetricName(kind, f) == FunctionMetricName(kind, g)
    ensures f == g
  {
    assert f == FunctionMetricName(kind, f)[|kind| + 1..];
    assert g == FunctionMetricName(kind, g)[|kind| + 1..];
  }

  function AsValue(count: Option<int>): Value
  {
    match count
    case None => NullValue
    case Some(c) => IntValue(c)
  }

  /** What `printException` is handed when the parse is cancelled. */
  const CancelledReport: string := "CancelledException"

  /** The reports one `init` with this parse outcome hands to `printException`. */
  function InitReports(parse: ParseOutcome): (r: seq<string>)
    ensures r == [] || r == [CancelledReport]
    ensures r != [] <==> parse.Cancelled?
  {
    if parse.Cancelled? then [CancelledReport] else []
  }

  /** The McCabe manager: the function-scoped metric slot, and the exceptions
      handed to `printException`, oldest first. */
  class McCabeManager {
    var metricFn: McCabeMetric?
    var reports: seq<string>

    constructor ()
      ensures metricFn == null && reports == []
    {
      metricFn := null;
      reports := [];
    }
  }

  /** GMMcCabe (function == None) and GMMcCabeFunction (function == Some(f)). */
  class McCabeMetric {
    const metric: Metric
    const manager: McCabeManager
    const boundFunction: Option<FunctionRef>
    var edges: Option<int>
    var nodes: Option<int>
    var exits: Option<int>
    /** How many times `init` has run on this metric. */
    ghost var initCalls: nat

    ghost predicate Valid()
      reads this, metric
    {
      metric.Valid() && metric.name == Name
    }

    constructor (manager: McCabeManager, boundFunction: Option<FunctionRef>)
      ensures Valid() && fresh(metric)
      ensures this.manager == manager && this.boundFunction == boundFunction
      ensures !metric.initialized && metric.store == []
      ensures edges.None? && nodes.None? && exits.None? && initCalls == 0
    {
      metric := new Metric(Name);
      this.manager := manager;
      this.boundFunction := boundFunction;
      edges, nodes, exits := None, None, None;
      initCalls := 0;
    }

    /** getName: "McCabe" for the program metric, "McCabe.<function>" for a function-scoped one. */
    function GetName(): (r: string)
      reads this, metric
      requires Valid()
      ensures |Name| <= |r| && r[..|Name|] == Name
      ensures boundFunction.None? ==> r == Name
      ensures boundFunction.Some? ==> r[|Name|..] == "." + boundFunction.value.name
    {
      match boundFunction
      case None => metric.GetName()
      case Some(f) => FunctionMetricName(metric.GetName(), f.name)
    }

    /** What an exporter reads of this metric. */
    function View(): (v: MetricView)
      reads this, metric
      requires Valid()
      ensures v.name == GetName() && v.values == metric.GetMetrics()
    {
      MetricView(GetName(), metric.GetMetrics())
    }

    function GetNumEdges(): (r: Value)
      reads this
      ensures r == NullValue <==> edges.None?
      ensures edges.Some? ==> r == IntValue(edges.value)
    {
      AsValue(edges)
    }

    function GetNumNodes(): (r: Value)
      reads this
      ensures r == NullValue <==> nodes.None?
      ensures nodes.Some? ==> r == IntValue(nodes.value)
    {
      AsValue(nodes)
    }

    function GetNumConnectedComponents(): (r: Value)
      reads this
      ensures r == NullValue <==> exits.None?
      ensures exits.Some? ==> r == IntValue(exits.value)
    {
      AsValue(exits)
    }

    /** getComplexity over the counts set by a successful init. */
    function GetComplexity(): (r: int)
      reads this
      requires edges.Some? && nodes.Some? && exits.Some?
      ensures r >= 0
      ensures r == Complexity(edges.value, nodes.value, exits.value)
    {
      Complexity(edges.value, nodes.value, exits.value)
    }

    /** The effect of one `init` with this parse outcome, from the given earlier counts and store. */
    ghost predicate InitEffect(e0: Option<int>, n0: Option<int>, x0: Option<int>, s0: seq<MetricValue>, parse: ParseOutcome)
      reads this, metric
    {
      if Succeeded(parse) then
        && edges == Some(parse.edges) && nodes == Some(parse.nodes) && exits == Some(parse.exits)
        && metric.store == PutAll(s0, InitEntries(AllKeys, parse.edges, parse.nodes, parse.exits))
      else
        edges == e0 && nodes == n0 && exits == x0 && metric.store == s0
    }

    /** The forEach over ALL_KEYS in init: create a value for every key that has a getter. */
    method CreateAllKeys(e: int, n: int, x: int)
      requires metric.Valid()
      modifies metric
      ensures metric.Valid() && metric.initialized == old(metric.initialized)
      ensures metric.store == PutAll(old(metric.store), InitEntries(AllKeys, e, n, x))
    {
      ghost var s0 := metric.store;
      var i := 0;
      while i < |AllKeys|
        invariant 0 <= i <= |AllKeys|
        invariant metric.Valid() && metric.initialized == old(metric.initialized)
        invariant metric.store == PutAll(s0, InitEntries(AllKeys[..i], e, n, x))
      {
        var k := AllKeys[i];
        // Every key of ALL_KEYS has a getter.
        assert k in AllKeys;
        var v := Accessor(k, e, n, x).value;
        InitEntriesStep(AllKeys, i, e, n, x);
        ghost var done := InitEntries(AllKeys[..i], e, n, x);
        var mv := MetricValue(k, v);
        assert InitEntries(AllKeys[..i + 1], e, n, x) == done + [mv];
        PutAllSnoc(s0, done, mv);
        metric.CreateMetricValue(k, v);
        assert metric.store == Put(PutAll(s0, done), mv);
        i := i + 1;
      }
      assert AllKeys[..i] == AllKeys;
    }

    /** init: on a parse that is ok, copy the counts and create a value for
        every key; a cancelled parse is reported to the manager. */
    method Init(parse: ParseOutcome) returns (ok: bool)
      requires Valid()
      modifies this, metric, manager
      ensures Valid()
      ensures manager.metricFn == old(manager.metricFn)
      ensures manager.reports == old(manager.reports) + InitReports(parse)
      ensures ok <==> Succeeded(parse)
      ensures InitEffect(old(edges), old(nodes), old(exits), old(metric.store), parse)
      ensures ok ==> (GetNumEdges() == IntValue(parse.edges) && GetNumNodes() == IntValue(parse.nodes)
                      && GetNumConnectedComponents() == IntValue(parse.exits))
      ensures ok ==> forall k :: k in AllKeys ==>
                       metric.GetMetricValue(Some(k)) == Some(MetricValue(k, Accessor(k, parse.edges, parse.nodes, parse.exits).value))
      ensures ok ==> forall k :: k !in AllKeys ==> metric.GetMetricValue(Some(k)) == old(metric.GetMetricValue(Some(k)))
      ensures metric.initialized == old(metric.initialized) && initCalls == old(initCalls) + 1
    {
      initCalls := initCalls + 1;
      ok := false;
      if parse.Parsed? && parse.ok {
        edges, nodes, exits := Some(parse.edges), Some(parse.nodes), Some(parse.exits);
        ghost var s0 := metric.store;
        CreateAllKeys(parse.edges, parse.nodes, parse.exits);
        forall k ensures Lookup(metric.store, k)
          == if k in AllKeys then Some(MetricValue(k, Accessor(k, parse.edges, parse.nodes, parse.exits).value)) else Lookup(s0, k)
        {
          InitFillsEveryKey(s0, parse.edges, parse.nodes, parse.exits, k);
        }
        ok := true;
      } else if parse.Cancelled? {
        manager.reports := manager.reports + [CancelledReport];
      }
    }

    /** _init: run `init` only while not initialized; a failed init leaves the
        metric uninitialized, so the next call tries again. */
    method LazyInit(parse: ParseOutcome) returns (ok: bool)
      requires Valid()
      modifies this, metric, manager
      ensures Valid()
      ensures old(metric.initialized) ==> ok && unchanged(this, metric, manager)
      ensures !old(metric.initialized) ==>
                && ok == Succeeded(parse) && metric.initialized == ok
                && initCalls == old(initCalls) + 1
                && manager.metricFn == old(manager.metricFn)
                && manager.reports == old(manager.reports) + InitReports(parse)
                && InitEffect(old(edges), old(nodes), old(exits), old(metric.store), parse)
    {
      if !metric.initialized {
        ok := Init(parse);
        metric.initialized := ok;
        return;
      }
      ok := true;
    }

    /** functionChanged: install a fresh metric bound to `f` in the manager and
        run its init (not `_init`, so its flag stays false); this metric is untouched. */
    method FunctionChanged(f: FunctionRef, parse: ParseOutcome)
      modifies manager
      ensures manager.metricFn != null && fresh(manager.metricFn) && fresh(manager.metricFn.metric)
      ensures manager.metricFn.Valid() && manager.metricFn.manager == manager
      ensures manager.metricFn.boundFunction == Some(f)
      ensures !manager.metricFn.metric.initialized && manager.metricFn.initCalls == 1
      ensures manager.metricFn.InitEffect(None, None, None, [], parse)
      ensures manager.reports == old(manager.reports) + InitReports(parse)
      ensures unchanged(this, metric)
    {
      var fn := new McCabeMetric(manager, Some(f));
      manager.metricFn := fn;
      var _ := fn.Init(parse);
    }
  }
}

/** Client scenarios of the McCabe metric, proved from the contracts alone. */
module McCabeScenarios {
  import opened Wrappers
  import opened MetricStore
  import opened McCabe
  import opened ExporterTxt

  /** A cancelled parse is reported and leaves the metric uninitialized, so the
      next `_init` retries and succeeds; after that `_init` no longer runs
      `init`, so a later cancellation is not even reported. */
  method RetryAfterFailure(m: McCabeMetric) returns (first: bool, second: bool, third: bool)
    requires m.Valid() && !m.metric.initialized
    modifies m, m.metric, m.manager
    ensures !first && second && third
    ensures m.metric.initialized && m.initCalls == old(m.initCalls) + 2
    ensures m.manager.reports == old(m.manager.reports) + [CancelledReport]
    ensures m.edges.Some? && m.nodes.Some? && m.exits.Some? && m.GetComplexity() == 3
  {
    first := m.LazyInit(Cancelled);
    second := m.LazyInit(Parsed(true, 6, 5, 1));
    third := m.LazyInit(Cancelled);
  }

  /** Selecting function `myFunc` with 5 nodes, 6 edges and 1 exit yields a
      metric named "McCabe.myFunc" whose complexity entry is 3, and whose text
      block lists the name and then the four keys in order. */
  method SelectFunction(program: McCabeMetric, quotate: Value -> string)
    modifies program.manager
    ensures program.manager.metricFn != null && program.manager.metricFn.Valid()
    ensures program.manager.metricFn.GetName() == "McCabe.myFunc"
    ensures program.manager.metricFn.metric.GetMetricValue(Some(ComplexityKey)) == Some(MetricValue(ComplexityKey, IntValue(3)))
    ensures BlockLines(program.manager.metricFn.View(), quotate)
      == [BeginMarker, FormatLine("name", TextValue("McCabe.myFunc"), quotate),
          FormatLine("numEdges", IntValue(6), quotate), FormatLine("numNodes", IntValue(5), quotate),
          FormatLine("numConnectedComponents", IntValue(1), quotate), FormatLine("complexity", IntValue(3), quotate),
          EndMarker]
  {
    var parse := Parsed(true, 6, 5, 1);
    program.FunctionChanged(FunctionRef("myFunc"), parse);
    MyFuncMetric(program.manager.metricFn, parse, quotate);
  }

  /** The facts SelectFunction promises, about the metric it installs. */
  lemma MyFuncMetric(fn: McCabeMetric, parse: ParseOutcome, quotate: Value -> string)
    requires parse == Parsed(true, 6, 5, 1)
    requires fn.Valid() && fn.boundFunction == Some(FunctionRef("myFunc"))
    requires fn.InitEffect(None, None, None, [], parse)
    ensures fn.GetName() == "McCabe.myFunc"
    ensures fn.metric.GetMetricValue(Some(ComplexityKey)) == Some(MetricValue(ComplexityKey, IntValue(3)))
    ensures BlockLines(fn.View(), quotate)
      == [BeginMarker, FormatLine("name", TextValue("McCabe.myFunc"), quotate),
          FormatLine("numEdges", IntValue(6), quotate), FormatLine("numNodes", IntValue(5), quotate),
          FormatLine("numConnectedComponents", IntValue(1), quotate), FormatLine("complexity", IntValue(3), quotate),
          EndMarker]
  {
    assert Complexity(6, 5, 1) == 3;
    assert Name + "." + "myFunc" == "McCabe.myFunc";
    ComplexityAfterFirstInit(fn, parse);
    NameOfFunctionMetric(fn, "myFunc");
    FunctionMetricBlock(fn, parse, "myFunc", quotate);
  }

  /** The text block of a function metric after its first successful init:
      the markers around the name line and one line per McCabe key, in order. */
  lemma FunctionMetricBlock(fn: McCabeMetric, parse: ParseOutcome, f: string, quotate: Value -> string)
    requires fn.Valid() && fn.boundFunction == Some(FunctionRef(f))
    requires Succeeded(parse) && fn.InitEffect(None, None, None, [], parse)
    ensures BlockLines(fn.View(), quotate)
      == [BeginMarker, FormatLine("name", TextValue(Name + "." + f), quotate),
          FormatLine("numEdges", IntValue(parse.edges), quotate), FormatLine("numNodes", IntValue(parse.nodes), quotate),
          FormatLine("numConnectedComponents", IntValue(parse.exits), quotate),
          FormatLine("complexity", IntValue(Complexity(parse.edges, parse.nodes, parse.exits)), quotate),
          EndMarker]
  {
    NameOfFunctionMetric(fn, f);
    var v := fn.View();
    assert v.name == Name + "." + f;
    assert v.values == PutAll([], InitEntries(AllKeys, parse.edges, parse.nodes, parse.exits));
    McCabeBlock(v, parse.edges, parse.nodes, parse.exits, quotate);
  }

  /** The text block of a view holding exactly what a first init stores. */
  lemma McCabeBlock(v: MetricView, edges: int, nodes: int, exits: int, quotate: Value -> string)
    requires v.values == PutAll([], InitEntries(AllKeys, edges, nodes, exits))
    ensures BlockLines(v, quotate)
      == [BeginMarker, FormatLine("name", TextValue(v.name), quotate),
          FormatLine("numEdges", IntValue(edges), quotate), FormatLine("numNodes", IntValue(nodes), quotate),
          FormatLine("numConnectedComponents", IntValue(exits), quotate),
          FormatLine("complexity", IntValue(Complexity(edges, nodes, exits)), quotate),
          EndMarker]
  {
    McCabeValueLines(edges, nodes, exits, quotate);
    var ls := ValueLines(v.values, quotate);
    var b := BlockLines(v, quotate);
    assert b == [BeginMarker, NameLine(v, quotate)] + ls + [EndMarker];
    assert |b| == 7 && b[0] == BeginMarker && b[1] == NameLine(v, quotate) && b[6] == EndMarker;
    assert b[2] == ls[0] && b[3] == ls[1] && b[4] == ls[2] && b[5] == ls[3];
  }

  lemma McCabeValueLines(edges: int, nodes: int, exits: int, quotate: Value -> string)
    ensures ValueLines(PutAll([], InitEntries(AllKeys, edges, nodes, exits)), quotate)
      == [FormatLine("numEdges", IntValue(edges), quotate), FormatLine("numNodes", IntValue(nodes), quotate),
          FormatLine("numConnectedComponents", IntValue(exits), quotate),
          FormatLine("complexity", IntValue(Complexity(edges, nodes, exits)), quotate)]
  {
    InitFreshStore(edges, nodes, exits);
    var vs := PutAll([], InitEntries(AllKeys, edges, nodes, exits));
    var ls := ValueLines(vs, quotate);
    assert |ls| == 4;
    assert ls == [ls[0], ls[1], ls[2], ls[3]];
  }

  lemma ComplexityAfterFirstInit(fn: McCabeMetric, parse: ParseOutcome)
    requires fn.Valid() && Succeeded(parse) && fn.InitEffect(None, None, None, [], parse)
    ensures fn.metric.GetMetricValue(Some(ComplexityKey))
      == Some(MetricValue(ComplexityKey, IntValue(Complexity(parse.edges, parse.nodes, parse.exits))))
  {
    InitFillsEveryKey([], parse.edges, parse.nodes, parse.exits, ComplexityKey);
  }

  lemma NameOfFunctionMetric(fn: McCabeMetric, f: string)
    requires fn.Valid() && fn.boundFunction == Some(FunctionRef(f))
    ensures fn.GetName() == Name + "." + f
  {
    var name := fn.GetName();
    assert name == name[..|Name|] + name[|Name|..];
  }
}

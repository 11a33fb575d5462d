/** Config validation of the DAG, and the sinks each source reaches. */
module PipelineConfig {
  import opened Common
  import opened Graph
  import opened CycleDetection

  /** A processor or a sink with the nodes it reads from. */
  datatype Consumer = Consumer(name: Node, inputs: seq<Node>)

  datatype Config = Config(sources: seq<Node>, processors: seq<Consumer>, sinks: seq<Consumer>)

  datatype ConfigError =
    | NoSources
    | NoSinks
    | DuplicateName(name: Node)
    | NoInputs(name: Node)
    | UnknownInput(name: Node, input: Node)
    | SinkAsInput(name: Node, input: Node)
    | SelfInput(name: Node)
    | Orphan(name: Node)
    | Cycle(path: seq<Node>)

  function NamesOf(cs: seq<Consumer>): seq<Node> {
    seq(|cs|, i requires 0 <= i < |cs| => cs[i].name)
  }

  function AllNames(cfg: Config): seq<Node> {
    cfg.sources + NamesOf(cfg.processors) + NamesOf(cfg.sinks)
  }

  function Consumers(cfg: Config): seq<Consumer> {
    cfg.processors + cfg.sinks
  }

  function AddInputs(m: Edges, name: Node, inputs: seq<Node>): Edges {
    if inputs == [] then m else
      var init, last := inputs[..|inputs| - 1], inputs[|inputs| - 1];
      var done := AddInputs(m, name, init);
      done[last := Next(done, last) + [name]]
  }

  function AddConsumers(m: Edges, cs: seq<Consumer>): Edges {
    if cs == [] then m else
      var last := cs[|cs| - 1];
      AddInputs(AddConsumers(m, cs[..|cs| - 1]), last.name, last.inputs)
  }

  /** Producer -> consumers, in declaration order and with multiplicity. */
  function ConsumerMap(cfg: Config): Edges {
    AddConsumers(map[], Consumers(cfg))
  }

  method AddEdges(m: Edges, c: Consumer) returns (r: Edges)
    ensures r == AddInputs(m, c.name, c.inputs)
  {
    r := m;
    for i := 0 to |c.inputs|
      invariant r == AddInputs(m, c.name, c.inputs[..i])
    {
      assert c.inputs[..i + 1][..i] == c.inputs[..i];
      r := r[c.inputs[i] := Next(r, c.inputs[i]) + [c.name]];
    }
    assert c.inputs[..|c.inputs|] == c.inputs;
  }

  /** `build_consumer_map`: processors first, then sinks. */
  method BuildConsumerMap(cfg: Config) returns (m: Edges)
    ensures m == ConsumerMap(cfg)
  {
    m := map[];
    var all := Consumers(cfg);
    for i := 0 to |all|
      invariant m == AddConsumers(map[], all[..i])
    {
      assert all[..i + 1][..i] == all[..i];
      m := AddEdges(m, all[i]);
    }
    assert all[..|all|] == all;
  }

  /** The consumer's name as often as it lists `n`. */
  function Repeated(name: Node, inputs: seq<Node>, n: Node): seq<Node> {
    if inputs == [] then [] else
      Repeated(name, inputs[..|inputs| - 1], n) + if inputs[|inputs| - 1] == n then [name] else []
  }

  /** The consumers that list `n`, in declaration order, each as often as it lists it. */
  function Listing(cs: seq<Consumer>, n: Node): seq<Node> {
    if cs == [] then [] else
      Listing(cs[..|cs| - 1], n) + Repeated(cs[|cs| - 1].name, cs[|cs| - 1].inputs, n)
  }

  lemma {:induction false} AddInputsNext(m: Edges, name: Node, inputs: seq<Node>, n: Node)
    ensures Next(AddInputs(m, name, inputs), n) == Next(m, n) + Repeated(name, inputs, n)
  {
    if inputs != [] {
      AddInputsNext(m, name, inputs[..|inputs| - 1], n);
    }
  }

  lemma {:induction false} AddConsumersNext(m: Edges, cs: seq<Consumer>, n: Node)
    ensures Next(AddConsumers(m, cs), n) == Next(m, n) + Listing(cs, n)
  {
    if cs != [] {
      var init, last := cs[..|cs| - 1], cs[|cs| - 1];
      AddConsumersNext(m, init, n);
      AddInputsNext(AddConsumers(m, init), last.name, last.inputs, n);
    }
  }

  /** A node's consumers are those that list it, processors before sinks, each in declaration order, and one
      channel for each time it is listed. */
  lemma ConsumersInOrder(cfg: Config, n: Node)
    ensures Next(ConsumerMap(cfg), n) == Listing(cfg.processors, n) + Listing(cfg.sinks, n)
  {
    AddConsumersNext(map[], Consumers(cfg), n);
    ListingAppend(cfg.processors, cfg.sinks, n);
  }

  lemma {:induction false} ListingAppend(a: seq<Consumer>, b: seq<Consumer>, n: Node)
    ensures Listing(a + b, n) == Listing(a, n) + Listing(b, n)
  {
    hide Repeated;
    if b == [] {
      assert a + b == a;
    } else {
      ListingAppend(a, b[..|b| - 1], n);
      assert (a + b)[..|a + b| - 1] == a + b[..|b| - 1];
    }
  }

  ghost predicate Lists(cs: seq<Consumer>, n: Node, c: Node) {
    exists i :: 0 <= i < |cs| && cs[i].name == c && n in cs[i].inputs
  }

  lemma {:induction false} AddInputsEdges(m: Edges, name: Node, inputs: seq<Node>, n: Node, c: Node)
    ensures c in Next(AddInputs(m, name, inputs), n) <==> c in Next(m, n) || (c == name && n in inputs)
  {
    if inputs != [] {
      AddInputsEdges(m, name, inputs[..|inputs| - 1], n, c);
      assert n in inputs <==> n in inputs[..|inputs| - 1] || n == inputs[|inputs| - 1];
    }
  }

  lemma {:induction false} AddConsumersEdges(m: Edges, cs: seq<Consumer>, n: Node, c: Node)
    ensures c in Next(AddConsumers(m, cs), n) <==> c in Next(m, n) || Lists(cs, n, c)
  {
    if cs != [] {
      var init, last := cs[..|cs| - 1], cs[|cs| - 1];
      AddConsumersEdges(m, init, n, c);
      AddInputsEdges(AddConsumers(m, init), last.name, last.inputs, n, c);
      if Lists(cs, n, c) && !(last.name == c && n in last.inputs) {
        var i :| 0 <= i < |cs| && cs[i].name == c && n in cs[i].inputs;
        assert init[i] == cs[i];
      }
      if Lists(init, n, c) {
        var i :| 0 <= i < |init| && init[i].name == c && n in init[i].inputs;
        assert cs[i] == init[i];
      }
    }
  }

  /** The consumer map has exactly the edges the config declares. */
  lemma EdgeIffDeclared(cfg: Config, n: Node, c: Node)
    ensures c in Next(ConsumerMap(cfg), n) <==> Lists(Consumers(cfg), n, c)
  {
    AddConsumersEdges(map[], Consumers(cfg), n, c);
  }

  lemma {:induction false} AddInputsKeys(m: Edges, name: Node, inputs: seq<Node>)
    ensures AddInputs(m, name, inputs).Keys == m.Keys + set n | n in inputs
  {
    if inputs != [] {
      AddInputsKeys(m, name, inputs[..|inputs| - 1]);
      assert inputs == inputs[..|inputs| - 1] + [inputs[|inputs| - 1]];
    }
  }

  lemma {:induction false} AddConsumersKeys(m: Edges, cs: seq<Consumer>, n: Node)
    requires n in AddConsumers(m, cs) && n !in m
    ensures exists i :: 0 <= i < |cs| && n in cs[i].inputs
  {
    if cs != [] {
      var last := cs[|cs| - 1];
      AddInputsKeys(AddConsumers(m, cs[..|cs| - 1]), last.name, last.inputs);
      if n !in last.inputs {
        AddConsumersKeys(m, cs[..|cs| - 1], n);
        var i :| 0 <= i < |cs| - 1 && n in cs[..|cs| - 1][i].inputs;
        assert n in cs[i].inputs;
      }
    }
  }

  // ---- validation ----

  ghost predicate Distinct(s: seq<Node>) {
    forall i, j :: 0 <= i < j < |s| ==> s[i] != s[j]
  }

  ghost predicate InputsOk(cfg: Config, c: Consumer) {
    c.inputs != [] && forall i :: 0 <= i < |c.inputs| ==> InputOk(cfg, c.name, c.inputs[i])
  }

  /** The input names a source or a processor, and not the node itself. */
  ghost predicate InputOk(cfg: Config, name: Node, input: Node) {
    (input in cfg.sources || input in NamesOf(cfg.processors)) && input != name
  }

  ghost predicate Consumed(cfg: Config, n: Node) {
    exists c :: Lists(Consumers(cfg), n, c)
  }

  /** What the edge, orphan and cycle rules demand. */
  ghost predicate WellFormed(cfg: Config) {
    && cfg.sources != [] && cfg.sinks != []
    && Distinct(AllNames(cfg))
    && (forall i :: 0 <= i < |Consumers(cfg)| ==> InputsOk(cfg, Consumers(cfg)[i]))
    && (forall n :: n in NamesOf(cfg.processors) ==> Consumed(cfg, n))
    && (forall n :: n in cfg.sources ==> Consumed(cfg, n))
    && !Cyclic(ConsumerMap(cfg))
  }

  /** The rule the error names is broken where it says. */
  ghost predicate ErrorIsTrue(cfg: Config, e: ConfigError) {
    match e
    case NoSources => cfg.sources == []
    case NoSinks => cfg.sinks == []
    case DuplicateName(n) => Twice(AllNames(cfg), n)
    case NoInputs(n) => exists c :: c in Consumers(cfg) && c.name == n && c.inputs == []
    case UnknownInput(n, input) => ListsInput(cfg, n, input) && input !in AllNames(cfg)
    case SinkAsInput(n, input) => ListsInput(cfg, n, input) && input in NamesOf(cfg.sinks)
    case SelfInput(n) => ListsInput(cfg, n, n)
    case Orphan(n) => (n in cfg.sources || n in NamesOf(cfg.processors)) && !Consumed(cfg, n)
    case Cycle(path) => IsClosedWalk(ConsumerMap(cfg), path)
  }

  ghost predicate Twice(names: seq<Node>, n: Node) {
    exists i, j :: 0 <= i < j < |names| && names[i] == n == names[j]
  }

  ghost predicate ListsInput(cfg: Config, n: Node, input: Node) {
    exists c :: c in Consumers(cfg) && c.name == n && input in c.inputs
  }

  method CheckDistinct(names: seq<Node>) returns (r: Result<(), ConfigError>)
    ensures r.Ok? <==> Distinct(names)
    ensures r.Err? ==> r.error.DuplicateName? && Twice(names, r.error.name)
  {
    var seen: set<Node> := {};
    for i := 0 to |names|
      invariant seen == set j | 0 <= j < i :: names[j]
      invariant Distinct(names[..i])
    {
      if names[i] in seen {
        var j :| 0 <= j < i && names[j] == names[i];
        return Err(DuplicateName(names[i]));
      }
      seen := seen + {names[i]};
    }
    assert names[..|names|] == names;
    r := Ok(());
  }

  method CheckInputs(cfg: Config, c: Consumer) returns (r: Result<(), ConfigError>)
    requires Distinct(AllNames(cfg)) && c in Consumers(cfg)
    ensures r.Ok? <==> InputsOk(cfg, c)
    ensures r.Err? ==> ErrorIsTrue(cfg, r.error)
  {
    if c.inputs == [] {
      return Err(NoInputs(c.name));
    }
    for i := 0 to |c.inputs|
      invariant forall j :: 0 <= j < i ==> InputOk(cfg, c.name, c.inputs[j])
    {
      var input := c.inputs[i];
      if input !in AllNames(cfg) {
        return Err(UnknownInput(c.name, input));
      }
      if input in NamesOf(cfg.sinks) {
        SinkIsNoProducer(cfg, input);
        return Err(SinkAsInput(c.name, input));
      }
      if input == c.name {
        return Err(SelfInput(c.name));
      }
    }
    r := Ok(());
  }

  lemma SinkIsNoProducer(cfg: Config, n: Node)
    requires Distinct(AllNames(cfg)) && n in NamesOf(cfg.sinks)
    ensures n !in cfg.sources && n !in NamesOf(cfg.processors)
  {
    var a, b := |cfg.sources|, |cfg.processors|;
    var k :| 0 <= k < |cfg.sinks| && NamesOf(cfg.sinks)[k] == n;
    assert AllNames(cfg)[a + b + k] == n;
    assert forall i :: 0 <= i < a ==> cfg.sources[i] == AllNames(cfg)[i];
    assert forall i :: 0 <= i < b ==> NamesOf(cfg.processors)[i] == AllNames(cfg)[a + i];
  }

  /** The orphan rule for one list of producers. */
  method CheckConsumed(cfg: Config, g: Edges, names: seq<Node>) returns (r: Result<(), ConfigError>)
    requires g == ConsumerMap(cfg) && forall n :: n in names ==> n in cfg.sources || n in NamesOf(cfg.processors)
    ensures r.Ok? <==> forall n :: n in names ==> Consumed(cfg, n)
    ensures r.Err? ==> ErrorIsTrue(cfg, r.error)
  {
    for i := 0 to |names|
      invariant forall j :: 0 <= j < i ==> Consumed(cfg, names[j])
    {
      ConsumedIffEdge(cfg, names[i]);
      if Next(g, names[i]) == [] {
        return Err(Orphan(names[i]));
      }
    }
    r := Ok(());
  }

  lemma ConsumedIffEdge(cfg: Config, n: Node)
    ensures Consumed(cfg, n) <==> Next(ConsumerMap(cfg), n) != []
  {
    var next := Next(ConsumerMap(cfg), n);
    if Consumed(cfg, n) {
      var c :| Lists(Consumers(cfg), n, c);
      EdgeIffDeclared(cfg, n, c);
    }
    if next != [] {
      EdgeIffDeclared(cfg, n, next[0]);
    }
  }

  lemma ProducersAreListed(cfg: Config, n: Node)
    requires forall i :: 0 <= i < |Consumers(cfg)| ==> InputsOk(cfg, Consumers(cfg)[i])
    requires n in ConsumerMap(cfg)
    ensures n in AllNames(cfg)
  {
    AddConsumersKeys(map[], Consumers(cfg), n);
    var i :| 0 <= i < |Consumers(cfg)| && n in Consumers(cfg)[i].inputs;
    assert InputsOk(cfg, Consumers(cfg)[i]);
    var j :| 0 <= j < |Consumers(cfg)[i].inputs| && Consumers(cfg)[i].inputs[j] == n;
    assert InputOk(cfg, Consumers(cfg)[i].name, n);
  }

  /** The DAG rules of `validate` accept exactly the well-formed configs, and name a rule that is broken in any
      other. */
  method Validate(cfg: Config) returns (r: Result<(), ConfigError>)
    ensures r.Ok? <==> WellFormed(cfg)
    ensures r.Err? ==> ErrorIsTrue(cfg, r.error)
    ensures cfg.sources == [] ==> r == Err(NoSources)
    ensures cfg.sources != [] && cfg.sinks == [] ==> r == Err(NoSinks)
    ensures cfg.sources != [] && cfg.sinks != [] && !Distinct(AllNames(cfg)) ==> r.Err? && r.error.DuplicateName?
  {
    if cfg.sources == [] { return Err(NoSources); }
    if cfg.sinks == [] { return Err(NoSinks); }
    r := CheckDistinct(AllNames(cfg));
    if r.Err? { return; }
    var all := Consumers(cfg);
    for i := 0 to |all|
      invariant forall j :: 0 <= j < i ==> InputsOk(cfg, all[j])
    {
      r := CheckInputs(cfg, all[i]);
      if r.Err? {
        assert !InputsOk(cfg, Consumers(cfg)[i]);
        return;
      }
    }
    var g := BuildConsumerMap(cfg);
    r := CheckConsumed(cfg, g, NamesOf(cfg.processors));
    if r.Err? { return; }
    r := CheckConsumed(cfg, g, cfg.sources);
    if r.Err? { return; }
    var cyclic := DetectCycle(AllNames(cfg), g);
    forall n | n in g ensures n in AllNames(cfg) {
      ProducersAreListed(cfg, n);
    }
    LassoIffCycle(g, AllNames(cfg));
    if cyclic.Err? {
      return Err(Cycle(cyclic.error));
    }
    r := Ok(());
  }

  // ---- reachability ----

  /** One visit of the breadth-first search: marks the unseen consumers and queues them. */
  method Visit(cs: seq<Node>, sinkNames: set<Node>, seen: set<Node>, queue: seq<Node>, sinks: seq<Node>)
    returns (seen': set<Node>, queue': seq<Node>, sinks': seq<Node>)
    requires Distinct(sinks) && forall n :: n in sinks <==> n in seen && n in sinkNames
    ensures seen' == seen + set n | n in cs
    ensures forall n :: n in queue' <==> n in queue || (n in seen' && n !in seen)
    ensures seen' == seen ==> queue' == queue
    ensures Distinct(sinks') && forall n :: n in sinks' <==> n in seen' && n in sinkNames
  {
    seen', queue', sinks' := seen, queue, sinks;
    for i := 0 to |cs|
      invariant seen' == seen + set n | n in cs[..i]
      invariant forall n :: n in queue' <==> n in queue || (n in seen' && n !in seen)
      invariant seen' == seen ==> queue' == queue
      invariant Distinct(sinks') && forall n :: n in sinks' <==> n in seen' && n in sinkNames
    {
      assert cs[..i + 1] == cs[..i] + [cs[i]];
      if cs[i] !in seen' {
        seen' := seen' + {cs[i]};
        if cs[i] in sinkNames {
          sinks' := sinks' + [cs[i]];
        }
        queue' := queue' + [cs[i]];
      }
    }
    assert cs[..|cs|] == cs;
  }

  /** `reachable_sinks_per_source` for one source: breadth-first over consumer edges. */
  method ReachableSinks(g: Edges, sinkNames: set<Node>, source: Node) returns (sinks: seq<Node>)
    ensures Distinct(sinks)
    ensures forall n :: n in sinks <==> n in sinkNames && Reaches(g, source, n)
  {
    var seen: set<Node> := {};
    var queue := [source];
    sinks := [];
    ghost var u := Targets(g);
    while queue != []
      invariant seen <= u && Explored(g, source, seen, queue)
      invariant Distinct(sinks) && forall n :: n in sinks <==> n in seen && n in sinkNames
      decreases u - seen, |queue|
    {
      ghost var seenBefore, queueBefore := seen, queue;
      var node := queue[0];
      seen, queue, sinks := Visit(Next(g, node), sinkNames, seen, queue[1..], sinks);
      ExploredStep(g, source, seenBefore, queueBefore, seen, queue);
    }
    forall n | Reaches(g, source, n) ensures n in seen {
      var w :| IsWalk(g, w) && |w| >= 2 && w[0] == source && w[|w| - 1] == n;
      WalkStaysSeen(g, source, seen, w);
    }
  }

  /** Seen nodes are reached; every visited node has had its consumers marked. */
  ghost predicate Explored(g: Edges, source: Node, seen: set<Node>, queue: seq<Node>) {
    && (forall n :: n in queue ==> n == source || n in seen)
    && (forall n :: n in seen ==> Reaches(g, source, n))
    && (forall n, c :: (n == source || n in seen) && n !in queue && c in Next(g, n) ==> c in seen)
  }

  lemma ExploredStep(g: Edges, source: Node, seen: set<Node>, queue: seq<Node>, seen': set<Node>, queue': seq<Node>)
    requires Explored(g, source, seen, queue) && queue != []
    requires seen' == seen + set n | n in Next(g, queue[0])
    requires forall n :: n in queue' <==> n in queue[1..] || (n in seen' && n !in seen)
    ensures Explored(g, source, seen', queue')
    ensures seen <= Targets(g) ==> seen' <= Targets(g)
  {
    var node := queue[0];
    assert queue == [node] + queue[1..];
    forall n | n in seen' ensures Reaches(g, source, n) {
      if n !in seen {
        ReachStep(g, source, node, n, seen);
      }
    }
  }

  lemma ReachStep(g: Edges, source: Node, node: Node, c: Node, seen: set<Node>)
    requires c in Next(g, node)
    requires node == source || (node in seen && Reaches(g, source, node))
    ensures Reaches(g, source, c)
  {
    if node == source {
      assert IsWalk(g, [source, c]);
    } else {
      var w :| IsWalk(g, w) && |w| >= 2 && w[0] == source && w[|w| - 1] == node;
      assert IsWalk(g, w + [c]);
    }
  }

  lemma {:induction false} WalkStaysSeen(g: Edges, source: Node, seen: set<Node>, w: seq<Node>)
    requires Explored(g, source, seen, [])
    requires IsWalk(g, w) && |w| >= 2 && w[0] == source
    ensures w[|w| - 1] in seen
  {
    var k := |w| - 1;
    assert w[k - 1 + 1] in Next(g, w[k - 1]);
    if k >= 2 {
      WalkStaysSeen(g, source, seen, w[..k]);
    }
  }

  function SinkNames(cfg: Config): set<Node> {
    set i | 0 <= i < |cfg.sinks| :: cfg.sinks[i].name
  }

  /** One list per source, with exactly the sinks the source reaches, each once. */
  ghost predicate RestartLists(cfg: Config, out: map<Node, seq<Node>>) {
    && out.Keys == (set n | n in cfg.sources)
    && (forall s, n :: s in out ==> (n in out[s] <==> n in SinkNames(cfg) && Reaches(ConsumerMap(cfg), s, n)))
    && (forall s :: s in out ==> Distinct(out[s]))
  }

  /** The restart list of every source; never empty in a well-formed config. */
  method ReachableSinksPerSource(cfg: Config) returns (out: map<Node, seq<Node>>)
    ensures RestartLists(cfg, out)
    ensures WellFormed(cfg) ==> forall s :: s in out ==> out[s] != []
  {
    var g := BuildConsumerMap(cfg);
    out := map[];
    for i := 0 to |cfg.sources|
      invariant out.Keys == set j | 0 <= j < i :: cfg.sources[j]
      invariant forall s, n :: s in out ==> (n in out[s] <==> n in SinkNames(cfg) && Reaches(g, s, n))
      invariant forall s :: s in out ==> Distinct(out[s])
    {
      var sinks := ReachableSinks(g, SinkNames(cfg), cfg.sources[i]);
      out := out[cfg.sources[i] := sinks];
    }
    if WellFormed(cfg) {
      forall s | s in out ensures out[s] != [] {
        SourceReachesSink(cfg, s);
      }
    }
  }

  // ---- the shape validation guarantees ----

  lemma NoRepeatOnWalk(g: Edges, w: seq<Node>, i: nat)
    requires !Cyclic(g) && IsWalk(g, w) && i < |w| - 1
    ensures w[i] != w[|w| - 1]
  {
    if w[i] == w[|w| - 1] {
      assert IsClosedWalk(g, w[i..]);
    }
  }

  lemma EdgeStaysListed(cfg: Config, n: Node, c: Node)
    requires WellFormed(cfg) && c in Next(ConsumerMap(cfg), n)
    ensures c in NamesOf(cfg.processors) || c in SinkNames(cfg)
    ensures n in cfg.sources || n in NamesOf(cfg.processors)
  {
    EdgeIffDeclared(cfg, n, c);
    var all := Consumers(cfg);
    var i :| 0 <= i < |all| && all[i].name == c && n in all[i].inputs;
    assert InputsOk(cfg, all[i]);
    var j :| 0 <= j < |all[i].inputs| && all[i].inputs[j] == n;
    assert InputOk(cfg, all[i].name, all[i].inputs[j]);
    if i < |cfg.processors| {
      assert NamesOf(cfg.processors)[i] == c;
    } else {
      assert cfg.sinks[i - |cfg.processors|].name == c;
    }
  }

  /** Extends a walk of distinct producers forward until it meets a sink. */
  lemma {:induction false} WalkToSink(cfg: Config, w: seq<Node>)
    requires WellFormed(cfg) && IsWalk(ConsumerMap(cfg), w) && Distinct(w)
    requires forall n :: n in w ==> n in cfg.sources || n in NamesOf(cfg.processors)
    ensures exists k :: k in SinkNames(cfg) && Reaches(ConsumerMap(cfg), w[0], k)
    decreases (set n | n in AllNames(cfg)) - (set n | n in w)
  {
    var g, last := ConsumerMap(cfg), w[|w| - 1];
    assert Consumed(cfg, last);
    ConsumedIffEdge(cfg, last);
    var c := Next(g, last)[0];
    EdgeStaysListed(cfg, last, c);
    var w' := w + [c];
    assert IsWalk(g, w') && w'[0] == w[0];
    if c in SinkNames(cfg) {
      assert Reaches(g, w[0], c);
    } else {
      if c in w {
        var i :| 0 <= i < |w| && w[i] == c;
        NoRepeatOnWalk(g, w', i);
      }
      assert c in (set n | n in AllNames(cfg)) - (set n | n in w);
      WalkToSink(cfg, w');
    }
  }

  lemma SourceReachesSink(cfg: Config, s: Node)
    requires WellFormed(cfg) && s in cfg.sources
    ensures exists k :: k in SinkNames(cfg) && Reaches(ConsumerMap(cfg), s, k)
  {
    WalkToSink(cfg, [s]);
  }

  ghost predicate IsConsumer(cfg: Config, n: Node) {
    exists i :: 0 <= i < |Consumers(cfg)| && Consumers(cfg)[i].name == n
  }

  /** A consumer has a producer, which is a source or itself a consumer. */
  lemma ProducerOf(cfg: Config, n: Node) returns (p: Node)
    requires WellFormed(cfg) && IsConsumer(cfg, n)
    ensures n in Next(ConsumerMap(cfg), p) && p in AllNames(cfg)
    ensures p in cfg.sources || IsConsumer(cfg, p)
  {
    var all := Consumers(cfg);
    var i :| 0 <= i < |all| && all[i].name == n;
    assert InputsOk(cfg, all[i]);
    p := all[i].inputs[0];
    assert InputOk(cfg, all[i].name, p);
    assert Lists(all, p, n);
    EdgeIffDeclared(cfg, p, n);
    if p !in cfg.sources {
      var k :| 0 <= k < |cfg.processors| && NamesOf(cfg.processors)[k] == p;
      assert all[k].name == p;
    }
  }

  /** Extends a walk backward from a consumer until it meets a source. */
  lemma {:induction false} WalkFromSource(cfg: Config, w: seq<Node>)
    requires WellFormed(cfg) && IsWalk(ConsumerMap(cfg), w) && Distinct(w)
    requires IsConsumer(cfg, w[0])
    ensures exists s :: s in cfg.sources && Reaches(ConsumerMap(cfg), s, w[|w| - 1])
    decreases (set n | n in AllNames(cfg)) - (set n | n in w)
  {
    var g := ConsumerMap(cfg);
    assert !Cyclic(g);
    hide WellFormed;
    var p := ProducerOf(cfg, w[0]);
    var w' := [p] + w;
    assert IsWalk(g, w') && w'[|w'| - 1] == w[|w| - 1];
    if p in cfg.sources {
      assert Reaches(g, p, w[|w| - 1]);
    } else {
      if p in w {
        var j :| 0 <= j < |w| && w[j] == p;
        assert IsWalk(g, w'[..j + 2]);
        NoRepeatOnWalk(g, w'[..j + 2], 0);
      }
      assert p in (set n | n in AllNames(cfg)) - (set n | n in w);
      WalkFromSource(cfg, w');
    }
  }

  /** Every config the DAG rules accept: each source reaches a sink, each sink is fed by a source. */
  lemma ValidatedShape(cfg: Config)
    requires WellFormed(cfg)
    ensures forall s :: s in cfg.sources ==> exists k :: k in SinkNames(cfg) && Reaches(ConsumerMap(cfg), s, k)
    ensures forall k :: k in SinkNames(cfg) ==> exists s :: s in cfg.sources && Reaches(ConsumerMap(cfg), s, k)
  {
    forall s | s in cfg.sources ensures exists k :: k in SinkNames(cfg) && Reaches(ConsumerMap(cfg), s, k) {
      SourceReachesSink(cfg, s);
    }
    forall k | k in SinkNames(cfg) ensures exists s :: s in cfg.sources && Reaches(ConsumerMap(cfg), s, k) {
      var i :| 0 <= i < |cfg.sinks| && cfg.sinks[i].name == k;
      assert Consumers(cfg)[|cfg.processors| + i].name == k;
      WalkFromSource(cfg, [k]);
    }
  }
}

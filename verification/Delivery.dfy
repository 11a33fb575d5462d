/** The pipeline as a labelled transition system: sources, in-flight batches, sinks, checkpoint ticks,
    crashes and restarts, on chains that do not change. */
module Delivery {
  import opened Common
  import opened Encoding
  import opened Checkpoint
  import Source
  import Replay

  /** A processor as a record function. */
  type Stage = Record -> seq<Record>

  /** One way from a source to a sink, through the processors on it. */
  datatype Path = Path(source: string, sink: string, stages: seq<Stage>)

  /** The pipeline: settings and chain of each source, the paths, the sinks each source's restart
      looks at, and the sinks that buffer accepted records. */
  datatype Net = Net(
    cfg: string -> Source.SourceCfg, chain: string -> Chain, paths: seq<Path>,
    restartSinks: string -> seq<string>, buffering: set<string>)

  /** A record a sink was owed or given, on behalf of a source. */
  datatype Delivery = Delivery(source: string, sink: string, record: Record)

  /** A batch in flight; `stage` processors have handled it, one more means the sink accepted it. */
  datatype Item = Item(batch: Batch, stage: nat)

  datatype Tick = Idle | Flushing(snapshot: Cursors, toFlush: set<string>)

  /** `began` remembers where each source first started, over all process lives; `writing` holds, for each
      sink whose instance is checked out, the path of the batch being written. */
  datatype Pipeline = Pipeline(
    live: Cursors, db: Cursors,
    stored: set<Delivery>, buffered: set<Delivery>,
    pipes: seq<seq<Item>>, cursor: map<string, nat>, began: map<string, nat>,
    writing: map<string, nat>, paused: set<string>, tick: Tick)

  datatype Event =
    | Restart(source: string, from: Option<nat>, height: Option<nat>)
    | Emit(source: string, hi: nat)
    | EmitEof(source: string)
    | Process(path: nat, item: nat)
    | BeginWrite(path: nat)
    | WriteEnds(path: nat, part: set<Delivery>, up: set<Delivery>, lost: set<Delivery>, ok: bool)
    | TrapWrite(path: nat)
    | AckHead(path: nat)
    | Pause(sink: string)
    | TakeSnapshot
    | FlushSink(sink: string)
    | FlushFails(sink: string, up: set<Delivery>, lost: set<Delivery>)
    | MissFlush(sink: string)
    | PanicFlush(sink: string)
    | TickFails
    | Persist
    | Crash
    | SkipBatch(path: nat, item: nat)
    | SplitBatch(path: nat, item: nat, at: nat)

  /** What the delivery guarantee does not survive: a failing or splitting processor; and for a buffering
      sink a trap, an object taken but not stored, a flush while a write has the instance checked out,
      and a flush task that panics. */
  datatype Hazard = ProcessorError | SplitOutput | Trap | FailedPut | FlushDuringWrite | FlushPanic

  function HazardOf(net: Net, e: Event): set<Hazard> {
    match e
    case SkipBatch(_, _) => {ProcessorError}
    case SplitBatch(_, _, _) => {SplitOutput}
    case TrapWrite(i) => if i < |net.paths| && net.paths[i].sink in net.buffering then {Trap} else {}
    case WriteEnds(_, _, _, lost, _) => if lost != {} then {FailedPut} else {}
    case FlushFails(_, _, lost) => if lost != {} then {FailedPut} else {}
    case MissFlush(sink) => if sink in net.buffering then {FlushDuringWrite} else {}
    case PanicFlush(sink) => if sink in net.buffering then {FlushPanic} else {}
    case _ => {}
  }

  // ---- records along a path ----

  function MapStage(f: Stage, rs: seq<Record>): seq<Record> {
    if rs == [] then [] else MapStage(f, rs[..|rs| - 1]) + f(rs[|rs| - 1])
  }

  /** What the given processors, in order, make of a record list. */
  function Through(stages: seq<Stage>, rs: seq<Record>): seq<Record> {
    if stages == [] then rs else Through(stages[1..], MapStage(stages[0], rs))
  }

  /** What the sink is given once the processors from `stage` on have handled `rs`. */
  ghost function Image(p: Path, stage: nat, rs: seq<Record>): set<Delivery> {
    set r | r in Through(if stage <= |p.stages| then p.stages[stage..] else [], rs) :: Delivery(p.source, p.sink, r)
  }

  ghost function ItemImage(p: Path, it: Item): set<Delivery> {
    Image(p, it.stage, it.batch.Records())
  }

  /** What the path owes its sink for the blocks from where its source first started up to `n`. */
  ghost function Due(net: Net, p: Path, began: Option<nat>, n: nat): set<Delivery> {
    if began.None? then {} else Image(p, 0, Recs(net.chain(p.source), began.value, n))
  }

  function Began(s: Pipeline, source: string): Option<nat> {
    if source in s.began then Some(s.began[source]) else None
  }

  // ---- transitions ----

  function KeyOf(p: Path): Key {
    Key(p.source, p.sink)
  }

  function Have(s: Pipeline): set<Delivery> {
    s.stored + s.buffered
  }

  function OfSink(ds: set<Delivery>, sink: string): set<Delivery> {
    set d | d in ds && d.sink == sink
  }

  function SinksOf(net: Net): set<string> {
    set i | 0 <= i < |net.paths| :: net.paths[i].sink
  }

  ghost predicate ValidPath(net: Net, s: Pipeline, i: nat) {
    i < |net.paths| && i < |s.pipes|
  }

  /** The item is at the head of the queue of processor number `stage`. */
  ghost predicate AtProcessor(net: Net, s: Pipeline, i: nat, j: nat) {
    ValidPath(net, s, i) && j < |s.pipes[i]| && s.pipes[i][j].stage < |net.paths[i].stages|
    && (j > 0 ==> s.pipes[i][j - 1].stage > s.pipes[i][j].stage)
  }

  /** The oldest batch of the path is at the sink, whose task is still running. */
  ghost predicate AtSink(net: Net, s: Pipeline, i: nat, extra: nat) {
    ValidPath(net, s, i) && s.pipes[i] != [] && s.pipes[i][0].stage == |net.paths[i].stages| + extra
    && net.paths[i].sink !in s.paused
  }

  /** The sink is writing the oldest batch of the path. */
  ghost predicate Writing(net: Net, s: Pipeline, i: nat) {
    AtSink(net, s, i, 0) && net.paths[i].sink in s.writing && s.writing[net.paths[i].sink] == i
  }

  /** A write has taken in `part` of its batch, stored `up` and dropped `lost` of what was then buffered;
      only a buffering sink buffers, and an accepted write takes in everything and drops nothing. */
  ghost predicate WriteMayEnd(net: Net, s: Pipeline, i: nat, part: set<Delivery>, up: set<Delivery>,
                              lost: set<Delivery>, ok: bool) {
    && Writing(net, s, i) && part <= ItemImage(net.paths[i], s.pipes[i][0])
    && (ok ==> part == ItemImage(net.paths[i], s.pipes[i][0]) && lost == {})
    && up + lost <= (if net.paths[i].sink in net.buffering then OfSink(s.buffered + part, net.paths[i].sink) else {})
  }

  /** The tick has come to a sink it still has to flush. */
  predicate FlushDue(s: Pipeline, sink: string) {
    s.tick.Flushing? && sink in s.tick.toFlush
  }

  ghost predicate Enabled(net: Net, s: Pipeline, e: Event) {
    match e
    case Restart(src, r, _) => src !in s.cursor && RestartsAt(s.live, src, net.restartSinks(src), r)
    case Emit(src, hi) => src in s.cursor && s.cursor[src] < hi
    case EmitEof(src) => src in s.cursor && net.cfg(src).AtEnd(s.cursor[src])
    case Process(i, j) => AtProcessor(net, s, i, j)
    case BeginWrite(i) => AtSink(net, s, i, 0) && net.paths[i].sink !in s.writing
    case WriteEnds(i, part, up, lost, ok) => WriteMayEnd(net, s, i, part, up, lost, ok)
    case TrapWrite(i) => Writing(net, s, i)
    case AckHead(i) => AtSink(net, s, i, 1)
    case Pause(sink) => sink !in s.writing
    case TakeSnapshot => s.tick.Idle?
    case FlushSink(sink) => FlushDue(s, sink) && sink !in s.writing
    case FlushFails(sink, up, lost) => FlushDue(s, sink) && sink !in s.writing && up + lost <= OfSink(s.buffered, sink)
    case MissFlush(sink) => FlushDue(s, sink) && sink in s.writing
    case PanicFlush(sink) => FlushDue(s, sink)
    case TickFails => s.tick.Flushing?
    case Persist => s.tick.Flushing? && s.tick.toFlush == {}
    case SkipBatch(i, j) => AtProcessor(net, s, i, j)
    case SplitBatch(i, j, at) =>
      AtProcessor(net, s, i, j) && s.pipes[i][j].batch.body.Data? && at <= |s.pipes[i][j].batch.Records()|
    case _ => true
  }

  function Fresh(bs: seq<Batch>): seq<Item> {
    seq(|bs|, i requires 0 <= i < |bs| => Item(bs[i], 0))
  }

  /** Appends to every path of the source. */
  function Send(net: Net, pipes: seq<seq<Item>>, source: string, bs: seq<Batch>): seq<seq<Item>> {
    seq(|pipes|, i requires 0 <= i < |pipes| =>
      if i < |net.paths| && net.paths[i].source == source then pipes[i] + Fresh(bs) else pipes[i])
  }

  ghost function RangeBatches(net: Net, source: string, lo: nat, hi: nat): seq<Batch> {
    Source.Chunked(net.cfg(source), BlockRange(lo, hi), 0, Recs(net.chain(source), lo, hi))
  }

  /** A data batch is rewritten record by record, an empty result staying an empty batch; control
      batches pass through. */
  function Processed(f: Stage, it: Item): Item {
    Item(if it.batch.body.Data? then it.batch.Derive(MapStage(f, it.batch.Records())) else it.batch, it.stage + 1)
  }

  /** Where a source starts: the restored block or its configured one, except that a live source left at
      block 0 jumps to the head. */
  function StartOf(net: Net, source: string, from: Option<nat>, height: Option<nat>): nat {
    var start := net.cfg(source).fromBlock;
    Source.StartCursor(net.cfg(source), if from.Some? then Max(from.value, start) else start, height)
  }

  ghost function AfterWrite(net: Net, s: Pipeline, sink: string, part: set<Delivery>, up: set<Delivery>,
                            lost: set<Delivery>): Pipeline {
    var t := s.(writing := s.writing - {sink});
    if sink in net.buffering then t.(stored := s.stored + up, buffered := s.buffered + part - up - lost)
    else t.(stored := s.stored + part)
  }

  /** The tick is done with the sink. */
  function Visited(tick: Tick, sink: string): Tick {
    if tick.Idle? then tick else Flushing(tick.snapshot, tick.toFlush - {sink})
  }

  ghost function Next(net: Net, s: Pipeline, e: Event): Pipeline
    requires Enabled(net, s, e)
  {
    match e
    case Restart(src, r, height) =>
      var start := StartOf(net, src, r, height);
      s.(cursor := s.cursor[src := start], began := if src in s.began then s.began else s.began[src := start])
    case Emit(src, hi) =>
      s.(cursor := s.cursor[src := hi], pipes := Send(net, s.pipes, src, RangeBatches(net, src, s.cursor[src], hi)))
    case EmitEof(src) => s.(pipes := Send(net, s.pipes, src, [Source.EofBatch(net.cfg(src), s.cursor[src])]))
    case Process(i, j) =>
      var it := s.pipes[i][j];
      s.(pipes := s.pipes[i := s.pipes[i][j := Processed(net.paths[i].stages[it.stage], it)]])
    case BeginWrite(i) => s.(writing := s.writing[net.paths[i].sink := i])
    case WriteEnds(i, part, up, lost, ok) =>
      var it := s.pipes[i][0];
      AfterWrite(net, s.(pipes := s.pipes[i := s.pipes[i][0 := if ok then Item(it.batch, it.stage + 1) else it]]),
                 net.paths[i].sink, part, up, lost)
    case TrapWrite(i) =>
      s.(writing := s.writing - {net.paths[i].sink}, buffered := s.buffered - OfSink(s.buffered, net.paths[i].sink))
    case AckHead(i) =>
      s.(pipes := s.pipes[i := s.pipes[i][1..]],
         live := Acked(s.live, KeyOf(net.paths[i]), s.pipes[i][0].batch.AckBlock()))
    case Pause(sink) => s.(paused := s.paused + {sink})
    case TakeSnapshot => s.(tick := Flushing(s.live, SinksOf(net)))
    case FlushSink(sink) =>
      var ds := OfSink(s.buffered, sink);
      s.(stored := s.stored + ds, buffered := s.buffered - ds, tick := Visited(s.tick, sink))
    case FlushFails(sink, up, lost) => s.(stored := s.stored + up, buffered := s.buffered - up - lost, tick := Idle)
    case MissFlush(sink) => s.(tick := Visited(s.tick, sink))
    case PanicFlush(sink) => s.(tick := Visited(s.tick, sink))
    case TickFails => s.(tick := Idle)
    case Persist => s.(db := PersistedCursors(s.db, s.live, s.tick.snapshot), tick := Idle)
    case Crash => Opened(net, s.db, s.stored).(began := s.began)
    case SkipBatch(i, j) => s.(pipes := s.pipes[i := s.pipes[i][..j] + s.pipes[i][j + 1..]])
    case SplitBatch(i, j, at) =>
      var it := s.pipes[i][j];
      var out := Processed(net.paths[i].stages[it.stage], it).batch;
      var cut := Min(at, |out.Records()|);
      s.(pipes := s.pipes[i := s.pipes[i][..j]
           + [Item(out.Derive(out.Records()[..cut]), it.stage + 1),
              Item(out.Derive(out.Records()[cut..]), it.stage + 1)]
           + s.pipes[i][j + 1..]])
  }

  /** A process that has just opened the checkpoint store. */
  function Opened(net: Net, db: Cursors, stored: set<Delivery>): Pipeline {
    Pipeline(db, db, stored, {}, seq(|net.paths|, i => []), map[], map[], map[], {}, Idle)
  }

  /** A run from a fresh store: every event possible and no hazard but the allowed ones. */
  ghost predicate IsRun(net: Net, hazards: set<Hazard>, states: seq<Pipeline>, es: seq<Event>) {
    && |states| == |es| + 1 && states[0] == Opened(net, map[], {})
    && forall i {:trigger es[i]} :: 0 <= i < |es| ==>
         HazardOf(net, es[i]) <= hazards && Enabled(net, states[i], es[i])
         && states[i + 1] == Next(net, states[i], es[i])
  }

  ghost predicate Reachable(net: Net, hazards: set<Hazard>, s: Pipeline) {
    exists states, es :: IsRun(net, hazards, states, es) && s == states[|es|]
  }

  lemma ReachStart(net: Net, hazards: set<Hazard>)
    ensures Reachable(net, hazards, Opened(net, map[], {}))
  {
    assert IsRun(net, hazards, [Opened(net, map[], {})], []);
  }

  lemma ReachNext(net: Net, hazards: set<Hazard>, s: Pipeline, e: Event)
    requires Reachable(net, hazards, s) && Enabled(net, s, e) && HazardOf(net, e) <= hazards
    ensures Reachable(net, hazards, Next(net, s, e))
  {
    hide Enabled, Next, HazardOf;
    var states, es :| IsRun(net, hazards, states, es) && s == states[|es|];
    var states', es' := states + [Next(net, s, e)], es + [e];
    forall i {:trigger es'[i]} | 0 <= i < |es'|
      ensures HazardOf(net, es'[i]) <= hazards && Enabled(net, states'[i], es'[i])
              && states'[i + 1] == Next(net, states'[i], es'[i])
    {
      assert i < |es| ==> es'[i] == es[i];
    }
    assert IsRun(net, hazards, states', es') && states'[|es'|] == Next(net, s, e);
  }

  lemma {:induction false} ReachMore(net: Net, hazards: set<Hazard>, more: set<Hazard>, s: Pipeline)
    requires Reachable(net, hazards, s) && hazards <= more
    ensures Reachable(net, more, s)
  {
    hide Enabled, Next, HazardOf;
    var states, es :| IsRun(net, hazards, states, es) && s == states[|es|];
    assert IsRun(net, more, states, es);
  }

  // ---- going on from a state ----

  /** The events lead from one state to the other. */
  ghost predicate Steps(net: Net, s: Pipeline, es: seq<Event>, t: Pipeline)
    decreases |es|
  {
    if es == [] then s == t else Enabled(net, s, es[0]) && Steps(net, Next(net, s, es[0]), es[1..], t)
  }

  lemma {:induction false} StepsThen(net: Net, s: Pipeline, es: seq<Event>, t: Pipeline, more: seq<Event>, u: Pipeline)
    requires Steps(net, s, es, t) && Steps(net, t, more, u)
    ensures Steps(net, s, es + more, u)
    decreases |es|
  {
    hide Enabled, Next;
    if es == [] {
      assert es + more == more;
    } else {
      assert (es + more)[1..] == es[1..] + more;
      StepsThen(net, Next(net, s, es[0]), es[1..], t, more, u);
    }
  }

  /** The pipeline can go from one state to the other without a hazard. */
  ghost predicate CanReach(net: Net, s: Pipeline, t: Pipeline) {
    exists es :: Steps(net, s, es, t) && NoHazards(net, es)
  }

  ghost predicate NoHazards(net: Net, es: seq<Event>) {
    forall i :: 0 <= i < |es| ==> HazardOf(net, es[i]) == {}
  }

  lemma CanStay(net: Net, s: Pipeline)
    ensures CanReach(net, s, s)
  {
    assert Steps(net, s, [], s) && NoHazards(net, []);
  }

  lemma CanStep(net: Net, s: Pipeline, t: Pipeline, e: Event)
    requires CanReach(net, s, t) && Enabled(net, t, e) && HazardOf(net, e) == {}
    ensures CanReach(net, s, Next(net, t, e))
  {
    hide Enabled, Next, HazardOf;
    var es :| Steps(net, s, es, t) && NoHazards(net, es);
    assert [e][1..] == [] && Steps(net, Next(net, t, e), [], Next(net, t, e));
    StepsThen(net, s, es, t, [e], Next(net, t, e));
    assert NoHazards(net, es + [e]);
  }

  lemma {:induction false} StepsReach(net: Net, s: Pipeline, es: seq<Event>, t: Pipeline)
    requires Reachable(net, {}, s) && Steps(net, s, es, t) && NoHazards(net, es)
    ensures Reachable(net, {}, t)
    decreases |es|
  {
    hide Enabled, Next, HazardOf, Reachable;
    if es != [] {
      ReachNext(net, {}, s, es[0]);
      assert forall i :: 0 <= i < |es[1..]| ==> es[1..][i] == es[i + 1];
      StepsReach(net, Next(net, s, es[0]), es[1..], t);
    }
  }

  lemma StaysReachable(net: Net, s: Pipeline, t: Pipeline)
    requires Reachable(net, {}, s) && CanReach(net, s, t)
    ensures Reachable(net, {}, t)
  {
    hide Reachable;
    var es :| Steps(net, s, es, t) && NoHazards(net, es);
    StepsReach(net, s, es, t);
  }

  // ---- the guarantee ----

  /** Every sink of a source bounds its restart. */
  ghost predicate RestartsCovered(net: Net) {
    forall i :: 0 <= i < |net.paths| ==> net.paths[i].sink in net.restartSinks(net.paths[i].source)
  }

  /** Both paths make the same deliveries of every record. */
  ghost predicate SameImages(p: Path, q: Path) {
    forall r: Record :: Image(p, 0, [r]) == Image(q, 0, [r])
  }

  /** Paths from one source to one sink deliver the same. */
  ghost predicate PathsAgree(paths: seq<Path>) {
    forall i, j :: 0 <= i < j < |paths| && KeyOf(paths[i]) == KeyOf(paths[j]) ==> SameImages(paths[i], paths[j])
  }

  /** Paths of one (source, sink) agree, and every sink of a source bounds its restart. */
  ghost predicate SafePaths(net: Net) {
    PathsAgree(net.paths) && RestartsCovered(net)
  }

  ghost predicate Distinct(keys: seq<Key>) {
    forall i, j :: 0 <= i < j < |keys| ==> keys[i] != keys[j]
  }

  function KeysOf(paths: seq<Path>): seq<Key> {
    seq(|paths|, i requires 0 <= i < |paths| => KeyOf(paths[i]))
  }

  /** One path per (source, sink), and every sink of a source bounds its restart. */
  ghost predicate SinglePaths(net: Net) {
    Distinct(KeysOf(net.paths)) && RestartsCovered(net)
  }

  lemma SinglePathsAreSafe(net: Net)
    requires SinglePaths(net)
    ensures SafePaths(net)
  {
    forall i, j | 0 <= i < j < |net.paths| ensures KeyOf(net.paths[i]) != KeyOf(net.paths[j]) {
      assert KeysOf(net.paths)[i] != KeysOf(net.paths)[j];
    }
  }

  /** A live source has its start block configured. */
  predicate StartsPinned(cfg: Source.SourceCfg) {
    cfg.mode == Source.Live ==> cfg.fromBlock > 0
  }

  ghost predicate Pinned(net: Net) {
    forall i :: 0 <= i < |net.paths| ==> StartsPinned(net.cfg(net.paths[i].source))
  }

  /** No live cursor passes a record its sink does not have, no durable one a record not stored. */
  ghost predicate CursorsSafe(net: Net, s: Pipeline) {
    forall i :: 0 <= i < |net.paths| ==>
      var p := net.paths[i];
      && (KeyOf(p) in s.live ==> Due(net, p, Began(s, p.source), s.live[KeyOf(p)]) <= Have(s))
      && (KeyOf(p) in s.db ==> Due(net, p, Began(s, p.source), s.db[KeyOf(p)]) <= s.stored)
  }
}

/** What the delivery guarantee needs: a run that breaks it for each hazard, for two paths to one sink, and
    for a live source without a start block; and the exact conditions. */
module DeliveryHazards {
  import opened Common
  import opened Encoding
  import opened Checkpoint
  import Source
  import opened Delivery
  import opened DeliverySafety

  const A := Record(Some(0), "a")
  const B := Record(Some(0), "b")
  const C := Record(Some(1), "c")

  // ---- small pipelines ----

  function DemoCfg(): Source.SourceCfg {
    Source.SourceCfg("s", 1, Source.Backfill, 0, Some(2), 0, false, 1, 10)
  }

  /** Source "s" feeds sink "k" along each path; block 0 holds `first`, block 1 one record. */
  function DemoNet(cfg: Source.SourceCfg, paths: seq<seq<Stage>>, first: seq<Record>, buffering: set<string>): Net {
    Net(_ => cfg,
        _ => Chain((n: nat) => Block("h", RecordsAt(first, n))),
        seq(|paths|, i requires 0 <= i < |paths| => Path("s", "k", paths[i])),
        _ => ["k"], buffering)
  }

  function RecordsAt(first: seq<Record>, n: nat): seq<Record> {
    if n == 0 then first else if n == 1 then [C] else []
  }

  function BatchOf(cfg: Source.SourceCfg, first: seq<Record>, n: nat): Batch {
    DataBatch(cfg.name, cfg.chainId, BlockRange(n, n + 1), 0, RecordsAt(first, n))
  }

  /** The delivery of a record from "s" to "k". */
  function D(r: Record): Delivery {
    Delivery("s", "k", r)
  }

  const K := Key("s", "k")

  lemma DemoShape(cfg: Source.SourceCfg, paths: seq<seq<Stage>>, first: seq<Record>, buffering: set<string>)
    ensures var net := DemoNet(cfg, paths, first, buffering);
            && |net.paths| == |paths| && RestartsCovered(net)
            && (forall i :: 0 <= i < |paths| ==> net.paths[i] == Path("s", "k", paths[i]))
            && (StartsPinned(cfg) ==> Pinned(net))
            && (|paths| == 1 ==> SinglePaths(net))
  {
    assert "k" in ["k"];
  }

  lemma DemoRecs(cfg: Source.SourceCfg, paths: seq<seq<Stage>>, first: seq<Record>, buffering: set<string>)
    ensures var c := DemoNet(cfg, paths, first, buffering).chain("s");
            && Recs(c, 0, 1) == first && Recs(c, 1, 2) == [C] && Recs(c, 0, 2) == first + [C]
  {
    var c := DemoNet(cfg, paths, first, buffering).chain("s");
    assert Recs(c, 0, 0) == [] == Recs(c, 1, 1);
    assert c.at(0).records == first && c.at(1).records == [C];
    assert [] + first == first && [] + [C] == [C];
  }

  /** The source starts on a fresh store. */
  lemma FirstStart(net: Net, h: set<Hazard>, height: Option<nat>) returns (s: Pipeline)
    requires net.restartSinks("s") == ["k"]
    ensures Reachable(net, h, s)
    ensures var start := StartOf(net, "s", None, height);
            s == Opened(net, map[], {}).(cursor := map["s" := start], began := map["s" := start])
  {
    hide Reachable;
    ReachStart(net, h);
    var s0 := Opened(net, map[], {});
    NoRestartBlock(s0.live);
    ReachNext(net, h, s0, Restart("s", None, height));
    s := Next(net, s0, Restart("s", None, height));
  }

  lemma NoRestartBlock(c: Cursors)
    requires K !in c
    ensures RestartsAt(c, "s", ["k"], None)
  {
    assert Key("s", ["k"][0]) !in c;
  }

  /** The source emits block `n`, one batch to each path. */
  lemma EmitBlock(cfg: Source.SourceCfg, paths: seq<seq<Stage>>, first: seq<Record>, buffering: set<string>,
                  h: set<Hazard>, s: Pipeline, n: nat) returns (t: Pipeline)
    requires Reachable(DemoNet(cfg, paths, first, buffering), h, s)
    requires n < 2 && 0 < |first| <= cfg.ChunkSize() && "s" in s.cursor && s.cursor["s"] == n && |s.pipes| == |paths|
    ensures Reachable(DemoNet(cfg, paths, first, buffering), h, t)
    ensures t == s.(cursor := s.cursor["s" := n + 1], pipes := t.pipes) && |t.pipes| == |paths|
    ensures forall i :: 0 <= i < |paths| ==> t.pipes[i] == s.pipes[i] + [Item(BatchOf(cfg, first, n), 0)]
  {
    hide Reachable;
    var net := DemoNet(cfg, paths, first, buffering);
    DemoShape(cfg, paths, first, buffering);
    DemoRecs(cfg, paths, first, buffering);
    ReachNext(net, h, s, Emit("s", n + 1));
    t := Next(net, s, Emit("s", n + 1));
    assert RangeBatches(net, "s", n, n + 1) == [BatchOf(cfg, first, n)];
    assert Fresh([BatchOf(cfg, first, n)]) == [Item(BatchOf(cfg, first, n), 0)];
  }

  /** The state after the sink has taken in `ds`. */
  function Accepted(net: Net, s: Pipeline, sink: string, ds: set<Delivery>): Pipeline {
    if sink in net.buffering then s.(buffered := s.buffered + ds) else s.(stored := s.stored + ds)
  }

  /** The head of path `i`, at the sink, is written. */
  lemma WriteHead(net: Net, h: set<Hazard>, s: Pipeline, i: nat) returns (w: Pipeline)
    requires Reachable(net, h, s) && AtSink(net, s, i, 0) && s.writing == map[]
    ensures Reachable(net, h, w)
    ensures var it := s.pipes[i][0];
            w == Accepted(net, s, net.paths[i].sink, ItemImage(net.paths[i], it))
                 .(pipes := s.pipes[i := s.pipes[i][0 := Item(it.batch, it.stage + 1)]])
  {
    hide Reachable, ItemImage;
    var sink, image := net.paths[i].sink, ItemImage(net.paths[i], s.pipes[i][0]);
    ReachNext(net, h, s, BeginWrite(i));
    var b := Next(net, s, BeginWrite(i));
    var ends := WriteEnds(i, image, {}, {}, true);
    ReachNext(net, h, b, ends);
    w := Next(net, b, ends);
    assert map[sink := i] - {sink} == map[];
    assert s.buffered + image - {} - {} == s.buffered + image;
  }

  /** The head of path `i`, at the sink, is written and acked. */
  lemma WriteAndAck(net: Net, h: set<Hazard>, s: Pipeline, i: nat) returns (t: Pipeline)
    requires Reachable(net, h, s) && AtSink(net, s, i, 0) && s.writing == map[]
    ensures Reachable(net, h, t)
    ensures t == Accepted(net, s, net.paths[i].sink, ItemImage(net.paths[i], s.pipes[i][0]))
                 .(pipes := s.pipes[i := s.pipes[i][1..]],
                   live := Acked(s.live, KeyOf(net.paths[i]), s.pipes[i][0].batch.AckBlock()))
  {
    hide Reachable, ItemImage;
    var w := WriteHead(net, h, s, i);
    assert w.pipes[i][1..] == s.pipes[i][1..];
    ReachNext(net, h, w, AckHead(i));
    t := Next(net, w, AckHead(i));
  }

  lemma ImageOfOne(p: Path, it: Item, r: Record)
    requires p.source == "s" && p.sink == "k" && it.stage == |p.stages| && it.batch.Records() == [r]
    ensures ItemImage(p, it) == {D(r)}
  {
    assert p.stages[it.stage..] == [];
    assert Through([], [r]) == [r];
  }

  /** A record the acked cursor covers is nowhere. */
  lemma MissedIsUnsafe(net: Net, s: Pipeline, i: nat, r: Record)
    requires i < |net.paths| && net.paths[i].source == "s" && net.paths[i].sink == "k"
    requires K in s.live && D(r) in Due(net, net.paths[i], Began(s, "s"), s.live[K]) && D(r) !in Have(s)
    ensures !CursorsSafe(net, s)
  {
    assert KeyOf(net.paths[i]) == K;
  }

  lemma UnstoredIsUnsafe(net: Net, s: Pipeline, i: nat, r: Record)
    requires i < |net.paths| && net.paths[i].source == "s" && net.paths[i].sink == "k"
    requires K in s.db && D(r) in Due(net, net.paths[i], Began(s, "s"), s.db[K]) && D(r) !in s.stored
    ensures !CursorsSafe(net, s)
  {
    assert KeyOf(net.paths[i]) == K;
  }

  /** On a pipeline that meets the other hypotheses the hazards lead to an unsafe state. */
  ghost predicate Breaks(net: Net, h: set<Hazard>) {
    SinglePaths(net) && Pinned(net) && exists s :: Reachable(net, h, s) && !CursorsSafe(net, s)
  }

  // ---- two paths to one sink ----

  function TwoPathNet(other: Stage): Net {
    DemoNet(DemoCfg(), [[], [other]], [A], {})
  }

  /** Two paths from one source to one sink and an exact restart list: with no hazard at all, the first copy
      to arrive acks past what the other path still has to deliver. */
  lemma TwoPathsLoseRecords(other: Stage)
    requires other(A) == [B]
    ensures var net := TwoPathNet(other);
            && |net.paths| == 2 && KeyOf(net.paths[0]) == KeyOf(net.paths[1])
            && RestartsCovered(net) && Pinned(net)
            && exists s :: Reachable(net, {}, s) && !CursorsSafe(net, s)
  {
    hide Reachable;
    var paths: seq<seq<Stage>> := [[], [other]];
    var cfg, net := DemoCfg(), TwoPathNet(other);
    DemoShape(cfg, paths, [A], {});
    DemoRecs(cfg, paths, [A], {});
    var s0 := FirstStart(net, {}, None);
    var s1 := EmitBlock(cfg, paths, [A], {}, {}, s0, 0);
    ImageOfOne(net.paths[0], s1.pipes[0][0], A);
    var t := WriteAndAck(net, {}, s1, 0);
    assert [A][..0] == [] && MapStage(other, [A]) == [B];
    assert [other][1..] == [] && [other][0..] == [other];
    assert Through([other], [A]) == [B];
    assert B in Through([other], [A]);
    assert D(B) in Due(net, net.paths[1], Some(0), 1);
    MissedIsUnsafe(net, t, 1, B);
  }

  // ---- a live source without a start block ----

  ghost predicate UsesOnly(net: Net, cfg: Source.SourceCfg) {
    forall src :: net.cfg(src) == cfg
  }

  /** The first batch is lost in a crash and the source restarts one block later. */
  lemma CrashAndJump(cfg: Source.SourceCfg, s: Pipeline) returns (t: Pipeline)
    requires !StartsPinned(cfg) && Reachable(DemoNet(cfg, [[]], [A], {}), {}, s)
    requires s.live == s.db == map[] && s.stored == {} && s.began == map["s" := 0]
    ensures Reachable(DemoNet(cfg, [[]], [A], {}), {}, t)
    ensures t == Opened(DemoNet(cfg, [[]], [A], {}), map[], {}).(cursor := map["s" := 1], began := map["s" := 0])
  {
    hide Reachable;
    var net := DemoNet(cfg, [[]], [A], {});
    ReachNext(net, {}, s, Crash);
    var c := Next(net, s, Crash);
    NoRestartBlock(c.live);
    var again := Restart("s", None, Some(cfg.confirmations + 1));
    ReachNext(net, {}, c, again);
    t := Next(net, c, again);
  }

  /** A live source with no start block crashes before its first cursor is persisted and restarts at a later
      head: the block in between is never delivered, and the cursor passes it. */
  lemma HeadJumpLosesRecords(cfg: Source.SourceCfg)
    requires !StartsPinned(cfg)
    ensures var net := DemoNet(cfg, [[]], [A], {});
            && SinglePaths(net) && UsesOnly(net, cfg)
            && exists s :: Reachable(net, {}, s) && !CursorsSafe(net, s)
  {
    hide Reachable, Due;
    var paths: seq<seq<Stage>> := [[]];
    var net := DemoNet(cfg, paths, [A], {});
    DemoShape(cfg, paths, [A], {});
    DemoRecs(cfg, paths, [A], {});
    var s0 := FirstStart(net, {}, Some(cfg.confirmations));
    var s1 := EmitBlock(cfg, paths, [A], {}, {}, s0, 0);
    var s3 := CrashAndJump(cfg, s1);
    var s4 := EmitBlock(cfg, paths, [A], {}, {}, s3, 1);
    ImageOfOne(net.paths[0], s4.pipes[0][0], C);
    var t := WriteAndAck(net, {}, s4, 0);
    DueAll(net, t, 2, [A, C], A);
    MissedIsUnsafe(net, t, 0, A);
  }

  /** What a path without processors owes. */
  lemma DueAll(net: Net, s: Pipeline, n: nat, rs: seq<Record>, r: Record)
    requires net.paths == [Path("s", "k", [])] && Began(s, "s") == Some(0)
    requires Recs(net.chain("s"), 0, n) == rs && r in rs
    ensures D(r) in Due(net, net.paths[0], Began(s, "s"), n)
  {
    var stages: seq<Stage> := [];
    assert stages[0..] == stages;
    assert Through(stages, rs) == rs;
  }

  /** A source configuration keeps the guarantee on every pipeline and run iff, if live, it has a start
      block configured. */
  lemma SafeIffPinned(cfg: Source.SourceCfg)
    ensures (forall net, s :: SafePaths(net) && UsesOnly(net, cfg) && Reachable(net, {}, s) ==> CursorsSafe(net, s))
            <==> StartsPinned(cfg)
  {
    hide Reachable, CursorsSafe, SinglePaths, SafePaths;
    if StartsPinned(cfg) {
      forall net, s | SafePaths(net) && UsesOnly(net, cfg) && Reachable(net, {}, s) ensures CursorsSafe(net, s) {
        AtLeastOnce(net, s);
      }
    } else {
      HeadJumpLosesRecords(cfg);
      SinglePathsAreSafe(DemoNet(cfg, [[]], [A], {}));
    }
  }

  // ---- processors ----

  ghost predicate HandsOn(f: Stage, r: Record) {
    f(r) == [r]
  }

  /** A processor that hands on each of the records changes nothing. */
  lemma OneStage(f: Stage, rs: seq<Record>)
    requires forall r :: r in rs ==> HandsOn(f, r)
    ensures MapStage(f, rs) == rs && Through([f], rs) == rs
  {
    hide MapStage, HandsOn;
    StageHandsOn(f, rs);
    assert [f][1..] == [];
    assert Through([f], rs) == Through([], MapStage(f, rs));
  }

  lemma {:induction false} StageHandsOn(f: Stage, rs: seq<Record>)
    requires forall r :: r in rs ==> HandsOn(f, r)
    ensures MapStage(f, rs) == rs
  {
    if rs != [] {
      var init, last := rs[..|rs| - 1], rs[|rs| - 1];
      assert rs == init + [last];
      StageHandsOn(f, init);
      assert HandsOn(f, last);
    }
  }

  /** What a path with the one processor `f` owes. */
  lemma DueThrough(net: Net, s: Pipeline, f: Stage, n: nat, rs: seq<Record>, r: Record)
    requires net.paths == [Path("s", "k", [f])] && Began(s, "s") == Some(0)
    requires Recs(net.chain("s"), 0, n) == rs && r in rs
    requires |rs| <= 2 && forall i :: 0 <= i < |rs| ==> f(rs[i]) == [rs[i]]
    ensures D(r) in Due(net, net.paths[0], Began(s, "s"), n)
  {
    assert [f][0..] == [f];
    OneStage(f, rs);
  }

  /** The head batch is skipped, and the one behind it processed. */
  lemma SkipThenProcess(f: Stage, first: Item, second: Item, s: Pipeline) returns (t: Pipeline)
    requires Reachable(DemoNet(DemoCfg(), [[f]], [A], {}), {ProcessorError}, s) && s.pipes == [[first, second]]
    requires first.stage == second.stage == 0 && second.batch.body == Data([C]) && f(C) == [C]
    ensures Reachable(DemoNet(DemoCfg(), [[f]], [A], {}), {ProcessorError}, t)
    ensures t == s.(pipes := [[Item(second.batch, 1)]])
  {
    hide Reachable, MapStage, Through, Processed;
    var net, h: set<Hazard> := DemoNet(DemoCfg(), [[f]], [A], {}), {ProcessorError};
    DemoShape(DemoCfg(), [[f]], [A], {});
    ProcessedAsIs(f, second, [C]);
    ReachNext(net, h, s, SkipBatch(0, 0));
    var m := Next(net, s, SkipBatch(0, 0));
    assert s.pipes[0] == [first, second];
    assert m.pipes[0] == [second];
    assert m.pipes == [[second]];
    ReachNext(net, h, m, Process(0, 0));
    t := Next(net, m, Process(0, 0));
    assert t.pipes[0] == [Item(second.batch, 1)];
    assert t.pipes == [[Item(second.batch, 1)]];
  }

  /** A processor that leaves every record alone leaves the batch alone. */
  lemma ProcessedAsIs(f: Stage, it: Item, rs: seq<Record>)
    requires it.batch.body == Data(rs) && |rs| <= 2 && forall i :: 0 <= i < |rs| ==> f(rs[i]) == [rs[i]]
    ensures Processed(f, it) == Item(it.batch, it.stage + 1)
  {
    OneStage(f, rs);
    assert it.batch.Derive(rs) == it.batch;
  }

  /** A failed processor call skips its batch; the batch behind it is acked past the lost records. */
  lemma ProcessorErrorLosesRecords(f: Stage)
    requires f(A) == [A] && f(C) == [C]
    ensures Breaks(DemoNet(DemoCfg(), [[f]], [A], {}), {ProcessorError})
  {
    hide Reachable, Due, Recs, Through;
    var paths, h: set<Hazard> := [[f]], {ProcessorError};
    var cfg, net := DemoCfg(), DemoNet(DemoCfg(), [[f]], [A], {});
    DemoShape(cfg, paths, [A], {});
    DemoRecs(cfg, paths, [A], {});
    var s0 := FirstStart(net, h, None);
    var s1 := EmitBlock(cfg, paths, [A], {}, h, s0, 0);
    var s2 := EmitBlock(cfg, paths, [A], {}, h, s1, 1);
    var first, second := Item(BatchOf(cfg, [A], 0), 0), Item(BatchOf(cfg, [A], 1), 0);
    assert s2.pipes[0] == [first, second];
    assert s2.pipes == [[first, second]];
    var s4 := SkipThenProcess(f, first, second, s2);
    ImageOfOne(net.paths[0], s4.pipes[0][0], C);
    var t := WriteAndAck(net, h, s4, 0);
    DueThrough(net, t, f, 2, [A, C], A);
    MissedIsUnsafe(net, t, 0, A);
  }

  /** The processor answers its batch of two records with two batches. */
  lemma SplitHead(f: Stage, it: Item, s: Pipeline) returns (t: Pipeline)
    requires Reachable(DemoNet(DemoCfg(), [[f]], [A, B], {}), {SplitOutput}, s) && s.pipes == [[it]]
    requires it.stage == 0 && it.batch.body == Data([A, B]) && f(A) == [A] && f(B) == [B]
    ensures Reachable(DemoNet(DemoCfg(), [[f]], [A, B], {}), {SplitOutput}, t)
    ensures t == s.(pipes := [[Item(it.batch.Derive([A]), 1), Item(it.batch.Derive([B]), 1)]])
  {
    hide Reachable, MapStage, Through, Processed;
    var net, h: set<Hazard> := DemoNet(DemoCfg(), [[f]], [A, B], {}), {SplitOutput};
    DemoShape(DemoCfg(), [[f]], [A, B], {});
    ProcessedAsIs(f, it, [A, B]);
    assert s.pipes[0] == [it];
    ReachNext(net, h, s, SplitBatch(0, 0, 1));
    t := Next(net, s, SplitBatch(0, 0, 1));
    assert [A, B][..1] == [A] && [A, B][1..] == [B];
    assert s.pipes[0][..0] == [] == s.pipes[0][1..];
    assert t.pipes[0] == [Item(it.batch.Derive([A]), 1), Item(it.batch.Derive([B]), 1)];
    assert t.pipes == [[Item(it.batch.Derive([A]), 1), Item(it.batch.Derive([B]), 1)]];
  }

  /** A processor that answers with two batches lets the first ack the whole range. */
  lemma SplitOutputLosesRecords(f: Stage)
    requires f(A) == [A] && f(B) == [B]
    ensures Breaks(DemoNet(DemoCfg(), [[f]], [A, B], {}), {SplitOutput})
  {
    hide Reachable, Due, Recs, Through;
    var paths, h: set<Hazard> := [[f]], {SplitOutput};
    var cfg, net := DemoCfg(), DemoNet(DemoCfg(), [[f]], [A, B], {});
    DemoShape(cfg, paths, [A, B], {});
    DemoRecs(cfg, paths, [A, B], {});
    var s0 := FirstStart(net, h, None);
    var s1 := EmitBlock(cfg, paths, [A, B], {}, h, s0, 0);
    var it := Item(BatchOf(cfg, [A, B], 0), 0);
    assert s1.pipes[0] == [it];
    assert s1.pipes == [[it]];
    var s2 := SplitHead(f, it, s1);
    ImageOfOne(net.paths[0], s2.pipes[0][0], A);
    var t := WriteAndAck(net, h, s2, 0);
    DueThrough(net, t, f, 1, [A, B], B);
    MissedIsUnsafe(net, t, 0, B);
  }

  // ---- a buffering sink ----

  function BufferNet(): Net {
    DemoNet(DemoCfg(), [[]], [A], {"k"})
  }

  lemma BufferNetShape()
    ensures SinglePaths(BufferNet()) && Pinned(BufferNet()) && BufferNet().paths == [Path("s", "k", [])]
    ensures SinksOf(BufferNet()) == {"k"}
  {
    DemoShape(DemoCfg(), [[]], [A], {"k"});
    assert BufferNet().paths[0].sink == "k";
  }

  /** The sink has acked block 0, whose record it still buffers. */
  lemma BufferedAndAcked(h: set<Hazard>) returns (t: Pipeline)
    ensures Reachable(BufferNet(), h, t)
    ensures t == Pipeline(map[K := 1], map[], {}, {D(A)}, [[]], map["s" := 1], map["s" := 0], map[], {}, Idle)
  {
    hide Reachable;
    var paths: seq<seq<Stage>> := [[]];
    var cfg, net := DemoCfg(), BufferNet();
    BufferNetShape();
    var s0 := FirstStart(net, h, None);
    var s1 := EmitBlock(cfg, paths, [A], {"k"}, h, s0, 0);
    ImageOfOne(net.paths[0], s1.pipes[0][0], A);
    t := WriteAndAck(net, h, s1, 0);
    assert s1.pipes[0] == [Item(BatchOf(cfg, [A], 0), 0)];
    assert t.pipes[0] == [];
    assert t.pipes == [[]];
  }

  /** Block 1 has reached the sink too, and its write has the instance checked out. */
  lemma SecondInProgress(h: set<Hazard>, s: Pipeline) returns (t: Pipeline)
    requires Reachable(BufferNet(), h, s) && s.pipes == [[]] && s.cursor == map["s" := 1] && s.writing == map[]
             && s.paused == {}
    ensures Reachable(BufferNet(), h, t)
    ensures t == s.(pipes := [[Item(BatchOf(DemoCfg(), [A], 1), 0)]], cursor := map["s" := 2], writing := map["k" := 0])
  {
    hide Reachable;
    BufferNetShape();
    var u := EmitBlock(DemoCfg(), [[]], [A], {"k"}, h, s, 1);
    assert s.pipes[0] == [];
    assert u.pipes[0] == [Item(BatchOf(DemoCfg(), [A], 1), 0)];
    assert u.pipes == [[Item(BatchOf(DemoCfg(), [A], 1), 0)]];
    ReachNext(BufferNet(), h, u, BeginWrite(0));
    t := Next(BufferNet(), u, BeginWrite(0));
  }

  lemma OwesFirst(s: Pipeline)
    requires Began(s, "s") == Some(0)
    ensures D(A) in Due(BufferNet(), BufferNet().paths[0], Began(s, "s"), 1)
  {
    BufferNetShape();
    DemoRecs(DemoCfg(), [[]], [A], {"k"});
    DueAll(BufferNet(), s, 1, [A], A);
  }

  /** A write that traps drops the instance, and with it records already acked. */
  lemma TrapLosesRecords()
    ensures Breaks(BufferNet(), {Trap})
  {
    hide Reachable;
    BufferNetShape();
    var s := BufferedAndAcked({Trap});
    var w := SecondInProgress({Trap}, s);
    ReachNext(BufferNet(), {Trap}, w, TrapWrite(0));
    var t := Next(BufferNet(), w, TrapWrite(0));
    OwesFirst(t);
    MissedIsUnsafe(BufferNet(), t, 0, A);
  }

  /** A write whose put fails after its rows were taken drops them, records already acked among them. */
  lemma FailedPutLosesRecords()
    ensures Breaks(BufferNet(), {FailedPut})
  {
    hide Reachable;
    var net, h: set<Hazard> := BufferNet(), {FailedPut};
    BufferNetShape();
    var s := BufferedAndAcked(h);
    var w := SecondInProgress(h, s);
    ImageOfOne(net.paths[0], w.pipes[0][0], C);
    var ends := WriteEnds(0, {D(C)}, {}, {D(A), D(C)}, false);
    ReachNext(net, h, w, ends);
    var t := Next(net, w, ends);
    OwesFirst(t);
    MissedIsUnsafe(net, t, 0, A);
  }

  /** So does a flush whose put fails, although its tick persists nothing. */
  lemma FailedFlushLosesRecords()
    ensures Breaks(BufferNet(), {FailedPut})
  {
    hide Reachable;
    var net, h: set<Hazard> := BufferNet(), {FailedPut};
    BufferNetShape();
    var s := BufferedAndAcked(h);
    ReachNext(net, h, s, Event.TakeSnapshot);
    var f := Next(net, s, Event.TakeSnapshot);
    ReachNext(net, h, f, FlushFails("k", {}, {D(A)}));
    var t := Next(net, f, FlushFails("k", {}, {D(A)}));
    OwesFirst(t);
    MissedIsUnsafe(net, t, 0, A);
  }

  /** A tick whose flush misses the sink persists a cursor past records nothing has stored. */
  lemma PersistsUnstored(h: set<Hazard>, s: Pipeline)
    requires Reachable(BufferNet(), h, s) && s.tick == Flushing(map[K := 1], {}) && s.live == map[K := 1]
    requires D(A) !in s.stored && Began(s, "s") == Some(0)
    ensures Breaks(BufferNet(), h)
  {
    hide Reachable;
    BufferNetShape();
    ReachNext(BufferNet(), h, s, Event.Persist);
    var t := Next(BufferNet(), s, Event.Persist);
    OwesFirst(t);
    assert t.db[K] == 1;
    UnstoredIsUnsafe(BufferNet(), t, 0, A);
  }

  /** While a write has the instance checked out a flush does not reach it: the tick persists the cursor of
      records still buffered. */
  lemma FlushDuringWriteLosesRecords()
    ensures Breaks(BufferNet(), {FlushDuringWrite})
  {
    hide Reachable;
    var net, h: set<Hazard> := BufferNet(), {FlushDuringWrite};
    BufferNetShape();
    var s := BufferedAndAcked(h);
    var w := SecondInProgress(h, s);
    ReachNext(net, h, w, Event.TakeSnapshot);
    var f := Next(net, w, Event.TakeSnapshot);
    ReachNext(net, h, f, MissFlush("k"));
    var m := Next(net, f, MissFlush("k"));
    assert {"k"} - {"k"} == {};
    PersistsUnstored(h, m);
  }

  /** A flush task that panics counts as flushed. */
  lemma FlushPanicLosesRecords()
    ensures Breaks(BufferNet(), {FlushPanic})
  {
    hide Reachable;
    var net, h: set<Hazard> := BufferNet(), {FlushPanic};
    BufferNetShape();
    var s := BufferedAndAcked(h);
    ReachNext(net, h, s, Event.TakeSnapshot);
    var f := Next(net, s, Event.TakeSnapshot);
    ReachNext(net, h, f, PanicFlush("k"));
    var m := Next(net, f, PanicFlush("k"));
    assert {"k"} - {"k"} == {};
    PersistsUnstored(h, m);
  }

  // ---- the exact condition ----

  /** One hazard is enough. */
  lemma OneHazardBreaks(hazard: Hazard)
    ensures exists net :: Breaks(net, {hazard})
  {
    hide Breaks;
    var identity: Stage := r => [r];
    match hazard {
      case ProcessorError => ProcessorErrorLosesRecords(identity);
      case SplitOutput => SplitOutputLosesRecords(identity);
      case Trap => TrapLosesRecords();
      case FailedPut => FailedPutLosesRecords();
      case FlushDuringWrite => FlushDuringWriteLosesRecords();
      case FlushPanic => FlushPanicLosesRecords();
    }
  }

  /** With agreeing paths and start blocks configured, a set of hazards leaves every run of every pipeline
      safe iff it is empty; single paths do not help. */
  lemma SafeIffNoHazard(h: set<Hazard>)
    ensures (forall net, s :: SafePaths(net) && Pinned(net) && Reachable(net, h, s) ==> CursorsSafe(net, s))
            <==> h == {}
  {
    hide Reachable, CursorsSafe, SinglePaths, SafePaths, Pinned;
    if h == {} {
      forall net, s | SafePaths(net) && Pinned(net) && Reachable(net, h, s) ensures CursorsSafe(net, s) {
        AtLeastOnce(net, s);
      }
    } else {
      var hazard :| hazard in h;
      OneHazardBreaks(hazard);
      var net :| Breaks(net, {hazard});
      SinglePathsAreSafe(net);
      var s :| Reachable(net, {hazard}, s) && !CursorsSafe(net, s);
      ReachMore(net, {hazard}, h, s);
    }
  }
}

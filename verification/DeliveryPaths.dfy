/** Exactly which paths keep the delivery guarantee: those of one source and sink must deliver the same. */
module DeliveryPaths {
  import opened Common
  import opened Encoding
  import opened Checkpoint
  import Source
  import opened Delivery
  import opened DeliverySafety
  import opened DeliveryHazards

  /** The paths are safe on every pipeline they are the paths of, and every hazard-free run of it. */
  ghost predicate PathsKeepGuarantee(paths: seq<Path>) {
    forall net: Net, s :: net.paths == paths && RestartsCovered(net) && Pinned(net) && Reachable(net, {}, s) ==>
      CursorsSafe(net, s)
  }

  /** The given paths over chains with the one record `r`, at block 0; no sink buffers, and every sink bounds
      every restart. */
  function OneRecordNet(paths: seq<Path>, r: Record): Net {
    Net(_ => DemoCfg(), _ => Chain((n: nat) => Block("h", if n == 0 then [r] else [])), paths,
        _ => seq(|paths|, i requires 0 <= i < |paths| => paths[i].sink), {})
  }

  lemma OneRecordShape(paths: seq<Path>, r: Record, source: string)
    ensures var net := OneRecordNet(paths, r);
            RestartsCovered(net) && Pinned(net) && Recs(net.chain(source), 0, 1) == [r]
  {
    var net := OneRecordNet(paths, r);
    forall i | 0 <= i < |paths| ensures paths[i].sink in net.restartSinks(paths[i].source) {
      assert net.restartSinks(paths[i].source)[i] == paths[i].sink;
    }
    var c := net.chain(source);
    assert Recs(c, 0, 0) == [] && c.at(0).records == [r];
    assert [] + [r] == [r];
  }

  /** The source of path `i` has started and emitted block 0, which is all there is on path `i`. */
  lemma EmitRecord(paths: seq<Path>, r: Record, i: nat) returns (s: Pipeline)
    requires i < |paths|
    ensures var (net, p) := (OneRecordNet(paths, r), paths[i]);
            && Reachable(net, {}, s) && |s.pipes| == |paths| && s.live == map[] && s.stored == {} && s.buffered == {}
            && s.writing == map[] && s.paused == {} && Began(s, p.source) == Some(0)
            && s.pipes[i] == [Item(DataBatch("s", 1, BlockRange(0, 1), 0, [r]), 0)]
  {
    hide Reachable, Recs;
    var net, source := OneRecordNet(paths, r), paths[i].source;
    OneRecordShape(paths, r, source);
    ReachStart(net, {});
    var s0 := Opened(net, map[], {});
    assert RestartsAt(s0.live, source, net.restartSinks(source), None) by {
      assert Key(source, net.restartSinks(source)[i]) !in s0.live;
    }
    ReachNext(net, {}, s0, Restart(source, None, None));
    var s1 := Next(net, s0, Restart(source, None, None));
    ReachNext(net, {}, s1, Emit(source, 1));
    s := Next(net, s1, Emit(source, 1));
    var batch := DataBatch("s", 1, BlockRange(0, 1), 0, [r]);
    assert RangeBatches(net, source, 0, 1) == [batch];
    assert s1.pipes[i] == [] && Fresh([batch]) == [Item(batch, 0)];
  }

  /** The only batch of path `i` goes through all its processors, which changes neither what the sink will be
      given nor the ack. */
  lemma {:induction false} ProcessAll(net: Net, s: Pipeline, i: nat, it: Item) returns (t: Pipeline, done: Item)
    requires Reachable(net, {}, s) && ValidPath(net, s, i) && s.pipes[i] == [it] && it.stage <= |net.paths[i].stages|
    ensures Reachable(net, {}, t) && t == s.(pipes := s.pipes[i := [done]])
    ensures done.stage == |net.paths[i].stages| && done.batch.AckBlock() == it.batch.AckBlock()
    ensures ItemImage(net.paths[i], done) == ItemImage(net.paths[i], it)
    decreases |net.paths[i].stages| - it.stage
  {
    hide Reachable, ItemImage;
    if it.stage == |net.paths[i].stages| {
      t, done := s, it;
      assert s.pipes[i := [it]] == s.pipes;
    } else {
      var p := net.paths[i];
      var next := Processed(p.stages[it.stage], it);
      ImageOfProcessed(p, it);
      ReachNext(net, {}, s, Process(i, 0));
      var m := Next(net, s, Process(i, 0));
      assert m.pipes[i] == [next];
      t, done := ProcessAll(net, m, i, next);
      assert t.pipes == s.pipes[i := [done]];
    }
  }

  /** Path `i` is acked first; path `j` of the same key would have delivered more. */
  lemma AckedFirstLoses(paths: seq<Path>, r: Record, i: nat, j: nat, d: Delivery)
    requires i < |paths| && j < |paths| && KeyOf(paths[i]) == KeyOf(paths[j])
    requires d in Image(paths[j], 0, [r]) && d !in Image(paths[i], 0, [r])
    ensures !PathsKeepGuarantee(paths)
  {
    hide Reachable, Image, ItemImage, Recs;
    var net, p, q := OneRecordNet(paths, r), paths[i], paths[j];
    OneRecordShape(paths, r, p.source);
    var s := EmitRecord(paths, r, i);
    var it := s.pipes[i][0];
    assert ItemImage(p, it) == Image(p, 0, [r]) by { FirstImage(p, it); }
    var ready, done := ProcessAll(net, s, i, it);
    var t := WriteAndAck(net, {}, ready, i);
    assert t.live[KeyOf(q)] == 1;
    assert Due(net, q, Began(t, q.source), 1) == Image(q, 0, [r]);
    assert Have(t) == Image(p, 0, [r]);
    assert !CursorsSafe(net, t);
  }

  lemma FirstImage(p: Path, it: Item)
    requires it.stage == 0
    ensures ItemImage(p, it) == Image(p, 0, it.batch.Records())
  {
  }

  /** The paths keep the guarantee on every pipeline and every hazard-free run iff those from one source to one
      sink make the same deliveries of every record. */
  lemma SafeIffPathsAgree(paths: seq<Path>)
    ensures PathsKeepGuarantee(paths) <==> PathsAgree(paths)
  {
    hide Reachable, CursorsSafe, RestartsCovered, Pinned, Image;
    if PathsAgree(paths) {
      forall net: Net, s | net.paths == paths && RestartsCovered(net) && Pinned(net) && Reachable(net, {}, s)
        ensures CursorsSafe(net, s)
      {
        AtLeastOnce(net, s);
      }
    } else {
      var i, j :| 0 <= i < j < |paths| && KeyOf(paths[i]) == KeyOf(paths[j]) && !SameImages(paths[i], paths[j]);
      var r: Record :| Image(paths[i], 0, [r]) != Image(paths[j], 0, [r]);
      if d :| d in Image(paths[i], 0, [r]) && d !in Image(paths[j], 0, [r]) {
        AckedFirstLoses(paths, r, j, i, d);
      } else {
        var d :| d in Image(paths[j], 0, [r]) && d !in Image(paths[i], 0, [r]);
        AckedFirstLoses(paths, r, i, j, d);
      }
    }
  }

  // ---- what a config shows: the keys of the paths ----

  /** Whatever the processors do. */
  ghost predicate KeysKeepGuarantee(keys: seq<Key>) {
    forall net: Net, s :: KeysOf(net.paths) == keys && RestartsCovered(net) && Pinned(net) && Reachable(net, {}, s) ==>
      CursorsSafe(net, s)
  }

  /** One path per key, without processors but for path `j`, which rewrites every record. */
  function RewritingPaths(keys: seq<Key>, j: nat): seq<Path> {
    seq(|keys|, n requires 0 <= n < |keys| =>
      Path(keys[n].source, keys[n].sink, if n == j then [_ => [B]] else []))
  }

  /** The paths disagree on record `A`. */
  lemma RewritingDisagrees(keys: seq<Key>, i: nat, j: nat)
    requires i < j < |keys| && keys[i] == keys[j]
    ensures KeysOf(RewritingPaths(keys, j)) == keys && !PathsAgree(RewritingPaths(keys, j))
  {
    var paths := RewritingPaths(keys, j);
    var p, q := paths[i], paths[j];
    assert KeyOf(p) == KeyOf(q) == keys[i];
    var f: Stage := q.stages[0];
    assert p.stages[0..] == [] && q.stages[0..] == q.stages && q.stages[1..] == [];
    assert Through(p.stages, [A]) == [A];
    assert [A][..0] == [] && MapStage(f, []) == [] && f(A) == [B];
    assert MapStage(f, [A]) == [B];
    assert Through(q.stages, [A]) == [B];
    var here := Delivery(p.source, p.sink, A);
    assert here in Image(p, 0, [A]) && here !in Image(q, 0, [A]);
    assert !SameImages(p, q);
  }

  /** What can be checked on the config before starting: paths with these (source, sink) keys keep the
      guarantee whatever their processors do iff no two of them share a key. */
  lemma SafeIffSinglePaths(keys: seq<Key>)
    ensures KeysKeepGuarantee(keys) <==> Distinct(keys)
  {
    hide Reachable, CursorsSafe, RestartsCovered, Pinned;
    if Distinct(keys) {
      forall net: Net, s | KeysOf(net.paths) == keys && RestartsCovered(net) && Pinned(net) && Reachable(net, {}, s)
        ensures CursorsSafe(net, s)
      {
        SinglePathsAreSafe(net);
        AtLeastOnce(net, s);
      }
    } else {
      var i, j :| 0 <= i < j < |keys| && keys[i] == keys[j];
      var paths := RewritingPaths(keys, j);
      RewritingDisagrees(keys, i, j);
      SafeIffPathsAgree(paths);
      var net: Net, s :|
        net.paths == paths && RestartsCovered(net) && Pinned(net) && Reachable(net, {}, s) && !CursorsSafe(net, s);
      assert KeysOf(net.paths) == keys;
    }
  }
}

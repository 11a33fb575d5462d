/** At-least-once delivery over every run, and what each of its hypotheses is for. */
module DeliverySafety {
  import opened Common
  import opened Encoding
  import opened Checkpoint
  import Source
  import Replay
  import opened Delivery

  // ---- images ----

  lemma {:induction false} MapStageAppend(f: Stage, a: seq<Record>, b: seq<Record>)
    ensures MapStage(f, a + b) == MapStage(f, a) + MapStage(f, b)
  {
    if b == [] {
      assert a + b == a;
    } else {
      MapStageAppend(f, a, b[..|b| - 1]);
      assert (a + b)[..|a + b| - 1] == a + b[..|b| - 1];
    }
  }

  lemma {:induction false} ThroughAppend(stages: seq<Stage>, a: seq<Record>, b: seq<Record>)
    ensures Through(stages, a + b) == Through(stages, a) + Through(stages, b)
  {
    if stages != [] {
      MapStageAppend(stages[0], a, b);
      ThroughAppend(stages[1..], MapStage(stages[0], a), MapStage(stages[0], b));
    }
  }

  lemma ImageConcat(p: Path, stage: nat, a: seq<Record>, b: seq<Record>)
    ensures Image(p, stage, a + b) == Image(p, stage, a) + Image(p, stage, b)
  {
    ThroughAppend(if stage <= |p.stages| then p.stages[stage..] else [], a, b);
  }

  lemma {:induction false} ImageOfNothing(p: Path, stage: nat)
    ensures Image(p, stage, []) == {}
  {
    NothingThrough(if stage <= |p.stages| then p.stages[stage..] else []);
  }

  lemma {:induction false} NothingThrough(stages: seq<Stage>)
    ensures Through(stages, []) == []
  {
    if stages != [] {
      NothingThrough(stages[1..]);
    }
  }

  /** Handling a batch by the next processor changes neither what the sink will be given nor the ack. */
  lemma ImageOfProcessed(p: Path, it: Item)
    requires it.stage < |p.stages|
    ensures ItemImage(p, Processed(p.stages[it.stage], it)) == ItemImage(p, it)
    ensures Processed(p.stages[it.stage], it).batch.AckBlock() == it.batch.AckBlock()
  {
    assert p.stages[it.stage..][1..] == p.stages[it.stage + 1..];
    ImageOfNothing(p, it.stage);
    ImageOfNothing(p, it.stage + 1);
  }

  lemma DueMonotone(net: Net, p: Path, began: Option<nat>, a: nat, b: nat)
    requires a <= b
    ensures Due(net, p, began, a) <= Due(net, p, began, b)
  {
    if began.Some? {
      var c, start := net.chain(p.source), began.value;
      if start <= a {
        RecsSplit(c, start, a, b);
        ImageConcat(p, 0, Recs(c, start, a), Recs(c, a, b));
      } else {
        ImageOfNothing(p, 0);
      }
    }
  }

  /** Nothing is owed below where the source started. */
  lemma DueBelowStart(net: Net, p: Path, began: nat, n: nat)
    requires n <= began
    ensures Due(net, p, Some(began), n) == {}
  {
    ImageOfNothing(p, 0);
  }

  lemma {:induction false} ImageOfConcat(p: Path, bs: seq<Batch>, d: Delivery)
    requires d in Image(p, 0, Replay.Concat(bs))
    ensures exists k :: 0 <= k < |bs| && d in Image(p, 0, bs[k].Records())
  {
    if bs == [] {
      ImageOfNothing(p, 0);
    } else {
      ImageConcat(p, 0, bs[0].Records(), Replay.Concat(bs[1..]));
      if d !in Image(p, 0, bs[0].Records()) {
        ImageOfConcat(p, bs[1..], d);
        var k :| 0 <= k < |bs| - 1 && d in Image(p, 0, bs[1..][k].Records());
        assert d in Image(p, 0, bs[k + 1].Records());
      }
    }
  }

  // ---- one path's view of the state ----

  datatype PathState = PathState(
    have: set<Delivery>, stored: set<Delivery>, items: seq<Item>, began: Option<nat>,
    live: Option<nat>, db: Option<nat>, snap: Option<nat>, needsFlush: bool, cursor: Option<nat>)

  ghost function ViewOf(net: Net, s: Pipeline, i: nat): PathState
    requires ValidPath(net, s, i)
  {
    var p := net.paths[i];
    PathState(
      Have(s), s.stored, s.pipes[i], Began(s, p.source), At(s.live, KeyOf(p)), At(s.db, KeyOf(p)),
      if s.tick.Flushing? then At(s.tick.snapshot, KeyOf(p)) else None,
      s.tick.Flushing? && p.sink in s.tick.toFlush,
      if p.source in s.cursor then Some(s.cursor[p.source]) else None)
  }

  ghost predicate InFlight(p: Path, items: seq<Item>, k: nat, d: Delivery) {
    exists j :: 0 <= j < k && j < |items| && d in ItemImage(p, items[j])
  }

  /** Everything owed below `n` is with the sink or among the `k` oldest batches in flight. */
  ghost predicate Covered(net: Net, p: Path, v: PathState, n: nat, k: nat) {
    forall d :: d in Due(net, p, v.began, n) ==> d in v.have || InFlight(p, v.items, k, d)
  }

  ghost predicate CursorsOk(net: Net, p: Path, v: PathState) {
    && v.stored <= v.have
    && (v.live.Some? ==> Due(net, p, v.began, v.live.value) <= v.have)
    && (v.db.Some? ==> Due(net, p, v.began, v.db.value) <= v.stored)
    && (v.snap.Some? ==> Due(net, p, v.began, v.snap.value) <= if v.needsFlush then v.have else v.stored)
  }

  ghost predicate PipeOk(net: Net, p: Path, v: PathState) {
    && (forall k :: 0 <= k < |v.items| ==> Covered(net, p, v, v.items[k].batch.AckBlock(), k + 1))
    && (forall k :: 0 <= k < |v.items| && v.items[k].stage > |p.stages| ==> ItemImage(p, v.items[k]) <= v.have)
    && (v.began.Some? ==> v.began.value == net.cfg(p.source).fromBlock)
    && (v.cursor.Some? ==>
          v.began.Some? && v.began.value <= v.cursor.value && Covered(net, p, v, v.cursor.value, |v.items|))
    && (v.cursor.None? ==> v.items == [])
  }

  ghost predicate PathsOk(net: Net, s: Pipeline) {
    |s.pipes| == |net.paths| &&
    forall i :: 0 <= i < |net.paths| ==>
      CursorsOk(net, net.paths[i], ViewOf(net, s, i)) && PipeOk(net, net.paths[i], ViewOf(net, s, i))
  }

  /** Cursors exist only for sources that have started. */
  ghost predicate Known(s: Pipeline, c: Cursors) {
    forall k :: k in c ==> k.source in s.began
  }

  /** Only buffering sinks buffer, and only started sources have cursors. */
  ghost predicate Globals(net: Net, s: Pipeline) {
    && (forall d :: d in s.buffered ==> d.sink in net.buffering)
    && Known(s, s.live) && Known(s, s.db) && (s.tick.Flushing? ==> Known(s, s.tick.snapshot))
    && (forall src :: src in s.cursor ==> src in s.began)
    && |s.pipes| == |net.paths|
    && (forall i :: 0 <= i < |net.paths| && s.pipes[i] != [] ==> net.paths[i].source in s.began)
  }

  ghost predicate Inv(net: Net, s: Pipeline) {
    PathsOk(net, s) && Globals(net, s)
  }

  // ---- what each kind of step does to one path ----

  /** More may be stored or buffered; nothing else changes. */
  lemma Grow(net: Net, p: Path, v: PathState, w: PathState)
    requires CursorsOk(net, p, v) && PipeOk(net, p, v)
    requires v.have <= w.have && v.stored <= w.stored <= w.have
    requires w == v.(have := w.have, stored := w.stored)
    ensures CursorsOk(net, p, w) && PipeOk(net, p, w)
  {
    forall k | 0 <= k < |w.items| ensures Covered(net, p, w, w.items[k].batch.AckBlock(), k + 1) {
      assert Covered(net, p, v, v.items[k].batch.AckBlock(), k + 1);
    }
  }

  lemma CoveredAfterAppend(net: Net, p: Path, v: PathState, w: PathState, n: nat, k: nat)
    requires Covered(net, p, v, n, k) && k <= |v.items| && v.items <= w.items && v.have <= w.have && v.began == w.began
    ensures forall m: nat :: k <= m ==> Covered(net, p, w, n, m)
  {
    forall m: nat, d | k <= m && d in Due(net, p, v.began, n) ensures d in w.have || InFlight(p, w.items, m, d) {
      if d !in v.have {
        var j :| 0 <= j < k && d in ItemImage(p, v.items[j]);
        assert w.items[j] == v.items[j];
      }
    }
  }

  /** Appending the chunks of `[lo, hi)` when the cursor stands at `lo`. */
  lemma AppendRange(net: Net, p: Path, v: PathState, lo: nat, hi: nat, w: PathState)
    requires PipeOk(net, p, v) && v.cursor == Some(lo) && lo < hi
    requires w == v.(items := v.items + Fresh(RangeBatches(net, p.source, lo, hi)), cursor := Some(hi))
    ensures PipeOk(net, p, w)
  {
    var cfg, c := net.cfg(p.source), net.chain(p.source);
    var bs := RangeBatches(net, p.source, lo, hi);
    var n := |v.items|;
    Replay.ChunksOfRange(cfg, BlockRange(lo, hi), 0, Recs(c, lo, hi));
    CoveredAfterAppend(net, p, v, w, lo, n);
    RangeCovered(net, p, v, lo, hi, w);
    forall k | 0 <= k < |w.items| ensures Covered(net, p, w, w.items[k].batch.AckBlock(), k + 1) {
      if k < n {
        CoveredAfterAppend(net, p, v, w, v.items[k].batch.AckBlock(), k + 1);
      } else {
        assert w.items[k].batch == bs[k - n];
      }
    }
  }

  /** What the path owes for `[lo, hi)` is in the chunks of that range. */
  lemma ChunksCarryRange(net: Net, p: Path, lo: nat, hi: nat, d: Delivery)
    requires d in Image(p, 0, Recs(net.chain(p.source), lo, hi))
    ensures var items := Fresh(RangeBatches(net, p.source, lo, hi)); InFlight(p, items, |items|, d)
  {
    var rs := Recs(net.chain(p.source), lo, hi);
    var bs := RangeBatches(net, p.source, lo, hi);
    Replay.ChunksConcat(net.cfg(p.source), BlockRange(lo, hi), 0, rs);
    ImageOfConcat(p, bs, d);
    var k :| 0 <= k < |bs| && d in Image(p, 0, bs[k].Records());
    assert d in ItemImage(p, Fresh(bs)[k]);
  }

  lemma InFlightAppend(p: Path, a: seq<Item>, b: seq<Item>, d: Delivery)
    requires InFlight(p, b, |b|, d)
    ensures InFlight(p, a + b, |a + b|, d)
  {
    var j :| 0 <= j < |b| && d in ItemImage(p, b[j]);
    assert (a + b)[|a| + j] == b[j];
  }

  /** After the append everything below `hi` is covered. */
  lemma RangeCovered(net: Net, p: Path, v: PathState, lo: nat, hi: nat, w: PathState)
    requires PipeOk(net, p, v) && v.cursor == Some(lo) && lo < hi
    requires w == v.(items := v.items + Fresh(RangeBatches(net, p.source, lo, hi)), cursor := Some(hi))
    ensures Covered(net, p, w, hi, |w.items|)
  {
    var c, start := net.chain(p.source), v.began.value;
    var added := Fresh(RangeBatches(net, p.source, lo, hi));
    CoveredAfterAppend(net, p, v, w, lo, |v.items|);
    RecsSplit(c, start, lo, hi);
    ImageConcat(p, 0, Recs(c, start, lo), Recs(c, lo, hi));
    forall d | d in Image(p, 0, Recs(c, lo, hi)) ensures InFlight(p, w.items, |w.items|, d) {
      ChunksCarryRange(net, p, lo, hi, d);
      InFlightAppend(p, v.items, added, d);
    }
    assert Covered(net, p, w, lo, |w.items|);
  }

  lemma AppendEof(net: Net, p: Path, v: PathState, eof: Batch, w: PathState)
    requires PipeOk(net, p, v) && v.cursor.Some? && eof.body.Control? && eof.AckBlock() == v.cursor.value
    requires w == v.(items := v.items + Fresh([eof]))
    ensures PipeOk(net, p, w)
  {
    var n := |v.items|;
    CoveredAfterAppend(net, p, v, w, v.cursor.value, n);
    forall k | 0 <= k < |w.items| ensures Covered(net, p, w, w.items[k].batch.AckBlock(), k + 1) {
      if k < n {
        CoveredAfterAppend(net, p, v, w, v.items[k].batch.AckBlock(), k + 1);
      } else {
        assert w.items[k].batch == eof;
      }
    }
  }

  /** Replacing an item by one with the same image and ack. */
  lemma ReplaceItem(net: Net, p: Path, v: PathState, j: nat, it: Item, w: PathState)
    requires PipeOk(net, p, v) && j < |v.items|
    requires ItemImage(p, it) == ItemImage(p, v.items[j]) && it.batch.AckBlock() == v.items[j].batch.AckBlock()
    requires it.stage > |p.stages| ==> ItemImage(p, it) <= w.have
    requires v.have <= w.have && w == v.(items := v.items[j := it], have := w.have, stored := w.stored)
    ensures PipeOk(net, p, w)
  {
    forall n: nat, k: nat | Covered(net, p, v, n, k) ensures Covered(net, p, w, n, k) {
      forall d | d in Due(net, p, v.began, n) ensures d in w.have || InFlight(p, w.items, k, d) {
        if d !in v.have {
          var i :| 0 <= i < k && i < |v.items| && d in ItemImage(p, v.items[i]);
          assert d in ItemImage(p, w.items[i]);
        }
      }
    }
    forall k | 0 <= k < |w.items| ensures Covered(net, p, w, w.items[k].batch.AckBlock(), k + 1) {
      assert Covered(net, p, v, v.items[k].batch.AckBlock(), k + 1);
    }
  }

  /** Acking the accepted head. */
  lemma PopHead(net: Net, p: Path, v: PathState, w: PathState)
    requires PipeOk(net, p, v) && v.items != [] && v.items[0].stage > |p.stages|
    requires w == v.(items := v.items[1..], live := w.live)
    ensures PipeOk(net, p, w) && Due(net, p, v.began, v.items[0].batch.AckBlock()) <= v.have
  {
    forall n: nat, k: nat | k >= 1 && Covered(net, p, v, n, k) ensures Covered(net, p, w, n, k - 1) {
      forall d | d in Due(net, p, v.began, n) ensures d in w.have || InFlight(p, w.items, k - 1, d) {
        if d !in v.have {
          var i :| 0 <= i < k && i < |v.items| && d in ItemImage(p, v.items[i]);
          assert i > 0 && w.items[i - 1] == v.items[i];
        }
      }
    }
    forall k | 0 <= k < |w.items| ensures Covered(net, p, w, w.items[k].batch.AckBlock(), k + 1) {
      assert Covered(net, p, v, v.items[k + 1].batch.AckBlock(), k + 2);
    }
    assert Covered(net, p, v, v.items[0].batch.AckBlock(), 1);
    assert Covered(net, p, w, v.items[0].batch.AckBlock(), 0);
  }

  // ---- every step keeps the invariant ----

  /** No cursor is restored before the source's first start, so that is at its start block. */
  lemma StartBlock(net: Net, s: Pipeline, source: string, r: Option<nat>, height: Option<nat>)
    requires Globals(net, s) && Enabled(net, s, Restart(source, r, height)) && StartsPinned(net.cfg(source))
    ensures StartOf(net, source, r, height) == Max(if r.Some? then r.value else 0, net.cfg(source).fromBlock)
    ensures source !in s.began ==> StartOf(net, source, r, height) == net.cfg(source).fromBlock
  {
    var sinks := net.restartSinks(source);
    if r.Some? {
      var i :| 0 <= i < |sinks| && r.value == s.live[Key(source, sinks[i])];
      assert Key(source, sinks[i]) in s.live;
    }
  }

  lemma RestartKeeps(net: Net, s: Pipeline, source: string, r: Option<nat>, height: Option<nat>)
    requires SafePaths(net) && Pinned(net) && Inv(net, s) && Enabled(net, s, Restart(source, r, height))
    ensures PathsOk(net, Next(net, s, Restart(source, r, height)))
  {
    var t := Next(net, s, Restart(source, r, height));
    var sinks := net.restartSinks(source);
    forall i | 0 <= i < |net.paths|
      ensures CursorsOk(net, net.paths[i], ViewOf(net, t, i)) && PipeOk(net, net.paths[i], ViewOf(net, t, i))
    {
      var p, v, w := net.paths[i], ViewOf(net, s, i), ViewOf(net, t, i);
      if p.source == source {
        var start := net.cfg(source).fromBlock;
        StartBlock(net, s, source, r, height);
        DueBelowStart(net, p, start, start);
        assert w.began == Some(start);
        assert w == v.(began := Some(start), cursor := w.cursor);
        if v.began.None? {
          assert KeyOf(p) !in s.live && KeyOf(p) !in s.db;
          assert s.tick.Flushing? ==> KeyOf(p) !in s.tick.snapshot;
        } else if r.Some? && r.value > start {
          var j :| 0 <= j < |sinks| && sinks[j] == p.sink;
          assert r.value <= s.live[Key(source, sinks[j])];
          DueMonotone(net, p, v.began, r.value, s.live[KeyOf(p)]);
        }
      } else {
        assert w == v;
      }
    }
  }

  lemma EmitKeeps(net: Net, s: Pipeline, source: string, hi: nat)
    requires PathsOk(net, s) && Enabled(net, s, Emit(source, hi))
    ensures PathsOk(net, Next(net, s, Emit(source, hi)))
  {
    var t := Next(net, s, Emit(source, hi));
    forall i | 0 <= i < |net.paths|
      ensures CursorsOk(net, net.paths[i], ViewOf(net, t, i)) && PipeOk(net, net.paths[i], ViewOf(net, t, i))
    {
      var p, v, w := net.paths[i], ViewOf(net, s, i), ViewOf(net, t, i);
      if p.source == source {
        AppendRange(net, p, v, s.cursor[source], hi, w);
      } else {
        assert w == v;
      }
    }
  }

  lemma EmitEofKeeps(net: Net, s: Pipeline, source: string)
    requires PathsOk(net, s) && Enabled(net, s, EmitEof(source))
    ensures PathsOk(net, Next(net, s, EmitEof(source)))
  {
    var t := Next(net, s, EmitEof(source));
    forall i | 0 <= i < |net.paths|
      ensures CursorsOk(net, net.paths[i], ViewOf(net, t, i)) && PipeOk(net, net.paths[i], ViewOf(net, t, i))
    {
      var p, v, w := net.paths[i], ViewOf(net, s, i), ViewOf(net, t, i);
      if p.source == source {
        AppendEof(net, p, v, Source.EofBatch(net.cfg(source), s.cursor[source]), w);
      } else {
        assert w == v;
      }
    }
  }

  lemma ProcessKeeps(net: Net, s: Pipeline, i: nat, j: nat)
    requires PathsOk(net, s) && Enabled(net, s, Process(i, j))
    ensures PathsOk(net, Next(net, s, Process(i, j)))
  {
    var t := Next(net, s, Process(i, j));
    forall k | 0 <= k < |net.paths|
      ensures CursorsOk(net, net.paths[k], ViewOf(net, t, k)) && PipeOk(net, net.paths[k], ViewOf(net, t, k))
    {
      var p, v, w := net.paths[k], ViewOf(net, s, k), ViewOf(net, t, k);
      if k == i {
        ImageOfProcessed(p, v.items[j]);
        ReplaceItem(net, p, v, j, Processed(p.stages[v.items[j].stage], v.items[j]), w);
      } else {
        assert w == v;
      }
    }
  }

  /** What the sinks have only grows, and only moves from buffer to store, when a write ends without loss. */
  lemma WriteGrows(net: Net, s: Pipeline, i: nat, part: set<Delivery>, up: set<Delivery>, ok: bool)
    requires WriteMayEnd(net, s, i, part, up, {}, ok)
    ensures var t := Next(net, s, WriteEnds(i, part, up, {}, ok));
            var it := s.pipes[i][0];
            && Have(t) == Have(s) + part && s.stored <= t.stored
            && t == s.(pipes := s.pipes[i := s.pipes[i][0 := if ok then Item(it.batch, it.stage + 1) else it]],
                       stored := t.stored, buffered := t.buffered, writing := t.writing)
  {
  }

  lemma WriteKeeps(net: Net, s: Pipeline, i: nat, part: set<Delivery>, up: set<Delivery>, ok: bool)
    requires PathsOk(net, s) && Enabled(net, s, WriteEnds(i, part, up, {}, ok))
    ensures PathsOk(net, Next(net, s, WriteEnds(i, part, up, {}, ok)))
  {
    hide CursorsOk, PipeOk, AfterWrite, ItemImage;
    var t := Next(net, s, WriteEnds(i, part, up, {}, ok));
    WriteGrows(net, s, i, part, up, ok);
    forall k | 0 <= k < |net.paths|
      ensures CursorsOk(net, net.paths[k], ViewOf(net, t, k)) && PipeOk(net, net.paths[k], ViewOf(net, t, k))
    {
      var p, v, w := net.paths[k], ViewOf(net, s, k), ViewOf(net, t, k);
      if k == i && ok {
        var it := v.items[0];
        AcceptItem(net, p, v, it, w);
      } else {
        assert w.items == v.items;
        Grow(net, p, v, w);
      }
    }
  }

  /** The head is accepted: the sink has all it was given. */
  lemma AcceptItem(net: Net, p: Path, v: PathState, it: Item, w: PathState)
    requires CursorsOk(net, p, v) && PipeOk(net, p, v) && v.items != [] && v.items[0] == it && it.stage == |p.stages|
    requires v.have + ItemImage(p, it) <= w.have && v.stored <= w.stored <= w.have
    requires w == v.(items := v.items[0 := Item(it.batch, it.stage + 1)], have := w.have, stored := w.stored)
    ensures CursorsOk(net, p, w) && PipeOk(net, p, w)
  {
    assert p.stages[it.stage..] == [];
    ReplaceItem(net, p, v, 0, Item(it.batch, it.stage + 1), w);
  }

  lemma AckKeeps(net: Net, s: Pipeline, i: nat)
    requires SafePaths(net) && PathsOk(net, s) && Enabled(net, s, AckHead(i))
    ensures PathsOk(net, Next(net, s, AckHead(i)))
  {
    hide Due, Image;
    var t := Next(net, s, AckHead(i));
    forall k | 0 <= k < |net.paths|
      ensures CursorsOk(net, net.paths[k], ViewOf(net, t, k)) && PipeOk(net, net.paths[k], ViewOf(net, t, k))
    {
      var p, v, w := net.paths[k], ViewOf(net, s, k), ViewOf(net, t, k);
      var q := net.paths[i];
      if k == i {
        PopHead(net, p, v, w);
      } else if KeyOf(p) == KeyOf(q) {
        PopHead(net, q, ViewOf(net, s, i), ViewOf(net, t, i));
        SameDue(net, p, q, v.began, s.pipes[i][0].batch.AckBlock());
        AckedElsewhere(net, p, v, w, s.pipes[i][0].batch.AckBlock());
      } else {
        assert w == v;
      }
    }
  }

  lemma {:induction false} SameImageOf(p: Path, q: Path, rs: seq<Record>)
    requires SameImages(p, q)
    ensures Image(p, 0, rs) == Image(q, 0, rs)
  {
    if rs == [] {
      ImageOfNothing(p, 0);
      ImageOfNothing(q, 0);
    } else {
      var init, last := rs[..|rs| - 1], [rs[|rs| - 1]];
      assert rs == init + last;
      SameImageOf(p, q, init);
      ImageConcat(p, 0, init, last);
      ImageConcat(q, 0, init, last);
    }
  }

  /** Paths of one key that agree owe the same. */
  lemma SameDue(net: Net, p: Path, q: Path, began: Option<nat>, n: nat)
    requires KeyOf(p) == KeyOf(q) && (p == q || SameImages(p, q) || SameImages(q, p))
    ensures Due(net, p, began, n) == Due(net, q, began, n)
  {
    if began.Some? {
      var rs := Recs(net.chain(p.source), began.value, n);
      if SameImages(p, q) {
        SameImageOf(p, q, rs);
      } else if SameImages(q, p) {
        SameImageOf(q, p, rs);
      }
    }
  }

  /** Another path of the same key has been acked up to `n`, which the sink has all of. */
  lemma AckedElsewhere(net: Net, p: Path, v: PathState, w: PathState, n: nat)
    requires CursorsOk(net, p, v) && PipeOk(net, p, v) && Due(net, p, v.began, n) <= v.have
    requires w == v.(live := Some(if v.live.Some? then Max(v.live.value, n) else n))
    ensures CursorsOk(net, p, w) && PipeOk(net, p, w)
  {
    forall m: nat, k: nat | Covered(net, p, v, m, k) ensures Covered(net, p, w, m, k) {
    }
  }

  /** Steps that change nothing a path depends on. */
  lemma SameViewKeeps(net: Net, s: Pipeline, t: Pipeline)
    requires PathsOk(net, s) && t == s.(paused := t.paused, writing := t.writing)
    ensures PathsOk(net, t)
  {
    forall i | 0 <= i < |net.paths|
      ensures CursorsOk(net, net.paths[i], ViewOf(net, t, i)) && PipeOk(net, net.paths[i], ViewOf(net, t, i))
    {
      assert ViewOf(net, t, i) == ViewOf(net, s, i);
    }
  }

  /** A trap drops nothing at a sink that does not buffer. */
  lemma TrapKeeps(net: Net, s: Pipeline, i: nat)
    requires Inv(net, s) && Enabled(net, s, TrapWrite(i)) && HazardOf(net, TrapWrite(i)) == {}
    ensures PathsOk(net, Next(net, s, TrapWrite(i)))
  {
    var t := Next(net, s, TrapWrite(i));
    assert OfSink(s.buffered, net.paths[i].sink) == {};
    assert t.buffered == s.buffered;
    SameViewKeeps(net, s, t);
  }

  /** What a tick may do to one path's view: nothing but the snapshot and the durable cursor change. */
  lemma TickPath(net: Net, p: Path, v: PathState, w: PathState)
    requires CursorsOk(net, p, v) && PipeOk(net, p, v)
    requires w == v.(db := w.db, snap := w.snap, needsFlush := w.needsFlush)
    requires w.snap.Some? ==> (w.snap, w.needsFlush) == (v.snap, v.needsFlush) || (w.snap == v.live && w.needsFlush)
    requires w.db == v.db || (v.snap.Some? && !v.needsFlush && w.db.Some? && w.db.value <= v.snap.value)
    ensures CursorsOk(net, p, w) && PipeOk(net, p, w)
  {
    hide PipeOk, Covered, Due;
    TickKeepsPipe(net, p, v, w);
    if w.db != v.db {
      DueMonotone(net, p, v.began, w.db.value, v.snap.value);
    }
  }

  lemma TickKeeps(net: Net, s: Pipeline, e: Event)
    requires PathsOk(net, s) && Enabled(net, s, e)
    requires e.TakeSnapshot? || e.TickFails? || e.Persist?
    ensures PathsOk(net, Next(net, s, e))
  {
    hide PipeOk, CursorsOk, Covered, Image;
    var t := Next(net, s, e);
    forall i | 0 <= i < |net.paths|
      ensures CursorsOk(net, net.paths[i], ViewOf(net, t, i)) && PipeOk(net, net.paths[i], ViewOf(net, t, i))
    {
      assert net.paths[i].sink in SinksOf(net);
      TickPath(net, net.paths[i], ViewOf(net, s, i), ViewOf(net, t, i));
    }
  }

  lemma TickKeepsPipe(net: Net, p: Path, v: PathState, w: PathState)
    requires PipeOk(net, p, v) && w == v.(db := w.db, snap := w.snap, needsFlush := w.needsFlush)
    ensures PipeOk(net, p, w)
  {
    forall n: nat, k: nat | Covered(net, p, v, n, k) ensures Covered(net, p, w, n, k) {
    }
  }

  /** The sink's buffer is stored, or it has none. */
  lemma VisitKeeps(net: Net, s: Pipeline, t: Pipeline, sink: string)
    requires Inv(net, s) && FlushDue(s, sink)
    requires t == s.(stored := t.stored, buffered := t.buffered, tick := Visited(s.tick, sink))
    requires Have(t) == Have(s) && s.stored <= t.stored && OfSink(Have(s), sink) <= t.stored
    ensures PathsOk(net, t)
  {
    forall i | 0 <= i < |net.paths|
      ensures CursorsOk(net, net.paths[i], ViewOf(net, t, i)) && PipeOk(net, net.paths[i], ViewOf(net, t, i))
    {
      var p, v, w := net.paths[i], ViewOf(net, s, i), ViewOf(net, t, i);
      assert w == v.(stored := w.stored, needsFlush := w.needsFlush);
      forall n: nat, k: nat | Covered(net, p, v, n, k) ensures Covered(net, p, w, n, k) {
      }
      if v.snap.Some? && p.sink == sink {
        forall d | d in Due(net, p, v.began, v.snap.value) ensures d in w.stored {
          assert d.sink == sink;
          assert d in OfSink(Have(s), sink);
        }
      }
    }
  }

  lemma FlushKeeps(net: Net, s: Pipeline, e: Event)
    requires Inv(net, s) && Enabled(net, s, e) && HazardOf(net, e) == {}
    requires e.FlushSink? || e.MissFlush? || e.PanicFlush?
    ensures PathsOk(net, Next(net, s, e))
  {
    var t := Next(net, s, e);
    forall d | d in OfSink(Have(s), e.sink) ensures d in t.stored {
      assert d in s.buffered ==> d in OfSink(s.buffered, e.sink) && d.sink in net.buffering;
    }
    VisitKeeps(net, s, t, e.sink);
  }

  /** A failed flush that loses nothing only moves records to the store, and ends the tick. */
  lemma FailedFlushKeeps(net: Net, s: Pipeline, sink: string, up: set<Delivery>)
    requires Inv(net, s) && Enabled(net, s, FlushFails(sink, up, {}))
    ensures PathsOk(net, Next(net, s, FlushFails(sink, up, {})))
  {
    var t := Next(net, s, FlushFails(sink, up, {}));
    var m := s.(tick := Idle);
    TickKeeps(net, s, TickFails);
    forall i | 0 <= i < |net.paths|
      ensures CursorsOk(net, net.paths[i], ViewOf(net, t, i)) && PipeOk(net, net.paths[i], ViewOf(net, t, i))
    {
      assert Have(t) == Have(m);
      Grow(net, net.paths[i], ViewOf(net, m, i), ViewOf(net, t, i));
    }
  }

  lemma CrashKeeps(net: Net, s: Pipeline)
    requires PathsOk(net, s)
    ensures PathsOk(net, Next(net, s, Crash))
  {
    var t := Next(net, s, Crash);
    forall i | 0 <= i < |net.paths|
      ensures CursorsOk(net, net.paths[i], ViewOf(net, t, i)) && PipeOk(net, net.paths[i], ViewOf(net, t, i))
    {
      assert CursorsOk(net, net.paths[i], ViewOf(net, s, i)) && PipeOk(net, net.paths[i], ViewOf(net, s, i));
    }
  }

  lemma PathStepKeeps(net: Net, s: Pipeline, e: Event)
    requires SafePaths(net) && Pinned(net) && Inv(net, s) && Enabled(net, s, e) && HazardOf(net, e) == {}
    ensures PathsOk(net, Next(net, s, e))
  {
    hide PathsOk, Globals, SafePaths, Pinned;
    match e {
      case Restart(source, r, height) => RestartKeeps(net, s, source, r, height);
      case Emit(source, hi) => EmitKeeps(net, s, source, hi);
      case EmitEof(source) => EmitEofKeeps(net, s, source);
      case Process(i, j) => ProcessKeeps(net, s, i, j);
      case BeginWrite(_) => SameViewKeeps(net, s, Next(net, s, e));
      case WriteEnds(i, part, up, _, ok) => WriteKeeps(net, s, i, part, up, ok);
      case TrapWrite(i) => TrapKeeps(net, s, i);
      case AckHead(i) => AckKeeps(net, s, i);
      case Pause(_) => SameViewKeeps(net, s, Next(net, s, e));
      case FlushSink(_) => FlushKeeps(net, s, e);
      case FlushFails(sink, up, _) => FailedFlushKeeps(net, s, sink, up);
      case MissFlush(_) => FlushKeeps(net, s, e);
      case PanicFlush(_) => FlushKeeps(net, s, e);
      case Crash => CrashKeeps(net, s);
      case _ => TickKeeps(net, s, e);
    }
  }

  lemma PipesGlobals(net: Net, s: Pipeline, t: Pipeline)
    requires Globals(net, s) && t.began == s.began && |t.pipes| == |s.pipes|
    requires forall i :: 0 <= i < |net.paths| && t.pipes[i] != [] ==> s.pipes[i] != [] || net.paths[i].source in s.began
    requires t == s.(pipes := t.pipes, cursor := t.cursor, live := t.live)
    requires (forall src :: src in t.cursor ==> src in s.cursor) && Known(s, t.live)
    ensures Globals(net, t)
  {
  }

  /** Events that move batches. */
  lemma BatchGlobals(net: Net, s: Pipeline, e: Event)
    requires Globals(net, s) && Enabled(net, s, e)
    requires e.Emit? || e.EmitEof? || e.Process? || e.AckHead?
    ensures Globals(net, Next(net, s, e))
  {
    hide RangeBatches, Processed, Source.EofBatch;
    PipesGlobals(net, s, Next(net, s, e));
  }

  lemma WriteGlobals(net: Net, s: Pipeline, i: nat, part: set<Delivery>, up: set<Delivery>, lost: set<Delivery>,
                     ok: bool)
    requires Globals(net, s) && Enabled(net, s, WriteEnds(i, part, up, lost, ok))
    ensures Globals(net, Next(net, s, WriteEnds(i, part, up, lost, ok)))
  {
    hide ItemImage;
    var t := Next(net, s, WriteEnds(i, part, up, lost, ok));
    forall d | d in t.buffered ensures d.sink in net.buffering {
      ImageSinks(net.paths[i], s.pipes[i][0]);
    }
  }

  lemma GlobalsKeep(net: Net, s: Pipeline, e: Event)
    requires Globals(net, s) && Enabled(net, s, e) && HazardOf(net, e) == {}
    ensures Globals(net, Next(net, s, e))
  {
    if e.Emit? || e.EmitEof? || e.Process? || e.AckHead? {
      hide Globals, Next, Enabled;
      BatchGlobals(net, s, e);
    } else if e.WriteEnds? {
      hide Globals, Next, Enabled;
      WriteGlobals(net, s, e.path, e.part, e.up, e.lost, e.ok);
    } else if e.Restart? || e.Crash? {
      hide Globals, Next, Enabled;
      StartGlobals(net, s, e);
    } else {
      hide Globals, Next, Enabled;
      OtherGlobals(net, s, e);
    }
  }

  /** Events that leave the paths and the sources alone. */
  lemma OtherGlobals(net: Net, s: Pipeline, e: Event)
    requires Globals(net, s) && Enabled(net, s, e) && HazardOf(net, e) == {}
    requires !e.Emit? && !e.EmitEof? && !e.Process? && !e.AckHead? && !e.WriteEnds? && !e.Restart? && !e.Crash?
    ensures Globals(net, Next(net, s, e))
  {
    hide ItemImage, Image, Processed, RangeBatches, StartOf, AtProcessor;
    assert Next(net, s, e).buffered <= s.buffered;
  }

  lemma StartGlobals(net: Net, s: Pipeline, e: Event)
    requires Globals(net, s) && Enabled(net, s, e) && (e.Restart? || e.Crash?)
    ensures Globals(net, Next(net, s, e))
  {
    hide StartOf, RestartsAt;
    assert s.began.Keys <= Next(net, s, e).began.Keys;
  }

  lemma ImageSinks(p: Path, it: Item)
    ensures forall d :: d in ItemImage(p, it) ==> d.sink == p.sink && d.source == p.source
  {
  }

  lemma StepKeeps(net: Net, s: Pipeline, e: Event)
    requires SafePaths(net) && Pinned(net) && Inv(net, s) && Enabled(net, s, e) && HazardOf(net, e) == {}
    ensures Inv(net, Next(net, s, e))
  {
    hide PathsOk, Globals, Enabled, Next, SafePaths, Pinned, HazardOf;
    PathStepKeeps(net, s, e);
    GlobalsKeep(net, s, e);
  }

  lemma {:induction false} RunKeeps(net: Net, states: seq<Pipeline>, es: seq<Event>, k: nat)
    requires SafePaths(net) && Pinned(net) && IsRun(net, {}, states, es) && k <= |es|
    ensures Inv(net, states[k])
  {
    hide Enabled, Next, HazardOf;
    if k > 0 {
      RunKeeps(net, states, es, k - 1);
      StepKeeps(net, states[k - 1], es[k - 1]);
      assert states[k - 1 + 1] == Next(net, states[k - 1], es[k - 1]);
    } else {
      StartOk(net);
    }
  }

  lemma StartOk(net: Net)
    ensures Inv(net, Opened(net, map[], {}))
  {
  }

  lemma ReachableOk(net: Net, s: Pipeline)
    requires SafePaths(net) && Pinned(net) && Reachable(net, {}, s)
    ensures Inv(net, s)
  {
    hide Inv, SafePaths, Pinned;
    var states, es :| IsRun(net, {}, states, es) && s == states[|es|];
    RunKeeps(net, states, es, |es|);
  }

  // ---- main results ----

  lemma InvIsSafe(net: Net, s: Pipeline)
    requires Inv(net, s)
    ensures CursorsSafe(net, s)
  {
    forall i | 0 <= i < |net.paths|
      ensures var p := net.paths[i];
              && (KeyOf(p) in s.live ==> Due(net, p, Began(s, p.source), s.live[KeyOf(p)]) <= Have(s))
              && (KeyOf(p) in s.db ==> Due(net, p, Began(s, p.source), s.db[KeyOf(p)]) <= s.stored)
    {
      assert CursorsOk(net, net.paths[i], ViewOf(net, s, i));
    }
  }

  /** At-least-once: over every run, with any number of crashes and restarts, write-through and
      buffering sinks, retries, pauses and failed ticks, no live cursor passes a record its sink has
      not accepted and no durable cursor one that is not stored. */
  lemma AtLeastOnce(net: Net, s: Pipeline)
    requires SafePaths(net) && Pinned(net) && Reachable(net, {}, s)
    ensures CursorsSafe(net, s)
  {
    ReachableOk(net, s);
    InvIsSafe(net, s);
  }

  /** No restart after a crash skips a block: everything below the restart block is stored already. */
  lemma RestartSkipsNothing(net: Net, s: Pipeline, source: string, r: Option<nat>, height: Option<nat>)
    requires SafePaths(net) && Pinned(net) && Reachable(net, {}, s)
    requires Enabled(net, Next(net, s, Crash), Restart(source, r, height))
    ensures var t := Next(net, Next(net, s, Crash), Restart(source, r, height));
            forall i :: 0 <= i < |net.paths| && net.paths[i].source == source ==>
              Due(net, net.paths[i], Began(t, source), t.cursor[source]) <= s.stored
  {
    ReachNext(net, {}, s, Crash);
    var c := Next(net, s, Crash);
    ReachNext(net, {}, c, Restart(source, r, height));
    var t := Next(net, c, Restart(source, r, height));
    ReachableOk(net, t);
    forall i | 0 <= i < |net.paths| && net.paths[i].source == source
      ensures Due(net, net.paths[i], Began(t, source), t.cursor[source]) <= s.stored
    {
      assert PipeOk(net, net.paths[i], ViewOf(net, t, i));
      assert Covered(net, net.paths[i], ViewOf(net, t, i), t.cursor[source], 0);
    }
  }

  /** Nor is more walked again than the sinks need: a restart resumes at the least durable cursor when every
      sink has one, else at the start block, and in no case below that. */
  lemma RestartWalksNothingTwice(net: Net, s: Pipeline, source: string, r: Option<nat>, height: Option<nat>)
    requires SafePaths(net) && Pinned(net) && Reachable(net, {}, s) && StartsPinned(net.cfg(source))
    requires Enabled(net, Next(net, s, Crash), Restart(source, r, height))
    ensures var start := Next(net, Next(net, s, Crash), Restart(source, r, height)).cursor[source];
            var (sinks, from) := (net.restartSinks(source), net.cfg(source).fromBlock);
            if sinks != [] && forall i :: 0 <= i < |sinks| ==> Key(source, sinks[i]) in s.db
            then (forall i :: 0 <= i < |sinks| ==> start <= Max(from, s.db[Key(source, sinks[i])]))
                 && exists i :: 0 <= i < |sinks| && start == Max(from, s.db[Key(source, sinks[i])])
            else start == from
  {
    ReachNext(net, {}, s, Crash);
    var c := Next(net, s, Crash);
    ReachableOk(net, c);
    StartBlock(net, c, source, r, height);
    assert c.live == s.db;
  }

  /** Whenever nothing of a running source is in flight to a sink, that sink has everything the source
      has walked past. */
  lemma DrainedMeansDelivered(net: Net, s: Pipeline, i: nat)
    requires SafePaths(net) && Pinned(net) && Reachable(net, {}, s)
    requires i < |net.paths| && |s.pipes| == |net.paths| && s.pipes[i] == [] && net.paths[i].source in s.cursor
    ensures Due(net, net.paths[i], Began(s, net.paths[i].source), s.cursor[net.paths[i].source]) <= Have(s)
  {
    ReachableOk(net, s);
    assert PipeOk(net, net.paths[i], ViewOf(net, s, i));
    assert Covered(net, net.paths[i], ViewOf(net, s, i), s.cursor[net.paths[i].source], 0);
  }

  /** Flush before persist: a tick that flushes every sink and persists leaves durable cursors below
      which everything is stored, whatever was written, stored or acked while it was flushing. */
  lemma FlushBeforePersist(net: Net, s: Pipeline, i: nat)
    requires SafePaths(net) && Pinned(net) && Reachable(net, {}, s) && Enabled(net, s, Event.Persist)
             && i < |net.paths|
    requires KeyOf(net.paths[i]) in s.tick.snapshot
    ensures var (p, t) := (net.paths[i], Next(net, s, Event.Persist));
            && KeyOf(p) in t.db
            && Due(net, p, Began(t, p.source), t.db[KeyOf(p)]) <= t.stored
            && Due(net, p, Began(t, p.source), s.tick.snapshot[KeyOf(p)]) <= t.stored
  {
    ReachableOk(net, s);
    assert CursorsOk(net, net.paths[i], ViewOf(net, s, i));
    StepKeeps(net, s, Event.Persist);
    assert CursorsOk(net, net.paths[i], ViewOf(net, Next(net, s, Event.Persist), i));
  }
}

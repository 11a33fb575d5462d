/** The pipeline never gets stuck: whatever is in flight can be delivered, stored and made durable. */
module DeliveryProgress {
  import opened Common
  import opened Encoding
  import opened Checkpoint
  import Source
  import opened Delivery
  import opened DeliverySafety

  // ---- what is in flight can always be handled ----

  /** No batch is past its sink, and whatever sink is marked as writing is writing the head of that path. */
  ghost predicate Shaped(net: Net, s: Pipeline) {
    && |s.pipes| == |net.paths|
    && (forall i, j :: 0 <= i < |net.paths| && 0 <= j < |s.pipes[i]| ==>
        s.pipes[i][j].stage <= |net.paths[i].stages| + 1)
    && (forall sink :: sink in s.writing ==> WritingAt(net, s, sink, s.writing[sink]))
  }

  ghost predicate WritingAt(net: Net, s: Pipeline, sink: string, i: nat) {
    Writing(net, s, i) && net.paths[i].sink == sink
  }

  lemma ShapeAfterSend(net: Net, s: Pipeline, t: Pipeline, source: string, bs: seq<Batch>)
    requires Shaped(net, s) && t == s.(pipes := Send(net, s.pipes, source, bs), cursor := t.cursor)
    ensures Shaped(net, t)
  {
    forall sink | sink in t.writing ensures WritingAt(net, t, sink, t.writing[sink]) {
      assert WritingAt(net, s, sink, s.writing[sink]);
    }
  }

  ghost predicate IsWritten(s: Pipeline, i: nat) {
    exists sink :: sink in s.writing && s.writing[sink] == i
  }

  /** The batch a sink is writing is the head of its path and through all processors. */
  lemma WrittenHead(net: Net, s: Pipeline, i: nat)
    requires Shaped(net, s) && i < |net.paths|
    ensures IsWritten(s, i) ==> s.pipes[i] != [] && s.pipes[i][0].stage == |net.paths[i].stages|
    ensures forall sink :: sink in s.writing && s.writing[sink] == i ==> sink == net.paths[i].sink
  {
    forall sink | sink in s.writing && s.writing[sink] == i
      ensures sink == net.paths[i].sink && s.pipes[i] != [] && s.pipes[i][0].stage == |net.paths[i].stages|
    {
      assert WritingAt(net, s, sink, i);
    }
  }

  /** Path `i` changes, but for the batch its sink is writing. */
  lemma ShapeAfterPipe(net: Net, s: Pipeline, t: Pipeline, i: nat, items: seq<Item>)
    requires Shaped(net, s) && i < |net.paths| && t.pipes == s.pipes[i := items] && t.paused == s.paused
    requires t.writing == s.writing || t.writing == s.writing - {net.paths[i].sink}
    requires forall j :: 0 <= j < |items| ==> items[j].stage <= |net.paths[i].stages| + 1
    requires IsWritten(t, i) ==> items != [] && items[0].stage == |net.paths[i].stages|
    ensures Shaped(net, t)
  {
    forall sink | sink in t.writing ensures WritingAt(net, t, sink, t.writing[sink]) {
      assert WritingAt(net, s, sink, s.writing[sink]);
    }
  }

  lemma ShapeAfterMark(net: Net, s: Pipeline, e: Event)
    requires Shaped(net, s) && Enabled(net, s, e) && (e.BeginWrite? || e.TrapWrite? || e.Pause?)
    ensures Shaped(net, Next(net, s, e))
  {
    var t := Next(net, s, e);
    forall sink | sink in t.writing ensures WritingAt(net, t, sink, t.writing[sink]) {
      assert sink in s.writing ==> WritingAt(net, s, sink, s.writing[sink]);
    }
  }

  lemma ShapeAfterProcess(net: Net, s: Pipeline, i: nat, j: nat)
    requires Shaped(net, s) && Enabled(net, s, Process(i, j))
    ensures Shaped(net, Next(net, s, Process(i, j)))
  {
    hide MapStage, IsWritten;
    var t := Next(net, s, Process(i, j));
    WrittenHead(net, s, i);
    SameWriters(s, t, i);
    ShapeAfterPipe(net, s, t, i, t.pipes[i]);
  }

  lemma SameWriters(s: Pipeline, t: Pipeline, i: nat)
    requires s.writing == t.writing
    ensures IsWritten(s, i) <==> IsWritten(t, i)
  {
  }

  lemma ShapeAfterWrite(net: Net, s: Pipeline, i: nat, part: set<Delivery>, up: set<Delivery>, lost: set<Delivery>,
                        ok: bool)
    requires Shaped(net, s) && Enabled(net, s, WriteEnds(i, part, up, lost, ok))
    ensures Shaped(net, Next(net, s, WriteEnds(i, part, up, lost, ok)))
  {
    var t := Next(net, s, WriteEnds(i, part, up, lost, ok));
    WriteEffect(net, s, i, part, up, lost, ok);
    WrittenHead(net, s, i);
    hide Next, Enabled;
    NoLongerWritten(s, t, i, net.paths[i].sink);
    hide IsWritten;
    ShapeAfterPipe(net, s, t, i, t.pipes[i]);
  }

  lemma WriteEffect(net: Net, s: Pipeline, i: nat, part: set<Delivery>, up: set<Delivery>, lost: set<Delivery>,
                    ok: bool)
    requires Shaped(net, s) && Enabled(net, s, WriteEnds(i, part, up, lost, ok))
    ensures var t := Next(net, s, WriteEnds(i, part, up, lost, ok));
            && i < |net.paths| && t.pipes == s.pipes[i := t.pipes[i]] && t.paused == s.paused
            && t.writing == s.writing - {net.paths[i].sink}
            && forall j :: 0 <= j < |t.pipes[i]| ==> t.pipes[i][j].stage <= |net.paths[i].stages| + 1
  {
    hide ItemImage, Image;
  }

  lemma NoLongerWritten(s: Pipeline, t: Pipeline, i: nat, sink: string)
    requires t.writing == s.writing - {sink} && forall k :: k in s.writing && s.writing[k] == i ==> k == sink
    ensures !IsWritten(t, i)
  {
  }

  lemma ShapeAfterAck(net: Net, s: Pipeline, i: nat)
    requires Shaped(net, s) && Enabled(net, s, AckHead(i))
    ensures Shaped(net, Next(net, s, AckHead(i)))
  {
    hide IsWritten;
    var t := Next(net, s, AckHead(i));
    WrittenHead(net, s, i);
    SameWriters(s, t, i);
    ShapeAfterPipe(net, s, t, i, t.pipes[i]);
  }

  lemma StepKeepsShape(net: Net, s: Pipeline, e: Event)
    requires Shaped(net, s) && Enabled(net, s, e) && HazardOf(net, e) == {}
    ensures Shaped(net, Next(net, s, e))
  {
    var t := Next(net, s, e);
    if e.Process? {
      hide Shaped, Next, Enabled;
      ShapeAfterProcess(net, s, e.path, e.item);
    } else if e.WriteEnds? {
      hide Shaped, Next, Enabled;
      ShapeAfterWrite(net, s, e.path, e.part, e.up, e.lost, e.ok);
    } else if e.AckHead? {
      hide Shaped, Next, Enabled;
      ShapeAfterAck(net, s, e.path);
    } else if e.BeginWrite? || e.TrapWrite? || e.Pause? {
      hide Shaped, Next, Enabled;
      ShapeAfterMark(net, s, e);
    } else if e.Emit? {
      hide Shaped;
      ShapeAfterSend(net, s, t, e.source, RangeBatches(net, e.source, s.cursor[e.source], e.hi));
    } else if e.EmitEof? {
      hide Shaped;
      ShapeAfterSend(net, s, t, e.source, [Source.EofBatch(net.cfg(e.source), s.cursor[e.source])]);
    } else if !e.Crash? {
      SameShape(net, s, t);
    }
  }

  lemma SameShape(net: Net, s: Pipeline, t: Pipeline)
    requires Shaped(net, s) && (t.pipes, t.writing, t.paused) == (s.pipes, s.writing, s.paused)
    ensures Shaped(net, t)
  {
    forall sink | sink in t.writing ensures WritingAt(net, t, sink, t.writing[sink]) {
      assert WritingAt(net, s, sink, s.writing[sink]);
    }
  }

  lemma {:induction false} RunShaped(net: Net, states: seq<Pipeline>, es: seq<Event>, k: nat)
    requires IsRun(net, {}, states, es) && k <= |es|
    ensures Shaped(net, states[k])
  {
    hide Enabled, Next, HazardOf;
    if k > 0 {
      RunShaped(net, states, es, k - 1);
      StepKeepsShape(net, states[k - 1], es[k - 1]);
      assert states[k - 1 + 1] == Next(net, states[k - 1], es[k - 1]);
    }
  }

  lemma ReachableShaped(net: Net, s: Pipeline)
    requires Reachable(net, {}, s)
    ensures Shaped(net, s)
  {
    hide Shaped;
    var states, es :| IsRun(net, {}, states, es) && s == states[|es|];
    RunShaped(net, states, es, |es|);
  }

  // ---- finishing the writes under way ----

  /** A refused attempt gives the sink's instance back and changes nothing else. */
  lemma GiveUpAttempt(net: Net, s: Pipeline, i: nat)
    requires Writing(net, s, i)
    ensures var e := WriteEnds(i, {}, {}, {}, false);
            && Enabled(net, s, e) && HazardOf(net, e) == {}
            && Next(net, s, e) == s.(writing := s.writing - {net.paths[i].sink})
  {
    var it := s.pipes[i][0];
    assert s.pipes[i][0 := it] == s.pipes[i] && s.pipes[i := s.pipes[i]] == s.pipes;
    assert s.stored + {} == s.stored && s.buffered + {} - {} - {} == s.buffered;
  }

  lemma {:induction false} EndWrites(net: Net, s: Pipeline)
    requires Shaped(net, s)
    ensures Shaped(net, s.(writing := map[])) && CanReach(net, s, s.(writing := map[]))
    decreases |s.writing|
  {
    hide Writing, Enabled, Next;
    if s.writing == map[] {
      CanStay(net, s);
    } else {
      var sink :| sink in s.writing;
      var i := s.writing[sink];
      assert WritingAt(net, s, sink, i);
      GiveUpAttempt(net, s, i);
      var e := WriteEnds(i, {}, {}, {}, false);
      var t := s.(writing := s.writing - {sink});
      StepKeepsShape(net, s, e);
      assert |t.writing| < |s.writing| by {
        assert t.writing.Keys == s.writing.Keys - {sink};
      }
      EndWrites(net, t);
      CanStay(net, s);
      CanStep(net, s, s, e);
      CanGoOn(net, s, t, t.(writing := map[]));
    }
  }

  lemma CanGoOn(net: Net, s: Pipeline, t: Pipeline, u: Pipeline)
    requires CanReach(net, s, t) && CanReach(net, t, u)
    ensures CanReach(net, s, u)
  {
    hide Enabled, Next, HazardOf;
    var es :| Steps(net, s, es, t) && NoHazards(net, es);
    var more :| Steps(net, t, more, u) && NoHazards(net, more);
    StepsThen(net, s, es, t, more, u);
    assert NoHazards(net, es + more) by {
      assert forall i :: 0 <= i < |es + more| ==> (es + more)[i] == if i < |es| then es[i] else more[i - |es|];
    }
  }

  // ---- draining the paths ----

  /** No sink is writing or paused. */
  ghost predicate Ready(net: Net, s: Pipeline) {
    Shaped(net, s) && s.writing == map[] && s.paused == {}
  }

  /** The head of path `i` goes through the processors it still has before it. */
  lemma {:induction false} HeadToSink(net: Net, s: Pipeline, i: nat) returns (t: Pipeline)
    requires Ready(net, s) && i < |net.paths| && s.pipes[i] != [] && s.pipes[i][0].stage <= |net.paths[i].stages|
    ensures CanReach(net, s, t) && Ready(net, t) && t == s.(pipes := t.pipes)
    ensures t.pipes[i] != [] && t.pipes[i][0].stage == |net.paths[i].stages|
    ensures t.pipes[i][0].batch.AckBlock() == s.pipes[i][0].batch.AckBlock()
    ensures t.pipes == s.pipes[i := [t.pipes[i][0]] + s.pipes[i][1..]]
    decreases |net.paths[i].stages| - s.pipes[i][0].stage
  {
    hide ItemImage, CanReach;
    if s.pipes[i][0].stage == |net.paths[i].stages| {
      CanStay(net, s);
      t := s;
      assert [s.pipes[i][0]] + s.pipes[i][1..] == s.pipes[i];
    } else {
      var e := Process(i, 0);
      ImageOfProcessed(net.paths[i], s.pipes[i][0]);
      CanStay(net, s);
      CanStep(net, s, s, e);
      var m := Next(net, s, e);
      StepKeepsShape(net, s, e);
      t := HeadToSink(net, m, i);
      CanGoOn(net, s, m, t);
      assert m.pipes[i][1..] == s.pipes[i][1..];
      assert t.pipes == s.pipes[i := [t.pipes[i][0]] + s.pipes[i][1..]];
    }
  }

  /** The sink accepts the head of path `i`. */
  lemma AcceptHead(net: Net, s: Pipeline, i: nat) returns (t: Pipeline)
    requires Ready(net, s) && i < |net.paths| && s.pipes[i] != [] && s.pipes[i][0].stage == |net.paths[i].stages|
    ensures CanReach(net, s, t) && Ready(net, t)
    ensures t == s.(pipes := t.pipes, stored := t.stored, buffered := t.buffered)
    ensures t.pipes == s.pipes[i := [Item(s.pipes[i][0].batch, |net.paths[i].stages| + 1)] + s.pipes[i][1..]]
  {
    hide ItemImage, CanReach;
    var b := BeginWrite(i);
    CanStay(net, s);
    CanStep(net, s, s, b);
    StepKeepsShape(net, s, b);
    var m := Next(net, s, b);
    var e := WriteEnds(i, ItemImage(net.paths[i], s.pipes[i][0]), {}, {}, true);
    assert Enabled(net, m, e);
    CanStep(net, s, m, e);
    StepKeepsShape(net, m, e);
    t := Next(net, m, e);
    assert t.writing == map[];
    assert t.pipes[i] == [Item(s.pipes[i][0].batch, |net.paths[i].stages| + 1)] + s.pipes[i][1..];
  }

  /** The head of path `i` can be delivered and acked. */
  lemma PassHead(net: Net, s: Pipeline, i: nat) returns (t: Pipeline)
    requires Ready(net, s) && i < |net.paths| && s.pipes[i] != []
    ensures CanReach(net, s, t) && Ready(net, t) && t.pipes == s.pipes[i := s.pipes[i][1..]]
    ensures t == s.(pipes := t.pipes, stored := t.stored, buffered := t.buffered, live := t.live)
    ensures t.live == Acked(s.live, KeyOf(net.paths[i]), s.pipes[i][0].batch.AckBlock())
  {
    hide ItemImage, CanReach, Acked;
    var m := s;
    CanStay(net, s);
    if s.pipes[i][0].stage <= |net.paths[i].stages| {
      var a := HeadToSink(net, s, i);
      m := AcceptHead(net, a, i);
      CanGoOn(net, s, a, m);
      assert a.pipes[i][1..] == s.pipes[i][1..];
    }
    assert m.pipes[i][1..] == s.pipes[i][1..];
    assert m.pipes[i][0].batch.AckBlock() == s.pipes[i][0].batch.AckBlock();
    CanStep(net, s, m, AckHead(i));
    StepKeepsShape(net, m, AckHead(i));
    t := Next(net, m, AckHead(i));
  }

  ghost predicate LiveGrows(c: Cursors, d: Cursors) {
    forall k :: k in c ==> k in d && c[k] <= d[k]
  }

  /** The cursor of the path has reached the ack of every batch. */
  ghost predicate AllAcked(p: Path, items: seq<Item>, live: Cursors) {
    && (items != [] ==> KeyOf(p) in live)
    && forall j :: 0 <= j < |items| ==> items[j].batch.AckBlock() <= live[KeyOf(p)]
  }

  lemma StaysAcked(p: Path, items: seq<Item>, c: Cursors, d: Cursors)
    requires AllAcked(p, items, c) && LiveGrows(c, d)
    ensures AllAcked(p, items, d)
  {
  }

  lemma HeadAcked(p: Path, items: seq<Item>, live: Cursors)
    requires items != [] && AllAcked(p, items[1..], live)
    requires KeyOf(p) in live && items[0].batch.AckBlock() <= live[KeyOf(p)]
    ensures AllAcked(p, items, live)
  {
    forall j | 0 <= j < |items| ensures items[j].batch.AckBlock() <= live[KeyOf(p)] {
      assert j > 0 ==> items[j] == items[1..][j - 1];
    }
  }

  lemma {:induction false} DrainPath(net: Net, s: Pipeline, i: nat) returns (t: Pipeline)
    requires Ready(net, s) && i < |net.paths|
    ensures CanReach(net, s, t) && Ready(net, t) && t.pipes == s.pipes[i := []]
    ensures t == s.(pipes := t.pipes, stored := t.stored, buffered := t.buffered, live := t.live)
    ensures LiveGrows(s.live, t.live) && AllAcked(net.paths[i], s.pipes[i], t.live)
    decreases |s.pipes[i]|
  {
    hide CanReach;
    if s.pipes[i] == [] {
      CanStay(net, s);
      t := s;
    } else {
      var m := PassHead(net, s, i);
      t := DrainPath(net, m, i);
      CanGoOn(net, s, m, t);
      HeadAcked(net.paths[i], s.pipes[i], t.live);
    }
  }

  lemma {:induction false} DrainPaths(net: Net, s: Pipeline, n: nat) returns (t: Pipeline)
    requires Ready(net, s) && n <= |net.paths|
    ensures CanReach(net, s, t) && Ready(net, t)
    ensures forall k :: 0 <= k < |net.paths| ==> t.pipes[k] == if k < n then [] else s.pipes[k]
    ensures t == s.(pipes := t.pipes, stored := t.stored, buffered := t.buffered, live := t.live)
    ensures LiveGrows(s.live, t.live)
    ensures forall k :: 0 <= k < n ==> AllAcked(net.paths[k], s.pipes[k], t.live)
  {
    hide CanReach;
    if n == 0 {
      CanStay(net, s);
      t := s;
    } else {
      var m := DrainPaths(net, s, n - 1);
      t := DrainPath(net, m, n - 1);
      CanGoOn(net, s, m, t);
      forall k | 0 <= k < n - 1 ensures AllAcked(net.paths[k], s.pipes[k], t.live) {
        StaysAcked(net.paths[k], s.pipes[k], m.live, t.live);
      }
    }
  }

  // ---- making it durable ----

  lemma FlushOne(net: Net, s: Pipeline, sink: string)
    requires Ready(net, s) && FlushDue(s, sink)
    ensures var t := Next(net, s, FlushSink(sink));
            && CanReach(net, s, t) && Ready(net, t) && Have(t) == Have(s) && s.stored <= t.stored
            && t == s.(stored := t.stored, buffered := t.buffered,
                       tick := Flushing(s.tick.snapshot, s.tick.toFlush - {sink}))
            && t.buffered <= s.buffered && OfSink(t.buffered, sink) == {}
  {
    CanStay(net, s);
    CanStep(net, s, s, FlushSink(sink));
    StepKeepsShape(net, s, FlushSink(sink));
  }

  lemma {:induction false} FlushAll(net: Net, s: Pipeline) returns (t: Pipeline)
    requires Ready(net, s) && s.tick.Flushing?
    ensures CanReach(net, s, t) && Ready(net, t) && Have(t) == Have(s) && s.stored <= t.stored
    ensures t == s.(stored := t.stored, buffered := t.buffered, tick := Flushing(s.tick.snapshot, {}))
    ensures t.buffered <= s.buffered && forall sink :: sink in s.tick.toFlush ==> OfSink(t.buffered, sink) == {}
    decreases if s.tick.Flushing? then |s.tick.toFlush| else 0
  {
    hide CanReach, Next;
    if s.tick.toFlush == {} {
      CanStay(net, s);
      t := s;
    } else {
      var sink :| sink in s.tick.toFlush;
      FlushOne(net, s, sink);
      var m := Next(net, s, FlushSink(sink));
      t := FlushAll(net, m);
      CanGoOn(net, s, m, t);
      assert OfSink(t.buffered, sink) <= OfSink(m.buffered, sink);
    }
  }

  /** A tick can be completed: everything buffered for the pipeline's sinks is stored and every live cursor
      becomes durable. */
  lemma CompleteTick(net: Net, s: Pipeline) returns (t: Pipeline)
    requires Ready(net, s)
    ensures CanReach(net, s, t) && Have(t) == Have(s) && t.tick.Idle?
    ensures t == s.(stored := t.stored, buffered := t.buffered, tick := Idle, db := s.db + s.live)
    ensures forall sink :: sink in SinksOf(net) ==> OfSink(t.buffered, sink) == {}
  {
    hide CanReach;
    CanStay(net, s);
    var idle := s.(tick := Idle);
    if s.tick.Flushing? {
      CanStep(net, s, s, TickFails);
      StepKeepsShape(net, s, TickFails);
    }
    CanStep(net, s, idle, TakeSnapshot);
    StepKeepsShape(net, idle, TakeSnapshot);
    var m := FlushAll(net, Next(net, idle, TakeSnapshot));
    CanGoOn(net, s, Next(net, idle, TakeSnapshot), m);
    CanStep(net, s, m, Event.Persist);
    assert FlooredRows(m.live, m.live) == m.live;
    t := Next(net, m, Event.Persist);
  }

  // ---- main result ----

  /** Nothing is in flight, everything the running sources have walked past is stored, and every live cursor
      is durable and at least the ack of every batch that was in flight before. */
  ghost predicate AllThrough(net: Net, s: Pipeline, t: Pipeline) {
    && t.cursor == s.cursor && t.began == s.began && t.tick.Idle?
    && |s.pipes| == |net.paths| == |t.pipes|
    && LiveGrows(s.live, t.live) && (forall k :: k in t.live ==> k in t.db && t.db[k] == t.live[k])
    && forall i :: 0 <= i < |net.paths| ==>
         var p := net.paths[i];
         && t.pipes[i] == [] && AllAcked(p, s.pipes[i], t.live)
         && (p.source in s.cursor ==> Due(net, p, Began(s, p.source), s.cursor[p.source]) <= t.stored)
  }

  /** Progress: from every state of a hazard-free run with no sink paused, the pipeline can go on, without the
      sources emitting anything more, until everything is delivered, stored and durably acked. No batch, write
      or tick can get stuck, and no ack goes missing. */
  lemma EverythingGetsThrough(net: Net, s: Pipeline)
    requires SafePaths(net) && Pinned(net) && Reachable(net, {}, s) && s.paused == {}
    ensures exists t :: CanReach(net, s, t) && AllThrough(net, s, t)
  {
    hide CanReach, Reachable, SafePaths, Pinned, Due;
    ReachableShaped(net, s);
    EndWrites(net, s);
    var a := s.(writing := map[]);
    var m := DrainPaths(net, a, |net.paths|);
    CanGoOn(net, s, a, m);
    StaysReachable(net, s, m);
    var t := CompleteTick(net, m);
    CanGoOn(net, s, m, t);
    forall i | 0 <= i < |net.paths| && net.paths[i].source in s.cursor
      ensures Due(net, net.paths[i], Began(s, net.paths[i].source), s.cursor[net.paths[i].source]) <= t.stored
    {
      var p := net.paths[i];
      DrainedMeansDelivered(net, m, i);
      DueOfSink(net, p, Began(s, p.source), s.cursor[p.source], t);
      assert p.sink in SinksOf(net);
    }
    assert AllThrough(net, s, t);
  }

  /** What a path owes and its sink does not buffer is stored. */
  lemma DueOfSink(net: Net, p: Path, began: Option<nat>, n: nat, t: Pipeline)
    ensures Due(net, p, began, n) <= Have(t) && OfSink(t.buffered, p.sink) == {} ==> Due(net, p, began, n) <= t.stored
  {
    if Due(net, p, began, n) <= Have(t) && OfSink(t.buffered, p.sink) == {} {
      forall d | d in Due(net, p, began, n) ensures d in t.stored {
        assert d in t.buffered ==> d in OfSink(t.buffered, p.sink);
      }
    }
  }
}

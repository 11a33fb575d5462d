/** The pipeline with one of its buffering sinks spelled out: the instance in the pool, its buffers, what
    encodes and which puts succeed. Each of its steps is a step of the pipeline. */
module HostedSink {
  import opened Common
  import opened Encoding
  import opened Buffers
  import opened Delivery
  import DeliverySafety

  /** The sink, its threshold, and the source behind each chain id it buffers under. */
  datatype Env = Env(net: Net, sink: string, flushRows: nat, sourceOf: nat -> string)

  /** Each chain belongs to one source, and the sink's sources are those of their chains. */
  ghost predicate EnvOk(env: Env) {
    && env.sink in env.net.buffering
    && (forall c, d :: env.sourceOf(c) == env.sourceOf(d) ==> c == d)
    && (forall i :: 0 <= i < |env.net.paths| && env.net.paths[i].sink == env.sink ==>
          env.sourceOf(ChainIdOf(env, i)) == env.net.paths[i].source)
  }

  /** The chain id every batch of the path carries. */
  function ChainIdOf(env: Env, i: nat): nat
    requires i < |env.net.paths|
  {
    env.net.cfg(env.net.paths[i].source).chainId
  }

  /** The pipeline, the sink's instance, and what earlier instances have stored. */
  datatype Host = Host(p: Pipeline, inst: SinkState, prior: set<Delivery>)

  datatype HostEvent =
    | Other(e: Event)
    | EndWrite(path: nat, world: World)
    | WriteTraps(path: nat)
    | Flush(world: World)

  // ---- the instance as sets of deliveries ----

  ghost function Held(env: Env, bufs: map<nat, Buf>): set<Delivery> {
    set c, j | c in bufs && 0 <= j < |bufs[c].records| :: Delivery(env.sourceOf(c), env.sink, bufs[c].records[j])
  }

  ghost function Of(env: Env, os: seq<Object>): set<Delivery> {
    set i, j | 0 <= i < |os| && 0 <= j < |os[i].records| ::
        Delivery(env.sourceOf(os[i].chainId), env.sink, os[i].records[j])
  }

  ghost function Rows(env: Env, c: nat, rs: seq<Record>): set<Delivery> {
    set r | r in rs :: Delivery(env.sourceOf(c), env.sink, r)
  }

  lemma OfAppend(env: Env, a: seq<Object>, b: seq<Object>)
    ensures Of(env, a + b) == Of(env, a) + Of(env, b)
  {
    var os := a + b;
    forall d | d in Of(env, a) ensures d in Of(env, os) {
      var i, j :| 0 <= i < |a| && 0 <= j < |a[i].records|
          && d == Delivery(env.sourceOf(a[i].chainId), env.sink, a[i].records[j]);
      assert os[i] == a[i];
    }
    forall d | d in Of(env, b) ensures d in Of(env, os) {
      var i, j :| 0 <= i < |b| && 0 <= j < |b[i].records|
          && d == Delivery(env.sourceOf(b[i].chainId), env.sink, b[i].records[j]);
      assert os[|a| + i] == b[i];
    }
    forall d | d in Of(env, os) ensures d in Of(env, a) || d in Of(env, b) {
      var i, j :| 0 <= i < |os| && 0 <= j < |os[i].records|
          && d == Delivery(env.sourceOf(os[i].chainId), env.sink, os[i].records[j]);
      assert if i < |a| then os[i] == a[i] else os[i] == b[i - |a|];
    }
  }

  lemma HeldAfterPush(env: Env, bufs: map<nat, Buf>, c: nat, lo: nat, hi: nat, rs: seq<Record>)
    ensures Held(env, bufs[c := Pushed(Get(bufs, c), c, lo, hi, rs)]) == Held(env, bufs) + Rows(env, c, rs)
  {
    var held, b := Get(bufs, c).records, Pushed(Get(bufs, c), c, lo, hi, rs);
    var after := bufs[c := b];
    assert b.records == held + rs;
    forall d | d in Held(env, bufs) ensures d in Held(env, after) {
      var k, j :| k in bufs && 0 <= j < |bufs[k].records|
          && d == Delivery(env.sourceOf(k), env.sink, bufs[k].records[j]);
      assert after[k].records[j] == bufs[k].records[j];
    }
    forall d | d in Rows(env, c, rs) ensures d in Held(env, after) {
      var j :| 0 <= j < |rs| && d == Delivery(env.sourceOf(c), env.sink, rs[j]);
      assert after[c].records[|held| + j] == rs[j];
    }
    forall d | d in Held(env, after) ensures d in Held(env, bufs) + Rows(env, c, rs) {
      var k, j :| k in after && 0 <= j < |after[k].records|
          && d == Delivery(env.sourceOf(k), env.sink, after[k].records[j]);
      if k == c && j >= |held| {
        assert after[k].records[j] == rs[j - |held|];
      } else if k == c {
        assert c in bufs && after[k].records[j] == bufs[c].records[j];
      }
    }
  }

  /** An object a take made is a whole non-empty buffer. */
  lemma MadeIs(s: SinkState, rows: nat, w: World, o: Object)
    requires Tagged(s.bufs) && o in WalkOf(s, rows, w).made
    ensures o.chainId in s.bufs && o == ObjectOf(s.bufs[o.chainId]) && o.records != []
  {
    hide TakeWalk;
    WalkEffect(s.bufs, s.bufs.Keys, rows, w.encodes, [], o.chainId);
    var made := WalkOf(s, rows, w).made;
    assert made[0..] == made;
    assert HasChain(made, o.chainId);
    var b := ObjectOf(Get(s.bufs, o.chainId));
    var i :| 0 <= i < |made| && made[i] == o;
    var j :| 0 <= j < |made| && made[j] == b;
    assert made[i].chainId == made[j].chainId;
  }

  /** The deliveries of chain `c` in a take. */
  lemma OneChainOfTake(env: Env, s: SinkState, rows: nat, w: World, c: nat, d: Delivery)
    requires EnvOk(env) && Tagged(s.bufs) && c in s.bufs && d.source == env.sourceOf(c)
    ensures var walk := WalkOf(s, rows, w);
            && c in walk.bufs
            && (HasChain(walk.made, c) ==>
                  walk.bufs[c].records == [] && (d in Of(env, walk.made) <==> d in Rows(env, c, s.bufs[c].records)))
            && (!HasChain(walk.made, c) ==> walk.bufs[c] == s.bufs[c] && d !in Of(env, walk.made))
  {
    hide TakeWalk;
    WalkEffect(s.bufs, s.bufs.Keys, rows, w.encodes, [], c);
    var walk := WalkOf(s, rows, w);
    var made := walk.made;
    assert made[0..] == made;
    if HasChain(made, c) {
      var o := ObjectOf(s.bufs[c]);
      assert o in made;
      if d in Rows(env, c, s.bufs[c].records) {
        var i :| 0 <= i < |made| && made[i] == o;
        var j :| 0 <= j < |o.records| && d == Delivery(env.sourceOf(c), env.sink, o.records[j]);
        assert made[i].records[j] == o.records[j];
      }
    }
    if d in Of(env, made) {
      var i, j :| 0 <= i < |made| && 0 <= j < |made[i].records|
          && d == Delivery(env.sourceOf(made[i].chainId), env.sink, made[i].records[j]);
      assert made[i].chainId == c;
      assert made[i] in made;
      MadeIs(s, rows, w, made[i]);
    }
  }

  /** A take moves whole buffers out, and nothing else. */
  lemma HeldAfterTake(env: Env, s: SinkState, rows: nat, w: World)
    requires EnvOk(env) && Tagged(s.bufs)
    ensures var walk := WalkOf(s, rows, w);
            && Held(env, walk.bufs) == Held(env, s.bufs) - Of(env, walk.made)
            && Of(env, walk.made) <= Held(env, s.bufs) && Tagged(walk.bufs)
  {
    hide TakeWalk, HasChain;
    var walk := WalkOf(s, rows, w);
    WalkEffect(s.bufs, s.bufs.Keys, rows, w.encodes, [], 0);
    assert walk.bufs.Keys == s.bufs.Keys;
    forall d | d in Held(env, s.bufs) ensures d in Held(env, walk.bufs) <==> d !in Of(env, walk.made) {
      var c, j :| c in s.bufs && 0 <= j < |s.bufs[c].records|
          && d == Delivery(env.sourceOf(c), env.sink, s.bufs[c].records[j]);
      OneChainOfTake(env, s, rows, w, c, d);
      if HasChain(walk.made, c) {
        assert d in Rows(env, c, s.bufs[c].records);
        NotHeld(env, walk.bufs, c, d);
      } else {
        assert walk.bufs[c].records[j] == s.bufs[c].records[j];
      }
    }
    forall d | d in Held(env, walk.bufs) ensures d in Held(env, s.bufs) {
      var c, j :| c in walk.bufs && 0 <= j < |walk.bufs[c].records|
          && d == Delivery(env.sourceOf(c), env.sink, walk.bufs[c].records[j]);
      OneChainOfTake(env, s, rows, w, c, d);
    }
    forall d | d in Of(env, walk.made) ensures d in Held(env, s.bufs) {
      MadeIsHeld(env, s, rows, w, d);
    }
  }

  lemma NotHeld(env: Env, bufs: map<nat, Buf>, c: nat, d: Delivery)
    requires EnvOk(env) && c in bufs && bufs[c].records == [] && d.source == env.sourceOf(c)
    ensures d !in Held(env, bufs)
  {
    forall k | k in bufs && env.sourceOf(k) == d.source ensures k == c {
    }
  }

  lemma MadeIsHeld(env: Env, s: SinkState, rows: nat, w: World, d: Delivery)
    requires Tagged(s.bufs) && d in Of(env, WalkOf(s, rows, w).made)
    ensures d in Held(env, s.bufs)
  {
    hide TakeWalk;
    var made := WalkOf(s, rows, w).made;
    var i, j :| 0 <= i < |made| && 0 <= j < |made[i].records|
        && d == Delivery(env.sourceOf(made[i].chainId), env.sink, made[i].records[j]);
    MadeIs(s, rows, w, made[i]);
    assert s.bufs[made[i].chainId].records[j] == made[i].records[j];
  }

  // ---- the instance's steps and the pipeline's events ----

  /** The objects a take stores, and those it takes and does not store. */
  ghost function Ups(s: SinkState, rows: nat, w: World): seq<Object> {
    WalkOf(s, rows, w).made[..StoredCount(s, rows, w)]
  }

  ghost function Drops(s: SinkState, rows: nat, w: World): seq<Object> {
    WalkOf(s, rows, w).made[StoredCount(s, rows, w)..]
  }

  /** The instance once the batch being written is in its buffers. */
  ghost function PushedBatch(env: Env, h: Host, i: nat): SinkState
    requires i < |env.net.paths| && i < |h.p.pipes| && h.p.pipes[i] != []
  {
    var b := h.p.pipes[i][0].batch;
    Apply(h.inst, Op.Push(ChainIdOf(env, i), b.range.lo, b.range.hi, b.Records()))
  }

  ghost predicate ToSink(env: Env, h: Host, i: nat) {
    Writing(env.net, h.p, i) && env.net.paths[i].sink == env.sink
  }

  /** The event is not about what this sink stores. */
  ghost predicate Elsewhere(env: Env, e: Event) {
    match e
    case WriteEnds(i, _, _, _, _) => i < |env.net.paths| && env.net.paths[i].sink != env.sink
    case TrapWrite(i) => i < |env.net.paths| && env.net.paths[i].sink != env.sink
    case FlushSink(sink) => sink != env.sink
    case FlushFails(sink, _, _) => sink != env.sink
    case _ => true
  }

  ghost predicate HostEnabled(env: Env, h: Host, he: HostEvent) {
    match he
    case Other(e) => Elsewhere(env, e) && Enabled(env.net, h.p, e)
    case EndWrite(i, _) => ToSink(env, h, i)
    case WriteTraps(i) => ToSink(env, h, i)
    case Flush(_) => FlushDue(h.p, env.sink)
  }

  /** The pipeline event a step amounts to. A control batch is not buffered. A flush does not reach an
      instance a write has checked out. */
  ghost function EventOf(env: Env, h: Host, he: HostEvent): Event
    requires HostEnabled(env, h, he)
  {
    match he
    case Other(e) => e
    case EndWrite(i, w) =>
      if h.p.pipes[i][0].batch.body.Control? then WriteEnds(i, {}, {}, {}, true) else
        var s := PushedBatch(env, h, i);
        WriteEnds(i, ItemImage(env.net.paths[i], h.p.pipes[i][0]), Of(env, Ups(s, env.flushRows, w)),
                  Of(env, Drops(s, env.flushRows, w)), TakeOk(s, env.flushRows, w))
    case WriteTraps(i) => TrapWrite(i)
    case Flush(w) =>
      if env.sink in h.p.writing then MissFlush(env.sink)
      else if TakeOk(h.inst, 0, w) then FlushSink(env.sink)
      else FlushFails(env.sink, Of(env, Ups(h.inst, 0, w)), Of(env, Drops(h.inst, 0, w)))
  }

  ghost function InstanceAfter(env: Env, h: Host, he: HostEvent): SinkState
    requires HostEnabled(env, h, he)
  {
    match he
    case Other(e) => if e.Crash? then FRESH else h.inst
    case EndWrite(i, w) =>
      if h.p.pipes[i][0].batch.body.Control? then h.inst else Apply(PushedBatch(env, h, i), Op.Take(env.flushRows, w))
    case WriteTraps(_) => FRESH
    case Flush(w) => if env.sink in h.p.writing then h.inst else Apply(h.inst, Op.Take(0, w))
  }

  /** The sink's records are those of its instance, and the stored ones also those of earlier instances. */
  ghost predicate Matches(env: Env, h: Host) {
    && OfSink(h.p.buffered, env.sink) == Held(env, h.inst.bufs)
    && OfSink(h.p.stored, env.sink) == h.prior + Of(env, h.inst.stored)
    && Tagged(h.inst.bufs)
  }

  ghost predicate HostStep(env: Env, h: Host, he: HostEvent, t: Host) {
    && HostEnabled(env, h, he) && Enabled(env.net, h.p, EventOf(env, h, he))
    && t == Host(Next(env.net, h.p, EventOf(env, h, he)), InstanceAfter(env, h, he),
                 if he.WriteTraps? || (he.Other? && he.e.Crash?) then h.prior + Of(env, h.inst.stored) else h.prior)
  }

  lemma ImageIsRows(env: Env, i: nat, it: Item)
    requires EnvOk(env) && i < |env.net.paths| && env.net.paths[i].sink == env.sink
             && it.stage == |env.net.paths[i].stages|
    ensures ItemImage(env.net.paths[i], it) == Rows(env, ChainIdOf(env, i), it.batch.Records())
  {
    var p := env.net.paths[i];
    assert p.stages[it.stage..] == [];
    assert Through([], it.batch.Records()) == it.batch.Records();
  }

  /** What a take does, in sets. */
  lemma TakeInSets(env: Env, s: SinkState, rows: nat, w: World)
    requires EnvOk(env) && Tagged(s.bufs)
    ensures var (t, up, lost) := (Apply(s, Op.Take(rows, w)), Of(env, Ups(s, rows, w)), Of(env, Drops(s, rows, w)));
            && Held(env, t.bufs) == Held(env, s.bufs) - up - lost && up + lost <= Held(env, s.bufs)
            && Of(env, t.stored) == Of(env, s.stored) + up && Tagged(t.bufs)
            && (lost == {} <==> t.lost == s.lost)
            && (TakeOk(s, rows, w) ==> lost == {})
  {
    hide TakeWalk;
    var made, k := WalkOf(s, rows, w).made, StoredCount(s, rows, w);
    HeldAfterTake(env, s, rows, w);
    assert made == made[..k] + made[k..];
    OfAppend(env, made[..k], made[k..]);
    OfAppend(env, s.stored, made[..k]);
    if made[k..] == [] {
      assert s.lost + made[k..] == s.lost;
    } else {
      var o := made[k];
      MadeIs(s, rows, w, o);
      assert made[k..][0] == o;
      assert Delivery(env.sourceOf(o.chainId), env.sink, o.records[0]) in Of(env, made[k..]);
      assert |s.lost + made[k..]| > |s.lost|;
    }
  }

  /** A successful flush takes every buffer. */
  lemma FlushTakesAll(env: Env, s: SinkState, w: World)
    requires EnvOk(env) && Tagged(s.bufs) && TakeOk(s, 0, w)
    ensures Held(env, Apply(s, Op.Take(0, w)).bufs) == {}
  {
    hide TakeWalk;
    var t := Apply(s, Op.Take(0, w));
    forall c | c in t.bufs ensures t.bufs[c].records == [] {
      ApplyTake(s, 0, w, c);
      assert Get(t.bufs, c) == t.bufs[c];
    }
  }

  // ---- every step is an event, and keeps the match ----

  lemma OtherMatches(env: Env, h: Host, e: Event, t: Host)
    requires EnvOk(env) && Matches(env, h) && HostStep(env, h, Other(e), t)
    ensures Matches(env, t)
  {
    hide Held, Of, ItemImage, Tagged, RangeBatches, StartOf;
    if e.Crash? {
      FreshHolds(env);
    } else {
      ElsewhereSame(env, h, e);
    }
  }

  lemma FreshHolds(env: Env)
    ensures Held(env, FRESH.bufs) == {} && Of(env, FRESH.stored) == {} && Tagged(FRESH.bufs)
  {
  }

  /** An event elsewhere leaves this sink's records alone. */
  lemma ElsewhereSame(env: Env, h: Host, e: Event)
    requires Elsewhere(env, e) && Enabled(env.net, h.p, e) && !e.Crash?
    ensures var t := Next(env.net, h.p, e);
            && OfSink(t.buffered, env.sink) == OfSink(h.p.buffered, env.sink)
            && OfSink(t.stored, env.sink) == OfSink(h.p.stored, env.sink)
  {
    hide ItemImage, RangeBatches, StartOf;
    if e.WriteEnds? {
      DeliverySafety.ImageSinks(env.net.paths[e.path], h.p.pipes[e.path][0]);
    }
  }

  lemma SinkSets(buffered: set<Delivery>, stored: set<Delivery>, sink: string, part: set<Delivery>,
                 up: set<Delivery>, lost: set<Delivery>)
    requires (forall d :: d in part ==> d.sink == sink) && up + lost <= OfSink(buffered, sink) + part
    ensures OfSink(buffered + part - up - lost, sink) == OfSink(buffered, sink) + part - up - lost
    ensures OfSink(stored + up, sink) == OfSink(stored, sink) + up
    ensures up + lost <= OfSink(buffered + part, sink)
  {
  }

  /** The sink has accepted the oldest batch of the path. */
  ghost predicate Accepted(env: Env, s: Pipeline, i: nat) {
    i < |env.net.paths| && i < |s.pipes| && s.pipes[i] != [] && s.pipes[i][0].stage == |env.net.paths[i].stages| + 1
  }

  lemma WriteMatches(env: Env, h: Host, i: nat, w: World)
    requires EnvOk(env) && Matches(env, h) && HostEnabled(env, h, EndWrite(i, w)) && h.p.pipes[i][0].batch.body.Data?
    ensures var e := EventOf(env, h, EndWrite(i, w));
            && Enabled(env.net, h.p, e)
            && Matches(env, Host(Next(env.net, h.p, e), InstanceAfter(env, h, EndWrite(i, w)), h.prior))
            && (HazardOf(env.net, e) == {} <==> InstanceAfter(env, h, EndWrite(i, w)).lost == h.inst.lost)
            && (Accepted(env, Next(env.net, h.p, e), i) <==> TakeOk(PushedBatch(env, h, i), env.flushRows, w))
  {
    hide Held, Of, ItemImage, TakeOk, Ups, Drops, Tagged, Rows;
    var it := h.p.pipes[i][0];
    var s := PushedBatch(env, h, i);
    ImageIsRows(env, i, it);
    HeldAfterPush(env, h.inst.bufs, ChainIdOf(env, i), it.batch.range.lo, it.batch.range.hi, it.batch.Records());
    PushStaysTagged(h.inst, ChainIdOf(env, i), it.batch.range.lo, it.batch.range.hi, it.batch.Records());
    assert s.stored == h.inst.stored && s.lost == h.inst.lost;
    hide Apply;
    TakeInSets(env, s, env.flushRows, w);
    DeliverySafety.ImageSinks(env.net.paths[i], it);
    SinkSets(h.p.buffered, h.p.stored, env.sink, ItemImage(env.net.paths[i], it),
             Of(env, Ups(s, env.flushRows, w)), Of(env, Drops(s, env.flushRows, w)));
    hide OfSink;
  }

  lemma PushStaysTagged(s: SinkState, c: nat, lo: nat, hi: nat, rs: seq<Record>)
    requires Tagged(s.bufs)
    ensures var t := Apply(s, Op.Push(c, lo, hi, rs)); Tagged(t.bufs) && t.stored == s.stored && t.lost == s.lost
  {
  }

  /** A control batch passes by the buffers. */
  lemma ControlMatches(env: Env, h: Host, i: nat, w: World)
    requires EnvOk(env) && Matches(env, h) && HostEnabled(env, h, EndWrite(i, w)) && h.p.pipes[i][0].batch.body.Control?
    ensures var e := EventOf(env, h, EndWrite(i, w));
            && Enabled(env.net, h.p, e)
            && Matches(env, Host(Next(env.net, h.p, e), h.inst, h.prior)) && HazardOf(env.net, e) == {}
            && Accepted(env, Next(env.net, h.p, e), i)
  {
    hide Held, Of;
    ImageIsRows(env, i, h.p.pipes[i][0]);
  }

  lemma TrapMatches(env: Env, h: Host, i: nat)
    requires EnvOk(env) && Matches(env, h) && HostEnabled(env, h, WriteTraps(i))
    ensures var e := TrapWrite(i);
            && Enabled(env.net, h.p, e)
            && Matches(env, Host(Next(env.net, h.p, e), FRESH, h.prior + Of(env, h.inst.stored)))
  {
    hide Held, Of;
    FreshHolds(env);
  }

  /** A flush that stores everything. */
  lemma FullFlushMatches(env: Env, h: Host, w: World)
    requires EnvOk(env) && Matches(env, h) && FlushDue(h.p, env.sink) && env.sink !in h.p.writing
             && TakeOk(h.inst, 0, w)
    ensures var t := Next(env.net, h.p, FlushSink(env.sink));
            && Matches(env, Host(t, Apply(h.inst, Op.Take(0, w)), h.prior))
            && Apply(h.inst, Op.Take(0, w)).lost == h.inst.lost
  {
    hide Held, Of, Apply, TakeOk, Ups, Drops, Tagged;
    TakeInSets(env, h.inst, 0, w);
    FlushTakesAll(env, h.inst, w);
    SinkSets(h.p.buffered, h.p.stored, env.sink, {}, OfSink(h.p.buffered, env.sink), {});
    assert h.p.buffered + {} - OfSink(h.p.buffered, env.sink) - {} == h.p.buffered - OfSink(h.p.buffered, env.sink);
  }

  /** A flush that does not. */
  lemma FailedFlushMatches(env: Env, h: Host, w: World)
    requires EnvOk(env) && Matches(env, h) && FlushDue(h.p, env.sink) && env.sink !in h.p.writing
    ensures var (up, lost) := (Of(env, Ups(h.inst, 0, w)), Of(env, Drops(h.inst, 0, w)));
            && up + lost <= OfSink(h.p.buffered, env.sink)
            && Matches(env, Host(Next(env.net, h.p, FlushFails(env.sink, up, lost)),
                                 Apply(h.inst, Op.Take(0, w)), h.prior))
            && (lost == {} <==> Apply(h.inst, Op.Take(0, w)).lost == h.inst.lost)
  {
    hide Held, Of, Apply, TakeOk, Ups, Drops, Tagged;
    TakeInSets(env, h.inst, 0, w);
    var up, lost := Of(env, Ups(h.inst, 0, w)), Of(env, Drops(h.inst, 0, w));
    SinkSets(h.p.buffered, h.p.stored, env.sink, {}, up, lost);
    assert h.p.buffered + {} == h.p.buffered && OfSink(h.p.buffered, env.sink) + {} == OfSink(h.p.buffered, env.sink);
  }

  lemma FlushMatches(env: Env, h: Host, w: World)
    requires EnvOk(env) && Matches(env, h) && HostEnabled(env, h, Flush(w))
    ensures var e := EventOf(env, h, Flush(w));
            && Enabled(env.net, h.p, e)
            && Matches(env, Host(Next(env.net, h.p, e), InstanceAfter(env, h, Flush(w)), h.prior))
            && (HazardOf(env.net, e) == {} <==>
                  env.sink !in h.p.writing && InstanceAfter(env, h, Flush(w)).lost == h.inst.lost)
  {
    hide Held, Of, Apply, TakeOk, Ups, Drops, Tagged, OfSink;
    if env.sink !in h.p.writing {
      hide Matches, Next;
      if TakeOk(h.inst, 0, w) {
        FullFlushMatches(env, h, w);
      } else {
        FailedFlushMatches(env, h, w);
      }
    }
  }

  /** Every step of the instance is an event of the pipeline, and the pipeline's sets stay those of the
      instance. A write or flush is free of hazards iff it loses nothing it took and, for a flush, no
      write has the instance checked out. */
  lemma StepIsEvent(env: Env, h: Host, he: HostEvent, t: Host)
    requires EnvOk(env) && Matches(env, h) && HostStep(env, h, he, t)
    ensures Matches(env, t)
    ensures he.EndWrite? ==> (HazardOf(env.net, EventOf(env, h, he)) == {} <==> t.inst.lost == h.inst.lost)
    ensures he.Flush? ==>
              (HazardOf(env.net, EventOf(env, h, he)) == {} <==> env.sink !in h.p.writing && t.inst.lost == h.inst.lost)
  {
    hide Matches, EventOf, InstanceAfter, HostEnabled, HazardOf;
    match he {
      case Other(e) => OtherMatches(env, h, e, t);
      case EndWrite(i, w) => WriteStep(env, h, i, w, t);
      case WriteTraps(i) => TrapStep(env, h, i, t);
      case Flush(w) => FlushMatches(env, h, w);
    }
  }

  lemma WriteStep(env: Env, h: Host, i: nat, w: World, t: Host)
    requires EnvOk(env) && Matches(env, h) && HostStep(env, h, EndWrite(i, w), t)
    ensures Matches(env, t)
    ensures HazardOf(env.net, EventOf(env, h, EndWrite(i, w))) == {} <==> t.inst.lost == h.inst.lost
  {
    hide Matches, HazardOf, Next, Enabled;
    if h.p.pipes[i][0].batch.body.Control? {
      ControlMatches(env, h, i, w);
    } else {
      WriteMatches(env, h, i, w);
    }
  }

  lemma TrapStep(env: Env, h: Host, i: nat, t: Host)
    requires EnvOk(env) && Matches(env, h) && HostStep(env, h, WriteTraps(i), t)
    ensures Matches(env, t)
  {
    hide Matches, Next, Enabled;
    TrapMatches(env, h, i);
  }

  // ---- whole runs ----

  /** A run from a fresh store with a fresh instance. */
  ghost predicate HostRun(env: Env, states: seq<Host>, hes: seq<HostEvent>) {
    && |states| == |hes| + 1 && states[0] == Host(Opened(env.net, map[], {}), FRESH, {})
    && forall i {:trigger hes[i]} :: 0 <= i < |hes| ==> HostStep(env, states[i], hes[i], states[i + 1])
  }

  /** No event of the run is a hazard. */
  ghost predicate HazardFree(env: Env, states: seq<Host>, hes: seq<HostEvent>) {
    |states| == |hes| + 1 &&
    forall i {:trigger hes[i]} :: 0 <= i < |hes| ==>
      HostEnabled(env, states[i], hes[i]) && HazardOf(env.net, EventOf(env, states[i], hes[i])) == {}
  }

  lemma {:induction false} RunMatches(env: Env, states: seq<Host>, hes: seq<HostEvent>, k: nat)
    requires EnvOk(env) && HostRun(env, states, hes) && k <= |hes|
    ensures Matches(env, states[k])
  {
    hide HostStep, Matches, EnvOk;
    if k > 0 {
      RunMatches(env, states, hes, k - 1);
      assert HostStep(env, states[k - 1], hes[k - 1], states[k - 1 + 1]);
      StepIsEvent(env, states[k - 1], hes[k - 1], states[k]);
    } else {
      FreshHolds(env);
      StartMatches(env);
    }
  }

  lemma StartMatches(env: Env)
    ensures Matches(env, Host(Opened(env.net, map[], {}), FRESH, {}))
  {
  }

  lemma {:induction false} RunIsReachable(env: Env, states: seq<Host>, hes: seq<HostEvent>, k: nat)
    requires HostRun(env, states, hes) && HazardFree(env, states, hes) && k <= |hes|
    ensures Reachable(env.net, {}, states[k].p)
  {
    hide Enabled, Next, HazardOf, EventOf, HostEnabled, InstanceAfter, Reachable, Opened;
    if k > 0 {
      RunIsReachable(env, states, hes, k - 1);
      assert HostStep(env, states[k - 1], hes[k - 1], states[k - 1 + 1]);
      ReachNext(env.net, {}, states[k - 1].p, EventOf(env, states[k - 1], hes[k - 1]));
    } else {
      ReachStart(env.net, {});
    }
  }

  /** Flush before persist, down to the objects: in every hazard-free run, everything the sink was owed below
      its durable cursor is in an object that this instance or an earlier one has stored, and everything
      below its live cursor is there or still in the instance's buffers. */
  lemma DurableMeansInObjects(env: Env, states: seq<Host>, hes: seq<HostEvent>, k: nat, i: nat)
    requires EnvOk(env) && SafePaths(env.net) && Pinned(env.net)
    requires HostRun(env, states, hes) && HazardFree(env, states, hes) && k <= |hes|
    requires i < |env.net.paths| && env.net.paths[i].sink == env.sink
    ensures var (p, h) := (env.net.paths[i], states[k]);
            var objects := h.prior + Of(env, h.inst.stored);
            && (KeyOf(p) in h.p.db ==> Due(env.net, p, Began(h.p, p.source), h.p.db[KeyOf(p)]) <= objects)
            && (KeyOf(p) in h.p.live ==>
                  Due(env.net, p, Began(h.p, p.source), h.p.live[KeyOf(p)]) <= objects + Held(env, h.inst.bufs))
  {
    hide HostStep, HazardFree, SafePaths, Pinned, EnvOk, Held, Of, Reachable;
    RunMatches(env, states, hes, k);
    RunIsReachable(env, states, hes, k);
    var p, h := env.net.paths[i], states[k];
    DeliverySafety.AtLeastOnce(env.net, h.p);
    forall n: nat, d | d in Due(env.net, p, Began(h.p, p.source), n) ensures d.sink == env.sink {
    }
  }
}

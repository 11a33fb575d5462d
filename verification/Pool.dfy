/** The host's pool of sink instances: a LIFO stack a write pops from and pushes back to. */
module Pool {
  import opened Common
  import opened Encoding
  import opened Buffers

  /** How a guest call ends. A trap poisons the instance; a graceful error leaves it usable. */
  datatype Reply = Fine | GracefulError | Trapped

  /** A sink module: its initial state, what a write does and what a flush does. `B` and `F` carry the
      batch and the world's answers during the call. */
  datatype Guest<!S, !B, !F> = Guest(init: S, write: (S, B) -> (S, Reply), flush: (S, F) -> (S, Reply))

  /** Top of the stack, or a fresh instance when the stack is empty, and what stays pooled. */
  function Checkout<S, B, F>(g: Guest<S, B, F>, pool: seq<S>): (seq<S>, S) {
    if pool == [] then ([], g.init) else (pool[..|pool| - 1], pool[|pool| - 1])
  }

  function PoolAfterWrite<S, B, F>(g: Guest<S, B, F>, pool: seq<S>, b: B): seq<S> {
    var (rest, slot) := Checkout(g, pool);
    var (slot', reply) := g.write(slot, b);
    if reply == Trapped then rest else rest + [slot']
  }

  /** Flushes the pooled slots in order; the first failure stops the walk. */
  function PoolAfterFlush<S, B, F>(g: Guest<S, B, F>, pool: seq<S>, f: F): seq<S> {
    if pool == [] then [] else
      var (slot', reply) := g.flush(pool[0], f);
      [slot'] + if reply != Fine then pool[1..] else PoolAfterFlush(g, pool[1..], f)
  }

  /** Every slot the walk comes to is flushed without an error. */
  predicate FlushesFine<S, B, F>(g: Guest<S, B, F>, pool: seq<S>, f: F) {
    forall i :: 0 <= i < |pool| ==> g.flush(pool[i], f).1 == Fine
  }

  /** Slot `i` has been flushed if every slot before it was flushed without an error, and is as it was otherwise. */
  lemma {:induction false} FlushVisits<S, B, F>(g: Guest<S, B, F>, pool: seq<S>, f: F, i: nat)
    requires i < |pool|
    ensures |PoolAfterFlush(g, pool, f)| == |pool|
    ensures PoolAfterFlush(g, pool, f)[i] ==
            if FlushesFine(g, pool[..i], f) then g.flush(pool[i], f).0 else pool[i]
  {
    if |pool| == 1 {
      assert PoolAfterFlush(g, pool[1..], f) == [];
    } else {
      FlushVisits(g, pool[1..], f, if i > 0 then i - 1 else 0);
    }
    if i > 0 {
      assert pool[..i] == [pool[0]] + pool[1..][..i - 1];
      OneMoreFine(g, pool[0], pool[1..][..i - 1], f);
    }
  }

  lemma OneMoreFine<S, B, F>(g: Guest<S, B, F>, slot: S, rest: seq<S>, f: F)
    ensures FlushesFine(g, [slot] + rest, f) <==> g.flush(slot, f).1 == Fine && FlushesFine(g, rest, f)
  {
    var all := [slot] + rest;
    assert all[0] == slot && all[1..] == rest;
    if FlushesFine(g, all, f) {
      forall j | 0 <= j < |rest| ensures g.flush(rest[j], f).1 == Fine {
        assert rest[j] == all[j + 1];
      }
    }
  }

  class WasmSink<S, B, F> {
    const guest: Guest<S, B, F>
    var pool: seq<S>

    constructor (guest: Guest<S, B, F>, instances: nat)
      ensures this.guest == guest && pool == seq(Max(instances, 1), i => guest.init)
    {
      this.guest := guest;
      this.pool := seq(Max(instances, 1), i => guest.init);
    }

    /** `checkout`: while the slot is out it is not in the pool. */
    method TakeSlot() returns (slot: S)
      modifies this
      ensures (pool, slot) == Checkout(guest, old(pool))
    {
      slot := guest.init;
      if pool != [] {
        slot := pool[|pool| - 1];
        pool := pool[..|pool| - 1];
      }
    }

    method Write(b: B) returns (ok: bool)
      modifies this
      ensures pool == PoolAfterWrite(guest, old(pool), b)
      ensures ok <==> guest.write(Checkout(guest, old(pool)).1, b).1 == Fine
    {
      var slot := TakeSlot();
      var (slot', reply) := guest.write(slot, b);
      if reply == Trapped {
        return false;
      }
      pool := pool + [slot'];
      ok := reply == Fine;
    }

    /** Holds the pool for the whole walk; a slot that is out is not visited. */
    method Flush(f: F) returns (ok: bool)
      modifies this
      ensures pool == PoolAfterFlush(guest, old(pool), f)
      ensures ok <==> FlushesFine(guest, old(pool), f)
    {
      var i := 0;
      ghost var goal := PoolAfterFlush(guest, pool, f);
      assert pool[0..] == pool;
      while i < |pool|
        invariant i <= |pool| == |old(pool)|
        invariant goal == pool[..i] + PoolAfterFlush(guest, pool[i..], f)
        invariant pool[i..] == old(pool)[i..]
        invariant forall j :: 0 <= j < i ==> guest.flush(old(pool)[j], f).1 == Fine
      {
        assert pool[i] == old(pool)[i..][0];
        var (slot', reply) := guest.flush(pool[i], f);
        FlushStep(guest, pool, i, f);
        pool := pool[i := slot'];
        assert pool[i + 1..] == old(pool)[i..][1..] == old(pool)[i + 1..];
        if reply != Fine {
          return false;
        }
        i := i + 1;
      }
      assert pool[..i] + [] == pool;
      ok := true;
    }
  }

  /** One slot of the flush walk. */
  lemma FlushStep<S, B, F>(g: Guest<S, B, F>, pool: seq<S>, i: nat, f: F)
    requires i < |pool|
    ensures var (slot', reply) := g.flush(pool[i], f);
            var next := pool[i := slot'];
            pool[..i] + PoolAfterFlush(g, pool[i..], f) ==
            if reply != Fine then next else next[..i + 1] + PoolAfterFlush(g, next[i + 1..], f)
  {
    var (slot', reply) := g.flush(pool[i], f);
    var next := pool[i := slot'];
    assert pool[i..][1..] == pool[i + 1..] == next[i + 1..];
    assert next[..i + 1] == pool[..i] + [slot'];
    if reply != Fine {
      assert next == pool[..i] + ([slot'] + pool[i + 1..]);
    }
  }

  // ---- one sequential writer uses one instance ----

  datatype Call<B, F> = WriteCall(b: B) | FlushCall(f: F)

  function PoolAfter<S, B, F>(g: Guest<S, B, F>, pool: seq<S>, calls: seq<Call<B, F>>): seq<S> {
    if calls == [] then pool else
      var before := PoolAfter(g, pool, calls[..|calls| - 1]);
      match calls[|calls| - 1]
      case WriteCall(b) => PoolAfterWrite(g, before, b)
      case FlushCall(f) => PoolAfterFlush(g, before, f)
  }

  /** The same calls on a single instance, replaced by a fresh one when a write traps. */
  function SingleAfter<S, B, F>(g: Guest<S, B, F>, calls: seq<Call<B, F>>): S {
    if calls == [] then g.init else
      var before := SingleAfter(g, calls[..|calls| - 1]);
      match calls[|calls| - 1]
      case WriteCall(b) => if g.write(before, b).1 == Trapped then g.init else g.write(before, b).0
      case FlushCall(f) => g.flush(before, f).0
  }

  /** Flushing an instance that has nothing changes nothing. */
  ghost predicate IdleFlush<S, B, F(!new)>(g: Guest<S, B, F>) {
    forall f :: g.flush(g.init, f) == (g.init, Fine)
  }

  function Idle<S, B, F>(g: Guest<S, B, F>, n: nat): seq<S> {
    seq(n, i => g.init)
  }

  /** The pool is one instance on top of fresh ones, or only fresh ones when that instance is fresh too. */
  ghost predicate HoldsOnly<S, B, F>(g: Guest<S, B, F>, pool: seq<S>, single: S) {
    || (pool != [] && pool == Idle(g, |pool| - 1) + [single])
    || (pool == [] && single == g.init)
  }

  /** Checking out gives that instance, and leaves fresh ones only. */
  lemma CheckoutGetsIt<S, B, F>(g: Guest<S, B, F>, pool: seq<S>, single: S)
    requires HoldsOnly(g, pool, single)
    ensures var (rest, slot) := Checkout(g, pool); slot == single && rest == Idle(g, |rest|)
  {
  }

  lemma {:induction false} FlushReachesLast<S, B, F(!new)>(g: Guest<S, B, F>, idle: nat, last: S, f: F)
    requires IdleFlush(g)
    ensures PoolAfterFlush(g, Idle(g, idle) + [last], f) == Idle(g, idle) + [g.flush(last, f).0]
    ensures FlushesFine(g, Idle(g, idle) + [last], f) <==> g.flush(last, f).1 == Fine
  {
    var pool := Idle(g, idle) + [last];
    assert pool[|pool| - 1] == last;
    if idle == 0 {
      assert pool[1..] == [];
    } else {
      FlushReachesLast(g, idle - 1, last, f);
      assert pool[1..] == Idle(g, idle - 1) + [last];
      assert Idle(g, idle) == [g.init] + Idle(g, idle - 1);
    }
  }

  lemma {:induction false} FlushOfFresh<S, B, F(!new)>(g: Guest<S, B, F>, n: nat, f: F)
    requires IdleFlush(g)
    ensures PoolAfterFlush(g, Idle(g, n), f) == Idle(g, n) && FlushesFine(g, Idle(g, n), f)
  {
    if n > 0 {
      FlushReachesLast(g, n - 1, g.init, f);
      assert Idle(g, n) == Idle(g, n - 1) + [g.init];
    }
  }

  /** Whatever the pool size, and whatever errors and traps happen, all calls of one sequential writer
      since the last trap have reached one instance, and every other instance is as it was created. */
  lemma {:induction false} PoolRefinesSingle<S, B, F(!new)>(g: Guest<S, B, F>, n: nat, calls: seq<Call<B, F>>)
    requires n >= 1 && IdleFlush(g)
    ensures HoldsOnly(g, PoolAfter(g, Idle(g, n), calls), SingleAfter(g, calls))
  {
    if calls == [] {
      assert Idle(g, n) == Idle(g, n - 1) + [g.init];
    } else {
      var before, call := calls[..|calls| - 1], calls[|calls| - 1];
      PoolRefinesSingle(g, n, before);
      var pool := PoolAfter(g, Idle(g, n), before);
      if call.WriteCall? {
        CheckoutGetsIt(g, pool, SingleAfter(g, before));
        var rest := Checkout(g, pool).0;
        if rest != [] && g.write(SingleAfter(g, before), call.b).1 == Trapped {
          assert rest == Idle(g, |rest| - 1) + [g.init];
        }
      } else if pool != [] {
        FlushReachesLast(g, |pool| - 1, SingleAfter(g, before), call.f);
      }
    }
  }

  /** A trap discards the instance and everything it had buffered: only fresh ones are left. */
  lemma TrapDropsBuffered<S, B, F(!new)>(g: Guest<S, B, F>, n: nat, calls: seq<Call<B, F>>, b: B)
    requires n >= 1 && IdleFlush(g) && g.write(SingleAfter(g, calls), b).1 == Trapped
    ensures var pool := PoolAfter(g, Idle(g, n), calls + [WriteCall(b)]); pool == Idle(g, |pool|)
  {
    PoolRefinesSingle(g, n, calls);
    var all := calls + [WriteCall(b)];
    assert all[..|all| - 1] == calls;
    CheckoutGetsIt(g, PoolAfter(g, Idle(g, n), calls), SingleAfter(g, calls));
  }

  // ---- the object-store sink in the pool ----

  /** A delivered batch with what the world answers while it is written: a data batch, or a rollback. */
  datatype Wire =
    | DataWire(chainId: nat, lo: nat, hi: nat, records: seq<Record>, world: World)
    | RollbackWire(chainId: nat, fork: nat)
    | TrapWire

  /** The buffer operations a write amounts to: a push and a take of the full buffers, or a purge. */
  function WireOps(wire: Wire, flushRows: nat): seq<Op> {
    match wire
    case DataWire(c, lo, hi, rs, w) => [Op.Push(c, lo, hi, rs), Op.Take(flushRows, w)]
    case RollbackWire(c, fork) => [Op.Rollback(c, fork)]
    case TrapWire => []
  }

  ghost function S3Write(s: SinkState, wire: Wire, flushRows: nat): (SinkState, Reply) {
    match wire
    case DataWire(c, lo, hi, rs, w) =>
      var pushed := Apply(s, Op.Push(c, lo, hi, rs));
      (Apply(pushed, Op.Take(flushRows, w)), if TakeOk(pushed, flushRows, w) then Fine else GracefulError)
    case RollbackWire(c, fork) => (Apply(s, Op.Rollback(c, fork)), Fine)
    case TrapWire => (s, Trapped)
  }

  ghost function S3Flush(s: SinkState, w: World): (SinkState, Reply) {
    (Apply(s, Op.Take(0, w)), if TakeOk(s, 0, w) then Fine else GracefulError)
  }

  ghost function S3Guest(flushRows: nat): Guest<SinkState, Wire, World> {
    Guest(FRESH, (s: SinkState, wire: Wire) => S3Write(s, wire, flushRows), (s: SinkState, w: World) => S3Flush(s, w))
  }

  /** The buffer operations since the last trap. */
  ghost function OpsOf(calls: seq<Call<Wire, World>>, flushRows: nat): seq<Op> {
    if calls == [] then [] else
      var before := OpsOf(calls[..|calls| - 1], flushRows);
      match calls[|calls| - 1]
      case WriteCall(wire) => if wire.TrapWire? then [] else before + WireOps(wire, flushRows)
      case FlushCall(w) => before + [Op.Take(0, w)]
  }

  lemma RunOpsSnoc(ops: seq<Op>, op: Op)
    ensures RunOps(ops + [op]) == Apply(RunOps(ops), op)
  {
    assert (ops + [op])[..|ops + [op]| - 1] == ops;
  }

  /** A write that does not trap is its buffer operations. */
  lemma WriteRunsOps(ops: seq<Op>, wire: Wire, flushRows: nat)
    requires !wire.TrapWire?
    ensures S3Write(RunOps(ops), wire, flushRows).0 == RunOps(ops + WireOps(wire, flushRows))
    ensures S3Write(RunOps(ops), wire, flushRows).1 != Trapped
  {
    hide Apply, TakeOk, RunOps;
    if wire.DataWire? {
      var push, take := Op.Push(wire.chainId, wire.lo, wire.hi, wire.records), Op.Take(flushRows, wire.world);
      RunOpsSnoc(ops, push);
      RunOpsSnoc(ops + [push], take);
      assert ops + [push] + [take] == ops + [push, take];
    } else {
      RunOpsSnoc(ops, Op.Rollback(wire.chainId, wire.fork));
    }
  }

  lemma EmptyRun()
    ensures RunOps([]) == FRESH
  {
  }

  lemma {:induction false} SingleRunsOps(calls: seq<Call<Wire, World>>, flushRows: nat)
    ensures SingleAfter(S3Guest(flushRows), calls) == RunOps(OpsOf(calls, flushRows))
  {
    hide Apply, TakeOk, RunOps, WireOps;
    EmptyRun();
    if calls != [] {
      var before, call := calls[..|calls| - 1], calls[|calls| - 1];
      SingleRunsOps(before, flushRows);
      var ops := OpsOf(before, flushRows);
      match call {
        case WriteCall(wire) =>
          if !wire.TrapWire? {
            hide S3Write;
            WriteRunsOps(ops, wire, flushRows);
          }
        case FlushCall(w) =>
          RunOpsSnoc(ops, Op.Take(0, w));
      }
    }
  }

  lemma S3FlushIdle(flushRows: nat)
    ensures IdleFlush(S3Guest(flushRows))
  {
    forall w: World ensures S3Flush(FRESH, w) == (FRESH, Fine) {
      var none: map<nat, Buf> := map[];
      assert none.Keys == {};
      TakeWalkDone(none, 0, w.encodes, []);
      assert WalkOf(FRESH, 0, w) == Walk(none, [], true);
      var nothing: seq<Object> := [];
      assert nothing[..0] == nothing[0..] == nothing + nothing == nothing;
    }
  }

  /** Every buffered row of the object-store sink is in one instance, which has seen every operation since
      the last trap: failed encodings, failed puts and retried writes included. */
  lemma OneInstanceHoldsAll(n: nat, calls: seq<Call<Wire, World>>, flushRows: nat)
    requires n >= 1
    ensures var g := S3Guest(flushRows);
            HoldsOnly(g, PoolAfter(g, Idle(g, n), calls), RunOps(OpsOf(calls, flushRows)))
  {
    SingleRunsOps(calls, flushRows);
    S3FlushIdle(flushRows);
    PoolRefinesSingle(S3Guest(flushRows), n, calls);
  }

  /** No instance holds a row of chain `c` past the fork. */
  ghost predicate NonePast(pool: seq<SinkState>, c: nat, fork: nat) {
    forall i, r :: 0 <= i < |pool| && r in Get(pool[i].bufs, c).records ==> Below(r, fork + 1)
  }

  /** A rollback reaches every buffered row, whatever the pool size and whatever failed before. */
  lemma RollbackReachesEveryRow(n: nat, calls: seq<Call<Wire, World>>, flushRows: nat, c: nat, fork: nat)
    requires n >= 1
    ensures var g := S3Guest(flushRows);
            NonePast(PoolAfter(g, Idle(g, n), calls + [WriteCall(RollbackWire(c, fork))]), c, fork)
  {
    var g, all := S3Guest(flushRows), calls + [WriteCall(RollbackWire(c, fork))];
    assert all[..|all| - 1] == calls;
    OneInstanceHoldsAll(n, all, flushRows);
    var ops := OpsOf(calls, flushRows);
    RunOpsSnoc(ops, Op.Rollback(c, fork));
    RetainMembers(Get(RunOps(ops).bufs, c).records, fork + 1);
    assert Get(RunOps(OpsOf(all, flushRows)).bufs, c).records == Retain(Get(RunOps(ops).bufs, c).records, fork + 1);
  }

  // ---- a flush, and a write in flight ----

  /** What a flush finds pooled: all slots, or all but the one a write has checked out. */
  ghost function PooledFor(g: Guest<SinkState, Wire, World>, pool: seq<SinkState>, out: bool): seq<SinkState> {
    if out then Checkout(g, pool).0 else pool
  }

  /** Every instance there is after the flush, the checked-out one included. */
  ghost function AllAfterFlush(g: Guest<SinkState, Wire, World>, pool: seq<SinkState>, out: bool,
                               w: World): seq<SinkState> {
    PoolAfterFlush(g, PooledFor(g, pool, out), w) + if out then [Checkout(g, pool).1] else []
  }

  ghost predicate NothingBuffered(pool: seq<SinkState>) {
    forall i, c :: 0 <= i < |pool| ==> Get(pool[i].bufs, c).records == []
  }

  /** A flush that reports success has emptied every instance, whatever was written before. */
  ghost predicate FlushReachesAll(n: nat, flushRows: nat, out: bool) {
    var g := S3Guest(flushRows);
    forall calls, w ::
      var pool := PoolAfter(g, Idle(g, n), calls);
      FlushesFine(g, PooledFor(g, pool, out), w) ==> NothingBuffered(AllAfterFlush(g, pool, out, w))
  }

  lemma SuccessEmpties(n: nat, flushRows: nat, calls: seq<Call<Wire, World>>, w: World)
    requires var g := S3Guest(flushRows); n >= 1 && FlushesFine(g, PoolAfter(g, Idle(g, n), calls), w)
    ensures var g := S3Guest(flushRows); NothingBuffered(PoolAfterFlush(g, PoolAfter(g, Idle(g, n), calls), w))
  {
    var g := S3Guest(flushRows);
    var pool, ops := PoolAfter(g, Idle(g, n), calls), OpsOf(calls, flushRows);
    OneInstanceHoldsAll(n, calls, flushRows);
    S3FlushIdle(flushRows);
    if pool != [] {
      FlushReachesLast(g, |pool| - 1, RunOps(ops), w);
      RunOpsSnoc(ops, Op.Take(0, w));
      forall c ensures Get(Apply(RunOps(ops), Op.Take(0, w)).bufs, c).records == [] {
        FlushEmpties(ops, w, c);
      }
    }
  }

  /** A flush that reports success has reached every buffered row iff no write has a slot checked out. */
  lemma FlushReachesAllIff(n: nat, flushRows: nat, out: bool)
    requires n >= 1
    ensures FlushReachesAll(n, flushRows, out) <==> !out
  {
    var g := S3Guest(flushRows);
    if out {
      var w := World(rs => false, i => true);
      var r := Record(Some(0), "");
      var calls := [WriteCall(DataWire(0, 0, 1, [r], w))];
      OneInstanceHoldsAll(n, calls, flushRows);
      S3FlushIdle(flushRows);
      var pool := PoolAfter(g, Idle(g, n), calls);
      CheckoutGetsIt(g, pool, RunOps(OpsOf(calls, flushRows)));
      var (rest, slot) := Checkout(g, pool);
      FlushOfFresh(g, |rest|, w);
      OneRowStays(r, w, flushRows);
      var all := AllAfterFlush(g, pool, true, w);
      assert all[|all| - 1] == slot;
      assert !NothingBuffered(all);
    } else {
      forall calls, w | FlushesFine(g, PoolAfter(g, Idle(g, n), calls), w)
        ensures NothingBuffered(AllAfterFlush(g, PoolAfter(g, Idle(g, n), calls), false, w))
      {
        SuccessEmpties(n, flushRows, calls, w);
        var after := PoolAfterFlush(g, PoolAfter(g, Idle(g, n), calls), w);
        assert after + [] == after;
      }
    }
  }

  lemma OpsOfOneWrite(wire: Wire, flushRows: nat)
    requires !wire.TrapWire?
    ensures OpsOf([WriteCall(wire)], flushRows) == WireOps(wire, flushRows)
  {
    var calls: seq<Call<Wire, World>> := [WriteCall(wire)];
    assert calls[..0] == [];
    assert OpsOf([], flushRows) == [];
    assert [] + WireOps(wire, flushRows) == WireOps(wire, flushRows);
  }

  /** A written row that cannot be encoded yet stays buffered. */
  lemma OneRowStays(r: Record, w: World, flushRows: nat)
    requires !w.encodes([r])
    ensures var calls := [WriteCall(DataWire(0, 0, 1, [r], w))];
            Get(RunOps(OpsOf(calls, flushRows)).bufs, 0).records == [r]
  {
    hide RunOps, OpsOf, TakeOk;
    var push, take := Op.Push(0, 0, 1, [r]), Op.Take(flushRows, w);
    OpsOfOneWrite(DataWire(0, 0, 1, [r], w), flushRows);
    assert [] + [push] == [push] && [push] + [take] == [push, take];
    EmptyRun();
    RunOpsSnoc([], push);
    RunOpsSnoc([push], take);
    var b := Pushed(EMPTY, 0, 0, 1, [r]);
    assert b.records == [r];
    assert Apply(FRESH, push).bufs == map[0 := b];
    hide Apply;
    StuckBuffer(FRESH.(bufs := map[0 := b]), flushRows, w);
    assert Apply(FRESH, push) == FRESH.(bufs := map[0 := b]);
  }

  /** A take leaves a single buffer alone that cannot be encoded. */
  lemma StuckBuffer(s: SinkState, rows: nat, w: World)
    requires s.bufs.Keys == {0} && !w.encodes(s.bufs[0].records)
    ensures Apply(s, Op.Take(rows, w)).bufs == s.bufs
  {
    TakeWalkStep(s.bufs, {0}, 0, rows, w.encodes, []);
    assert {0} - {0} == {};
    TakeWalkDone(s.bufs, rows, w.encodes, []);
  }
}

/** The sink task: write with bounded retries, then ack, or rewind on a rollback. */
module SinkTask {
  import opened Common
  import opened Encoding
  import opened Reorg
  import opened Checkpoint
  import opened Source
  import opened Replay

  const MAX_ATTEMPTS: nat := 3

  datatype WriteOutcome = Accepted | Refused | Panicked

  /** `a` is the first accepted attempt, reached within the retry budget. */
  ghost predicate AcceptedAt(write: nat -> WriteOutcome, a: nat) {
    a < MAX_ATTEMPTS && write(a) == Accepted && forall b: nat :: b < a ==> write(b) == Refused
  }

  ghost predicate AcceptedInTime(write: nat -> WriteOutcome) {
    exists a: nat :: AcceptedAt(write, a)
  }

  /** A write gets exactly three attempts, the later ones only after refusals. */
  lemma ThreeAttempts(write: nat -> WriteOutcome)
    ensures AcceptedInTime(write) <==>
            || write(0) == Accepted
            || (write(0) == Refused && write(1) == Accepted)
            || (write(0) == Refused && write(1) == Refused && write(2) == Accepted)
  {
    if write(0) == Accepted {
      assert AcceptedAt(write, 0);
    } else if write(0) == Refused && write(1) == Accepted {
      assert AcceptedAt(write, 1);
    } else if write(0) == Refused && write(1) == Refused && write(2) == Accepted {
      assert AcceptedAt(write, 2);
    }
    if a: nat :| AcceptedAt(write, a) {
      assert a == 0 || a == 1 || a == 2;
    }
  }

  predicate IsRollback(b: Batch) {
    b.body.Control? && b.body.ctrl.Rollback?
  }

  /** What an accepted batch does to the live cursors. */
  function CursorsAfter(name: string, c: Cursors, b: Batch): Cursors {
    if IsRollback(b) then Rewound(c, Key(b.source, name), b.body.ctrl.invalidateAfter + 1)
    else Acked(c, Key(b.source, name), b.AckBlock())
  }

  /** What an accepted batch does to the durable rows: only a rollback writes through. */
  function RowsAfter(name: string, rows: Cursors, b: Batch): Cursors {
    if IsRollback(b) then RewoundRow(rows, Key(b.source, name), b.body.ctrl.invalidateAfter + 1) else rows
  }

  function CursorsAfterAll(name: string, c: Cursors, bs: seq<Batch>): Cursors {
    if bs == [] then c else CursorsAfter(name, CursorsAfterAll(name, c, bs[..|bs| - 1]), bs[|bs| - 1])
  }

  function RowsAfterAll(name: string, rows: Cursors, bs: seq<Batch>): Cursors {
    if bs == [] then rows else RowsAfter(name, RowsAfterAll(name, rows, bs[..|bs| - 1]), bs[|bs| - 1])
  }

  method WriteWithRetries(write: nat -> WriteOutcome) returns (ok: bool)
    ensures ok <==> AcceptedInTime(write)
  {
    var attempt := 0;
    while true
      invariant attempt < MAX_ATTEMPTS
      invariant forall b: nat :: b < attempt ==> write(b) == Refused
      decreases MAX_ATTEMPTS - attempt
    {
      match write(attempt) {
        case Accepted =>
          assert AcceptedAt(write, attempt);
          return true;
        case Refused =>
          attempt := attempt + 1;
          if attempt >= MAX_ATTEMPTS {
            return false;
          }
        case Panicked =>
          return false;
      }
    }
  }

  /** Moves the cursors for an accepted batch. */
  method Settle(name: string, batch: Batch, rowWritten: bool, store: CheckpointStore) returns (ok: bool)
    modifies store`cursors, store.db`cursors
    ensures ok <==> (IsRollback(batch) ==> rowWritten)
    ensures !IsRollback(batch) ==> store.db.cursors == old(store.db.cursors)
    ensures store.cursors == CursorsAfter(name, old(store.cursors), batch)
    ensures store.db.cursors == if ok then RowsAfter(name, old(store.db.cursors), batch) else old(store.db.cursors)
  {
    if IsRollback(batch) {
      ok := store.Rewind(batch.source, name, batch.body.ctrl.invalidateAfter + 1, rowWritten);
    } else {
      store.Ack(batch.source, name, batch.AckBlock());
      ok := true;
    }
  }

  /** The batch is accepted in time and, if it is a rollback, its row update succeeds. */
  ghost predicate Completes(b: Batch, write: nat -> WriteOutcome, rowWritten: bool) {
    AcceptedInTime(write) && (IsRollback(b) ==> rowWritten)
  }

  /** Consumes batches in order and pauses for good at the first one it cannot complete: one not
      accepted in time, or a rollback whose row update fails. Everything before it, and nothing after
      it, has moved the cursors. */
  method Consume(name: string, batches: seq<Batch>, write: nat -> nat -> WriteOutcome, rowWritten: nat -> bool,
                 store: CheckpointStore)
    returns (completed: nat)
    modifies store`cursors, store.db`cursors
    ensures completed <= |batches|
    ensures forall i: nat :: i < completed ==> Completes(batches[i], write(i), rowWritten(i))
    ensures completed < |batches| ==> !Completes(batches[completed], write(completed), rowWritten(completed))
    ensures store.db.cursors == RowsAfterAll(name, old(store.db.cursors), batches[..completed])
    ensures var done := CursorsAfterAll(name, old(store.cursors), batches[..completed]);
            store.cursors ==
            if completed < |batches| && AcceptedInTime(write(completed))
            then CursorsAfter(name, done, batches[completed]) else done
  {
    hide CursorsAfter, RowsAfter, AcceptedInTime, IsRollback;
    completed := 0;
    while completed < |batches|
      invariant completed <= |batches|
      invariant forall i: nat :: i < completed ==> Completes(batches[i], write(i), rowWritten(i))
      invariant store.cursors == CursorsAfterAll(name, old(store.cursors), batches[..completed])
      invariant store.db.cursors == RowsAfterAll(name, old(store.db.cursors), batches[..completed])
      decreases |batches| - completed
    {
      var batch := batches[completed];
      var accepted := WriteWithRetries(write(completed));
      if !accepted {
        return;
      }
      var settled := Settle(name, batch, rowWritten(completed), store);
      if !settled {
        return;
      }
      assert batches[..completed + 1][..completed] == batches[..completed];
      completed := completed + 1;
    }
  }

  /** Only a rollback touches the durable rows, and it never raises nor creates one. */
  lemma {:induction false} OnlyRollbacksWriteThrough(name: string, rows: Cursors, bs: seq<Batch>)
    ensures var t := RowsAfterAll(name, rows, bs);
            && t.Keys == rows.Keys && (forall k :: k in rows ==> t[k] <= rows[k])
            && ((forall i :: 0 <= i < |bs| ==> !IsRollback(bs[i])) ==> t == rows)
  {
    if bs != [] {
      OnlyRollbacksWriteThrough(name, rows, bs[..|bs| - 1]);
    }
  }

  // ---- the sink's cursor never passes the source's ----

  function CursorOf(c: Cursors, k: Key): nat {
    if k in c then c[k] else 0
  }

  lemma {:induction false} CursorsAfterAppend(name: string, c: Cursors, a: seq<Batch>, b: seq<Batch>)
    ensures CursorsAfterAll(name, c, a + b) == CursorsAfterAll(name, CursorsAfterAll(name, c, a), b)
  {
    if b == [] {
      assert a + b == a;
    } else {
      CursorsAfterAppend(name, c, a, b[..|b| - 1]);
      assert (a + b)[..|a + b| - 1] == a + b[..|b| - 1];
    }
  }

  /** The batch leaves `k` at or below `n`. */
  ghost predicate Bounded(b: Batch, n: nat) {
    if IsRollback(b) then b.body.ctrl.invalidateAfter + 1 <= n else b.AckBlock() <= n
  }

  lemma {:induction false} BoundedCursor(name: string, c: Cursors, bs: seq<Batch>, k: Key, n: nat)
    requires CursorOf(c, k) <= n && forall i :: 0 <= i < |bs| ==> Bounded(bs[i], n)
    ensures CursorOf(CursorsAfterAll(name, c, bs), k) <= n
  {
    if bs != [] {
      BoundedCursor(name, c, bs[..|bs| - 1], k, n);
    }
  }

  lemma EmitKeepsTrailing(cfg: SourceCfg, s: State, resp: Response, next: nat, name: string, c: Cursors)
    requires CursorOf(CursorsAfterAll(name, c, s.out), Key(cfg.name, name)) <= s.cursor < next
    ensures CursorOf(CursorsAfterAll(name, c, EmitStep(cfg, s, resp, next).out), Key(cfg.name, name)) <= next
  {
    var range := BlockRange(s.cursor, next);
    var sent := Chunked(cfg, range, 0, Truncated(resp, next));
    ChunksOfRange(cfg, range, 0, Truncated(resp, next));
    CursorsAfterAppend(name, c, s.out, sent);
    BoundedCursor(name, CursorsAfterAll(name, c, s.out), sent, Key(cfg.name, name), next);
    CursorsAfterAppend(name, c, s.out + sent, [EofBatch(cfg, next)]);
    BoundedCursor(name, CursorsAfterAll(name, c, s.out + sent), [EofBatch(cfg, next)], Key(cfg.name, name), next);
  }

  lemma PollKeepsTrailing(cfg: SourceCfg, s: State, p: Poll, name: string, c: Cursors)
    requires CursorOf(CursorsAfterAll(name, c, s.out), Key(cfg.name, name)) <= s.cursor
    ensures var t := PollStep(cfg, s, p); CursorOf(CursorsAfterAll(name, c, t.out), Key(cfg.name, name)) <= t.cursor
  {
    hide Chunked, Recorded, Conflicts, LocateFork, Truncated;
    var t := PollStep(cfg, s, p);
    if Emits(cfg, s, p) {
      PlanStepBounds(cfg, s.cursor, p.resp.nextBlock, p.resp.archiveHeight);
      EmitKeepsTrailing(cfg, s, p.resp, t.cursor, name, c);
    } else if t.out != s.out {
      assert t.out[..|t.out| - 1] == s.out;
    }
  }

  /** For every run of the source, reorgs included, a sink that has consumed everything sent so far
      stands at or below the source's cursor, so a restart from it skips nothing still to be sent. */
  lemma {:induction false} SinkTrailsSource(cfg: SourceCfg, s: State, polls: seq<Poll>, name: string, c: Cursors)
    requires CursorOf(CursorsAfterAll(name, c, s.out), Key(cfg.name, name)) <= s.cursor
    ensures var t := Run(cfg, s, polls); CursorOf(CursorsAfterAll(name, c, t.out), Key(cfg.name, name)) <= t.cursor
    decreases |polls|
  {
    if polls != [] {
      PollKeepsTrailing(cfg, s, polls[0], name, c);
      SinkTrailsSource(cfg, PollStep(cfg, s, polls[0]), polls[1..], name, c);
    }
  }

  // ---- a sink that has consumed everything resumes where the stream ends ----

  /** The cursor of a sink that has consumed everything the source has sent. */
  function Drained(cfg: SourceCfg, s: State, name: string, c: Cursors): nat {
    CursorOf(CursorsAfterAll(name, c, s.out), Key(cfg.name, name))
  }

  /** The sink stands at or below the source, and no record of the chain lies in between. */
  ghost predicate Settled(cfg: SourceCfg, d: Chain, base: nat, s: State, name: string, c: Cursors) {
    var k := Drained(cfg, s, name, c);
    k <= s.cursor && Recs(d, Max(base, k), s.cursor) == []
  }

  /** The chunks of a range take the cursor to its end, if there are any. */
  lemma ChunksAckRange(cfg: SourceCfg, range: BlockRange, rs: seq<Record>, name: string, c: Cursors)
    requires CursorOf(c, Key(cfg.name, name)) <= range.lo < range.hi
    ensures CursorOf(CursorsAfterAll(name, c, Chunked(cfg, range, 0, rs)), Key(cfg.name, name)) ==
            if rs == [] then CursorOf(c, Key(cfg.name, name)) else range.hi
  {
    var bs := Chunked(cfg, range, 0, rs);
    ChunksOfRange(cfg, range, 0, rs);
    if rs != [] {
      BoundedCursor(name, c, bs, Key(cfg.name, name), range.hi);
    }
  }

  /** Emptiness of a range of blocks passes to the ranges within it. */
  lemma RecsWithin(d: Chain, lo: nat, mid: nat, hi: nat)
    requires Recs(d, lo, hi) == [] && mid <= hi
    ensures Recs(d, lo, mid) == []
  {
    if lo <= mid {
      RecsSplit(d, lo, mid, hi);
    }
  }

  lemma RollbackSettles(cfg: SourceCfg, d: Chain, base: nat, s: State, p: Poll, name: string, c: Cursors)
    requires Replayed(cfg, d, base, s) && Settled(cfg, d, base, s, name, c) && RollsBack(cfg, s, p)
    ensures var t := RollbackStep(cfg, s, p.sweep); Settled(cfg, d, Min(base, t.cursor), t, name, c)
  {
    var t := RollbackStep(cfg, s, p.sweep);
    var k, next := Drained(cfg, s, name, c), LocateFork(cfg, s.hashes, s.cursor, p.sweep) + 1;
    assert t.out[..|t.out| - 1] == s.out;
    var b :| Mismatch(s.hashes, p.resp, b);
    assert b in s.hashes;
    ForkBelowCursor(cfg, s.hashes, s.cursor, p.sweep);
    if Drained(cfg, t, name, c) != next && base <= t.cursor {
      RecsWithin(d, Max(base, k), t.cursor, s.cursor);
    }
  }

  lemma EmitSettles(cfg: SourceCfg, was: Chain, d: Chain, base: nat, s: State, resp: Response, next: nat,
                    name: string, c: Cursors)
    requires Settled(cfg, was, base, s, name, c) && Agree(was, d, base, s.cursor) && base <= s.cursor
    requires Numbered(d) && Honest(d, s.cursor, resp) && s.cursor < next <= resp.nextBlock
    ensures Settled(cfg, d, base, EmitStep(cfg, s, resp, next), name, c)
  {
    var t, range, rs := EmitStep(cfg, s, resp, next), BlockRange(s.cursor, next), Truncated(resp, next);
    var sent, k := Chunked(cfg, range, 0, rs), Drained(cfg, s, name, c);
    TruncatedIsExact(d, s.cursor, resp, next);
    CursorsAfterAppend(name, c, s.out, sent);
    ChunksAckRange(cfg, range, rs, name, CursorsAfterAll(name, c, s.out));
    assert (s.out + sent + [EofBatch(cfg, next)])[..|s.out + sent|] == s.out + sent;
    if Drained(cfg, t, name, c) != next {
      RecsAgree(was, d, Max(base, k), s.cursor);
      RecsSplit(d, Max(base, k), s.cursor, next);
    }
  }

  lemma PollSettles(cfg: SourceCfg, was: Chain, d: Chain, base: nat, s: State, p: Poll, name: string, c: Cursors)
    requires Numbered(d) && Linked(was, d) && Replayed(cfg, was, base, s) && Settled(cfg, was, base, s, name, c)
    requires p.Answer? ==> Honest(d, s.cursor, p.resp)
    requires cfg.reorgEnabled && (Emits(cfg, s, p) ==> Watched(s, base, p.resp))
    ensures var t := PollStep(cfg, s, p);
            Settled(cfg, if Emits(cfg, s, p) then d else was, Min(base, t.cursor), t, name, c)
  {
    var t := PollStep(cfg, s, p);
    if RollsBack(cfg, s, p) {
      RollbackSettles(cfg, was, base, s, p, name, c);
    } else if Emits(cfg, s, p) {
      PlanStepBounds(cfg, s.cursor, p.resp.nextBlock, p.resp.archiveHeight);
      WatchedMeansAgree(cfg, was, d, base, s, p.resp);
      EmitSettles(cfg, was, d, base, s, p.resp, t.cursor, name, c);
    } else if t.out != s.out {
      assert t.out[..|t.out| - 1] == s.out;
    }
  }

  lemma SettledAtStart(cfg: SourceCfg, d: Chain, s: State, name: string, c: Cursors)
    requires StartsClean(cfg, s) && CursorOf(c, Key(cfg.name, name)) <= s.cursor
    ensures Replayed(cfg, d, s.cursor, s) && Settled(cfg, d, s.cursor, s, name, c)
  {
  }

  lemma {:induction false} SettledTo(cfg: SourceCfg, states: seq<State>, polls: seq<Poll>, chains: seq<Chain>, k: nat,
                                     name: string, c: Cursors) returns (j: nat)
    requires Replay.IsRun(cfg, states, polls) && HonestAnswers(states, polls, chains)
    requires WatchedRun(cfg, states, polls)
    requires chains != [] && Versions(chains) && cfg.reorgEnabled && StartsClean(cfg, states[0]) && k < |states|
    requires CursorOf(c, Key(cfg.name, name)) <= states[0].cursor
    ensures j < |chains| && Replayed(cfg, chains[j], Lowest(states, k), states[k])
            && Settled(cfg, chains[j], Lowest(states, k), states[k], name, c)
  {
    hide PollStep, Settled, Replayed, Honest, Watched, Emits;
    if k == 0 {
      j := 0;
      SettledAtStart(cfg, chains[0], states[0], name, c);
    } else {
      j := SettledTo(cfg, states, polls, chains, k - 1, name, c);
      var p := polls[k - 1];
      assert states[k - 1 + 1] == PollStep(cfg, states[k - 1], p);
      PollSettles(cfg, chains[j], chains[k - 1], Lowest(states, k - 1), states[k - 1], p, name, c);
      var d := PollKeepsReplayed(cfg, chains[j], chains[k - 1], Lowest(states, k - 1), states[k - 1], p);
      j := if Emits(cfg, states[k - 1], p) then k - 1 else j;
    }
  }

  /** What the chain has from block `at` on completes what has been sent to its records from `base` on. */
  ghost predicate CompletesTo(d: Chain, out: seq<Batch>, base: nat, at: nat) {
    forall n :: n >= at ==> View(out) + Recs(d, at, n) == Recs(d, base, n)
  }

  /** However the chain is replaced, at every point of a watched run a sink that has consumed everything sent
      stands at a block from which the rest of a served chain is exactly what it has not been given: restarted
      there it is sent nothing twice and misses nothing. */
  lemma DrainedSinkResumes(cfg: SourceCfg, states: seq<State>, polls: seq<Poll>, chains: seq<Chain>, k: nat,
                           name: string, c: Cursors)
    requires Replay.IsRun(cfg, states, polls) && HonestAnswers(states, polls, chains)
    requires WatchedRun(cfg, states, polls)
    requires chains != [] && Versions(chains) && cfg.reorgEnabled && StartsClean(cfg, states[0]) && k < |states|
    requires CursorOf(c, Key(cfg.name, name)) <= states[0].cursor
    ensures var at := Max(Lowest(states, k), Drained(cfg, states[k], name, c));
            at <= states[k].cursor
            && exists j :: 0 <= j < |chains| && CompletesTo(chains[j], states[k].out, Lowest(states, k), at)
  {
    hide Drained, CompletesTo, Replay.IsRun, HonestAnswers, WatchedRun, Settled, Replayed;
    var j := SettledTo(cfg, states, polls, chains, k, name, c);
    SettledCompletes(cfg, chains[j], Lowest(states, k), states[k], name, c);
  }

  lemma SettledCompletes(cfg: SourceCfg, d: Chain, base: nat, s: State, name: string, c: Cursors)
    requires Replayed(cfg, d, base, s) && Settled(cfg, d, base, s, name, c)
    ensures var at := Max(base, Drained(cfg, s, name, c)); at <= s.cursor && CompletesTo(d, s.out, base, at)
  {
    var at := Max(base, Drained(cfg, s, name, c));
    RecsSplit(d, base, at, s.cursor);
    forall n | n >= at ensures View(s.out) + Recs(d, at, n) == Recs(d, base, n) {
      RecsSplit(d, base, at, n);
    }
  }
}

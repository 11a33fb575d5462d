/** What the source loop guarantees over whole runs. */
module Replay {
  import opened Common
  import opened Encoding
  import opened Reorg
  import opened Source

  // ---- honest servers ----

  /** The answer to a query from `cursor` describes chain `d`: exactly its records on
      `[cursor, nextBlock)`, its hashes, and a guard whose first scanned block is the cursor. */
  ghost predicate Honest(d: Chain, cursor: nat, resp: Response) {
    && resp.records == Recs(d, cursor, resp.nextBlock)
    && (forall i :: 0 <= i < |resp.blockHashes| ==> resp.blockHashes[i].1 == d.at(resp.blockHashes[i].0).hash)
    && (resp.guard.Some? ==> HonestGuard(d, cursor, resp.guard.value))
  }

  ghost predicate HonestGuard(d: Chain, cursor: nat, g: Guard) {
    && g.firstBlock == cursor
    && g.hash == d.at(g.blockNumber).hash
    && (g.firstBlock > 0 ==> g.firstParentHash == d.at(g.firstBlock - 1).hash)
  }

  ghost predicate HonestPages(d: Chain, server: PageServer) {
    forall a: nat, c: nat, i ::
      server(a, c).Ok? && 0 <= i < |server(a, c).value.hashes| ==>
        server(a, c).value.hashes[i].1 == d.at(server(a, c).value.hashes[i].0).hash
  }

  /** Every page answers, advances, and lists all blocks it scanned. */
  ghost predicate CompletePages(server: PageServer) {
    forall a: nat, c: nat :: server(a, c).Ok? && server(a, c).value.nextBlock > c &&
      forall n: nat :: c <= n < server(a, c).value.nextBlock ==> Lists(server(a, c).value.hashes, n)
  }

  ghost predicate Lists(pairs: seq<(nat, string)>, n: nat) {
    exists i :: 0 <= i < |pairs| && pairs[i].0 == n
  }

  ghost predicate Agree(a: Chain, b: Chain, lo: nat, hi: nat) {
    forall k: nat :: lo <= k < hi ==> a.at(k) == b.at(k)
  }

  /** The stored hashes from `lo` on are those of chain `c`. */
  ghost predicate Tracks(m: Hashes, c: Chain, lo: nat) {
    forall k :: k in m && lo <= k ==> m[k] == c.at(k).hash
  }

  ghost predicate KeysBelow(m: Hashes, cursor: nat) {
    forall k :: k in m ==> k < cursor
  }

  /** The tracked blocks that are still on chain `d`. */
  ghost function Surviving(m: Hashes, d: Chain): set<nat> {
    set k | k in m && m[k] == d.at(k).hash
  }

  // ---- fork location ----

  lemma {:induction false} SweepSound(d: Chain, server: PageServer, attempt: nat, cursor: nat, to: nat)
    requires HonestPages(d, server)
    ensures var r := Sweep(server, attempt, cursor, to);
            r.Ok? ==> forall i :: 0 <= i < |r.value| ==> r.value[i].1 == d.at(r.value[i].0).hash
    decreases if cursor < to then to - cursor else 0
  {
    if cursor < to && server(attempt, cursor).Ok? && server(attempt, cursor).value.nextBlock > cursor {
      SweepSound(d, server, attempt + 1, server(attempt, cursor).value.nextBlock, to);
    }
  }

  lemma {:induction false} SweepComplete(server: PageServer, attempt: nat, cursor: nat, to: nat, n: nat)
    requires CompletePages(server) && cursor <= n < to
    ensures Sweep(server, attempt, cursor, to).Ok? && Lists(Sweep(server, attempt, cursor, to).value, n)
    decreases if cursor < to then to - cursor else 0
  {
    var page := server(attempt, cursor).value;
    SweepAnswers(server, attempt + 1, page.nextBlock, to);
    var rest := Sweep(server, attempt + 1, page.nextBlock, to).value;
    if n < page.nextBlock {
      assert Lists(server(attempt, cursor).value.hashes, n);
      var i :| 0 <= i < |page.hashes| && page.hashes[i].0 == n;
      assert (page.hashes + rest)[i].0 == n;
    } else {
      SweepComplete(server, attempt + 1, page.nextBlock, to, n);
      var i :| 0 <= i < |rest| && rest[i].0 == n;
      assert (page.hashes + rest)[|page.hashes| + i].0 == n;
    }
  }

  /** The answers a sweep gets: each request starts where the last page ended, until `to` is reached, a page
      does not advance, or a request fails. */
  ghost function Received(server: PageServer, attempt: nat, cursor: nat, to: nat): seq<Result<Page, ()>>
    decreases if cursor < to then to - cursor else 0
  {
    if cursor >= to then [] else
      var page := server(attempt, cursor);
      [page] + if page.Ok? && page.value.nextBlock > cursor
               then Received(server, attempt + 1, page.value.nextBlock, to) else []
  }

  /** A sweep fails iff one of its requests does. Otherwise it lists exactly what its pages list, also when a
      stalled server leaves it short. */
  lemma {:induction false} SweepIsItsPages(server: PageServer, attempt: nat, cursor: nat, to: nat)
    ensures var (r, got) := (Sweep(server, attempt, cursor, to), Received(server, attempt, cursor, to));
            && (r.Ok? <==> forall i :: 0 <= i < |got| ==> got[i].Ok?)
            && (r.Ok? ==> forall p :: p in r.value <==> exists i :: 0 <= i < |got| && p in got[i].value.hashes)
    decreases if cursor < to then to - cursor else 0
  {
    if cursor < to {
      var page, got := server(attempt, cursor), Received(server, attempt, cursor, to);
      if page.Ok? && page.value.nextBlock > cursor {
        SweepIsItsPages(server, attempt + 1, page.value.nextBlock, to);
        var rest := Received(server, attempt + 1, page.value.nextBlock, to);
        assert got == [page] + rest;
        assert forall i :: 0 < i < |got| ==> got[i] == rest[i - 1];
        assert forall i :: 0 <= i < |rest| ==> rest[i] == got[i + 1];
        assert page in got;
      } else {
        assert got == [page];
        assert forall p :: page.Ok? && p in page.value.hashes ==> p in got[0].value.hashes;
      }
    }
  }

  lemma {:induction false} SweepAnswers(server: PageServer, attempt: nat, cursor: nat, to: nat)
    requires CompletePages(server)
    ensures Sweep(server, attempt, cursor, to).Ok?
    decreases if cursor < to then to - cursor else 0
  {
    if cursor < to {
      SweepAnswers(server, attempt + 1, server(attempt, cursor).value.nextBlock, to);
    }
  }

  /** The sweep depends on what the server says of the blocks from `cursor` on, below `to`, and on nothing else. */
  lemma {:induction false} SweepAsksOnly(server: PageServer, other: PageServer, attempt: nat, cursor: nat, to: nat)
    requires forall a: nat, c: nat :: cursor <= c < to ==> server(a, c) == other(a, c)
    ensures Sweep(server, attempt, cursor, to) == Sweep(other, attempt, cursor, to)
    decreases if cursor < to then to - cursor else 0
  {
    if cursor < to && server(attempt, cursor).Ok? && server(attempt, cursor).value.nextBlock > cursor {
      SweepAsksOnly(server, other, attempt + 1, server(attempt, cursor).value.nextBlock, to);
    }
  }

  /** To locate a fork only the tracked range is asked for: from the lowest tracked block to the cursor. */
  lemma ForkAsksTrackedRange(cfg: SourceCfg, m: Hashes, cursor: nat, server: PageServer, other: PageServer)
    requires forall a: nat, c: nat, k :: k in m && k <= c < cursor ==> server(a, c) == other(a, c)
    ensures LocateFork(cfg, m, cursor, server) == LocateFork(cfg, m, cursor, other)
  {
    if m != map[] {
      SweepAsksOnly(server, other, 0, MinKey(m.Keys), cursor);
    }
  }

  /** A fork found by matching is canonical, and so is every hash kept by the purge, even when the
      sweep returned only part of the canonical hashes. */
  lemma FoundForkIsCanonical(m: Hashes, c: Chain, d: Chain, cursor: nat, server: PageServer)
    requires Tracks(m, c, 0) && Linked(c, d) && HonestPages(d, server)
    requires FoundFork(m, cursor, server).Some?
    ensures var fork := FoundFork(m, cursor, server).value;
            && fork in m && m[fork] == d.at(fork).hash
            && Agree(c, d, 0, fork + 1)
            && Tracks(Purged(m, fork), d, 0)
  {
    var swept := Sweep(server, 0, MinKey(m.Keys), cursor);
    SweepSound(d, server, 0, MinKey(m.Keys), cursor);
    CollectedSound(swept.value, d);
  }

  /** With a complete sweep the fork is the highest tracked block that survives on the new chain,
      and a fork is found exactly when some tracked block survives. */
  lemma CompleteSweepFindsHighest(m: Hashes, d: Chain, cursor: nat, server: PageServer)
    requires m != map[] && KeysBelow(m, cursor) && HonestPages(d, server) && CompletePages(server)
    ensures FoundFork(m, cursor, server).Some? <==> Surviving(m, d) != {}
    ensures FoundFork(m, cursor, server).Some? ==>
              IsMax(Surviving(m, d), FoundFork(m, cursor, server).value)
  {
    var low := MinKey(m.Keys);
    SweepAnswers(server, 0, low, cursor);
    var pairs := Sweep(server, 0, low, cursor).value;
    SweepSound(d, server, 0, low, cursor);
    CollectedSound(pairs, d);
    forall k | k in m ensures k in Collected(pairs) {
      SweepComplete(server, 0, low, cursor, k);
    }
    assert Matching(m, Collected(pairs)) == Surviving(m, d);
  }

  /** The coarse fallback voids every tracked hash, unless block 0 is tracked: `0 - 1` saturates. */
  lemma CoarseForkKeepsNothingIff(cfg: SourceCfg, m: Hashes, cursor: nat)
    requires m != map[]
    ensures Purged(m, CoarseFork(cfg, m, cursor)) == map[] <==> 0 !in m
  {
    var low := MinKey(m.Keys);
    if 0 in m {
      assert 0 in Purged(m, CoarseFork(cfg, m, cursor));
    }
  }

  /** The coarse fallback voids no more than that: everything below the lowest tracked block stands. With
      nothing tracked it goes back the window and one block more. */
  lemma CoarseForkIsTight(cfg: SourceCfg, m: Hashes, cursor: nat)
    ensures m != map[] && MinKey(m.Keys) > 0 ==> CoarseFork(cfg, m, cursor) + 1 == MinKey(m.Keys)
    ensures m != map[] && MinKey(m.Keys) == 0 ==> CoarseFork(cfg, m, cursor) == 0
    ensures m == map[] ==>
              var back := cfg.Window() + 1;
              CoarseFork(cfg, m, cursor) + back == cursor || (CoarseFork(cfg, m, cursor) == 0 && cursor <= back)
  {
  }

  /** Where a rollback leaves the cursor when the sweep is complete: right after the highest tracked block that
      survives, or at the lowest tracked block when none does (block 0 excepted), and never below the start
      block. Nothing the tracker can still vouch for is sent again. */
  lemma RollbackIsTight(cfg: SourceCfg, s: State, d: Chain, server: PageServer)
    requires s.hashes != map[] && KeysBelow(s.hashes, s.cursor) && HonestPages(d, server) && CompletePages(server)
    ensures var (t, alive) := (RollbackStep(cfg, s, server), Surviving(s.hashes, d));
            t.cursor == Max(cfg.fromBlock,
                            if alive != {} then MaxKey(alive) + 1 else Max(MinKey(s.hashes.Keys), 1))
  {
    CompleteSweepFindsHighest(s.hashes, d, s.cursor, server);
    CoarseForkIsTight(cfg, s.hashes, s.cursor);
  }

  lemma ForkBelowCursor(cfg: SourceCfg, m: Hashes, cursor: nat, server: PageServer)
    requires m != map[] && KeysBelow(m, cursor)
    ensures LocateFork(cfg, m, cursor, server) < cursor
  {
    var low := MinKey(m.Keys);
  }

  // ---- detection ----

  /** With block cursor-1 tracked and the guard present, a conflict is reported iff the chain below
      the cursor is no longer the one recorded. */
  lemma DetectionIsExact(m: Hashes, c: Chain, d: Chain, cursor: nat, resp: Response)
    requires KeysBelow(m, cursor) && Tracks(m, c, 0) && Linked(c, d) && Linked(d, c)
    requires cursor > 0 && cursor - 1 in m
    requires Honest(d, cursor, resp) && resp.guard.Some?
    ensures Conflicts(m, resp) <==> !Agree(c, d, 0, cursor)
  {
    if Agree(c, d, 0, cursor) {
      forall b ensures !Mismatch(m, resp, b) {
        if b in m { assert c.at(b) == d.at(b); }
      }
    } else {
      assert c.at(cursor - 1).hash != d.at(cursor - 1).hash;
      assert GuardMismatch(m, resp.guard, cursor - 1);
      assert Mismatch(m, resp, cursor - 1);
    }
  }

  /** The response mentions block `n`: it lists its hash, or its guard names it as the parent of the first
      block scanned. */
  ghost predicate Mentions(resp: Response, n: nat) {
    || Lists(resp.blockHashes, n)
    || (resp.guard.Some? && resp.guard.value.firstBlock == n + 1)
  }

  /** An honest response raises a conflict iff it mentions a tracked block that is no longer on the chain; the
      guard's own block does not count. */
  lemma ConflictIffMentioned(m: Hashes, d: Chain, cursor: nat, resp: Response)
    requires Honest(d, cursor, resp)
    ensures Conflicts(m, resp) <==> exists n :: n in m && Mentions(resp, n) && m[n] != d.at(n).hash
  {
    if Conflicts(m, resp) {
      var b :| Mismatch(m, resp, b);
      assert b in m && Mentions(resp, b) && m[b] != d.at(b).hash;
    }
    if n :| n in m && Mentions(resp, n) && m[n] != d.at(n).hash {
      if Lists(resp.blockHashes, n) {
        var i :| 0 <= i < |resp.blockHashes| && resp.blockHashes[i].0 == n;
        assert PairMismatch(m, resp.blockHashes[i], n);
      } else {
        assert GuardMismatch(m, resp.guard, n);
      }
      assert Mismatch(m, resp, n);
    }
  }

  /** `d` answers from the cursor, with a guard if those are given, and the stored hashes raise no objection. */
  ghost predicate Unnoticed(m: Hashes, d: Chain, cursor: nat, resp: Response, guarded: bool) {
    Honest(d, cursor, resp) && (guarded ==> resp.guard.Some?) && !Conflicts(m, resp)
  }

  /** Chain `c` with every block from `n` on replaced. */
  function ReplacedFrom(c: Chain, n: nat): Chain {
    Chain((k: nat) => if k < n then c.at(k) else Block(c.at(k).hash + "'", c.at(k).records))
  }

  lemma ReplacedIsLinked(c: Chain, n: nat)
    ensures var d := ReplacedFrom(c, n); Linked(c, d) && Linked(d, c) && !Agree(c, d, n, n + 1)
  {
    var d := ReplacedFrom(c, n);
    forall k: nat | k >= n ensures |d.at(k).hash| == |c.at(k).hash| + 1 {
    }
    assert c.at(n) != d.at(n);
  }

  /** What detection needs, exactly: every answer that raises no conflict comes from a chain that agrees below
      the cursor iff answers carry a guard and block cursor-1 is tracked. */
  lemma DetectionNeedsTipAndGuard(m: Hashes, c: Chain, cursor: nat, guarded: bool)
    requires KeysBelow(m, cursor) && Tracks(m, c, 0) && cursor > 0
    ensures (forall d, resp ::
               Linked(c, d) && Linked(d, c) && Unnoticed(m, d, cursor, resp, guarded) ==> Agree(c, d, 0, cursor))
            <==> guarded && cursor - 1 in m
  {
    if guarded && cursor - 1 in m {
      forall d, resp | Linked(c, d) && Linked(d, c) && Unnoticed(m, d, cursor, resp, guarded)
        ensures Agree(c, d, 0, cursor)
      {
        DetectionIsExact(m, c, d, cursor, resp);
      }
    } else {
      var d := ReplacedFrom(c, cursor - 1);
      ReplacedIsLinked(c, cursor - 1);
      var guard := Guard(cursor, d.at(cursor).hash, cursor, d.at(cursor - 1).hash);
      var resp := Response(None, cursor, [], [], if guarded then Some(guard) else None);
      assert forall b :: !Mismatch(m, resp, b);
      assert Unnoticed(m, d, cursor, resp, guarded);
    }
  }

  // ---- chunks ----

  /** The chunks of one range, all of the source and its chain: non-empty, numbered in order, `max_records`
      long but for the last, which alone acks the range end; every other one acks the range start. */
  lemma {:induction false} ChunksOfRange(cfg: SourceCfg, range: BlockRange, seqNo: nat, rest: seq<Record>)
    ensures var bs := Chunked(cfg, range, seqNo, rest);
            && (bs == [] <==> rest == [])
            && forall i :: 0 <= i < |bs| ==>
                 && bs[i].source == cfg.name && bs[i].chainId == cfg.chainId
                 && bs[i].range == range && bs[i].body.Data? && bs[i].seqNo == seqNo + i
                 && 0 < |bs[i].Records()| <= Max(cfg.maxRecords, 1)
                 && (i < |bs| - 1 ==> |bs[i].Records()| == Max(cfg.maxRecords, 1))
                 && bs[i].AckBlock() == if i == |bs| - 1 then range.hi else range.lo
    decreases |rest|
  {
    if |rest| > cfg.ChunkSize() {
      var n := cfg.ChunkSize();
      var tail := Chunked(cfg, range, seqNo + 1, rest[n..]);
      ChunksOfRange(cfg, range, seqNo + 1, rest[n..]);
      assert forall i :: 0 < i <= |tail| ==> Chunked(cfg, range, seqNo, rest)[i] == tail[i - 1];
    }
  }

  /** The chunks of one range concatenate to its records. */
  lemma {:induction false} ChunksConcat(cfg: SourceCfg, range: BlockRange, seqNo: nat, rest: seq<Record>)
    ensures Concat(Chunked(cfg, range, seqNo, rest)) == rest
    decreases |rest|
  {
    var bs := Chunked(cfg, range, seqNo, rest);
    if |rest| > cfg.ChunkSize() {
      var n := cfg.ChunkSize();
      ChunksConcat(cfg, range, seqNo + 1, rest[n..]);
      assert bs[1..] == Chunked(cfg, range, seqNo + 1, rest[n..]);
    } else if rest != [] {
      assert bs[1..] == [];
    }
  }

  ghost function Concat(bs: seq<Batch>): seq<Record> {
    if bs == [] then [] else bs[0].Records() + Concat(bs[1..])
  }

  lemma {:induction false} ViewChunks(cfg: SourceCfg, out: seq<Batch>, range: BlockRange, seqNo: nat, rest: seq<Record>)
    ensures View(out + Chunked(cfg, range, seqNo, rest)) == View(out) + rest
    decreases |rest|
  {
    if rest == [] {
      assert out + [] == out;
    } else if |rest| <= cfg.ChunkSize() {
      ViewSnoc(out, Chunked(cfg, range, seqNo, rest)[0]);
    } else {
      var n := cfg.ChunkSize();
      var head := PinnedChunk(cfg, range, seqNo, rest[..n]);
      var tail := Chunked(cfg, range, seqNo + 1, rest[n..]);
      assert out + ([head] + tail) == out + [head] + tail;
      ViewSnoc(out, head);
      ViewChunks(cfg, out + [head], range, seqNo + 1, rest[n..]);
      assert View(out) + rest[..n] + rest[n..] == View(out) + rest;
    }
  }

  // ---- replay correctness ----

  /** The stream so far, rollbacks applied, is exactly chain `c`'s records on `[base, cursor)`. */
  ghost predicate Replayed(cfg: SourceCfg, c: Chain, base: nat, s: State) {
    && cfg.fromBlock <= base <= s.cursor
    && View(s.out) == Recs(c, base, s.cursor)
    && Tracks(s.hashes, c, base)
    && KeysBelow(s.hashes, s.cursor)
  }

  /** Block cursor-1 is tracked and the response carries a guard, or nothing is standing yet. */
  ghost predicate Watched(s: State, base: nat, resp: Response) {
    s.cursor == base || (s.cursor - 1 in s.hashes && resp.guard.Some?)
  }

  /** A rollback sends one batch, for the source's chain and without a range of its own, and leaves the cursor
      right after the fork unless the start block is higher. */
  lemma RollbackSends(cfg: SourceCfg, s: State, server: PageServer)
    ensures var (t, fork) := (RollbackStep(cfg, s, server), LocateFork(cfg, s.hashes, s.cursor, server));
            && t.cursor == Max(fork + 1, cfg.fromBlock) && t.out == s.out + [t.out[|t.out| - 1]]
            && var b := t.out[|t.out| - 1];
               && b.body == Control(Rollback(cfg.chainId, fork)) && b.source == cfg.name && b.chainId == cfg.chainId
               && b.range == BlockRange(fork, fork)
  {
  }

  /** A rollback keeps the stream equal to the same chain's records, whatever the sweep answered. */
  lemma RollbackKeepsReplayed(cfg: SourceCfg, c: Chain, base: nat, s: State, p: Poll)
    requires Numbered(c) && Replayed(cfg, c, base, s) && RollsBack(cfg, s, p)
    ensures var t := RollbackStep(cfg, s, p.sweep);
            && t.cursor <= s.cursor
            && Replayed(cfg, c, Min(base, t.cursor), t)
  {
    var fork := LocateFork(cfg, s.hashes, s.cursor, p.sweep);
    var b :| Mismatch(s.hashes, p.resp, b);
    assert b in s.hashes;
    ForkBelowCursor(cfg, s.hashes, s.cursor, p.sweep);
    ViewSnoc(s.out, RollbackBatch(cfg, fork));
    RetainRecs(c, base, s.cursor, fork + 1);
  }

  lemma TruncatedIsExact(d: Chain, cursor: nat, resp: Response, next: nat)
    requires Numbered(d) && Honest(d, cursor, resp) && next <= resp.nextBlock
    ensures Truncated(resp, next) == Recs(d, cursor, next)
  {
    hide Retain, Recs;
    RetainRecs(d, cursor, resp.nextBlock, next);
  }

  /** Where a recorded hash comes from. */
  lemma RecordedOrigin(m: Hashes, d: Chain, cursor: nat, resp: Response, next: nat, window: nat, k: nat)
    requires Honest(d, cursor, resp) && cursor < next
    requires k in Recorded(m, resp, next, window)
    ensures var h := Recorded(m, resp, next, window)[k];
            (k in m && m[k] == h) || (k < next && h == d.at(k).hash)
  {
    var inserted := InsertBelow(m, resp.blockHashes, next);
    InsertBelowKeys(m, resp.blockHashes, next, k);
    TrimmedKeepsHighest(InsertGuard(inserted, resp.guard, next), window);
  }

  lemma PlanStepBounds(cfg: SourceCfg, cursor: nat, nextBlock: nat, height: Option<nat>)
    ensures var step := PlanStep(cfg, cursor, nextBlock, height);
            && (step.Emit? ==> cursor < step.effectiveNext <= nextBlock)
            && (step.Emit? && cfg.toBlock.Some? ==> step.effectiveNext <= cfg.toBlock.value)
            && (step.Emit? && height.Some? ==> step.effectiveNext + cfg.confirmations <= height.value + 1)
            && (step.Finish? ==> cfg.mode == Backfill && cfg.toBlock.Some? && cfg.toBlock.value <= cursor)
  {
  }

  /** Block `n` may be emitted up to: the response and `to_block` reach it and the blocks below it are
      confirmed. */
  ghost predicate MayEmitTo(cfg: SourceCfg, nextBlock: nat, height: Option<nat>, n: nat) {
    && n <= nextBlock
    && (cfg.toBlock.Some? ==> n <= cfg.toBlock.value)
    && (height.Some? ==> n + cfg.confirmations <= height.value + 1)
  }

  /** The planner emits as far as it may: an emit step ends at the highest permitted block, and without one
      above the cursor it finishes iff the backfill is at its end, and waits otherwise. */
  lemma PlanStepIsMaximal(cfg: SourceCfg, cursor: nat, nextBlock: nat, height: Option<nat>)
    ensures var step := PlanStep(cfg, cursor, nextBlock, height);
            && (step.Emit? <==> exists n: nat :: n > cursor && MayEmitTo(cfg, nextBlock, height, n))
            && (step.Emit? ==> MayEmitTo(cfg, nextBlock, height, step.effectiveNext)
                               && forall n: nat :: MayEmitTo(cfg, nextBlock, height, n) ==> n <= step.effectiveNext)
            && (step.Finish? <==>
                 !step.Emit? && cfg.mode == Backfill && cfg.toBlock.Some? && cfg.toBlock.value <= cursor)
  {
    var step := PlanStep(cfg, cursor, nextBlock, height);
    if step.Emit? {
      assert MayEmitTo(cfg, nextBlock, height, step.effectiveNext);
    }
  }

  /** Emitting from chain `d` moves the stream over to `d` when `d` agrees with the old chain on
      what was already emitted. */
  lemma EmitKeepsReplayed(cfg: SourceCfg, c: Chain, d: Chain, base: nat, s: State, resp: Response, next: nat)
    requires Numbered(d) && Replayed(cfg, c, base, s) && Honest(d, s.cursor, resp)
    requires Agree(c, d, base, s.cursor)
    requires s.cursor < next <= resp.nextBlock
    ensures Replayed(cfg, d, base, EmitStep(cfg, s, resp, next))
  {
    var t := EmitStep(cfg, s, resp, next);
    var range := BlockRange(s.cursor, next);
    TruncatedIsExact(d, s.cursor, resp, next);
    ViewChunks(cfg, s.out, range, 0, Truncated(resp, next));
    ViewSnoc(s.out + Chunked(cfg, range, 0, Truncated(resp, next)), EofBatch(cfg, next));
    RecsAgree(c, d, base, s.cursor);
    RecsSplit(d, base, s.cursor, next);
    if cfg.reorgEnabled {
      forall k | k in t.hashes ensures k < next && (base <= k ==> t.hashes[k] == d.at(k).hash) {
        RecordedOrigin(s.hashes, d, s.cursor, resp, next, cfg.Window(), k);
        if base <= k < s.cursor {
          assert c.at(k) == d.at(k);
        }
      }
    }
  }

  /** The guard pins everything already emitted. */
  lemma WatchedMeansAgree(cfg: SourceCfg, c: Chain, d: Chain, base: nat, s: State, resp: Response)
    requires Replayed(cfg, c, base, s) && Honest(d, s.cursor, resp) && Linked(c, d)
    requires Watched(s, base, resp) && !Conflicts(s.hashes, resp)
    ensures Agree(c, d, base, s.cursor)
  {
    if s.cursor > base {
      assert !Mismatch(s.hashes, resp, s.cursor - 1);
      assert !GuardMismatch(s.hashes, resp.guard, s.cursor - 1);
      assert c.at(s.cursor - 1).hash == d.at(s.cursor - 1).hash;
    }
  }

  lemma PollKeepsReplayed(cfg: SourceCfg, c: Chain, d: Chain, base: nat, s: State, p: Poll) returns (c': Chain)
    requires Numbered(c) && Numbered(d) && Linked(c, d) && cfg.reorgEnabled
    requires Replayed(cfg, c, base, s)
    requires p.Answer? ==> Honest(d, s.cursor, p.resp)
    requires Emits(cfg, s, p) ==> Watched(s, base, p.resp)
    ensures c' == if Emits(cfg, s, p) then d else c
    ensures var t := PollStep(cfg, s, p); Replayed(cfg, c', Min(base, t.cursor), t)
  {
    c' := c;
    if RollsBack(cfg, s, p) {
      RollbackKeepsReplayed(cfg, c, base, s, p);
    } else if Emits(cfg, s, p) {
      PlanStepBounds(cfg, s.cursor, p.resp.nextBlock, p.resp.archiveHeight);
      WatchedMeansAgree(cfg, c, d, base, s, p.resp);
      var next := PlanStep(cfg, s.cursor, p.resp.nextBlock, p.resp.archiveHeight).effectiveNext;
      EmitKeepsReplayed(cfg, c, d, base, s, p.resp, next);
      c' := d;
    } else {
      ViewSnoc(s.out, EofBatch(cfg, s.cursor));
    }
  }

  // ---- runs ----

  /** The states the loop goes through, one more than it makes polls. */
  ghost predicate IsRun(cfg: SourceCfg, states: seq<State>, polls: seq<Poll>) {
    && |states| == |polls| + 1
    && forall i {:trigger polls[i]} :: 0 <= i < |polls| ==> states[i + 1] == PollStep(cfg, states[i], polls[i])
  }

  ghost function Trace(cfg: SourceCfg, s: State, polls: seq<Poll>): seq<State>
    decreases |polls|
  {
    [s] + if polls == [] then [] else Trace(cfg, PollStep(cfg, s, polls[0]), polls[1..])
  }

  /** The loop passes through its trace and stops at the last state of it. */
  lemma {:induction false} TraceIsRun(cfg: SourceCfg, s: State, polls: seq<Poll>)
    ensures var states := Trace(cfg, s, polls);
            IsRun(cfg, states, polls) && states[0] == s && states[|polls|] == Run(cfg, s, polls)
    decreases |polls|
  {
    if polls != [] {
      var t := PollStep(cfg, s, polls[0]);
      TraceIsRun(cfg, t, polls[1..]);
      forall i | 0 <= i < |polls|
        ensures Trace(cfg, s, polls)[i + 1] == PollStep(cfg, Trace(cfg, s, polls)[i], polls[i])
      {
        if i > 0 {
          assert polls[i] == polls[1..][i - 1];
        }
      }
    }
  }

  lemma {:induction false} RunAppend(cfg: SourceCfg, s: State, a: seq<Poll>, b: seq<Poll>)
    ensures Run(cfg, s, a + b) == Run(cfg, Run(cfg, s, a), b)
    decreases |a|
  {
    if a == [] {
      assert a + b == b;
    } else {
      assert (a + b)[1..] == a[1..] + b;
      RunAppend(cfg, PollStep(cfg, s, a[0]), a[1..], b);
    }
  }

  lemma {:induction false} DoneIsFinal(cfg: SourceCfg, s: State, polls: seq<Poll>)
    requires s.done
    ensures Run(cfg, s, polls) == s
    decreases |polls|
  {
    if polls != [] {
      DoneIsFinal(cfg, s, polls[1..]);
    }
  }

  /** Once told to stop the source sends nothing more, not even an EOF, and stays where it is. */
  lemma StopIsFinal(cfg: SourceCfg, s: State, before: seq<Poll>, after: seq<Poll>)
    ensures var (t, u) := (Run(cfg, s, before), Run(cfg, s, before + [Stop] + after));
            u.done && u.out == t.out && u.cursor == t.cursor && u.hashes == t.hashes
  {
    var t := Run(cfg, s, before);
    RunAppend(cfg, s, before + [Stop], after);
    RunAppend(cfg, s, before, [Stop]);
    assert [Stop][1..] == [];
    assert Run(cfg, t, [Stop]) == PollStep(cfg, t, Stop);
    DoneIsFinal(cfg, PollStep(cfg, t, Stop), after);
  }

  /** The lowest point the cursor has stood at up to state `k`. */
  ghost function Lowest(states: seq<State>, k: nat): nat
    requires k < |states|
  {
    if k == 0 then states[0].cursor else Min(Lowest(states, k - 1), states[k].cursor)
  }

  ghost predicate Versions(chains: seq<Chain>) {
    && (forall i :: 0 <= i < |chains| ==> Numbered(chains[i]))
    && (forall i, j :: 0 <= i < |chains| && 0 <= j < |chains| ==> Linked(chains[i], chains[j]))
  }

  /** Nothing sent yet, and the restored window lies below the cursor. */
  ghost predicate StartsClean(cfg: SourceCfg, s: State) {
    cfg.fromBlock <= s.cursor && KeysBelow(s.hashes, s.cursor) && s.out == []
  }

  /** The i-th answer describes the i-th chain. */
  ghost predicate HonestAnswers(states: seq<State>, polls: seq<Poll>, chains: seq<Chain>) {
    && |states| == |polls| + 1 && |chains| == |polls|
    && forall i {:trigger polls[i]} :: 0 <= i < |polls| && polls[i].Answer? ==>
        Honest(chains[i], states[i].cursor, polls[i].resp)
  }

  ghost predicate WatchedRun(cfg: SourceCfg, states: seq<State>, polls: seq<Poll>) {
    && |states| == |polls| + 1
    && forall i {:trigger polls[i]} :: 0 <= i < |polls| && Emits(cfg, states[i], polls[i]) ==>
        Watched(states[i], Lowest(states, i), polls[i].resp)
  }

  lemma {:induction false} ReplayTo(cfg: SourceCfg, states: seq<State>, polls: seq<Poll>, chains: seq<Chain>, k: nat)
    returns (j: nat)
    requires IsRun(cfg, states, polls) && HonestAnswers(states, polls, chains) && WatchedRun(cfg, states, polls)
    requires chains != [] && Versions(chains) && cfg.reorgEnabled && StartsClean(cfg, states[0]) && k < |states|
    ensures j < |chains| && Replayed(cfg, chains[j], Lowest(states, k), states[k])
  {
    if k == 0 {
      j := 0;
    } else {
      j := ReplayTo(cfg, states, polls, chains, k - 1);
      var p := polls[k - 1];
      assert states[k - 1 + 1] == PollStep(cfg, states[k - 1], p);
      var c := PollKeepsReplayed(cfg, chains[j], chains[k - 1], Lowest(states, k - 1), states[k - 1], p);
      j := if c == chains[j] then j else k - 1;
    }
  }

  /** Reorg replay correctness: however the chain is replaced between polls, at every point of the run
      the emitted stream with rollbacks applied is one served chain's records on `[base, cursor)`,
      where `base` is the lowest cursor so far: no gap, no duplicate, no forked record. */
  lemma ReplayIsOneChain(cfg: SourceCfg, states: seq<State>, polls: seq<Poll>, chains: seq<Chain>, k: nat)
    requires IsRun(cfg, states, polls) && HonestAnswers(states, polls, chains) && WatchedRun(cfg, states, polls)
    requires chains != [] && Versions(chains) && cfg.reorgEnabled && StartsClean(cfg, states[0]) && k < |states|
    ensures exists j :: 0 <= j < |chains| && View(states[k].out) == Recs(chains[j], Lowest(states, k), states[k].cursor)
  {
    var j := ReplayTo(cfg, states, polls, chains, k);
  }
}

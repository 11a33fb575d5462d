/** Run-level facts about the source loop besides replay: tracker bounds, tiling, EOF, and where the
    replay hypotheses come from. */
module SourceRuns {
  import opened Common
  import opened Encoding
  import opened Reorg
  import opened Source
  import opened Replay

  // ---- the tracker over a run ----

  ghost predicate TrackerOk(cfg: SourceCfg, s: State) {
    && cfg.fromBlock <= s.cursor
    && KeysBelow(s.hashes, s.cursor)
    && |s.hashes| <= cfg.Window()
  }

  /** Every answer's guard starts no later than the cursor it was asked from. */
  ghost predicate GuardsInStep(cfg: SourceCfg, s: State, polls: seq<Poll>)
    decreases |polls|
  {
    polls != [] ==>
      && (polls[0].Answer? && polls[0].resp.guard.Some? ==> polls[0].resp.guard.value.firstBlock <= s.cursor)
      && GuardsInStep(cfg, PollStep(cfg, s, polls[0]), polls[1..])
  }

  lemma {:induction false} SubsetCard(a: set<nat>, b: set<nat>)
    requires a <= b
    ensures |a| <= |b|
  {
    if a != {} {
      var x :| x in a;
      SubsetCard(a - {x}, b - {x});
    }
  }

  lemma RecordedBelow(m: Hashes, resp: Response, next: nat, window: nat)
    requires KeysBelow(m, next) && (resp.guard.Some? ==> resp.guard.value.firstBlock <= next)
    ensures KeysBelow(Recorded(m, resp, next, window), next)
    ensures KeysBelow(InsertGuard(InsertBelow(m, resp.blockHashes, next), resp.guard, next), next)
  {
    var inserted := InsertBelow(m, resp.blockHashes, next);
    forall k | k in inserted ensures k < next {
      InsertBelowKeys(m, resp.blockHashes, next, k);
    }
    TrimmedKeepsHighest(InsertGuard(inserted, resp.guard, next), window);
  }

  /** One poll keeps the window below the cursor and within its size; a rollback never moves the
      cursor up or below `from_block`, anything else never moves it down. */
  lemma TrackerStep(cfg: SourceCfg, s: State, p: Poll)
    requires TrackerOk(cfg, s)
    requires p.Answer? && p.resp.guard.Some? ==> p.resp.guard.value.firstBlock <= s.cursor
    ensures TrackerOk(cfg, PollStep(cfg, s, p))
    ensures RollsBack(cfg, s, p) ==> cfg.fromBlock <= PollStep(cfg, s, p).cursor <= s.cursor
    ensures !RollsBack(cfg, s, p) ==> s.cursor <= PollStep(cfg, s, p).cursor
  {
    if RollsBack(cfg, s, p) {
      var b :| Mismatch(s.hashes, p.resp, b);
      assert b in s.hashes;
      ForkBelowCursor(cfg, s.hashes, s.cursor, p.sweep);
      SubsetCard(PollStep(cfg, s, p).hashes.Keys, s.hashes.Keys);
    } else if Emits(cfg, s, p) {
      PlanStepBounds(cfg, s.cursor, p.resp.nextBlock, p.resp.archiveHeight);
      var next := PlanStep(cfg, s.cursor, p.resp.nextBlock, p.resp.archiveHeight).effectiveNext;
      RecordedBelow(s.hashes, p.resp, next, cfg.Window());
      TrimmedKeepsHighest(InsertGuard(InsertBelow(s.hashes, p.resp.blockHashes, next), p.resp.guard, next),
          cfg.Window());
    }
  }

  /** An emission leaves the highest blocks of what was tracked and what the answer adds, as many as the
      configured window holds; without reorg tracking nothing is recorded. */
  lemma EmitFillsWindow(cfg: SourceCfg, s: State, p: Poll)
    requires Emits(cfg, s, p)
    ensures var t := PollStep(cfg, s, p);
            var full := InsertGuard(InsertBelow(s.hashes, p.resp.blockHashes, t.cursor), p.resp.guard, t.cursor);
            if cfg.reorgEnabled
            then |t.hashes| == Min(|full|, Max(cfg.reorgWindow, 1)) && KeepsHighest(full, t.hashes)
            else t.hashes == s.hashes
  {
    RecordedMeaning(s.hashes, p.resp, PollStep(cfg, s, p).cursor, cfg.Window());
  }

  /** The tracker invariant holds after every run. */
  lemma {:induction false} TrackerRun(cfg: SourceCfg, s: State, polls: seq<Poll>)
    requires TrackerOk(cfg, s) && GuardsInStep(cfg, s, polls)
    ensures TrackerOk(cfg, Run(cfg, s, polls))
    decreases |polls|
  {
    if polls != [] {
      TrackerStep(cfg, s, polls[0]);
      TrackerRun(cfg, PollStep(cfg, s, polls[0]), polls[1..]);
    }
  }

  /** The server lists only blocks below the end of the requested range. */
  ghost predicate PagesBelow(server: PageServer, to: nat) {
    forall a: nat, c: nat, i ::
      server(a, c).Ok? && 0 <= i < |server(a, c).value.hashes| ==> server(a, c).value.hashes[i].0 < to
  }

  ghost predicate RewindStaysBack(cfg: SourceCfg, s: State, p: Poll) {
    p.Answer? && PagesBelow(p.sweep, s.cursor) && RollsBack(cfg, s, p) ==>
        RollbackStep(cfg, s, p.sweep).cursor <= s.cursor
  }

  lemma {:induction false} SweepBelow(server: PageServer, attempt: nat, cursor: nat, to: nat, bound: nat)
    requires PagesBelow(server, bound)
    ensures var r := Sweep(server, attempt, cursor, to);
            r.Ok? ==> forall i :: 0 <= i < |r.value| ==> r.value[i].0 < bound
    decreases if cursor < to then to - cursor else 0
  {
    if cursor < to && server(attempt, cursor).Ok? && server(attempt, cursor).value.nextBlock > cursor {
      SweepBelow(server, attempt + 1, server(attempt, cursor).value.nextBlock, to, bound);
    }
  }

  /** The lowest tracked block is below the cursor (or at it, above block 0), or nothing is tracked. */
  ghost predicate WindowStartsBelow(s: State) {
    s.hashes == map[] || MinKey(s.hashes.Keys) < s.cursor || (MinKey(s.hashes.Keys) == s.cursor && s.cursor > 0)
  }

  lemma FoundForkBelow(m: Hashes, cursor: nat, server: PageServer)
    requires PagesBelow(server, cursor) && FoundFork(m, cursor, server).Some?
    ensures FoundFork(m, cursor, server).value < cursor
  {
    SweepBelow(server, 0, MinKey(m.Keys), cursor, cursor);
    var pairs := Sweep(server, 0, MinKey(m.Keys), cursor).value;
    CollectedKeysListed(pairs, FoundFork(m, cursor, server).value);
  }

  lemma LowWindowStaysBack(cfg: SourceCfg, s: State, p: Poll)
    requires cfg.fromBlock <= s.cursor && WindowStartsBelow(s)
    ensures RewindStaysBack(cfg, s, p)
  {
    if p.Answer? && PagesBelow(p.sweep, s.cursor) && RollsBack(cfg, s, p) {
      var b :| Mismatch(s.hashes, p.resp, b);
      assert b in s.hashes;
      if FoundFork(s.hashes, s.cursor, p.sweep).Some? {
        FoundForkBelow(s.hashes, s.cursor, p.sweep);
      }
    }
  }

  lemma HighWindowJumps(cfg: SourceCfg, s: State)
    requires !s.done && cfg.reorgEnabled && !WindowStartsBelow(s)
    ensures exists p :: !RewindStaysBack(cfg, s, p)
  {
    var low := MinKey(s.hashes.Keys);
    var resp := Response(None, 0, [], [(low, s.hashes[low] + "'")], None);
    var silent: PageServer := (a, c) => Err(());
    assert PairMismatch(s.hashes, resp.blockHashes[0], low);
    assert Mismatch(s.hashes, resp, low);
    assert RollsBack(cfg, s, Answer(resp, silent));
    assert FoundFork(s.hashes, s.cursor, silent).None?;
    assert !RewindStaysBack(cfg, s, Answer(resp, silent));
  }

  /** A rollback can move the cursor forward, skipping blocks, exactly when the lowest tracked block
      lies above the cursor (or is block 0 with the cursor there). A window restored from a run that
      persisted it ahead of the cursors is such a state. */
  lemma RewindNeverForwardIff(cfg: SourceCfg, s: State)
    requires !s.done && cfg.reorgEnabled && cfg.fromBlock <= s.cursor
    ensures (forall p :: RewindStaysBack(cfg, s, p)) <==> WindowStartsBelow(s)
  {
    if WindowStartsBelow(s) {
      forall p ensures RewindStaysBack(cfg, s, p) {
        LowWindowStaysBack(cfg, s, p);
      }
    } else {
      HighWindowJumps(cfg, s);
    }
  }

  lemma {:induction false} CollectedKeysListed(pairs: seq<(nat, string)>, n: nat)
    requires n in Collected(pairs)
    ensures exists i :: 0 <= i < |pairs| && pairs[i].0 == n
  {
    if n != pairs[|pairs| - 1].0 {
      CollectedKeysListed(pairs[..|pairs| - 1], n);
      var i :| 0 <= i < |pairs| - 1 && pairs[..|pairs| - 1][i].0 == n;
      assert pairs[i].0 == n;
    }
  }

  // ---- tiling without reorgs ----

  datatype Emission = Emission(range: BlockRange, height: Option<nat>)

  /** The ranges a run emits, with the head each answer reported. */
  ghost function Emissions(cfg: SourceCfg, s: State, polls: seq<Poll>): seq<Emission>
    decreases |polls|
  {
    if polls == [] then [] else
      var t := PollStep(cfg, s, polls[0]);
      var rest := Emissions(cfg, t, polls[1..]);
      if !Emits(cfg, s, polls[0]) then rest
      else [Emission(BlockRange(s.cursor, t.cursor), polls[0].resp.archiveHeight)] + rest
  }

  /** No poll of the run finds a reorg. */
  ghost predicate Undisturbed(cfg: SourceCfg, s: State, polls: seq<Poll>)
    decreases |polls|
  {
    polls != [] ==> !RollsBack(cfg, s, polls[0]) && Undisturbed(cfg, PollStep(cfg, s, polls[0]), polls[1..])
  }

  ghost predicate Abut(es: seq<Emission>, lo: nat, hi: nat) {
    if es == [] then lo == hi
    else es[0].range.lo == lo && lo < es[0].range.hi && Abut(es[1..], es[0].range.hi, hi)
  }

  ghost predicate InBounds(cfg: SourceCfg, e: Emission) {
    && (e.height.Some? ==> e.range.hi + cfg.confirmations <= e.height.value + 1)
    && (cfg.toBlock.Some? ==> e.range.hi <= cfg.toBlock.value)
  }

  /** Without rollbacks the emitted ranges tile `[start, cursor)`, stay behind the confirmation lag
      and inside `to_block`, and there are at most as many as blocks walked. */
  lemma {:induction false} EmissionsTile(cfg: SourceCfg, s: State, polls: seq<Poll>)
    requires Undisturbed(cfg, s, polls)
    ensures var (es, t) := (Emissions(cfg, s, polls), Run(cfg, s, polls));
            && Abut(es, s.cursor, t.cursor)
            && |es| <= t.cursor - s.cursor
            && (forall i :: 0 <= i < |es| ==> InBounds(cfg, es[i]))
            && (cfg.toBlock.Some? && s.cursor <= cfg.toBlock.value ==> t.cursor <= cfg.toBlock.value)
    decreases |polls|
  {
    if polls != [] {
      var p, t := polls[0], PollStep(cfg, s, polls[0]);
      if p.Answer? {
        PlanStepBounds(cfg, s.cursor, p.resp.nextBlock, p.resp.archiveHeight);
      }
      EmissionsTile(cfg, t, polls[1..]);
      if Emits(cfg, s, p) {
        var es := Emissions(cfg, s, polls);
        assert es[1..] == Emissions(cfg, t, polls[1..]);
      }
    }
  }

  /** `b` is a chunk of one of the emitted ranges. */
  ghost predicate ChunkOf(es: seq<Emission>, b: Batch) {
    && b.body.Data? && (b.AckBlock() == b.range.lo || b.AckBlock() == b.range.hi)
    && exists i :: 0 <= i < |es| && es[i].range == b.range
  }

  /** The source's EOF for its backfill, acking the cursor. */
  ghost predicate EofAt(cfg: SourceCfg, b: Batch, cursor: nat) {
    && b.body == Control(Eof(cfg.name, cursor)) && b.source == cfg.name && b.chainId == cfg.chainId
    && b.AckBlock() == cursor && cfg.mode == Backfill && cfg.toBlock.Some? && cfg.toBlock.value <= cursor
  }

  /** A chunk of exactly this range. */
  ghost predicate ChunkIn(range: BlockRange, b: Batch) {
    b.body.Data? && b.range == range && (b.AckBlock() == range.lo || b.AckBlock() == range.hi)
  }

  lemma ChunksStayIn(cfg: SourceCfg, range: BlockRange, records: seq<Record>)
    ensures forall j :: 0 <= j < |Chunked(cfg, range, 0, records)| ==>
            ChunkIn(range, Chunked(cfg, range, 0, records)[j])
  {
    ChunksOfRange(cfg, range, 0, records);
    var chunks := Chunked(cfg, range, 0, records);
    forall j | 0 <= j < |chunks| ensures ChunkIn(range, chunks[j]) {
      assert j == |chunks| - 1 || j < |chunks| - 1;
    }
  }

  /** What one poll adds to the stream. */
  lemma StepShape(cfg: SourceCfg, s: State, p: Poll)
    requires !RollsBack(cfg, s, p)
    ensures var t := PollStep(cfg, s, p);
            && s.out <= t.out
            && forall j :: |s.out| <= j < |t.out| ==>
                 || (Emits(cfg, s, p) && ChunkIn(BlockRange(s.cursor, t.cursor), t.out[j]))
                 || (j == |t.out| - 1 && t.done && EofAt(cfg, t.out[j], t.cursor))
  {
    var t := PollStep(cfg, s, p);
    if p.Answer? {
      PlanStepBounds(cfg, s.cursor, p.resp.nextBlock, p.resp.archiveHeight);
    }
    if Emits(cfg, s, p) {
      var range := BlockRange(s.cursor, t.cursor);
      var chunks := Chunked(cfg, range, 0, Truncated(p.resp, t.cursor));
      ChunksStayIn(cfg, range, Truncated(p.resp, t.cursor));
      assert forall j :: |s.out| <= j < |s.out| + |chunks| ==> t.out[j] == chunks[j - |s.out|];
    }
  }

  lemma LaterChunk(e: seq<Emission>, later: seq<Emission>, b: Batch)
    requires ChunkOf(later, b)
    ensures ChunkOf(e + later, b)
  {
    var i :| 0 <= i < |later| && later[i].range == b.range;
    assert (e + later)[|e| + i].range == b.range;
  }

  /** Everything a run sends is a chunk of an emitted range, except one final EOF, which a backfill
      sends only with the cursor at or past `to_block`; after it nothing is sent. */
  lemma {:induction false} StreamShape(cfg: SourceCfg, s: State, polls: seq<Poll>)
    requires Undisturbed(cfg, s, polls)
    ensures s.out <= Run(cfg, s, polls).out
    ensures s.done ==> Run(cfg, s, polls) == s
    ensures forall j :: |s.out| <= j < |Run(cfg, s, polls).out| ==>
              || ChunkOf(Emissions(cfg, s, polls), Run(cfg, s, polls).out[j])
              || (j == |Run(cfg, s, polls).out| - 1 && Run(cfg, s, polls).done
                  && EofAt(cfg, Run(cfg, s, polls).out[j], Run(cfg, s, polls).cursor))
    decreases |polls|
  {
    if polls != [] {
      var p, mid := polls[0], PollStep(cfg, s, polls[0]);
      var es, later, t := Emissions(cfg, s, polls), Emissions(cfg, mid, polls[1..]), Run(cfg, s, polls);
      StepShape(cfg, s, p);
      StreamShape(cfg, mid, polls[1..]);
      var first := if Emits(cfg, s, p) then [es[0]] else [];
      assert es == first + later;
      forall j | |mid.out| <= j < |t.out| && ChunkOf(later, t.out[j]) ensures ChunkOf(es, t.out[j]) {
        LaterChunk(first, later, t.out[j]);
      }
      forall j | |s.out| <= j < |mid.out| && Emits(cfg, s, p) && ChunkIn(BlockRange(s.cursor, mid.cursor), mid.out[j])
        ensures ChunkOf(es, t.out[j])
      {
        assert es[0].range == mid.out[j].range;
      }
    }
  }

  // ---- a backfill ends ----

  /** The blocks below the end of the range are confirmed as far as the answer knows. */
  ghost predicate RangeConfirmed(cfg: SourceCfg, resp: Response) {
    cfg.toBlock.Some? && (resp.archiveHeight.Some? ==>
        cfg.toBlock.value + cfg.confirmations <= resp.archiveHeight.value + 1)
  }

  /** The source has stopped at the end of its range, or where it stood if that was past it, and the last
      thing it sent says so. */
  ghost predicate Ended(cfg: SourceCfg, start: nat, t: State) {
    && cfg.toBlock.Some? && t.done && t.cursor == Max(start, cfg.toBlock.value)
    && t.out != [] && EofAt(cfg, t.out[|t.out| - 1], t.cursor)
  }

  /** A backfill ends at the first answer that reaches `to_block` with the range confirmed. */
  lemma ReachingTheEndEnds(cfg: SourceCfg, s: State, p: Poll)
    requires cfg.mode == Backfill && !s.done && p.Answer? && !RollsBack(cfg, s, p) && RangeConfirmed(cfg, p.resp)
    requires p.resp.nextBlock >= cfg.toBlock.value
    ensures Ended(cfg, s.cursor, PollStep(cfg, s, p))
  {
    PlanStepIsMaximal(cfg, s.cursor, p.resp.nextBlock, p.resp.archiveHeight);
    if s.cursor < cfg.toBlock.value {
      assert MayEmitTo(cfg, p.resp.nextBlock, p.resp.archiveHeight, cfg.toBlock.value);
    }
  }

  /** The source ends only when told to, or with its EOF at the end of a backfill: a failed query, a stalled
      server or a reorg never ends it. */
  lemma {:induction false} EndsOnlyWhenToldOrFinished(cfg: SourceCfg, s: State, polls: seq<Poll>)
    requires !s.done
    ensures var t := Run(cfg, s, polls);
            t.done ==> Stop in polls || (t.out != [] && EofAt(cfg, t.out[|t.out| - 1], t.cursor))
    decreases |polls|
  {
    if polls != [] {
      var t := PollStep(cfg, s, polls[0]);
      if t.done {
        DoneIsFinal(cfg, t, polls[1..]);
      } else {
        EndsOnlyWhenToldOrFinished(cfg, t, polls[1..]);
        assert Stop in polls[1..] ==> Stop in polls;
      }
    }
  }

  /** Every poll is answered past the cursor, with the range confirmed. */
  ghost predicate Progressing(cfg: SourceCfg, s: State, polls: seq<Poll>)
    decreases |polls|
  {
    polls != [] ==>
      && polls[0].Answer? && polls[0].resp.nextBlock > s.cursor && RangeConfirmed(cfg, polls[0].resp)
      && Progressing(cfg, PollStep(cfg, s, polls[0]), polls[1..])
  }

  /** While no poll finds a reorg, a backfill whose answers make progress ends within as many polls as its range
      has blocks, or one if it has none left, with its EOF sent. */
  lemma {:induction false} BackfillFinishes(cfg: SourceCfg, s: State, polls: seq<Poll>)
    requires cfg.mode == Backfill && cfg.toBlock.Some? && !s.done
    requires Undisturbed(cfg, s, polls) && Progressing(cfg, s, polls)
    requires |polls| >= Max(1, SaturatingSub(cfg.toBlock.value, s.cursor))
    ensures Ended(cfg, s.cursor, Run(cfg, s, polls))
    decreases |polls|
  {
    var p, t := polls[0], PollStep(cfg, s, polls[0]);
    if p.resp.nextBlock >= cfg.toBlock.value {
      ReachingTheEndEnds(cfg, s, p);
      StreamShape(cfg, t, polls[1..]);
    } else {
      PlanStepIsMaximal(cfg, s.cursor, p.resp.nextBlock, p.resp.archiveHeight);
      assert MayEmitTo(cfg, p.resp.nextBlock, p.resp.archiveHeight, p.resp.nextBlock);
      assert !t.done && s.cursor < t.cursor < cfg.toBlock.value;
      BackfillFinishes(cfg, t, polls[1..]);
    }
  }

  // ---- a chain that does not change ----

  /** Every answer of the run describes chain `c`. */
  ghost predicate HonestRun(c: Chain, states: seq<State>, polls: seq<Poll>) {
    && |states| == |polls| + 1
    && forall i {:trigger polls[i]} :: 0 <= i < |polls| && polls[i].Answer? ==>
        Honest(c, states[i].cursor, polls[i].resp)
  }

  lemma HonestNeverConflicts(cfg: SourceCfg, c: Chain, s: State, p: Poll)
    requires Tracks(s.hashes, c, 0) && (p.Answer? ==> Honest(c, s.cursor, p.resp))
    ensures !RollsBack(cfg, s, p)
  {
    if p.Answer? {
      forall b ensures !Mismatch(s.hashes, p.resp, b) {
      }
    }
  }

  /** One poll of an unchanging chain. */
  lemma FixedChainStep(cfg: SourceCfg, c: Chain, base: nat, s: State, p: Poll)
    requires Numbered(c) && Replayed(cfg, c, base, s) && Tracks(s.hashes, c, 0)
    requires p.Answer? ==> Honest(c, s.cursor, p.resp)
    ensures var t := PollStep(cfg, s, p);
            && !RollsBack(cfg, s, p) && Replayed(cfg, c, base, t) && Tracks(t.hashes, c, 0) && s.cursor <= t.cursor
            && (cfg.toBlock.Some? && s.cursor <= cfg.toBlock.value ==> t.cursor <= cfg.toBlock.value)
  {
    var t := PollStep(cfg, s, p);
    HonestNeverConflicts(cfg, c, s, p);
    if Emits(cfg, s, p) {
      PlanStepBounds(cfg, s.cursor, p.resp.nextBlock, p.resp.archiveHeight);
      EmitKeepsReplayed(cfg, c, c, base, s, p.resp, t.cursor);
      if cfg.reorgEnabled {
        forall k | k in t.hashes ensures t.hashes[k] == c.at(k).hash {
          RecordedOrigin(s.hashes, c, s.cursor, p.resp, t.cursor, cfg.Window(), k);
        }
      }
    } else {
      ViewSnoc(s.out, EofBatch(cfg, s.cursor));
    }
  }

  /** On a chain that does not change no rollback is ever emitted and the stream is exactly the
      chain's records from the start to the cursor. */
  lemma {:induction false} FixedChainStream(cfg: SourceCfg, c: Chain, states: seq<State>, polls: seq<Poll>, k: nat)
    requires Numbered(c) && IsRun(cfg, states, polls) && HonestRun(c, states, polls) && k < |states|
    requires StartsClean(cfg, states[0]) && Tracks(states[0].hashes, c, 0)
    ensures Replayed(cfg, c, states[0].cursor, states[k]) && Tracks(states[k].hashes, c, 0)
    ensures View(states[k].out) == Recs(c, states[0].cursor, states[k].cursor)
    ensures forall i {:trigger polls[i]} :: 0 <= i < k ==> !RollsBack(cfg, states[i], polls[i])
    ensures cfg.toBlock.Some? && states[0].cursor <= cfg.toBlock.value ==> states[k].cursor <= cfg.toBlock.value
  {
    hide PollStep, RollsBack, Honest;
    if k > 0 {
      FixedChainStream(cfg, c, states, polls, k - 1);
      assert states[k - 1 + 1] == PollStep(cfg, states[k - 1], polls[k - 1]);
      FixedChainStep(cfg, c, states[0].cursor, states[k - 1], polls[k - 1]);
    }
  }

  /** A backfill that has reached its end has sent the whole configured range, once and in order. */
  lemma BackfillDeliversRange(cfg: SourceCfg, c: Chain, states: seq<State>, polls: seq<Poll>, k: nat)
    requires Numbered(c) && IsRun(cfg, states, polls) && HonestRun(c, states, polls) && k < |states|
    requires StartsClean(cfg, states[0]) && Tracks(states[0].hashes, c, 0)
    requires cfg.toBlock.Some? && states[0].cursor <= cfg.toBlock.value && cfg.AtEnd(states[k].cursor)
    ensures View(states[k].out) == Recs(c, states[0].cursor, cfg.toBlock.value)
  {
    FixedChainStream(cfg, c, states, polls, k);
  }

  // ---- when polls are watched ----

  /** The response names the hash of block `n`. */
  ghost predicate NamesHash(resp: Response, n: nat) {
    || (exists i :: 0 <= i < |resp.blockHashes| && resp.blockHashes[i].0 == n)
    || (resp.guard.Some? && resp.guard.value.blockNumber == n)
  }

  ghost predicate Guarded(s: State, base: nat) {
    s.cursor == base || s.cursor - 1 in s.hashes
  }

  /** A condition on the answer alone: if it makes the source emit it carries a guard and the hash of
      the last block emitted; if it makes it roll back, a surviving block is found or the source
      rewinds to its lowest cursor. */
  ghost predicate GoodAnswer(cfg: SourceCfg, s: State, base: nat, p: Poll) {
    && (Emits(cfg, s, p) ==> p.resp.guard.Some? && NamesHash(p.resp, PollStep(cfg, s, p).cursor - 1))
    && (RollsBack(cfg, s, p) ==> FoundFork(s.hashes, s.cursor, p.sweep).Some? || PollStep(cfg, s, p).cursor <= base)
  }

  ghost predicate GoodAnswers(cfg: SourceCfg, states: seq<State>, polls: seq<Poll>) {
    && |states| == |polls| + 1
    && forall i {:trigger polls[i]} :: 0 <= i < |polls| ==> GoodAnswer(cfg, states[i], Lowest(states, i), polls[i])
  }

  lemma EmittedTipIsTracked(cfg: SourceCfg, s: State, resp: Response, next: nat)
    requires cfg.reorgEnabled && KeysBelow(s.hashes, s.cursor) && s.cursor < next && NamesHash(resp, next - 1)
    requires resp.guard.Some? && resp.guard.value.firstBlock == s.cursor
    ensures next - 1 in EmitStep(cfg, s, resp, next).hashes
  {
    hide Chunked, Truncated, Trimmed;
    RecordedBelow(s.hashes, resp, next, cfg.Window());
    InsertBelowKeys(s.hashes, resp.blockHashes, next, next - 1);
    var inserted := InsertGuard(InsertBelow(s.hashes, resp.blockHashes, next), resp.guard, next);
    HighestSurvivesTrim(inserted, cfg.Window(), next - 1);
  }

  lemma GoodAnswerKeepsGuarded(cfg: SourceCfg, d: Chain, s: State, base: nat, p: Poll)
    requires cfg.reorgEnabled && TrackerOk(cfg, s) && cfg.fromBlock <= base <= s.cursor && Guarded(s, base)
    requires GoodAnswer(cfg, s, base, p) && (p.Answer? ==> Honest(d, s.cursor, p.resp))
    ensures var t := PollStep(cfg, s, p); TrackerOk(cfg, t) && Guarded(t, Min(base, t.cursor))
  {
    var t := PollStep(cfg, s, p);
    TrackerStep(cfg, s, p);
    if Emits(cfg, s, p) {
      PlanStepBounds(cfg, s.cursor, p.resp.nextBlock, p.resp.archiveHeight);
      EmittedTipIsTracked(cfg, s, p.resp, t.cursor);
    } else if RollsBack(cfg, s, p) && FoundFork(s.hashes, s.cursor, p.sweep).Some? {
      var fork := FoundFork(s.hashes, s.cursor, p.sweep).value;
      assert fork in s.hashes;
      assert t.cursor == fork + 1 ==> t.cursor - 1 in t.hashes;
    }
  }

  lemma {:induction false} GoodAnswersKeepGuarded(cfg: SourceCfg, states: seq<State>, polls: seq<Poll>,
                                                  chains: seq<Chain>, k: nat)
    requires IsRun(cfg, states, polls) && HonestAnswers(states, polls, chains) && GoodAnswers(cfg, states, polls)
    requires cfg.reorgEnabled && TrackerOk(cfg, states[0]) && k < |states|
    ensures TrackerOk(cfg, states[k]) && cfg.fromBlock <= Lowest(states, k) <= states[k].cursor
            && Guarded(states[k], Lowest(states, k))
  {
    if k > 0 {
      GoodAnswersKeepGuarded(cfg, states, polls, chains, k - 1);
      assert states[k - 1 + 1] == PollStep(cfg, states[k - 1], polls[k - 1]);
      GoodAnswerKeepsGuarded(cfg, chains[k - 1], states[k - 1], Lowest(states, k - 1), polls[k - 1]);
    }
  }

  /** Replay correctness from conditions on the answers alone. */
  lemma ReplayFromGoodAnswers(cfg: SourceCfg, states: seq<State>, polls: seq<Poll>, chains: seq<Chain>, k: nat)
    requires IsRun(cfg, states, polls) && HonestAnswers(states, polls, chains) && GoodAnswers(cfg, states, polls)
    requires chains != [] && Versions(chains) && cfg.reorgEnabled && k < |states|
    requires TrackerOk(cfg, states[0]) && states[0].out == []
    ensures exists j :: 0 <= j < |chains| && View(states[k].out) == Recs(chains[j], Lowest(states, k), states[k].cursor)
  {
    forall i {:trigger polls[i]} | 0 <= i < |polls| && Emits(cfg, states[i], polls[i])
      ensures Watched(states[i], Lowest(states, i), polls[i].resp)
    {
      GoodAnswersKeepGuarded(cfg, states, polls, chains, i);
    }
    ReplayIsOneChain(cfg, states, polls, chains, k);
  }

  // ---- the hypotheses are needed ----

  /** Block 0 of version `a`, then block 1 of version `b`, with no hashes. */
  function MixedPolls(a: seq<Record>, b: seq<Record>): seq<Poll> {
    var none: PageServer := (i, c) => Err(());
    [Answer(Response(None, 1, a, [], None), none), Answer(Response(None, 2, b, [], None), none)]
  }

  ghost predicate AnswersFor(d: Chain, cursor: nat, p: Poll) {
    p.Answer? && Honest(d, cursor, p.resp)
  }

  /** With block cursor-1 untracked a replaced chain goes unnoticed: block 0 of the first version stays
      in the stream next to block 1 of the second, and the stream is no version's history. */
  lemma UntrackedParentMixesChains(cfg: SourceCfg, a: Chain, b: Chain)
    requires cfg.reorgEnabled && cfg.fromBlock == 0 && cfg.toBlock.None? && cfg.confirmations == 0
    requires Numbered(a) && Numbered(b) && Linked(a, b) && Linked(b, a)
    requires a.at(0).records != b.at(0).records && |a.at(0).records| == |b.at(0).records|
    requires a.at(1).records != b.at(1).records && |a.at(1).records| == |b.at(1).records|
    ensures var polls := MixedPolls(Recs(a, 0, 1), Recs(b, 1, 2));
            var t := Run(cfg, State(0, map[], false, []), polls);
            && AnswersFor(a, 0, polls[0]) && AnswersFor(b, 1, polls[1])
            && t.cursor == 2 && View(t.out) != Recs(a, 0, 2) && View(t.out) != Recs(b, 0, 2)
  {
    var polls := MixedPolls(Recs(a, 0, 1), Recs(b, 1, 2));
    var s0 := State(0, map[], false, []);
    var s1 := PollStep(cfg, s0, polls[0]);
    assert forall x :: !Mismatch(map[], polls[0].resp, x);
    assert s1 == EmitStep(cfg, s0, polls[0].resp, 1);
    ViewChunks(cfg, [], BlockRange(0, 1), 0, Recs(a, 0, 1));
    assert s1.hashes == map[];
    assert forall x :: !Mismatch(map[], polls[1].resp, x);
    var s2 := PollStep(cfg, s1, polls[1]);
    assert s2 == EmitStep(cfg, s1, polls[1].resp, 2);
    ViewChunks(cfg, s1.out, BlockRange(1, 2), 0, Recs(b, 1, 2));
    assert polls[1..] == [polls[1]] && polls[1..][1..] == [];
    assert Run(cfg, s1, polls[1..]) == s2;
    TwoBlocks(a, b);
  }

  lemma TwoBlocks(a: Chain, b: Chain)
    requires |a.at(0).records| == |b.at(0).records| && |a.at(1).records| == |b.at(1).records|
    requires a.at(0).records != b.at(0).records && a.at(1).records != b.at(1).records
    ensures Recs(a, 0, 1) == a.at(0).records && Recs(b, 1, 2) == b.at(1).records
    ensures a.at(0).records + b.at(1).records != Recs(a, 0, 2)
    ensures a.at(0).records + b.at(1).records != Recs(b, 0, 2)
  {
    var x, y := a.at(0).records, b.at(1).records;
    assert Recs(a, 0, 1) == x && Recs(b, 0, 1) == b.at(0).records;
    assert Recs(a, 0, 2) == x + a.at(1).records;
    assert Recs(b, 0, 2) == b.at(0).records + y;
    assert (x + y)[|x|..] == y && (x + a.at(1).records)[|x|..] == a.at(1).records;
    assert (x + y)[..|x|] == x && (b.at(0).records + y)[..|x|] == b.at(0).records;
  }

  /** A source starts at the restored or configured block, whichever is higher; a live one with neither starts
      exactly `confirmations` below the head it is told. */
  lemma StartCursorMeaning(cfg: SourceCfg, start: nat, height: Option<nat>)
    ensures var (c, floor) := (StartCursor(cfg, start, height), Max(start, cfg.fromBlock));
            var jumps := floor == 0 && cfg.mode == Live && height.Some? && height.value > cfg.confirmations;
            if jumps then c + cfg.confirmations == height.value else c == floor
  {
  }

  /** There the newest confirmed block is all it may emit, so it skips no block that is still unconfirmed. */
  lemma HeadStartIsNewestConfirmed(cfg: SourceCfg, height: nat, nextBlock: nat)
    requires cfg.mode == Live && cfg.fromBlock == 0 && cfg.toBlock.None? && height >= cfg.confirmations
    requires nextBlock > StartCursor(cfg, 0, Some(height))
    ensures var c := StartCursor(cfg, 0, Some(height)); PlanStep(cfg, c, nextBlock, Some(height)) == Emit(c + 1)
  {
  }

  /** With no start block configured a live source starts behind the head, so a fresh run can begin
      above block 0; any configured start block is honoured. */
  lemma LiveStartSkipsHistoryIff(cfg: SourceCfg)
    ensures (exists h: nat :: StartCursor(cfg, 0, Some(h)) > cfg.fromBlock) <==>
            (cfg.mode == Live && cfg.fromBlock == 0)
  {
    if cfg.mode == Live && cfg.fromBlock == 0 {
      assert StartCursor(cfg, 0, Some(cfg.confirmations + 1)) > cfg.fromBlock;
    }
  }
}

/** The source's cursor loop: plan, emit in chunks, detect reorgs, locate the fork, roll back. */
module Source {
  import opened Common
  import opened Encoding
  import opened Reorg

  datatype Mode = Backfill | Live | Both

  datatype SourceCfg = SourceCfg(
    name: string, chainId: nat, mode: Mode, fromBlock: nat, toBlock: Option<nat>,
    confirmations: nat, reorgEnabled: bool, reorgWindow: nat, maxRecords: nat)
  {
    function Window(): nat {
      Max(reorgWindow, 1)
    }

    function ChunkSize(): nat {
      Max(maxRecords, 1)
    }

    predicate AtEnd(cursor: nat) {
      mode == Backfill && toBlock.Some? && cursor >= toBlock.value
    }
  }

  // ---- planning ----

  datatype Step = Wait | Emit(effectiveNext: nat) | Finish

  function ClampTo(next: nat, bound: Option<nat>): nat {
    if bound.Some? then Min(next, bound.value) else next
  }

  /** Exclusive bound the confirmation lag imposes: one past `height - confirmations`. */
  function ConfirmedBound(height: Option<nat>, confirmations: nat): Option<nat> {
    if height.None? then None
    else if height.value >= confirmations then Some(height.value - confirmations + 1)
    else Some(0)
  }

  function PlanStep(cfg: SourceCfg, cursor: nat, nextBlock: nat, height: Option<nat>): Step {
    var next := ClampTo(ClampTo(nextBlock, ConfirmedBound(height, cfg.confirmations)), cfg.toBlock);
    if next > cursor then Emit(next)
    else if cfg.AtEnd(cursor) then Finish
    else Wait
  }

  // ---- the headers-only sweep ----

  datatype Page = Page(hashes: seq<(nat, string)>, nextBlock: nat)

  /** What the server answers to the n-th request of a sweep, sent from the given block. */
  type PageServer = (nat, nat) -> Result<Page, ()>

  /** All pairs paged from `cursor` towards `to`; stops early when the server stops advancing. */
  function Sweep(server: PageServer, attempt: nat, cursor: nat, to: nat): Result<seq<(nat, string)>, ()>
    decreases if cursor < to then to - cursor else 0
  {
    if cursor >= to then Ok([])
    else match server(attempt, cursor)
      case Err(e) => Err(e)
      case Ok(page) =>
        if page.nextBlock <= cursor then Ok(page.hashes)
        else Prepend(page.hashes, Sweep(server, attempt + 1, page.nextBlock, to))
  }

  function Prepend(a: seq<(nat, string)>, r: Result<seq<(nat, string)>, ()>): Result<seq<(nat, string)>, ()> {
    if r.Ok? then Ok(a + r.value) else r
  }

  lemma PrependNothing(r: Result<seq<(nat, string)>, ()>)
    ensures Prepend([], r) == r
  {
    if r.Ok? {
      assert [] + r.value == r.value;
    }
  }

  lemma PrependTwice(a: seq<(nat, string)>, b: seq<(nat, string)>, r: Result<seq<(nat, string)>, ()>)
    ensures Prepend(a, Prepend(b, r)) == Prepend(a + b, r)
  {
    if r.Ok? {
      assert a + (b + r.value) == a + b + r.value;
    }
  }

  /** The paging loop; it terminates because each further page starts strictly later. */
  method BlockHashes(server: PageServer, from: nat, to: nat) returns (r: Result<seq<(nat, string)>, ()>)
    ensures r == Sweep(server, 0, from, to)
  {
    var out: seq<(nat, string)> := [];
    var cursor, attempt := from, 0;
    PrependNothing(Sweep(server, 0, from, to));
    assert Prepend(out, Sweep(server, 0, from, to)) == Sweep(server, 0, from, to);
    while cursor < to
      invariant Sweep(server, 0, from, to) == Prepend(out, Sweep(server, attempt, cursor, to))
      decreases if cursor < to then to - cursor else 0
    {
      var page := server(attempt, cursor);
      if page.Err? {
        return Err(page.error);
      }
      if page.value.nextBlock > cursor {
        PrependTwice(out, page.value.hashes, Sweep(server, attempt + 1, page.value.nextBlock, to));
      }
      out := out + page.value.hashes;
      if page.value.nextBlock <= cursor {
        return Ok(out);
      }
      cursor, attempt := page.value.nextBlock, attempt + 1;
    }
    r := Ok(out);
    assert out + [] == out;
  }

  // ---- one iteration of the loop ----

  /** What one iteration is told: the stop flag, a failed query, or a response and a sweep server. */
  datatype Poll = Stop | QueryFailed | Answer(resp: Response, sweep: PageServer)

  datatype State = State(cursor: nat, hashes: Hashes, done: bool, out: seq<Batch>)

  ghost function CoarseFork(cfg: SourceCfg, m: Hashes, cursor: nat): nat {
    if m == map[] then SaturatingSub(cursor, cfg.Window() + 1) else SaturatingSub(MinKey(m.Keys), 1)
  }

  /** The highest stored block the sweep confirms, when there is one. */
  ghost function FoundFork(m: Hashes, cursor: nat, server: PageServer): Option<nat> {
    if m == map[] then None else
      var swept := Sweep(server, 0, MinKey(m.Keys), cursor);
      if swept.Ok? then LastMatching(m, Collected(swept.value)) else None
  }

  ghost function LocateFork(cfg: SourceCfg, m: Hashes, cursor: nat, server: PageServer): nat {
    var found := FoundFork(m, cursor, server);
    if found.Some? then found.value else CoarseFork(cfg, m, cursor)
  }

  /** The batches one emitted range is split into. */
  function Chunked(cfg: SourceCfg, range: BlockRange, seqNo: nat, rest: seq<Record>): seq<Batch>
    decreases |rest|
  {
    if rest == [] then []
    else if |rest| <= cfg.ChunkSize() then [DataBatch(cfg.name, cfg.chainId, range, seqNo, rest)]
    else [PinnedChunk(cfg, range, seqNo, rest[..cfg.ChunkSize()])]
         + Chunked(cfg, range, seqNo + 1, rest[cfg.ChunkSize()..])
  }

  /** A chunk that is not the last of its range: it acks the range start only. */
  function PinnedChunk(cfg: SourceCfg, range: BlockRange, seqNo: nat, records: seq<Record>): Batch {
    DataBatch(cfg.name, cfg.chainId, range, seqNo, records).(ackOverride := Some(range.lo))
  }

  function Truncated(resp: Response, next: nat): seq<Record> {
    if next < resp.nextBlock then Retain(resp.records, next) else resp.records
  }

  function EofBatch(cfg: SourceCfg, at: nat): Batch {
    ControlBatch(cfg.name, cfg.chainId, Eof(cfg.name, at))
  }

  function RollbackBatch(cfg: SourceCfg, fork: nat): Batch {
    ControlBatch(cfg.name, cfg.chainId, Rollback(cfg.chainId, fork))
  }

  ghost function RollbackStep(cfg: SourceCfg, s: State, server: PageServer): State {
    var fork := LocateFork(cfg, s.hashes, s.cursor, server);
    State(Max(fork + 1, cfg.fromBlock), Purged(s.hashes, fork), false, s.out + [RollbackBatch(cfg, fork)])
  }

  ghost function EmitStep(cfg: SourceCfg, s: State, resp: Response, next: nat): State {
    var hashes := if cfg.reorgEnabled then Recorded(s.hashes, resp, next, cfg.Window()) else s.hashes;
    var out := s.out + Chunked(cfg, BlockRange(s.cursor, next), 0, Truncated(resp, next));
    if cfg.AtEnd(next) then State(next, hashes, true, out + [EofBatch(cfg, next)])
    else State(next, hashes, false, out)
  }

  ghost predicate RollsBack(cfg: SourceCfg, s: State, p: Poll) {
    !s.done && p.Answer? && cfg.reorgEnabled && Conflicts(s.hashes, p.resp)
  }

  ghost predicate Emits(cfg: SourceCfg, s: State, p: Poll) {
    !s.done && p.Answer? && !RollsBack(cfg, s, p)
        && PlanStep(cfg, s.cursor, p.resp.nextBlock, p.resp.archiveHeight).Emit?
  }

  /** The iterations that hand the hash window to the key-value store. */
  ghost predicate Saves(cfg: SourceCfg, s: State, p: Poll) {
    cfg.reorgEnabled && (RollsBack(cfg, s, p) || Emits(cfg, s, p))
  }

  ghost function PollStep(cfg: SourceCfg, s: State, p: Poll): State {
    if s.done || p.QueryFailed? then s
    else if p.Stop? then s.(done := true)
    else if RollsBack(cfg, s, p) then RollbackStep(cfg, s, p.sweep)
    else match PlanStep(cfg, s.cursor, p.resp.nextBlock, p.resp.archiveHeight)
      case Wait => s
      case Finish => s.(done := true, out := s.out + [EofBatch(cfg, s.cursor)])
      case Emit(next) => EmitStep(cfg, s, p.resp, next)
  }

  ghost function Run(cfg: SourceCfg, s: State, polls: seq<Poll>): State
    decreases |polls|
  {
    if polls == [] then s else Run(cfg, PollStep(cfg, s, polls[0]), polls[1..])
  }

  // ---- the loop as the program runs it ----

  class HyperSyncSource {
    const cfg: SourceCfg
    const tracker: ReorgTracker
    var cursor: nat
    var done: bool
    /** Everything sent on the channel so far. */
    var out: seq<Batch>
    /** The hash window as last handed to the key-value store. */
    var saved: Option<seq<(nat, string)>>

    /** `height` answers the head query live mode makes when no start block is set. */
    constructor (cfg: SourceCfg, start: nat, tracker: ReorgTracker, height: Option<nat>)
      requires tracker.window == cfg.Window()
      ensures this.cfg == cfg && this.tracker == tracker
      ensures Current() == State(StartCursor(cfg, start, height), tracker.hashes, false, []) && saved == None
    {
      this.cfg := cfg;
      this.tracker := tracker;
      this.cursor := StartCursor(cfg, start, height);
      this.done := false;
      this.out := [];
      this.saved := None;
    }

    ghost function Current(): State
      reads this, tracker
    {
      State(cursor, tracker.hashes, done, out)
    }

    method Locate(server: PageServer) returns (fork: nat)
      ensures fork == LocateFork(cfg, tracker.hashes, cursor, server)
    {
      var min := tracker.MinBlock();
      if min.None? {
        return SaturatingSub(cursor, cfg.Window() + 1);
      }
      var swept := BlockHashes(server, min.value, cursor);
      if swept.Ok? {
        var canon := Collect(swept.value);
        var found := tracker.FindLastMatching(canon);
        if found.Some? {
          return found.value;
        }
      }
      fork := SaturatingSub(min.value, 1);
    }

    method SendChunks(range: BlockRange, records: seq<Record>)
      modifies this`out
      ensures out == old(out) + Chunked(cfg, range, 0, records)
    {
      var rest, seqNo := records, 0;
      while rest != []
        invariant old(out) + Chunked(cfg, range, 0, records) == out + Chunked(cfg, range, seqNo, rest)
        decreases |rest|
      {
        var n := Min(cfg.ChunkSize(), |rest|);
        var batch := DataBatch(cfg.name, cfg.chainId, range, seqNo, rest[..n]);
        if n < |rest| {
          batch := batch.(ackOverride := Some(range.lo));
        } else {
          assert rest[..n] == rest && rest[n..] == [];
        }
        ghost var tail := Chunked(cfg, range, seqNo + 1, rest[n..]);
        assert out + ([batch] + tail) == out + [batch] + tail;
        out := out + [batch];
        rest, seqNo := rest[n..], seqNo + 1;
      }
    }

    /** One iteration. The window is saved after every rollback and every emission. */
    method Iterate(p: Poll)
      requires tracker.window == cfg.Window()
      modifies this`cursor, this`done, this`out, this`saved, tracker`hashes
      ensures Current() == PollStep(cfg, old(Current()), p)
      ensures saved == if Saves(cfg, old(Current()), p) then Some(Ascending(tracker.hashes)) else old(saved)
    {
      if done || p.QueryFailed? {
        return;
      }
      if p.Stop? {
        done := true;
        return;
      }
      if cfg.reorgEnabled {
        var conflict := tracker.Conflict(p.resp);
        if conflict.Some? {
          var fork := Locate(p.sweep);
          tracker.PurgeAfter(fork);
          SaveWindow();
          out := out + [RollbackBatch(cfg, fork)];
          cursor := Max(fork + 1, cfg.fromBlock);
          return;
        }
      }
      match PlanStep(cfg, cursor, p.resp.nextBlock, p.resp.archiveHeight) {
        case Wait =>
        case Finish =>
          out := out + [EofBatch(cfg, cursor)];
          done := true;
        case Emit(next) =>
          var records := p.resp.records;
          if next < p.resp.nextBlock {
            records := RetainBelow(records, next);
          }
          SendChunks(BlockRange(cursor, next), records);
          cursor := next;
          if cfg.reorgEnabled {
            tracker.Record(p.resp, next);
            SaveWindow();
          }
          if cfg.AtEnd(next) {
            out := out + [EofBatch(cfg, next)];
            done := true;
          }
      }
    }

    method SaveWindow()
      modifies this`saved
      ensures saved == Some(Ascending(tracker.hashes))
    {
      var pairs := tracker.Save();
      saved := Some(pairs);
    }

    /** At the end the saved window, if any was saved, is the tracker's. */
    method Loop(polls: seq<Poll>)
      requires tracker.window == cfg.Window()
      modifies this`cursor, this`done, this`out, this`saved, tracker`hashes
      ensures Current() == Run(cfg, old(Current()), polls)
      ensures saved == Some(Ascending(tracker.hashes)) || (saved == old(saved) && tracker.hashes == old(tracker.hashes))
      ensures !cfg.reorgEnabled ==> saved == old(saved) && tracker.hashes == old(tracker.hashes)
    {
      for i := 0 to |polls|
        invariant Run(cfg, old(Current()), polls) == Run(cfg, Current(), polls[i..])
        invariant || saved == Some(Ascending(tracker.hashes))
                  || (saved == old(saved) && tracker.hashes == old(tracker.hashes))
        invariant !cfg.reorgEnabled ==> saved == old(saved) && tracker.hashes == old(tracker.hashes)
      {
        Iterate(polls[i]);
      }
      assert polls[|polls|..] == [];
    }
  }

  function StartCursor(cfg: SourceCfg, start: nat, height: Option<nat>): nat {
    var c := Max(start, cfg.fromBlock);
    if c == 0 && cfg.mode == Live && height.Some? then SaturatingSub(height.value, cfg.confirmations) else c
  }
}

/** The hash window across a crash: it is saved when the source emits, the cursors when a sink has acked. */
module WindowRestart {
  import opened Common
  import opened Encoding
  import opened Reorg
  import opened Source
  import opened Replay
  import opened SourceRuns
  import opened Checkpoint

  /** How a window is written to the key-value store and read back. */
  datatype Codec = Codec(encode: seq<(nat, string)> -> Bytes, decode: Bytes -> Option<seq<(nat, string)>>)

  ghost predicate RoundTrips(codec: Codec) {
    forall pairs :: codec.decode(codec.encode(pairs)) == Some(pairs)
  }

  /** The window a source loads from a store. */
  ghost function LoadedWindow(cfg: SourceCfg, codec: Codec, kv: Kv, key: KvKey): Hashes {
    var bytes := Lookup(kv, key);
    var pairs := if bytes.Some? then codec.decode(bytes.value) else None;
    if pairs.Some? then Trimmed(Collected(pairs.value), cfg.Window()) else map[]
  }

  /** A source started on a reopened store whose least cursor is `resume`. */
  ghost function Restarted(cfg: SourceCfg, codec: Codec, st: Store, key: KvKey, resume: Option<nat>,
                           height: Option<nat>): State {
    var start := if resume.Some? then Max(resume.value, cfg.fromBlock) else cfg.fromBlock;
    State(StartCursor(cfg, start, height), LoadedWindow(cfg, codec, st.kv, key), false, [])
  }

  /** A saved window is loaded as it was. */
  lemma SavedWindowLoads(cfg: SourceCfg, codec: Codec, st: Store, key: KvKey, window: Hashes)
    requires RoundTrips(codec) && |window| <= cfg.Window()
    requires Find(st.kv.db, key) == Some(codec.encode(Ascending(window)))
    ensures LoadedWindow(cfg, codec, Reopened(st).kv, key) == window
  {
    SaveLoadRoundTrip(window, cfg.Window());
  }

  /** The answer for blocks `a` and `a + 1` of chain `c`, naming the hash of the second. */
  ghost function TwoBlockAnswer(c: Chain, a: nat): Poll {
    Answer(Response(None, a + 2, Recs(c, a, a + 2), [(a + 1, c.at(a + 1).hash)], None), (i, b) => Err(()))
  }

  /** With a window of one, only the hash of the last block emitted is kept. */
  lemma EmitsTwo(cfg: SourceCfg, c: Chain, a: nat, window: Hashes, out: seq<Batch>)
    requires cfg.reorgEnabled && cfg.toBlock.None? && cfg.Window() == 1 && KeysBelow(window, a)
    ensures var t := PollStep(cfg, State(a, window, false, out), TwoBlockAnswer(c, a));
            t.cursor == a + 2 && t.hashes == map[a + 1 := c.at(a + 1).hash]
  {
    var s, p := State(a, window, false, out), TwoBlockAnswer(c, a);
    var pairs := p.resp.blockHashes;
    assert forall b :: !Mismatch(window, p.resp, b);
    assert |pairs| == 1 && pairs[..|pairs| - 1] == [];
    assert InsertBelow(window, [], a + 2) == window;
    var grown := InsertBelow(window, pairs, a + 2);
    assert grown == window[a + 1 := c.at(a + 1).hash];
    TrimmedKeepsHighest(grown, 1);
    OnlyHighest(grown, Trimmed(grown, 1), a + 1);
  }

  lemma OnlyHighest(m: Hashes, t: Hashes, top: nat)
    requires IsMax(m.Keys, top) && KeepsHighest(m, t) && |t| == 1
    ensures t == map[top := m[top]]
  {
    var k :| k in t;
    assert t.Keys == {k} by {
      assert |t.Keys - {k}| == 0;
    }
    assert k == top;
  }

  /** A run that leaves the window ahead of the cursor. The sink stands at `a` when the checkpoint takes its
      snapshot; the source emits `[a, a + 2)` and saves its window; the checkpoint commits; the process
      crashes and restarts. The source resumes from `a` with a window that starts above it, so a reorg
      can make it skip blocks. */
  lemma WindowOutrunsCursor(cfg: SourceCfg, codec: Codec, c: Chain, sink: string, key: KvKey, a: nat, kv: Kv,
                            window: Hashes, out: seq<Batch>, height: Option<nat>)
    requires cfg.reorgEnabled && cfg.toBlock.None? && cfg.Window() == 1 && 0 < a && cfg.fromBlock <= a
    requires RoundTrips(codec) && KeysBelow(window, a)
    ensures Honest(c, a, TwoBlockAnswer(c, a).resp)
    ensures var cursor := Key(cfg.name, sink);
            var st := Store(map[cursor := a], map[], kv);
            var t := PollStep(cfg, State(a, window, false, out), TwoBlockAnswer(c, a));
            var mid := [SetOp(key, codec.encode(Ascending(t.hashes)))];
            var reopened := Reopened(Committed(StoreRun(st, mid), st.cursors));
            var restarted := Restarted(cfg, codec, reopened, key, Some(a), height);
            && RestartsAt(reopened.cursors, cfg.name, [sink], Some(a))
            && restarted.cursor == a && !WindowStartsBelow(restarted)
            && exists p :: !RewindStaysBack(cfg, restarted, p)
  {
    hide PollStep, StoreRun, Committed, LoadedWindow, RewindStaysBack, Ascending, Trimmed;
    EmitsTwo(cfg, c, a, window, out);
    var t := PollStep(cfg, State(a, window, false, out), TwoBlockAnswer(c, a));
    SetThenCommit(Key(cfg.name, sink), a, kv, key, codec.encode(Ascending(t.hashes)));
    var st := Store(map[Key(cfg.name, sink) := a], map[], kv);
    var committed := Committed(StoreRun(st, [SetOp(key, codec.encode(Ascending(t.hashes)))]), st.cursors);
    assert |t.hashes| == 1;
    SavedWindowLoads(cfg, codec, committed, key, t.hashes);
    var restarted := Restarted(cfg, codec, Reopened(committed), key, Some(a), height);
    assert restarted.hashes.Keys == {a + 1};
    HighWindowJumps(cfg, restarted);
  }

  /** A value set after the snapshot commits next to the cursor of the snapshot. */
  lemma SetThenCommit(cursor: Key, a: nat, kv: Kv, key: KvKey, bytes: Bytes)
    ensures var st := Store(map[cursor := a], map[], kv);
            var committed := Committed(StoreRun(st, [SetOp(key, bytes)]), st.cursors);
            && Find(committed.kv.db, key) == Some(bytes)
            && RestartsAt(Reopened(committed).cursors, cursor.source, [cursor.sink], Some(a))
  {
    var st := Store(map[cursor := a], map[], kv);
    assert [SetOp(key, bytes)][..0] == [];
    assert StoreRun(st, [SetOp(key, bytes)]) == StoreStep(st, SetOp(key, bytes));
    var committed := Committed(StoreRun(st, [SetOp(key, bytes)]), st.cursors);
    assert committed.rows == map[cursor := a];
    assert [cursor.sink][0] == cursor.sink;
  }
}

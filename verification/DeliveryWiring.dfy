/** Where the pipeline's events and restart lists come from: the source loop and the validated config. */
module DeliveryWiring {
  import opened Common
  import opened Encoding
  import opened Delivery
  import Reorg
  import Source
  import Replay
  import SourceRuns
  import Graph
  import PipelineConfig

  // ---- the source loop is a series of emissions ----

  ghost predicate EmitsFor(source: string, e: Event) {
    (e.Emit? && e.source == source) || (e.EmitEof? && e.source == source)
  }

  /** The pipeline once the source has sent `out` and stands at `cursor`. */
  function SentBy(net: Net, s: Pipeline, source: string, out: seq<Batch>, cursor: nat): Pipeline {
    s.(pipes := Send(net, s.pipes, source, out), cursor := s.cursor[source := cursor])
  }

  lemma SendTwice(net: Net, pipes: seq<seq<Item>>, source: string, a: seq<Batch>, b: seq<Batch>)
    ensures Send(net, Send(net, pipes, source, a), source, b) == Send(net, pipes, source, a + b)
  {
    assert Fresh(a + b) == Fresh(a) + Fresh(b);
    forall i | 0 <= i < |pipes| ensures pipes[i] + Fresh(a) + Fresh(b) == pipes[i] + Fresh(a + b) {
    }
  }

  lemma SendNothing(net: Net, s: Pipeline, source: string)
    requires source in s.cursor
    ensures SentBy(net, s, source, [], s.cursor[source]) == s
  {
    assert Fresh([]) == [];
    forall i | 0 <= i < |s.pipes| ensures Send(net, s.pipes, source, [])[i] == s.pipes[i] {
    }
    assert Send(net, s.pipes, source, []) == s.pipes;
  }

  /** What one poll of an unchanging chain sends: nothing, one range, an EOF, or a range and an EOF. */
  lemma PollIsEvents(net: Net, s: Pipeline, source: string, st: Source.State, p: Source.Poll, base: nat)
    returns (es: seq<Event>)
    requires var c := net.chain(source);
             && Numbered(c) && Replay.Tracks(st.hashes, c, 0) && Replay.Replayed(net.cfg(source), c, base, st)
             && (p.Answer? ==> Replay.Honest(c, st.cursor, p.resp))
    requires source in s.cursor && s.cursor[source] == st.cursor
    ensures forall i :: 0 <= i < |es| ==> EmitsFor(source, es[i])
    ensures var t := Source.PollStep(net.cfg(source), st, p);
            st.out <= t.out && Steps(net, s, es, SentBy(net, s, source, t.out[|st.out|..], t.cursor))
  {
    var cfg, c, t := net.cfg(source), net.chain(source), Source.PollStep(net.cfg(source), st, p);
    PollSends(cfg, c, base, st, p);
    SendNothing(net, s, source);
    hide Source.PollStep, Source.Chunked, Replay.Honest, Replay.Tracks, Replay.Replayed, Recs, Numbered;
    if Source.Emits(cfg, st, p) {
      es := EmissionEvents(net, s, source, t.cursor, cfg.AtEnd(t.cursor));
    } else if t.out[|st.out|..] != [] {
      es := [EmitEof(source)];
      assert es[1..] == [] && s.cursor == s.cursor[source := st.cursor];
    } else {
      es := [];
    }
  }

  /** The batches one poll of an unchanging chain adds to the stream. */
  lemma PollSends(cfg: Source.SourceCfg, c: Chain, base: nat, st: Source.State, p: Source.Poll)
    requires Numbered(c) && Replay.Tracks(st.hashes, c, 0) && Replay.Replayed(cfg, c, base, st)
    requires p.Answer? ==> Replay.Honest(c, st.cursor, p.resp)
    ensures var t := Source.PollStep(cfg, st, p);
            && st.out <= t.out
            && var tail := t.out[|st.out|..];
               if Source.Emits(cfg, st, p)
               then st.cursor < t.cursor
                    && tail == Source.Chunked(cfg, BlockRange(st.cursor, t.cursor), 0, Recs(c, st.cursor, t.cursor))
                               + if cfg.AtEnd(t.cursor) then [Source.EofBatch(cfg, t.cursor)] else []
               else t.cursor == st.cursor
                    && (tail == [] || (tail == [Source.EofBatch(cfg, st.cursor)] && cfg.AtEnd(st.cursor)))
  {
    hide Reorg.Recorded, Source.Chunked, Source.Truncated, Replay.Replayed, Recs, Numbered, Replay.Honest;
    var t := Source.PollStep(cfg, st, p);
    SourceRuns.HonestNeverConflicts(cfg, c, st, p);
    hide Reorg.Conflicts, Replay.Tracks;
    if Source.Emits(cfg, st, p) {
      Replay.PlanStepBounds(cfg, st.cursor, p.resp.nextBlock, p.resp.archiveHeight);
      Replay.TruncatedIsExact(c, st.cursor, p.resp, t.cursor);
    } else if t.out == st.out {
      assert t.out[|st.out|..] == [];
    }
  }

  lemma EmissionEvents(net: Net, s: Pipeline, source: string, hi: nat, eof: bool) returns (es: seq<Event>)
    requires source in s.cursor && s.cursor[source] < hi && (eof ==> net.cfg(source).AtEnd(hi))
    ensures forall i :: 0 <= i < |es| ==> EmitsFor(source, es[i])
    ensures var sent := RangeBatches(net, source, s.cursor[source], hi);
            var eofs := if eof then [Source.EofBatch(net.cfg(source), hi)] else [];
            Steps(net, s, es, SentBy(net, s, source, sent + eofs, hi))
  {
    hide RangeBatches;
    var sent := RangeBatches(net, source, s.cursor[source], hi);
    var t := Next(net, s, Emit(source, hi));
    if eof {
      var last := [Source.EofBatch(net.cfg(source), hi)];
      es := [Emit(source, hi), EmitEof(source)];
      SendTwice(net, s.pipes, source, sent, last);
      var u := Next(net, t, EmitEof(source));
      assert u.pipes == Send(net, s.pipes, source, sent + last);
      assert es[1..] == [EmitEof(source)] && es[1..][1..] == [];
      assert Steps(net, u, [], u);
    } else {
      es := [Emit(source, hi)];
      assert es[1..] == [] && sent + [] == sent;
    }
  }

  /** A series of events that brought the paths to what the loop had sent, followed by one more poll. */
  lemma PollExtends(net: Net, s: Pipeline, source: string, st: Source.State, p: Source.Poll, base: nat,
                    before: seq<Event>) returns (es: seq<Event>)
    requires var c := net.chain(source);
             && Numbered(c) && Replay.Tracks(st.hashes, c, 0) && Replay.Replayed(net.cfg(source), c, base, st)
             && (p.Answer? ==> Replay.Honest(c, st.cursor, p.resp))
    requires source in s.cursor && Steps(net, s, before, SentBy(net, s, source, st.out, st.cursor))
    requires forall i :: 0 <= i < |before| ==> EmitsFor(source, before[i])
    ensures forall i :: 0 <= i < |es| ==> EmitsFor(source, es[i])
    ensures var t := Source.PollStep(net.cfg(source), st, p);
            Steps(net, s, es, SentBy(net, s, source, t.out, t.cursor))
  {
    var t := Source.PollStep(net.cfg(source), st, p);
    hide Enabled, Next, Steps, Send, Source.PollStep, Source.Chunked, Replay.Honest, Replay.Tracks, Numbered;
    hide Replay.Replayed;
    var m := SentBy(net, s, source, st.out, st.cursor);
    var more := PollIsEvents(net, m, source, st, p, base);
    var tail := t.out[|st.out|..];
    SendTwice(net, s.pipes, source, st.out, tail);
    assert st.out + tail == t.out;
    assert SentBy(net, m, source, tail, t.cursor) == SentBy(net, s, source, t.out, t.cursor);
    StepsThen(net, s, before, m, more, SentBy(net, s, source, t.out, t.cursor));
    es := before + more;
  }

  /** Every run of the source loop on an unchanging chain is a series of Emit and EmitEof events that puts
      exactly what the loop sends on the source's paths. */
  lemma {:induction false} SourceRunIsEvents(net: Net, s: Pipeline, source: string, states: seq<Source.State>,
                                             polls: seq<Source.Poll>, k: nat) returns (es: seq<Event>)
    requires var (cfg, c) := (net.cfg(source), net.chain(source));
             && Replay.IsRun(cfg, states, polls) && SourceRuns.HonestRun(c, states, polls) && k < |states|
             && Numbered(c) && Replay.StartsClean(cfg, states[0]) && Replay.Tracks(states[0].hashes, c, 0)
    requires source in s.cursor && s.cursor[source] == states[0].cursor
    ensures forall i :: 0 <= i < |es| ==> EmitsFor(source, es[i])
    ensures Steps(net, s, es, SentBy(net, s, source, states[k].out, states[k].cursor))
  {
    hide Enabled, Next, Source.PollStep, Source.Chunked;
    var cfg, c := net.cfg(source), net.chain(source);
    if k == 0 {
      SendNothing(net, s, source);
      es := [];
    } else {
      var before := SourceRunIsEvents(net, s, source, states, polls, k - 1);
      SourceRuns.FixedChainStream(cfg, c, states, polls, k - 1);
      assert states[k - 1 + 1] == Source.PollStep(cfg, states[k - 1], polls[k - 1]);
      es := PollExtends(net, s, source, states[k - 1], polls[k - 1], states[0].cursor, before);
    }
  }

  // ---- the restart lists of a config ----

  /** The pipeline's paths are ways through the config's graph, and each source restarts from its list. */
  ghost predicate Wired(cfg: PipelineConfig.Config, lists: map<Graph.Node, seq<Graph.Node>>, net: Net) {
    && (forall i :: 0 <= i < |net.paths| ==> WiredPath(cfg, net.paths[i]))
    && (forall src :: src in lists ==> net.restartSinks(src) == lists[src])
  }

  ghost predicate WiredPath(cfg: PipelineConfig.Config, p: Path) {
    && p.source in cfg.sources && p.sink in PipelineConfig.SinkNames(cfg)
    && Graph.Reaches(PipelineConfig.ConsumerMap(cfg), p.source, p.sink)
  }

  /** With the lists `reachable_sinks_per_source` computes, every sink a path ends in bounds its source's
      restart, and no sink bounds it that the source does not feed. */
  lemma ListsCoverRestarts(cfg: PipelineConfig.Config, lists: map<Graph.Node, seq<Graph.Node>>, net: Net)
    requires PipelineConfig.RestartLists(cfg, lists) && Wired(cfg, lists, net)
    ensures RestartsCovered(net)
    ensures forall src, k :: src in cfg.sources && k in net.restartSinks(src) ==>
            Graph.Reaches(PipelineConfig.ConsumerMap(cfg), src, k)
  {
    forall i | 0 <= i < |net.paths| ensures net.paths[i].sink in net.restartSinks(net.paths[i].source) {
      assert WiredPath(cfg, net.paths[i]);
      assert net.paths[i].source in lists;
    }
    forall src, k | src in cfg.sources && k in net.restartSinks(src)
      ensures Graph.Reaches(PipelineConfig.ConsumerMap(cfg), src, k)
    {
      assert src in lists;
    }
  }
}

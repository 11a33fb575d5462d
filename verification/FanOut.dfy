/** Fan-out of a producer's batches to its live consumers, closed ones removed in place. */
module FanOut {
  import opened Common
  import opened Encoding

  /** A sender handle. Each entry of a producer's list is its own handle, even two to one node. */
  type Handle = nat

  /** Which handles still have a receiver at the n-th fan-out of a run. */
  type Opens = (nat, Handle) -> bool

  function StillOpen(live: seq<Handle>, open: Handle -> bool): seq<Handle> {
    if live == [] then [] else
      StillOpen(live[..|live| - 1], open) + if open(live[|live| - 1]) then [live[|live| - 1]] else []
  }

  function SentTo(sent: map<Handle, seq<Batch>>, h: Handle): seq<Batch> {
    if h in sent then sent[h] else []
  }

  /** A processor's answer to one input. */
  datatype Answer = Produced(batches: seq<Batch>) | Failed

  /** What is passed on: nothing on an error, an empty batch for a data batch that yields none. */
  function Outputs(input: Batch, answer: Answer): seq<Batch> {
    if answer.Failed? then []
    else if answer.batches == [] && input.body.Data? then [input.Derive([])]
    else answer.batches
  }

  /** The answer holds record batches with the input's identity and ack, as `derive` makes them. */
  ghost predicate Derived(input: Batch, answer: Answer) {
    answer.Produced? && forall i :: 0 <= i < |answer.batches| ==>
      answer.batches[i].body.Data? && answer.batches[i] == input.(body := answer.batches[i].body)
  }

  /** A data batch reaches the next stage exactly once with its ack, whether or not any record survives,
      iff the processor neither failed nor split it. */
  lemma OneOutputIff(input: Batch, answer: Answer)
    requires input.body.Data? && (answer.Failed? || Derived(input, answer))
    ensures (|Outputs(input, answer)| == 1 && Outputs(input, answer)[0].AckBlock() == input.AckBlock()) <==>
            (answer.Produced? && |answer.batches| <= 1)
  {
    if answer.Produced? && |answer.batches| == 1 {
      assert answer.batches[0] == input.(body := answer.batches[0].body);
    }
  }

  /** The answer of an SDK processor: an error, a control batch as it is, or batches derived from a data batch. */
  ghost predicate SdkAnswer(input: Batch, answer: Answer) {
    if input.body.Control? then answer == Produced([input]) else answer.Failed? || Derived(input, answer)
  }

  /** A control batch is passed on exactly as answered: nothing is put in for an empty answer, and a batch
      answered with itself goes on once and unchanged. */
  lemma ControlPassesOn(input: Batch, batches: seq<Batch>)
    requires input.body.Control?
    ensures Outputs(input, Produced(batches)) == batches
    ensures SdkAnswer(input, Produced(batches)) ==> Outputs(input, Produced(batches)) == [input]
  {
  }

  /** A data batch never turns into a control batch, and all that is passed on for it has its identity and ack. */
  lemma DataStaysData(input: Batch, answer: Answer)
    requires input.body.Data? && SdkAnswer(input, answer)
    ensures forall b :: b in Outputs(input, answer) ==>
              b.body.Data? && b == input.(body := b.body) && b.AckBlock() == input.AckBlock()
  {
    forall b | b in Outputs(input, answer) ensures b.body.Data? && b == input.(body := b.body) {
      if b != input.Derive([]) {
        var i :| 0 <= i < |answer.batches| && answer.batches[i] == b;
      }
    }
  }

  /** What a processor task passes on for a run of inputs. */
  function AllOutputs(inputs: seq<Batch>, answers: nat -> Answer): seq<Batch> {
    if inputs == [] then [] else
      AllOutputs(inputs[..|inputs| - 1], answers) + Outputs(inputs[|inputs| - 1], answers(|inputs| - 1))
  }

  ghost predicate SdkAnswers(inputs: seq<Batch>, answers: nat -> Answer) {
    forall i: nat :: i < |inputs| ==> SdkAnswer(inputs[i], answers(i))
  }

  function Controls(bs: seq<Batch>): seq<Batch> {
    if bs == [] then [] else
      Controls(bs[..|bs| - 1]) + if bs[|bs| - 1].body.Control? then [bs[|bs| - 1]] else []
  }

  lemma {:induction false} ControlsAppend(a: seq<Batch>, b: seq<Batch>)
    ensures Controls(a + b) == Controls(a) + Controls(b)
  {
    if b == [] {
      assert a + b == a;
    } else {
      ControlsAppend(a, b[..|b| - 1]);
      assert (a + b)[..|a + b| - 1] == a + b[..|b| - 1];
    }
  }

  lemma {:induction false} NoControls(bs: seq<Batch>)
    requires forall b :: b in bs ==> b.body.Data?
    ensures Controls(bs) == []
  {
    if bs != [] {
      NoControls(bs[..|bs| - 1]);
    }
  }

  /** The output up to the i-th input, and what that input adds. */
  lemma {:induction false} OutputsInPlace(inputs: seq<Batch>, answers: nat -> Answer, i: nat)
    requires i < |inputs|
    ensures var (all, before) := (AllOutputs(inputs, answers), AllOutputs(inputs[..i], answers));
            before + Outputs(inputs[i], answers(i)) <= all
  {
    if i < |inputs| - 1 {
      OutputsInPlace(inputs[..|inputs| - 1], answers, i);
      assert inputs[..|inputs| - 1][..i] == inputs[..i];
    }
  }

  /** Behind a processor that fails or splits what it likes, the control batches of the stream are those of its
      input, in order, each after the outputs of the batches before it. */
  lemma {:induction false} ControlsKeepTheirPlace(inputs: seq<Batch>, answers: nat -> Answer)
    requires SdkAnswers(inputs, answers)
    ensures Controls(AllOutputs(inputs, answers)) == Controls(inputs)
    ensures forall i: nat :: i < |inputs| && inputs[i].body.Control? ==>
              var at := |AllOutputs(inputs[..i], answers)|;
              at < |AllOutputs(inputs, answers)| && AllOutputs(inputs, answers)[at] == inputs[i]
  {
    forall i: nat | i < |inputs| && inputs[i].body.Control?
      ensures var at := |AllOutputs(inputs[..i], answers)|;
              at < |AllOutputs(inputs, answers)| && AllOutputs(inputs, answers)[at] == inputs[i]
    {
      OutputsInPlace(inputs, answers, i);
      assert SdkAnswer(inputs[i], answers(i));
    }
    if inputs != [] {
      var n := |inputs| - 1;
      var init, last := inputs[..n], inputs[n];
      ControlsKeepTheirPlace(init, answers);
      ControlsAppend(AllOutputs(init, answers), Outputs(last, answers(n)));
      if last.body.Control? {
        assert [last][..0] == [];
        assert Controls([last]) == [last];
      } else {
        DataStaysData(last, answers(n));
        NoControls(Outputs(last, answers(n)));
      }
    }
  }

  /** A processor that neither fails nor splits passes on one batch for each input, with its identity and ack. */
  lemma {:induction false} OneForOne(inputs: seq<Batch>, answers: nat -> Answer)
    requires SdkAnswers(inputs, answers)
    requires forall i: nat :: i < |inputs| ==> answers(i).Produced? && |answers(i).batches| <= 1
    ensures |AllOutputs(inputs, answers)| == |inputs|
    ensures forall i :: 0 <= i < |inputs| ==>
              var out := AllOutputs(inputs, answers)[i];
              && out == inputs[i].(body := out.body) && (out.body.Data? <==> inputs[i].body.Data?)
              && (inputs[i].body.Control? ==> out == inputs[i])
  {
    hide Outputs, SdkAnswer;
    if inputs != [] {
      var n := |inputs| - 1;
      OneForOne(inputs[..n], answers);
      OneOutput(inputs[n], answers(n));
      var before, last := AllOutputs(inputs[..n], answers), Outputs(inputs[n], answers(n));
      assert AllOutputs(inputs, answers) == before + last;
      assert forall i :: 0 <= i < n ==> (before + last)[i] == before[i] && inputs[..n][i] == inputs[i];
    }
  }

  lemma OneOutput(input: Batch, answer: Answer)
    requires SdkAnswer(input, answer) && answer.Produced? && |answer.batches| <= 1
    ensures |Outputs(input, answer)| == 1
    ensures var out := Outputs(input, answer)[0];
            && out == input.(body := out.body) && (out.body.Data? <==> input.body.Data?)
            && (input.body.Control? ==> out == input)
  {
    if input.body.Data? {
      DataStaysData(input, answer);
      assert Outputs(input, answer)[0] in Outputs(input, answer);
    }
  }

  class Producer {
    var live: seq<Handle>
    var sent: map<Handle, seq<Batch>>
    /** How many fan-outs have been made. */
    var rounds: nat

    constructor (outs: seq<Handle>)
      ensures live == outs && sent == map[] && rounds == 0
    {
      live, sent, rounds := outs, map[], 0;
    }

    /** `fan_out`: one batch to every live handle, dropping the closed ones in place. */
    method Send(batch: Batch, open: Handle -> bool) returns (more: bool)
      modifies this
      ensures live == StillOpen(old(live), open)
      ensures sent == Delivered(old(sent), live, batch)
      ensures more <==> live != []
      ensures rounds == old(rounds) + 1
    {
      hide Scanned, StillOpen, Delivered;
      ghost var was, kept, n := live, [], 0;
      ScanStart(live, open);
      NothingDelivered(sent, batch);
      var i := 0;
      while i < |live|
        invariant i == |kept| <= |live|
        invariant Scanned(was, n, kept, live, open)
        invariant sent == Delivered(old(sent), kept, batch)
        invariant rounds == old(rounds)
        decreases |live| - i
      {
        ScanStep(was, n, kept, live, open);
        var h := live[i];
        if open(h) {
          DeliveredSnoc(old(sent), kept, batch, h);
          sent := sent[h := SentTo(sent, h) + [batch]];
          i := i + 1;
          kept := kept + [h];
        } else {
          live := live[..i] + live[i + 1..];
        }
        n := n + 1;
      }
      ScanDone(was, n, kept, live, open);
      rounds := rounds + 1;
      more := live != [];
    }

    /** A source or processor task: fans out every batch in order, stopping when nobody is left. Each
        handle gets the batches before the round that first finds it closed, once and in order. */
    method Drive(batches: seq<Batch>, opens: Opens) returns (stopped: bool)
      requires rounds == 0 && sent == map[] && Distinct(live)
      modifies this
      ensures forall h :: h in old(live) ==> SentTo(sent, h) == batches[..Served(opens, h, |batches|)]
      ensures forall h :: h in live <==> h in old(live) && Served(opens, h, rounds) == rounds
      ensures !stopped ==> rounds == |batches|
      ensures stopped ==> live == [] && rounds <= |batches|
    {
      ghost var outs := live;
      stopped := false;
      while rounds < |batches| && !stopped
        invariant rounds <= |batches| && Distinct(live)
        invariant ServedSoFar(outs, live, sent, batches, opens, rounds)
        invariant stopped ==> live == []
        decreases |batches| - rounds, !stopped
      {
        var k: nat := rounds;
        ghost var before, sentBefore := live, sent;
        var open: Handle -> bool := (h: Handle) => opens(k, h);
        var more := Send(batches[k], open);
        ServedStep(outs, before, sentBefore, batches, opens, k, open);
        stopped := !more;
      }
      forall h | h in outs ensures Served(opens, h, rounds) == Served(opens, h, |batches|) {
        if stopped {
          ServedIsFinal(opens, h, rounds, |batches|);
        }
      }
    }

    /** `processor_task`: what each input comes to is fanned out before the next input is taken. Each branch
        gets the processor's output stream up to the round that first finds it closed. */
    method Process(inputs: seq<Batch>, answers: nat -> Answer, opens: Opens) returns (stopped: bool)
      requires rounds == 0 && sent == map[] && Distinct(live)
      modifies this
      ensures var all := AllOutputs(inputs, answers);
              && (forall h :: h in old(live) ==> SentTo(sent, h) == all[..Served(opens, h, |all|)])
              && (forall h :: h in live <==> h in old(live) && Served(opens, h, rounds) == rounds)
              && (!stopped ==> rounds == |all|) && (stopped ==> live == [] && rounds <= |all|)
    {
      ghost var outs, all := live, AllOutputs(inputs, answers);
      stopped := false;
      var i := 0;
      while i < |inputs| && !stopped
        invariant i <= |inputs| && Distinct(live) && ServedSoFar(outs, live, sent, all, opens, rounds)
        invariant if stopped then live == [] else rounds == |AllOutputs(inputs[..i], answers)|
        decreases |inputs| - i, !stopped
      {
        OutputsInPlace(inputs, answers, i);
        assert inputs[..i + 1][..i] == inputs[..i];
        stopped := SendAll(outs, all, Outputs(inputs[i], answers(i)), opens);
        i := i + 1;
      }
      assert inputs[..|inputs|] == inputs;
      forall h | h in outs ensures Served(opens, h, rounds) == Served(opens, h, |all|) {
        if stopped {
          ServedIsFinal(opens, h, rounds, |all|);
        }
      }
    }

    /** Fans out the next batches of the stream `all`, stopping when nobody is left. */
    method SendAll(ghost outs: seq<Handle>, ghost all: seq<Batch>, batches: seq<Batch>, opens: Opens)
      returns (stopped: bool)
      requires Distinct(live) && ServedSoFar(outs, live, sent, all, opens, rounds)
      requires rounds + |batches| <= |all| && all[rounds..rounds + |batches|] == batches
      modifies this
      ensures Distinct(live) && ServedSoFar(outs, live, sent, all, opens, rounds)
      ensures !stopped ==> rounds == old(rounds) + |batches|
      ensures stopped ==> live == []
    {
      stopped := false;
      var j := 0;
      while j < |batches| && !stopped
        invariant j <= |batches| && rounds == old(rounds) + j
        invariant Distinct(live) && ServedSoFar(outs, live, sent, all, opens, rounds)
        invariant stopped ==> live == []
        decreases |batches| - j, !stopped
      {
        var k: nat := rounds;
        ghost var before, sentBefore := live, sent;
        var open: Handle -> bool := (h: Handle) => opens(k, h);
        assert batches[j] == all[k];
        var more := Send(batches[j], open);
        ServedStep(outs, before, sentBefore, all, opens, k, open);
        stopped := !more;
        j := j + 1;
      }
    }
  }

  /** The scan has dealt with the first `n` handles and kept the open ones. */
  ghost predicate Scanned(was: seq<Handle>, n: nat, kept: seq<Handle>, live: seq<Handle>, open: Handle -> bool) {
    n <= |was| && live == kept + was[n..] && kept == StillOpen(was[..n], open)
  }

  lemma ScanStep(was: seq<Handle>, n: nat, kept: seq<Handle>, live: seq<Handle>, open: Handle -> bool)
    requires Scanned(was, n, kept, live, open) && |kept| < |live|
    ensures n < |was| && live[|kept|] == was[n]
    ensures open(was[n]) ==> Scanned(was, n + 1, kept + [was[n]], live, open)
    ensures !open(was[n]) ==> Scanned(was, n + 1, kept, live[..|kept|] + live[|kept| + 1..], open)
  {
    assert was[..n + 1][..n] == was[..n];
    assert was[n..] == [was[n]] + was[n + 1..];
  }

  lemma ScanStart(was: seq<Handle>, open: Handle -> bool)
    ensures Scanned(was, 0, [], was, open)
  {
  }

  lemma NothingDelivered(sent: map<Handle, seq<Batch>>, batch: Batch)
    ensures Delivered(sent, [], batch) == sent
  {
  }

  lemma ScanDone(was: seq<Handle>, n: nat, kept: seq<Handle>, live: seq<Handle>, open: Handle -> bool)
    requires Scanned(was, n, kept, live, open) && |kept| == |live|
    ensures kept == live == StillOpen(was, open)
  {
    assert was[n..] == [] && was[..n] == was;
  }

  lemma DeliveredSnoc(sent: map<Handle, seq<Batch>>, hs: seq<Handle>, batch: Batch, h: Handle)
    ensures Delivered(sent, hs + [h], batch) ==
            Delivered(sent, hs, batch)[h := SentTo(Delivered(sent, hs, batch), h) + [batch]]
  {
    assert (hs + [h])[..|hs|] == hs;
  }

  ghost predicate Distinct(hs: seq<Handle>) {
    forall i, j :: 0 <= i < j < |hs| ==> hs[i] != hs[j]
  }

  /** The batch added to what each listed handle has been sent. */
  function Delivered(sent: map<Handle, seq<Batch>>, hs: seq<Handle>, batch: Batch): map<Handle, seq<Batch>> {
    if hs == [] then sent else
      var before := Delivered(sent, hs[..|hs| - 1], batch);
      var h := hs[|hs| - 1];
      before[h := SentTo(before, h) + [batch]]
  }

  lemma {:induction false} DeliveredOnce(sent: map<Handle, seq<Batch>>, hs: seq<Handle>, batch: Batch, h: Handle)
    requires Distinct(hs)
    ensures SentTo(Delivered(sent, hs, batch), h) == if h in hs then SentTo(sent, h) + [batch] else SentTo(sent, h)
  {
    if hs != [] {
      DeliveredOnce(sent, hs[..|hs| - 1], batch, h);
      assert hs == hs[..|hs| - 1] + [hs[|hs| - 1]];
    }
  }

  lemma {:induction false} StillOpenMembers(live: seq<Handle>, open: Handle -> bool)
    ensures forall h :: h in StillOpen(live, open) <==> h in live && open(h)
    ensures Distinct(live) ==> Distinct(StillOpen(live, open))
  {
    if live != [] {
      StillOpenMembers(live[..|live| - 1], open);
      assert live == live[..|live| - 1] + [live[|live| - 1]];
    }
  }

  /** Who is live after `n` rounds, and what everyone was sent. */
  ghost predicate ServedSoFar(outs: seq<Handle>, live: seq<Handle>, sent: map<Handle, seq<Batch>>,
                              batches: seq<Batch>, opens: Opens, n: nat)
  {
    && n <= |batches|
    && (forall h :: h in outs ==> SentTo(sent, h) == batches[..Served(opens, h, n)])
    && (forall h :: h in live <==> h in outs && Served(opens, h, n) == n)
  }

  lemma ServedStep(outs: seq<Handle>, live: seq<Handle>, sent: map<Handle, seq<Batch>>, batches: seq<Batch>,
                   opens: Opens, n: nat, open: Handle -> bool)
    requires n < |batches| && Distinct(live) && ServedSoFar(outs, live, sent, batches, opens, n)
    requires forall h :: open(h) == opens(n, h)
    ensures var next := StillOpen(live, open);
            Distinct(next) && ServedSoFar(outs, next, Delivered(sent, next, batches[n]), batches, opens, n + 1)
  {
    var next := StillOpen(live, open);
    StillOpenMembers(live, open);
    forall h | h in outs ensures SentTo(Delivered(sent, next, batches[n]), h) == batches[..Served(opens, h, n + 1)] {
      DeliveredOnce(sent, next, batches[n], h);
      assert batches[..n + 1] == batches[..n] + [batches[n]];
    }
  }

  /** How many of the first `n` batches a handle gets: all of them, or those before it first closed. */
  function Served(opens: Opens, h: Handle, n: nat): (k: nat)
    ensures k <= n
  {
    if n == 0 then 0
    else if Served(opens, h, n - 1) == n - 1 && opens(n - 1, h) then n
    else Served(opens, h, n - 1)
  }

  lemma {:induction false} ServedIsFinal(opens: Opens, h: Handle, n: nat, m: nat)
    requires n <= m && Served(opens, h, n) < n
    ensures Served(opens, h, m) == Served(opens, h, n)
  {
    if n < m {
      ServedIsFinal(opens, h, n, m - 1);
    }
  }

  /** A handle gets everything iff it is open at every round; otherwise exactly what came before the
      first round that finds it closed, even if it would be open again later. */
  lemma {:induction false} ServedMeaning(opens: Opens, h: Handle, n: nat)
    ensures Served(opens, h, n) == n <==> forall i: nat :: i < n ==> opens(i, h)
    ensures Served(opens, h, n) < n ==>
              !opens(Served(opens, h, n), h) && forall i: nat :: i < Served(opens, h, n) ==> opens(i, h)
  {
    if n > 0 {
      ServedMeaning(opens, h, n - 1);
    }
  }
}

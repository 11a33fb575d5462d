/** The batch envelope, and the chain of blocks its records come from. */
module Encoding {
  import opened Common

  /** A record; `block` is its parsed block number, `None` when it does not parse. */
  datatype Record = Record(block: Option<nat>, payload: string)

  /** Half-open block range `[lo, hi)`. */
  datatype BlockRange = BlockRange(lo: nat, hi: nat)

  datatype ControlRecord =
    | Rollback(chainId: nat, invalidateAfter: nat)
    | Eof(source: string, atBlock: nat)

  datatype Body = Data(records: seq<Record>) | Control(ctrl: ControlRecord)

  /** `seqNo` stands for the chunk number inside the batch id. */
  datatype Batch = Batch(source: string, chainId: nat, range: BlockRange, seqNo: nat, ackOverride: Option<nat>,
      body: Body)
  {
    /** The block a sink may advance its cursor to after acking this batch. */
    function AckBlock(): nat {
      if ackOverride.Some? then ackOverride.value else range.hi
    }

    /** Same identity and ack, different records. */
    function Derive(records: seq<Record>): Batch {
      this.(body := Data(records))
    }

    function Records(): seq<Record> {
      if body.Data? then body.records else []
    }
  }

  function DataBatch(source: string, chainId: nat, range: BlockRange, seqNo: nat, records: seq<Record>): Batch {
    Batch(source, chainId, range, seqNo, None, Data(records))
  }

  function ControlBatch(source: string, chainId: nat, ctrl: ControlRecord): Batch {
    var at := match ctrl case Rollback(_, f) => f case Eof(_, b) => b;
    Batch(source, chainId, BlockRange(at, at), 0, None, Control(ctrl))
  }

  // ---- record lists ----

  predicate Below(r: Record, bound: nat) {
    r.block.Some? ==> r.block.value < bound
  }

  /** The records below `bound`; a record without a block number is kept. */
  function Retain(rs: seq<Record>, bound: nat): seq<Record> {
    if rs == [] then []
    else Retain(rs[..|rs| - 1], bound) + (if Below(rs[|rs| - 1], bound) then [rs[|rs| - 1]] else [])
  }

  method RetainBelow(rs: seq<Record>, bound: nat) returns (kept: seq<Record>)
    ensures kept == Retain(rs, bound)
  {
    kept := [];
    for i := 0 to |rs|
      invariant kept == Retain(rs[..i], bound)
    {
      assert rs[..i + 1][..i] == rs[..i];
      if Below(rs[i], bound) {
        kept := kept + [rs[i]];
      }
    }
    assert rs[..|rs|] == rs;
  }

  lemma {:induction false} RetainAppend(a: seq<Record>, b: seq<Record>, bound: nat)
    ensures Retain(a + b, bound) == Retain(a, bound) + Retain(b, bound)
  {
    if b == [] {
      assert a + b == a;
    } else {
      RetainAppend(a, b[..|b| - 1], bound);
      assert (a + b)[..|a + b| - 1] == a + b[..|b| - 1];
    }
  }

  /** A record is kept iff its block number is below the bound or does not parse; by `RetainAppend` this
      settles every list. */
  lemma RetainOne(r: Record, bound: nat)
    ensures Retain([r], bound) == if r.block == None || r.block.value < bound then [r] else []
  {
    assert [r][..0] == [] && Retain([], bound) == [];
  }

  lemma {:induction false} RetainAll(rs: seq<Record>, bound: nat)
    requires forall i :: 0 <= i < |rs| ==> Below(rs[i], bound)
    ensures Retain(rs, bound) == rs
  {
    if rs != [] {
      RetainAll(rs[..|rs| - 1], bound);
    }
  }

  lemma {:induction false} RetainNone(rs: seq<Record>, bound: nat)
    requires forall i :: 0 <= i < |rs| ==> !Below(rs[i], bound)
    ensures Retain(rs, bound) == []
  {
    if rs != [] {
      RetainNone(rs[..|rs| - 1], bound);
    }
  }

  // ---- chains ----

  datatype Block = Block(hash: string, records: seq<Record>)

  /** One version of a blockchain: what each height holds. */
  datatype Chain = Chain(at: nat -> Block)

  /** Every record carries the number of its block. */
  ghost predicate Numbered(c: Chain) {
    forall n: nat, i :: 0 <= i < |c.at(n).records| ==> c.at(n).records[i].block == Some(n)
  }

  /** Hash-linked versions: the same hash at `n` means the same history up to `n`. */
  ghost predicate Linked(a: Chain, b: Chain) {
    forall n: nat, k: nat :: a.at(n).hash == b.at(n).hash && k <= n ==> a.at(k) == b.at(k)
  }

  /** The chain's records in blocks `[lo, hi)`, in order. */
  ghost function Recs(c: Chain, lo: nat, hi: nat): seq<Record> {
    if lo >= hi then [] else Recs(c, lo, hi - 1) + c.at(hi - 1).records
  }

  lemma {:induction false} RecsSplit(c: Chain, lo: nat, mid: nat, hi: nat)
    requires lo <= mid <= hi
    ensures Recs(c, lo, hi) == Recs(c, lo, mid) + Recs(c, mid, hi)
  {
    if mid < hi {
      RecsSplit(c, lo, mid, hi - 1);
    }
  }

  lemma {:induction false} RecsAgree(a: Chain, b: Chain, lo: nat, hi: nat)
    requires forall k: nat :: lo <= k < hi ==> a.at(k) == b.at(k)
    ensures Recs(a, lo, hi) == Recs(b, lo, hi)
  {
    if lo < hi {
      RecsAgree(a, b, lo, hi - 1);
    }
  }

  /** Dropping the records at or above `bound` leaves the records of the blocks below it. */
  lemma {:induction false} RetainRecs(c: Chain, lo: nat, hi: nat, bound: nat)
    requires Numbered(c)
    ensures Retain(Recs(c, lo, hi), bound) == Recs(c, lo, Min(hi, bound))
  {
    if lo < hi {
      RetainRecs(c, lo, hi - 1, bound);
      RetainAppend(Recs(c, lo, hi - 1), c.at(hi - 1).records, bound);
      if hi - 1 < bound {
        RetainAll(c.at(hi - 1).records, bound);
      } else {
        RetainNone(c.at(hi - 1).records, bound);
      }
    }
  }

  // ---- the stream as a consumer that applies rollbacks sees it ----

  /** A data batch adds its records; a rollback drops everything past the fork. */
  function ApplyBatch(view: seq<Record>, b: Batch): seq<Record> {
    if b.body.Data? then view + b.body.records
    else if b.body.ctrl.Rollback? then Retain(view, b.body.ctrl.invalidateAfter + 1)
    else view
  }

  /** The records left after applying a stream of batches in order. */
  ghost function View(out: seq<Batch>): seq<Record> {
    if out == [] then [] else ApplyBatch(View(out[..|out| - 1]), out[|out| - 1])
  }

  lemma ViewSnoc(out: seq<Batch>, b: Batch)
    ensures View(out + [b]) == ApplyBatch(View(out), b)
  {
    assert (out + [b])[..|out + [b]| - 1] == out;
  }
}

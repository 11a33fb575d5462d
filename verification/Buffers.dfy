/** The object-store sink's per-chain buffers. */
module Buffers {
  import opened Common
  import opened Encoding
  import Reorg

  /** The value of one buffer. */
  datatype Buf = Buf(records: seq<Record>, chainId: nat, first: nat, last: nat, seen: bool)

  const EMPTY := Buf([], 0, 0, 0, false)

  /** An uploaded object: its key's parts and the records its bytes encode. */
  datatype Object = Object(chainId: nat, first: nat, last: nat, rows: nat, records: seq<Record>)

  // ---- buffer operations as functions ----

  function Pushed(b: Buf, chainId: nat, lo: nat, hi: nat, rs: seq<Record>): Buf {
    if rs == [] then b
    else Buf(b.records + rs, chainId, if b.seen then b.first else lo, Max(b.last, hi), true)
  }

  function ObjectOf(b: Buf): Object {
    Object(b.chainId, b.first, b.last, |b.records|, b.records)
  }

  function Emptied(b: Buf): Buf {
    if b.records == [] then b else b.(records := [], seen := false, last := 0)
  }

  function RolledBack(b: Buf, fork: nat): Buf {
    var kept := Retain(b.records, fork + 1);
    if kept == [] then b.(records := [], seen := false, first := 0, last := 0)
    else b.(records := kept, last := Min(b.last, fork))
  }

  function Get(m: map<nat, Buf>, c: nat): Buf {
    if c in m then m[c] else EMPTY
  }

  /** The objects that a take with this threshold makes of a buffer. */
  function Ready(b: Buf, rows: nat): seq<Object> {
    if |b.records| < rows || b.records == [] then [] else [ObjectOf(b)]
  }

  /** How far a take gets: the buffers left, the objects made, and whether it went through all chains. */
  datatype Walk = Walk(bufs: map<nat, Buf>, made: seq<Object>, complete: bool)

  /** Takes the non-empty buffers of `todo` holding at least `rows` records, lowest chain first, after
      `made`; the first list that cannot be encoded stops the walk. */
  ghost function TakeWalk(m: map<nat, Buf>, todo: set<nat>, rows: nat, encodes: seq<Record> -> bool,
                          made: seq<Object>): Walk
    requires todo <= m.Keys
    decreases |todo|
  {
    if todo == {} then Walk(m, made, true) else
      var c := Reorg.MinKey(todo);
      if Ready(m[c], rows) == [] then TakeWalk(m, todo - {c}, rows, encodes, made)
      else if !encodes(m[c].records) then Walk(m, made, false)
      else TakeWalk(m[c := Emptied(m[c])], todo - {c}, rows, encodes, made + [ObjectOf(m[c])])
  }

  /** One step of the walk. */
  lemma TakeWalkStep(m: map<nat, Buf>, todo: set<nat>, c: nat, rows: nat, encodes: seq<Record> -> bool,
                     made: seq<Object>)
    requires todo <= m.Keys && Reorg.IsMin(todo, c)
    ensures TakeWalk(m, todo, rows, encodes, made) ==
            if Ready(m[c], rows) == [] then TakeWalk(m, todo - {c}, rows, encodes, made)
            else if !encodes(m[c].records) then Walk(m, made, false)
            else TakeWalk(m[c := Emptied(m[c])], todo - {c}, rows, encodes, made + [ObjectOf(m[c])])
  {
    assert c == Reorg.MinKey(todo);
  }

  lemma TakeWalkDone(m: map<nat, Buf>, rows: nat, encodes: seq<Record> -> bool, made: seq<Object>)
    ensures TakeWalk(m, {}, rows, encodes, made) == Walk(m, made, true)
  {
  }

  /** How many of `n` puts succeed before the first that fails. */
  function PutsDone(n: nat, puts: nat -> bool): (k: nat)
    ensures k <= n
  {
    if n == 0 then 0 else
      var k := PutsDone(n - 1, puts);
      if k == n - 1 && puts(k) then n else k
  }

  /** They are all of them iff none fails, and otherwise the next put is the first that does. */
  lemma {:induction false} AllPutsDone(n: nat, puts: nat -> bool)
    ensures PutsDone(n, puts) == n <==> forall i: nat :: i < n ==> puts(i)
    ensures forall i: nat :: i < PutsDone(n, puts) ==> puts(i)
    ensures PutsDone(n, puts) < n ==> !puts(PutsDone(n, puts))
  {
    if n > 0 {
      AllPutsDone(n - 1, puts);
    }
  }

  // ---- the objects ----

  class Buffer {
    var records: seq<Record>
    var chainId: nat
    var firstBlock: nat
    var lastBlock: nat
    var seen: bool

    constructor ()
      ensures Value() == EMPTY
    {
      records, chainId, firstBlock, lastBlock, seen := [], 0, 0, 0, false;
    }

    function Value(): Buf
      reads this
    {
      Buf(records, chainId, firstBlock, lastBlock, seen)
    }

    method Push(chainId: nat, lo: nat, hi: nat, rs: seq<Record>)
      modifies this
      ensures Value() == Pushed(old(Value()), chainId, lo, hi, rs)
    {
      if rs == [] {
        return;
      }
      this.chainId := chainId;
      if !seen {
        firstBlock := lo;
        seen := true;
      }
      lastBlock := Max(lastBlock, hi);
      records := records + rs;
    }

    /** `encodes` says which record lists can be encoded. */
    method Take(encodes: seq<Record> -> bool) returns (r: Result<Option<Object>, ()>)
      modifies this
      ensures old(records) == [] ==> r == Ok(None) && Value() == old(Value())
      ensures old(records) != [] && !encodes(old(records)) ==> r.Err? && Value() == old(Value())
      ensures old(records) != [] && encodes(old(records)) ==>
              r == Ok(Some(ObjectOf(old(Value())))) && Value() == Emptied(old(Value()))
    {
      if records == [] {
        return Ok(None);
      }
      if !encodes(records) {
        return Err(());
      }
      r := Ok(Some(ObjectOf(Value())));
      records := [];
      seen := false;
      lastBlock := 0;
    }

    method Rollback(fork: nat)
      modifies this
      ensures Value() == RolledBack(old(Value()), fork)
    {
      records := RetainBelow(records, fork + 1);
      if records == [] {
        seen := false;
        firstBlock := 0;
        lastBlock := 0;
      } else {
        lastBlock := Min(lastBlock, fork);
      }
    }
  }

  class ChainBuffers {
    var byChain: map<nat, Buffer>

    constructor ()
      ensures Valid() && Values() == map[] && fresh(byChain.Values)
    {
      byChain := map[];
    }

    ghost predicate Valid()
      reads this
    {
      forall c, d :: c in byChain && d in byChain && c != d ==> byChain[c] != byChain[d]
    }

    ghost function Values(): (m: map<nat, Buf>)
      reads this, byChain.Values
      ensures m.Keys == byChain.Keys
    {
      map c | c in byChain :: byChain[c].Value()
    }

    method Push(chainId: nat, lo: nat, hi: nat, rs: seq<Record>)
      requires Valid()
      modifies this, byChain.Values
      ensures Valid() && fresh(byChain.Values - old(byChain.Values))
      ensures Values() == old(Values())[chainId := Pushed(Get(old(Values()), chainId), chainId, lo, hi, rs)]
    {
      hide Values, Valid;
      Entry(chainId);
      PushInto(chainId, lo, hi, rs);
    }

    method PushInto(chainId: nat, lo: nat, hi: nat, rs: seq<Record>)
      requires Valid() && chainId in byChain
      modifies byChain[chainId]
      ensures Valid()
      ensures Values() == old(Values())[chainId := Pushed(old(Values())[chainId], chainId, lo, hi, rs)]
    {
      byChain[chainId].Push(chainId, lo, hi, rs);
    }

    /** `entry(chain_id).or_default()`. */
    method Entry(chainId: nat)
      requires Valid()
      modifies this
      ensures Valid() && chainId in byChain && fresh(byChain.Values - old(byChain.Values))
      ensures byChain[chainId] in old(byChain.Values) || fresh(byChain[chainId])
      ensures Values() == old(Values())[chainId := Get(old(Values()), chainId)]
    {
      if chainId !in byChain {
        var b := new Buffer();
        assert forall c :: c in byChain ==> byChain[c] != b;
        byChain := byChain[chainId := b];
      }
    }

    /** `take_ready` with the given threshold; `take_all` is the threshold 0. `made` are the objects taken,
        which an error drops. */
    method TakeReady(rows: nat, encodes: seq<Record> -> bool)
      returns (r: Result<seq<Object>, ()>, ghost made: seq<Object>)
      requires Valid()
      modifies byChain.Values
      ensures Valid()
      ensures var w := TakeWalk(old(Values()), old(byChain.Keys), rows, encodes, []);
              Values() == w.bufs && made == w.made && r == if w.complete then Ok(w.made) else Err(())
    {
      hide TakeWalk, Values, Valid;
      var out: seq<Object> := [];
      var todo := byChain.Keys;
      ghost var vals := Values();
      ghost var goal := TakeWalk(vals, todo, rows, encodes, []);
      while todo != {}
        invariant todo <= byChain.Keys && vals == Values() && vals.Keys == byChain.Keys
        invariant goal == TakeWalk(vals, todo, rows, encodes, out)
        decreases |todo|
      {
        Reorg.MinExists(todo);
        var c :| c in todo && forall d :: d in todo ==> c <= d;
        TakeWalkStep(vals, todo, c, rows, encodes, out);
        var taken := TakeOne(c, rows, encodes);
        if taken.Err? {
          return Err(()), out;
        }
        assert out + [] == out;
        vals := Values();
        out := out + taken.value;
        todo := todo - {c};
      }
      TakeWalkDone(vals, rows, encodes, out);
      r, made := Ok(out), out;
    }

    /** Takes one chain's buffer if it is full enough. */
    method TakeOne(c: nat, rows: nat, encodes: seq<Record> -> bool) returns (r: Result<seq<Object>, ()>)
      requires Valid() && c in byChain
      modifies byChain[c]
      ensures Valid()
      ensures var b := old(Values())[c];
              if Ready(b, rows) == [] then r == Ok([]) && Values() == old(Values())
              else if !encodes(b.records) then r.Err? && Values() == old(Values())
              else r == Ok([ObjectOf(b)]) && Values() == old(Values())[c := Emptied(b)]
    {
      r := Ok([]);
      if |byChain[c].records| >= rows {
        var taken := byChain[c].Take(encodes);
        if taken.Err? {
          return Err(());
        }
        r := Ok(if taken.value.Some? then [taken.value.value] else []);
      }
    }

    method Rollback(chainId: nat, fork: nat)
      requires Valid()
      modifies byChain.Values
      ensures Valid()
      ensures Values() ==
              if chainId !in old(Values()) then old(Values())
              else old(Values())[chainId := RolledBack(old(Values())[chainId], fork)]
    {
      if chainId in byChain {
        byChain[chainId].Rollback(fork);
      }
    }
  }

  // ---- the sink over the buffers ----

  /** What the world answers during one write or flush: which lists encode, and which puts succeed. */
  datatype World = World(encodes: seq<Record> -> bool, puts: nat -> bool)

  datatype Op =
    | Push(chainId: nat, lo: nat, hi: nat, records: seq<Record>)
    | Take(rows: nat, world: World)
    | Rollback(chainId: nat, fork: nat)

  /** The buffers, the objects stored, and the objects taken out of the buffers but not stored. */
  datatype SinkState = SinkState(bufs: map<nat, Buf>, stored: seq<Object>, lost: seq<Object>)

  const FRESH := SinkState(map[], [], [])

  ghost function WalkOf(s: SinkState, rows: nat, w: World): Walk {
    TakeWalk(s.bufs, s.bufs.Keys, rows, w.encodes, [])
  }

  /** How many of the objects a take made are stored; none when the walk broke off. */
  ghost function StoredCount(s: SinkState, rows: nat, w: World): nat {
    var walk := WalkOf(s, rows, w);
    if walk.complete then PutsDone(|walk.made|, w.puts) else 0
  }

  ghost predicate TakeOk(s: SinkState, rows: nat, w: World) {
    WalkOf(s, rows, w).complete && StoredCount(s, rows, w) == |WalkOf(s, rows, w).made|
  }

  /** One operation, whatever the world answers. */
  ghost function Apply(s: SinkState, op: Op): SinkState {
    match op
    case Push(c, lo, hi, rs) => s.(bufs := s.bufs[c := Pushed(Get(s.bufs, c), c, lo, hi, rs)])
    case Take(rows, w) =>
      var (walk, k) := (WalkOf(s, rows, w), StoredCount(s, rows, w));
      SinkState(walk.bufs, s.stored + walk.made[..k], s.lost + walk.made[k..])
    case Rollback(c, fork) => if c in s.bufs then s.(bufs := s.bufs[c := RolledBack(s.bufs[c], fork)]) else s
  }

  class S3Sink {
    const flushRows: nat
    const buffers: ChainBuffers
    /** The objects stored so far. */
    var uploaded: seq<Object>
    ghost var dropped: seq<Object>

    constructor (flushRows: nat)
      ensures this.flushRows == Max(flushRows, 1) && buffers.Valid() && Value() == FRESH
    {
      this.flushRows := Max(flushRows, 1);
      this.buffers := new ChainBuffers();
      this.uploaded := [];
      this.dropped := [];
    }

    ghost function Value(): SinkState
      reads this, buffers, buffers.byChain.Values
    {
      SinkState(buffers.Values(), uploaded, dropped)
    }

    /** Uploads in order and stops at the first failed put; the objects from there on are dropped. */
    method PutAll(objects: seq<Object>, puts: nat -> bool) returns (ok: bool)
      modifies this`uploaded, this`dropped
      ensures ok <==> forall i: nat :: i < |objects| ==> puts(i)
      ensures var k := PutsDone(|objects|, puts);
              uploaded == old(uploaded) + objects[..k] && dropped == old(dropped) + objects[k..]
    {
      for i := 0 to |objects|
        invariant PutsDone(i, puts) == i
        invariant uploaded == old(uploaded) + objects[..i] && dropped == old(dropped)
      {
        AllPutsDone(i, puts);
        if !puts(i) {
          PutsStop(|objects|, i, puts);
          dropped := dropped + objects[i..];
          return false;
        }
        uploaded := uploaded + [objects[i]];
      }
      AllPutsDone(|objects|, puts);
      ok := true;
    }

    /** `flush`: takes everything and uploads it. */
    method Flush(w: World) returns (ok: bool)
      requires buffers.Valid()
      modifies this`uploaded, this`dropped, buffers.byChain.Values
      ensures buffers.Valid()
      ensures ok <==> TakeOk(old(Value()), 0, w)
      ensures Value() == Apply(old(Value()), Op.Take(0, w))
    {
      ok := TakeAndPut(0, w);
    }

    method TakeAndPut(rows: nat, w: World) returns (ok: bool)
      requires buffers.Valid()
      modifies this`uploaded, this`dropped, buffers.byChain.Values
      ensures buffers.Valid()
      ensures ok <==> TakeOk(old(Value()), rows, w)
      ensures Value() == Apply(old(Value()), Op.Take(rows, w))
    {
      hide TakeWalk, PutsDone, ChainBuffers.Valid;
      var taken, made := buffers.TakeReady(rows, w.encodes);
      if taken.Err? {
        dropped := dropped + made;
        return false;
      }
      AllPutsDone(|taken.value|, w.puts);
      ok := PutAll(taken.value, w.puts);
    }

    /** `write`: buffers the batch, then takes and uploads the full buffers. An error leaves the batch
        buffered, so a retry buffers it again. */
    method Write(chainId: nat, lo: nat, hi: nat, rs: seq<Record>, w: World) returns (ok: bool)
      requires buffers.Valid()
      modifies this`uploaded, this`dropped, buffers, buffers.byChain.Values
      ensures buffers.Valid()
      ensures var pushed := Apply(old(Value()), Op.Push(chainId, lo, hi, rs));
              (ok <==> TakeOk(pushed, flushRows, w)) && Value() == Apply(pushed, Op.Take(flushRows, w))
    {
      buffers.Push(chainId, lo, hi, rs);
      ok := TakeAndPut(flushRows, w);
    }

    method OnRollback(chainId: nat, fork: nat)
      requires buffers.Valid()
      modifies buffers.byChain.Values
      ensures buffers.Valid() && Value() == Apply(old(Value()), Op.Rollback(chainId, fork))
    {
      buffers.Rollback(chainId, fork);
    }
  }

  lemma {:induction false} PutsStop(n: nat, i: nat, puts: nat -> bool)
    requires i < n && PutsDone(i, puts) == i && !puts(i)
    ensures PutsDone(n, puts) == i
  {
    if i < n - 1 {
      PutsStop(n - 1, i, puts);
    }
  }

  // ---- runs of one sink instance ----

  ghost function RunOps(ops: seq<Op>): SinkState {
    if ops == [] then FRESH else Apply(RunOps(ops[..|ops| - 1]), ops[|ops| - 1])
  }

  ghost function OfChain(os: seq<Object>, c: nat): seq<Record> {
    if os == [] then [] else
      OfChain(os[..|os| - 1], c) + if os[|os| - 1].chainId == c then os[|os| - 1].records else []
  }

  /** Every non-empty buffer is tagged with the chain it is filed under. */
  ghost predicate Tagged(m: map<nat, Buf>) {
    forall c :: c in m && m[c].records != [] ==> m[c].chainId == c
  }

  ghost predicate HasChain(os: seq<Object>, c: nat) {
    exists o :: o in os && o.chainId == c
  }

  ghost predicate DistinctChains(os: seq<Object>) {
    forall i, j :: 0 <= i < j < |os| ==> os[i].chainId != os[j].chainId
  }

  /** The walk either turned chain `c`'s buffer into an object or left it alone; it takes every full buffer
      when it goes through. */
  ghost predicate WalkTakes(m: map<nat, Buf>, todo: set<nat>, rows: nat, made: seq<Object>, walk: Walk, c: nat) {
    && made <= walk.made
    && if HasChain(walk.made[|made|..], c)
       then c in todo && Ready(Get(m, c), rows) != [] && ObjectOf(Get(m, c)) in walk.made[|made|..]
            && Get(m, c).chainId == c && Get(walk.bufs, c) == Emptied(Get(m, c))
       else Get(walk.bufs, c) == Get(m, c) && (walk.complete && c in todo ==> Ready(Get(m, c), rows) == [])
  }

  ghost predicate WalkShape(m: map<nat, Buf>, walk: Walk) {
    walk.bufs.Keys == m.Keys && Tagged(walk.bufs) && DistinctChains(walk.made)
  }

  lemma {:induction false} WalkEffect(m: map<nat, Buf>, todo: set<nat>, rows: nat, encodes: seq<Record> -> bool,
                                      made: seq<Object>, c: nat)
    requires todo <= m.Keys && Tagged(m) && DistinctChains(made)
    requires forall i :: 0 <= i < |made| ==> made[i].chainId !in todo
    ensures var walk := TakeWalk(m, todo, rows, encodes, made);
            WalkShape(m, walk) && WalkTakes(m, todo, rows, made, walk, c)
    decreases |todo|
  {
    if todo != {} {
      var k := Reorg.MinKey(todo);
      if Ready(m[k], rows) == [] {
        WalkEffect(m, todo - {k}, rows, encodes, made, c);
      } else if encodes(m[k].records) {
        var o := ObjectOf(m[k]);
        var m', next := m[k := Emptied(m[k])], made + [o];
        WalkEffect(m', todo - {k}, rows, encodes, next, c);
        var walk := TakeWalk(m', todo - {k}, rows, encodes, next);
        assert walk.made[|made|..] == [o] + walk.made[|next|..];
        OneMore(o, walk.made[|next|..], c);
      } else {
        assert made[|made|..] == [];
      }
    } else {
      assert made[|made|..] == [];
    }
  }

  /** The walk goes through the chains in ascending order. Broken off, it has come to a full buffer that cannot be
      encoded, has taken every full one before it, and none after it. */
  ghost predicate WalksUpTo(m: map<nat, Buf>, todo: set<nat>, rows: nat, encodes: seq<Record> -> bool,
                            taken: seq<Object>, c: nat)
    requires todo <= m.Keys
  {
    && c in todo && Ready(m[c], rows) != [] && !encodes(m[c].records)
    && forall d :: d in todo ==> (HasChain(taken, d) <==> d < c && Ready(m[d], rows) != [])
  }

  ghost predicate InChainOrder(os: seq<Object>) {
    forall i, j :: 0 <= i < j < |os| ==> os[i].chainId < os[j].chainId
  }

  lemma {:induction false} WalkInOrder(m: map<nat, Buf>, todo: set<nat>, rows: nat, encodes: seq<Record> -> bool,
                                       made: seq<Object>)
    requires todo <= m.Keys && Tagged(m)
    ensures var walk := TakeWalk(m, todo, rows, encodes, made);
            && made <= walk.made
            && var taken := walk.made[|made|..];
               && InChainOrder(taken) && (forall o :: o in taken ==> o.chainId in todo)
               && (!walk.complete ==> exists c :: WalksUpTo(m, todo, rows, encodes, taken, c))
    decreases |todo|
  {
    hide WalksUpTo, InChainOrder, HasChain, Ready;
    NothingWalked(made);
    if todo != {} {
      var k := Reorg.MinKey(todo);
      if Ready(m[k], rows) == [] {
        WalkInOrder(m, todo - {k}, rows, encodes, made);
        var taken := TakeWalk(m, todo - {k}, rows, encodes, made).made[|made|..];
        if c :| WalksUpTo(m, todo - {k}, rows, encodes, taken, c) {
          WalkedPast(m, todo, k, rows, encodes, taken, c);
        }
      } else if encodes(m[k].records) {
        var o := ObjectOf(m[k]);
        var m', next := m[k := Emptied(m[k])], made + [o];
        FullIsTagged(m, k, rows);
        WalkInOrder(m', todo - {k}, rows, encodes, next);
        var walk := TakeWalk(m', todo - {k}, rows, encodes, next);
        var later := walk.made[|next|..];
        assert walk.made[|made|..] == [o] + later;
        LaterInOrder(todo, k, o, later);
        if c :| WalksUpTo(m', todo - {k}, rows, encodes, later, c) {
          WalkedOneMore(m, m', todo, k, rows, encodes, o, later, c);
        }
      } else {
        StuckAtOnce(m, todo, k, rows, encodes);
      }
    }
  }

  lemma NothingWalked(made: seq<Object>)
    ensures made[|made|..] == [] && InChainOrder([])
  {
  }

  lemma FullIsTagged(m: map<nat, Buf>, k: nat, rows: nat)
    requires Tagged(m) && k in m && Ready(m[k], rows) != []
    ensures m[k].chainId == k && Tagged(m[k := Emptied(m[k])])
  {
  }

  lemma LaterInOrder(todo: set<nat>, k: nat, o: Object, later: seq<Object>)
    requires Reorg.IsMin(todo, k) && o.chainId == k && InChainOrder(later)
    requires forall x :: x in later ==> x.chainId in todo - {k}
    ensures InChainOrder([o] + later) && forall x :: x in [o] + later ==> x.chainId in todo
  {
    forall j | 0 <= j < |later| ensures k < later[j].chainId {
      assert later[j] in later;
    }
  }

  lemma StuckAtOnce(m: map<nat, Buf>, todo: set<nat>, k: nat, rows: nat, encodes: seq<Record> -> bool)
    requires todo <= m.Keys && Reorg.IsMin(todo, k) && Ready(m[k], rows) != [] && !encodes(m[k].records)
    ensures WalksUpTo(m, todo, rows, encodes, [], k)
  {
  }

  lemma WalkedPast(m: map<nat, Buf>, todo: set<nat>, k: nat, rows: nat, encodes: seq<Record> -> bool,
                   taken: seq<Object>, c: nat)
    requires todo <= m.Keys && k in todo && Ready(m[k], rows) == []
    requires (forall o :: o in taken ==> o.chainId in todo - {k}) && WalksUpTo(m, todo - {k}, rows, encodes, taken, c)
    ensures WalksUpTo(m, todo, rows, encodes, taken, c)
  {
    assert !HasChain(taken, k);
  }

  lemma WalkedOneMore(m: map<nat, Buf>, m': map<nat, Buf>, todo: set<nat>, k: nat, rows: nat,
                      encodes: seq<Record> -> bool, o: Object, later: seq<Object>, c: nat)
    requires todo <= m.Keys && Reorg.IsMin(todo, k) && m' == m[k := Emptied(m[k])] && Ready(m[k], rows) != []
    requires o == ObjectOf(m[k]) && m[k].chainId == k && WalksUpTo(m', todo - {k}, rows, encodes, later, c)
    ensures WalksUpTo(m, todo, rows, encodes, [o] + later, c)
  {
    forall d | d in todo ensures HasChain([o] + later, d) <==> d < c && Ready(m[d], rows) != [] {
      OneMore(o, later, d);
      assert d != k ==> d in todo - {k} && m'[d] == m[d];
    }
  }

  lemma OneMore(o: Object, rest: seq<Object>, c: nat)
    ensures HasChain([o] + rest, c) <==> o.chainId == c || HasChain(rest, c)
  {
    if HasChain(rest, c) {
      var x :| x in rest && x.chainId == c;
      assert x in [o] + rest;
    }
    assert o in [o] + rest;
  }

  // ---- the fate of every pushed record ----

  datatype Fate = Buffered | Stored | Lost | Purged(fork: nat)
  datatype Tracked = Tracked(record: Record, fate: Fate)

  ghost function Arrivals(rs: seq<Record>): seq<Tracked> {
    seq(|rs|, i requires 0 <= i < |rs| => Tracked(rs[i], Buffered))
  }

  /** Whatever was buffered meets this fate. */
  ghost function Settle(h: seq<Tracked>, fate: Fate): seq<Tracked> {
    seq(|h|, i requires 0 <= i < |h| => if h[i].fate == Buffered then h[i].(fate := fate) else h[i])
  }

  ghost function PurgePast(h: seq<Tracked>, fork: nat): seq<Tracked> {
    seq(|h|, i requires 0 <= i < |h| =>
      if h[i].fate == Buffered && !Below(h[i].record, fork + 1) then h[i].(fate := Purged(fork)) else h[i])
  }

  /** What a take does with chain `c`'s buffer. */
  ghost function TakeFate(s: SinkState, rows: nat, w: World, c: nat): Fate {
    var (made, k) := (WalkOf(s, rows, w).made, StoredCount(s, rows, w));
    if HasChain(made[..k], c) then Stored else if HasChain(made[k..], c) then Lost else Buffered
  }

  /** What became of each record pushed for chain `c`, in push order. */
  ghost function History(ops: seq<Op>, c: nat): seq<Tracked> {
    if ops == [] then [] else
      var before := ops[..|ops| - 1];
      var h := History(before, c);
      match ops[|ops| - 1]
      case Push(d, _, _, rs) => if d == c then h + Arrivals(rs) else h
      case Take(rows, w) => Settle(h, TakeFate(RunOps(before), rows, w, c))
      case Rollback(d, fork) => if d == c then PurgePast(h, fork) else h
  }

  ghost function PushedTo(ops: seq<Op>, c: nat): seq<Record> {
    if ops == [] then [] else
      var op := ops[|ops| - 1];
      PushedTo(ops[..|ops| - 1], c) + if op.Push? && op.chainId == c then op.records else []
  }

  ghost function AllRecords(h: seq<Tracked>): seq<Record> {
    seq(|h|, i requires 0 <= i < |h| => h[i].record)
  }

  ghost function Select(h: seq<Tracked>, fate: Fate): seq<Record> {
    if h == [] then [] else
      Select(h[..|h| - 1], fate) + if h[|h| - 1].fate == fate then [h[|h| - 1].record] else []
  }

  lemma {:induction false} SelectAppend(a: seq<Tracked>, b: seq<Tracked>, fate: Fate)
    ensures Select(a + b, fate) == Select(a, fate) + Select(b, fate)
  {
    if b == [] {
      assert a + b == a;
    } else {
      SelectAppend(a, b[..|b| - 1], fate);
      assert (a + b)[..|a + b| - 1] == a + b[..|b| - 1];
    }
  }

  lemma {:induction false} SelectArrivals(rs: seq<Record>, fate: Fate)
    ensures Select(Arrivals(rs), fate) == if fate == Buffered then rs else []
  {
    if rs != [] {
      SelectArrivals(rs[..|rs| - 1], fate);
      assert Arrivals(rs)[..|rs| - 1] == Arrivals(rs[..|rs| - 1]);
    }
  }

  /** Nothing taken comes after something still buffered. */
  ghost predicate TakenFirst(h: seq<Tracked>) {
    forall i, j :: 0 <= i < j < |h| && h[i].fate == Buffered ==> h[j].fate != Stored && h[j].fate != Lost
  }

  lemma {:induction false} SelectAfterSettle(h: seq<Tracked>, fate: Fate, other: Fate)
    requires TakenFirst(h) && (fate == Stored || fate == Lost)
    ensures Select(Settle(h, fate), other) ==
            if other == Buffered then []
            else if other == fate then Select(h, fate) + Select(h, Buffered)
            else Select(h, other)
  {
    if h != [] {
      var init, last := h[..|h| - 1], h[|h| - 1];
      TakenFirstBefore(h);
      SettleSnoc(h, fate, other);
      hide Settle, TakenFirst;
      SelectAfterSettle(init, fate, other);
      var taken, held, r := Select(init, fate), Select(init, Buffered), [last.record];
      if last.fate == fate {
        assert held == [] && taken + r + [] == taken + [] + r;
      } else if last.fate == Buffered {
        assert taken + (held + r) == taken + held + r;
      }
    }
  }

  lemma TakenFirstBefore(h: seq<Tracked>)
    requires TakenFirst(h) && h != []
    ensures TakenFirst(h[..|h| - 1])
    ensures h[|h| - 1].fate == Stored || h[|h| - 1].fate == Lost ==> Select(h[..|h| - 1], Buffered) == []
  {
    if h[|h| - 1].fate == Stored || h[|h| - 1].fate == Lost {
      NoneBuffered(h[..|h| - 1]);
    }
  }

  lemma SettleSnoc(h: seq<Tracked>, fate: Fate, other: Fate)
    requires h != []
    ensures var (init, last) := (h[..|h| - 1], h[|h| - 1]);
            Select(Settle(h, fate), other) ==
            Select(Settle(init, fate), other)
            + if (if last.fate == Buffered then fate else last.fate) == other then [last.record] else []
  {
    assert Settle(h, fate)[..|h| - 1] == Settle(h[..|h| - 1], fate);
  }

  lemma {:induction false} NoneBuffered(h: seq<Tracked>)
    requires forall i :: 0 <= i < |h| ==> h[i].fate != Buffered
    ensures Select(h, Buffered) == []
  {
    if h != [] {
      NoneBuffered(h[..|h| - 1]);
    }
  }

  lemma {:induction false} BufferedAfterPurge(h: seq<Tracked>, fork: nat)
    ensures Select(PurgePast(h, fork), Buffered) == Retain(Select(h, Buffered), fork + 1)
  {
    if h != [] {
      var init, last := h[..|h| - 1], h[|h| - 1];
      BufferedAfterPurge(init, fork);
      assert PurgePast(h, fork)[..|h| - 1] == PurgePast(init, fork);
      if last.fate == Buffered {
        RetainAppend(Select(init, Buffered), [last.record], fork + 1);
        RetainOne(last.record, fork + 1);
      } else {
        assert Select(init, Buffered) + [] == Select(init, Buffered);
      }
    }
  }

  lemma {:induction false} TakenAfterPurge(h: seq<Tracked>, fork: nat, fate: Fate)
    requires fate == Stored || fate == Lost
    ensures Select(PurgePast(h, fork), fate) == Select(h, fate)
  {
    if h != [] {
      TakenAfterPurge(h[..|h| - 1], fork, fate);
      assert PurgePast(h, fork)[..|h| - 1] == PurgePast(h[..|h| - 1], fork);
    }
  }

  /** The purged record lies past a fork that was rolled back to. */
  ghost predicate FateOk(ops: seq<Op>, c: nat, t: Tracked) {
    t.fate.Purged? ==> !Below(t.record, t.fate.fork + 1) && Op.Rollback(c, t.fate.fork) in ops
  }

  /** What a run has made of one chain's records. */
  datatype Ledger = Ledger(pushed: seq<Record>, buffered: seq<Record>, stored: seq<Record>, lost: seq<Record>)

  ghost function LedgerOf(ops: seq<Op>, c: nat): Ledger {
    var s := RunOps(ops);
    Ledger(PushedTo(ops, c), Get(s.bufs, c).records, OfChain(s.stored, c), OfChain(s.lost, c))
  }

  /** The history accounts for every entry of the ledger, in order. */
  ghost predicate Accounts(h: seq<Tracked>, l: Ledger) {
    && AllRecords(h) == l.pushed
    && Select(h, Buffered) == l.buffered
    && Select(h, Stored) == l.stored
    && Select(h, Lost) == l.lost
    && TakenFirst(h)
  }

  lemma AccountsAfterPush(h: seq<Tracked>, l: Ledger, rs: seq<Record>)
    requires Accounts(h, l)
    ensures Accounts(h + Arrivals(rs), l.(pushed := l.pushed + rs, buffered := l.buffered + rs))
  {
    forall fate ensures Select(h + Arrivals(rs), fate) == Select(h, fate) + if fate == Buffered then rs else [] {
      SelectAppend(h, Arrivals(rs), fate);
      SelectArrivals(rs, fate);
    }
  }

  lemma AccountsAfterTake(h: seq<Tracked>, l: Ledger, fate: Fate)
    requires Accounts(h, l) && (fate == Stored || fate == Lost)
    ensures Accounts(Settle(h, fate),
                     if fate == Stored then l.(buffered := [], stored := l.stored + l.buffered)
                     else l.(buffered := [], lost := l.lost + l.buffered))
  {
    hide Select;
    SelectAfterSettle(h, fate, Buffered);
    SelectAfterSettle(h, fate, Stored);
    SelectAfterSettle(h, fate, Lost);
    assert AllRecords(Settle(h, fate)) == AllRecords(h);
  }

  lemma AccountsAfterPurge(h: seq<Tracked>, l: Ledger, fork: nat)
    requires Accounts(h, l)
    ensures Accounts(PurgePast(h, fork), l.(buffered := Retain(l.buffered, fork + 1)))
  {
    BufferedAfterPurge(h, fork);
    TakenAfterPurge(h, fork, Stored);
    TakenAfterPurge(h, fork, Lost);
    assert AllRecords(PurgePast(h, fork)) == AllRecords(h);
  }

  /** What a run has done with chain `c`. */
  ghost predicate Conserved(ops: seq<Op>, c: nat) {
    Accounts(History(ops, c), LedgerOf(ops, c)) && FatesOk(ops, c, History(ops, c))
  }

  ghost predicate FatesOk(ops: seq<Op>, c: nat, h: seq<Tracked>) {
    forall i :: 0 <= i < |h| ==> FateOk(ops, c, h[i])
  }

  lemma {:induction false} StaysTagged(ops: seq<Op>)
    ensures Tagged(RunOps(ops).bufs)
  {
    if ops != [] {
      StaysTagged(ops[..|ops| - 1]);
      var s, op := RunOps(ops[..|ops| - 1]), ops[|ops| - 1];
      if op.Take? {
        WalkEffect(s.bufs, s.bufs.Keys, op.rows, op.world.encodes, [], 0);
      }
    }
  }

  lemma {:induction false} OfChainAppend(a: seq<Object>, b: seq<Object>, c: nat)
    ensures OfChain(a + b, c) == OfChain(a, c) + OfChain(b, c)
  {
    if b == [] {
      assert a + b == a;
    } else {
      OfChainAppend(a, b[..|b| - 1], c);
      assert (a + b)[..|a + b| - 1] == a + b[..|b| - 1];
    }
  }

  lemma {:induction false} OfOtherChains(os: seq<Object>, c: nat)
    requires !HasChain(os, c)
    ensures OfChain(os, c) == []
  {
    if os != [] {
      assert os[|os| - 1] in os;
      OfOtherChains(os[..|os| - 1], c);
    }
  }

  lemma ChainsDiffer(a: seq<Object>, b: seq<Object>, x: Object, y: Object)
    requires DistinctChains(a + b) && x in a && y in b
    ensures x.chainId != y.chainId
  {
    var i :| 0 <= i < |a| && a[i] == x;
    var j :| 0 <= j < |b| && b[j] == y;
    assert (a + b)[i].chainId != (a + b)[|a| + j].chainId;
  }

  lemma {:induction false} OfOneChain(os: seq<Object>, o: Object)
    requires DistinctChains(os) && o in os
    ensures OfChain(os, o.chainId) == o.records
  {
    var init, last := os[..|os| - 1], os[|os| - 1];
    assert os == init + [last];
    if last == o {
      forall x | x in init ensures x.chainId != o.chainId {
        ChainsDiffer(init, [last], x, o);
      }
      OfOtherChains(init, o.chainId);
    } else {
      ChainsDiffer(init, [last], o, last);
      OfOneChain(init, o);
      assert OfChain(init, o.chainId) + [] == OfChain(init, o.chainId);
    }
  }

  lemma FatesOutlive(ops: seq<Op>, op: Op, c: nat, h: seq<Tracked>)
    requires FatesOk(ops, c, h)
    ensures FatesOk(ops + [op], c, h)
    ensures FatesOk(ops + [op], c, Settle(h, Stored)) && FatesOk(ops + [op], c, Settle(h, Lost))
    ensures FatesOk(ops + [op], c, Settle(h, Buffered))
    ensures op.Push? ==> FatesOk(ops + [op], c, h + Arrivals(op.records))
    ensures op.Rollback? && op.chainId == c ==> FatesOk(ops + [op], c, PurgePast(h, op.fork))
  {
    assert op in ops + [op];
    assert forall i :: 0 <= i < |h| ==> FateOk(ops + [op], c, h[i]);
  }

  lemma PushConserves(ops: seq<Op>, op: Op, c: nat)
    requires Conserved(ops, c) && op.Push?
    ensures Conserved(ops + [op], c)
  {
    assert (ops + [op])[..|ops + [op]| - 1] == ops;
    FatesOutlive(ops, op, c, History(ops, c));
    if op.chainId == c {
      AccountsAfterPush(History(ops, c), LedgerOf(ops, c), op.records);
      assert LedgerOf(ops, c).buffered + op.records == LedgerOf(ops + [op], c).buffered;
    } else {
      assert PushedTo(ops, c) + [] == PushedTo(ops, c);
    }
  }

  /** What a take does to one chain: its whole buffer is stored, or lost, or left alone. */
  lemma ApplyTake(s: SinkState, rows: nat, w: World, c: nat)
    requires Tagged(s.bufs)
    ensures var (t, b) := (Apply(s, Op.Take(rows, w)), Get(s.bufs, c));
            match TakeFate(s, rows, w, c)
            case Stored => (
              && Ready(b, rows) != [] && Get(t.bufs, c) == Emptied(b)
              && OfChain(t.stored, c) == OfChain(s.stored, c) + b.records && OfChain(t.lost, c) == OfChain(s.lost, c))
            case Lost => (
              && Ready(b, rows) != [] && !TakeOk(s, rows, w) && Get(t.bufs, c) == Emptied(b)
              && OfChain(t.lost, c) == OfChain(s.lost, c) + b.records && OfChain(t.stored, c) == OfChain(s.stored, c))
            case _ => (
              && Get(t.bufs, c) == b && (TakeOk(s, rows, w) ==> Ready(b, rows) == [])
              && OfChain(t.stored, c) == OfChain(s.stored, c) && OfChain(t.lost, c) == OfChain(s.lost, c))
  {
    hide TakeWalk, HasChain, OfChain, DistinctChains, Emptied, Tagged;
    WalkEffect(s.bufs, s.bufs.Keys, rows, w.encodes, [], c);
    var walk, k := WalkOf(s, rows, w), StoredCount(s, rows, w);
    var made := walk.made;
    OfChainAppend(s.stored, made[..k], c);
    OfChainAppend(s.lost, made[k..], c);
    assert made[0..] == made == made[..k] + made[k..];
    if HasChain(made, c) {
      var o := ObjectOf(Get(s.bufs, c));
      SplitOfChain(made, k, o);
    } else {
      SplitOfOthers(made, k, c);
    }
  }

  lemma SplitOfOthers(made: seq<Object>, k: nat, c: nat)
    requires k <= |made| && !HasChain(made, c)
    ensures !HasChain(made[..k], c) && !HasChain(made[k..], c)
    ensures OfChain(made[..k], c) == [] == OfChain(made[k..], c)
  {
    assert made == made[..k] + made[k..];
    OfOtherChains(made[..k], c);
    OfOtherChains(made[k..], c);
  }

  lemma SplitOfChain(made: seq<Object>, k: nat, o: Object)
    requires k <= |made| && DistinctChains(made) && o in made
    ensures HasChain(made[..k], o.chainId) <==> !HasChain(made[k..], o.chainId)
    ensures HasChain(made[..k], o.chainId) ==>
            OfChain(made[..k], o.chainId) == o.records && OfChain(made[k..], o.chainId) == []
    ensures !HasChain(made[..k], o.chainId) ==>
            OfChain(made[..k], o.chainId) == [] && OfChain(made[k..], o.chainId) == o.records
    ensures !HasChain(made[..k], o.chainId) ==> k < |made|
  {
    var a, b := made[..k], made[k..];
    assert made == a + b;
    if o in a {
      forall x | x in b ensures x.chainId != o.chainId {
        ChainsDiffer(a, b, o, x);
      }
      OfOneChain(a, o);
      OfOtherChains(b, o.chainId);
    } else {
      forall x | x in a ensures x.chainId != o.chainId {
        ChainsDiffer(a, b, x, o);
      }
      OfOneChain(b, o);
      OfOtherChains(a, o.chainId);
    }
  }

  lemma TakeNeverPurges(s: SinkState, rows: nat, w: World, c: nat)
    ensures !TakeFate(s, rows, w, c).Purged?
  {
  }

  lemma TakeConserves(ops: seq<Op>, op: Op, c: nat)
    requires Conserved(ops, c) && op.Take?
    ensures Conserved(ops + [op], c)
  {
    hide TakeWalk, TakeFate, Apply, TakeOk;
    var s, h := RunOps(ops), History(ops, c);
    assert (ops + [op])[..|ops + [op]| - 1] == ops;
    FatesOutlive(ops, op, c, h);
    StaysTagged(ops);
    ApplyTake(s, op.rows, op.world, c);
    assert PushedTo(ops, c) + [] == PushedTo(ops, c);
    var fate := TakeFate(s, op.rows, op.world, c);
    TakeNeverPurges(s, op.rows, op.world, c);
    if fate.Buffered? {
      assert Settle(h, Buffered) == h;
    } else {
      AccountsAfterTake(h, LedgerOf(ops, c), fate);
    }
  }

  lemma RollbackConserves(ops: seq<Op>, op: Op, c: nat)
    requires Conserved(ops, c) && op.Rollback?
    ensures Conserved(ops + [op], c)
  {
    var h := History(ops, c);
    assert (ops + [op])[..|ops + [op]| - 1] == ops;
    FatesOutlive(ops, op, c, h);
    assert PushedTo(ops, c) + [] == PushedTo(ops, c);
    if op.chainId == c {
      AccountsAfterPurge(h, LedgerOf(ops, c), op.fork);
    }
  }

  /** Buffer conservation: whatever encodings and puts fail, the records pushed for a chain are, in order,
      exactly those in stored objects of that chain, in objects taken and not stored, still buffered, or
      purged past a fork; so no object mixes chains. */
  lemma {:induction false} BuffersConserve(ops: seq<Op>, c: nat)
    ensures Conserved(ops, c)
  {
    if ops != [] {
      var before, op := ops[..|ops| - 1], ops[|ops| - 1];
      BuffersConserve(before, c);
      assert before + [op] == ops;
      match op {
        case Push(_, _, _, _) => PushConserves(before, op, c);
        case Take(_, _) => TakeConserves(before, op, c);
        case Rollback(_, _) => RollbackConserves(before, op, c);
      }
    }
  }

  /** A write or flush loses nothing it took iff it took nothing, or every list it came to encoded and
      every put succeeded. */
  lemma TakeLosesNothingIff(s: SinkState, rows: nat, w: World)
    ensures Apply(s, Op.Take(rows, w)).lost == s.lost <==>
            || WalkOf(s, rows, w).made == []
            || (WalkOf(s, rows, w).complete && forall i: nat :: i < |WalkOf(s, rows, w).made| ==> w.puts(i))
  {
    hide TakeWalk;
    var made, k := WalkOf(s, rows, w).made, StoredCount(s, rows, w);
    AllPutsDone(|made|, w.puts);
    assert |s.lost + made[k..]| == |s.lost| + |made| - k;
    if k == |made| {
      assert s.lost + made[k..] == s.lost;
    }
  }

  /** A flush (threshold 0) that reports success has stored everything and left nothing buffered; it
      reports success whenever every list encodes and every put succeeds. */
  lemma FlushEmpties(ops: seq<Op>, w: World, c: nat)
    ensures var (l, t) := (LedgerOf(ops, c), LedgerOf(ops + [Take(0, w)], c));
            TakeOk(RunOps(ops), 0, w) ==> t.buffered == [] && t.stored == l.stored + l.buffered && t.lost == l.lost
    ensures (forall rs :: w.encodes(rs)) && (forall i :: w.puts(i)) ==> TakeOk(RunOps(ops), 0, w)
  {
    var all, s := ops + [Take(0, w)], RunOps(ops);
    assert all[..|all| - 1] == ops;
    StaysTagged(ops);
    ApplyTake(s, 0, w, c);
    if (forall rs :: w.encodes(rs)) && forall i :: w.puts(i) {
      AllPutsDone(|WalkOf(s, 0, w).made|, w.puts);
      WalkGoesThrough(s.bufs, s.bufs.Keys, 0, w.encodes, []);
    }
  }

  lemma {:induction false} WalkGoesThrough(m: map<nat, Buf>, todo: set<nat>, rows: nat,
                                           encodes: seq<Record> -> bool, made: seq<Object>)
    requires todo <= m.Keys && forall rs :: encodes(rs)
    ensures TakeWalk(m, todo, rows, encodes, made).complete
    decreases |todo|
  {
    if todo != {} {
      var c := Reorg.MinKey(todo);
      if Ready(m[c], rows) == [] {
        WalkGoesThrough(m, todo - {c}, rows, encodes, made);
      } else {
        WalkGoesThrough(m[c := Emptied(m[c])], todo - {c}, rows, encodes, made + [ObjectOf(m[c])]);
      }
    }
  }

  /** A write or timed take with a positive threshold that succeeds stores exactly the chains' buffers that have
      reached it, whole, and leaves the others as they were. */
  lemma TakesExactlyTheFull(ops: seq<Op>, rows: nat, w: World, c: nat)
    requires rows >= 1 && TakeOk(RunOps(ops), rows, w)
    ensures var (l, t) := (LedgerOf(ops, c), LedgerOf(ops + [Take(rows, w)], c));
            && t.lost == l.lost
            && (if |l.buffered| >= rows then t.buffered == [] && t.stored == l.stored + l.buffered
                else t.buffered == l.buffered && t.stored == l.stored)
  {
    var all := ops + [Take(rows, w)];
    assert all[..|all| - 1] == ops;
    StaysTagged(ops);
    ApplyTake(RunOps(ops), rows, w, c);
  }

  // ---- key bounds ----

  /** Where the next push for chain `c` may start. */
  ghost function Frontier(ops: seq<Op>, c: nat): nat {
    if ops == [] then 0 else
      var before := Frontier(ops[..|ops| - 1], c);
      match ops[|ops| - 1]
      case Push(d, lo, _, rs) => if d == c && rs != [] then lo else before
      case Take(_, _) => before
      case Rollback(d, fork) => if d == c then Min(before, fork + 1) else before
  }

  /** Pushes for chain `c` come in block order, restarting after a fork when one is rolled back. */
  ghost predicate InBlockOrder(ops: seq<Op>, c: nat) {
    ops != [] ==>
      var (before, op) := (ops[..|ops| - 1], ops[|ops| - 1]);
      InBlockOrder(before, c) &&
      (op.Push? && op.chainId == c ==>
        && Frontier(before, c) <= op.lo
        && forall i :: 0 <= i < |op.records| ==> InRange(op.records[i], op.lo, op.hi))
  }

  ghost predicate InRange(r: Record, lo: nat, hi: nat) {
    r.block.Some? && lo <= r.block.value < hi
  }

  ghost predicate KeyBounds(b: Buf) {
    forall i :: 0 <= i < |b.records| ==> b.records[i].block.Some? && b.first <= b.records[i].block.value <= b.last
  }

  lemma {:induction false} RetainMembers(rs: seq<Record>, bound: nat)
    ensures forall r :: r in Retain(rs, bound) <==> r in rs && Below(r, bound)
  {
    if rs != [] {
      RetainMembers(rs[..|rs| - 1], bound);
      assert rs == rs[..|rs| - 1] + [rs[|rs| - 1]];
    }
  }

  lemma RollbackKeepsBounds(b: Buf, fork: nat, frontier: nat)
    requires KeyBounds(b) && (b.records != [] ==> b.seen) && (b.seen ==> b.first <= frontier)
    ensures var t := RolledBack(b, fork);
            KeyBounds(t) && (t.records != [] ==> t.seen) && (t.seen ==> t.first <= Min(frontier, fork + 1))
  {
    RetainMembers(b.records, fork + 1);
    var t := RolledBack(b, fork);
    forall i | 0 <= i < |t.records|
      ensures t.records[i].block.Some? && b.first <= t.records[i].block.value <= Min(b.last, fork)
    {
      assert t.records[i] in Retain(b.records, fork + 1);
    }
    if t.records != [] {
      assert t.records[0].block.value <= fork;
    }
  }

  /** With pushes in block order every buffered record lies within the bounds its object key will claim. */
  lemma {:induction false} KeyBoundsHold(ops: seq<Op>, c: nat)
    requires InBlockOrder(ops, c)
    ensures var b := Get(RunOps(ops).bufs, c);
            KeyBounds(b) && (b.records != [] ==> b.seen) && (b.seen ==> b.first <= Frontier(ops, c))
  {
    if ops != [] {
      var before, op := ops[..|ops| - 1], ops[|ops| - 1];
      KeyBoundsHold(before, c);
      var s := RunOps(before);
      match op {
        case Push(_, _, _, _) =>
        case Take(rows, w) =>
          StaysTagged(before);
          ApplyTake(s, rows, w, c);
        case Rollback(d, fork) =>
          RollbackKeepsBounds(Get(s.bufs, c), fork, Frontier(before, c));
      }
    }
  }

  /** What has gone into chain `c`'s buffer, pushes and rollbacks, since it was last empty. */
  ghost function Since(ops: seq<Op>, c: nat): seq<Op> {
    if ops == [] then [] else
      var (before, op) := (ops[..|ops| - 1], ops[|ops| - 1]);
      match op
      case Push(d, _, _, rs) => if d == c && rs != [] then Since(before, c) + [op] else Since(before, c)
      case Take(rows, w) => if TakeFate(RunOps(before), rows, w, c).Buffered? then Since(before, c) else []
      case Rollback(d, _) =>
        if d != c then Since(before, c)
        else if Get(RunOps(ops).bufs, c).records == [] then [] else Since(before, c) + [op]
  }

  /** The greatest range end pushed, cut at the forks rolled back to. */
  ghost function Reach(ops: seq<Op>): nat {
    if ops == [] then 0 else
      var before := Reach(ops[..|ops| - 1]);
      match ops[|ops| - 1]
      case Push(_, _, hi, _) => Max(before, hi)
      case Take(_, _) => before
      case Rollback(_, fork) => Min(before, fork)
  }

  /** A buffer's key spans exactly what has gone in since it was last empty: it starts where the first of those
      pushes starts and ends where they reach. Nothing of an earlier object's range is left in it. */
  lemma {:induction false} KeySpansItsPushes(ops: seq<Op>, c: nat)
    ensures var (b, since) := (Get(RunOps(ops).bufs, c), Since(ops, c));
            && (since == [] <==> b.records == [])
            && (if since == [] then !b.seen && b.last == 0
                else since[0].Push? && b.seen && b.first == since[0].lo && b.last == Reach(since))
  {
    if ops != [] {
      var before, op := ops[..|ops| - 1], ops[|ops| - 1];
      KeySpansItsPushes(before, c);
      var since := Since(before, c);
      assert (since + [op])[..|since|] == since;
      if op.Take? {
        StaysTagged(before);
        ApplyTake(RunOps(before), op.rows, op.world, c);
        TakeNeverPurges(RunOps(before), op.rows, op.world, c);
      }
    }
  }

  /** The key tells the number of records, and every record's block lies within it. */
  ghost predicate KeyIsTrue(o: Object) {
    o.records != [] && o.rows == |o.records|
    && forall i :: 0 <= i < |o.records| ==> o.records[i].block.Some? && o.first <= o.records[i].block.value <= o.last
  }

  /** An object a take makes is the whole buffer of its chain. */
  lemma MadeFromBuffer(s: SinkState, rows: nat, w: World, o: Object)
    requires Tagged(s.bufs) && o in WalkOf(s, rows, w).made
    ensures o == ObjectOf(Get(s.bufs, o.chainId)) && Get(s.bufs, o.chainId).records != []
  {
    WalkEffect(s.bufs, s.bufs.Keys, rows, w.encodes, [], o.chainId);
    var made := WalkOf(s, rows, w).made;
    assert made[0..] == made && HasChain(made, o.chainId);
    var mine := ObjectOf(Get(s.bufs, o.chainId));
    var i :| 0 <= i < |made| && made[i] == o;
    var j :| 0 <= j < |made| && made[j] == mine;
    assert made[i].chainId == made[j].chainId;
  }

  /** With every chain's pushes in block order, the key of every object made, stored or not, is true. */
  lemma {:induction false} ObjectKeysAreTrue(ops: seq<Op>)
    requires forall c :: InBlockOrder(ops, c)
    ensures forall o :: o in RunOps(ops).stored || o in RunOps(ops).lost ==> KeyIsTrue(o)
  {
    if ops != [] {
      var before, op := ops[..|ops| - 1], ops[|ops| - 1];
      assert forall c :: InBlockOrder(ops, c) ==> InBlockOrder(before, c);
      ObjectKeysAreTrue(before);
      if op.Take? {
        var s := RunOps(before);
        var made := WalkOf(s, op.rows, op.world).made;
        StaysTagged(before);
        forall o | o in made ensures KeyIsTrue(o) {
          MadeFromBuffer(s, op.rows, op.world, o);
          KeyBoundsHold(before, o.chainId);
        }
        var k := StoredCount(s, op.rows, op.world);
        assert made == made[..k] + made[k..];
      }
    }
  }
}

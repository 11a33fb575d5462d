/** The checkpoint store: per-(source, sink) cursors and module key-values over a durable database. */
module Checkpoint {
  import opened Common

  datatype Key = Key(source: string, sink: string)
  type Cursors = map<Key, nat>

  datatype KvKey = KvKey(mod: string, key: string)
  type Bytes = seq<bv8>

  // ---- cursor operations as functions ----

  /** `ack` never lowers a watermark. */
  function Acked(c: Cursors, k: Key, next: nat): Cursors {
    c[k := if k in c then Max(c[k], next) else next]
  }

  /** `rewind` never raises one. */
  function Rewound(c: Cursors, k: Key, next: nat): Cursors {
    c[k := if k in c then Min(c[k], next) else next]
  }

  /** The write-through of a rewind: lowers an existing, higher row only. */
  function RewoundRow(db: Cursors, k: Key, next: nat): Cursors {
    if k in db && db[k] > next then db[k := next] else db
  }

  /** A snapshot value floored at the live watermark. */
  function Floored(live: Cursors, k: Key, next: nat): nat {
    if k in live then Min(next, live[k]) else next
  }

  function PersistedCursors(db: Cursors, live: Cursors, snapshot: Cursors): Cursors {
    db + FlooredRows(live, snapshot)
  }

  function FlooredRows(live: Cursors, snapshot: Cursors): Cursors {
    map k | k in snapshot :: Floored(live, k, snapshot[k])
  }

  function At(c: Cursors, k: Key): Option<nat> {
    if k in c then Some(c[k]) else None
  }

  /** `v` is the lower of `next` and the cursor, if there is one. */
  ghost predicate LowerOf(v: nat, cursor: Option<nat>, next: nat) {
    && v <= next && (cursor.Some? ==> v <= cursor.value)
    && (v == next || cursor == Some(v))
  }

  /** The cursor after a series of acks. */
  function AckedAll(c: Cursors, k: Key, ns: seq<nat>): Cursors {
    if ns == [] then c else Acked(AckedAll(c, k, ns[..|ns| - 1]), k, ns[|ns| - 1])
  }

  /** Over any series of acks the cursor becomes the maximum of them and of where it stood. */
  lemma {:induction false} AcksReachMaximum(c: Cursors, k: Key, ns: seq<nat>)
    ensures var t := AckedAll(c, k, ns);
            && (k in t <==> k in c || ns != [])
            && (forall i :: 0 <= i < |ns| ==> t[k] >= ns[i]) && (k in c ==> t[k] >= c[k])
            && (k in t ==> t[k] in ns || (k in c && t[k] == c[k]))
            && (forall j :: j != k ==> At(t, j) == At(c, j))
  {
    if ns != [] {
      AcksReachMaximum(c, k, ns[..|ns| - 1]);
      assert ns == ns[..|ns| - 1] + [ns[|ns| - 1]];
    }
  }

  /** `r` is the restart block of `source`: the least cursor over its sinks, none if one is missing. */
  ghost predicate RestartsAt(c: Cursors, source: string, sinks: seq<string>, r: Option<nat>) {
    && (r.Some? <==> sinks != [] && forall i :: 0 <= i < |sinks| ==> Key(source, sinks[i]) in c)
    && (r.Some? ==> forall i :: 0 <= i < |sinks| ==> r.value <= c[Key(source, sinks[i])])
    && (r.Some? ==> exists i :: 0 <= i < |sinks| && r.value == c[Key(source, sinks[i])])
  }

  // ---- the durable database and the store over it ----

  /** What survives a crash. */
  class Database {
    var cursors: Cursors
    var kv: map<KvKey, Bytes>

    constructor ()
      ensures cursors == map[] && kv == map[]
    {
      cursors := map[];
      kv := map[];
    }
  }

  /** How a checkpoint transaction ends. */
  datatype TxnOutcome = Commits | Fails

  class CheckpointStore {
    const db: Database
    var cursors: Cursors
    var kvDirty: map<KvKey, Bytes>
    var kvCache: map<KvKey, Option<Bytes>>

    /** Opening loads the durable cursors; nothing is dirty or cached. */
    constructor Open(db: Database)
      ensures this.db == db && cursors == db.cursors && KvState() == FreshKv(db.kv)
      ensures Reopened(Value()) == Value()
    {
      this.db := db;
      this.cursors := db.cursors;
      this.kvDirty := map[];
      this.kvCache := map[];
    }

    /** The whole store. */
    ghost function Value(): Store
      reads this, db
    {
      Store(cursors, db.cursors, KvState())
    }

    ghost function KvState(): Kv
      reads this, db
    {
      Kv(kvDirty, kvCache, db.kv)
    }

    /** The cursor ends at the acked block or where it stood, whichever is higher; no other moves. */
    method Ack(source: string, sink: string, next: nat)
      modifies this`cursors
      ensures Value() == StoreStep(old(Value()), AckOp(Key(source, sink), next))
      ensures var k := Key(source, sink);
              && cursors.Keys == old(cursors).Keys + {k} && cursors[k] >= next
              && (k in old(cursors) ==> cursors[k] >= old(cursors)[k])
              && (cursors[k] == next || (k in old(cursors) && cursors[k] == old(cursors)[k]))
              && forall j :: j in old(cursors) && j != k ==> cursors[j] == old(cursors)[j]
      ensures cursors == Acked(old(cursors), Key(source, sink), next)
    {
      var k := Key(source, sink);
      if k !in cursors {
        cursors := cursors[k := 0];
      }
      if next > cursors[k] {
        cursors := cursors[k := next];
      }
    }

    /** The live cursor ends at the block rewound to or where it stood, whichever is lower, and so does the
        durable row if there is one; nothing else moves. `written` says whether the write-through succeeded. */
    method Rewind(source: string, sink: string, next: nat, written: bool) returns (ok: bool)
      modifies this`cursors, db`cursors
      ensures ok == written
      ensures written ==> Value() == StoreStep(old(Value()), RewindOp(Key(source, sink), next))
      ensures var k := Key(source, sink);
              && cursors.Keys == old(cursors).Keys + {k} && db.cursors.Keys == old(db.cursors).Keys
              && LowerOf(cursors[k], At(old(cursors), k), next)
              && (k in db.cursors ==>
                    if written then LowerOf(db.cursors[k], At(old(db.cursors), k), next)
                    else db.cursors[k] == old(db.cursors)[k])
              && (forall j :: j in old(cursors) && j != k ==> cursors[j] == old(cursors)[j])
              && (forall j :: j in old(db.cursors) && j != k ==> db.cursors[j] == old(db.cursors)[j])
      ensures cursors == Rewound(old(cursors), Key(source, sink), next)
      ensures db.cursors == if written then RewoundRow(old(db.cursors), Key(source, sink), next) else old(db.cursors)
    {
      var k := Key(source, sink);
      if k !in cursors {
        cursors := cursors[k := next];
      }
      if next < cursors[k] {
        cursors := cursors[k := next];
      }
      if !written {
        return false;
      }
      if k in db.cursors && db.cursors[k] > next {
        db.cursors := db.cursors[k := next];
      }
      ok := true;
    }

    method Restore(source: string, sinks: seq<string>) returns (r: Option<nat>)
      ensures RestartsAt(cursors, source, sinks, r)
    {
      var min: Option<nat> := None;
      for i := 0 to |sinks|
        invariant forall j :: 0 <= j < i ==> Key(source, sinks[j]) in cursors
        invariant i == 0 <==> min.None?
        invariant min.Some? ==> forall j :: 0 <= j < i ==> min.value <= cursors[Key(source, sinks[j])]
        invariant min.Some? ==> exists j :: 0 <= j < i && min.value == cursors[Key(source, sinks[j])]
      {
        var k := Key(source, sinks[i]);
        if k !in cursors {
          return None;
        }
        min := Some(if min.Some? then Min(min.value, cursors[k]) else cursors[k]);
      }
      r := min;
    }

    method Snapshot() returns (snapshot: Cursors)
      ensures snapshot == cursors
    {
      snapshot := cursors;
    }

    /** The rows a snapshot writes: each value floored at the live watermark. */
    method FloorRows(snapshot: Cursors) returns (rows: Cursors)
      ensures rows == FlooredRows(cursors, snapshot)
    {
      rows := map[];
      var todo := snapshot.Keys;
      while todo != {}
        invariant todo <= snapshot.Keys
        invariant rows == map k | k in snapshot && k !in todo :: Floored(cursors, k, snapshot[k])
      {
        var k :| k in todo;
        rows := rows[k := Floored(cursors, k, snapshot[k])];
        todo := todo - {k};
      }
    }

    /** Cursors and dirty key-values in one transaction. The dirty set is drained first, so a failed
        transaction forgets it. */
    method PersistSnapshot(snapshot: Cursors, outcome: TxnOutcome) returns (ok: bool)
      modifies this`kvDirty, db
      ensures ok <==> outcome == Commits || (snapshot == map[] && old(kvDirty) == map[])
      ensures db.cursors ==
              if outcome == Commits then PersistedCursors(old(db.cursors), cursors, snapshot) else old(db.cursors)
      ensures forall k :: k in db.cursors <==> k in old(db.cursors) || (outcome == Commits && k in snapshot)
      ensures forall k :: k in db.cursors ==>
                if outcome == Commits && k in snapshot then LowerOf(db.cursors[k], At(cursors, k), snapshot[k])
                else db.cursors[k] == old(db.cursors)[k]
      ensures KvState() == KvStep(old(KvState()), Persist(outcome))
      ensures outcome == Commits ==> Value() == Committed(old(Value()), snapshot)
    {
      var dirty := kvDirty;
      kvDirty := map[];
      if snapshot == map[] && dirty == map[] {
        return true;
      }
      if outcome == Fails {
        return false;
      }
      var rows := FloorRows(snapshot);
      db.cursors := db.cursors + rows;
      db.kv := db.kv + dirty;
      ok := true;
    }

    method Get(k: KvKey) returns (v: Option<Bytes>)
      modifies this`kvCache
      ensures v == Lookup(old(KvState()), k)
      ensures KvState() == KvStep(old(KvState()), KvOp.Get(k))
      ensures Value() == StoreStep(old(Value()), GetOp(k))
    {
      if k in kvDirty {
        return Some(kvDirty[k]);
      }
      if k in kvCache {
        return kvCache[k];
      }
      v := if k in db.kv then Some(db.kv[k]) else None;
      kvCache := kvCache[k := v];
    }

    method Set(k: KvKey, v: Bytes)
      modifies this`kvCache, this`kvDirty
      ensures KvState() == KvStep(old(KvState()), KvOp.Set(k, v))
      ensures Value() == StoreStep(old(Value()), SetOp(k, v))
    {
      kvCache := kvCache[k := Some(v)];
      kvDirty := kvDirty[k := v];
    }
  }

  // ---- one checkpoint ----

  /** How a sink's flush task ends. */
  datatype FlushAnswer = Flushed | FlushError | FlushPanicked

  /** `checkpoint_once`: snapshot, flush every sink, persist. An error stops it; a flush task that panics
      counts as flushed. */
  method CheckpointOnce(store: CheckpointStore, flushes: seq<FlushAnswer>, outcome: TxnOutcome) returns (flushed: bool)
    modifies store`kvDirty, store.db
    ensures flushed <==> FlushError !in flushes
    ensures !flushed ==> store.KvState() == old(store.KvState()) && store.db.cursors == old(store.db.cursors)
    ensures flushed ==> store.KvState() == KvStep(old(store.KvState()), Persist(outcome))
    ensures flushed ==> store.db.cursors ==
                          if outcome == Commits then old(store.db.cursors) + store.cursors else old(store.db.cursors)
  {
    var snapshot := store.Snapshot();
    for i := 0 to |flushes|
      invariant forall j :: 0 <= j < i ==> flushes[j] != FlushError
    {
      if flushes[i] == FlushError {
        return false;
      }
    }
    flushed := true;
    assert FlooredRows(store.cursors, snapshot) == snapshot;
    var _ := store.PersistSnapshot(snapshot, outcome);
  }

  // ---- the key-value cache refines a plain map ----

  datatype Kv = Kv(dirty: map<KvKey, Bytes>, cache: map<KvKey, Option<Bytes>>, db: map<KvKey, Bytes>)

  datatype KvOp = Get(k: KvKey) | Set(k: KvKey, v: Bytes) | Persist(outcome: TxnOutcome)

  function FreshKv(db: map<KvKey, Bytes>): Kv {
    Kv(map[], map[], db)
  }

  function Find(m: map<KvKey, Bytes>, k: KvKey): Option<Bytes> {
    if k in m then Some(m[k]) else None
  }

  /** What `get` answers. */
  function Lookup(kv: Kv, k: KvKey): Option<Bytes> {
    if k in kv.dirty then Some(kv.dirty[k])
    else if k in kv.cache then kv.cache[k]
    else Find(kv.db, k)
  }

  function KvStep(kv: Kv, op: KvOp): Kv {
    match op
    case Get(k) => if k in kv.dirty || k in kv.cache then kv else kv.(cache := kv.cache[k := Find(kv.db, k)])
    case Set(k, v) => kv.(cache := kv.cache[k := Some(v)], dirty := kv.dirty[k := v])
    case Persist(Commits) => kv.(dirty := map[], db := kv.db + kv.dirty)
    case Persist(Fails) => kv.(dirty := map[])
  }

  function KvRun(kv: Kv, ops: seq<KvOp>): Kv {
    if ops == [] then kv else KvStep(KvRun(kv, ops[..|ops| - 1]), ops[|ops| - 1])
  }

  /** The simple map a caller thinks of. */
  function PlainRun(m: map<KvKey, Bytes>, ops: seq<KvOp>): map<KvKey, Bytes> {
    if ops == [] then m else
      var before := PlainRun(m, ops[..|ops| - 1]);
      var op := ops[|ops| - 1];
      if op.Set? then before[op.k := op.v] else before
  }

  /** Keys whose latest value a failed transaction has dropped. */
  function Lost(db: map<KvKey, Bytes>, ops: seq<KvOp>): set<KvKey> {
    if ops == [] then {} else
      var before := ops[..|ops| - 1];
      match ops[|ops| - 1]
      case Get(_) => Lost(db, before)
      case Set(k, _) => Lost(db, before) - {k}
      case Persist(Commits) => Lost(db, before)
      case Persist(Fails) => Lost(db, before) + KvRun(FreshKv(db), before).dirty.Keys
  }

  /** The cache state answers like map `m`, and a reopened store does too outside dirty and lost keys. */
  ghost predicate Refines(kv: Kv, m: map<KvKey, Bytes>, lost: set<KvKey>) {
    && (forall k :: Lookup(kv, k) == Find(m, k))
    && (forall k :: k in kv.dirty ==> k in kv.cache && kv.cache[k] == Some(kv.dirty[k]))
    && (forall k :: k in lost ==> k in kv.cache)
    && (forall k :: k !in kv.dirty && k !in lost ==> Find(kv.db, k) == Find(m, k))
  }

  lemma RefinesStep(kv: Kv, m: map<KvKey, Bytes>, lost: set<KvKey>, op: KvOp)
    requires Refines(kv, m, lost)
    ensures op.Get? ==> Refines(KvStep(kv, op), m, lost)
    ensures op.Set? ==> Refines(KvStep(kv, op), m[op.k := op.v], lost - {op.k})
    ensures op == Persist(Commits) ==> Refines(KvStep(kv, op), m, lost)
    ensures op == Persist(Fails) ==> Refines(KvStep(kv, op), m, lost + kv.dirty.Keys)
  {
    var t := KvStep(kv, op);
    if op.Persist? {
      forall k ensures Lookup(t, k) == Find(m, k) {
        assert Lookup(kv, k) == Find(m, k);
      }
    } else if op.Set? {
      forall k ensures Lookup(t, k) == Find(m[op.k := op.v], k) {
        assert Lookup(kv, k) == Find(m, k);
      }
      assert t.dirty == kv.dirty[op.k := op.v] && t.cache == kv.cache[op.k := Some(op.v)];
    }
  }

  /** For any run, including failed transactions, `get` answers as the plain map would; and every key
      that is neither dirty nor lost answers the same from a reopened store. */
  lemma {:induction false} KvRefinesPlainMap(db: map<KvKey, Bytes>, ops: seq<KvOp>)
    ensures var (kv, m) := (KvRun(FreshKv(db), ops), PlainRun(db, ops));
            && Refines(kv, m, Lost(db, ops))
            && (forall k :: Lookup(kv, k) == Find(m, k))
            && (forall k :: k !in kv.dirty && k !in Lost(db, ops) ==> Lookup(FreshKv(kv.db), k) == Find(m, k))
  {
    if ops != [] {
      var before := ops[..|ops| - 1];
      KvRefinesPlainMap(db, before);
      RefinesStep(KvRun(FreshKv(db), before), PlainRun(db, before), Lost(db, before), ops[|ops| - 1]);
    }
  }

  /** Right after a successful transaction, every key with no failed one since its last set is durable. */
  lemma CommitMakesDurable(db: map<KvKey, Bytes>, ops: seq<KvOp>, k: KvKey)
    requires k !in Lost(db, ops)
    ensures Lookup(FreshKv(KvRun(FreshKv(db), ops + [Persist(Commits)]).db), k) == Find(PlainRun(db, ops), k)
  {
    var all := ops + [Persist(Commits)];
    assert all[..|all| - 1] == ops;
    KvRefinesPlainMap(db, all);
  }

  /** The values a run sets for a key, in order. */
  function SetValues(ops: seq<KvOp>, k: KvKey): seq<Bytes> {
    if ops == [] then [] else
      var last := ops[|ops| - 1];
      SetValues(ops[..|ops| - 1], k) + if last.Set? && last.k == k then [last.v] else []
  }

  /** The key has been set, last to a value it never had before. */
  ghost predicate EndsFresh(db: map<KvKey, Bytes>, ops: seq<KvOp>, k: KvKey) {
    var vs := SetValues(ops, k);
    vs != [] && vs[|vs| - 1] !in vs[..|vs| - 1] && Find(db, k) != Some(vs[|vs| - 1])
  }

  /** The durable value is the initial one or one of these. */
  ghost predicate OneOf(db: map<KvKey, Bytes>, v: Option<Bytes>, k: KvKey, vs: seq<Bytes>) {
    v == Find(db, k) || (v.Some? && v.value in vs)
  }

  /** What is durable was set at some point, and before the last set while that is still dirty or lost. */
  ghost predicate Older(db: map<KvKey, Bytes>, kv: Kv, lost: set<KvKey>, plain: map<KvKey, Bytes>,
                        vs: seq<Bytes>, k: KvKey) {
    && OneOf(db, Find(kv.db, k), k, vs)
    && (k in kv.dirty ==>
          vs != [] && kv.dirty[k] == vs[|vs| - 1] && OneOf(db, Find(kv.db, k), k, vs[..|vs| - 1]))
    && (k in lost ==> k !in kv.dirty && vs != [] && OneOf(db, Find(kv.db, k), k, vs[..|vs| - 1]))
    && (vs != [] ==> Find(plain, k) == Some(vs[|vs| - 1]))
  }

  lemma {:induction false} DurableIsOlder(db: map<KvKey, Bytes>, ops: seq<KvOp>, k: KvKey)
    ensures Older(db, KvRun(FreshKv(db), ops), Lost(db, ops), PlainRun(db, ops), SetValues(ops, k), k)
  {
    if ops != [] {
      DurableIsOlder(db, ops[..|ops| - 1], k);
      var before, last := SetValues(ops[..|ops| - 1], k), ops[|ops| - 1];
      if last.Set? && last.k == k {
        OlderAfterSet(db, ops, k);
      } else {
        assert before + [] == before;
      }
    }
  }

  lemma OlderAfterSet(db: map<KvKey, Bytes>, ops: seq<KvOp>, k: KvKey)
    requires ops != [] && ops[|ops| - 1].Set? && ops[|ops| - 1].k == k
    requires var init := ops[..|ops| - 1];
             Older(db, KvRun(FreshKv(db), init), Lost(db, init), PlainRun(db, init), SetValues(init, k), k)
    ensures Older(db, KvRun(FreshKv(db), ops), Lost(db, ops), PlainRun(db, ops), SetValues(ops, k), k)
  {
    var before, v := SetValues(ops[..|ops| - 1], k), ops[|ops| - 1].v;
    assert (before + [v])[..|before|] == before;
  }

  /** When a key was last set to a value it never had before, a commit makes that value durable iff no
      failed transaction has dropped it. */
  lemma DurableIffNotLost(db: map<KvKey, Bytes>, ops: seq<KvOp>, k: KvKey)
    requires EndsFresh(db, ops, k)
    ensures Lookup(FreshKv(KvRun(FreshKv(db), ops + [Persist(Commits)]).db), k) == Find(PlainRun(db, ops), k) <==>
            k !in Lost(db, ops)
  {
    var all := ops + [Persist(Commits)];
    assert all[..|all| - 1] == ops;
    DurableIsOlder(db, ops, k);
    if k !in Lost(db, ops) {
      CommitMakesDurable(db, ops, k);
    }
  }

  ghost predicate SetsAt(ops: seq<KvOp>, k: KvKey, i: nat) {
    i < |ops| && ops[i].Set? && ops[i].k == k
  }

  /** The key is last set at `i`, and no transaction follows. */
  ghost predicate DirtySince(ops: seq<KvOp>, k: KvKey, i: nat) {
    SetsAt(ops, k, i) && forall j :: i < j < |ops| ==> !SetsAt(ops, k, j) && !ops[j].Persist?
  }

  /** The key is last set at `i`, and the first transaction after that, at `j`, fails. */
  ghost predicate LostAt(ops: seq<KvOp>, k: KvKey, i: nat, j: nat) {
    && SetsAt(ops, k, i) && i < j < |ops| && ops[j] == Persist(Fails)
    && (forall l :: i < l < |ops| ==> !SetsAt(ops, k, l))
    && (forall l :: i < l < j ==> !ops[l].Persist?)
  }

  lemma {:induction false} DirtyIff(db: map<KvKey, Bytes>, ops: seq<KvOp>, k: KvKey)
    ensures k in KvRun(FreshKv(db), ops).dirty <==> exists i: nat :: DirtySince(ops, k, i)
  {
    if ops != [] {
      var init, n := ops[..|ops| - 1], |ops| - 1;
      DirtyIff(db, init, k);
      forall i: nat | i < n
        ensures DirtySince(ops, k, i) <==> DirtySince(init, k, i) && !SetsAt(ops, k, n) && !ops[n].Persist?
      {
        assert forall j :: 0 <= j < n ==> init[j] == ops[j];
      }
      if SetsAt(ops, k, n) {
        assert DirtySince(ops, k, n);
      }
      if i: nat :| DirtySince(init, k, i) {
        assert DirtySince(ops, k, i) <==> !SetsAt(ops, k, n) && !ops[n].Persist?;
      }
    }
  }

  lemma LostStays(ops: seq<KvOp>, k: KvKey, i: nat, j: nat)
    requires ops != [] && j < |ops| - 1
    ensures LostAt(ops, k, i, j) <==> LostAt(ops[..|ops| - 1], k, i, j) && !SetsAt(ops, k, |ops| - 1)
  {
    var init := ops[..|ops| - 1];
    assert forall l: nat :: l < |init| ==> (SetsAt(init, k, l) <==> SetsAt(ops, k, l));
    assert forall l :: 0 <= l < |init| ==> init[l] == ops[l];
  }

  lemma LostNow(ops: seq<KvOp>, k: KvKey, i: nat)
    requires ops != []
    ensures LostAt(ops, k, i, |ops| - 1) <==> DirtySince(ops[..|ops| - 1], k, i) && ops[|ops| - 1] == Persist(Fails)
  {
    var init := ops[..|ops| - 1];
    assert forall l: nat :: l < |init| ==> (SetsAt(init, k, l) <==> SetsAt(ops, k, l));
    assert forall l :: 0 <= l < |init| ==> init[l] == ops[l];
  }

  /** A value is lost iff the first transaction after the key's last set failed. */
  lemma {:induction false} LostIff(db: map<KvKey, Bytes>, ops: seq<KvOp>, k: KvKey)
    ensures k in Lost(db, ops) <==> exists i: nat, j: nat :: LostAt(ops, k, i, j)
  {
    hide LostAt, DirtySince;
    if ops != [] {
      var init, n := ops[..|ops| - 1], |ops| - 1;
      LostIff(db, init, k);
      DirtyIff(db, init, k);
      forall i: nat, j: nat | j < n
        ensures LostAt(ops, k, i, j) <==> LostAt(init, k, i, j) && !SetsAt(ops, k, n)
      {
        LostStays(ops, k, i, j);
      }
      forall i: nat ensures LostAt(ops, k, i, n) <==> DirtySince(init, k, i) && ops[n] == Persist(Fails) {
        LostNow(ops, k, i);
      }
      LostRange(init, k);
      LostRange(ops, k);
    } else {
      LostRange(ops, k);
    }
  }

  lemma LostRange(ops: seq<KvOp>, k: KvKey)
    ensures forall i: nat, j: nat :: LostAt(ops, k, i, j) ==> j < |ops|
  {
  }

  /** A failed transaction forgets the value for good: a later successful one does not write it. */
  lemma FailedCommitLosesValue(k: KvKey, v: Bytes)
    ensures var ops := [Set(k, v), Persist(Fails), Persist(Commits)];
            && Lookup(KvRun(FreshKv(map[]), ops), k) == Some(v)
            && Lookup(FreshKv(KvRun(FreshKv(map[]), ops).db), k) == None
  {
    var ops := [Set(k, v), Persist(Fails), Persist(Commits)];
    assert ops[..2] == [Set(k, v), Persist(Fails)] && ops[..2][..1] == [Set(k, v)];
    assert [Set(k, v)][..0] == [];
    assert KvRun(FreshKv(map[]), ops[..2][..1]) == KvStep(FreshKv(map[]), Set(k, v));
    assert KvRun(FreshKv(map[]), ops[..2]) == KvStep(KvRun(FreshKv(map[]), ops[..2][..1]), Persist(Fails));
    assert KvRun(FreshKv(map[]), ops) == KvStep(KvRun(FreshKv(map[]), ops[..2]), Persist(Commits));
  }

  // ---- what happens between a snapshot and its commit ----

  /** The whole store: live cursors, durable rows and the key-values. */
  datatype Store = Store(cursors: Cursors, rows: Cursors, kv: Kv)

  /** What sinks and modules may do while a checkpoint is under way. */
  datatype StoreOp =
    | AckOp(k: Key, next: nat)
    | RewindOp(k: Key, next: nat)
    | GetOp(key: KvKey)
    | SetOp(key: KvKey, value: Bytes)

  function StoreStep(st: Store, op: StoreOp): Store {
    match op
    case AckOp(k, n) => st.(cursors := Acked(st.cursors, k, n))
    case RewindOp(k, n) => st.(cursors := Rewound(st.cursors, k, n), rows := RewoundRow(st.rows, k, n))
    case GetOp(k) => st.(kv := KvStep(st.kv, KvOp.Get(k)))
    case SetOp(k, v) => st.(kv := KvStep(st.kv, KvOp.Set(k, v)))
  }

  function StoreRun(st: Store, ops: seq<StoreOp>): Store {
    if ops == [] then st else StoreStep(StoreRun(st, ops[..|ops| - 1]), ops[|ops| - 1])
  }

  /** A snapshot persisted by a transaction that commits. */
  function Committed(st: Store, snapshot: Cursors): Store {
    Store(st.cursors, PersistedCursors(st.rows, st.cursors, snapshot), KvStep(st.kv, Persist(Commits)))
  }

  /** A store opened on what is durable. */
  function Reopened(st: Store): Store {
    Store(st.rows, st.rows, FreshKv(st.kv.db))
  }

  /** The same operations but for the values set. */
  ghost predicate SameButValues(a: seq<StoreOp>, b: seq<StoreOp>) {
    && |a| == |b|
    && forall i :: 0 <= i < |a| ==> a[i] == b[i] || (a[i].SetOp? && b[i].SetOp? && a[i].key == b[i].key)
  }

  /** Whatever values are set between the snapshot and its commit, the commit writes the key-values as
      they were at the snapshot. */
  ghost predicate CommitsAsOfSnapshot(st: Store, mid: seq<StoreOp>) {
    forall other :: SameButValues(mid, other) ==>
      Committed(StoreRun(st, other), st.cursors).kv.db == Committed(st, st.cursors).kv.db
  }

  lemma {:induction false} NoSetsKeepDirty(st: Store, mid: seq<StoreOp>)
    requires forall i :: 0 <= i < |mid| ==> !mid[i].SetOp?
    ensures var t := StoreRun(st, mid); t.kv.dirty == st.kv.dirty && t.kv.db == st.kv.db
  {
    if mid != [] {
      NoSetsKeepDirty(st, mid[..|mid| - 1]);
    }
  }

  lemma {:induction false} SetsAreDirty(st: Store, mid: seq<StoreOp>, k: KvKey, v: Bytes)
    requires forall i :: 0 <= i < |mid| && mid[i].SetOp? ==> mid[i].value == v
    ensures var t := StoreRun(st, mid);
            && t.kv.db == st.kv.db
            && ((exists i :: 0 <= i < |mid| && mid[i].SetOp? && mid[i].key == k) ==>
                  k in t.kv.dirty && t.kv.dirty[k] == v)
  {
    if mid != [] {
      SetsAreDirty(st, mid[..|mid| - 1], k, v);
      assert forall i :: 0 <= i < |mid| - 1 ==> mid[..|mid| - 1][i] == mid[i];
    }
  }

  /** Key-values commit as of the snapshot iff nothing is set between the snapshot and its commit. */
  lemma CommitsAsOfSnapshotIff(st: Store, mid: seq<StoreOp>)
    ensures CommitsAsOfSnapshot(st, mid) <==> forall i :: 0 <= i < |mid| ==> !mid[i].SetOp?
  {
    if at :| 0 <= at < |mid| && mid[at].SetOp? {
      var k := mid[at].key;
      var v: Bytes := if Find(Committed(st, st.cursors).kv.db, k) == Some([]) then [0] else [];
      var other := seq(|mid|, i requires 0 <= i < |mid| => if mid[i].SetOp? then SetOp(mid[i].key, v) else mid[i]);
      assert SameButValues(mid, other);
      SetsAreDirty(st, other, k, v);
      assert other[at].SetOp? && other[at].key == k;
      assert Find(Committed(StoreRun(st, other), st.cursors).kv.db, k) == Some(v);
      assert !CommitsAsOfSnapshot(st, mid);
    } else {
      forall other | SameButValues(mid, other)
        ensures Committed(StoreRun(st, other), st.cursors).kv.db == Committed(st, st.cursors).kv.db
      {
        NoSetsKeepDirty(st, other);
      }
    }
  }

  lemma {:induction false} AcksOnlyRaise(st: Store, mid: seq<StoreOp>, k: Key)
    requires forall i :: 0 <= i < |mid| ==> !mid[i].RewindOp?
    ensures k in st.cursors ==> k in StoreRun(st, mid).cursors && st.cursors[k] <= StoreRun(st, mid).cursors[k]
    ensures StoreRun(st, mid).rows == st.rows
  {
    if mid != [] {
      AcksOnlyRaise(st, mid[..|mid| - 1], k);
    }
  }

  /** The cursors, in contrast, commit as of the snapshot whatever is acked in between. */
  lemma CursorsCommitAsOfSnapshot(st: Store, mid: seq<StoreOp>)
    requires forall i :: 0 <= i < |mid| ==> !mid[i].RewindOp?
    ensures Committed(StoreRun(st, mid), st.cursors).rows == st.rows + st.cursors
  {
    var t := StoreRun(st, mid);
    forall k | k in st.cursors ensures Floored(t.cursors, k, st.cursors[k]) == st.cursors[k] {
      AcksOnlyRaise(st, mid, k);
    }
    AcksOnlyRaise(st, mid, Key("", ""));
    assert FlooredRows(t.cursors, st.cursors) == st.cursors;
  }
}

/** Every interleaving of acks, rewinds and a row-by-row checkpoint transaction. */
module CursorInterleavings {
  import opened Common
  import opened Checkpoint

  /** An open transaction: rows still to floor, and rows written but not yet committed. */
  datatype Txn = NoTxn | Txn(todo: Cursors, staged: Cursors)

  /** `pending` holds the rewinds that have lowered the live cursor but not yet the durable row. */
  datatype State = State(live: Cursors, db: Cursors, pending: set<(Key, nat)>, taken: set<Cursors>, txn: Txn)

  datatype Event =
    | Ack(k: Key, next: nat)
    | RewindLive(k: Key, next: nat)
    | RewindRow(k: Key, next: nat)
    | TakeSnapshot
    | BeginPersist(snapshot: Cursors)
    | FloorRow(k: Key)
    | Commit
    | Abort
    | Crash

  function Staged(s: State): Cursors {
    if s.txn.Txn? then s.txn.staged else map[]
  }

  /** SQLite has a single writer: a rewind's row update waits while a transaction has written rows. */
  predicate Enabled(s: State, e: Event) {
    match e
    case RewindRow(k, n) => (k, n) in s.pending && Staged(s) == map[]
    case BeginPersist(snapshot) => snapshot in s.taken && s.txn.NoTxn?
    case FloorRow(k) => s.txn.Txn? && k in s.txn.todo
    case Commit => s.txn.Txn? && s.txn.todo == map[]
    case Abort => s.txn.Txn?
    case _ => true
  }

  function Next(s: State, e: Event): State
    requires Enabled(s, e)
  {
    match e
    case Ack(k, n) => s.(live := Acked(s.live, k, n))
    case RewindLive(k, n) => s.(live := Rewound(s.live, k, n), pending := s.pending + {(k, n)})
    case RewindRow(k, n) => s.(db := RewoundRow(s.db, k, n), pending := s.pending - {(k, n)})
    case TakeSnapshot => s.(taken := s.taken + {s.live})
    case BeginPersist(snapshot) => s.(txn := Txn(snapshot, map[]))
    case FloorRow(k) =>
      s.(txn := Txn(s.txn.todo - {k}, s.txn.staged[k := Floored(s.live, k, s.txn.todo[k])]))
    case Commit => s.(db := s.db + s.txn.staged, txn := NoTxn)
    case Abort => s.(txn := NoTxn)
    case Crash => State(s.db, s.db, {}, {}, NoTxn)
  }

  function Start(db: Cursors): State {
    State(db, db, {}, {}, NoTxn)
  }

  /** The states a run goes through from an opened store. */
  ghost predicate IsRun(db: Cursors, states: seq<State>, es: seq<Event>) {
    && |states| == |es| + 1 && states[0] == Start(db)
    && forall i {:trigger es[i]} :: 0 <= i < |es| ==>
         Enabled(states[i], es[i]) && states[i + 1] == Next(states[i], es[i])
  }

  // ---- uninterrupted, the steps are the store's calls ----

  lemma {:induction false} FloorAll(s: State) returns (t: State, es: seq<Event>)
    requires s.txn.Txn?
    ensures Leads(s, es, t) && t == s.(txn := Txn(map[], s.txn.staged + FlooredRows(s.live, s.txn.todo)))
    decreases if s.txn.Txn? then |s.txn.todo| else 0
  {
    if s.txn.todo == map[] {
      t, es := s, [];
      assert s.txn.staged + FlooredRows(s.live, map[]) == s.txn.staged;
    } else {
      var k :| k in s.txn.todo;
      var m := Next(s, FloorRow(k));
      FloorStep(s, k);
      FlooredSplit(s.live, s.txn.todo, s.txn.staged, k);
      hide Next, Enabled, Floored, FlooredRows;
      var rest;
      t, rest := FloorAll(m);
      es := [FloorRow(k)] + rest;
      assert es[1..] == rest;
    }
  }

  lemma FloorStep(s: State, k: Key)
    requires s.txn.Txn? && k in s.txn.todo
    ensures Enabled(s, FloorRow(k))
    ensures Next(s, FloorRow(k)) ==
            s.(txn := Txn(s.txn.todo - {k}, s.txn.staged[k := Floored(s.live, k, s.txn.todo[k])]))
    ensures |s.txn.todo - {k}| < |s.txn.todo|
  {
    assert (s.txn.todo - {k}).Keys == s.txn.todo.Keys - {k};
  }

  lemma FlooredSplit(live: Cursors, todo: Cursors, staged: Cursors, k: Key)
    requires k in todo
    ensures staged[k := Floored(live, k, todo[k])] + FlooredRows(live, todo - {k}) == staged + FlooredRows(live, todo)
  {
  }

  ghost predicate Leads(s: State, es: seq<Event>, t: State)
    decreases |es|
  {
    if es == [] then s == t else Enabled(s, es[0]) && Leads(Next(s, es[0]), es[1..], t)
  }

  lemma {:induction false} LeadsOn(s: State, es: seq<Event>, t: State, e: Event)
    requires Leads(s, es, t) && Enabled(t, e)
    ensures Leads(s, es + [e], Next(t, e))
    decreases |es|
  {
    hide Enabled, Next;
    if es == [] {
      assert es + [e] == [e] && [e][1..] == [];
    } else {
      assert (es + [e])[1..] == es[1..] + [e];
      LeadsOn(Next(s, es[0]), es[1..], t, e);
    }
  }

  lemma RewindIsStoreCall(s: State, k: Key, n: nat) returns (t: State)
    requires s.txn.NoTxn?
    ensures Leads(s, [RewindLive(k, n), RewindRow(k, n)], t)
    ensures t.live == Rewound(s.live, k, n) && t.db == RewoundRow(s.db, k, n)
  {
    var two := [RewindLive(k, n), RewindRow(k, n)];
    var a := Next(s, RewindLive(k, n));
    t := Next(a, RewindRow(k, n));
    assert two[1..] == [RewindRow(k, n)] && two[1..][1..] == [];
    assert Leads(t, [], t) && Leads(a, two[1..], t);
  }

  lemma PersistIsStoreCall(s: State, snapshot: Cursors) returns (es: seq<Event>, t: State)
    requires s.txn.NoTxn? && snapshot in s.taken
    ensures Leads(s, es, t)
    ensures t.live == s.live && t.db == PersistedCursors(s.db, s.live, snapshot)
  {
    var begun := Next(s, BeginPersist(snapshot));
    var done, floors := FloorAll(begun);
    LeadsOn(begun, floors, done, Commit);
    es, t := [BeginPersist(snapshot)] + (floors + [Commit]), Next(done, Commit);
    assert es[1..] == floors + [Commit];
    assert map[] + FlooredRows(s.live, snapshot) == FlooredRows(s.live, snapshot);
  }

  /** Left alone, an ack, the two steps of a rewind, and the steps of a transaction do to the cursors and rows what
      the store's `ack`, `rewind` and `persist_snapshot` do, and a crash what opening it again does. */
  lemma StepsAreStoreCalls(s: State, kv: Kv, k: Key, n: nat, snapshot: Cursors)
    requires s.txn.NoTxn?
    ensures var st := Store(s.live, s.db, kv);
            && Cells(Next(s, Ack(k, n))) == CellsOf(StoreStep(st, AckOp(k, n)))
            && (exists t :: Leads(s, [RewindLive(k, n), RewindRow(k, n)], t)
                            && Cells(t) == CellsOf(StoreStep(st, RewindOp(k, n))))
            && (snapshot in s.taken ==>
                  exists es, t :: Leads(s, es, t) && Cells(t) == CellsOf(Committed(st, snapshot)))
            && Cells(Next(s, Event.Crash)) == CellsOf(Reopened(st))
  {
    hide Leads;
    var rewound := RewindIsStoreCall(s, k, n);
    if snapshot in s.taken {
      var es, t := PersistIsStoreCall(s, snapshot);
    }
  }

  function Cells(s: State): (Cursors, Cursors) {
    (s.live, s.db)
  }

  function CellsOf(st: Store): (Cursors, Cursors) {
    (st.cursors, st.rows)
  }

  /** `n` is at most the live cursor, or a rewind in progress will bring it there. */
  ghost predicate Justified(s: State, k: Key, n: nat) {
    k in s.live && (n <= s.live[k] || exists m :: (k, m) in s.pending && m <= s.live[k])
  }

  ghost predicate Inv(s: State) {
    && (forall k :: k in s.db ==> Justified(s, k, s.db[k]))
    && (forall k :: k in Staged(s) ==> Justified(s, k, Staged(s)[k]))
    && (forall c, k :: c in s.taken && k in c ==> k in s.live)
    && (s.txn.Txn? ==> forall k :: k in s.txn.todo ==> k in s.live)
  }

  lemma StillJustified(s: State, t: State, k: Key, n: nat)
    requires Justified(s, k, n) && s.pending <= t.pending
    requires k in t.live && s.live[k] <= t.live[k]
    ensures Justified(t, k, n)
  {
    if m :| (k, m) in s.pending && m <= s.live[k] {
      assert (k, m) in t.pending;
    }
  }

  lemma RewindLiveKeeps(s: State, k: Key, n: nat, j: Key, v: nat)
    requires Justified(s, j, v)
    ensures Justified(Next(s, RewindLive(k, n)), j, v)
  {
    var t := Next(s, RewindLive(k, n));
    assert (k, n) in t.pending;
    if s.live[j] <= t.live[j] {
      StillJustified(s, t, j, v);
    }
  }

  lemma RewindRowKeeps(s: State, k: Key, n: nat, j: Key)
    requires Enabled(s, RewindRow(k, n)) && j in s.db && Justified(s, j, s.db[j])
    ensures Justified(Next(s, RewindRow(k, n)), j, Next(s, RewindRow(k, n)).db[j])
  {
    var t := Next(s, RewindRow(k, n));
    if m :| (j, m) in s.pending && m <= s.live[j] {
      assert (j, m) == (k, n) || (j, m) in t.pending;
    }
  }

  lemma InvStep(s: State, e: Event)
    requires Inv(s) && Enabled(s, e)
    ensures Inv(Next(s, e))
  {
    var t := Next(s, e);
    match e {
      case RewindLive(k, n) =>
        forall j | j in t.db ensures Justified(t, j, t.db[j]) { RewindLiveKeeps(s, k, n, j, s.db[j]); }
        forall j | j in Staged(t) ensures Justified(t, j, Staged(t)[j]) { RewindLiveKeeps(s, k, n, j, Staged(s)[j]); }
      case RewindRow(k, n) =>
        forall j | j in t.db ensures Justified(t, j, t.db[j]) { RewindRowKeeps(s, k, n, j); }
      case Crash =>
      case FloorRow(k) =>
        forall j | j in t.txn.staged ensures Justified(t, j, t.txn.staged[j]) {
          if j != k { StillJustified(s, t, j, Staged(s)[j]); }
        }
        forall j | j in t.db ensures Justified(t, j, t.db[j]) { StillJustified(s, t, j, s.db[j]); }
      case Ack(k, n) =>
        forall j | j in t.db ensures Justified(t, j, t.db[j]) { StillJustified(s, t, j, s.db[j]); }
        forall j | j in Staged(t) ensures Justified(t, j, Staged(t)[j]) { StillJustified(s, t, j, Staged(s)[j]); }
      case Commit =>
        forall j | j in t.db ensures Justified(t, j, t.db[j]) {
          StillJustified(s, t, j, if j in Staged(s) then Staged(s)[j] else s.db[j]);
        }
      case TakeSnapshot =>
        forall j, v | Justified(s, j, v) ensures Justified(t, j, v) { StillJustified(s, t, j, v); }
        assert forall j :: j in Staged(t) ==> Justified(s, j, Staged(s)[j]);
      case _ =>
        assert forall j, v :: Justified(s, j, v) ==> Justified(t, j, v);
    }
  }

  lemma {:induction false} RunKeepsInv(db: Cursors, states: seq<State>, es: seq<Event>, i: nat)
    requires IsRun(db, states, es) && i <= |es|
    ensures Inv(states[i])
  {
    hide Enabled, Next;
    if i > 0 {
      RunKeepsInv(db, states, es, i - 1);
      assert states[i - 1 + 1] == Next(states[i - 1], es[i - 1]);
      InvStep(states[i - 1], es[i - 1]);
    }
  }

  /** From any opened store, under every interleaving, outside a rewind in progress a durable cursor is at
      most the live one. */
  lemma DurableNeverExceedsLive(db: Cursors, states: seq<State>, es: seq<Event>, i: nat)
    requires IsRun(db, states, es) && i <= |es|
    ensures var s := states[i];
            forall k :: k in s.db && (forall m :: (k, m) !in s.pending) ==> k in s.live && s.db[k] <= s.live[k]
  {
    RunKeepsInv(db, states, es, i);
    assert forall k :: k in states[i].db ==> Justified(states[i], k, states[i].db[k]);
  }

  /** Neither the live cursor, nor the durable row, nor a row about to be committed exceeds `n`. */
  ghost predicate Capped(s: State, k: Key, n: nat) {
    && (k in s.live ==> s.live[k] <= n)
    && (k in s.db ==> s.db[k] <= n)
    && (k in Staged(s) ==> Staged(s)[k] <= n)
  }

  ghost predicate Raises(e: Event, k: Key, n: nat) {
    (e.Ack? || e.RewindLive?) && e.k == k && e.next > n
  }

  lemma CappedStep(s: State, e: Event, k: Key, n: nat)
    requires Inv(s) && Capped(s, k, n) && Enabled(s, e) && !Raises(e, k, n)
    ensures Capped(Next(s, e), k, n)
  {
  }

  /** Without a crash the live cursor stays at most `n`. */
  lemma {:induction false} LiveStaysCapped(db: Cursors, states: seq<State>, es: seq<Event>, a: nat, i: nat, k: Key,
                                           n: nat)
    requires IsRun(db, states, es) && a < i <= |es| && es[a] == RewindLive(k, n)
    requires forall j :: a < j < i ==> !Raises(es[j], k, n) && !es[j].Crash?
    ensures k in states[i].live && states[i].live[k] <= n
  {
    assert states[i - 1 + 1] == Next(states[i - 1], es[i - 1]);
    if i > a + 1 {
      LiveStaysCapped(db, states, es, a, i - 1, k, n);
    }
  }

  /** Once a rewind to `n` has reached its row, no snapshot taken before it can raise the cursor again,
      crashes included: it stays at most `n` until something past `n` is acked. The rewind lowers the live
      cursor at step `a` and the row at step `b`, with no crash in between. */
  lemma {:induction false} RewindSticks(db: Cursors, states: seq<State>, es: seq<Event>, a: nat, b: nat, i: nat,
                                        k: Key, n: nat)
    requires IsRun(db, states, es) && a < b < i <= |es| && es[a] == RewindLive(k, n) && es[b] == RewindRow(k, n)
    requires forall j :: a < j < i ==> !Raises(es[j], k, n)
    requires forall j :: a < j < b ==> !es[j].Crash?
    ensures Capped(states[i], k, n)
  {
    hide Next, Enabled, Capped;
    assert states[i - 1 + 1] == Next(states[i - 1], es[i - 1]) && Enabled(states[i - 1], es[i - 1]);
    if i == b + 1 {
      LiveStaysCapped(db, states, es, a, b, k, n);
      RowCaps(states[b], k, n);
    } else {
      RewindSticks(db, states, es, a, b, i - 1, k, n);
      RunKeepsInv(db, states, es, i - 1);
      CappedStep(states[i - 1], es[i - 1], k, n);
    }
  }

  lemma RowCaps(s: State, k: Key, n: nat)
    requires Enabled(s, RewindRow(k, n)) && k in s.live && s.live[k] <= n
    ensures Capped(Next(s, RewindRow(k, n)), k, n)
  {
  }
}

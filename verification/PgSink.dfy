/** The postgres sink: batches and rollbacks on a table, and what the table holds after a whole stream. */
module PgSink {
  import opened Common
  import opened Encoding
  import opened Filter
  import opened PgTable
  import Reorg
  import Source
  import Replay
  import SinkTask

  /** The settings that decide what a write or a rollback does to the table (upsert mode). */
  datatype PgConfig = PgConfig(
    uniqueKey: set<Column>, columnMap: seq<(seq<string>, Column)>, createTable: bool,
    blockColumn: Option<Column>, chainColumn: Option<Column>)

  /** The value is that number, as a JSON number or as a decimal string in a numeric column. */
  predicate Denotes(v: Json, n: nat) {
    Numeric(v) && Filter.ValueOf(v) == n
  }

  /** The row a rollback deletes: past the fork, and of the chain when a chain column is configured. */
  predicate Doomed(cfg: PgConfig, row: Row, chainId: nat, fork: nat) {
    && cfg.blockColumn.Some? && cfg.blockColumn.value in row
    && Numeric(row[cfg.blockColumn.value]) && Filter.ValueOf(row[cfg.blockColumn.value]) > fork
    && (cfg.chainColumn.Some? ==> cfg.chainColumn.value in row && Denotes(row[cfg.chainColumn.value], chainId))
  }

  function DeletePast(cfg: PgConfig, t: Table, chainId: nat, fork: nat): Table {
    map k | k in t && !Doomed(cfg, t[k], chainId, fork) :: t[k]
  }

  /** The unique-key columns are primary-key columns: present and not null. */
  predicate KeyPresent(cfg: PgConfig, row: Row) {
    forall c :: c in cfg.uniqueKey ==> c in row && row[c] != Null
  }

  function RowsOf(cfg: PgConfig, records: seq<Json>): seq<Row> {
    if records == [] then [] else
      RowsOf(cfg, records[..|records| - 1]) + NonEmpty(Resolved(records[|records| - 1], cfg.columnMap))
  }

  /** A record without a single column gives no row. */
  function NonEmpty(row: Row): seq<Row> {
    if row == map[] then [] else [row]
  }

  function TableIn(table: Option<Table>): Table {
    if table.Some? then table.value else map[]
  }

  /** `next` is the table after the rows' upserts, group by group. */
  ghost predicate WrittenByGroups(t: Table, rows: seq<Row>, uniqueKey: set<Column>, next: Table) {
    exists sigs, groups :: GroupsOf(rows, sigs, groups) && next == UpsertAll(t, Flatten(groups), uniqueKey)
  }

  /** What `on_control` answers and leaves for a rollback; `commits` is the database's answer. */
  function RollbackOutcome(cfg: PgConfig, created: bool, table: Option<Table>, chainId: nat, fork: nat, commits: bool)
    : (bool, Option<Table>)
  {
    if cfg.blockColumn.None? then (true, table)
    else if table.None? || !commits then (cfg.createTable && !created, table)
    else (true, Some(DeletePast(cfg, table.value, chainId, fork)))
  }

  /** The row's chain column holds the chain, or none is configured. */
  ghost predicate IsOfChain(cfg: PgConfig, row: Row, chainId: nat) {
    cfg.chainColumn.None? || (exists v :: Cell(Some(row), cfg.chainColumn.value) == Some(v) && Denotes(v, chainId))
  }

  /** The row's block column holds a number past the fork. */
  ghost predicate IsPast(cfg: PgConfig, row: Row, fork: nat) {
    && cfg.blockColumn.Some?
    && exists v: Json, n: nat :: Cell(Some(row), cfg.blockColumn.value) == Some(v) && Denotes(v, n) && n > fork
  }

  lemma DoomedMeaning(cfg: PgConfig, row: Row, chainId: nat, fork: nat)
    ensures Doomed(cfg, row, chainId, fork) <==> IsOfChain(cfg, row, chainId) && IsPast(cfg, row, fork)
  {
    if Doomed(cfg, row, chainId, fork) {
      var v := row[cfg.blockColumn.value];
      assert Cell(Some(row), cfg.blockColumn.value) == Some(v) && Denotes(v, Filter.ValueOf(v));
      if cfg.chainColumn.Some? {
        assert Cell(Some(row), cfg.chainColumn.value) == Some(row[cfg.chainColumn.value]);
      }
    }
  }

  /** No row past the fork is left. */
  ghost predicate NoneDoomed(cfg: PgConfig, table: Option<Table>, chainId: nat, fork: nat) {
    table.Some? ==> forall k :: k in table.value ==> !Doomed(cfg, table.value[k], chainId, fork)
  }

  /** A reported success always means the rows past the fork are gone, whatever the table holds and the
      database answers. */
  ghost predicate SuccessMeansDeleted(cfg: PgConfig, created: bool) {
    forall table, chainId, fork, commits ::
      var (ok, after) := RollbackOutcome(cfg, created, table, chainId, fork, commits);
      ok ==> NoneDoomed(cfg, after, chainId, fork)
  }

  /** With auto-DDL on, an instance that has not written yet reports a failed rollback as success and the
      doomed row stays. */
  lemma FailedRollbackReportedOk(cfg: PgConfig, table: Table, k: Row, chainId: nat, fork: nat)
    requires cfg.createTable && k in table && Doomed(cfg, table[k], chainId, fork)
    ensures RollbackOutcome(cfg, false, Some(table), chainId, fork, false) == (true, Some(table))
    ensures !NoneDoomed(cfg, Some(table), chainId, fork)
  {
  }

  /** With a block column configured, success means the rows are gone iff not (auto-DDL on and nothing
      written yet by this instance). */
  lemma SuccessMeansDeletedIff(cfg: PgConfig, created: bool)
    requires cfg.blockColumn.Some?
    ensures SuccessMeansDeleted(cfg, created) <==> !(cfg.createTable && !created)
  {
    if cfg.createTable && !created {
      var row: Row := map[cfg.blockColumn.value := Number(1)];
      if cfg.chainColumn.Some? {
        row := row[cfg.chainColumn.value := Number(1)];
      }
      var table: Table := map[KeyOf(row, cfg.uniqueKey) := row];
      FailedRollbackReportedOk(cfg, table, KeyOf(row, cfg.uniqueKey), 1, 0);
      assert RollbackOutcome(cfg, created, Some(table), 1, 0, false) == (true, Some(table));
    }
  }

  class Sink {
    const cfg: PgConfig
    var created: bool
    /** The table in the database, `None` while it does not exist. */
    var table: Option<Table>

    constructor (cfg: PgConfig, table: Option<Table>)
      ensures this.cfg == cfg && !created && this.table == table
    {
      this.cfg, this.created, this.table := cfg, false, table;
    }

    method Resolve(records: seq<Json>) returns (rows: seq<Row>)
      ensures rows == RowsOf(cfg, records)
    {
      rows := [];
      for i := 0 to |records|
        invariant rows == RowsOf(cfg, records[..i])
      {
        assert records[..i + 1][..i] == records[..i];
        var row := ResolveColumns(records[i], cfg.columnMap);
        if row != map[] {
          rows := rows + [row];
        }
      }
      assert records[..|records|] == records;
    }

    /** One transaction: optional DDL, then the upserts group by group. `commits` is the database's
        answer to a transaction whose statements are all acceptable. */
    method Write(records: seq<Json>, commits: bool) returns (ok: bool)
      modifies this
      ensures RowsOf(cfg, records) == [] ==> ok && table == old(table) && created == old(created)
      ensures RowsOf(cfg, records) != [] ==>
                (ok <==> commits && (old(table).Some? || (cfg.createTable && !old(created)))
                         && forall r, c :: r in RowsOf(cfg, records) && c in cfg.uniqueKey ==> c in r && r[c] != Null)
      ensures !ok ==> table == old(table) && created == old(created)
      ensures ok && RowsOf(cfg, records) != [] ==> created && table.Some?
      ensures ok ==> WrittenByGroups(TableIn(old(table)), RowsOf(cfg, records), cfg.uniqueKey, TableIn(table))
      ensures ok && LastWritersLast(RowsOf(cfg, records), cfg.uniqueKey) ==>
                TableIn(table) == UpsertAll(TableIn(old(table)), RowsOf(cfg, records), cfg.uniqueKey)
    {
      var rows := Resolve(records);
      if rows == [] {
        NoGroups();
        assert Flatten([]) == [];
        assert UpsertAll(TableIn(table), Flatten([]), cfg.uniqueKey) == TableIn(table);
        return true;
      }
      if table.None? && (!cfg.createTable || created) {
        return false;
      }
      var keyed := AllKeyed(rows);
      if !commits || !keyed {
        return false;
      }
      var next := UpsertGrouped(TableIn(table), rows);
      table := Some(next);
      created := true;
      ok := true;
    }

    /** The upserts of one batch, one group after the other. */
    method UpsertGrouped(t: Table, rows: seq<Row>) returns (next: Table)
      ensures WrittenByGroups(t, rows, cfg.uniqueKey, next)
      ensures LastWritersLast(rows, cfg.uniqueKey) ==> next == UpsertAll(t, rows, cfg.uniqueKey)
    {
      hide GroupsOf, LastWritersLast;
      var sigs, groups := GroupBySignature(rows);
      next := t;
      for i := 0 to |groups|
        invariant next == UpsertAll(t, Flatten(groups[..i]), cfg.uniqueKey)
      {
        assert groups[..i + 1][..i] == groups[..i];
        UpsertAllAppend(t, Flatten(groups[..i]), groups[i], cfg.uniqueKey);
        next := UpsertGroup(next, groups[i]);
      }
      assert groups[..|groups|] == groups;
      if LastWritersLast(rows, cfg.uniqueKey) {
        GroupedEqualsInOrder(t, rows, sigs, groups, cfg.uniqueKey);
      }
    }

    method AllKeyed(rows: seq<Row>) returns (ok: bool)
      ensures ok <==> forall r :: r in rows ==> KeyPresent(cfg, r)
    {
      for i := 0 to |rows|
        invariant forall r :: r in rows[..i] ==> KeyPresent(cfg, r)
      {
        if !KeyPresent(cfg, rows[i]) {
          return false;
        }
      }
      assert rows[..|rows|] == rows;
      ok := true;
    }

    method UpsertGroup(t: Table, group: seq<Row>) returns (next: Table)
      ensures next == UpsertAll(t, group, cfg.uniqueKey)
    {
      next := t;
      for i := 0 to |group|
        invariant next == UpsertAll(t, group[..i], cfg.uniqueKey)
      {
        assert group[..i + 1][..i] == group[..i];
        next := Upsert(next, group[i], cfg.uniqueKey);
      }
      assert group[..|group|] == group;
    }

    /** A rollback that goes through deletes every row of the chain past the fork, of all rows past it when no
        chain column is set, and leaves every other row as it was: those of other chains or without a chain,
        those up to the fork, and those without a block number. With auto-DDL on and nothing written yet by
        this instance, any failure counts as "table not created yet" and is reported as success. */
    method OnRollback(chainId: nat, fork: nat, commits: bool) returns (ok: bool)
      modifies this`table
      ensures ok <==> cfg.blockColumn.None? || (old(table).Some? && commits) || (cfg.createTable && !created)
      ensures cfg.blockColumn.None? || old(table).None? || !commits ==> table == old(table)
      ensures forall k :: k in TableIn(table) ==>
                k in TableIn(old(table)) && TableIn(table)[k] == TableIn(old(table))[k]
      ensures forall k :: k in TableIn(old(table)) && k !in TableIn(table) ==>
                IsOfChain(cfg, TableIn(old(table))[k], chainId) && IsPast(cfg, TableIn(old(table))[k], fork)
      ensures cfg.blockColumn.Some? && old(table).Some? && commits ==>
                table.Some? &&
                forall k :: k in table.value ==>
                  !IsOfChain(cfg, table.value[k], chainId) || !IsPast(cfg, table.value[k], fork)
      ensures ok && cfg.blockColumn.Some? && !(cfg.createTable && !created) ==> NoneDoomed(cfg, table, chainId, fork)
      ensures (ok, table) == RollbackOutcome(cfg, created, old(table), chainId, fork, commits)
    {
      if cfg.blockColumn.None? {
        return true;
      }
      if table.None? || !commits {
        return cfg.createTable && !created;
      }
      forall row ensures Doomed(cfg, row, chainId, fork) <==> IsOfChain(cfg, row, chainId) && IsPast(cfg, row, fork) {
        DoomedMeaning(cfg, row, chainId, fork);
      }
      table := Some(DeletePast(cfg, table.value, chainId, fork));
      ok := true;
    }
  }

  // ---- the table after a stream ----

  /** How a chain's records become rows: the sink's settings, the JSON of a record, the chain the source
      is configured with, and the columns that go with each unique key. */
  datatype Schema = Schema(cfg: PgConfig, json: Record -> Json, chainId: nat, columns: Row -> set<Column>)

  function RowFor(sc: Schema, r: Record): Row {
    Resolved(sc.json(r), sc.cfg.columnMap)
  }

  function JsonOf(sc: Schema, rs: seq<Record>): seq<Json> {
    seq(|rs|, i requires 0 <= i < |rs| => sc.json(rs[i]))
  }

  function RowSeq(sc: Schema, rs: seq<Record>): seq<Row> {
    if rs == [] then [] else RowSeq(sc, rs[..|rs| - 1]) + NonEmpty(RowFor(sc, rs[|rs| - 1]))
  }

  lemma {:induction false} RowsOfJson(sc: Schema, rs: seq<Record>)
    ensures RowsOf(sc.cfg, JsonOf(sc, rs)) == RowSeq(sc, rs)
  {
    if rs != [] {
      RowsOfJson(sc, rs[..|rs| - 1]);
      assert JsonOf(sc, rs)[..|rs| - 1] == JsonOf(sc, rs[..|rs| - 1]);
    }
  }

  /** The table that upserting these records into an empty one gives. */
  function TableOf(sc: Schema, rs: seq<Record>): Table {
    UpsertAll(map[], RowSeq(sc, rs), sc.cfg.uniqueKey)
  }

  /** A data batch is upserted row by row, a rollback deletes past its fork. */
  function ApplyToTable(sc: Schema, t: Table, b: Batch): Table {
    if b.body.Data? then UpsertAll(t, RowSeq(sc, b.body.records), sc.cfg.uniqueKey)
    else if b.body.ctrl.Rollback? then DeletePast(sc.cfg, t, b.body.ctrl.chainId, b.body.ctrl.invalidateAfter)
    else t
  }

  function TableAfter(sc: Schema, t: Table, out: seq<Batch>): Table {
    if out == [] then t else ApplyToTable(sc, TableAfter(sc, t, out[..|out| - 1]), out[|out| - 1])
  }

  /** In every data batch last writers come last. */
  ghost predicate BatchesInOrder(sc: Schema, out: seq<Batch>) {
    forall i :: 0 <= i < |out| ==> LastWritersLast(RowSeq(sc, out[i].Records()), sc.cfg.uniqueKey)
  }

  /** One attempt of the sink task to hand a batch over. */
  method Deliver(sink: Sink, sc: Schema, b: Batch, commits: bool) returns (ok: bool)
    requires sink.cfg == sc.cfg && sc.cfg.blockColumn.Some?
    requires LastWritersLast(RowSeq(sc, b.Records()), sc.cfg.uniqueKey)
    requires sc.cfg.createTable && !sink.created ==> sink.table.None?
    modifies sink
    ensures sc.cfg.createTable && !sink.created ==> sink.table.None?
    ensures ok ==> TableIn(sink.table) == ApplyToTable(sc, TableIn(old(sink.table)), b)
    ensures !ok ==> sink.table == old(sink.table) && sink.created == old(sink.created)
    ensures ok || !commits || (old(sink.table).None? && !sc.cfg.createTable) || (sink.created && sink.table.None?)
            || exists r :: r in RowSeq(sc, b.Records()) && !KeyPresent(sc.cfg, r)
  {
    if b.body.Data? {
      RowsOfJson(sc, b.body.records);
      ok := sink.Write(JsonOf(sc, b.body.records), commits);
    } else if b.body.ctrl.Rollback? {
      ok := sink.OnRollback(b.body.ctrl.chainId, b.body.ctrl.invalidateAfter, commits);
      assert DeletePast(sc.cfg, map[], b.body.ctrl.chainId, b.body.ctrl.invalidateAfter) == map[];
    } else {
      ok := true;
    }
  }

  /** The sink task over a stream: each batch is attempted within the retry budget, and the first one
      that is never accepted ends it. `answers(i)(a)` is the database's answer to attempt `a` at batch
      `i`. The table is that of the batches done, whatever the answers. */
  method Feed(sink: Sink, sc: Schema, out: seq<Batch>, answers: nat -> nat -> bool) returns (done: nat)
    requires sink.cfg == sc.cfg && sc.cfg.blockColumn.Some? && BatchesInOrder(sc, out)
    requires sc.cfg.createTable && !sink.created ==> sink.table.None?
    modifies sink
    ensures done <= |out|
    ensures TableIn(sink.table) == TableAfter(sc, TableIn(old(sink.table)), out[..done])
    ensures done < |out| ==>
              || (exists a: nat :: a < SinkTask.MAX_ATTEMPTS && !answers(done)(a))
              || (sink.table.None? && (!sc.cfg.createTable || sink.created))
              || exists r :: r in RowSeq(sc, out[done].Records()) && !KeyPresent(sc.cfg, r)
  {
    done := 0;
    while done < |out|
      invariant done <= |out|
      invariant sc.cfg.createTable && !sink.created ==> sink.table.None?
      invariant TableIn(sink.table) == TableAfter(sc, TableIn(old(sink.table)), out[..done])
      decreases |out| - done
    {
      assert out[..done + 1][..done] == out[..done];
      ghost var before := TableIn(sink.table);
      var attempt, ok := 0, false;
      while attempt < SinkTask.MAX_ATTEMPTS && !ok
        invariant sc.cfg.createTable && !sink.created ==> sink.table.None?
        invariant TableIn(sink.table) == if ok then ApplyToTable(sc, before, out[done]) else before
        invariant !ok && attempt > 0 ==>
                    || (exists a: nat :: a < SinkTask.MAX_ATTEMPTS && !answers(done)(a))
                    || (sink.table.None? && (!sc.cfg.createTable || sink.created))
                    || exists r :: r in RowSeq(sc, out[done].Records()) && !KeyPresent(sc.cfg, r)
        decreases SinkTask.MAX_ATTEMPTS - attempt, !ok
      {
        ok := Deliver(sink, sc, out[done], answers(done)(attempt));
        attempt := attempt + 1;
      }
      if !ok {
        return;
      }
      done := done + 1;
    }
  }

  /** A row carries its record's block number in a unique-key column, its chain, and the columns its key
      always comes with. A record may also give no row at all. */
  ghost predicate Fits(sc: Schema, r: Record) {
    var row := RowFor(sc, r);
    row != map[] ==>
      && sc.cfg.blockColumn.Some? && sc.cfg.blockColumn.value in sc.cfg.uniqueKey && r.block.Some?
      && sc.cfg.blockColumn.value in row && Denotes(row[sc.cfg.blockColumn.value], r.block.value)
      && ChainIs(sc, row)
      && row.Keys == sc.columns(KeyOf(row, sc.cfg.uniqueKey))
  }

  ghost predicate AllFit(sc: Schema, rs: seq<Record>) {
    forall i :: 0 <= i < |rs| ==> Fits(sc, rs[i])
  }

  lemma {:induction false} RowSeqAppend(sc: Schema, a: seq<Record>, b: seq<Record>)
    ensures RowSeq(sc, a + b) == RowSeq(sc, a) + RowSeq(sc, b)
  {
    hide RowFor, NonEmpty;
    if b == [] {
      assert a + b == a;
    } else {
      RowSeqAppend(sc, a, b[..|b| - 1]);
      assert (a + b)[..|a + b| - 1] == a + b[..|b| - 1];
    }
  }

  lemma RowSeqOne(sc: Schema, r: Record)
    ensures RowSeq(sc, [r]) == NonEmpty(RowFor(sc, r))
  {
    assert [r][..0] == [];
  }

  /** The rows of a batch are what its records resolve to, those without a single column left out. */
  lemma {:induction false} RowsOfRecords(cfg: PgConfig, records: seq<Json>, row: Row)
    ensures row in RowsOf(cfg, records) <==>
            row != map[] && exists i :: 0 <= i < |records| && Resolved(records[i], cfg.columnMap) == row
  {
    if records != [] {
      var init, last := records[..|records| - 1], records[|records| - 1];
      RowsOfRecords(cfg, init, row);
      forall i | 0 <= i < |init| && Resolved(init[i], cfg.columnMap) == row
        ensures Resolved(records[i], cfg.columnMap) == row
      {
      }
      if i :| 0 <= i < |records| && Resolved(records[i], cfg.columnMap) == row {
        assert i < |init| ==> Resolved(init[i], cfg.columnMap) == row;
      }
      assert row in NonEmpty(Resolved(last, cfg.columnMap)) <==> row != map[] && Resolved(last, cfg.columnMap) == row;
    }
  }

  lemma {:induction false} RowSeqMembers(sc: Schema, rs: seq<Record>, row: Row)
    requires row in RowSeq(sc, rs)
    ensures row != map[] && exists i :: 0 <= i < |rs| && RowFor(sc, rs[i]) == row
    decreases |rs|
  {
    var init := rs[..|rs| - 1];
    if row in RowSeq(sc, init) {
      RowSeqMembers(sc, init, row);
      var i :| 0 <= i < |init| && RowFor(sc, init[i]) == row;
      assert RowFor(sc, rs[i]) == row;
    } else {
      assert RowFor(sc, rs[|rs| - 1]) == row;
    }
  }

  /** Fitting rows of one key share a signature, so grouping does no harm. */
  lemma FitMeansInOrder(sc: Schema, rs: seq<Record>)
    requires AllFit(sc, rs)
    ensures LastWritersLast(RowSeq(sc, rs), sc.cfg.uniqueKey)
  {
    var rows := RowSeq(sc, rs);
    forall i | 0 <= i < |rows| ensures rows[i].Keys == sc.columns(KeyOf(rows[i], sc.cfg.uniqueKey)) {
      assert rows[i] in rows;
      RowSeqMembers(sc, rs, rows[i]);
      var j :| 0 <= j < |rs| && RowFor(sc, rs[j]) == rows[i];
      assert Fits(sc, rs[j]);
    }
    SharedSignatureIsEnough(rows, sc.cfg.uniqueKey);
  }

  /** The block a key stands for lies past the fork. */
  ghost predicate KeyPast(cfg: PgConfig, k: Row, fork: nat)
    requires cfg.blockColumn.Some?
  {
    cfg.blockColumn.value in k && Numeric(k[cfg.blockColumn.value]) && Filter.ValueOf(k[cfg.blockColumn.value]) > fork
  }

  lemma RowPast(sc: Schema, r: Record, fork: nat)
    requires sc.cfg.blockColumn.Some? && Fits(sc, r) && RowFor(sc, r) != map[]
    ensures r.block.Some? && (KeyPast(sc.cfg, KeyOf(RowFor(sc, r), sc.cfg.uniqueKey), fork) <==> r.block.value > fork)
  {
  }

  /** Dropping the records past the fork drops all rows of the keys past it and none of the others. */
  lemma {:induction false} RetainByKey(sc: Schema, rs: seq<Record>, fork: nat, k: Row)
    requires sc.cfg.blockColumn.Some? && AllFit(sc, rs)
    ensures Select(RowSeq(sc, Retain(rs, fork + 1)), HasKey(k, sc.cfg.uniqueKey)) ==
            if KeyPast(sc.cfg, k, fork) then [] else Select(RowSeq(sc, rs), HasKey(k, sc.cfg.uniqueKey))
    decreases |rs|
  {
    hide Fits, KeyPast, RowFor, NonEmpty, KeyOf;
    if rs != [] {
      var init, r := rs[..|rs| - 1], rs[|rs| - 1];
      var p, row := HasKey(k, sc.cfg.uniqueKey), RowFor(sc, r);
      RetainByKey(sc, init, fork, k);
      SelectAppend(RowSeq(sc, init), NonEmpty(row), p);
      SelectOne(row, p);
      if row != map[] {
        RowPast(sc, r, fork);
      }
      if Below(r, fork + 1) {
        RowSeqAppend(sc, Retain(init, fork + 1), [r]);
        RowSeqOne(sc, r);
        SelectAppend(RowSeq(sc, Retain(init, fork + 1)), NonEmpty(row), p);
      } else {
        assert Retain(init, fork + 1) + [] == Retain(init, fork + 1);
        assert Select(RowSeq(sc, init), p) + [] == Select(RowSeq(sc, init), p);
      }
    }
  }

  lemma SelectOne(row: Row, p: Row -> bool)
    ensures Select(NonEmpty(row), p) == if row != map[] && p(row) then [row] else []
  {
    if row != map[] {
      assert NonEmpty(row)[..0] == [];
    }
  }

  /** Upserting one key's rows keeps the key's block column and the chain. */
  lemma {:induction false} KeyRowKeeps(sc: Schema, k: Row, rows: seq<Row>)
    requires sc.cfg.blockColumn.Some? && sc.cfg.blockColumn.value in sc.cfg.uniqueKey && rows != []
    requires forall i :: 0 <= i < |rows| ==> KeyRow(sc, k, rows[i])
    ensures var row := UpsertRows(None, rows, sc.cfg.uniqueKey).value;
            && sc.cfg.blockColumn.value in row && sc.cfg.blockColumn.value in k
            && row[sc.cfg.blockColumn.value] == k[sc.cfg.blockColumn.value]
            && ChainIs(sc, row)
    decreases |rows|
  {
    assert KeyRow(sc, k, rows[0]) && sc.cfg.blockColumn.value in KeyOf(rows[0], sc.cfg.uniqueKey);
    assert KeyRow(sc, k, rows[|rows| - 1]);
    if |rows| > 1 {
      KeyRowKeeps(sc, k, rows[..|rows| - 1]);
    } else {
      assert UpsertRows(None, rows[..0], sc.cfg.uniqueKey) == None;
    }
  }

  ghost predicate ChainIs(sc: Schema, row: Row) {
    sc.cfg.chainColumn.Some? ==> sc.cfg.chainColumn.value in row && Denotes(row[sc.cfg.chainColumn.value], sc.chainId)
  }

  ghost predicate KeyRow(sc: Schema, k: Row, row: Row) {
    KeyOf(row, sc.cfg.uniqueKey) == k && sc.cfg.blockColumn.Some? && sc.cfg.blockColumn.value in row && ChainIs(sc, row)
  }

  lemma KeyRowsFit(sc: Schema, rs: seq<Record>, k: Row)
    requires sc.cfg.blockColumn.Some? && AllFit(sc, rs)
    ensures var rows := Select(RowSeq(sc, rs), HasKey(k, sc.cfg.uniqueKey));
            forall i :: 0 <= i < |rows| ==> KeyRow(sc, k, rows[i]) && sc.cfg.blockColumn.value in sc.cfg.uniqueKey
  {
    var rows := Select(RowSeq(sc, rs), HasKey(k, sc.cfg.uniqueKey));
    SelectMembers(RowSeq(sc, rs), HasKey(k, sc.cfg.uniqueKey));
    forall i | 0 <= i < |rows| ensures KeyRow(sc, k, rows[i]) && sc.cfg.blockColumn.value in sc.cfg.uniqueKey {
      assert rows[i] in rows;
      RowSeqMembers(sc, rs, rows[i]);
      var j :| 0 <= j < |rs| && RowFor(sc, rs[j]) == rows[i];
      assert Fits(sc, rs[j]);
    }
  }

  /** Deleting past the fork from the table is the table of the records up to the fork. */
  lemma DeleteIsRetain(sc: Schema, rs: seq<Record>, fork: nat)
    requires sc.cfg.blockColumn.Some? && AllFit(sc, rs)
    ensures DeletePast(sc.cfg, TableOf(sc, rs), sc.chainId, fork) == TableOf(sc, Retain(rs, fork + 1))
  {
    var t := TableOf(sc, rs);
    var kept := TableOf(sc, Retain(rs, fork + 1));
    forall k ensures PgTable.Find(DeletePast(sc.cfg, t, sc.chainId, fork), k) == PgTable.Find(kept, k) {
      var mine := Select(RowSeq(sc, rs), HasKey(k, sc.cfg.uniqueKey));
      KeysAreIndependent(map[], RowSeq(sc, rs), sc.cfg.uniqueKey, k);
      KeysAreIndependent(map[], RowSeq(sc, Retain(rs, fork + 1)), sc.cfg.uniqueKey, k);
      RetainByKey(sc, rs, fork, k);
      KeyRowsFit(sc, rs, k);
      if mine != [] {
        KeyRowKeeps(sc, k, mine);
        assert t[k] == UpsertRows(None, mine, sc.cfg.uniqueKey).value;
        assert Doomed(sc.cfg, t[k], sc.chainId, fork) <==> KeyPast(sc.cfg, k, fork);
      }
    }
    SameFinds(DeletePast(sc.cfg, t, sc.chainId, fork), kept);
  }

  /** The stream carries only this chain's fitting records and rollbacks. */
  ghost predicate StreamFits(sc: Schema, out: seq<Batch>) {
    forall i :: 0 <= i < |out| ==>
      && AllFit(sc, out[i].Records())
      && (out[i].body.Control? && out[i].body.ctrl.Rollback? ==> out[i].body.ctrl.chainId == sc.chainId)
  }

  lemma {:induction false} RetainFits(sc: Schema, rs: seq<Record>, bound: nat)
    requires AllFit(sc, rs)
    ensures AllFit(sc, Retain(rs, bound))
  {
    if rs != [] {
      RetainFits(sc, rs[..|rs| - 1], bound);
    }
  }

  lemma {:induction false} ViewFits(sc: Schema, out: seq<Batch>)
    requires StreamFits(sc, out)
    ensures AllFit(sc, View(out))
  {
    if out != [] {
      var init, b := out[..|out| - 1], out[|out| - 1];
      ViewFits(sc, init);
      assert AllFit(sc, b.Records());
      if b.body.Control? && b.body.ctrl.Rollback? {
        RetainFits(sc, View(init), b.body.ctrl.invalidateAfter + 1);
      }
    }
  }

  lemma TableStep(sc: Schema, view: seq<Record>, b: Batch)
    requires sc.cfg.blockColumn.Some? && AllFit(sc, view)
    requires b.body.Control? && b.body.ctrl.Rollback? ==> b.body.ctrl.chainId == sc.chainId
    ensures ApplyToTable(sc, TableOf(sc, view), b) == TableOf(sc, ApplyBatch(view, b))
  {
    hide AllFit, DeletePast, RowSeq, UpsertAll, Retain;
    if b.body.Data? {
      RowSeqAppend(sc, view, b.body.records);
      UpsertAllAppend(map[], RowSeq(sc, view), RowSeq(sc, b.body.records), sc.cfg.uniqueKey);
    } else if b.body.ctrl.Rollback? {
      DeleteIsRetain(sc, view, b.body.ctrl.invalidateAfter);
    }
  }

  /** The sink's grouped writes of a fitting stream are those of its rows in order. */
  lemma FitStreamInOrder(sc: Schema, out: seq<Batch>)
    requires StreamFits(sc, out)
    ensures BatchesInOrder(sc, out)
  {
    hide LastWritersLast, AllFit;
    forall i | 0 <= i < |out| ensures LastWritersLast(RowSeq(sc, out[i].Records()), sc.cfg.uniqueKey) {
      FitMeansInOrder(sc, out[i].Records());
    }
  }

  /** The table always equals the one built from the stream with its rollbacks applied. */
  lemma {:induction false} TableIsView(sc: Schema, out: seq<Batch>)
    requires sc.cfg.blockColumn.Some? && StreamFits(sc, out)
    ensures TableAfter(sc, map[], out) == TableOf(sc, View(out))
  {
    if out == [] {
      assert TableOf(sc, []) == map[];
    } else {
      hide AllFit, ApplyToTable, TableOf;
      var init, b := out[..|out| - 1], out[|out| - 1];
      TableIsView(sc, init);
      ViewFits(sc, init);
      TableStep(sc, View(init), b);
    }
  }

  // ---- several chains in one table ----

  /** Every row's chain is that of its key. */
  ghost predicate KeyedBy(t: Table, column: Column) {
    forall k :: k in t ==> Cell(Some(t[k]), column) == Cell(Some(k), column)
  }

  /** Every row a batch writes carries the batch's chain, and a rollback is for the chain it comes from. */
  ghost predicate NamesChain(sc: Schema, column: Column, b: Batch) {
    && (forall row :: row in RowSeq(sc, b.Records()) ==> column in row && Denotes(row[column], b.chainId))
    && (b.body.Control? && b.body.ctrl.Rollback? ==> b.body.ctrl.chainId == b.chainId)
  }

  /** The batches of one chain, in order. */
  function OwnStream(out: seq<Batch>, chainId: nat): seq<Batch> {
    if out == [] then [] else
      OwnStream(out[..|out| - 1], chainId) + if out[|out| - 1].chainId == chainId then [out[|out| - 1]] else []
  }

  lemma KeyedAfter(sc: Schema, column: Column, t: Table, b: Batch)
    requires KeyedBy(t, column) && column in sc.cfg.uniqueKey
    ensures KeyedBy(ApplyToTable(sc, t, b), column)
  {
    var next := ApplyToTable(sc, t, b);
    if b.body.Data? {
      var rows, uk := RowSeq(sc, b.body.records), sc.cfg.uniqueKey;
      forall k | k in next ensures Cell(Some(next[k]), column) == Cell(Some(k), column) {
        TableCell(t, rows, uk, k, column);
        KeysAreIndependent(t, rows, uk, k);
      }
    }
  }

  lemma {:induction false} KeyedThroughout(sc: Schema, column: Column, t: Table, out: seq<Batch>)
    requires KeyedBy(t, column) && column in sc.cfg.uniqueKey
    ensures KeyedBy(TableAfter(sc, t, out), column)
  {
    if out != [] {
      KeyedThroughout(sc, column, t, out[..|out| - 1]);
      KeyedAfter(sc, column, TableAfter(sc, t, out[..|out| - 1]), out[|out| - 1]);
    }
  }

  /** A batch of another chain leaves the key's row alone. */
  lemma OtherChainsBatch(sc: Schema, column: Column, t: Table, b: Batch, k: Row)
    requires sc.cfg.chainColumn == Some(column) && column in sc.cfg.uniqueKey && KeyedBy(t, column)
    requires NamesChain(sc, column, b) && column in k && !Denotes(k[column], b.chainId)
    ensures PgTable.Find(ApplyToTable(sc, t, b), k) == PgTable.Find(t, k)
  {
    if b.body.Data? {
      var rows, uk := RowSeq(sc, b.body.records), sc.cfg.uniqueKey;
      KeysAreIndependent(t, rows, uk, k);
      forall i | 0 <= i < |rows| ensures !HasKey(k, uk)(rows[i]) {
        assert rows[i] in rows;
        assert column in KeyOf(rows[i], uk);
      }
      SelectNone(rows, HasKey(k, uk));
    } else if k in t {
      assert Cell(Some(t[k]), column) == Cell(Some(k), column);
    }
  }

  /** What a batch does to a key's row depends on that row only. */
  lemma OneKeyStep(sc: Schema, t: Table, u: Table, b: Batch, k: Row)
    requires PgTable.Find(t, k) == PgTable.Find(u, k)
    ensures PgTable.Find(ApplyToTable(sc, t, b), k) == PgTable.Find(ApplyToTable(sc, u, b), k)
  {
    if b.body.Data? {
      KeysAreIndependent(t, RowSeq(sc, b.body.records), sc.cfg.uniqueKey, k);
      KeysAreIndependent(u, RowSeq(sc, b.body.records), sc.cfg.uniqueKey, k);
    }
  }

  /** Several chains in one table do not mix: with the chain column part of the unique key, the rows of each
      chain are at every point those the chain's own batches alone would have made, rollbacks of the others
      included. */
  lemma {:induction false} ChainsDoNotMix(sc: Schema, column: Column, t: Table, out: seq<Batch>, chainId: nat, k: Row)
    requires sc.cfg.chainColumn == Some(column) && column in sc.cfg.uniqueKey && KeyedBy(t, column)
    requires forall i :: 0 <= i < |out| ==> NamesChain(sc, column, out[i])
    requires column in k && Denotes(k[column], chainId)
    ensures PgTable.Find(TableAfter(sc, t, out), k) == PgTable.Find(TableAfter(sc, t, OwnStream(out, chainId)), k)
  {
    if out != [] {
      hide ApplyToTable, KeyedBy, NamesChain;
      var init, b := out[..|out| - 1], out[|out| - 1];
      ChainsDoNotMix(sc, column, t, init, chainId, k);
      var own := OwnStream(init, chainId);
      if b.chainId == chainId {
        assert (own + [b])[..|own|] == own;
        OneKeyStep(sc, TableAfter(sc, t, init), TableAfter(sc, t, own), b, k);
      } else {
        assert own + [] == own;
        KeyedThroughout(sc, column, t, init);
        OtherChainsBatch(sc, column, TableAfter(sc, t, init), b, k);
      }
    }
  }

  // ---- redelivery after a crash ----

  ghost predicate NoRollbacks(out: seq<Batch>) {
    forall i :: 0 <= i < |out| && out[i].body.Control? ==> !out[i].body.ctrl.Rollback?
  }

  /** A stream without rollbacks upserts its records, whatever the table holds. */
  lemma {:induction false} StreamUpserts(sc: Schema, t: Table, out: seq<Batch>)
    requires NoRollbacks(out)
    ensures TableAfter(sc, t, out) == UpsertAll(t, RowSeq(sc, View(out)), sc.cfg.uniqueKey)
  {
    if out != [] {
      var init, b := out[..|out| - 1], out[|out| - 1];
      StreamUpserts(sc, t, init);
      if b.body.Data? {
        RowSeqAppend(sc, View(init), b.body.records);
        UpsertAllAppend(t, RowSeq(sc, View(init)), RowSeq(sc, b.body.records), sc.cfg.uniqueKey);
      }
    }
  }

  /** A table that holds blocks `[base, a)` and is then sent `[r, b)`, part of it for the second time, holds
      `[base, b)`: a restart from below what was written costs nothing but time. */
  lemma RedeliveryIsHarmless(sc: Schema, c: Chain, base: nat, r: nat, a: nat, b: nat, out: seq<Batch>)
    requires base <= r <= a <= b && NoRollbacks(out) && View(out) == Recs(c, r, b)
    ensures TableAfter(sc, TableOf(sc, Recs(c, base, a)), out) == TableOf(sc, Recs(c, base, b))
  {
    hide Recs, View, UpsertAll;
    var uk := sc.cfg.uniqueKey;
    var first, again, rest := RowSeq(sc, Recs(c, base, r)), RowSeq(sc, Recs(c, r, a)), RowSeq(sc, Recs(c, a, b));
    RecsSplit(c, base, r, a);
    RecsSplit(c, r, a, b);
    RecsSplit(c, base, a, b);
    RowSeqAppend(sc, Recs(c, base, r), Recs(c, r, a));
    RowSeqAppend(sc, Recs(c, r, a), Recs(c, a, b));
    RowSeqAppend(sc, Recs(c, base, a), Recs(c, a, b));
    var t := TableOf(sc, Recs(c, base, a));
    StreamUpserts(sc, t, out);
    UpsertAllAppend(t, again, rest, uk);
    ReplayIsIdempotent(map[], first + again, |first|, uk);
    assert (first + again)[|first|..] == again;
    UpsertAllAppend(map[], first + again, rest, uk);
  }

  // ---- end to end ----

  ghost predicate ChainFits(sc: Schema, c: Chain) {
    forall n: nat :: AllFit(sc, c.at(n).records)
  }

  lemma {:induction false} RecsFit(sc: Schema, c: Chain, lo: nat, hi: nat)
    requires ChainFits(sc, c)
    ensures AllFit(sc, Recs(c, lo, hi))
  {
    if lo < hi {
      RecsFit(sc, c, lo, hi - 1);
      assert AllFit(sc, c.at(hi - 1).records);
    }
  }

  lemma {:induction false} ChunksFit(sc: Schema, src: Source.SourceCfg, range: BlockRange, seqNo: nat,
                                     rest: seq<Record>)
    requires AllFit(sc, rest)
    ensures StreamFits(sc, Source.Chunked(src, range, seqNo, rest))
    decreases |rest|
  {
    if |rest| > src.ChunkSize() {
      var n := src.ChunkSize();
      ChunksFit(sc, src, range, seqNo + 1, rest[n..]);
      assert AllFit(sc, rest[..n]);
    }
  }

  lemma PollFits(sc: Schema, src: Source.SourceCfg, d: Chain, s: Source.State, p: Source.Poll)
    requires src.chainId == sc.chainId && ChainFits(sc, d) && StreamFits(sc, s.out)
    requires p.Answer? ==> Replay.Honest(d, s.cursor, p.resp)
    ensures StreamFits(sc, Source.PollStep(src, s, p).out)
  {
    if Source.Emits(src, s, p) {
      var next := Source.PollStep(src, s, p).cursor;
      RecsFit(sc, d, s.cursor, p.resp.nextBlock);
      RetainFits(sc, p.resp.records, next);
      ChunksFit(sc, src, BlockRange(s.cursor, next), 0, Source.Truncated(p.resp, next));
    }
  }

  lemma {:induction false} RunFits(sc: Schema, src: Source.SourceCfg, states: seq<Source.State>,
                                   polls: seq<Source.Poll>, chains: seq<Chain>, k: nat)
    requires Replay.IsRun(src, states, polls) && Replay.HonestAnswers(states, polls, chains)
    requires k < |states| && states[0].out == [] && src.chainId == sc.chainId
    requires forall i :: 0 <= i < |chains| ==> ChainFits(sc, chains[i])
    ensures StreamFits(sc, states[k].out)
  {
    if k > 0 {
      RunFits(sc, src, states, polls, chains, k - 1);
      assert states[k - 1 + 1] == Source.PollStep(src, states[k - 1], polls[k - 1]);
      PollFits(sc, src, chains[k - 1], states[k - 1], polls[k - 1]);
    }
  }

  /** End to end: at every point of a watched run, however the chain was replaced, the stream is one
      `Feed` handles as written, and the table it leaves in a rollback-enabled sink holds exactly one
      served chain's records on `[base, cursor)`. */
  lemma TableHoldsOneChain(sc: Schema, src: Source.SourceCfg, states: seq<Source.State>,
                           polls: seq<Source.Poll>, chains: seq<Chain>, k: nat)
    requires Replay.IsRun(src, states, polls) && Replay.HonestAnswers(states, polls, chains)
    requires Replay.WatchedRun(src, states, polls) && Replay.StartsClean(src, states[0])
    requires chains != [] && Replay.Versions(chains) && src.reorgEnabled && k < |states|
    requires sc.cfg.blockColumn.Some? && src.chainId == sc.chainId
    requires forall i :: 0 <= i < |chains| ==> ChainFits(sc, chains[i])
    ensures BatchesInOrder(sc, states[k].out)
    ensures exists j :: 0 <= j < |chains| &&
              TableAfter(sc, map[], states[k].out) ==
              TableOf(sc, Recs(chains[j], Replay.Lowest(states, k), states[k].cursor))
  {
    Replay.ReplayIsOneChain(src, states, polls, chains, k);
    RunFits(sc, src, states, polls, chains, k);
    FitStreamInOrder(sc, states[k].out);
    TableIsView(sc, states[k].out);
    var j :| 0 <= j < |chains| && View(states[k].out) == Recs(chains[j], Replay.Lowest(states, k), states[k].cursor);
    assert TableAfter(sc, map[], states[k].out) ==
        TableOf(sc, Recs(chains[j], Replay.Lowest(states, k), states[k].cursor));
  }

  /** The same with other chains' streams going into the same table: the rows of each watched source's chain
      are exactly one served version's records on `[base, cursor)`. */
  lemma SharedTableHoldsEachChain(sc: Schema, column: Column, out: seq<Batch>, src: Source.SourceCfg,
                                  states: seq<Source.State>, polls: seq<Source.Poll>, chains: seq<Chain>, n: nat)
    requires sc.cfg.chainColumn == Some(column) && column in sc.cfg.uniqueKey
    requires forall i :: 0 <= i < |out| ==> NamesChain(sc, column, out[i])
    requires Replay.IsRun(src, states, polls) && Replay.HonestAnswers(states, polls, chains)
    requires Replay.WatchedRun(src, states, polls) && Replay.StartsClean(src, states[0])
    requires chains != [] && Replay.Versions(chains) && src.reorgEnabled && n < |states|
    requires sc.cfg.blockColumn.Some? && src.chainId == sc.chainId
    requires forall i :: 0 <= i < |chains| ==> ChainFits(sc, chains[i])
    requires OwnStream(out, sc.chainId) == states[n].out
    ensures exists j :: 0 <= j < |chains| &&
              var mine := TableOf(sc, Recs(chains[j], Replay.Lowest(states, n), states[n].cursor));
              forall k :: column in k && Denotes(k[column], sc.chainId) ==>
                PgTable.Find(TableAfter(sc, map[], out), k) == PgTable.Find(mine, k)
  {
    TableHoldsOneChain(sc, src, states, polls, chains, n);
    forall k | column in k && Denotes(k[column], sc.chainId)
      ensures PgTable.Find(TableAfter(sc, map[], out), k) == PgTable.Find(TableAfter(sc, map[], states[n].out), k)
    {
      ChainsDoNotMix(sc, column, map[], out, sc.chainId, k);
    }
  }
}

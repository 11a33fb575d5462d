/** The postgres sink's statements by their effect on a table. */
module PgTable {
  import opened Common
  import opened Lex
  import opened Filter

  type Column = string
  /** A resolved record: column -> value. The sorted vector of the source is the map's canonical form,
      and a column signature is its key set. */
  type Row = map<Column, Json>
  /** Rows by the values of their unique-key columns. */
  type Table = map<Row, Row>

  // ---- resolving a record ----

  function Scalars(rec: Json): Row {
    if rec.Obj? then map k | k in rec.fields && !rec.fields[k].Obj? && !rec.fields[k].Arr? :: rec.fields[k] else map[]
  }

  /** Top-level scalars, then each mapped path in order, overriding. */
  function Resolved(rec: Json, columnMap: seq<(seq<string>, Column)>): Row
    decreases |columnMap|
  {
    if columnMap == [] then Scalars(rec) else
      var before := Resolved(rec, columnMap[..|columnMap| - 1]);
      var (path, col) := columnMap[|columnMap| - 1];
      var v := ResolvePath(rec, path);
      if v.Some? then before[col := v.value] else before
  }

  method ResolveColumns(rec: Json, columnMap: seq<(seq<string>, Column)>) returns (row: Row)
    ensures row == Resolved(rec, columnMap)
  {
    row := map[];
    if rec.Obj? {
      var todo := rec.fields.Keys;
      while todo != {}
        invariant todo <= rec.fields.Keys
        invariant row == map k | k in Scalars(rec) && k !in todo :: rec.fields[k]
      {
        var k :| k in todo;
        if !rec.fields[k].Obj? && !rec.fields[k].Arr? {
          row := row[k := rec.fields[k]];
        }
        todo := todo - {k};
      }
    }
    for i := 0 to |columnMap|
      invariant row == Resolved(rec, columnMap[..i])
    {
      assert columnMap[..i + 1][..i] == columnMap[..i];
      var v := ResolvePath(rec, columnMap[i].0);
      if v.Some? {
        row := row[columnMap[i].1 := v.value];
      }
    }
    assert columnMap[..|columnMap|] == columnMap;
  }

  /** Entry `i` is the last one that gives column `c` a value. */
  ghost predicate LastMapping(rec: Json, columnMap: seq<(seq<string>, Column)>, c: Column, i: nat) {
    && i < |columnMap| && columnMap[i].1 == c && ResolvePath(rec, columnMap[i].0).Some?
    && forall j :: i < j < |columnMap| && columnMap[j].1 == c ==> ResolvePath(rec, columnMap[j].0).None?
  }

  /** A column holds the value of the last mapped path that resolves. */
  lemma {:induction false} MappedColumn(rec: Json, columnMap: seq<(seq<string>, Column)>, c: Column, i: nat)
    requires LastMapping(rec, columnMap, c, i)
    ensures c in Resolved(rec, columnMap) && Resolved(rec, columnMap)[c] == ResolvePath(rec, columnMap[i].0).value
    decreases |columnMap|
  {
    if i < |columnMap| - 1 {
      MappedColumn(rec, columnMap[..|columnMap| - 1], c, i);
    }
  }

  /** A column no mapped path gives a value holds the top-level scalar of that name, if there is one;
      nested values enter only through the map. */
  lemma {:induction false} UnmappedColumn(rec: Json, columnMap: seq<(seq<string>, Column)>, c: Column)
    requires forall i :: 0 <= i < |columnMap| && columnMap[i].1 == c ==> ResolvePath(rec, columnMap[i].0).None?
    ensures c in Resolved(rec, columnMap) <==>
            rec.Obj? && c in rec.fields && !rec.fields[c].Obj? && !rec.fields[c].Arr?
    ensures c in Resolved(rec, columnMap) ==> Resolved(rec, columnMap)[c] == rec.fields[c]
    decreases |columnMap|
  {
    if columnMap != [] {
      var init := columnMap[..|columnMap| - 1];
      assert forall i :: 0 <= i < |init| ==> init[i] == columnMap[i];
      UnmappedColumn(rec, init, c);
    }
  }

  // ---- upserts ----

  function KeyOf(row: Row, uniqueKey: set<Column>): Row {
    map c | c in row && c in uniqueKey :: row[c]
  }

  /** Inserting takes the row; a conflict updates the columns outside the unique key. */
  function UpsertRow(existing: Option<Row>, row: Row, uniqueKey: set<Column>): Row {
    if existing.None? then row else existing.value + (row - uniqueKey)
  }

  function Find(t: Table, k: Row): Option<Row> {
    if k in t then Some(t[k]) else None
  }

  function Upsert(t: Table, row: Row, uniqueKey: set<Column>): Table {
    t[KeyOf(row, uniqueKey) := UpsertRow(Find(t, KeyOf(row, uniqueKey)), row, uniqueKey)]
  }

  function UpsertAll(t: Table, rows: seq<Row>, uniqueKey: set<Column>): Table
    decreases |rows|
  {
    if rows == [] then t else Upsert(UpsertAll(t, rows[..|rows| - 1], uniqueKey), rows[|rows| - 1], uniqueKey)
  }

  lemma {:induction false} UpsertAllAppend(t: Table, a: seq<Row>, b: seq<Row>, uniqueKey: set<Column>)
    decreases |b|
    ensures UpsertAll(t, a + b, uniqueKey) == UpsertAll(UpsertAll(t, a, uniqueKey), b, uniqueKey)
  {
    if b == [] {
      assert a + b == a;
    } else {
      UpsertAllAppend(t, a, b[..|b| - 1], uniqueKey);
      assert (a + b)[..|a + b| - 1] == a + b[..|b| - 1];
    }
  }

  // ---- one key at a time ----

  function Select(rows: seq<Row>, p: Row -> bool): seq<Row> {
    if rows == [] then [] else
      Select(rows[..|rows| - 1], p) + if p(rows[|rows| - 1]) then [rows[|rows| - 1]] else []
  }

  function HasKey(k: Row, uniqueKey: set<Column>): Row -> bool {
    (row: Row) => KeyOf(row, uniqueKey) == k
  }

  function HasSignature(columns: set<Column>): Row -> bool {
    (row: Row) => row.Keys == columns
  }

  /** What a series of upserts of one key makes of its row. */
  function UpsertRows(existing: Option<Row>, rows: seq<Row>, uniqueKey: set<Column>): Option<Row>
    decreases |rows|
  {
    if rows == [] then existing
    else Some(UpsertRow(UpsertRows(existing, rows[..|rows| - 1], uniqueKey), rows[|rows| - 1], uniqueKey))
  }

  lemma SelectSnoc(rows: seq<Row>, r: Row, p: Row -> bool)
    ensures Select(rows + [r], p) == Select(rows, p) + if p(r) then [r] else []
  {
    assert (rows + [r])[..|rows|] == rows;
  }

  /** Each key's row depends only on the rows with that key, in their order. */
  lemma {:induction false} KeysAreIndependent(t: Table, rows: seq<Row>, uniqueKey: set<Column>, k: Row)
    decreases |rows|
    ensures Find(UpsertAll(t, rows, uniqueKey), k) ==
            UpsertRows(Find(t, k), Select(rows, HasKey(k, uniqueKey)), uniqueKey)
  {
    if rows != [] {
      var init, last := rows[..|rows| - 1], rows[|rows| - 1];
      KeysAreIndependent(t, init, uniqueKey, k);
      var mine := Select(init, HasKey(k, uniqueKey));
      if KeyOf(last, uniqueKey) == k {
        assert (mine + [last])[..|mine|] == mine;
      } else {
        assert mine + [] == mine;
      }
    }
  }

  lemma {:induction false} SelectAppend(a: seq<Row>, b: seq<Row>, p: Row -> bool)
    ensures Select(a + b, p) == Select(a, p) + Select(b, p)
  {
    if b == [] {
      assert a + b == a;
    } else {
      SelectAppend(a, b[..|b| - 1], p);
      assert (a + b)[..|a + b| - 1] == a + b[..|b| - 1];
    }
  }

  lemma {:induction false} SelectMembers(rows: seq<Row>, p: Row -> bool)
    ensures forall r :: r in Select(rows, p) <==> r in rows && p(r)
  {
    if rows != [] {
      SelectMembers(rows[..|rows| - 1], p);
      assert rows == rows[..|rows| - 1] + [rows[|rows| - 1]];
    }
  }

  lemma {:induction false} SelectWithin(rows: seq<Row>, p: Row -> bool, q: Row -> bool)
    requires forall i :: 0 <= i < |rows| && p(rows[i]) ==> q(rows[i])
    ensures Select(Select(rows, q), p) == Select(rows, p)
  {
    if rows != [] {
      var init, last := rows[..|rows| - 1], rows[|rows| - 1];
      SelectWithin(init, p, q);
      if q(last) {
        SelectSnoc(Select(init, q), last, p);
      } else {
        assert Select(init, q) + [] == Select(init, q);
        assert Select(init, p) + [] == Select(init, p);
      }
    }
  }

  lemma {:induction false} SelectNone(rows: seq<Row>, p: Row -> bool)
    requires forall i :: 0 <= i < |rows| ==> !p(rows[i])
    ensures Select(rows, p) == []
  {
    if rows != [] {
      SelectNone(rows[..|rows| - 1], p);
    }
  }

  lemma {:induction false} SelectTwice(rows: seq<Row>, p: Row -> bool, q: Row -> bool)
    ensures Select(Select(rows, p), q) == Select(rows, Both(p, q))
  {
    if rows != [] {
      var init, last := rows[..|rows| - 1], rows[|rows| - 1];
      SelectTwice(init, p, q);
      if p(last) {
        SelectSnoc(Select(init, p), last, q);
      } else {
        assert Select(init, p) + [] == Select(init, p);
      }
    }
  }

  function Both(p: Row -> bool, q: Row -> bool): Row -> bool {
    (row: Row) => p(row) && q(row)
  }

  /** The last row that satisfies `p` is the last one selected. */
  lemma {:induction false} SelectLast(rows: seq<Row>, p: Row -> bool, j: nat)
    requires j < |rows| && p(rows[j]) && forall l :: j < l < |rows| ==> !p(rows[l])
    ensures Select(rows, p) != [] && Select(rows, p)[|Select(rows, p)| - 1] == rows[j]
  {
    if j < |rows| - 1 {
      SelectLast(rows[..|rows| - 1], p, j);
    }
  }

  // ---- the order of signatures ----

  predicate IsLeast(s: set<Column>, c: Column) {
    c in s && forall d :: d in s ==> CompareStrings(c, d) != Greater
  }

  lemma {:induction false} LeastExists(s: set<Column>)
    requires s != {}
    ensures exists c :: IsLeast(s, c)
  {
    StringsAreOrdered();
    var x :| x in s;
    if s == {x} {
      assert IsLeast(s, x);
    } else {
      LeastExists(s - {x});
      var m :| IsLeast(s - {x}, m);
      assert s == (s - {x}) + {x};
      assert IsLeast(s, if CompareStrings(x, m) == Less then x else m);
    }
  }

  function Least(s: set<Column>): (c: Column)
    requires s != {}
    ensures IsLeast(s, c)
  {
    LeastExists(s);
    StringsAreOrdered();
    var c :| IsLeast(s, c);
    c
  }

  /** A signature as the source keeps it: the column names in ascending order. */
  function SortedColumns(s: set<Column>): seq<Column>
    decreases |s|
  {
    if s == {} then [] else [Least(s)] + SortedColumns(s - {Least(s)})
  }

  lemma {:induction false} SortedColumnsMembers(s: set<Column>, c: Column)
    ensures c in SortedColumns(s) <==> c in s
    decreases |s|
  {
    if s != {} {
      SortedColumnsMembers(s - {Least(s)}, c);
    }
  }

  function SigOrder(a: set<Column>, b: set<Column>): Order {
    Compare(CompareStrings, SortedColumns(a), SortedColumns(b))
  }

  /** A signature lists its columns in strictly ascending order. */
  lemma {:induction false} SortedColumnsAscend(s: set<Column>)
    ensures var names := SortedColumns(s);
            forall i, j :: 0 <= i < j < |names| ==> CompareStrings(names[i], names[j]) == Less
    decreases |s|
  {
    if s != {} {
      var least := Least(s);
      var rest := SortedColumns(s - {least});
      SortedColumnsAscend(s - {least});
      StringsAreOrdered();
      forall j | 0 <= j < |rest| ensures CompareStrings(least, rest[j]) == Less {
        SortedColumnsMembers(s - {least}, rest[j]);
        assert rest[j] in rest;
      }
    }
  }

  /** One signature comes before another iff its sorted column names do: at the first difference it has ended or
      has the smaller name. */
  lemma SigOrderMeaning(a: set<Column>, b: set<Column>)
    ensures SigOrder(a, b) == Less <==> NamesBefore(SortedColumns(a), SortedColumns(b))
  {
    NamesInOrder(SortedColumns(a), SortedColumns(b));
  }

  ghost predicate NamesBefore(x: seq<string>, y: seq<string>) {
    exists i: nat :: LessAt(CompareStrings, x, y, i)
  }

  lemma NamesInOrder(x: seq<string>, y: seq<string>)
    ensures Compare(CompareStrings, x, y) == Less <==> NamesBefore(x, y)
  {
    StringsAreOrdered();
    CompareMeaning(CompareStrings, x, y);
  }

  lemma SignaturesAreOrdered()
    ensures TotalOrder(SigOrder)
  {
    StringsAreOrdered();
    LexicographicIsTotal(CompareStrings);
    var lex := (a: seq<string>, b: seq<string>) => Compare(CompareStrings, a, b);
    forall a, b
      ensures (SigOrder(a, b) == Equal <==> a == b) && SigOrder(b, a) == Flip(SigOrder(a, b))
    {
      assert SigOrder(a, b) == lex(SortedColumns(a), SortedColumns(b));
      assert SigOrder(b, a) == lex(SortedColumns(b), SortedColumns(a));
      if SortedColumns(a) == SortedColumns(b) {
        forall c ensures c in a <==> c in b {
          SortedColumnsMembers(a, c);
          SortedColumnsMembers(b, c);
        }
      }
    }
    forall a, b, c | SigOrder(a, b) == Less && SigOrder(b, c) == Less ensures SigOrder(a, c) == Less {
      assert lex(SortedColumns(a), SortedColumns(c)) == Less by {
        assert lex(SortedColumns(a), SortedColumns(b)) == Less;
        assert lex(SortedColumns(b), SortedColumns(c)) == Less;
      }
    }
  }

  ghost predicate Ascending(sigs: seq<set<Column>>) {
    forall i, j :: 0 <= i < j < |sigs| ==> SigOrder(sigs[i], sigs[j]) == Less
  }

  // ---- grouping by column signature ----

  function Flatten(groups: seq<seq<Row>>): seq<Row> {
    if groups == [] then [] else Flatten(groups[..|groups| - 1]) + groups[|groups| - 1]
  }

  /** One group per signature present, in ascending order, each holding its rows in their order. */
  ghost predicate GroupsOf(rows: seq<Row>, sigs: seq<set<Column>>, groups: seq<seq<Row>>) {
    && Ascending(sigs)
    && |sigs| == |groups|
    && (forall i :: 0 <= i < |groups| ==> groups[i] == Select(rows, HasSignature(sigs[i])) && groups[i] != [])
    && (forall r :: r in rows ==> r.Keys in sigs)
  }

  /** `group_by_signature`: an ordered map from signatures to rows, flattened to its values. */
  method GroupBySignature(rows: seq<Row>) returns (sigs: seq<set<Column>>, groups: seq<seq<Row>>)
    ensures GroupsOf(rows, sigs, groups)
  {
    hide GroupsOf, SigOrder;
    sigs, groups := [], [];
    NoGroups();
    for n := 0 to |rows|
      invariant |sigs| == |groups| && GroupsOf(rows[..n], sigs, groups)
    {
      var row := rows[n];
      assert rows[..n + 1] == rows[..n] + [row];
      var i := Position(sigs, row.Keys);
      if i < |sigs| && sigs[i] == row.Keys {
        AddToGroup(rows[..n], sigs, groups, row, i);
        groups := groups[i := groups[i] + [row]];
      } else {
        AddGroup(rows[..n], sigs, groups, row, i);
        sigs, groups := sigs[..i] + [row.Keys] + sigs[i..], groups[..i] + [[row]] + groups[i..];
      }
    }
    assert rows[..|rows|] == rows;
  }

  lemma NoGroups()
    ensures GroupsOf([], [], [])
  {
  }

  lemma AddToGroup(rows: seq<Row>, sigs: seq<set<Column>>, groups: seq<seq<Row>>, row: Row, i: nat)
    requires GroupsOf(rows, sigs, groups) && i < |sigs| && sigs[i] == row.Keys
    ensures GroupsOf(rows + [row], sigs, groups[i := groups[i] + [row]])
  {
    SignaturesAreOrdered();
    var next := groups[i := groups[i] + [row]];
    forall j | 0 <= j < |sigs| ensures next[j] == Select(rows + [row], HasSignature(sigs[j])) {
      SelectSnoc(rows, row, HasSignature(sigs[j]));
      assert groups[j] + [] == groups[j];
      assert j != i ==> sigs[j] != sigs[i];
    }
  }

  lemma InsertAscending(sigs: seq<set<Column>>, sig: set<Column>, i: nat)
    requires Ascending(sigs) && i <= |sigs| && (forall j :: 0 <= j < i ==> SigOrder(sigs[j], sig) == Less)
    requires i < |sigs| ==> SigOrder(sig, sigs[i]) == Less
    ensures Ascending(sigs[..i] + [sig] + sigs[i..])
    ensures forall j :: 0 <= j < |sigs| ==> sigs[j] != sig
  {
    hide SigOrder;
    SignaturesAreOrdered();
    forall j | i <= j < |sigs| ensures SigOrder(sig, sigs[j]) == Less {
      assert j == i || SigOrder(sigs[i], sigs[j]) == Less;
    }
    forall j | 0 <= j < |sigs| ensures sigs[j] != sig {
      assert SigOrder(sig, sig) == Equal;
    }
  }

  lemma AddGroup(rows: seq<Row>, sigs: seq<set<Column>>, groups: seq<seq<Row>>, row: Row, i: nat)
    requires GroupsOf(rows, sigs, groups)
    requires i <= |sigs| && (forall j :: 0 <= j < i ==> SigOrder(sigs[j], row.Keys) == Less)
    requires i < |sigs| ==> SigOrder(row.Keys, sigs[i]) == Less
    ensures GroupsOf(rows + [row], sigs[..i] + [row.Keys] + sigs[i..], groups[..i] + [[row]] + groups[i..])
  {
    hide SigOrder, Ascending;
    InsertAscending(sigs, row.Keys, i);
    var sigs', groups' := sigs[..i] + [row.Keys] + sigs[i..], groups[..i] + [[row]] + groups[i..];
    forall r | r in rows ensures r.Keys != row.Keys {
      assert r.Keys in sigs;
    }
    SelectNone(rows, HasSignature(row.Keys));
    forall j | 0 <= j < |sigs'| ensures groups'[j] == Select(rows + [row], HasSignature(sigs'[j])) && groups'[j] != [] {
      SelectSnoc(rows, row, HasSignature(sigs'[j]));
      if j != i {
        var at := if j < i then j else j - 1;
        assert sigs'[j] == sigs[at] && groups'[j] == groups[at];
        assert groups[at] + [] == groups[at];
      }
    }
    SignaturesListed(rows, sigs, row, i);
  }

  lemma SignaturesListed(rows: seq<Row>, sigs: seq<set<Column>>, row: Row, i: nat)
    requires i <= |sigs| && forall r :: r in rows ==> r.Keys in sigs
    ensures forall r :: r in rows + [row] ==> r.Keys in sigs[..i] + [row.Keys] + sigs[i..]
  {
    var sigs' := sigs[..i] + [row.Keys] + sigs[i..];
    forall r | r in rows + [row] ensures r.Keys in sigs' {
      if r in rows {
        var at :| 0 <= at < |sigs| && sigs[at] == r.Keys;
        assert sigs'[if at < i then at else at + 1] == r.Keys;
      } else {
        assert sigs'[i] == r.Keys;
      }
    }
  }

  /** Where a signature is in the ordered list, or belongs. */
  method Position(sigs: seq<set<Column>>, sig: set<Column>) returns (i: nat)
    ensures i <= |sigs| && forall j :: 0 <= j < i ==> SigOrder(sigs[j], sig) == Less
    ensures i < |sigs| && sigs[i] != sig ==> SigOrder(sig, sigs[i]) == Less
  {
    hide SigOrder;
    SignaturesAreOrdered();
    i := 0;
    while i < |sigs| && SigOrder(sigs[i], sig) == Less
      invariant i <= |sigs| && forall j :: 0 <= j < i ==> SigOrder(sigs[j], sig) == Less
      decreases |sigs| - i
    {
      i := i + 1;
    }
    assert i < |sigs| ==> SigOrder(sig, sigs[i]) == Flip(SigOrder(sigs[i], sig));
  }

  /** A group of another signature holds no row that satisfies `p`. */
  lemma OtherGroup(rows: seq<Row>, sig: set<Column>, p: Row -> bool)
    requires forall i :: 0 <= i < |rows| && p(rows[i]) ==> rows[i].Keys != sig
    ensures Select(Select(rows, HasSignature(sig)), p) == []
  {
    var group := Select(rows, HasSignature(sig));
    SelectMembers(rows, HasSignature(sig));
    forall i | 0 <= i < |group| ensures !p(group[i]) {
      assert group[i] in group;
    }
    SelectNone(group, p);
  }

  // ---- which row a column's value comes from ----

  function Cell(row: Option<Row>, c: Column): Option<Json> {
    if row.Some? && c in row.value then Some(row.value[c]) else None
  }

  /** Rows of key `k` that give column `c` a value. */
  function Writes(k: Row, uniqueKey: set<Column>, c: Column): Row -> bool {
    (row: Row) => KeyOf(row, uniqueKey) == k && c in row
  }

  function LastCell(rows: seq<Row>, c: Column): Option<Json> {
    if rows == [] then None else Cell(Some(rows[|rows| - 1]), c)
  }

  /** A unique-key column keeps its value; any other holds what the last row with that column says, and
      what was there before when no row has it. */
  lemma {:induction false} CellAfter(existing: Option<Row>, rows: seq<Row>, uniqueKey: set<Column>, k: Row, c: Column)
    requires forall i :: 0 <= i < |rows| ==> KeyOf(rows[i], uniqueKey) == k
    ensures var writers := Select(rows, Writes(k, uniqueKey, c));
            Cell(UpsertRows(existing, rows, uniqueKey), c) ==
            if c in uniqueKey then Cell(if existing.Some? || rows == [] then existing else Some(k), c)
            else if writers != [] then LastCell(writers, c) else Cell(existing, c)
    decreases |rows|
  {
    if rows != [] {
      var init, last := rows[..|rows| - 1], rows[|rows| - 1];
      CellAfter(existing, init, uniqueKey, k, c);
      assert c in uniqueKey ==> (c in k <==> c in last);
      if c !in last {
        assert Select(init, Writes(k, uniqueKey, c)) + [] == Select(init, Writes(k, uniqueKey, c));
      }
    }
  }

  /** The cell of column `c` in the row of key `k`, after the upserts. */
  lemma TableCell(t: Table, rows: seq<Row>, uniqueKey: set<Column>, k: Row, c: Column)
    ensures var writers := Select(rows, Writes(k, uniqueKey, c));
            Cell(Find(UpsertAll(t, rows, uniqueKey), k), c) ==
            if c in uniqueKey
            then Cell(if k in t || Select(rows, HasKey(k, uniqueKey)) == [] then Find(t, k) else Some(k), c)
            else if writers != [] then LastCell(writers, c) else Cell(Find(t, k), c)
  {
    var mine := Select(rows, HasKey(k, uniqueKey));
    KeysAreIndependent(t, rows, uniqueKey, k);
    SelectMembers(rows, HasKey(k, uniqueKey));
    forall i | 0 <= i < |mine| ensures KeyOf(mine[i], uniqueKey) == k {
      assert mine[i] in mine;
    }
    CellAfter(Find(t, k), mine, uniqueKey, k, c);
    SelectTwice(rows, HasKey(k, uniqueKey), Writes(k, uniqueKey, c));
    SelectCongruent(rows, Both(HasKey(k, uniqueKey), Writes(k, uniqueKey, c)), Writes(k, uniqueKey, c));
  }

  lemma {:induction false} SelectCongruent(rows: seq<Row>, p: Row -> bool, q: Row -> bool)
    requires forall r :: p(r) <==> q(r)
    ensures Select(rows, p) == Select(rows, q)
  {
    if rows != [] {
      SelectCongruent(rows[..|rows| - 1], p, q);
    }
  }

  // ---- grouped writes against in-order writes ----

  /** Row `j` is the last of its key to give column `c` a value. */
  ghost predicate IsLastWriter(rows: seq<Row>, uniqueKey: set<Column>, j: nat, c: Column) {
    && j < |rows| && c !in uniqueKey && c in rows[j]
    && forall l :: j < l < |rows| ==> !Writes(KeyOf(rows[j], uniqueKey), uniqueKey, c)(rows[l])
  }

  /** Whenever a row is the last of its key to write a column, no earlier row of that key writing that
      column has a later signature. */
  ghost predicate LastWritersLast(rows: seq<Row>, uniqueKey: set<Column>) {
    forall i: nat, j: nat, c ::
      IsLastWriter(rows, uniqueKey, j, c) && i < j && Writes(KeyOf(rows[j], uniqueKey), uniqueKey, c)(rows[i]) ==>
        SigOrder(rows[i].Keys, rows[j].Keys) != Greater
  }

  /** Rows that share a unique key share a column signature. */
  ghost predicate KeysShareSignature(rows: seq<Row>, uniqueKey: set<Column>) {
    forall i, j :: 0 <= i < |rows| && 0 <= j < |rows| && KeyOf(rows[i], uniqueKey) == KeyOf(rows[j], uniqueKey) ==>
      rows[i].Keys == rows[j].Keys
  }

  lemma SharedSignatureIsEnough(rows: seq<Row>, uniqueKey: set<Column>)
    requires KeysShareSignature(rows, uniqueKey)
    ensures LastWritersLast(rows, uniqueKey)
  {
    SignaturesAreOrdered();
  }

  lemma OrderedGroups(rows: seq<Row>, sigs: seq<set<Column>>, groups: seq<seq<Row>>, g: nat, h: nat)
    requires GroupsOf(rows, sigs, groups) && g <= h < |groups|
    ensures |sigs| == |groups| && groups[h] == Select(rows, HasSignature(sigs[h]))
    ensures g < h ==> SigOrder(sigs[h], sigs[g]) == Greater
    ensures SigOrder(sigs[g], sigs[h]) != Greater
  {
    hide SigOrder;
    SignaturesAreOrdered();
    if g < h {
      assert SigOrder(sigs[g], sigs[h]) == Less;
      assert SigOrder(sigs[h], sigs[g]) == Flip(SigOrder(sigs[g], sigs[h]));
    }
  }

  /** What the n-th group adds to the rows selected from the groups before it. */
  lemma GroupAdds(rows: seq<Row>, sigs: seq<set<Column>>, groups: seq<seq<Row>>, p: Row -> bool, n: nat)
    requires GroupsOf(rows, sigs, groups) && |sigs| == |groups| && 0 < n <= |groups|
    ensures var here := Select(groups[n - 1], p);
            && Select(Flatten(groups[..n]), p) == Select(Flatten(groups[..n - 1]), p) + here
            && forall r :: r in here <==> r in rows && r.Keys == sigs[n - 1] && p(r)
  {
    assert groups[..n][..n - 1] == groups[..n - 1];
    SelectAppend(Flatten(groups[..n - 1]), groups[n - 1], p);
    SelectMembers(rows, HasSignature(sigs[n - 1]));
    SelectMembers(groups[n - 1], p);
  }

  /** The last row of the first `n` groups that satisfies `p` has at least the signature of any of them. */
  lemma {:induction false} LastGroupedSignature(rows: seq<Row>, sigs: seq<set<Column>>, groups: seq<seq<Row>>,
                                                p: Row -> bool, g: nat, i: nat, n: nat)
    requires GroupsOf(rows, sigs, groups) && |sigs| == |groups| && g < n <= |groups|
    requires i < |rows| && p(rows[i]) && rows[i].Keys == sigs[g]
    ensures var found := Select(Flatten(groups[..n]), p);
            && found != [] && found[|found| - 1] in rows && p(found[|found| - 1])
            && SigOrder(sigs[g], found[|found| - 1].Keys) != Greater
    decreases n
  {
    hide SigOrder, GroupsOf, Flatten, Select;
    OrderedGroups(rows, sigs, groups, g, n - 1);
    GroupAdds(rows, sigs, groups, p, n);
    var here := Select(groups[n - 1], p);
    if here != [] {
      assert here[|here| - 1] in here;
    } else {
      assert rows[i] !in here;
      LastGroupedSignature(rows, sigs, groups, p, g, i, n - 1);
    }
  }

  /** When the last row satisfying `p` has the greatest signature among them it is also last in the groups. */
  lemma {:induction false} LastStaysLast(rows: seq<Row>, sigs: seq<set<Column>>, groups: seq<seq<Row>>,
                                         p: Row -> bool, j: nat, g: nat, n: nat)
    requires GroupsOf(rows, sigs, groups) && |sigs| == |groups| && g < n <= |groups|
    requires j < |rows| && p(rows[j]) && rows[j].Keys == sigs[g] && forall l :: j < l < |rows| ==> !p(rows[l])
    requires forall i :: 0 <= i < |rows| && p(rows[i]) ==> SigOrder(rows[i].Keys, sigs[g]) != Greater
    ensures var found := Select(Flatten(groups[..n]), p); found != [] && found[|found| - 1] == rows[j]
    decreases n
  {
    hide SigOrder, GroupsOf;
    OrderedGroups(rows, sigs, groups, g, n - 1);
    assert groups[..n][..n - 1] == groups[..n - 1];
    SelectAppend(Flatten(groups[..n - 1]), groups[n - 1], p);
    if g == n - 1 {
      SelectTwice(rows, HasSignature(sigs[g]), p);
      SelectLast(rows, Both(HasSignature(sigs[g]), p), j);
    } else {
      LastStaysLast(rows, sigs, groups, p, j, g, n - 1);
      OtherGroup(rows, sigs[n - 1], p);
      assert Select(Flatten(groups[..n - 1]), p) + [] == Select(Flatten(groups[..n - 1]), p);
    }
  }

  lemma GroupIndex(rows: seq<Row>, sigs: seq<set<Column>>, groups: seq<seq<Row>>, i: nat) returns (g: nat)
    requires GroupsOf(rows, sigs, groups) && i < |rows|
    ensures g < |groups| == |sigs| && sigs[g] == rows[i].Keys
  {
    assert rows[i] in rows;
    g :| 0 <= g < |sigs| && sigs[g] == rows[i].Keys;
  }

  lemma {:induction false} FindLast(rows: seq<Row>, p: Row -> bool) returns (j: nat)
    requires exists i :: 0 <= i < |rows| && p(rows[i])
    ensures j < |rows| && p(rows[j]) && forall l :: j < l < |rows| ==> !p(rows[l])
  {
    if p(rows[|rows| - 1]) {
      j := |rows| - 1;
    } else {
      var i :| 0 <= i < |rows| && p(rows[i]);
      assert rows[..|rows| - 1][i] == rows[i];
      j := FindLast(rows[..|rows| - 1], p);
      assert forall l :: 0 <= l < |rows| - 1 ==> rows[..|rows| - 1][l] == rows[l];
    }
  }

  /** Grouping neither adds nor drops rows. */
  lemma GroupedMembers(rows: seq<Row>, sigs: seq<set<Column>>, groups: seq<seq<Row>>, p: Row -> bool)
    requires GroupsOf(rows, sigs, groups)
    ensures Select(Flatten(groups), p) == [] <==> Select(rows, p) == []
  {
    assert groups[..|groups|] == groups;
    if i :| 0 <= i < |rows| && p(rows[i]) {
      var g := GroupIndex(rows, sigs, groups, i);
      LastGroupedSignature(rows, sigs, groups, p, g, i, |groups|);
      SelectMembers(rows, p);
      assert rows[i] in Select(rows, p);
    } else {
      SelectNone(rows, p);
      NoneGrouped(rows, sigs, groups, p, |groups|);
    }
  }

  lemma {:induction false} NoneGrouped(rows: seq<Row>, sigs: seq<set<Column>>, groups: seq<seq<Row>>,
                                       p: Row -> bool, n: nat)
    requires GroupsOf(rows, sigs, groups) && n <= |groups| && forall i :: 0 <= i < |rows| ==> !p(rows[i])
    ensures Select(Flatten(groups[..n]), p) == []
  {
    if n > 0 {
      NoneGrouped(rows, sigs, groups, p, n - 1);
      assert groups[..n][..n - 1] == groups[..n - 1];
      SelectAppend(Flatten(groups[..n - 1]), groups[n - 1], p);
      OtherGroup(rows, sigs[n - 1], p);
    }
  }

  lemma WritersBelow(rows: seq<Row>, uniqueKey: set<Column>, j: nat, c: Column)
    requires LastWritersLast(rows, uniqueKey) && IsLastWriter(rows, uniqueKey, j, c)
    ensures forall l :: 0 <= l < |rows| && Writes(KeyOf(rows[j], uniqueKey), uniqueKey, c)(rows[l]) ==>
              SigOrder(rows[l].Keys, rows[j].Keys) != Greater
  {
    hide SigOrder;
    SignaturesAreOrdered();
    forall l | 0 <= l < |rows| && Writes(KeyOf(rows[j], uniqueKey), uniqueKey, c)(rows[l])
      ensures SigOrder(rows[l].Keys, rows[j].Keys) != Greater
    {
      assert l < j || l == j;
    }
  }

  /** The last writer of a column is the same grouped or in order. */
  lemma SameLastWriter(rows: seq<Row>, sigs: seq<set<Column>>, groups: seq<seq<Row>>, uniqueKey: set<Column>,
                       k: Row, c: Column)
    requires GroupsOf(rows, sigs, groups) && LastWritersLast(rows, uniqueKey) && c !in uniqueKey
    ensures var p := Writes(k, uniqueKey, c); LastCell(Select(Flatten(groups), p), c) == LastCell(Select(rows, p), c)
  {
    hide SigOrder, GroupsOf, LastWritersLast, Flatten;
    var p := Writes(k, uniqueKey, c);
    GroupedMembers(rows, sigs, groups, p);
    if exists i :: 0 <= i < |rows| && p(rows[i]) {
      var j := FindLast(rows, p);
      assert IsLastWriter(rows, uniqueKey, j, c);
      WritersBelow(rows, uniqueKey, j, c);
      var g := GroupIndex(rows, sigs, groups, j);
      SelectLast(rows, p, j);
      LastStaysLast(rows, sigs, groups, p, j, g, |groups|);
      assert groups[..|groups|] == groups;
    } else {
      SelectNone(rows, p);
    }
  }

  /** Grouped writes refine in-order writes when last writers come last. */
  lemma GroupedEqualsInOrder(t: Table, rows: seq<Row>, sigs: seq<set<Column>>, groups: seq<seq<Row>>,
                             uniqueKey: set<Column>)
    requires GroupsOf(rows, sigs, groups) && LastWritersLast(rows, uniqueKey)
    ensures UpsertAll(t, Flatten(groups), uniqueKey) == UpsertAll(t, rows, uniqueKey)
  {
    hide GroupsOf, LastWritersLast;
    var a, b := UpsertAll(t, Flatten(groups), uniqueKey), UpsertAll(t, rows, uniqueKey);
    forall k ensures Find(a, k) == Find(b, k) {
      GroupedMembers(rows, sigs, groups, HasKey(k, uniqueKey));
      KeysAreIndependent(t, Flatten(groups), uniqueKey, k);
      KeysAreIndependent(t, rows, uniqueKey, k);
      forall c ensures Cell(Find(a, k), c) == Cell(Find(b, k), c) {
        TableCell(t, Flatten(groups), uniqueKey, k, c);
        TableCell(t, rows, uniqueKey, k, c);
        GroupedMembers(rows, sigs, groups, Writes(k, uniqueKey, c));
        if c !in uniqueKey {
          SameLastWriter(rows, sigs, groups, uniqueKey, k, c);
        }
      }
      SameCells(Find(a, k), Find(b, k));
    }
    SameFinds(a, b);
  }

  lemma SameCells(a: Option<Row>, b: Option<Row>)
    requires (a.Some? <==> b.Some?) && forall c :: Cell(a, c) == Cell(b, c)
    ensures a == b
  {
    if a.Some? {
      forall c ensures (c in a.value <==> c in b.value) && (c in a.value ==> a.value[c] == b.value[c]) {
        assert Cell(a, c) == Cell(b, c);
      }
      assert a.value == b.value;
    }
  }

  lemma SameFinds(a: Table, b: Table)
    requires forall k :: Find(a, k) == Find(b, k)
    ensures a == b
  {
    forall k ensures k in a <==> k in b {
      assert Find(a, k) == Find(b, k);
    }
    forall k | k in a ensures a[k] == b[k] {
      assert Find(a, k) == Find(b, k);
    }
  }

  /** The same keys and columns, row by row, whatever the other values. */
  ghost predicate SameShape(rows: seq<Row>, other: seq<Row>, uniqueKey: set<Column>) {
    && |rows| == |other|
    && forall i :: 0 <= i < |rows| ==>
         rows[i].Keys == other[i].Keys && KeyOf(rows[i], uniqueKey) == KeyOf(other[i], uniqueKey)
  }

  /** Writing these rows by groups always gives the in-order table, whatever the values and the table. */
  ghost predicate GroupingIsHarmless(rows: seq<Row>, uniqueKey: set<Column>) {
    forall t, other, sigs, groups :: SameShape(rows, other, uniqueKey) && GroupsOf(other, sigs, groups) ==>
      UpsertAll(t, Flatten(groups), uniqueKey) == UpsertAll(t, other, uniqueKey)
  }

  lemma ShapeDecides(rows: seq<Row>, other: seq<Row>, uniqueKey: set<Column>)
    requires SameShape(rows, other, uniqueKey) && LastWritersLast(rows, uniqueKey)
    ensures LastWritersLast(other, uniqueKey)
  {
    hide SigOrder;
    forall i: nat, j: nat, c |
      IsLastWriter(other, uniqueKey, j, c) && i < j && Writes(KeyOf(other[j], uniqueKey), uniqueKey, c)(other[i])
      ensures SigOrder(other[i].Keys, other[j].Keys) != Greater
    {
      forall l | j < l < |rows| ensures !Writes(KeyOf(rows[j], uniqueKey), uniqueKey, c)(rows[l]) {
        assert !Writes(KeyOf(other[j], uniqueKey), uniqueKey, c)(other[l]);
      }
      assert IsLastWriter(rows, uniqueKey, j, c) && Writes(KeyOf(rows[j], uniqueKey), uniqueKey, c)(rows[i]);
    }
  }

  /** The rows with every column outside the key set to the row's number. */
  ghost function NumberedRows(rows: seq<Row>, uniqueKey: set<Column>): seq<Row> {
    seq(|rows|, i requires 0 <= i < |rows| => NumberedRow(rows[i], i, uniqueKey))
  }

  ghost function NumberedRow(row: Row, i: nat, uniqueKey: set<Column>): Row {
    map c | c in row :: if c in uniqueKey then row[c] else Number(i)
  }

  lemma NumberedShape(rows: seq<Row>, uniqueKey: set<Column>)
    ensures SameShape(rows, NumberedRows(rows, uniqueKey), uniqueKey)
  {
    forall i | 0 <= i < |rows|
      ensures NumberedRow(rows[i], i, uniqueKey).Keys == rows[i].Keys
      ensures KeyOf(NumberedRow(rows[i], i, uniqueKey), uniqueKey) == KeyOf(rows[i], uniqueKey)
    {
    }
  }

  /** The rows of one key that give column `c` a value all give it different ones. */
  ghost predicate DifferentValues(rows: seq<Row>, k: Row, uniqueKey: set<Column>, c: Column) {
    forall m, n :: 0 <= m < n < |rows| && Writes(k, uniqueKey, c)(rows[m]) && Writes(k, uniqueKey, c)(rows[n]) ==>
      rows[m][c] != rows[n][c]
  }

  /** A last writer overtaken by an earlier row of a later signature loses its column. */
  lemma OvertakenLosesColumn(rows: seq<Row>, sigs: seq<set<Column>>, groups: seq<seq<Row>>, uniqueKey: set<Column>,
                             i: nat, j: nat, c: Column)
    requires GroupsOf(rows, sigs, groups) && IsLastWriter(rows, uniqueKey, j, c) && i < j
    requires Writes(KeyOf(rows[j], uniqueKey), uniqueKey, c)(rows[i])
    requires SigOrder(rows[i].Keys, rows[j].Keys) == Greater
    requires DifferentValues(rows, KeyOf(rows[j], uniqueKey), uniqueKey, c)
    ensures UpsertAll(map[], Flatten(groups), uniqueKey) != UpsertAll(map[], rows, uniqueKey)
  {
    hide SigOrder, GroupsOf, UpsertAll, Flatten;
    var k := KeyOf(rows[j], uniqueKey);
    var p := Writes(k, uniqueKey, c);
    TableCell(map[], rows, uniqueKey, k, c);
    TableCell(map[], Flatten(groups), uniqueKey, k, c);
    SelectLast(rows, p, j);
    var m := OtherWinner(rows, sigs, groups, p, i, j);
    var found := Select(Flatten(groups), p);
    assert m < j && rows[m][c] != rows[j][c];
    assert LastCell(found, c) == Some(rows[m][c]) && LastCell(Select(rows, p), c) == Some(rows[j][c]);
  }

  /** Grouped, another row than `j` comes last. */
  lemma OtherWinner(rows: seq<Row>, sigs: seq<set<Column>>, groups: seq<seq<Row>>, p: Row -> bool, i: nat,
                    j: nat) returns (m: nat)
    requires GroupsOf(rows, sigs, groups) && i < j < |rows| && p(rows[i])
    requires SigOrder(rows[i].Keys, rows[j].Keys) == Greater
    ensures m < |rows| && m != j && p(rows[m])
    ensures var found := Select(Flatten(groups), p); found != [] && found[|found| - 1] == rows[m]
  {
    hide SigOrder;
    SignaturesAreOrdered();
    var g := GroupIndex(rows, sigs, groups, i);
    LastGroupedSignature(rows, sigs, groups, p, g, i, |groups|);
    assert groups[..|groups|] == groups;
    var found := Select(Flatten(groups), p);
    m :| 0 <= m < |rows| && rows[m] == found[|found| - 1];
  }

  ghost function Regrouped(rows: seq<Row>, sigs: seq<set<Column>>): seq<seq<Row>> {
    seq(|sigs|, i requires 0 <= i < |sigs| => Select(rows, HasSignature(sigs[i])))
  }

  lemma RegroupedIsGrouping(rows: seq<Row>, other: seq<Row>, uniqueKey: set<Column>, sigs: seq<set<Column>>,
                            groups: seq<seq<Row>>)
    requires GroupsOf(rows, sigs, groups) && SameShape(rows, other, uniqueKey)
    ensures GroupsOf(other, sigs, Regrouped(other, sigs))
  {
    hide Ascending;
    forall g | 0 <= g < |sigs| ensures Select(other, HasSignature(sigs[g])) != [] {
      SelectMembers(rows, HasSignature(sigs[g]));
      assert groups[g][0] in groups[g];
      var i :| 0 <= i < |rows| && rows[i] == groups[g][0];
      SelectMembers(other, HasSignature(sigs[g]));
      assert other[i].Keys == sigs[g];
      assert other[i] in Select(other, HasSignature(sigs[g]));
    }
    forall r | r in other ensures r.Keys in sigs {
      var i :| 0 <= i < |other| && other[i] == r;
      assert rows[i] in rows;
    }
  }

  /** Exactly when grouping is harmless: for all values and every table the grouped writes give the table
      of the in-order writes iff the last row of a key to write a column has the greatest signature among
      the rows of that key that write it. */
  lemma GroupingHarmlessIff(rows: seq<Row>, uniqueKey: set<Column>, sigs: seq<set<Column>>, groups: seq<seq<Row>>)
    requires GroupsOf(rows, sigs, groups)
    ensures GroupingIsHarmless(rows, uniqueKey) <==> LastWritersLast(rows, uniqueKey)
  {
    hide SigOrder, GroupsOf;
    if LastWritersLast(rows, uniqueKey) {
      forall t, other, sigs, groups | SameShape(rows, other, uniqueKey) && GroupsOf(other, sigs, groups)
        ensures UpsertAll(t, Flatten(groups), uniqueKey) == UpsertAll(t, other, uniqueKey)
      {
        ShapeDecides(rows, other, uniqueKey);
        GroupedEqualsInOrder(t, other, sigs, groups, uniqueKey);
      }
    } else {
      var i: nat, j: nat, c :|
        IsLastWriter(rows, uniqueKey, j, c) && i < j && Writes(KeyOf(rows[j], uniqueKey), uniqueKey, c)(rows[i])
        && SigOrder(rows[i].Keys, rows[j].Keys) == Greater;
      var other := NumberedRows(rows, uniqueKey);
      NumberedShape(rows, uniqueKey);
      RegroupedIsGrouping(rows, other, uniqueKey, sigs, groups);
      forall m | 0 <= m < |rows| && c in other[m] ensures other[m][c] == Number(m) {
      }
      forall l | j < l < |other| ensures !Writes(KeyOf(other[j], uniqueKey), uniqueKey, c)(other[l]) {
        assert !Writes(KeyOf(rows[j], uniqueKey), uniqueKey, c)(rows[l]);
      }
      OvertakenLosesColumn(other, sigs, Regrouped(other, sigs), uniqueKey, i, j, c);
    }
  }

  lemma TwoGroups(older: Row, newer: Row)
    requires SigOrder(newer.Keys, older.Keys) == Less
    ensures GroupsOf([older, newer], [newer.Keys, older.Keys], [[newer], [older]])
    ensures Flatten([[newer], [older]]) == [newer, older]
  {
    hide SigOrder;
    SignaturesAreOrdered();
    assert older.Keys != newer.Keys;
    SelectPair(older, newer, HasSignature(older.Keys));
    SelectPair(older, newer, HasSignature(newer.Keys));
    assert [[newer], [older]][..1] == [[newer]] && [[newer]][..0] == [];
    assert Flatten([[newer]]) == [newer];
  }

  /** Two rows of one key, the newer with the earlier signature: it is written first, and a column both
      have keeps the older value. */
  lemma OlderValueSurvives(older: Row, newer: Row, uniqueKey: set<Column>, c: Column)
    requires KeyOf(older, uniqueKey) == KeyOf(newer, uniqueKey) && SigOrder(newer.Keys, older.Keys) == Less
    requires c in older && c in newer && c !in uniqueKey && older[c] != newer[c]
    ensures GroupsOf([older, newer], [newer.Keys, older.Keys], [[newer], [older]])
    ensures var t := UpsertAll(map[], Flatten([[newer], [older]]), uniqueKey);
            && Cell(Find(t, KeyOf(older, uniqueKey)), c) == Some(older[c])
            && t != UpsertAll(map[], [older, newer], uniqueKey)
  {
    hide SigOrder, GroupsOf, Flatten, UpsertAll, Select;
    TwoGroups(older, newer);
    var k := KeyOf(older, uniqueKey);
    SelectPair(older, newer, Writes(k, uniqueKey, c));
    SelectPair(newer, older, Writes(k, uniqueKey, c));
    TableCell(map[], [newer, older], uniqueKey, k, c);
    TableCell(map[], [older, newer], uniqueKey, k, c);
  }

  /** A pair out of order does no harm when a still later row of the key writes the columns again. */
  lemma OvertakingCanBeHarmless(a: Row, b: Row, c: Row, uniqueKey: set<Column>)
    requires KeyOf(a, uniqueKey) == KeyOf(b, uniqueKey) == KeyOf(c, uniqueKey)
    requires a.Keys == c.Keys && SigOrder(a.Keys, b.Keys) == Greater
    ensures LastWritersLast([a, b, c], uniqueKey)
  {
    hide SigOrder;
    SignaturesAreOrdered();
    var rows := [a, b, c];
    forall i: nat, j: nat, d |
      IsLastWriter(rows, uniqueKey, j, d) && i < j && Writes(KeyOf(rows[j], uniqueKey), uniqueKey, d)(rows[i])
      ensures SigOrder(rows[i].Keys, rows[j].Keys) != Greater
    {
      assert rows[2] == c && Writes(KeyOf(rows[j], uniqueKey), uniqueKey, d)(rows[2]) == (d in c);
      if j != 1 {
        assert SigOrder(b.Keys, c.Keys) == Flip(SigOrder(c.Keys, b.Keys));
      }
    }
  }

  lemma SelectPair(a: Row, b: Row, p: Row -> bool)
    ensures Select([a, b], p) == (if p(a) then [a] else []) + (if p(b) then [b] else [])
  {
    assert [a, b] == [a] + [b] && [a] == [] + [a];
    SelectSnoc([], a, p);
    SelectSnoc([a], b, p);
  }

  // ---- replays ----

  /** What upserting the rows writes outside the unique key: of each column, the last value. */
  function Fold(rows: seq<Row>, uniqueKey: set<Column>): Row {
    if rows == [] then map[] else Fold(rows[..|rows| - 1], uniqueKey) + (rows[|rows| - 1] - uniqueKey)
  }

  lemma {:induction false} FoldAppend(a: seq<Row>, b: seq<Row>, uniqueKey: set<Column>)
    ensures Fold(a + b, uniqueKey) == Fold(a, uniqueKey) + Fold(b, uniqueKey)
    decreases |b|
  {
    if b == [] {
      assert a + b == a;
    } else {
      FoldAppend(a, b[..|b| - 1], uniqueKey);
      assert (a + b)[..|a + b| - 1] == a + b[..|b| - 1];
    }
  }

  lemma MergeAssociates(a: Row, b: Row, c: Row)
    ensures a + b + c == a + (b + c)
  {
  }

  /** The row of a key is what it started as, with the fold of its rows over it. */
  lemma {:induction false} UpsertsAreFold(existing: Option<Row>, rows: seq<Row>, uniqueKey: set<Column>)
    requires existing.Some? || rows != []
    ensures UpsertRows(existing, rows, uniqueKey) ==
            Some((if existing.Some? then existing.value else rows[0]) + Fold(rows, uniqueKey))
    decreases |rows|
  {
    if rows == [] {
      assert existing.value + map[] == existing.value;
    } else {
      var init, last := rows[..|rows| - 1], rows[|rows| - 1];
      if existing.None? && init == [] {
        assert UpsertRows(existing, init, uniqueKey) == None;
        assert last + (map[] + (last - uniqueKey)) == last;
      } else {
        UpsertsAreFold(existing, init, uniqueKey);
        var base := if existing.Some? then existing.value else rows[0];
        MergeAssociates(base, Fold(init, uniqueKey), last - uniqueKey);
      }
    }
  }

  /** Running the tail of one key's rows again changes nothing. */
  lemma UpsertTailAgain(existing: Option<Row>, head: seq<Row>, tail: seq<Row>, uniqueKey: set<Column>)
    ensures UpsertRows(UpsertRows(existing, head + tail, uniqueKey), tail, uniqueKey) ==
            UpsertRows(existing, head + tail, uniqueKey)
  {
    if tail != [] {
      hide UpsertRows, Fold;
      var once := UpsertRows(existing, head + tail, uniqueKey);
      UpsertsAreFold(existing, head + tail, uniqueKey);
      FoldAppend(head, tail, uniqueKey);
      UpsertsAreFold(once, tail, uniqueKey);
      var base := if existing.Some? then existing.value else (head + tail)[0];
      MergeAgain(base, Fold(head, uniqueKey), Fold(tail, uniqueKey));
    } else {
      assert UpsertRows(UpsertRows(existing, head + tail, uniqueKey), [], uniqueKey) ==
        UpsertRows(existing, head + tail, uniqueKey);
    }
  }

  lemma MergeAgain(base: Row, a: Row, b: Row)
    ensures base + (a + b) + b == base + (a + b)
  {
  }

  lemma ReplayOneKey(t: Table, rows: seq<Row>, n: nat, uniqueKey: set<Column>, k: Row)
    requires n <= |rows|
    ensures Find(UpsertAll(UpsertAll(t, rows, uniqueKey), rows[n..], uniqueKey), k) ==
            Find(UpsertAll(t, rows, uniqueKey), k)
  {
    var p := HasKey(k, uniqueKey);
    KeysAreIndependent(t, rows, uniqueKey, k);
    KeysAreIndependent(UpsertAll(t, rows, uniqueKey), rows[n..], uniqueKey, k);
    assert rows == rows[..n] + rows[n..];
    SelectAppend(rows[..n], rows[n..], p);
    UpsertTailAgain(Find(t, k), Select(rows[..n], p), Select(rows[n..], p), uniqueKey);
  }

  /** Replaying any suffix of already-written rows changes nothing. */
  lemma ReplayIsIdempotent(t: Table, rows: seq<Row>, n: nat, uniqueKey: set<Column>)
    requires n <= |rows|
    ensures UpsertAll(UpsertAll(t, rows, uniqueKey), rows[n..], uniqueKey) == UpsertAll(t, rows, uniqueKey)
  {
    var once := UpsertAll(t, rows, uniqueKey);
    var twice := UpsertAll(once, rows[n..], uniqueKey);
    forall k ensures Find(twice, k) == Find(once, k) {
      ReplayOneKey(t, rows, n, uniqueKey, k);
    }
    SameFinds(twice, once);
  }
}

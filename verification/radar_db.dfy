/** The two database readers of client-radar/src-tauri/src/lib.rs:
    `read_moments_from_db` and `read_contacts_from_db`, from the rows their
    queries return to the vectors they hand to the front end. */
module RadarDb {
  import opened Results
  import opened Decimal
  import opened SnsSchema

  type Byte = b: int | 0 <= b < 256
  type Int64 = i: int | -0x8000_0000_0000_0000 <= i < 0x8000_0000_0000_0000

  /** An SQLite value as rusqlite hands it over. */
  datatype SqlValue =
    | SqlNull
    | SqlInteger(i: Int64)
    | SqlReal(bits: bv64)
    | SqlText(s: string)
    | SqlBlob(bytes: seq<Byte>)

  /** `String` conversion: only a TEXT value converts. */
  function AsString(v: SqlValue): (r: Option<string>)
    ensures r.Some? <==> v.SqlText?
    ensures r.Some? ==> r.value == v.s
  {
    if v.SqlText? then Some(v.s) else None
  }

  /** `filter_map(Result::ok)` over a column read as `String`: the values
      that do not convert are dropped, the rest keep their order. */
  function Texts(vs: seq<SqlValue>): (r: seq<string>)
    ensures |r| <= |vs|
    ensures forall s :: s in r <==> SqlText(s) in vs
    decreases |vs|
  {
    if |vs| == 0 then []
    else
      var rest := Texts(vs[1..]);
      assert forall v :: v in vs <==> v == vs[0] || v in vs[1..];
      if vs[0].SqlText? then [vs[0].s] + rest else rest
  }

  /** `Texts` works value by value, so it keeps the order of the listing. */
  lemma {:induction false} TextsAppend(a: seq<SqlValue>, b: seq<SqlValue>)
    ensures Texts(a + b) == Texts(a) + Texts(b)
    decreases |a|
  {
    if |a| == 0 {
      assert a + b == b;
    } else {
      assert (a + b)[0] == a[0];
      assert (a + b)[1..] == a[1..] + b;
      TextsAppend(a[1..], b);
    }
  }

  /** A single value yields its text when it is TEXT and nothing otherwise. */
  lemma TextsSingle(v: SqlValue)
    ensures v.SqlText? ==> Texts([v]) == [v.s]
    ensures !v.SqlText? ==> Texts([v]) == []
  {
    assert [v][1..] == [];
  }

  /** `Vec<u8>` conversion with `unwrap_or_default`: a BLOB gives its bytes,
      anything else the empty vector. */
  function BlobBytes(v: SqlValue): (r: seq<Byte>)
    ensures v.SqlBlob? ==> r == v.bytes
    ensures !v.SqlBlob? ==> r == []
  {
    if v.SqlBlob? then v.bytes else []
  }

  /** The `sns_id`: an INTEGER in decimal, TEXT as it is, anything else `"0"`. */
  function IdString(v: SqlValue): (r: string)
    ensures v.SqlInteger? ==> Canonical(r) && ParseDecimal(r) == Some(v.i as int)
    ensures v.SqlText? ==> r == v.s
    ensures !v.SqlInteger? && !v.SqlText? ==> r == "0"
  {
    match v
    case SqlInteger(i) => Decimal.DecimalRoundTrip(i); Decimal.Decimal(i)
    case SqlText(s) => s
    case _ => "0"
  }

  const TwoTo32 := 0x1_0000_0000

  /** The `create_time`: `i as u32` keeps the low 32 bits of an INTEGER
      (two's complement), anything else is 0. */
  function TimeU32(v: SqlValue): (r: nat)
    ensures r < TwoTo32
    ensures v.SqlInteger? ==> (v.i as int - r) % TwoTo32 == 0
    ensures !v.SqlInteger? ==> r == 0
  {
    if v.SqlInteger? then v.i as int % TwoTo32 else 0
  }

  /** Times that already fit in a `u32` pass unchanged. */
  lemma TimeInRangeUnchanged(i: Int64)
    requires 0 <= i < TwoTo32
    ensures TimeU32(SqlInteger(i)) == i as nat
  {
  }

  /** A negative time wraps around: -1 becomes 4294967295. */
  lemma NegativeTimeWraps()
    ensures TimeU32(SqlInteger(-1)) == TwoTo32 - 1
  {
  }

  /** The three selected values of one result row. */
  datatype SqlRow = SqlRow(id: SqlValue, time: SqlValue, content: SqlValue)

  /** `SnsRawItem`; `createTime` stays below 2^32. */
  datatype SnsRawItem = SnsRawItem(snsId: string, createTime: nat, content: string)

  /** `String::from_utf8_lossy`, a parameter of the model. */
  type Lossy = seq<Byte> -> string

  /** The row mapper of the moments query. */
  function ToRawItem(row: SqlRow, lossy: Lossy): (r: SnsRawItem)
    ensures row.id.SqlInteger? ==> Canonical(r.snsId) && ParseDecimal(r.snsId) == Some(row.id.i as int)
    ensures row.id.SqlText? ==> r.snsId == row.id.s
    ensures !row.id.SqlInteger? && !row.id.SqlText? ==> r.snsId == "0"
    ensures r.createTime < TwoTo32
    ensures row.time.SqlInteger? ==> (row.time.i as int - r.createTime) % TwoTo32 == 0
    ensures !row.time.SqlInteger? ==> r.createTime == 0
    ensures row.content.SqlBlob? ==> r.content == lossy(row.content.bytes)
    ensures !row.content.SqlBlob? ==> r.content == lossy([])
  {
    SnsRawItem(IdString(row.id), TimeU32(row.time), lossy(BlobBytes(row.content)))
  }

  /** The collection loop: a row the iterator yields as an error (`None`
      here) is dropped, every other row is kept in order without filtering. */
  function KeepRows(rows: seq<Option<SqlRow>>, lossy: Lossy): (r: seq<SnsRawItem>)
    ensures |r| <= |rows|
    ensures forall x :: x in r ==> x.createTime < TwoTo32
    ensures |r| == 0 <==> forall i :: 0 <= i < |rows| ==> rows[i].None?
    decreases |rows|
  {
    if |rows| == 0 then []
    else
      var rest := KeepRows(rows[1..], lossy);
      if rows[0].Some? then [ToRawItem(rows[0].value, lossy)] + rest else rest
  }

  lemma {:induction false} KeepRowsAppend(a: seq<Option<SqlRow>>, b: seq<Option<SqlRow>>, lossy: Lossy)
    ensures KeepRows(a + b, lossy) == KeepRows(a, lossy) + KeepRows(b, lossy)
    decreases |a|
  {
    if |a| == 0 {
      assert a + b == b;
    } else {
      assert (a + b)[0] == a[0];
      assert (a + b)[1..] == a[1..] + b;
      KeepRowsAppend(a[1..], b, lossy);
    }
  }

  /** Each row contributes in its place: its item when it was read, nothing
      when the iterator yielded an error. */
  lemma {:induction false} RowInPlace(a: seq<Option<SqlRow>>, x: Option<SqlRow>, b: seq<Option<SqlRow>>, lossy: Lossy)
    ensures x.Some? ==> KeepRows(a + [x] + b, lossy) == KeepRows(a, lossy) + [ToRawItem(x.value, lossy)] + KeepRows(b, lossy)
    ensures x.None? ==> KeepRows(a + [x] + b, lossy) == KeepRows(a, lossy) + KeepRows(b, lossy)
  {
    KeepRowsAppend(a + [x], b, lossy);
    KeepRowsAppend(a, [x], lossy);
    assert [x][1..] == [];
    assert KeepRows([x], lossy) == (if x.Some? then [ToRawItem(x.value, lossy)] else []) + KeepRows([], lossy);
  }

  /** Number of rows the iterator yielded successfully. */
  function SomeCount<T>(xs: seq<Option<T>>): nat
    decreases |xs|
  {
    if |xs| == 0 then 0 else (if xs[0].Some? then 1 else 0) + SomeCount(xs[1..])
  }

  /** No successful row is lost and none is invented. */
  lemma {:induction false} KeepRowsCount(rows: seq<Option<SqlRow>>, lossy: Lossy)
    ensures |KeepRows(rows, lossy)| == SomeCount(rows)
    decreases |rows|
  {
    if |rows| > 0 {
      KeepRowsCount(rows[1..], lossy);
    }
  }

  /** What the database answers, seen through the driver. `None` stands for
      an error on the way (opening the file, a prepare or a query). */
  datatype SnsDb = SnsDb(
    tableNames: Option<seq<SqlValue>>,                       // `SELECT name FROM sqlite_master WHERE type='table'`
    columnsOf: string -> Option<seq<SqlValue>>,              // `PRAGMA table_info(..)`, column 1
    select: FeedQuery -> Option<seq<Option<SqlRow>>>)        // the final `SELECT`, one entry per row

  /** What the reader settles on before its final query: the columns it
      listed and the query it built from them. */
  datatype ReadPlan = ReadPlan(columns: seq<string>, query: FeedQuery)

  /** The table step succeeded: the listing arrived, the tiers chose a table
      from it, and that table's column listing arrived too. */
  predicate TableStepOk(db: SnsDb) {
    && db.tableNames.Some?
    && SelectFeedTable(Texts(db.tableNames.value)).Ok?
    && db.columnsOf(SelectFeedTable(Texts(db.tableNames.value)).value).Some?
  }

  /** The table the tiers chose. */
  function FeedTable(db: SnsDb): string
    requires TableStepOk(db)
  {
    SelectFeedTable(Texts(db.tableNames.value)).value
  }

  /** The column names of the chosen table, in listing order. */
  function FeedColumns(db: SnsDb): seq<string>
    requires TableStepOk(db)
  {
    Texts(db.columnsOf(FeedTable(db)).value)
  }

  /** `table` is the table the reader chose and listed. */
  predicate ChoseTable(db: SnsDb, table: string) {
    TableStepOk(db) && table == FeedTable(db)
  }

  /** Steps 1 to 3 of `read_moments_from_db`: list the tables, choose one,
      list its columns and match them. */
  function PlanRead(db: SnsDb): (r: Result<ReadPlan, MomentsError>)
    ensures db.tableNames.None? ==> r == Err(DbFailed)
    ensures db.tableNames.Some? && SelectFeedTable(Texts(db.tableNames.value)).Err? ==>
      r == Err(NoFeedTable(Texts(db.tableNames.value)))
    ensures r.Err? && r.error.NoFeedTable? ==>
      db.tableNames.Some? && SelectFeedTable(Texts(db.tableNames.value)).Err?
    ensures db.tableNames.Some? && SelectFeedTable(Texts(db.tableNames.value)).Ok? && !TableStepOk(db) ==>
      r == Err(DbFailed)
    ensures r.Err? && r.error.NoContentColumn? ==>
      ChoseTable(db, r.error.table) && r.error.columns == FeedColumns(db)
    ensures r.Ok? ==>
      ChoseTable(db, r.value.query.table) && r.value.columns == FeedColumns(db)
      && PlanQuery(r.value.query.table, r.value.columns) == Ok(r.value.query)
    ensures TableStepOk(db) ==> (r.Ok? <==> PlanQuery(FeedTable(db), FeedColumns(db)).Ok?)
    ensures TableStepOk(db) && r.Err? ==> r.error == NoContentColumn(FeedTable(db), FeedColumns(db))
  {
    if db.tableNames.None? then Err(DbFailed)
    else
      var table :- SelectFeedTable(Texts(db.tableNames.value));
      var rawCols := db.columnsOf(table);
      if rawCols.None? then Err(DbFailed)
      else
        var cols := Texts(rawCols.value);
        var q :- PlanQuery(table, cols);
        Ok(ReadPlan(cols, q))
  }

  /** Steps 4 and 5 of `read_moments_from_db`: run the planned query (`None`
      when it fails), keep the rows read without error, and report an empty
      result together with the table, the content column and all columns. */
  function RunQuery(plan: ReadPlan, rows: Option<seq<Option<SqlRow>>>, lossy: Lossy): (r: Result<seq<SnsRawItem>, MomentsError>)
    ensures rows.None? ==> r == Err(DbFailed)
    ensures r.Ok? ==> rows.Some? && |r.value| > 0 && r.value == KeepRows(rows.value, lossy)
    ensures rows.Some? ==> (r.Err? <==> forall i :: 0 <= i < |rows.value| ==> rows.value[i].None?)
    ensures rows.Some? && r.Err? ==> r.error == EmptyResult(plan.query.table, plan.query.contentColumn, plan.columns)
  {
    if rows.None? then Err(DbFailed)
    else
      var moments := KeepRows(rows.value, lossy);
      if |moments| == 0 then Err(EmptyResult(plan.query.table, plan.query.contentColumn, plan.columns)) else Ok(moments)
  }

  /** `read_moments_from_db`: the plan, then the query it describes. */
  function ReadMoments(db: SnsDb, lossy: Lossy): (r: Result<seq<SnsRawItem>, MomentsError>)
    ensures r.Ok? ==> |r.value| > 0
    ensures PlanRead(db).Err? ==> r.Err? && r.error == PlanRead(db).error
    ensures PlanRead(db).Ok? ==> r == RunQuery(PlanRead(db).value, db.select(PlanRead(db).value.query), lossy)
    ensures r.Ok? ==> PlanRead(db).Ok? && r == RunQuery(PlanRead(db).value, db.select(PlanRead(db).value.query), lossy)
  {
    var plan :- PlanRead(db);
    RunQuery(plan, db.select(plan.query), lossy)
  }

  /** Once the plan succeeds and the query runs, the reader returns one item
      per row read without error, or reports the empty result when there is none. */
  lemma ReadMomentsCount(db: SnsDb, lossy: Lossy)
    ensures PlanRead(db).Ok? && db.select(PlanRead(db).value.query).Some? ==>
      var rows := db.select(PlanRead(db).value.query).value;
      && (ReadMoments(db, lossy).Ok? <==> SomeCount(rows) > 0)
      && (ReadMoments(db, lossy).Ok? ==> |ReadMoments(db, lossy).value| == SomeCount(rows))
  {
    if PlanRead(db).Ok? && db.select(PlanRead(db).value.query).Some? {
      KeepRowsCount(db.select(PlanRead(db).value.query).value, lossy);
    }
  }

  /** The three selected values of one `Contact` row. */
  datatype ContactRow = ContactRow(username: SqlValue, remark: SqlValue, nickname: SqlValue)

  datatype ContactItem = ContactItem(username: string, remark: string, nickname: string)

  /** The row mapper: `username` must convert (`?`), `remark` and `nickname`
      fall back to the empty string. */
  function ToContact(row: ContactRow): (r: Option<ContactItem>)
    ensures r.Some? <==> row.username.SqlText?
    ensures r.Some? ==> r.value.username == row.username.s
    ensures r.Some? ==> r.value.remark == AsString(row.remark).GetOr("") && r.value.nickname == AsString(row.nickname).GetOr("")
  {
    match AsString(row.username)
    case None => None
    case Some(u) => Some(ContactItem(u, AsString(row.remark).GetOr(""), AsString(row.nickname).GetOr("")))
  }

  /** Whether the loop keeps a row: it was read, mapped, and has a non-empty user name. */
  predicate KeptContact(row: Option<ContactRow>) {
    row.Some? && ToContact(row.value).Some? && ToContact(row.value).value.username != ""
  }

  /** The loop over the mapped rows of `read_contacts_from_db`. */
  function KeepContacts(rows: seq<Option<ContactRow>>): (r: seq<ContactItem>)
    ensures |r| <= |rows|
    ensures forall c :: c in r ==> c.username != ""
    ensures forall c :: c in r <==> exists i :: 0 <= i < |rows| && KeptContact(rows[i]) && ToContact(rows[i].value).value == c
    decreases |rows|
  {
    if |rows| == 0 then []
    else
      var rest := KeepContacts(rows[1..]);
      assert forall i :: 1 <= i < |rows| ==> rows[i] == rows[1..][i - 1];
      if KeptContact(rows[0]) then [ToContact(rows[0].value).value] + rest else rest
  }

  lemma {:induction false} KeepContactsAppend(a: seq<Option<ContactRow>>, b: seq<Option<ContactRow>>)
    ensures KeepContacts(a + b) == KeepContacts(a) + KeepContacts(b)
    decreases |a|
  {
    if |a| == 0 {
      assert a + b == b;
    } else {
      assert (a + b)[0] == a[0];
      assert (a + b)[1..] == a[1..] + b;
      KeepContactsAppend(a[1..], b);
    }
  }

  /** `read_contacts_from_db` from the query on; `None` is a failed open,
      prepare or query. */
  function ReadContacts(query: Option<seq<Option<ContactRow>>>): (r: Result<seq<ContactItem>, MomentsError>)
    ensures r.Err? <==> query.None?
    ensures r.Ok? ==> r.value == KeepContacts(query.value)
  {
    if query.None? then Err(DbFailed) else Ok(KeepContacts(query.value))
  }

  /** A NULL remark or nickname does not lose the contact. */
  lemma NullNamesKept(u: string)
    requires u != ""
    ensures KeepContacts([Some(ContactRow(SqlText(u), SqlNull, SqlNull))]) == [ContactItem(u, "", "")]
  {
    assert [Some(ContactRow(SqlText(u), SqlNull, SqlNull))][1..] == [];
  }
}

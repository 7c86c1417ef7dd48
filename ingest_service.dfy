/**
 * The ingestion benchmark service (`IngestService` of nest-ingest).
 *
 * The four connection pools are one `Database` object: an append-only log of
 * the writes it accepted, one entry per statement or bulk load, each tagged
 * with its engine. Which writes the database rejects is fixed in advance by
 * the set of attempt numbers `rejects`. The prom-client metrics are maps from
 * label tuples to values. `Promise.all` over the partitions becomes a loop
 * that runs the partitions one after another and stops at the first failure.
 */
module IngestService {
  import opened Wrappers
  import opened Arith
  import opened JsText

  datatype Engine = Postgres | MySql | MariaDb | MsSql

  /** The engine a `db` name selects in the service's switch statements; `None` for any other name. */
  function EngineOf(db: string): (e: Option<Engine>)
    ensures e.Some? <==> db in {"postgres", "mysql", "mariadb", "mssql"}
  {
    if db == "postgres" then Some(Postgres)
    else if db == "mysql" then Some(MySql)
    else if db == "mariadb" then Some(MariaDb)
    else if db == "mssql" then Some(MsSql)
    else None
  }

  /** The statement each engine's single-row path sends, with the payload as its one parameter. */
  function RowInsertSql(e: Engine): string {
    match e
    case Postgres => "INSERT INTO ingest(payload) VALUES($1)"
    case MySql => "INSERT INTO ingest(payload) VALUES(?)"
    case MariaDb => "INSERT INTO ingest(payload) VALUES(?)"
    case MsSql => "INSERT INTO ingest(payload) VALUES(@payload)"
  }

  /** Postgres bulk statement: its one parameter is a text array, unnested into rows. */
  const UnnestSql: string := "INSERT INTO ingest(payload) SELECT unnest($1::text[])"

  /** MySQL / MariaDB bulk statement, before its `(?),(?),...` list. */
  const ValuesSqlPrefix: string := "INSERT INTO ingest(payload) VALUES "

  /** SQL Server bulk load target (one `nvarchar(4000)` column, `payload`). */
  const BulkTable: string := "ingest"

  /** One write the service sends to a pool. */
  datatype Write =
    | RowInsert(engine: Engine, sql: string, payload: string)
    | ArrayInsert(sql: string, values: seq<string>)
    | ValuesInsert(engine: Engine, sql: string, params: seq<string>)
    | BulkInsert(table: string, rows: seq<string>)
  {
    function Target(): Engine {
      match this
      case RowInsert(e, _, _) => e
      case ArrayInsert(_, _) => Postgres
      case ValuesInsert(e, _, _) => e
      case BulkInsert(_, _) => MsSql
    }

    /** The payload of every row the write inserts. */
    function Payloads(): seq<string> {
      match this
      case RowInsert(_, _, p) => [p]
      case ArrayInsert(_, vs) => vs
      case ValuesInsert(_, _, ps) => ps
      case BulkInsert(_, rs) => rs
    }

    function RowCount(): nat {
      |Payloads()|
    }
  }

  /** The total number of rows a sequence of writes inserts. */
  function TotalRows(ws: seq<Write>): nat {
    if ws == [] then 0 else TotalRows(ws[..|ws| - 1]) + ws[|ws| - 1].RowCount()
  }

  lemma {:induction false} TotalRowsAppend(a: seq<Write>, b: seq<Write>)
    ensures TotalRows(a + b) == TotalRows(a) + TotalRows(b)
  {
    if b != [] {
      assert (a + b)[..|a + b| - 1] == a + b[..|b| - 1];
      TotalRowsAppend(a, b[..|b| - 1]);
    } else {
      assert a + b == a;
    }
  }

  // ---------------------------------------------------------------------------
  // The database: a log of accepted writes and a fixed set of failing attempts
  // ---------------------------------------------------------------------------

  /** The error a rejected write raises; it names the attempt that failed. */
  datatype WriteError = WriteError(attempt: nat)

  datatype DbState = DbState(log: seq<Write>, attempts: nat)

  /**
   * Sending `plan` one write at a time, stopping at the first rejected one.
   * A rejected write counts as an attempt but is not logged.
   */
  function Run(rejects: set<nat>, plan: seq<Write>, s: DbState): (r: (DbState, Option<WriteError>))
    decreases |plan|
  {
    if plan == [] then (s, None)
    else if s.attempts in rejects then (DbState(s.log, s.attempts + 1), Some(WriteError(s.attempts)))
    else Run(rejects, plan[1..], DbState(s.log + [plan[0]], s.attempts + 1))
  }

  /** Running `a + b` is running `a`, then, unless `a` failed, running `b`. */
  lemma {:induction false} RunAppend(rejects: set<nat>, a: seq<Write>, b: seq<Write>, s: DbState)
    ensures Run(rejects, a + b, s) ==
      var (s1, e1) := Run(rejects, a, s);
      if e1.Some? then (s1, e1) else Run(rejects, b, s1)
    decreases |a|
  {
    if a == [] {
      assert a + b == b;
    } else if s.attempts !in rejects {
      assert (a + b)[1..] == a[1..] + b;
      RunAppend(rejects, a[1..], b, DbState(s.log + [a[0]], s.attempts + 1));
    }
  }

  /**
   * What a run leaves behind: the log gains the first `k` writes of the plan,
   * exactly the attempts before the first rejected one; the run succeeds
   * exactly when no attempt of the plan is rejected, and otherwise fails with
   * the error of the first rejected attempt.
   */
  lemma {:induction false} RunPrefix(rejects: set<nat>, plan: seq<Write>, s: DbState) returns (k: nat)
    ensures k <= |plan|
    ensures Run(rejects, plan, s).0.log == s.log + plan[..k]
    ensures forall j :: s.attempts <= j < s.attempts + k ==> j !in rejects
    ensures Run(rejects, plan, s).1.None? <==> k == |plan|
    ensures Run(rejects, plan, s).1.Some? ==>
      && s.attempts + k in rejects
      && Run(rejects, plan, s).1 == Some(WriteError(s.attempts + k))
      && Run(rejects, plan, s).0.attempts == s.attempts + k + 1
    ensures Run(rejects, plan, s).1.None? ==> Run(rejects, plan, s).0.attempts == s.attempts + |plan|
    decreases |plan|
  {
    if plan == [] {
      k := 0;
    } else if s.attempts in rejects {
      k := 0;
    } else {
      var s1 := DbState(s.log + [plan[0]], s.attempts + 1);
      var k1 := RunPrefix(rejects, plan[1..], s1);
      k := k1 + 1;
      assert s.log + plan[..k] == s1.log + plan[1..][..k1];
    }
  }

  /** The four pools, seen through the writes they accepted. */
  class Database {
    var log: seq<Write>
    var attempts: nat
    const rejects: set<nat>

    constructor (rejects: set<nat>)
      ensures log == [] && attempts == 0 && this.rejects == rejects
    {
      log := [];
      attempts := 0;
      this.rejects := rejects;
    }

    function State(): DbState
      reads this
    {
      DbState(log, attempts)
    }

    /** Send one write: it is logged unless its attempt number is one the database rejects. */
    method Submit(w: Write) returns (err: Option<WriteError>)
      modifies this
      ensures (State(), err) == Run(rejects, [w], old(State()))
    {
      if attempts in rejects {
        err := Some(WriteError(attempts));
      } else {
        err := None;
        log := log + [w];
      }
      attempts := attempts + 1;
    }
  }

  // ---------------------------------------------------------------------------
  // The planned writes
  // ---------------------------------------------------------------------------

  /** One partition on the single-row path: one insert per row, none when `db` names no engine. */
  function SingleRowWrites(db: string, payload: string, rows: int): (ws: seq<Write>)
    ensures EngineOf(db).None? ==> ws == []
    ensures EngineOf(db).Some? ==>
      && |ws| == (if rows < 0 then 0 else rows)
      && forall i :: 0 <= i < |ws| ==> ws[i].Target() == EngineOf(db).value && ws[i].Payloads() == [payload]
  {
    match EngineOf(db)
    case None => []
    case Some(e) => Fill(if rows < 0 then 0 else rows, RowInsert(e, RowInsertSql(e), payload))
  }

  /** `Math.ceil(rows / batchSize)` for a partition of at least one row; no chunk for a negative size. */
  function ChunkCount(rows: int, batchSize: int): (n: nat)
    requires rows > 0 && batchSize != 0
    ensures batchSize > 0 ==> n == CeilDiv(rows, batchSize)
    ensures batchSize < 0 ==> n == 0
  {
    if batchSize > 0 then (CeilDivNonNegative(rows, batchSize); CeilDiv(rows, batchSize)) else 0
  }

  /** The bulk write each engine issues for a chunk of `batchRows` rows. */
  function ChunkWrite(e: Engine, payload: string, batchRows: nat): Write {
    match e
    case Postgres => ArrayInsert(UnnestSql, Fill(batchRows, payload))
    case MySql => ValuesInsert(e, ValuesSqlPrefix + Join(Fill(batchRows, "(?)"), ","), Fill(batchRows, payload))
    case MariaDb => ValuesInsert(e, ValuesSqlPrefix + Join(Fill(batchRows, "(?)"), ","), Fill(batchRows, payload))
    case MsSql => BulkInsert(BulkTable, Fill(batchRows, payload))
  }

  /** The writes for the first `k` chunks of a partition of `rows` rows on the batch path. */
  function ChunkWrites(db: string, payload: string, rows: int, batchSize: int, k: nat): (ws: seq<Write>)
    requires rows > 0 && batchSize != 0 && k <= ChunkCount(rows, batchSize)
    ensures EngineOf(db).Some? ==> |ws| == k
    ensures EngineOf(db).None? ==> ws == []
  {
    if k == 0 then [] else ChunkWrites(db, payload, rows, batchSize, k - 1) + Chunk(db, payload, rows, batchSize, k - 1)
  }

  /** What iteration `j` of the chunk loop sends: the write for slice `j`, nothing for an unknown `db`. */
  function Chunk(db: string, payload: string, rows: int, batchSize: int, j: nat): seq<Write>
    requires rows > 0 && batchSize != 0 && j < ChunkCount(rows, batchSize)
  {
    match EngineOf(db)
    case None => []
    case Some(e) =>
      SliceNonEmpty(rows, batchSize, j);
      [ChunkWrite(e, payload, Slice(rows, batchSize, j).Size())]
  }

  /** One partition on the batch path: one bulk write per chunk of at most `batchSize` rows. */
  function BatchRowWrites(db: string, payload: string, rows: int, batchSize: int): (ws: seq<Write>)
    requires rows > 0 && batchSize != 0
    ensures EngineOf(db).None? || batchSize < 0 ==> ws == []
  {
    ChunkWrites(db, payload, rows, batchSize, ChunkCount(rows, batchSize))
  }

  // ---------------------------------------------------------------------------
  // The work partitioner
  // ---------------------------------------------------------------------------

  /** `Math.ceil(rows / concurrency)`. */
  function RowsPerTask(rows: int, concurrency: int): int
    requires concurrency >= 1
  {
    CeilDiv(rows, concurrency)
  }

  /** The ranges dispatched by the first `n` workers: worker `i` owns slice `i`, and is dispatched only when it is non-empty. */
  function Dispatched(rows: int, rowsPerTask: int, n: nat): (d: seq<Span>)
    ensures |d| <= n
  {
    if n == 0 then [] else Dispatched(rows, rowsPerTask, n - 1) + Task(rows, rowsPerTask, n - 1)
  }

  /** What worker `i` pushes: its slice when that holds a row, nothing otherwise. */
  function Task(rows: int, rowsPerTask: int, i: int): seq<Span> {
    if Slice(rows, rowsPerTask, i).Size() > 0 then [Slice(rows, rowsPerTask, i)] else []
  }

  /** The ranges both partitioning loops dispatch; none when `concurrency < 1`, as the loop never runs. */
  function Partitions(rows: int, concurrency: int): (parts: seq<Span>)
    ensures concurrency < 1 ==> parts == []
    ensures |parts| <= if concurrency < 1 then 0 else concurrency
  {
    if concurrency < 1 then [] else Dispatched(rows, RowsPerTask(rows, concurrency), concurrency)
  }

  /** How many partitions are dispatched: `ceil(rows / ceil(rows / concurrency))`, none for no rows. */
  function PartitionCount(rows: nat, concurrency: int): (n: nat)
    requires concurrency >= 1
    ensures n <= concurrency
    ensures n == 0 <==> rows == 0
  {
    if rows == 0 then 0
    else
      var rpt := RowsPerTask(rows, concurrency);
      CeilDivNonNegative(rows, concurrency);
      CeilDivNonNegative(rows, rpt);
      assert rows <= concurrency * rpt;
      CeilDivAtMost(rows, rpt, concurrency);
      CeilDiv(rows, rpt)
  }

  /** With a positive width, worker `n` is dispatched exactly while `n` is below the slice count. */
  lemma {:induction false} DispatchedSlices(rows: int, rowsPerTask: int, n: nat)
    requires rowsPerTask > 0 && rows >= 0
    ensures CeilDiv(rows, rowsPerTask) >= 0
    ensures Dispatched(rows, rowsPerTask, n) == Slices(rows, rowsPerTask, Min(n, CeilDiv(rows, rowsPerTask)))
  {
    CeilDivNonNegative(rows, rowsPerTask);
    if n > 0 {
      DispatchedSlices(rows, rowsPerTask, n - 1);
      SliceNonEmpty(rows, rowsPerTask, n - 1);
      if n - 1 < CeilDiv(rows, rowsPerTask) {
        SlicesSnoc(rows, rowsPerTask, n - 1);
      }
    }
  }

  lemma SlicesSnoc(total: int, width: int, k: nat)
    ensures Slices(total, width, k + 1) == Slices(total, width, k) + [Slice(total, width, k)]
  {
  }

  /** With no rows the width is 0, every slice is empty, and no worker is dispatched. */
  lemma {:induction false} DispatchedNoRows(n: nat)
    ensures Dispatched(0, 0, n) == []
  {
    if n > 0 {
      DispatchedNoRows(n - 1);
      var j := n - 1;
      assert j * 0 == 0;
      assert Slice(0, 0, j) == Span(0, 0);
    }
  }

  /**
   * The partitioner, for `rows >= 0` and `concurrency >= 1`: with
   * `rpt = ceil(rows / concurrency)`, partition `i` is `[i*rpt, min(i*rpt + rpt, rows))`;
   * `ceil(rows / rpt)` partitions are dispatched, at most `concurrency`, none
   * for no rows; they tile `[0, rows)` (contiguous, non-empty, disjoint) and
   * their sizes add up to `rows`.
   */
  lemma PartitionsTile(rows: nat, concurrency: int)
    requires concurrency >= 1
    ensures var parts := Partitions(rows, concurrency);
      && |parts| == PartitionCount(rows, concurrency) <= concurrency
      && (rows == 0 <==> parts == [])
      && (forall i :: 0 <= i < |parts| ==> parts[i] == Slice(rows, RowsPerTask(rows, concurrency), i))
      && Tiles(parts, 0, rows)
      && SumSizes(parts) == rows
  {
    var parts := Partitions(rows, concurrency);
    if rows == 0 {
      NoRowsNoPartitions(concurrency);
    } else {
      SomeRowsPartitions(rows, concurrency);
    }
    TilesSum(parts, 0, rows);
  }

  /** With no rows the width is 0 and no partition is dispatched. */
  lemma NoRowsNoPartitions(concurrency: int)
    requires concurrency >= 1
    ensures Partitions(0, concurrency) == []
  {
    CeilDivUnique(0, concurrency, 0);
    DispatchedNoRows(concurrency);
  }

  /** With rows, the partitions are the `ceil(rows / rpt)` slices of width `rpt`, at most `concurrency` of them. */
  lemma SomeRowsPartitions(rows: nat, concurrency: int)
    requires concurrency >= 1 && rows > 0
    ensures RowsPerTask(rows, concurrency) > 0
    ensures PartitionCount(rows, concurrency) <= concurrency
    ensures Partitions(rows, concurrency)
         == Slices(rows, RowsPerTask(rows, concurrency), PartitionCount(rows, concurrency))
    ensures Tiles(Partitions(rows, concurrency), 0, rows)
  {
    var rpt := RowsPerTask(rows, concurrency);
    CeilDivNonNegative(rows, concurrency);
    CeilDivAtMost(rows, rpt, concurrency);
    CeilDivNonNegative(rows, rpt);
    var m := CeilDiv(rows, rpt);
    assert PartitionCount(rows, concurrency) == m;
    DispatchedSlices(rows, rpt, concurrency);
    SlicesTile(rows, rpt);
  }

  /** Ten rows over six workers dispatch five partitions of two rows, not six. */
  lemma TenRowsSixWorkers(rows: nat, concurrency: int)
    requires rows == 10 && concurrency == 6
    ensures Partitions(rows, concurrency) == [Span(0, 2), Span(2, 4), Span(4, 6), Span(6, 8), Span(8, 10)]
  {
    PartitionsOfWidth(rows, concurrency, 2, 5);
    SlicesOfTen(rows, 2, 5);
  }

  /** Ten rows over two workers: `[0, 5)` and `[5, 10)`. */
  lemma TenRowsTwoWorkers(rows: nat, concurrency: int)
    requires rows == 10 && concurrency == 2
    ensures Partitions(rows, concurrency) == [Span(0, 5), Span(5, 10)]
  {
    PartitionsOfWidth(rows, concurrency, 5, 2);
    SlicesOfTen(rows, 5, 2);
  }

  lemma PartitionsOfWidth(rows: nat, concurrency: int, width: int, count: nat)
    requires concurrency >= 1 && width > 0
    requires (width - 1) * concurrency < rows <= width * concurrency
    requires (count - 1) * width < rows <= count * width
    requires count <= concurrency
    ensures Partitions(rows, concurrency) == Slices(rows, width, count)
  {
    CeilDivUnique(rows, concurrency, width);
    CeilDivUnique(rows, width, count);
    DispatchedSlices(rows, width, concurrency);
  }

  lemma SlicesOfTen(rows: nat, width: int, count: nat)
    requires rows == 10 && width * count == rows
    ensures forall i :: 0 <= i < count ==> Slices(rows, width, count)[i] == Span(i * width, i * width + width)
  {
    forall i | 0 <= i < count
      ensures Slices(rows, width, count)[i] == Span(i * width, i * width + width)
    {
      MulMonotone(i + 1, count, width);
      assert (i + 1) * width == i * width + width;
    }
  }

  // ---------------------------------------------------------------------------
  // Whole-request plans
  // ---------------------------------------------------------------------------

  /** The single-row writes of all the partitions, partition after partition. */
  function SinglePlan(db: string, payload: string, parts: seq<Span>): seq<Write> {
    if parts == [] then []
    else SinglePlan(db, payload, parts[..|parts| - 1]) + SingleRowWrites(db, payload, parts[|parts| - 1].Size())
  }

  predicate AllNonEmpty(parts: seq<Span>) {
    forall i :: 0 <= i < |parts| ==> parts[i].Size() > 0
  }

  /** The bulk writes of all the partitions, partition after partition. */
  function BatchPlan(db: string, payload: string, batchSize: int, parts: seq<Span>): seq<Write>
    requires batchSize != 0 && AllNonEmpty(parts)
  {
    if parts == [] then []
    else BatchPlan(db, payload, batchSize, parts[..|parts| - 1]) + BatchRowWrites(db, payload, parts[|parts| - 1].Size(), batchSize)
  }

  lemma {:induction false} DispatchedNonEmpty(rows: int, rowsPerTask: int, n: nat)
    ensures AllNonEmpty(Dispatched(rows, rowsPerTask, n))
  {
    if n > 0 {
      DispatchedNonEmpty(rows, rowsPerTask, n - 1);
    }
  }

  lemma {:induction false} DispatchedGrows(rows: int, rowsPerTask: int, n: nat, m: nat)
    requires n <= m
    ensures Dispatched(rows, rowsPerTask, n) <= Dispatched(rows, rowsPerTask, m)
    decreases m - n
  {
    if n < m {
      DispatchedGrows(rows, rowsPerTask, n, m - 1);
    }
  }

  lemma {:induction false} SinglePlanAppend(db: string, payload: string, a: seq<Span>, b: seq<Span>)
    ensures SinglePlan(db, payload, a + b) == SinglePlan(db, payload, a) + SinglePlan(db, payload, b)
  {
    if b == [] {
      assert a + b == a;
    } else {
      assert (a + b)[..|a + b| - 1] == a + b[..|b| - 1];
      SinglePlanAppend(db, payload, a, b[..|b| - 1]);
    }
  }

  lemma {:induction false} BatchPlanAppend(db: string, payload: string, batchSize: int, a: seq<Span>, b: seq<Span>)
    requires batchSize != 0 && AllNonEmpty(a) && AllNonEmpty(b)
    ensures AllNonEmpty(a + b)
    ensures BatchPlan(db, payload, batchSize, a + b) == BatchPlan(db, payload, batchSize, a) + BatchPlan(db, payload, batchSize, b)
  {
    if b == [] {
      assert a + b == a;
    } else {
      assert (a + b)[..|a + b| - 1] == a + b[..|b| - 1];
      BatchPlanAppend(db, payload, batchSize, a, b[..|b| - 1]);
    }
  }

  /**
   * On the single-row path, the partitions of a known engine together issue
   * exactly `rows` one-row inserts of the payload, and an unknown `db` issues none.
   */
  lemma SinglePlanIsOneInsertPerRow(db: string, payload: string, rows: nat, concurrency: int)
    requires concurrency >= 1
    ensures SinglePlan(db, payload, Partitions(rows, concurrency)) ==
      match EngineOf(db)
      case None => []
      case Some(e) => Fill(rows, RowInsert(e, RowInsertSql(e), payload))
  {
    PartitionsTile(rows, concurrency);
    SinglePlanFill(db, payload, Partitions(rows, concurrency));
  }

  lemma {:induction false} SinglePlanFill(db: string, payload: string, parts: seq<Span>)
    requires AllNonEmpty(parts)
    ensures SumSizes(parts) >= 0
    ensures SinglePlan(db, payload, parts) ==
      match EngineOf(db)
      case None => []
      case Some(e) => Fill(SumSizes(parts), RowInsert(e, RowInsertSql(e), payload))
  {
    if parts != [] {
      SinglePlanFill(db, payload, parts[..|parts| - 1]);
    }
  }

  // ---------------------------------------------------------------------------
  // Chunking and the shape of each bulk write
  // ---------------------------------------------------------------------------

  /** A chunk write of `n` rows goes to its engine and carries `n` copies of the payload. */
  lemma ChunkWriteRows(e: Engine, payload: string, n: nat)
    ensures ChunkWrite(e, payload, n).Target() == e
    ensures ChunkWrite(e, payload, n).Payloads() == Fill(n, payload)
    ensures ChunkWrite(e, payload, n).RowCount() == n
  {
  }

  /**
   * The MySQL / MariaDB bulk statement for `n >= 1` rows lists `n` placeholders
   * `(?)` joined by `,`, so it holds exactly as many `?` as it has parameters.
   */
  lemma PlaceholdersMatchParams(e: Engine, payload: string, n: nat)
    requires n >= 1 && (e == MySql || e == MariaDb)
    ensures var w := ChunkWrite(e, payload, n);
      && w.ValuesInsert?
      && |w.sql| == |ValuesSqlPrefix| + 4 * n - 1
      && Count(w.sql, '?') == |w.params| == n
  {
    var list := Join(Fill(n, "(?)"), ",");
    JoinFillCount(n, "(?)", ',', '?');
    assert Count("(?)", '?') == 1 by {
      assert "(?)"[..2] == "(?";
      assert "(?"[..1] == "(";
      assert "("[..0] == "";
    }
    CountAppend(ValuesSqlPrefix, list, '?');
    CountAbsent(ValuesSqlPrefix, '?');
  }

  lemma {:induction false} CountAbsent(s: string, c: char)
    requires forall i :: 0 <= i < |s| ==> s[i] != c
    ensures Count(s, c) == 0
  {
    if s != [] {
      CountAbsent(s[..|s| - 1], c);
    }
  }


  /** Chunk write `i` covers slice `i` of the partition. */
  lemma {:induction false} ChunkWritesAt(db: string, payload: string, rows: int, batchSize: int, k: nat, i: nat)
    requires rows > 0 && batchSize != 0 && i < k <= ChunkCount(rows, batchSize)
    requires EngineOf(db).Some?
    ensures |ChunkWrites(db, payload, rows, batchSize, k)| == k
    ensures Slice(rows, batchSize, i).Size() > 0
    ensures ChunkWrites(db, payload, rows, batchSize, k)[i]
         == ChunkWrite(EngineOf(db).value, payload, Slice(rows, batchSize, i).Size())
  {
    SliceNonEmpty(rows, batchSize, i);
    var prior := ChunkWrites(db, payload, rows, batchSize, k - 1);
    assert ChunkWrites(db, payload, rows, batchSize, k) == prior + Chunk(db, payload, rows, batchSize, k - 1);
    if i < k - 1 {
      ChunkWritesAt(db, payload, rows, batchSize, k - 1, i);
    } else {
    }
  }

  /** The first `k` chunks of a partition insert as many rows as the first `k` slices hold. */
  lemma {:induction false} ChunkWritesTotal(db: string, payload: string, rows: int, batchSize: int, k: nat)
    requires rows > 0 && batchSize > 0 && k <= ChunkCount(rows, batchSize)
    requires EngineOf(db).Some?
    ensures TotalRows(ChunkWrites(db, payload, rows, batchSize, k)) == SumSizes(Slices(rows, batchSize, k))
  {
    if k > 0 {
      ChunkWritesTotal(db, payload, rows, batchSize, k - 1);
      SliceNonEmpty(rows, batchSize, k - 1);
      var prior := ChunkWrites(db, payload, rows, batchSize, k - 1);
      var slice := Slice(rows, batchSize, k - 1);
      var w := ChunkWrite(EngineOf(db).value, payload, slice.Size());
      ChunkWriteRows(EngineOf(db).value, payload, slice.Size());
      assert ChunkWrites(db, payload, rows, batchSize, k) == prior + [w];
      TotalRowsAppend(prior, [w]);
      assert TotalRows([w]) == w.RowCount() by {
        assert [w][..0] == [];
      }
      SlicesSnoc(rows, batchSize, k - 1);
      assert Slices(rows, batchSize, k)[..k - 1] == Slices(rows, batchSize, k - 1);
    }
  }

  /** Every write of `ws` is a bulk write of 1 to `batchSize` rows of `payload` to engine `e`. */
  predicate Chunked(ws: seq<Write>, e: Engine, payload: string, batchSize: int) {
    forall i :: 0 <= i < |ws| ==>
      && 1 <= ws[i].RowCount() <= batchSize
      && ws[i].Target() == e
      && ws[i].Payloads() == Fill(ws[i].RowCount(), payload)
  }

  /**
   * A partition of `rows > 0` rows is cut into `ceil(rows / batchSize)` chunks:
   * every chunk but the last holds `batchSize` rows, the last holds the
   * non-zero remainder, and the chunk sizes add up to `rows`.
   */
  lemma ChunksOfPartition(db: string, payload: string, rows: int, batchSize: int)
    requires rows > 0 && batchSize > 0 && EngineOf(db).Some?
    ensures var ws := BatchRowWrites(db, payload, rows, batchSize);
      && |ws| == CeilDiv(rows, batchSize) >= 1
      && TotalRows(ws) == rows
      && (forall i :: 0 <= i < |ws| - 1 ==> ws[i].RowCount() == batchSize)
      && ws[|ws| - 1].RowCount() == rows - (|ws| - 1) * batchSize
      && Chunked(ws, EngineOf(db).value, payload, batchSize)
  {
    var e := EngineOf(db).value;
    var m := ChunkCount(rows, batchSize);
    var ws := BatchRowWrites(db, payload, rows, batchSize);
    ChunkWritesTotal(db, payload, rows, batchSize, m);
    SliceLast(rows, batchSize);
    forall i | 0 <= i < |ws|
      ensures ws[i].RowCount() == Slice(rows, batchSize, i).Size()
      ensures 1 <= ws[i].RowCount() <= batchSize
      ensures ws[i].Target() == e
      ensures ws[i].Payloads() == Fill(ws[i].RowCount(), payload)
    {
      ChunkWritesAt(db, payload, rows, batchSize, m, i);
      SliceNonEmpty(rows, batchSize, i);
      ChunkWriteRows(e, payload, Slice(rows, batchSize, i).Size());
    }
    forall i | 0 <= i < |ws| - 1
      ensures ws[i].RowCount() == batchSize
    {
      SliceAdjacent(rows, batchSize, i);
    }
    SlicesTile(rows, batchSize);
    TilesSum(Slices(rows, batchSize, m), 0, rows);
  }

  /** 250 rows in batches of 100: three chunks of 100, 100 and 50 rows. */
  lemma TwoHundredFiftyRowsInBatchesOfHundred(db: string, payload: string, rows: int, batchSize: int)
    requires EngineOf(db).Some? && rows == 250 && batchSize == 100
    ensures var ws := BatchRowWrites(db, payload, rows, batchSize);
      |ws| == 3 && ws[0].RowCount() == 100 && ws[1].RowCount() == 100 && ws[2].RowCount() == 50
  {
    CeilDivUnique(rows, batchSize, 3);
    ChunksOfPartition(db, payload, rows, batchSize);
  }

  lemma ChunkedAppend(a: seq<Write>, b: seq<Write>, e: Engine, payload: string, batchSize: int)
    requires Chunked(a, e, payload, batchSize) && Chunked(b, e, payload, batchSize)
    ensures Chunked(a + b, e, payload, batchSize)
  {
    assert forall i :: |a| <= i < |a + b| ==> (a + b)[i] == b[i - |a|];
  }

  /**
   * On the batch path, the bulk writes of all partitions insert as many rows
   * as the partitions hold, in chunks of 1 to `batchSize` rows of the payload.
   */
  lemma {:induction false} BatchPlanRows(db: string, payload: string, batchSize: int, parts: seq<Span>)
    requires batchSize > 0 && AllNonEmpty(parts) && EngineOf(db).Some?
    ensures TotalRows(BatchPlan(db, payload, batchSize, parts)) == SumSizes(parts)
    ensures Chunked(BatchPlan(db, payload, batchSize, parts), EngineOf(db).value, payload, batchSize)
  {
    if parts != [] {
      var init := parts[..|parts| - 1];
      var last := parts[|parts| - 1].Size();
      BatchPlanRows(db, payload, batchSize, init);
      var a := BatchPlan(db, payload, batchSize, init);
      var b := BatchRowWrites(db, payload, last, batchSize);
      ChunksOfPartition(db, payload, last, batchSize);
      TotalRowsAppend(a, b);
      ChunkedAppend(a, b, EngineOf(db).value, payload, batchSize);
    }
  }

  /** The inserts the first `n` workers of the single-row loop send, worker after worker. */
  function SingleWorkers(db: string, payload: string, rows: int, rowsPerTask: int, n: nat): (ws: seq<Write>)
    ensures EngineOf(db).None? ==> ws == []
  {
    if n == 0 then [] else SingleWorkers(db, payload, rows, rowsPerTask, n - 1) + WorkerInserts(db, payload, rows, rowsPerTask, n - 1)
  }

  /** What worker `i` of the single-row loop sends: one insert per row of its slice. */
  function WorkerInserts(db: string, payload: string, rows: int, rowsPerTask: int, i: int): seq<Write> {
    SingleRowWrites(db, payload, Slice(rows, rowsPerTask, i).Size())
  }

  /** The bulk writes the first `n` workers of the batch loop send, worker after worker. */
  function BatchWorkers(db: string, payload: string, rows: int, rowsPerTask: int, batchSize: int, n: nat): (ws: seq<Write>)
    ensures EngineOf(db).None? || batchSize < 0 ==> ws == []
  {
    if n == 0 then [] else BatchWorkers(db, payload, rows, rowsPerTask, batchSize, n - 1) + WorkerBulk(db, payload, rows, rowsPerTask, batchSize, n - 1)
  }

  /**
   * What worker `i` of the batch loop sends: the bulk writes of its slice, if
   * it is dispatched. A dispatched slice with `batchSize == 0` is excluded by
   * every caller (the chunk loop of the source would never end); it is given
   * no writes here only so that the function is total.
   */
  function WorkerBulk(db: string, payload: string, rows: int, rowsPerTask: int, batchSize: int, i: int): seq<Write> {
    var size := Slice(rows, rowsPerTask, i).Size();
    if size > 0 && batchSize != 0 then BatchRowWrites(db, payload, size, batchSize) else []
  }

  /** The first `n` workers of the single-row loop send the single-row plan of the partitions they dispatch. */
  lemma {:induction false} SingleWorkersPlan(db: string, payload: string, rows: int, rowsPerTask: int, n: nat)
    ensures SingleWorkers(db, payload, rows, rowsPerTask, n) == SinglePlan(db, payload, Dispatched(rows, rowsPerTask, n))
  {
    if n > 0 {
      SingleWorkersPlan(db, payload, rows, rowsPerTask, n - 1);
      var a := Dispatched(rows, rowsPerTask, n - 1);
      var b := Dispatched(rows, rowsPerTask, n);
      if Slice(rows, rowsPerTask, n - 1).Size() > 0 {
        assert b == a + [Slice(rows, rowsPerTask, n - 1)];
        assert b[..|b| - 1] == a;
      } else {
        assert b == a;
      }
    }
  }

  /** The first `n` workers of the batch loop send the batch plan of the partitions they dispatch. */
  lemma {:induction false} BatchWorkersPlan(db: string, payload: string, rows: int, rowsPerTask: int, batchSize: int, n: nat)
    requires batchSize != 0
    ensures AllNonEmpty(Dispatched(rows, rowsPerTask, n))
    ensures BatchWorkers(db, payload, rows, rowsPerTask, batchSize, n) == BatchPlan(db, payload, batchSize, Dispatched(rows, rowsPerTask, n))
  {
    DispatchedNonEmpty(rows, rowsPerTask, n);
    if n > 0 {
      BatchWorkersPlan(db, payload, rows, rowsPerTask, batchSize, n - 1);
      var a := Dispatched(rows, rowsPerTask, n - 1);
      var size := Slice(rows, rowsPerTask, n - 1).Size();
      var prior := BatchWorkers(db, payload, rows, rowsPerTask, batchSize, n - 1);
      assert BatchWorkers(db, payload, rows, rowsPerTask, batchSize, n)
          == prior + WorkerBulk(db, payload, rows, rowsPerTask, batchSize, n - 1);
      if size > 0 {
        assert Dispatched(rows, rowsPerTask, n) == a + [Slice(rows, rowsPerTask, n - 1)];
        assert WorkerBulk(db, payload, rows, rowsPerTask, batchSize, n - 1) == BatchRowWrites(db, payload, size, batchSize);
        BatchPlanSnoc(db, payload, batchSize, a, Slice(rows, rowsPerTask, n - 1));
      } else {
        assert Dispatched(rows, rowsPerTask, n) == a;
        assert WorkerBulk(db, payload, rows, rowsPerTask, batchSize, n - 1) == [];
        assert prior + [] == prior;
      }
    }
  }

  lemma {:induction false} SingleWorkersGrow(db: string, payload: string, rows: int, rowsPerTask: int, n: nat, m: nat)
    requires n <= m
    ensures SingleWorkers(db, payload, rows, rowsPerTask, n) <= SingleWorkers(db, payload, rows, rowsPerTask, m)
    decreases m - n
  {
    if n < m {
      SingleWorkersGrow(db, payload, rows, rowsPerTask, n, m - 1);
    }
  }

  lemma {:induction false} BatchWorkersGrow(db: string, payload: string, rows: int, rowsPerTask: int, batchSize: int, n: nat, m: nat)
    requires n <= m
    ensures BatchWorkers(db, payload, rows, rowsPerTask, batchSize, n) <= BatchWorkers(db, payload, rows, rowsPerTask, batchSize, m)
    decreases m - n
  {
    if n < m {
      BatchWorkersGrow(db, payload, rows, rowsPerTask, batchSize, n, m - 1);
    }
  }

  lemma BatchPlanSnoc(db: string, payload: string, batchSize: int, a: seq<Span>, s: Span)
    requires batchSize != 0 && AllNonEmpty(a) && s.Size() > 0
    ensures AllNonEmpty(a + [s])
    ensures BatchPlan(db, payload, batchSize, a + [s])
         == BatchPlan(db, payload, batchSize, a) + BatchRowWrites(db, payload, s.Size(), batchSize)
  {
    assert (a + [s])[..|a|] == a;
  }

  /** The single-row path's writes: those of all `concurrency` workers, none when the loop never runs. */
  function SingleIngestPlan(db: string, payload: string, rows: int, concurrency: int): (ws: seq<Write>)
    ensures EngineOf(db).None? || concurrency < 1 ==> ws == []
  {
    if concurrency >= 1 then SingleWorkers(db, payload, rows, RowsPerTask(rows, concurrency), concurrency) else []
  }

  /** The batch path's writes: those of all `concurrency` workers, none when no partition is dispatched. */
  function BatchIngestPlan(db: string, payload: string, rows: int, concurrency: int, batchSize: int): (ws: seq<Write>)
    ensures EngineOf(db).None? || batchSize < 0 || concurrency < 1 ==> ws == []
  {
    if concurrency >= 1 then BatchWorkers(db, payload, rows, RowsPerTask(rows, concurrency), batchSize, concurrency) else []
  }

  /** With no rows, the batch path dispatches no partition and sends nothing. */
  lemma BatchIngestPlanNoRows(db: string, payload: string, rows: int, concurrency: int, batchSize: int)
    requires rows <= 0
    ensures BatchIngestPlan(db, payload, rows, concurrency, batchSize) == []
  {
    if concurrency >= 1 {
      CeilDivAtMost(rows, concurrency, 0);
      BatchWorkersNone(db, payload, rows, RowsPerTask(rows, concurrency), batchSize, concurrency);
    }
  }

  /** The single-row path sends, partition after partition, the one-row inserts of each dispatched partition. */
  lemma SingleIngestPlanPartitions(db: string, payload: string, rows: int, concurrency: int)
    ensures SingleIngestPlan(db, payload, rows, concurrency) == SinglePlan(db, payload, Partitions(rows, concurrency))
  {
    if concurrency >= 1 {
      SingleWorkersPlan(db, payload, rows, RowsPerTask(rows, concurrency), concurrency);
    }
  }

  /** The batch path sends, partition after partition, the bulk writes of each dispatched partition. */
  lemma BatchIngestPlanPartitions(db: string, payload: string, rows: int, concurrency: int, batchSize: int)
    requires rows > 0 && concurrency >= 1 && batchSize != 0
    ensures AllNonEmpty(Partitions(rows, concurrency))
    ensures BatchIngestPlan(db, payload, rows, concurrency, batchSize) == BatchPlan(db, payload, batchSize, Partitions(rows, concurrency))
  {
    BatchWorkersPlan(db, payload, rows, RowsPerTask(rows, concurrency), batchSize, concurrency);
  }

  /**
   * One iteration of the single-row loop: the run of the first `i + 1`
   * workers continues the run of the first `i` with worker `i`'s inserts,
   * which are none when its slice is empty.
   */
  lemma SingleWorkersStep(rejects: set<nat>, db: string, payload: string, rows: int, rowsPerTask: int,
                          i: nat, s0: DbState, s: DbState)
    requires (s, None) == Run(rejects, SingleWorkers(db, payload, rows, rowsPerTask, i), s0)
    ensures var size := Slice(rows, rowsPerTask, i).Size();
      && (size > 0 ==>
            Run(rejects, SingleWorkers(db, payload, rows, rowsPerTask, i + 1), s0)
            == Run(rejects, SingleRowWrites(db, payload, size), s))
      && (size <= 0 ==> (s, None) == Run(rejects, SingleWorkers(db, payload, rows, rowsPerTask, i + 1), s0))
  {
    RunAppend(rejects, SingleWorkers(db, payload, rows, rowsPerTask, i),
              WorkerInserts(db, payload, rows, rowsPerTask, i), s0);
  }

  /**
   * One iteration of the batch loop: worker `i` is dispatched exactly when its
   * slice holds a row, which needs `rows > 0` and so a non-zero `batchSize`;
   * then the run of the first `i + 1` workers continues the run of the first
   * `i` with that slice's bulk writes, and otherwise it is the run of the first `i`.
   */
  lemma BatchWorkersStep(rejects: set<nat>, db: string, payload: string, rows: int, concurrency: int, batchSize: int,
                         i: nat, s0: DbState, s: DbState)
    requires concurrency >= 1 && (rows > 0 ==> batchSize != 0)
    requires (s, None) == Run(rejects, BatchWorkers(db, payload, rows, RowsPerTask(rows, concurrency), batchSize, i), s0)
    ensures var size := Slice(rows, RowsPerTask(rows, concurrency), i).Size();
      && (size > 0 ==>
            && batchSize != 0
            && Run(rejects, BatchWorkers(db, payload, rows, RowsPerTask(rows, concurrency), batchSize, i + 1), s0)
               == Run(rejects, BatchRowWrites(db, payload, size, batchSize), s))
      && (size <= 0 ==> (s, None) == Run(rejects, BatchWorkers(db, payload, rows, RowsPerTask(rows, concurrency), batchSize, i + 1), s0))
  {
    var rpt := RowsPerTask(rows, concurrency);
    if rows <= 0 {
      CeilDivAtMost(rows, concurrency, 0);
    }
    RunAppend(rejects, BatchWorkers(db, payload, rows, rpt, batchSize, i), WorkerBulk(db, payload, rows, rpt, batchSize, i), s0);
  }

  /**
   * What worker `i` of the batch loop leaves behind, given the outcome `out`
   * of its own writes: on success, the run of the first `i + 1` workers; on
   * a failure, the outcome of the whole request.
   */
  lemma BatchTaskOutcome(rejects: set<nat>, db: string, payload: string, rows: int, concurrency: int, batchSize: int,
                         i: nat, taskRows: int, s0: DbState, s: DbState, out: (DbState, Option<WriteError>))
    requires 1 <= concurrency && i < concurrency && (rows > 0 ==> batchSize != 0)
    requires taskRows == Slice(rows, RowsPerTask(rows, concurrency), i).Size()
    requires (s, None) == Run(rejects, BatchWorkers(db, payload, rows, RowsPerTask(rows, concurrency), batchSize, i), s0)
    requires taskRows > 0 ==> batchSize != 0 && out == Run(rejects, BatchRowWrites(db, payload, taskRows, batchSize), s)
    requires taskRows <= 0 ==> out == (s, None)
    ensures out.1.None? ==> out == Run(rejects, BatchWorkers(db, payload, rows, RowsPerTask(rows, concurrency), batchSize, i + 1), s0)
    ensures out.1.Some? ==> out == Run(rejects, BatchIngestPlan(db, payload, rows, concurrency, batchSize), s0)
  {
    BatchWorkersStep(rejects, db, payload, rows, concurrency, batchSize, i, s0, s);
    if out.1.Some? {
      BatchWorkersFailure(rejects, db, payload, rows, concurrency, batchSize, i + 1, s0);
    }
  }

  /** Once the first `n` workers of the single-row loop fail, the request's run has ended as theirs did. */
  lemma SingleWorkersFailure(rejects: set<nat>, db: string, payload: string, rows: int, concurrency: int, n: nat, s0: DbState)
    requires 1 <= n <= concurrency
    requires Run(rejects, SingleWorkers(db, payload, rows, RowsPerTask(rows, concurrency), n), s0).1.Some?
    ensures Run(rejects, SingleIngestPlan(db, payload, rows, concurrency), s0)
         == Run(rejects, SingleWorkers(db, payload, rows, RowsPerTask(rows, concurrency), n), s0)
  {
    var rpt := RowsPerTask(rows, concurrency);
    SingleWorkersGrow(db, payload, rows, rpt, n, concurrency);
    FailedPrefixDecides(rejects, SingleWorkers(db, payload, rows, rpt, n), SingleIngestPlan(db, payload, rows, concurrency), s0);
  }

  /** Once the first `n` workers of the batch loop fail, the request's run has ended as theirs did. */
  lemma BatchWorkersFailure(rejects: set<nat>, db: string, payload: string, rows: int, concurrency: int, batchSize: int,
                            n: nat, s0: DbState)
    requires 1 <= n <= concurrency
    requires Run(rejects, BatchWorkers(db, payload, rows, RowsPerTask(rows, concurrency), batchSize, n), s0).1.Some?
    ensures Run(rejects, BatchIngestPlan(db, payload, rows, concurrency, batchSize), s0)
         == Run(rejects, BatchWorkers(db, payload, rows, RowsPerTask(rows, concurrency), batchSize, n), s0)
  {
    var rpt := RowsPerTask(rows, concurrency);
    BatchWorkersGrow(db, payload, rows, rpt, batchSize, n, concurrency);
    FailedPrefixDecides(rejects, BatchWorkers(db, payload, rows, rpt, batchSize, n),
                        BatchIngestPlan(db, payload, rows, concurrency, batchSize), s0);
  }

  /** A run that fails within a prefix of the plan ends as that prefix's run ended. */
  lemma FailedPrefixDecides(rejects: set<nat>, a: seq<Write>, all: seq<Write>, s: DbState)
    requires a <= all && Run(rejects, a, s).1.Some?
    ensures Run(rejects, all, s) == Run(rejects, a, s)
  {
    assert all == a + all[|a|..];
    RunAppend(rejects, a, all[|a|..], s);
  }

  // ---------------------------------------------------------------------------
  // The service
  // ---------------------------------------------------------------------------

  /** The parameters `performIngestion` receives; the numbers may be NaN. */
  datatype IngestParams = IngestParams(
    db: string, rows: Num, payloadBytes: Num, concurrency: Num, insertMethod: string, batchSize: Num)

  /**
   * The requests the model covers: every number is an integer, `rows` is not
   * negative, and a dispatched batch partition has a non-zero `batchSize`
   * (with `batchSize == 0` the chunk loop of the source never ends).
   */
  predicate Admissible(p: IngestParams) {
    && p.rows.Int? && p.payloadBytes.Int? && p.concurrency.Int? && p.batchSize.Int?
    && p.rows.value >= 0
    && (p.insertMethod != "single" && p.rows.value > 0 && p.concurrency.value >= 1 ==> p.batchSize.value != 0)
  }

  /** `rows` one-row inserts insert `rows` rows. */
  lemma {:induction false} TotalRowsOfInserts(w: Write, n: nat)
    requires w.RowInsert?
    ensures TotalRows(Fill(n, w)) == n
  {
    if n > 0 {
      assert Fill(n, w)[..n - 1] == Fill(n - 1, w);
      TotalRowsOfInserts(w, n - 1);
    }
  }

  /** The single-row path, for a known engine and at least one worker, sends one insert of the payload per row. */
  lemma SingleIngestPlanRows(db: string, payload: string, rows: nat, concurrency: int)
    requires EngineOf(db).Some? && concurrency >= 1
    ensures var e := EngineOf(db).value;
      SingleIngestPlan(db, payload, rows, concurrency) == Fill(rows, RowInsert(e, RowInsertSql(e), payload))
    ensures TotalRows(SingleIngestPlan(db, payload, rows, concurrency)) == rows
  {
    var e := EngineOf(db).value;
    SingleIngestPlanPartitions(db, payload, rows, concurrency);
    SinglePlanIsOneInsertPerRow(db, payload, rows, concurrency);
    TotalRowsOfInserts(RowInsert(e, RowInsertSql(e), payload), rows);
  }

  /**
   * The batch path, for a known engine, at least one worker and a positive
   * `batchSize`, inserts `rows` rows in bulk writes of 1 to `batchSize` rows
   * of the payload each.
   */
  lemma BatchIngestPlanRows(db: string, payload: string, rows: nat, concurrency: int, batchSize: int)
    requires EngineOf(db).Some? && concurrency >= 1 && batchSize > 0
    ensures TotalRows(BatchIngestPlan(db, payload, rows, concurrency, batchSize)) == rows
    ensures Chunked(BatchIngestPlan(db, payload, rows, concurrency, batchSize), EngineOf(db).value, payload, batchSize)
  {
    if rows == 0 {
      BatchIngestPlanNoRows(db, payload, rows, concurrency, batchSize);
    } else {
      var parts := Partitions(rows, concurrency);
      BatchIngestPlanPartitions(db, payload, rows, concurrency, batchSize);
      BatchPlanRows(db, payload, batchSize, parts);
      PartitionsTile(rows, concurrency);
    }
  }

  /**
   * A request for a known engine with at least one worker writes every row
   * once: its writes insert `rows` rows in all; on the single-row path they
   * are `rows` one-row inserts of the payload, on the batch path bulk writes
   * of 1 to `batchSize` rows of the payload each.
   */
  lemma IngestPlanRows(p: IngestParams, payload: string)
    requires Admissible(p) && EngineOf(p.db).Some? && p.concurrency.value >= 1
    requires p.insertMethod != "single" && p.rows.value > 0 ==> p.batchSize.value > 0
    ensures TotalRows(IngestPlan(p, payload)) == p.rows.value
    ensures p.insertMethod == "single" ==>
      var e := EngineOf(p.db).value;
      IngestPlan(p, payload) == Fill(p.rows.value, RowInsert(e, RowInsertSql(e), payload))
    ensures p.insertMethod != "single" && p.rows.value > 0 ==>
      Chunked(IngestPlan(p, payload), EngineOf(p.db).value, payload, p.batchSize.value)
  {
    if p.insertMethod == "single" {
      SingleIngestPlanRows(p.db, payload, p.rows.value, p.concurrency.value);
    } else if p.rows.value > 0 {
      BatchIngestPlanRows(p.db, payload, p.rows.value, p.concurrency.value, p.batchSize.value);
    } else {
      BatchIngestPlanNoRows(p.db, payload, p.rows.value, p.concurrency.value, p.batchSize.value);
    }
  }

  /** With a partition width below one, no slice holds a row, so no batch worker sends anything. */
  lemma {:induction false} BatchWorkersNone(db: string, payload: string, rows: int, rowsPerTask: int, batchSize: int, n: nat)
    requires rowsPerTask <= 0
    ensures BatchWorkers(db, payload, rows, rowsPerTask, batchSize, n) == []
  {
    if n > 0 {
      BatchWorkersNone(db, payload, rows, rowsPerTask, batchSize, n - 1);
    }
  }






  /** Every write the request sends, in order, for the given payload. */
  function IngestPlan(p: IngestParams, payload: string): (ws: seq<Write>)
    requires Admissible(p)
    ensures || EngineOf(p.db).None?
            || p.concurrency.value < 1
            || (p.insertMethod != "single" && p.batchSize.value < 0)
            ==> ws == []
  {
    if p.insertMethod == "single" then SingleIngestPlan(p.db, payload, p.rows.value, p.concurrency.value)
    else BatchIngestPlan(p.db, payload, p.rows.value, p.concurrency.value, p.batchSize.value)
  }

  datatype IngestResult = IngestResult(
    success: bool, rowsInserted: int, durationMs: nat, db: string, insertMethod: string, batchSize: int)

  /** What `performIngestion` throws: the RangeError of `'x'.repeat` on a negative count, or the failed write's own error. */
  datatype IngestError = InvalidRepeatCount | WriteFailed(cause: WriteError)

  /** Labels of the rows counter, the in-flight gauge and the failures counter. */
  datatype Labels = Labels(db: string, insertMethod: string)

  /** Labels of the latency histogram. */
  datatype LatencyLabels = LatencyLabels(db: string, insertMethod: string, batch: string)

  /** A metric's value for a label set; prom-client starts every series at 0. */
  function Value<K>(m: map<K, int>, k: K): int {
    if k in m then m[k] else 0
  }

  function Add<K>(m: map<K, int>, k: K, delta: int): map<K, int> {
    m[k := Value(m, k) + delta]
  }

  function Observe<K>(h: map<K, seq<nat>>, k: K, sample: nat): map<K, seq<nat>> {
    h[k := (if k in h then h[k] else []) + [sample]]
  }

  /** `inc(labels, delta)` moves only the series of `k`, and moves it by `delta`. */
  lemma AddValue<K>(m: map<K, int>, k: K, delta: int, j: K)
    ensures Value(Add(m, k, delta), j) == Value(m, j) + (if j == k then delta else 0)
  {
  }

  /** Raising a gauge and lowering it again by the same amount restores every series' value. */
  lemma AddUndo<K>(m: map<K, int>, k: K, delta: int)
    ensures Add(Add(m, k, delta), k, -delta) == m[k := Value(m, k)]
    ensures forall j :: Value(Add(Add(m, k, delta), k, -delta), j) == Value(m, j)
  {
    assert Add(Add(m, k, delta), k, -delta) == m[k := Value(m, k)];
  }

  /** `observe(labels, sample)` appends the sample to the series of `k` and to no other. */
  lemma ObserveAppends<K>(h: map<K, seq<nat>>, k: K, sample: nat, j: K)
    ensures j in Observe(h, k, sample) <==> j in h || j == k
    ensures j == k ==> Observe(h, k, sample)[j] == (if k in h then h[k] else []) + [sample]
    ensures j != k && j in h ==> Observe(h, k, sample)[j] == h[j]
  {
  }

  class IngestService {
    /** The pools of the four engines. */
    const database: Database

    /** ingest_latency_ms: the durations observed per (db, method, batch). */
    var latency: map<LatencyLabels, seq<nat>>
    /** ingest_rows_total per (db, method). */
    var rowsTotal: map<Labels, int>
    /** ingest_inflight_writes per (db, method). */
    var inflight: map<Labels, int>
    /** ingest_failures_total per (db, method). */
    var failures: map<Labels, int>

    /** Counters never go below zero, and neither does the gauge between requests. */
    ghost predicate Valid()
      reads this
    {
      && (forall k :: k in rowsTotal ==> rowsTotal[k] >= 0)
      && (forall k :: k in failures ==> failures[k] >= 0)
      && (forall k :: k in inflight ==> inflight[k] >= 0)
    }

    constructor (database: Database)
      ensures this.database == database && Valid()
      ensures latency == map[] && rowsTotal == map[] && inflight == map[] && failures == map[]
    {
      this.database := database;
      latency := map[];
      rowsTotal := map[];
      inflight := map[];
      failures := map[];
    }

    /**
     * Run one request. The in-flight gauge for `(db, method)` is raised before
     * the first write and lowered on every exit. On success the rows counter
     * grows by `rows`, one latency sample labelled with `String(batchSize)` is
     * recorded, and the result echoes the request; on a failed write only the
     * failures counter grows, by one, and the write's own error is returned.
     */
    method PerformIngestion(p: IngestParams, duration: nat) returns (r: Result<IngestResult, IngestError>)
      requires Admissible(p) && Valid()
      modifies this, database
      ensures Valid()
      ensures p.payloadBytes.value < 0 ==> r == Failure(InvalidRepeatCount) && unchanged(this, database)
      ensures p.payloadBytes.value >= 0 ==>
        var labels := Labels(p.db, p.insertMethod);
        var payload := Repeat("x", p.payloadBytes.value);
        var run := Run(database.rejects, IngestPlan(p, payload), old(database.State()));
        && database.State() == run.0
        && inflight == old(inflight)[labels := Value(old(inflight), labels)]
        && (run.1.None? ==>
              && r == Success(IngestResult(true, p.rows.value, duration, p.db, p.insertMethod,
                                           if p.insertMethod == "batch" then p.batchSize.value else 1))
              && rowsTotal == Add(old(rowsTotal), labels, p.rows.value)
              && latency == Observe(old(latency), LatencyLabels(p.db, p.insertMethod, IntToString(p.batchSize.value)), duration)
              && failures == old(failures))
        && (run.1.Some? ==>
              && r == Failure(WriteFailed(run.1.value))
              && failures == Add(old(failures), labels, 1)
              && rowsTotal == old(rowsTotal)
              && latency == old(latency))
    {
      var db, rows, payloadBytes, concurrency, insertMethod, batchSize :=
        p.db, p.rows.value, p.payloadBytes.value, p.concurrency.value, p.insertMethod, p.batchSize.value;
      if payloadBytes < 0 {
        // 'x'.repeat(n) throws a RangeError before the try block is entered
        return Failure(InvalidRepeatCount);
      }
      var payload := Repeat("x", payloadBytes);
      var labels := Labels(db, insertMethod);
      var batchLabel := IntToString(batchSize);

      inflight := Add(inflight, labels, 1);
      var err: Option<WriteError>;
      if insertMethod == "single" {
        err := PerformSingleRowInserts(db, rows, payload, concurrency);
      } else {
        err := PerformBatchInserts(db, rows, payload, concurrency, batchSize);
      }
      assert (database.State(), err) == Run(database.rejects, IngestPlan(p, payload), old(database.State()));
      if err.None? {
        latency := Observe(latency, LatencyLabels(db, insertMethod, batchLabel), duration);
        rowsTotal := Add(rowsTotal, labels, rows);
        r := Success(IngestResult(true, rows, duration, db, insertMethod, if insertMethod == "batch" then batchSize else 1));
      } else {
        failures := Add(failures, labels, 1);
        r := Failure(WriteFailed(err.value));
      }
      // finally
      inflight := Add(inflight, labels, -1);
      AddUndo(old(inflight), labels, 1);
    }

    /** The single-row path: every dispatched partition runs its one-row inserts. */
    method PerformSingleRowInserts(db: string, rows: int, payload: string, concurrency: int)
      returns (err: Option<WriteError>)
      modifies database
      ensures (database.State(), err) == Run(database.rejects, SingleIngestPlan(db, payload, rows, concurrency), old(database.State()))
    {
      // With concurrency < 1 the loop never runs, so rowsPerTask is never used.
      var rowsPerTask := if concurrency >= 1 then RowsPerTask(rows, concurrency) else 0;
      err := None;
      var i := 0;
      while i < concurrency
        invariant 0 <= i && (concurrency >= 1 ==> i <= concurrency) && (concurrency < 1 ==> i == 0)
        invariant err == None
        invariant (database.State(), None)
               == Run(database.rejects, SingleWorkers(db, payload, rows, rowsPerTask, i), old(database.State()))
      {
        var startRow := i * rowsPerTask;
        var endRow := Min(startRow + rowsPerTask, rows);
        var taskRows := endRow - startRow;
        ghost var before := database.State();
        SingleWorkersStep(database.rejects, db, payload, rows, rowsPerTask, i, old(database.State()), before);
        if taskRows > 0 {
          err := InsertSingleRows(db, taskRows, payload);
          ghost var after := Run(database.rejects, SingleWorkers(db, payload, rows, rowsPerTask, i + 1), old(database.State()));
          assert after == Run(database.rejects, SingleRowWrites(db, payload, taskRows), before);
          if err.Some? {
            SingleWorkersFailure(database.rejects, db, payload, rows, concurrency, i + 1, old(database.State()));
            return;
          }
        }
        i := i + 1;
      }
    }

    /** The batch path: every dispatched partition runs its bulk writes. */
    method PerformBatchInserts(db: string, rows: int, payload: string, concurrency: int, batchSize: int)
      returns (err: Option<WriteError>)
      requires rows > 0 && concurrency >= 1 ==> batchSize != 0
      modifies database
      ensures (database.State(), err)
           == Run(database.rejects, BatchIngestPlan(db, payload, rows, concurrency, batchSize), old(database.State()))
    {
      var rowsPerTask := if concurrency >= 1 then RowsPerTask(rows, concurrency) else 0;
      err := None;
      var i := 0;
      while i < concurrency
        invariant 0 <= i && (concurrency >= 1 ==> i <= concurrency) && (concurrency < 1 ==> i == 0)
        invariant err == None
        invariant (database.State(), None)
               == Run(database.rejects, BatchWorkers(db, payload, rows, rowsPerTask, batchSize, i), old(database.State()))
      {
        var startRow := i * rowsPerTask;
        var endRow := Min(startRow + rowsPerTask, rows);
        var taskRows := endRow - startRow;
        ghost var before := database.State();
        if taskRows > 0 {
          err := InsertBatchRows(db, taskRows, payload, batchSize);
        }
        BatchTaskOutcome(database.rejects, db, payload, rows, concurrency, batchSize, i, taskRows,
                         old(database.State()), before, (database.State(), err));
        if err.Some? {
          return;
        }
        i := i + 1;
      }
    }

    /** One partition on the single-row path: `rows` inserts, one after another. */
    method InsertSingleRows(db: string, rows: int, payload: string) returns (err: Option<WriteError>)
      modifies database
      ensures (database.State(), err) == Run(database.rejects, SingleRowWrites(db, payload, rows), old(database.State()))
    {
      err := None;
      var i := 0;
      while i < rows
        invariant 0 <= i && (rows >= 0 ==> i <= rows) && (rows < 0 ==> i == 0)
        invariant err == None
        invariant (database.State(), None) == Run(database.rejects, SingleRowWrites(db, payload, i), old(database.State()))
      {
        match EngineOf(db) {
          case None =>
          case Some(e) =>
            err := database.Submit(RowInsert(e, RowInsertSql(e), payload));
            RunAppend(database.rejects, SingleRowWrites(db, payload, i), [RowInsert(e, RowInsertSql(e), payload)], old(database.State()));
            assert SingleRowWrites(db, payload, i + 1) == SingleRowWrites(db, payload, i) + [RowInsert(e, RowInsertSql(e), payload)];
            if err.Some? {
              SingleRowFailureStops(db, payload, i + 1, rows, old(database.State()), database.rejects);
              return;
            }
        }
        i := i + 1;
      }
      assert SingleRowWrites(db, payload, i) == SingleRowWrites(db, payload, rows);
    }

    /** One partition on the batch path: one bulk write per chunk, one chunk after another. */
    method InsertBatchRows(db: string, rows: int, payload: string, batchSize: int) returns (err: Option<WriteError>)
      requires rows > 0 && batchSize != 0
      modifies database
      ensures (database.State(), err) == Run(database.rejects, BatchRowWrites(db, payload, rows, batchSize), old(database.State()))
    {
      var batches := ChunkCount(rows, batchSize);
      err := None;
      var batch := 0;
      while batch < batches
        invariant 0 <= batch <= batches
        invariant err == None
        invariant (database.State(), None) == Run(database.rejects, ChunkWrites(db, payload, rows, batchSize, batch), old(database.State()))
      {
        var batchStart := batch * batchSize;
        var batchEnd := Min(batchStart + batchSize, rows);
        var batchRows := batchEnd - batchStart;
        match EngineOf(db) {
          case None =>
            assert ChunkWrites(db, payload, rows, batchSize, batch + 1) == ChunkWrites(db, payload, rows, batchSize, batch);
          case Some(e) =>
            ChunkWritesStep(db, payload, rows, batchSize, batch);
            var w := BuildChunk(e, payload, batchRows);
            err := database.Submit(w);
            RunAppend(database.rejects, ChunkWrites(db, payload, rows, batchSize, batch), [w], old(database.State()));
            if err.Some? {
              ChunkFailureStops(db, payload, rows, batchSize, batch + 1, old(database.State()), database.rejects);
              return;
            }
        }
        batch := batch + 1;
      }
    }
  }

  /** The bulk write of one chunk of `batchRows` rows, as each engine's driver is called. */
  method BuildChunk(e: Engine, payload: string, batchRows: nat) returns (w: Write)
    ensures w == ChunkWrite(e, payload, batchRows)
  {
    match e {
      case Postgres =>
        var payloadArray := Fill(batchRows, payload);
        w := ArrayInsert(UnnestSql, payloadArray);
      case MySql =>
        var values := Join(Fill(batchRows, "(?)"), ",");
        var params := Fill(batchRows, payload);
        w := ValuesInsert(MySql, ValuesSqlPrefix + values, params);
      case MariaDb =>
        var values := Join(Fill(batchRows, "(?)"), ",");
        var params := Fill(batchRows, payload);
        w := ValuesInsert(MariaDb, ValuesSqlPrefix + values, params);
      case MsSql =>
        var table: seq<string> := [];
        var j := 0;
        while j < batchRows
          invariant 0 <= j <= batchRows
          invariant table == Fill(j, payload)
        {
          table := table + [payload];
          j := j + 1;
        }
        w := BulkInsert(BulkTable, table);
    }
  }

  /** Chunk `k` of a partition, for a known engine, is the bulk write of slice `k`. */
  lemma ChunkWritesStep(db: string, payload: string, rows: int, batchSize: int, k: nat)
    requires rows > 0 && batchSize != 0 && k < ChunkCount(rows, batchSize) && EngineOf(db).Some?
    ensures Slice(rows, batchSize, k).Size() > 0
    ensures ChunkWrites(db, payload, rows, batchSize, k + 1)
         == ChunkWrites(db, payload, rows, batchSize, k) + [ChunkWrite(EngineOf(db).value, payload, Slice(rows, batchSize, k).Size())]
  {
    if batchSize > 0 {
      SliceNonEmpty(rows, batchSize, k);
    }
  }

  // ---------------------------------------------------------------------------
  // A failed prefix decides the whole run
  // ---------------------------------------------------------------------------

  lemma SingleRowFailureStops(db: string, payload: string, i: int, rows: int, s: DbState, rejects: set<nat>)
    requires 0 <= i <= rows
    requires Run(rejects, SingleRowWrites(db, payload, i), s).1.Some?
    ensures Run(rejects, SingleRowWrites(db, payload, rows), s) == Run(rejects, SingleRowWrites(db, payload, i), s)
  {
    assert SingleRowWrites(db, payload, i) <= SingleRowWrites(db, payload, rows);
    FailedPrefixDecides(rejects, SingleRowWrites(db, payload, i), SingleRowWrites(db, payload, rows), s);
  }

  lemma {:induction false} ChunkWritesGrow(db: string, payload: string, rows: int, batchSize: int, k: nat, m: nat)
    requires rows > 0 && batchSize != 0 && k <= m <= ChunkCount(rows, batchSize)
    ensures ChunkWrites(db, payload, rows, batchSize, k) <= ChunkWrites(db, payload, rows, batchSize, m)
    decreases m - k
  {
    if k < m {
      ChunkWritesGrow(db, payload, rows, batchSize, k, m - 1);
    }
  }

  lemma ChunkFailureStops(db: string, payload: string, rows: int, batchSize: int, k: nat, s: DbState, rejects: set<nat>)
    requires rows > 0 && batchSize != 0 && k <= ChunkCount(rows, batchSize)
    requires Run(rejects, ChunkWrites(db, payload, rows, batchSize, k), s).1.Some?
    ensures Run(rejects, BatchRowWrites(db, payload, rows, batchSize), s) == Run(rejects, ChunkWrites(db, payload, rows, batchSize, k), s)
  {
    ChunkWritesGrow(db, payload, rows, batchSize, k, ChunkCount(rows, batchSize));
    FailedPrefixDecides(rejects, ChunkWrites(db, payload, rows, batchSize, k), BatchRowWrites(db, payload, rows, batchSize), s);
  }

}

/**
 * `IngestController.ingest` of nest-ingest: it checks the `db` and `method`
 * query parameters against their allowed values, parses the numeric ones
 * with `parseInt(_, 10)` after applying their defaults, and hands the
 * request to the service.
 */
module IngestController {
  import opened Wrappers
  import opened JsText
  import opened HttpErrors
  import Service = IngestService

  /** The query string: each parameter as sent, `None` when it is absent. */
  datatype IngestQuery = IngestQuery(
    db: Option<string>, rows: Option<string>, payloadBytes: Option<string>,
    concurrency: Option<string>, insertMethod: Option<string>, batchSize: Option<string>)

  const ValidDbs: seq<string> := ["postgres", "mysql", "mariadb", "mssql"]
  const ValidMethods: seq<string> := ["single", "batch"]

  function InvalidDbMessage(): string {
    "Invalid db. Must be one of: " + Join(ValidDbs, ", ")
  }

  function InvalidMethodMessage(): string {
    "Invalid method. Must be one of: " + Join(ValidMethods, ", ")
  }

  /** The `db` message lists the four engines, separated by `", "`. */
  lemma DbMessage()
    ensures InvalidDbMessage()
         == "Invalid db. Must be one of: " + "postgres" + ", " + "mysql" + ", " + "mariadb" + ", " + "mssql"
  {
    var sep := ", ";
    JoinSnoc(["postgres"], "mysql", sep);
    JoinSnoc(["postgres", "mysql"], "mariadb", sep);
    JoinSnoc(["postgres", "mysql", "mariadb"], "mssql", sep);
    assert ["postgres", "mysql", "mariadb"] + ["mssql"] == ValidDbs;
  }

  /** The `method` message lists `single` and `batch`, separated by `", "`. */
  lemma MethodMessage()
    ensures InvalidMethodMessage() == "Invalid method. Must be one of: " + "single" + ", " + "batch"
  {
    JoinSnoc(["single"], "batch", ", ");
    assert ["single"] + ["batch"] == ValidMethods;
  }

  lemma JoinSnoc(parts: seq<string>, p: string, sep: string)
    requires parts != []
    ensures Join(parts + [p], sep) == Join(parts, sep) + sep + p
  {
    assert (parts + [p])[..|parts|] == parts;
  }

  /**
   * The checks `ingest` makes before calling the service, and the parameters
   * it builds. The `db` is checked first, so a request wrong in both is
   * refused for its `db`; a missing `db` is never valid; the other parameters
   * default to `rows = '100'`, `payloadBytes = '256'`, `concurrency = '1'`,
   * `method = 'single'` and `batchSize = '100'`, and are parsed without any
   * further check, so a number that does not parse reaches the service as NaN.
   */
  function Validate(q: IngestQuery): (r: Result<Service.IngestParams, HttpException>)
    ensures r.Success? <==> q.db.Some? && q.db.value in ValidDbs && q.insertMethod.GetOr("single") in ValidMethods
    ensures (q.db.None? || q.db.value !in ValidDbs) ==> r == Failure(BadRequest(Text(InvalidDbMessage())))
    ensures q.db.Some? && q.db.value in ValidDbs && q.insertMethod.GetOr("single") !in ValidMethods ==>
      r == Failure(BadRequest(Text(InvalidMethodMessage())))
    ensures r.Success? ==>
      && r.value.db == q.db.value
      && r.value.insertMethod == q.insertMethod.GetOr("single")
      && r.value.rows == ParseInt(q.rows.GetOr("100"))
      && r.value.payloadBytes == ParseInt(q.payloadBytes.GetOr("256"))
      && r.value.concurrency == ParseInt(q.concurrency.GetOr("1"))
      && r.value.batchSize == ParseInt(q.batchSize.GetOr("100"))
  {
    if q.db.None? || q.db.value !in ValidDbs then
      Failure(BadRequest(Text(InvalidDbMessage())))
    else
      var insertMethod := q.insertMethod.GetOr("single");
      if insertMethod !in ValidMethods then
        Failure(BadRequest(Text(InvalidMethodMessage())))
      else
        Success(Service.IngestParams(
          q.db.value,
          ParseInt(q.rows.GetOr("100")),
          ParseInt(q.payloadBytes.GetOr("256")),
          ParseInt(q.concurrency.GetOr("1")),
          insertMethod,
          ParseInt(q.batchSize.GetOr("100"))))
  }

  /** A valid `db` is exactly one the service has a connection for. */
  lemma ValidDbsHaveEngines(db: string)
    ensures db in ValidDbs <==> Service.EngineOf(db).Some?
  {
  }

  /** The defaults parse to the numbers they spell: a request with only a `db` asks for 100 rows of 256 bytes, one worker, one-row inserts. */
  lemma Defaults(db: string)
    requires db in ValidDbs
    ensures Validate(IngestQuery(Some(db), None, None, None, None, None))
         == Success(Service.IngestParams(db, Int(100), Int(256), Int(1), "single", Int(100)))
  {
    DefaultNumbers();
  }

  /** The default strings `'100'`, `'256'` and `'1'` parse to 100, 256 and 1. */
  lemma DefaultNumbers()
    ensures ParseInt("100") == Int(100) && ParseInt("256") == Int(256) && ParseInt("1") == Int(1)
  {
    DigitsOfOne();
    ParseDigits("1");
    DigitsSnoc("1", '0');
    assert "1" + ['0'] == "10";
    DigitsSnoc("10", '0');
    assert "10" + ['0'] == "100";
    ParseDigits("100");
    DigitsOf256();
  }

  lemma DigitsOfOne()
    ensures AllDigits("1") && DigitsValue("1") == 1
  {
    DigitsSnoc([], '1');
    assert [] + ['1'] == "1";
  }

  lemma DigitsOf256()
    ensures ParseInt("256") == Int(256)
  {
    DigitsSnoc([], '2');
    assert [] + ['2'] == "2";
    assert DigitsValue("2") == 2;
    DigitsSnoc("2", '5');
    assert "2" + ['5'] == "25";
    assert DigitsValue("25") == 25;
    DigitsSnoc("25", '6');
    assert "25" + ['6'] == "256";
    assert DigitsValue("256") == 256;
    ParseDigits("256");
  }

  lemma DigitsSnoc(d: string, c: char)
    requires AllDigits(d) && IsDigit(c)
    ensures AllDigits(d + [c]) && DigitsValue(d + [c]) == DigitsValue(d) * 10 + DigitValue(c)
  {
    assert (d + [c])[..|d|] == d;
  }

  lemma ParseDigits(digits: string)
    requires digits != [] && AllDigits(digits)
    ensures ParseInt(digits) == Int(DigitsValue(digits))
  {
    ParseSignedDigits(false, digits);
    assert "" + digits == digits;
  }

  /** The query that spells out the parameters `p` with `String(n)` for each number. */
  function QueryOf(p: Service.IngestParams): IngestQuery
    requires p.rows.Int? && p.payloadBytes.Int? && p.concurrency.Int? && p.batchSize.Int?
  {
    IngestQuery(Some(p.db), Some(IntToString(p.rows.value)), Some(IntToString(p.payloadBytes.value)),
                Some(IntToString(p.concurrency.value)), Some(p.insertMethod), Some(IntToString(p.batchSize.value)))
  }

  /**
   * Every request of allowed `db` and `method` and integer parameters can be
   * sent: its decimal spelling validates back to it. Negative numbers are
   * among them, since the controller does not check signs.
   */
  lemma {:induction false} QueryRoundTrip(p: Service.IngestParams)
    requires p.rows.Int? && p.payloadBytes.Int? && p.concurrency.Int? && p.batchSize.Int?
    requires p.db in ValidDbs && p.insertMethod in ValidMethods
    ensures Validate(QueryOf(p)) == Success(p)
  {
    ParseIntToString(p.rows.value);
    ParseIntToString(p.payloadBytes.value);
    ParseIntToString(p.concurrency.value);
    ParseIntToString(p.batchSize.value);
  }

  /** What `ingest` answers: a refused request, a failure of the service, or the service's result. */
  datatype IngestError = Invalid(exception: HttpException) | Failed(cause: Service.IngestError)

  /**
   * `ingest(...)`: a request that fails validation is refused before the
   * service sees it, and nothing changes; any other is passed to
   * `performIngestion`, whose result or failure is returned unchanged, and
   * whose effect on the database and the metrics is the request's effect.
   */
  method Ingest(service: Service.IngestService, q: IngestQuery, duration: nat)
    returns (r: Result<Service.IngestResult, IngestError>)
    requires service.Valid()
    requires Validate(q).Success? ==> Service.Admissible(Validate(q).value)
    modifies service, service.database
    ensures service.Valid()
    ensures Validate(q).Failure? ==> r == Failure(Invalid(Validate(q).error)) && unchanged(service, service.database)
    ensures Validate(q).Success? ==>
      var p := Validate(q).value;
      && (p.payloadBytes.value < 0 ==>
            r == Failure(Failed(Service.InvalidRepeatCount)) && unchanged(service, service.database))
      && (p.payloadBytes.value >= 0 ==>
            var labels := Service.Labels(p.db, p.insertMethod);
            var run := Service.Run(service.database.rejects, Service.IngestPlan(p, Repeat("x", p.payloadBytes.value)),
                                   old(service.database.State()));
            && service.database.State() == run.0
            && service.inflight == old(service.inflight)[labels := Service.Value(old(service.inflight), labels)]
            && (run.1.None? ==>
                  && r == Success(Service.IngestResult(true, p.rows.value, duration, p.db, p.insertMethod,
                                                       if p.insertMethod == "batch" then p.batchSize.value else 1))
                  && service.rowsTotal == Service.Add(old(service.rowsTotal), labels, p.rows.value)
                  && service.latency == Service.Observe(old(service.latency),
                       Service.LatencyLabels(p.db, p.insertMethod, IntToString(p.batchSize.value)), duration)
                  && service.failures == old(service.failures))
            && (run.1.Some? ==>
                  && r == Failure(Failed(Service.WriteFailed(run.1.value)))
                  && service.failures == Service.Add(old(service.failures), labels, 1)
                  && service.rowsTotal == old(service.rowsTotal)
                  && service.latency == old(service.latency)))
  {
    var params := Validate(q);
    if params.Failure? {
      return Failure(Invalid(params.error));
    }
    var result := service.PerformIngestion(params.value, duration);
    if result.Failure? {
      return Failure(Failed(result.error));
    }
    r := Success(result.value);
  }
}

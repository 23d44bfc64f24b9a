/**
 * The three routes end to end: the gate, the database call (a parameter), the records
 * and, for `/pdf`, the table layout. Responses are abstract: a status and what the body carries.
 */
module Service {
  import opened Wrappers
  import opened RecordMaps
  import opened Report
  import G = Gate

  /** The text `/` answers with. */
  const OnlineText := "\U{1F680} API Firebird est\U{E1} online!"

  /** What the database returns for a statement: the column names and the rows, or the driver's error text. */
  datatype Fetch<V> = Fetched(columns: seq<string>, rows: seq<seq<V>>) | DbError(message: string)

  /** The responses of the service. */
  datatype Response<V> =
    | NotAuthorized                          // 401 {"error": "Unauthorized"}
    | InvalidRequest(message: string)        // 400 {"error": message}
    | InternalError(message: string)         // 500 {"error": the exception's text}
    | HomeText(text: string)                 // 200 plain text
    | JsonRecords(records: seq<map<string, V>>) // 200 JSON array of objects
    | PdfDocument(lines: seq<Line>)          // 200 application/pdf attachment relatorio.pdf

  /** `/query` after the gate: the records of the fetched rows, or the database error. */
  function QueryResponse<V>(fetch: Fetch<V>): (r: Response<V>)
    ensures fetch.DbError? ==> r == InternalError(fetch.message)
    ensures fetch.Fetched? ==> r.JsonRecords? && |r.records| == |fetch.rows|
  {
    RecordsInFetchOrderOf(fetch);
    match fetch
    case DbError(e) => InternalError(e)
    case Fetched(columns, rows) => JsonRecords(Records(columns, rows))
  }

  /** `/pdf` after the gate: the table of the fetched rows, or the database or formatting error. */
  function PdfResponse<V>(fetch: Fetch<V>, show: V -> string, money: V -> Result<string, string>): (r: Response<V>)
    ensures fetch.DbError? ==> r == InternalError(fetch.message)
    ensures r.InternalError? || r.PdfDocument?
    ensures r.PdfDocument? ==> fetch.Fetched? && |r.lines| == |fetch.rows| + 1 && r.lines[0] == HeaderLine()
  {
    RecordsInFetchOrderOf(fetch);
    match fetch
    case DbError(e) => InternalError(e)
    case Fetched(columns, rows) =>
      match Layout(Records(columns, rows), show, money)
      case Failure(e) => InternalError(e)
      case Success(lines) => PdfDocument(lines)
  }

  /** The record count of a fetched result, for the contracts above. */
  lemma RecordsInFetchOrderOf<V>(fetch: Fetch<V>)
    ensures fetch.Fetched? ==> |Records(fetch.columns, fetch.rows)| == |fetch.rows|
  {
    if fetch.Fetched? {
      RecordsInFetchOrder(fetch.columns, fetch.rows);
    }
  }

  /**
   * One request: the gate runs first for every route; only an accepted request reaches its handler,
   * and the handler hands the statement to `db` exactly as it arrived.
   */
  function Handle<V>(req: G.Request, token: string, db: string -> Fetch<V>,
                     show: V -> string, money: V -> Result<string, string>): (r: Response<V>)
    ensures r.NotAuthorized? <==> G.Gate(req, token).Unauthorized?
    ensures r.InvalidRequest? <==> G.Gate(req, token).BadRequest?
    ensures r.InvalidRequest? ==> r.message == G.Gate(req, token).message
    ensures r.HomeText? <==> G.Gate(req, token).Accepted? && req.route.Home?
  {
    match G.Gate(req, token)
    case Unauthorized => NotAuthorized
    case BadRequest(m) => InvalidRequest(m)
    case Accepted =>
      match req.route
      case Home => HomeText(OnlineText)
      case Query(sql) => QueryResponse(db(sql.value))
      case Pdf(sql) => PdfResponse(db(sql.value), show, money)
  }

  /** A request the gate turns away gets the same answer whatever the database would have said. */
  lemma RejectedBeforeDatabase<V>(req: G.Request, token: string, db1: string -> Fetch<V>, db2: string -> Fetch<V>,
                                  show: V -> string, money: V -> Result<string, string>)
    requires !G.Gate(req, token).Accepted?
    ensures Handle(req, token, db1, show, money) == Handle(req, token, db2, show, money)
    ensures Handle(req, token, db1, show, money).NotAuthorized? || Handle(req, token, db1, show, money).InvalidRequest?
  {
  }

  /** `/query` and `/pdf` reject the same statements with the same message. */
  lemma QueryAndPdfAgree<V>(sql: Option<string>, header: Option<string>, token: string, db: string -> Fetch<V>,
                            show: V -> string, money: V -> Result<string, string>)
    ensures Handle(G.Request(G.Query(sql), header), token, db, show, money).InvalidRequest? <==>
            Handle(G.Request(G.Pdf(sql), header), token, db, show, money).InvalidRequest?
    ensures Handle(G.Request(G.Query(sql), header), token, db, show, money).InvalidRequest? ==>
            Handle(G.Request(G.Query(sql), header), token, db, show, money) ==
            Handle(G.Request(G.Pdf(sql), header), token, db, show, money)
  {
    G.SameValidation(sql, header, token);
  }

  /** An accepted `/query` answers with one record per fetched row, in fetch order, from the statement as sent. */
  lemma QueryAnswer<V>(s: string, header: Option<string>, token: string, db: string -> Fetch<V>,
                       show: V -> string, money: V -> Result<string, string>)
    requires G.Gate(G.Request(G.Query(Some(s)), header), token).Accepted? && db(s).Fetched?
    ensures var r := Handle(G.Request(G.Query(Some(s)), header), token, db, show, money);
      && r.JsonRecords?
      && |r.records| == |db(s).rows|
      && forall i :: 0 <= i < |db(s).rows| ==> r.records[i] == Record(db(s).columns, db(s).rows[i])
  {
    RecordsInFetchOrder(db(s).columns, db(s).rows);
  }

  /**
   * An accepted `/pdf` whose prices all format answers with the header line and one line per fetched row;
   * an empty result still gets a document (the header line alone), not an error.
   */
  lemma PdfAnswer<V>(s: string, header: Option<string>, token: string, db: string -> Fetch<V>,
                     show: V -> string, money: V -> Result<string, string>)
    requires G.Gate(G.Request(G.Pdf(Some(s)), header), token).Accepted? && db(s).Fetched?
    requires forall i :: 0 <= i < |db(s).rows| ==> PriceText(Record(db(s).columns, db(s).rows[i]), money).Success?
    ensures var r := Handle(G.Request(G.Pdf(Some(s)), header), token, db, show, money);
      && r.PdfDocument?
      && |r.lines| == |db(s).rows| + 1
      && r.lines[0] == HeaderLine()
      && forall i :: 0 <= i < |db(s).rows| ==>
           RowLine(Record(db(s).columns, db(s).rows[i]), show, money) == Success(r.lines[i + 1])
  {
    var f := db(s);
    var recs := Records(f.columns, f.rows);
    RecordsInFetchOrder(f.columns, f.rows);
    RowsInOrder(recs, show, money);
    assert Rows(recs, show, money).Success?;
    assert Handle(G.Request(G.Pdf(Some(s)), header), token, db, show, money) == PdfResponse(f, show, money);
  }

  /** `/` answers with its text to any caller holding the token, and with 401 to everyone else. */
  lemma HomeGuarded<V>(header: Option<string>, token: string, db: string -> Fetch<V>,
                       show: V -> string, money: V -> Result<string, string>)
    ensures Handle(G.Request(G.Home, header), token, db, show, money) ==
            if header == Some("Bearer " + token) then HomeText(OnlineText) else NotAuthorized
  {
  }

  /** An accepted `/pdf` in which some fetched row's price cannot be formatted answers 500 with the first such row's format error. */
  lemma PdfFormatError<V>(s: string, header: Option<string>, token: string, db: string -> Fetch<V>,
                          show: V -> string, money: V -> Result<string, string>, k: nat)
    requires G.Gate(G.Request(G.Pdf(Some(s)), header), token).Accepted? && db(s).Fetched?
    requires k < |db(s).rows| && PriceText(Record(db(s).columns, db(s).rows[k]), money).Failure?
    ensures var r := Handle(G.Request(G.Pdf(Some(s)), header), token, db, show, money);
      && r.InternalError?
      && exists i :: 0 <= i < |db(s).rows| && PriceText(Record(db(s).columns, db(s).rows[i]), money) == Failure(r.message) &&
                        forall j :: 0 <= j < i ==> PriceText(Record(db(s).columns, db(s).rows[j]), money).Success?
  {
    var f := db(s);
    var recs := Records(f.columns, f.rows);
    RecordsInFetchOrder(f.columns, f.rows);
    RowsInOrder(recs, show, money);
    assert Rows(recs, show, money).Failure?;
    RowsFirstFailure(recs, show, money);
    assert Handle(G.Request(G.Pdf(Some(s)), header), token, db, show, money) == PdfResponse(f, show, money);
  }

  /** An accepted `/query` or `/pdf` whose database call fails answers 500 with the driver's text. */
  lemma DatabaseErrorAnswer<V>(req: G.Request, token: string, db: string -> Fetch<V>,
                               show: V -> string, money: V -> Result<string, string>)
    requires G.Gate(req, token).Accepted? && !req.route.Home?
    requires req.route.sql.Some? && db(req.route.sql.value).DbError?
    ensures Handle(req, token, db, show, money) == InternalError(db(req.route.sql.value).message)
  {
  }
}

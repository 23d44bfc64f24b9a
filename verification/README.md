# api-firebird: request gate, records and report table

This project models the deterministic core of `app.py`, a small Flask service that runs a
SQL `SELECT` sent in a query string against a Firebird database and answers with JSON
(`/query`) or a PDF table (`/pdf`), behind a static bearer token. The model covers:

- the token check that runs before every route (`check_auth`), and the two checks of the
  `sql` parameter that `/query` and `/pdf` run, in the same order, before any database work;
- the records built from a fetched result, `dict(zip(columns, row))` for each row;
- the table `generate_pdf` draws: a header line of eight fixed labels, then one line of eight
  cells per record, in record order.

Modules, one per concern of `app.py`:

| file | module | what it holds |
|---|---|---|
| `wrappers.dfy` | `Wrappers` | `Option` (Python's `None`) and `Result` (a raised error with its text) |
| `text.dfy` | `Text` | `str.strip()` and `str.startswith()` as Python defines them and `str.lower()` on ASCII letters, with their laws |
| `gate.dfy` | `Gate` | the verdict of the token check and the `sql` checks (`Unauthorized`, `BadRequest(message)`, `Accepted`) |
| `records.dfy` | `RecordMaps` | `zip`, `dict` and the list of records, one per fetched row |
| `report.dfy` | `Report` | the table's cells and lines, the drawing surface as a class, and `generate_pdf` as a method proved against the table's specification |
| `service.dfy` | `Service` | the routes end to end, with the database as a parameter |

Database values are of an arbitrary type `V`. Python's `str` on such a value is the parameter
`show`, and the two-decimal price format `:.2f` is the parameter `money`, which may fail (it raises
for a NULL or a text value, and the handler then answers 500). The database itself is the parameter
`db`, which maps the statement to its column names and rows, or to the driver's error text.

Behaviour of this revision of `app.py` worth noting, as the model has it:

- `/pdf` with an empty result answers with a document holding only the header line; this
  revision has no 404 for an empty result.
- The token check has no exempt path: `/` needs the token too.
- A record without a `PRCOBR` key shows `0.00` in the price column (the default `0`, formatted),
  not an empty cell; the other seven columns show `""` for a missing key.
- `app.py` has no grouping of rows by order and series, no totals and no HTML page.

## Model

| member | source | states |
|---|---|---|
| `Text.LeadingSpace` | app.py:35 | the count of leading whitespace: every character before it is whitespace, the one at it is not |
| `Text.TrailingSpace` | app.py:35 | the count of trailing whitespace: every character after the cut is whitespace, the one before it is not |
| `Text.Strip` | app.py:35 | `strip()` leaves no whitespace at either end, and leaves nothing exactly when the text is all whitespace |
| `Text.StripUnique` | app.py:35 | whatever whitespace surrounds a text with non-space ends, `strip()` returns exactly that text |
| `Text.StripSplits` | app.py:35 | every text is its stripped text with whitespace before and after |
| `Text.LowerChar` | app.py:35 | lower-casing a character (A-Z only) keeps whitespace as whitespace and leaves no upper-case ASCII letter |
| `Text.Lower` | app.py:35 | `lower()` on ASCII letters: keeps the length and lower-cases each character in place |
| `Text.LowerAppend` | app.py:35 | `lower()` of a concatenation is the concatenation of the lowered parts |
| `Text.LowerKeepsSpace` | app.py:35 | lower-casing a text of whitespace gives a text of whitespace |
| `Text.StartsWith` | app.py:35 | `startswith`: the prefix fits and the text's first characters are the prefix; used by `Gate.SqlVerdict`, whose acceptance `Gate.AcceptedIff` characterises |
| `Text.LowerStripCommute` | app.py:35 | stripping then lower-casing gives the same text as lower-casing then stripping |
| `Gate.Gate` | app.py:19-23 | the request is refused with Unauthorized exactly when the header is not `Bearer ` followed by the token, a missing header always is, on every route including `/`; otherwise `/` is accepted and `/query` and `/pdf` get their `sql` verdict |
| `Gate.Authorized` | app.py:21-22 | the header is present and equals `Bearer ` followed by the token; stated about every route by `Gate.Gate` and `Service.HomeGuarded` |
| `Gate.SqlVerdict` | app.py:31-36 | a missing or empty `sql` gets "SQL query is required" and nothing else does; any other refusal is "Only SELECT queries are allowed"; an accepted statement is present and starts with `select` once stripped and lower-cased |
| `Gate.SameValidation` | app.py:99-103 | `/pdf` gives every statement the verdict and message `/query` gives it |
| `Gate.WhitespaceOnlyRejected` | app.py:32-36 | a non-empty statement of whitespace only passes the presence check and is refused as not a SELECT |
| `Gate.AcceptedIff` | app.py:35 | a statement is accepted if and only if, after a run of whitespace, its next six characters spell `select` in any case |
| `Gate.AcceptedSelectAt` | app.py:35 | an accepted statement reads `select` right after its leading whitespace |
| `Gate.SelectAtAccepted` | app.py:35 | a statement reading `select` after leading whitespace passes the prefix check |
| `Gate.StripStartsWith` | app.py:35 | a word with non-space ends that follows the leading whitespace is a prefix of the stripped text |
| `Gate.PaddingInvariant` | app.py:35 | adding or removing whitespace around a non-empty statement never changes its verdict |
| `Gate.CaseInvariant` | app.py:35 | two statements that differ only in letter case get the same verdict |
| `Gate.PrefixOnly` | app.py:35 | the test is a plain prefix test: `selectfoo` is accepted |
| `Gate.MixedCaseAccepted` | app.py:102 | a mixed-case `select` surrounded by whitespace is accepted |
| `Gate.UpdateRejected` | app.py:102-103 | an `update` statement is refused with "Only SELECT queries are allowed" |
| `RecordMaps.Zip` | app.py:51 | `zip` yields min(\|columns\|, \|row\|) pairs, pair i being column i with value i |
| `RecordMaps.Dict` | app.py:51 | the keys of `dict(pairs)` are exactly the pairs' first components |
| `RecordMaps.DictLastWins` | app.py:51 | a key is bound to the value of the last pair that carries it |
| `RecordMaps.Record` | app.py:51 | `dict(zip(columns, row))`: every key is a column name; its keys and values are stated by `RecordKeys` and `RecordValue` |
| `RecordMaps.RecordKeys` | app.py:50-51 | a record's keys are exactly the names of the columns the row reaches |
| `RecordMaps.RecordValue` | app.py:117-118 | a column maps to the row's value at the column's last position within the shorter of the two |
| `RecordMaps.RecordsInFetchOrder` | app.py:51 | one record per fetched row, record i being `dict(zip(columns, rows[i]))` |
| `RecordMaps.Records` | app.py:50-51 | the record list has one map per fetched row; which map, in fetch order, is stated by `RecordsInFetchOrder` |
| `RecordMaps.RecordExamples` | app.py:118 | a repeated column keeps its later value; surplus values or surplus columns are dropped |
| `Report.Surface.constructor` | app.py:71-72 | a new surface has no lines and an empty line in progress |
| `Report.Surface.DrawCell` | app.py:80 | a cell is added at the end of the line in progress; finished lines do not change |
| `Report.Surface.Ln` | app.py:81 | the line in progress becomes the last finished line and a new empty line starts |
| `Report.HeaderLine` | app.py:75-81 | the header loop's eight cells; their labels, widths and style are stated by `Report.LayoutHeader` |
| `Report.Field` | app.py:84-90 | `str(row.get(key, ""))`: the shown value under a key, `""` when absent; stated per column by `Report.RowLineCell` |
| `Report.PriceText` | app.py:91 | the two-decimal price text, `0.00` when PRCOBR is absent, or the format error; stated by `Report.RowLineCell` and `Report.LayoutSucceeds` |
| `Report.RowLine` | app.py:84-91 | a record's line exists exactly when its price formats, otherwise the error is the price's; it has eight cells, the last showing the price text |
| `Report.Rows` | app.py:83-92 | the record lines, one per record when they exist; order and first failure stated by `Report.RowsInOrder` and `Report.RowsFirstFailure` |
| `Report.Layout` | app.py:75-92 | a produced table has one line more than there are records and starts with the header line; rows stated by `Report.LayoutRows` |
| `Report.GeneratePdf` | app.py:70-94 | the lines drawn are exactly the table of the records (header line, then one line per record), or the error of the first price that cannot be formatted |
| `Report.DrawRow` | app.py:83-92 | one record's eight cells are drawn and the line closed, or the price's format error is returned with the record's first seven cells (NRORC to UNIVOL) left on the unfinished line |
| `Report.RowsKeepFailure` | app.py:83-91 | once a record fails, the records after it are never drawn and the table fails with that record's error |
| `Report.RowsInOrder` | app.py:83-92 | the record lines exist exactly when every price formats, and then line i is record i's line |
| `Report.RowsFirstFailure` | app.py:91 | a failed table carries the error of the first record whose price cannot be formatted |
| `Report.RowLineCell` | app.py:84-91 | cell j of a record's line has the width of header column j, the record's value under key j (`""` if absent, `0.00` for an absent PRCOBR), and is right-aligned only for QUANT and PRCOBR |
| `Report.LayoutSucceeds` | app.py:91 | the table is produced exactly when every present PRCOBR value formats; otherwise the error is some record's format error |
| `Report.LayoutHeader` | app.py:75-81 | the first line is NRORC, SERIEO, DESCR, QUANT, UNIDA, VOLUME, UNIVOL, PRCOBR with widths 30, 25, 60, 20, 20, 20, 20, 20, height 10, centred, bordered and filled |
| `Report.LayoutRows` | app.py:83-92 | after the header there is one line per record in record order; cell j of line i + 1 shows record i under header key j (`""` if absent, `0.00` for an absent PRCOBR), with the header's width |
| `Service.Handle` | app.py:19-125 | 401 exactly when the gate refuses the token, 400 with the gate's message exactly when the `sql` check fails, and the home text only for an accepted `/` |
| `Service.QueryResponse` | app.py:38-57 | a database error answers 500 with its text; a fetched result answers with one record per row |
| `Service.PdfResponse` | app.py:105-125 | a database error answers 500 with its text; otherwise a document of one line more than the fetched rows, starting with the header line, or a 500 |
| `Service.RecordsInFetchOrderOf` | app.py:50-51 | a fetched result yields as many records as rows |
| `Service.DatabaseErrorAnswer` | app.py:56-57 | an accepted `/query` or `/pdf` whose database call fails answers 500 with the driver's text |
| `Service.RejectedBeforeDatabase` | app.py:31-36 | a request the gate refuses gets the same 401 or 400 whatever the database holds: the database is never reached |
| `Service.QueryAndPdfAgree` | app.py:96-103 | `/query` and `/pdf` refuse the same statements with the same response |
| `Service.QueryAnswer` | app.py:48-54 | an accepted `/query` sends the statement unchanged and answers with one record per fetched row, in fetch order |
| `Service.PdfAnswer` | app.py:115-122 | an accepted `/pdf` whose prices format answers with a document of the header line plus one line per fetched row, line i + 1 being the line of row i's record, also for an empty result |
| `Service.PdfFormatError` | app.py:121-125 | an accepted `/pdf` in which some fetched row's price cannot be formatted answers 500 with the format error of the first such row |
| `Service.HomeGuarded` | app.py:19-27 | `/` answers with its text to a holder of the token and 401 to anyone else |

## Left out

- Flask routing, `jsonify`, `Response`, status codes and `app.run`: responses are abstract constructors of `Service.Response`.
- The database (`fdb.connect`, `cursor.execute`, `fetchall`, `con.close`) and the configuration read from the environment (`DB_CONFIG`, `API_TOKEN`): the database is the parameter `db`, the token a parameter; a connection left open on an error path is not modelled.
- The `except Exception` answers: only the database error and the price-format error are modelled as 500s; errors in JSON encoding or in producing the PDF bytes are not.
- The drawing library: fonts, the fill colour (200, 220, 255), the page title and page-number footer, page breaks, the cursor position and the output bytes; the surface keeps only the cells and line breaks.
- Python's `str` on a database value and the `:.2f` format: parameters `show` and `money`, whose results are not modelled.
- Text.Lower: maps only the ASCII letters A-Z (through Text.LowerChar) and keeps the length; Python's `lower()` also maps non-ASCII letters, some to two characters, and those mappings are not modelled.
- Text.LowerChar: maps only the ASCII letters A-Z, for the same reason.
- Repeated `sql` parameters and the case-insensitive lookup of the `Authorization` header: left to the web framework.

/** The `import_reviews` management command as functions: the rows of the
    CSV file, what one row does to the database, the counters and messages
    of the loop over rows, and the descending sort on `review_date` that
    fixes their order. */
module Import {
  import opened Wrappers
  import opened Text
  import opened LexOrder
  import opened Models

  // ---------------------------------------------------------------- cells and rows

  /** A cell of the frame: its column is missing from the file, it was empty
      (pandas reads `NaN`), or it holds text. */
  datatype Cell = Absent | Blank | Filled(s: string)

  /** One row of the frame; `index` is its label, its position in the file,
      which the sort keeps. */
  datatype Row = Row(
    index: nat,
    reviewDate: Cell, reviewRating: Cell, reviewContent: Cell, firstName: Cell, lastName: Cell,
    street: Cell, city: Cell, state: Cell, zip: Cell,
    food: Cell, service: Cell, atmosphere: Cell)

  /** The frame read from the file: whether it has a `review_date` column,
      and its rows in file order. */
  datatype Frame = Frame(hasReviewDate: bool, rows: seq<Row>)

  /** `row.get(key)`: `None` for a missing column, `NaN` for an empty
      cell. */
  function CellValue(c: Cell): Value {
    match c
    case Absent => Null
    case Blank => NaN
    case Filled(s) => Str(s)
  }

  /** `str(row.get(key, ""))`: a missing column reads as "", an empty cell
      as "nan". */
  function CellText(c: Cell): string {
    match c
    case Absent => ""
    case Blank => "nan"
    case Filled(s) => s
  }

  /** An address field as the command prepares it: the cell's text,
      stripped. */
  function AddressCell(c: Cell): string {
    Strip(CellText(c))
  }

  /** The guard `all(required_fields)`: every stripped address field is
      non-empty. */
  predicate AddressFilled(row: Row) {
    AddressCell(row.street) != [] && AddressCell(row.city) != [] &&
    AddressCell(row.state) != [] && AddressCell(row.zip) != []
  }

  /** The dictionary `review_data` handed to `create_scrape_event`, with
      `date` the converted review date. Its address is always text, and it
      is complete exactly when the row passed the guard. */
  function ToEntry(row: Row, date: Value): (e: Entry)
    ensures AddressText(e)
    ensures AddressPresent(e) <==> AddressFilled(row)
  {
    Entry(
      Str(AddressCell(row.street)), Str(AddressCell(row.city)), Str(AddressCell(row.state)), Str(AddressCell(row.zip)),
      date, CellValue(row.reviewRating), CellValue(row.reviewContent),
      CellValue(row.firstName), CellValue(row.lastName),
      CellValue(row.food), CellValue(row.service), CellValue(row.atmosphere))
  }

  // ---------------------------------------------------------------- messages

  const MissingFields: string := "MISSING REQUIRED FIELDS"
  /** What unpacking the `None` of an incomplete review raises. */
  const UnpackNone: string := "cannot unpack non-iterable NoneType object"
  const HandleError: string := "Verify if business_name, source are provided & file_path is correct: "
  /** `str()` of the `KeyError` raised when the file has no `review_date`
      column. */
  const NoReviewDate: string := "'review_date'"

  function SkipMessage(index: nat, why: string): string {
    "Skipping row " + Decimal(index) + ": " + why
  }

  function Summary(success: nat, total: nat, subcategories: nat): string {
    "Successfully imported " + Decimal(success) + "/" + Decimal(total) + " reviews AND " +
    Decimal(subcategories) + " subcategory reviews"
  }

  // ---------------------------------------------------------------- one row

  /** What one row comes to: skipped with the reason written after
      "Skipping row i: ", or passed to `create_scrape_event`, whose result
      counts when it is a non-empty list, with its sub-rating count. */
  datatype RowResult = Skipped(why: string) | Imported(counted: bool, count: nat)

  /** The body of the loop for one row, with `toDate` the conversion of the
      review date to an aware datetime, which may raise. The date is
      converted first, then the address checked, then one entry upserted. */
  function ImportRow(t: Tables, row: Row, toDate: Cell -> Result<Value, string>,
                     businessName: string, source: string): (Tables, RowResult)
  {
    match toDate(row.reviewDate)
    case Err(msg) => (t, Skipped(msg))
    case Ok(date) =>
      if !AddressFilled(row) then (t, Skipped(MissingFields))
      else
        var (u, out) := CreateScrapeEvent(t, [ToEntry(row, date)], businessName, source);
        match out
        case Raised(msg) => (u, Skipped(msg))
        case ReturnedNone => (u, Skipped(UnpackNone))
        case Created(events, n) => (u, Imported(events != [], n))
  }

  /** The loop body as a function of the tables and the row. */
  function RowStep(toDate: Cell -> Result<Value, string>, businessName: string, source: string)
    : (Tables, Row) -> (Tables, RowResult)
  {
    (t, row) => ImportRow(t, row, toDate, businessName, source)
  }

  // ---------------------------------------------------------------- the loop

  /** The messages written so far, `success_count` and
      `subcategory_count`. */
  datatype Tally = Tally(log: seq<string>, success: nat, subcategories: nat)

  /** The counters after one row: a skipped row writes its warning, a
      counted one adds to both counters. */
  function Record(tally: Tally, index: nat, res: RowResult): Tally {
    match res
    case Skipped(why) => tally.(log := tally.log + [SkipMessage(index, why)])
    case Imported(counted, n) =>
      if counted then tally.(success := tally.success + 1, subcategories := tally.subcategories + n)
      else tally
  }

  /** The `for index, row in df.iterrows()` loop over the rows still to
      come: every row is processed, whatever the rows before it did. */
  function ImportRows(t: Tables, rows: seq<Row>, step: (Tables, Row) -> (Tables, RowResult), tally: Tally)
    : (Tables, Tally)
    decreases |rows|
  {
    if rows == [] then (t, tally)
    else
      var (u, res) := step(t, rows[0]);
      ImportRows(u, rows[1..], step, Record(tally, rows[0].index, res))
  }

  /** `import_data(df, business_name, source)`: the loop from zero
      counters, then the summary line. */
  function ImportData(t: Tables, rows: seq<Row>, toDate: Cell -> Result<Value, string>,
                      businessName: string, source: string): (Tables, Tally)
  {
    var (u, tally) := ImportRows(t, rows, RowStep(toDate, businessName, source), Tally([], 0, 0));
    (u, tally.(log := tally.log + [Summary(tally.success, |rows|, tally.subcategories)]))
  }

  // ---------------------------------------------------------------- the order of the rows

  /** Whether a row dated `a` may come before one dated `b` when sorting on
      `review_date` in descending order: dates compare as text, and empty
      dates go last. */
  predicate DateFirst(a: Cell, b: Cell) {
    match (a, b)
    case (Filled(x), Filled(y)) => LexLe(y, x)
    case (Filled(_), _) => true
    case (_, Filled(_)) => false
    case _ => true
  }

  predicate DateSorted(rows: seq<Row>) {
    forall i, j :: 0 <= i < j < |rows| ==> DateFirst(rows[i].reviewDate, rows[j].reviewDate)
  }

  /** `row` placed before the first row it may precede. */
  function Insert(row: Row, rows: seq<Row>): (r: seq<Row>)
    ensures multiset(r) == multiset(rows) + multiset{row}
    decreases |rows|
  {
    if rows == [] || DateFirst(row.reviewDate, rows[0].reviewDate) then [row] + rows
    else
      assert rows == [rows[0]] + rows[1..];
      [rows[0]] + Insert(row, rows[1..])
  }

  /** `df.sort_values(by="review_date", ascending=False)`, rows with equal
      dates kept in file order. */
  function SortByDate(rows: seq<Row>): (r: seq<Row>)
    ensures multiset(r) == multiset(rows)
    decreases |rows|
  {
    if rows == [] then []
    else
      assert rows == [rows[0]] + rows[1..];
      Insert(rows[0], SortByDate(rows[1..]))
  }

  /** `handle`: sort the frame, then import it; without a `review_date`
      column the sort raises and only the error is written. */
  function Handle(t: Tables, frame: Frame, toDate: Cell -> Result<Value, string>,
                  businessName: string, source: string): (Tables, seq<string>)
  {
    if !frame.hasReviewDate then (t, [HandleError + NoReviewDate])
    else
      var (u, tally) := ImportData(t, SortByDate(frame.rows), toDate, businessName, source);
      (u, tally.log)
  }
}

/** The `import_reviews` management command as an object: it holds the
    database it writes to and the lines it has written to standard output.
    Each method is proved to leave exactly the tables and the output of the
    function of the same name in `Import`, so every property proved there
    holds of the command. */
module ImportReviews {
  import opened Wrappers
  import opened Models
  import opened Import
  import opened Database

  /** A turn of the loop over `rows[i..]`: the rest of the loop runs from
      the step's tables with the row's result recorded. */
  lemma RowsGoOn(t: Tables, u: Tables, rows: seq<Row>, i: nat, step: (Tables, Row) -> (Tables, RowResult),
                 tally: Tally, res: RowResult)
    requires i < |rows| && step(t, rows[i]) == (u, res)
    ensures ImportRows(t, rows[i..], step, tally) == ImportRows(u, rows[i + 1..], step, Record(tally, rows[i].index, res))
  {
    assert rows[i..][0] == rows[i] && rows[i..][1..] == rows[i + 1..];
  }

  /** `step` is the loop body `ImportRow` for this date conversion, business
      and source. The trigger keeps the loop from unfolding the body for
      rows it has not reached. */
  ghost predicate StepIsRowAt(step: (Tables, Row) -> (Tables, RowResult), toDate: Cell -> Result<Value, string>,
                              businessName: string, source: string) {
    forall t, row {:trigger Import.ImportRow(t, row, toDate, businessName, source)} ::
      step(t, row) == Import.ImportRow(t, row, toDate, businessName, source)
  }

  class Command {
    /** The database behind `ScrapeEvent.objects`. */
    const db: Database
    /** The lines written to `self.stdout`, oldest first. */
    var stdout: seq<string>

    constructor(db: Database)
      ensures this.db == db && stdout == []
    {
      this.db := db;
      stdout := [];
    }

    /** The `try` block for one row: convert the date, check the address,
        create the records. */
    method ImportRow(row: Row, toDate: Cell -> Result<Value, string>, businessName: string, source: string)
      returns (res: RowResult)
      modifies db
      ensures (db.State(), res) == Import.ImportRow(old(db.State()), row, toDate, businessName, source)
    {
      var date := toDate(row.reviewDate);
      if date.Err? {
        return Skipped(date.error);
      }
      if !AddressFilled(row) {
        return Skipped(MissingFields);
      }
      var out := db.CreateScrapeEvent([ToEntry(row, date.value)], businessName, source);
      match out
      case Raised(msg) =>
        res := Skipped(msg);
      case ReturnedNone =>
        res := Skipped(UnpackNone);
      case Created(events, n) =>
        res := Imported(events != [], n);
    }

    /** `ImportRow`, stated through the step function of the loop. */
    method Turn(row: Row, toDate: Cell -> Result<Value, string>, businessName: string, source: string,
                ghost step: (Tables, Row) -> (Tables, RowResult)) returns (res: RowResult)
      requires StepIsRowAt(step, toDate, businessName, source)
      modifies db
      ensures (db.State(), res) == step(old(db.State()), row)
    {
      res := ImportRow(row, toDate, businessName, source);
    }

    /** `import_data(df, business_name, source)`: the loop over the rows,
        then the summary line. */
    method ImportData(rows: seq<Row>, toDate: Cell -> Result<Value, string>, businessName: string, source: string)
      modifies this, db
      ensures var (u, tally) := Import.ImportData(old(db.State()), rows, toDate, businessName, source);
        db.State() == u && stdout == old(stdout) + tally.log
    {
      ghost var step := RowStep(toDate, businessName, source);
      assert StepIsRowAt(step, toDate, businessName, source);
      var successCount, subcategoryCount := ImportRows(rows, toDate, businessName, source, step);
      stdout := stdout + [Summary(successCount, |rows|, subcategoryCount)];
    }

    /** The `for index, row in df.iterrows()` loop: every row in turn, a
        warning for each row skipped, the counters for each row counted. */
    method ImportRows(rows: seq<Row>, toDate: Cell -> Result<Value, string>, businessName: string, source: string,
                      ghost step: (Tables, Row) -> (Tables, RowResult))
      returns (successCount: nat, subcategoryCount: nat)
      requires StepIsRowAt(step, toDate, businessName, source)
      modifies this, db
      ensures var (u, tally) := Import.ImportRows(old(db.State()), rows, step, Tally([], 0, 0));
        && db.State() == u && stdout == old(stdout) + tally.log
        && successCount == tally.success && subcategoryCount == tally.subcategories
    {
      ghost var t0 := db.State();
      ghost var written: seq<string> := [];
      successCount, subcategoryCount := 0, 0;
      var i := 0;
      assert rows[i..] == rows;
      while i < |rows|
        invariant i <= |rows|
        invariant stdout == old(stdout) + written
        invariant Import.ImportRows(db.State(), rows[i..], step, Tally(written, successCount, subcategoryCount)) ==
                  Import.ImportRows(t0, rows, step, Tally([], 0, 0))
      {
        ghost var before := db.State();
        var res := Turn(rows[i], toDate, businessName, source, step);
        RowsGoOn(before, db.State(), rows, i, step, Tally(written, successCount, subcategoryCount), res);
        match res {
          case Skipped(why) =>
            stdout := stdout + [SkipMessage(rows[i].index, why)];
            written := written + [SkipMessage(rows[i].index, why)];
          case Imported(counted, n) =>
            if counted {
              successCount := successCount + 1;
              subcategoryCount := subcategoryCount + n;
            }
        }
        i := i + 1;
      }
    }

    /** `handle`: without a `review_date` column the sort raises and only
        the error is written; otherwise the rows are imported newest
        first. */
    method Handle(frame: Frame, toDate: Cell -> Result<Value, string>, businessName: string, source: string)
      modifies this, db
      ensures var (u, log) := Import.Handle(old(db.State()), frame, toDate, businessName, source);
        db.State() == u && stdout == old(stdout) + log
    {
      if !frame.hasReviewDate {
        stdout := stdout + [HandleError + NoReviewDate];
        return;
      }
      ImportData(SortByDate(frame.rows), toDate, businessName, source);
    }
  }
}

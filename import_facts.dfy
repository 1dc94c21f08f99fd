/** What the import command promises: which rows reach the database and
    why the others are skipped, the bounds of its counters, the summary it
    ends with, the validity of the tables it leaves, and the order it
    imports the rows in. */
module ImportFacts {
  import opened Wrappers
  import opened Text
  import opened LexOrder
  import opened Models
  import opened ModelsFacts
  import opened ModelsValid
  import opened Import

  // ---------------------------------------------------------------- cells

  /** An empty or missing sub-rating cell is not a present rating, so no
      sub-review is written for it. */
  lemma BlankRatingAbsent(c: Cell)
    ensures PresentRating(CellValue(c)) <==> c.Filled? && c.s != "" && c.s != "null"
  {
  }

  /** An empty address cell reads as the text "nan", which is not empty: with
      the other address fields filled, the row passes the address guard and
      is imported with the zip "nan". */
  lemma BlankZipPasses(row: Row, date: Value)
    requires AddressCell(row.street) != [] && AddressCell(row.city) != [] && AddressCell(row.state) != []
    requires row.zip == Blank
    ensures AddressFilled(row)
    ensures ToEntry(row, date).zip == Str("nan")
  {
    assert CellText(row.zip) == "nan";
    StripLeftNoop("nan");
    StripRightNoop("nan");
  }

  // ---------------------------------------------------------------- one row

  /** At most one sub-rating per rating. */
  lemma {:induction false} PresentCountBound(vs: seq<Value>)
    ensures PresentCount(vs) <= |vs|
    decreases |vs|
  {
    if vs != [] {
      PresentCountBound(vs[1..]);
    }
  }

  /** A row that reaches `create_scrape_event` and comes back with events is
      counted, with the number of its present sub-ratings, at most three. */
  lemma ImportRowCounts(t: Tables, row: Row, toDate: Cell -> Result<Value, string>, businessName: string, source: string)
    ensures var r := ImportRow(t, row, toDate, businessName, source);
      r.1.Imported? ==>
        && toDate(row.reviewDate).Ok? && AddressFilled(row) && r.1.counted
        && r.1.count == PresentCount(Ratings(ToEntry(row, toDate(row.reviewDate).value)))
        && r.1.count <= 3
  {
    if toDate(row.reviewDate).Ok? && AddressFilled(row) {
      OneEntryCreated(t, ToEntry(row, toDate(row.reviewDate).value), businessName, source);
    }
  }

  /** One entry that goes through gives one event and its present
      sub-ratings, at most three. */
  lemma OneEntryCreated(t: Tables, e: Entry, businessName: string, source: string)
    ensures var out := CreateScrapeEvent(t, [e], businessName, source).1;
      out.Created? ==>
        |out.events| == 1 && out.subcategoryCount == PresentCount(Ratings(e)) && out.subcategoryCount <= 3
  {
    CreateScrapeEventCreated(t, [e], businessName, source);
    assert [e][1..] == [];
    assert TotalPresent([e]) == PresentCount(Ratings(e));
    PresentCountBound(Ratings(e));
  }

  /** A row changes the database only when its date converts and its
      address is filled in; one whose date converts but whose address has
      a blank field is skipped as missing required fields. */
  lemma {:induction false} ImportRowWrites(t: Tables, row: Row, toDate: Cell -> Result<Value, string>, businessName: string, source: string)
    ensures var r := ImportRow(t, row, toDate, businessName, source);
      r.0 != t ==> toDate(row.reviewDate).Ok? && AddressFilled(row)
    ensures toDate(row.reviewDate).Ok? && !AddressFilled(row) ==>
      ImportRow(t, row, toDate, businessName, source) == (t, Skipped(MissingFields))
  {
  }

  /** The loop over a single entry: the entry's step decides the outcome. */
  lemma {:induction false} OneEntryLoop(t: Tables, e: Entry, step: (Tables, Entry) -> (Tables, Step), events: seq<nat>, count: nat)
    ensures ProcessEntries(t, [e], step, events, count) ==
      match step(t, e).1
      case Stop(outcome) => (step(t, e).0, outcome)
      case Next(event, n) => (step(t, e).0, Created(events + [event], count + n))
  {
    assert [e][0] == e;
    assert [e][1..] == [];
  }

  /** One complete entry raises only for a missing business name, a missing
      source or a store id already taken. */
  lemma OneEntryRaises(t: Tables, e: Entry, businessName: string, source: string)
    requires AddressPresent(e) && AddressText(e)
    ensures var out := CreateScrapeEvent(t, [e], businessName, source).1;
      out.Raised? ==> out.message in {NoBusinessName, NoSource, DuplicateStoreId}
  {
    if businessName != [] && source != [] {
      var (b, t1) := UpsertBusiness(t, BusinessName(businessName));
      var (subs, t2) := EnsureSubcategories(t1);
      var name := t1.businesses[b];
      var step := EntryStep(b, name, SourceName(source), subs);
      OneEntryLoop(t2, e, step, [], 0);
      var r := ProcessEntry(t2, e, b, name, SourceName(source), subs);
      assert step(t2, e) == r;
      var key := AddressKey(e, b);
      assert UpsertStore(t2, key, name).Err? ==> UpsertStore(t2, key, name).error == DuplicateStoreId;
    }
  }

  /** Once its date converts, a row is skipped for missing address fields,
      a missing business name or source, a store id already taken, or an
      incomplete review; never for an incomplete or non-text address inside
      `create_scrape_event`. */
  lemma SkipReasons(t: Tables, row: Row, toDate: Cell -> Result<Value, string>, businessName: string, source: string)
    requires toDate(row.reviewDate).Ok?
    ensures var r := ImportRow(t, row, toDate, businessName, source);
      r.1.Skipped? ==> r.1.why in {MissingFields, NoBusinessName, NoSource, DuplicateStoreId, UnpackNone}
  {
    if AddressFilled(row) {
      OneEntryRaises(t, ToEntry(row, toDate(row.reviewDate).value), businessName, source);
    }
  }

  // ---------------------------------------------------------------- the loop

  /** A row step whose imported rows are counted, with at most three
      sub-ratings each. */
  ghost predicate CountsAtMostThree(step: (Tables, Row) -> (Tables, RowResult)) {
    forall t, row :: step(t, row).1.Imported? ==> step(t, row).1.counted && step(t, row).1.count <= 3
  }

  lemma RowStepCounts(toDate: Cell -> Result<Value, string>, businessName: string, source: string)
    ensures CountsAtMostThree(RowStep(toDate, businessName, source))
  {
    forall t, row ensures
      var r := RowStep(toDate, businessName, source)(t, row);
      r.1.Imported? ==> r.1.counted && r.1.count <= 3
    {
      ImportRowCounts(t, row, toDate, businessName, source);
    }
  }

  /** Every row is either counted or reported: the warnings already written
      stay, each row adds one warning or one success, and each success adds
      at most three sub-ratings. */
  lemma {:induction false} ImportRowsTally(t: Tables, rows: seq<Row>, step: (Tables, Row) -> (Tables, RowResult), tally: Tally)
    requires CountsAtMostThree(step)
    ensures var out := ImportRows(t, rows, step, tally).1;
      && tally.success <= out.success
      && |out.log| + out.success == |tally.log| + tally.success + |rows|
      && out.subcategories <= tally.subcategories + 3 * (out.success - tally.success)
      && |tally.log| <= |out.log| && out.log[..|tally.log|] == tally.log
    decreases |rows|
  {
    if rows != [] {
      var (u, res) := step(t, rows[0]);
      var next := Record(tally, rows[0].index, res);
      ImportRowsTally(u, rows[1..], step, next);
      var out := ImportRows(u, rows[1..], step, next).1;
      assert out.log[..|tally.log|] == out.log[..|next.log|][..|tally.log|];
    }
  }

  /** Unlike the loop of `create_scrape_event`, this loop never stops early:
      whatever the rows before did, the rows after them are processed from
      the tables and counters they left. */
  lemma {:induction false} ImportRowsSplit(t: Tables, rows: seq<Row>, more: seq<Row>,
                                           step: (Tables, Row) -> (Tables, RowResult), tally: Tally)
    ensures var mid := ImportRows(t, rows, step, tally);
      ImportRows(t, rows + more, step, tally) == ImportRows(mid.0, more, step, mid.1)
    decreases |rows|
  {
    if rows == [] {
      assert rows + more == more;
    } else {
      assert (rows + more)[0] == rows[0] && (rows + more)[1..] == rows[1..] + more;
      var (u, res) := step(t, rows[0]);
      ImportRowsSplit(u, rows[1..], more, step, Record(tally, rows[0].index, res));
    }
  }

  /** `import_data` reports at most as many successes as rows, at most three
      sub-ratings per success, one warning per row not counted, and ends
      with the summary of its counters. */
  lemma ImportDataReport(t: Tables, rows: seq<Row>, toDate: Cell -> Result<Value, string>, businessName: string, source: string)
    ensures var out := ImportData(t, rows, toDate, businessName, source).1;
      && out.success <= |rows|
      && out.subcategories <= 3 * out.success
      && |out.log| == |rows| - out.success + 1
      && out.log[|out.log| - 1] == Summary(out.success, |rows|, out.subcategories)
  {
    RowStepCounts(toDate, businessName, source);
    ImportRowsTally(t, rows, RowStep(toDate, businessName, source), Tally([], 0, 0));
  }

  // ---------------------------------------------------------------- validity

  /** A property of the tables that every row step keeps. */
  ghost predicate RowStepKeeps(step: (Tables, Row) -> (Tables, RowResult), inv: Tables -> bool) {
    forall t, row :: inv(t) ==> inv(step(t, row).0)
  }

  lemma {:induction false} ImportRowsKeeps(t: Tables, rows: seq<Row>, step: (Tables, Row) -> (Tables, RowResult),
                                           tally: Tally, inv: Tables -> bool)
    requires inv(t) && RowStepKeeps(step, inv)
    ensures inv(ImportRows(t, rows, step, tally).0)
    decreases |rows|
  {
    if rows != [] {
      var (u, res) := step(t, rows[0]);
      ImportRowsKeeps(u, rows[1..], step, Record(tally, rows[0].index, res), inv);
    }
  }

  lemma RowStepValid(toDate: Cell -> Result<Value, string>, businessName: string, source: string)
    ensures RowStepKeeps(RowStep(toDate, businessName, source), Valid)
  {
    forall t, row | Valid(t) ensures Valid(RowStep(toDate, businessName, source)(t, row).0) {
      if toDate(row.reviewDate).Ok? && AddressFilled(row) {
        CreateScrapeEventValid(t, [ToEntry(row, toDate(row.reviewDate).value)], businessName, source);
      }
    }
  }

  /** The command leaves valid tables valid: no natural key or store id is
      ever stored twice, whatever the rows hold. */
  lemma HandleValid(t: Tables, frame: Frame, toDate: Cell -> Result<Value, string>, businessName: string, source: string)
    requires Valid(t)
    ensures Valid(Handle(t, frame, toDate, businessName, source).0)
  {
    if frame.hasReviewDate {
      RowStepValid(toDate, businessName, source);
      ImportRowsKeeps(t, SortByDate(frame.rows), RowStep(toDate, businessName, source), Tally([], 0, 0), Valid);
    }
  }

  // ---------------------------------------------------------------- the order of the rows

  lemma DateFirstTotal(a: Cell, b: Cell)
    ensures DateFirst(a, b) || DateFirst(b, a)
  {
    if a.Filled? && b.Filled? {
      LexLeTotal(a.s, b.s);
    }
  }

  lemma DateFirstTransitive(a: Cell, b: Cell, c: Cell)
    requires DateFirst(a, b) && DateFirst(b, c)
    ensures DateFirst(a, c)
  {
    if a.Filled? && b.Filled? && c.Filled? {
      LexLeTransitive(c.s, b.s, a.s);
    }
  }

  lemma {:induction false} InsertSorted(row: Row, rows: seq<Row>)
    requires DateSorted(rows)
    ensures DateSorted(Insert(row, rows))
    decreases |rows|
  {
    if rows == [] {
    } else if DateFirst(row.reviewDate, rows[0].reviewDate) {
      var r := [row] + rows;
      forall i, j | 0 <= i < j < |r| ensures DateFirst(r[i].reviewDate, r[j].reviewDate) {
        if i == 0 && j > 1 {
          DateFirstTransitive(row.reviewDate, rows[0].reviewDate, rows[j - 1].reviewDate);
        }
      }
    } else {
      var first := rows[0];
      InsertSorted(row, rows[1..]);
      var tail := Insert(row, rows[1..]);
      DateFirstTotal(row.reviewDate, first.reviewDate);
      forall k | 0 <= k < |tail| ensures DateFirst(first.reviewDate, tail[k].reviewDate) {
        assert tail[k] in multiset(tail);
        if tail[k] != row {
          assert tail[k] in multiset(rows[1..]);
          var m :| 0 <= m < |rows[1..]| && rows[1..][m] == tail[k];
          assert rows[m + 1] == tail[k];
        }
      }
      var r := [first] + tail;
      assert Insert(row, rows) == r;
      forall i, j | 0 <= i < j < |r| ensures DateFirst(r[i].reviewDate, r[j].reviewDate) {
        if i == 0 {
          assert r[j] == tail[j - 1];
        } else {
          assert r[i] == tail[i - 1] && r[j] == tail[j - 1];
        }
      }
    }
  }

  /** The sort puts the rows in descending date order, empty dates last,
      and loses or adds none. */
  lemma {:induction false} SortByDateSorted(rows: seq<Row>)
    ensures DateSorted(SortByDate(rows))
    ensures multiset(SortByDate(rows)) == multiset(rows)
    decreases |rows|
  {
    if rows != [] {
      SortByDateSorted(rows[1..]);
      InsertSorted(rows[0], SortByDate(rows[1..]));
    }
  }

  /** Without a `review_date` column only the error is written and nothing
      changes; with one, the rows are imported in sorted order and the last
      line is the summary over all of them. */
  lemma HandleReport(t: Tables, frame: Frame, toDate: Cell -> Result<Value, string>, businessName: string, source: string)
    ensures var (u, log) := Handle(t, frame, toDate, businessName, source);
      if !frame.hasReviewDate then u == t && log == [HandleError + NoReviewDate]
      else
        && |log| >= 1
        && exists success: nat, n: nat :: success <= |frame.rows| && n <= 3 * success &&
             log[|log| - 1] == Summary(success, |frame.rows|, n)
  {
    if frame.hasReviewDate {
      var rows := SortByDate(frame.rows);
      SortByDateSorted(frame.rows);
      assert |rows| == |frame.rows| by {
        assert |multiset(rows)| == |multiset(frame.rows)|;
      }
      ImportDataReport(t, rows, toDate, businessName, source);
      var out := ImportData(t, rows, toDate, businessName, source).1;
      assert out.log[|out.log| - 1] == Summary(out.success, |frame.rows|, out.subcategories);
    }
  }
}

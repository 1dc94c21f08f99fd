/** Staging scraped reviews as CSV rows: one row per review record, in
    order, and the choice of the file name and directory. The clock is a
    parameter (a day ordinal and a second of that day); the file write is
    not part of this model. */
module StageData {
  import opened Wrappers
  import opened Text
  import opened Calendar
  import WebScraper
  import PreProcessing

  /** A scraped review record; `None` for a key the dictionary lacks. */
  datatype Review = Review(
    author: Option<string>,
    date: Option<string>,
    overallStars: Option<string>,
    content: Option<string>,
    categoryRatings: Option<seq<string>>)

  /** A CSV row, its fields in the order of the header. */
  datatype CsvRow = CsvRow(
    businessAddress: string,
    reviewAuthor: string,
    reviewDate: string,
    reviewRating: string,
    reviewContent: string,
    categoryRatings: string)

  /** `review.get(key, "")`. */
  function GetOr(v: Option<string>, default: string): string {
    if v.Some? then v.value else default
  }

  /** The separator of the category ratings. */
  const RatingSeparator: string := " | "

  /** Total length of the parts. */
  function TotalLength(parts: seq<string>): nat
    decreases |parts|
  {
    if parts == [] then 0 else |parts[0]| + TotalLength(parts[1..])
  }

  /** A joined text is as long as its parts plus one separator between each
      two of them. */
  lemma {:induction false} JoinLength(parts: seq<string>, sep: string)
    requires parts != []
    ensures |Join(parts, sep)| == TotalLength(parts) + |sep| * (|parts| - 1)
    decreases |parts|
  {
    if |parts| > 1 {
      JoinLength(parts[1..], sep);
    } else {
      assert parts[1..] == [];
    }
  }

  /** `parse_relative_date(review.get("date", ""))`: an absent date reads as
      "", which holds no quantity and comes back as it is. */
  function StagedDate(review: Review, today: int): string
    requires 1 <= today <= MaxOrdinal
  {
    WebScraper.ParseRelativeDate(Some(GetOr(review.date, "")), today).value
  }

  /** The row written for one review record. */
  function MakeRow(address: string, review: Review, today: int): CsvRow
    requires 1 <= today <= MaxOrdinal
  {
    CsvRow(
      address,
      GetOr(review.author, ""),
      StagedDate(review, today),
      GetOr(review.overallStars, ""),
      GetOr(review.content, ""),
      Join(if review.categoryRatings.Some? then review.categoryRatings.value else [], RatingSeparator))
  }

  /** Every row carries the business address it was staged with. */
  lemma {:induction false} RowKeepsAddress(address: string, review: Review, today: int)
    requires 1 <= today <= MaxOrdinal
    ensures MakeRow(address, review, today).businessAddress == address
  {
  }

  /** The date cell is the record's date as it came (absent reads as "") or
      a `YYYY-MM-DD` date no later than today. */
  lemma {:induction false} RowDateResolvedOrKept(address: string, review: Review, today: int)
    requires 1 <= today <= MaxOrdinal
    ensures var d := MakeRow(address, review, today).reviewDate;
      d == GetOr(review.date, "") || (ParseIsoDate(d).Some? && 1 <= ParseIsoDate(d).value <= today)
  {
  }

  /** The category ratings cell is blank exactly when the list is absent,
      empty, or a single blank rating. */
  lemma CategoryRatingsBlank(address: string, review: Review, today: int)
    requires 1 <= today <= MaxOrdinal
    ensures var parts := if review.categoryRatings.Some? then review.categoryRatings.value else [];
      MakeRow(address, review, today).categoryRatings == ""
      <==> parts == [] || (|parts| == 1 && parts[0] == "")
  {
    var parts := if review.categoryRatings.Some? then review.categoryRatings.value else [];
    if parts != [] {
      JoinLength(parts, RatingSeparator);
    }
  }

  /** A date already resolved when scraping is staged unchanged: resolving
      twice with the same day is resolving once. */
  lemma StagingKeepsResolvedDate(address: string, raw: string, review: Review, today: int)
    requires 1 <= today <= MaxOrdinal
    requires review.date == WebScraper.ParseRelativeDate(Some(raw), today)
    ensures MakeRow(address, review, today).reviewDate == review.date.value
  {
    WebScraper.ParseRelativeDateIdempotent(Some(raw), today);
  }

  /** `if not filename`: the given name, or `google_maps_<timestamp>.csv`. */
  function FileName(filename: Option<string>, today: int, second: nat): string
    requires 1 <= today <= MaxOrdinal && second < 86400
  {
    if filename.None? || filename.value == [] then "google_maps_" + Timestamp(today, second) + ".csv"
    else filename.value
  }

  /** `if file_path`: the given directory, or `scraped_data`. */
  function Directory(filePath: Option<string>): string {
    if filePath.None? || filePath.value == [] then "scraped_data" else filePath.value
  }

  /** With neither a directory nor a file name, the file goes to
      `scraped_data/google_maps_<timestamp>.csv`. */
  lemma DefaultPath(today: int, second: nat)
    requires 1 <= today <= MaxOrdinal && second < 86400
    ensures var n := FileName(None, today, second);
      PathJoin(Directory(None), n) == "scraped_data/" + n && StartsWith(n, "google_maps_")
  {
    var n := FileName(None, today, second);
    DefaultFileNameShape(today, second);
    assert n[0] == 'g';
    assert !StartsWith(n, "/");
    assert !EndsWith("scraped_data", "/");
  }

  /** `os.path.join(a, b)` on POSIX: an absolute `b` replaces `a`; otherwise
      one slash goes between them unless `a` is empty or already ends in
      one. */
  function PathJoin(a: string, b: string): (r: string)
    ensures EndsWith(r, b)
  {
    if StartsWith(b, "/") then b
    else if a == [] || EndsWith(a, "/") then a + b
    else a + "/" + b
  }

  /** Joining a directory and a relative name keeps the directory in front. */
  lemma PathJoinRelative(a: string, b: string)
    requires !StartsWith(b, "/")
    ensures StartsWith(PathJoin(a, b), a)
  {
    var r := PathJoin(a, b);
    if a == [] || EndsWith(a, "/") {
      assert r[..|a|] == a;
    } else {
      assert r[..|a|] == a;
    }
  }

  /** A timestamp's shape: fifteen characters, digits around one
      underscore. */
  predicate StampShaped(t: string) {
    |t| == 15 && t[8] == '_' && forall i :: 0 <= i < 15 && i != 8 ==> IsDigit(t[i])
  }

  lemma DefaultNameAround(t: string)
    requires StampShaped(t)
    ensures var n := "google_maps_" + t + ".csv";
      && |n| == 31 && StartsWith(n, "google_maps_") && EndsWith(n, ".csv")
      && forall i :: 12 <= i < 27 && i != 20 ==> IsDigit(n[i])
  {
    var n := "google_maps_" + t + ".csv";
    assert n[..12] == "google_maps_";
    assert n[27..] == ".csv";
    assert forall i :: 12 <= i < 27 ==> n[i] == t[i - 12];
  }

  /** The default file name: thirty-one characters, `google_maps_`, a
      timestamp and `.csv`. */
  lemma DefaultFileNameShape(today: int, second: nat)
    requires 1 <= today <= MaxOrdinal && second < 86400
    ensures var n := FileName(None, today, second);
      && |n| == 31 && StartsWith(n, "google_maps_") && EndsWith(n, ".csv")
      && forall i :: 12 <= i < 27 && i != 20 ==> IsDigit(n[i])
  {
    TimestampShape(today, second);
    DefaultNameAround(Timestamp(today, second));
  }

  lemma DefaultNameLoadable(t: string)
    requires StampShaped(t)
    ensures PreProcessing.CsvPathAccepted("google_maps_" + t + ".csv")
  {
    var n := "google_maps_" + t + ".csv";
    forall i | 0 <= i < |n|
      ensures !IsUpperLetter(n[i])
    {
      if 12 <= i < 27 {
        assert n[i] == t[i - 12];
      } else if i < 12 {
        assert n[i] == "google_maps_"[i];
      } else {
        assert n[i] == ".csv"[i - 27];
      }
    }
    LowerNoUpper(n);
    assert n[|n| - 3..] == "csv";
  }

  /** The default file name passes the extension guard of the loader. */
  lemma DefaultFileNameLoadable(today: int, second: nat)
    requires 1 <= today <= MaxOrdinal && second < 86400
    ensures PreProcessing.CsvPathAccepted(FileName(None, today, second))
  {
    TimestampShape(today, second);
    DefaultNameLoadable(Timestamp(today, second));
  }

  /** The `for review in reviews_data` loop: one row per review record, in
      order. */
  method StageRows(address: string, reviews: seq<Review>, today: int) returns (rows: seq<CsvRow>)
    requires 1 <= today <= MaxOrdinal
    ensures |rows| == |reviews|
    ensures forall i :: 0 <= i < |rows| ==> rows[i] == MakeRow(address, reviews[i], today)
  {
    rows := [];
    for i := 0 to |reviews|
      invariant |rows| == i
      invariant forall j :: 0 <= j < i ==> rows[j] == MakeRow(address, reviews[j], today)
    {
      rows := rows + [MakeRow(address, reviews[i], today)];
    }
  }

  /** `save_to_csv`: the path of the file and the rows written to it. */
  method SaveToCsv(address: string, reviews: seq<Review>, filePath: Option<string>,
                   filename: Option<string>, today: int, second: nat)
    returns (path: string, rows: seq<CsvRow>)
    requires 1 <= today <= MaxOrdinal && second < 86400
    ensures path == PathJoin(Directory(filePath), FileName(filename, today, second))
    ensures |rows| == |reviews|
    ensures forall i :: 0 <= i < |rows| ==> rows[i] == MakeRow(address, reviews[i], today)
  {
    var name := FileName(filename, today, second);
    path := PathJoin(Directory(filePath), name);
    rows := StageRows(address, reviews, today);
  }
}

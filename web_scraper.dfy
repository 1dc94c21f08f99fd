/** The text logic of the review scraper: the check on the URL the browser
    landed on, the resolution of relative review dates ("3 months ago") to
    calendar dates, and the tag scanner that cuts review texts and star labels
    out of a page. */
module WebScraper {
  import opened Wrappers
  import opened Text
  import opened Calendar

  // ---------------------------------------------------------------- verify_url

  /** The four accepted beginnings of the landing URL. */
  function UrlPatterns(expected: string): seq<string> {
    var e := Lower(expected);
    ["https://www." + e, "http://www." + e, "https://" + e, "http://" + e]
  }

  /** The prefix check of `verify_url` on the URL the browser landed on: the
      lower-cased URL, or the message of the `AssertionError` raised. */
  function VerifyUrl(current: string, expected: string): (r: Result<string, string>)
    ensures r.Err? ==> StartsWith(r.error, "URL verification failed.")
  {
    var u := Lower(current);
    var ps := UrlPatterns(expected);
    if StartsWith(u, ps[0]) || StartsWith(u, ps[1]) || StartsWith(u, ps[2]) || StartsWith(u, ps[3]) then
      Ok(u)
    else
      var msg := "URL verification failed. Expected start: " + expected + "\nActual URL: " + u;
      assert msg[..24] == "URL verification failed.";
      Err(msg)
  }

  /** What follows the scheme of an `https://` or `http://` URL. */
  function AfterScheme(u: string): Option<string> {
    if StartsWith(u, "https://") then Some(u[8..])
    else if StartsWith(u, "http://") then Some(u[7..])
    else None
  }

  /** Reference reading of the check: an http or https URL whose host part,
      with or without a leading `www.`, begins with `host`. */
  predicate LandsOn(u: string, host: string) {
    AfterScheme(u).Some?
    && (StartsWith(AfterScheme(u).value, host) || StartsWith(AfterScheme(u).value, "www." + host))
  }

  lemma PatternSplit(u: string, scheme: string, e: string)
    ensures StartsWith(u, scheme + "www." + e) <==> StartsWith(u, scheme) && StartsWith(u[|scheme|..], "www." + e)
    ensures StartsWith(u, scheme + e) <==> StartsWith(u, scheme) && StartsWith(u[|scheme|..], e)
  {
    assert scheme + "www." + e == scheme + ("www." + e);
    StartsWithConcat(u, scheme, "www." + e);
    StartsWithConcat(u, scheme, e);
  }

  /** The URL is accepted exactly when it is an http or https URL landing on
      the expected host, and then the lower-cased URL is returned. */
  lemma PatternsAccept(u: string, e: string)
    ensures (StartsWith(u, "https://www." + e) || StartsWith(u, "http://www." + e)
             || StartsWith(u, "https://" + e) || StartsWith(u, "http://" + e))
            <==> LandsOn(u, e)
  {
    PatternSplit(u, "https://", e);
    PatternSplit(u, "http://", e);
    assert "https://" + "www." + e == "https://www." + e;
    assert "http://" + "www." + e == "http://www." + e;
    if StartsWith(u, "https://") {
      assert u[4] == 's';
      assert !StartsWith(u, "http://");
    }
  }

  lemma VerifyUrlAccepts(current: string, expected: string)
    ensures VerifyUrl(current, expected).Ok? <==> LandsOn(Lower(current), Lower(expected))
    ensures VerifyUrl(current, expected).Ok? ==> VerifyUrl(current, expected).value == Lower(current)
  {
    PatternsAccept(Lower(current), Lower(expected));
  }

  // ---------------------------------------------------------------- parse_relative_date

  datatype Unit = Day | Week | Month | Year

  /** Days per unit; a month counts as 30 days and a year as 365. */
  function UnitDays(u: Unit): nat {
    match u
    case Day => 1
    case Week => 7
    case Month => 30
    case Year => 365
  }

  function UnitWord(u: Unit): string {
    match u
    case Day => "day"
    case Week => "week"
    case Month => "month"
    case Year => "year"
  }

  /** The alternation `(year|month|day|week)` tried at index `k`. */
  function UnitAt(s: string, k: nat): (r: Option<Unit>)
    requires k <= |s|
    ensures r.Some? ==> StartsWith(s[k..], UnitWord(r.value))
    ensures r.None? ==> forall u: Unit :: !StartsWith(s[k..], UnitWord(u))
  {
    var t := s[k..];
    if StartsWith(t, "year") then Some(Year)
    else if StartsWith(t, "month") then Some(Month)
    else if StartsWith(t, "day") then Some(Day)
    else if StartsWith(t, "week") then Some(Week)
    else None
  }

  /** `(\d+)\s+(year|month|day|week)` tried at index `i`: the number and the
      unit. The greedy runs never have to give characters back, because a
      digit is not whitespace and no unit word starts with whitespace. */
  function QuantityAt(s: string, i: nat): Option<(nat, Unit)>
    requires i <= |s|
  {
    if i < |s| && IsDigit(s[i]) then
      var e := DigitRunEnd(s, i);
      var w := e + LeadingSpace(s[e..]);
      if w > e then
        match UnitAt(s, w)
        case None => None
        case Some(u) => Some((DigitsValue(s[i..e]), u))
      else None
    else None
  }

  /** `re.search`: the match that starts leftmost at or after `from`. */
  function SearchQuantity(s: string, from: nat): Option<(nat, Unit)>
    requires from <= |s|
    decreases |s| - from
  {
    if from == |s| then None
    else if QuantityAt(s, from).Some? then QuantityAt(s, from)
    else SearchQuantity(s, from + 1)
  }

  /** `relative_date.lower().replace("a ", "1 ")`. */
  function Normalise(s: string): string {
    ReplaceAll(Lower(s), "a ", "1 ")
  }

  /** The day `days` days before `today`, written `YYYY-MM-DD`; `None` when
      it would fall before 0001-01-01, where Python raises `OverflowError`
      (a `timedelta` beyond its own bound falls there too). */
  function DaysAgo(today: int, days: nat): (r: Option<string>)
    requires 1 <= today <= MaxOrdinal
    ensures r.None? <==> today - days < 1
    ensures r.Some? ==> ParseIsoDate(r.value) == Some(today - days)
  {
    if today - days < 1 then None
    else
      ParseFormatRoundTrip(today - days);
      Some(FormatDate(FromOrdinal(today - days)))
  }

  /** `parse_relative_date` with today's day number as a parameter. `None`
      stands for an input that is not a string, which the function hands back
      as it hands back every input it cannot resolve: on no match, and when
      the date would fall before 0001-01-01. Whatever else it returns is a
      valid date no later than today. */
  function ParseRelativeDate(d: Option<string>, today: int): (r: Option<string>)
    requires 1 <= today <= MaxOrdinal
    ensures d.None? ==> r.None?
    ensures r != d ==> r.Some? && ParseIsoDate(r.value).Some? && 1 <= ParseIsoDate(r.value).value <= today
  {
    if d.None? then None
    else
      var q := SearchQuantity(Normalise(d.value), 0);
      if q.None? then d
      else
        var date := DaysAgo(today, q.value.0 * UnitDays(q.value.1));
        if date.None? then d else date
  }

  /** A number needs whitespace before its unit. */
  lemma {:induction false} QuantityNeedsSpace(s: string, from: nat)
    requires from <= |s| && NoSpace(s)
    ensures SearchQuantity(s, from) == None
    decreases |s| - from
  {
    if from < |s| {
      if IsDigit(s[from]) {
        var e := DigitRunEnd(s, from);
        assert LeadingSpace(s[e..]) == 0 by {
          if e < |s| {
            assert s[e..][0] == s[e];
          }
        }
      }
      QuantityNeedsSpace(s, from + 1);
    }
  }

  /** Text without whitespace holds no "a " and no capital turns into one. */
  lemma NormaliseNoSpace(s: string)
    requires NoSpace(s)
    ensures Normalise(s) == Lower(s) && NoSpace(Lower(s))
  {
    var l := Lower(s);
    forall i | 0 <= i < |l|
      ensures !IsSpace(l[i])
    {
      CaseKeepsSpace(s[i]);
    }
    forall i | 0 <= i < |l|
      ensures !StartsWith(l[i..], "a ")
    {
      if i + 1 < |l| {
        assert l[i..][1] == l[i + 1];
      }
    }
    ReplaceAbsent(l, "a ", "1 ");
  }

  /** Text without whitespace is handed back unchanged. */
  lemma NoSpaceUnchanged(s: string, today: int)
    requires 1 <= today <= MaxOrdinal && NoSpace(s)
    ensures ParseRelativeDate(Some(s), today) == Some(s)
  {
    NormaliseNoSpace(s);
    QuantityNeedsSpace(Lower(s), 0);
  }

  /** Resolving an already resolved date changes nothing, so the date can be
      resolved once when scraping and again when staging. */
  lemma ParseRelativeDateIdempotent(d: Option<string>, today: int)
    requires 1 <= today <= MaxOrdinal
    ensures ParseRelativeDate(ParseRelativeDate(d, today), today) == ParseRelativeDate(d, today)
  {
    var r := ParseRelativeDate(d, today);
    if r != d {
      ResolvedNoSpace(d, today);
      NoSpaceUnchanged(r.value, today);
    }
  }

  /** A resolved date is written without whitespace. */
  lemma ResolvedNoSpace(d: Option<string>, today: int)
    requires 1 <= today <= MaxOrdinal && ParseRelativeDate(d, today) != d
    ensures ParseRelativeDate(d, today).Some? && NoSpace(ParseRelativeDate(d, today).value)
  {
    var q := SearchQuantity(Normalise(d.value), 0);
    DaysAgoNoSpace(today, q.value.0 * UnitDays(q.value.1));
  }

  lemma DaysAgoNoSpace(today: int, days: nat)
    requires 1 <= today <= MaxOrdinal && DaysAgo(today, days).Some?
    ensures NoSpace(DaysAgo(today, days).value)
  {
    FormatDateShape(FromOrdinal(today - days));
  }

  /** After lower-casing, a leading "a " reads as "1 ": "a year ago" resolves
      as "1 year ago" does, or both are handed back as they came. */
  lemma ArticleReadsAsOne(rest: string, today: int)
    requires 1 <= today <= MaxOrdinal
    ensures var a, b := ParseRelativeDate(Some("a " + rest), today), ParseRelativeDate(Some("1 " + rest), today);
      a == b || (a == Some("a " + rest) && b == Some("1 " + rest))
  {
    ArticleNormalise(rest);
  }

  /** "a " and "1 " in front normalise alike. */
  lemma ArticleNormalise(rest: string)
    ensures Normalise("a " + rest) == Normalise("1 " + rest)
  {
    var l := Lower(rest);
    LowerConcat("a ", rest);
    LowerConcat("1 ", rest);
    assert Lower("a ") == "a " && Lower("1 ") == "1 ";
    ReplaceArticle(l);
    ReplaceOne(l);
  }

  lemma ReplaceArticle(l: string)
    ensures ReplaceAll("a " + l, "a ", "1 ") == "1 " + ReplaceAll(l, "a ", "1 ")
  {
    assert StartsWith("a " + l, "a ");
    assert ("a " + l)[2..] == l;
  }

  lemma ReplaceOne(l: string)
    ensures ReplaceAll("1 " + l, "a ", "1 ") == "1 " + ReplaceAll(l, "a ", "1 ")
  {
    assert ("1 " + l)[0] == '1' && ("1 " + l)[1..] == " " + l;
    assert (" " + l)[0] == ' ' && (" " + l)[1..] == l;
    assert ReplaceAll(" " + l, "a ", "1 ") == " " + ReplaceAll(l, "a ", "1 ");
  }

  /** The text after the number in "N unit ago" or "N units ago". */
  function AgoTail(u: Unit, plural: bool): string {
    " " + UnitWord(u) + (if plural then "s" else "") + " ago"
  }

  /** Digits, lower-case letters and spaces, with no "a " anywhere. */
  predicate Plain(s: string) {
    && (forall i :: 0 <= i < |s| ==> IsDigit(s[i]) || IsLowerLetter(s[i]) || s[i] == ' ')
    && (forall i :: 0 <= i < |s| - 1 ==> !(s[i] == 'a' && s[i + 1] == ' '))
  }

  lemma PlainConcat(a: string, b: string)
    requires Plain(a) && Plain(b) && (a == [] || a[|a| - 1] != 'a')
    ensures Plain(a + b)
  {
    var s := a + b;
    assert forall i :: 0 <= i < |s| ==> s[i] == if i < |a| then a[i] else b[i - |a|];
  }

  /** Normalising plain text changes nothing. */
  lemma PlainNormal(s: string)
    requires Plain(s)
    ensures Normalise(s) == s
  {
    LowerNoUpper(s);
    forall i | 0 <= i < |s|
      ensures !StartsWith(s[i..], "a ")
    {
      if i + 1 < |s| {
        assert s[i..][0] == s[i] && s[i..][1] == s[i + 1];
      }
    }
    ReplaceAbsent(s, "a ", "1 ");
  }

  lemma AgoTailPlain(u: Unit, plural: bool)
    ensures Plain(AgoTail(u, plural))
  {
    var w := UnitWord(u);
    var p := if plural then "s" else "";
    UnitWordPlain(u);
    assert Plain(" ") && Plain(p) && Plain(" ago");
    PlainConcat(" ", w);
    assert (" " + w)[|w|] == w[|w| - 1];
    PlainConcat(" " + w, p);
    assert (" " + w + p)[|w| + |p|] != 'a';
    PlainConcat(" " + w + p, " ago");
  }

  /** Unit words are plain and do not end in 'a'. */
  lemma UnitWordPlain(u: Unit)
    ensures Plain(UnitWord(u)) && |UnitWord(u)| > 0 && UnitWord(u)[|UnitWord(u)| - 1] != 'a'
  {
  }

  lemma AgoPlain(n: nat, u: Unit, plural: bool)
    ensures Plain(Decimal(n) + AgoTail(u, plural))
  {
    AgoTailPlain(u, plural);
    var x := Decimal(n);
    assert Plain(x);
    PlainConcat(x, AgoTail(u, plural));
  }

  lemma AgoTailUnit(u: Unit, plural: bool)
    ensures var t := AgoTail(u, plural);
      |t| >= 2 && t[0] == ' ' && !IsSpace(t[1]) && UnitAt(t, 1) == Some(u)
  {
    var t := AgoTail(u, plural);
    var w := UnitWord(u);
    assert t[1..] == w + ((if plural then "s" else "") + " ago");
    assert t[1] == w[0];
    assert StartsWith(t[1..], w);
  }

  lemma LeadingOneSpace(t: string)
    requires |t| >= 2 && t[0] == ' ' && !IsSpace(t[1])
    ensures LeadingSpace(t) == 1
  {
    assert t[1..][0] == t[1];
  }

  /** Digits, one space, then a unit word: the value of the digits and that
      unit. */
  lemma QuantityOf(x: string, t: string, u: Unit)
    requires x != [] && AllDigits(x)
    requires |t| >= 2 && t[0] == ' ' && !IsSpace(t[1]) && UnitAt(t, 1) == Some(u)
    ensures QuantityAt(x + t, 0) == Some((DigitsValue(x), u))
  {
    var s := x + t;
    DigitRunEndOf(x, t, 0);
    assert s[0] == x[0] && s[|x|] == t[0] && s[|x| + 1] == t[1];
    QuantityAfterSpace(s, |x|);
    assert s[|x| + 1..] == t[1..];
    assert s[0..|x|] == x;
  }

  /** A digit run from the start, one space, then whatever `UnitAt` finds. */
  lemma QuantityAfterSpace(s: string, e: nat)
    requires 0 < e && e + 1 < |s| && IsDigit(s[0]) && DigitRunEnd(s, 0) == e
    requires s[e] == ' ' && !IsSpace(s[e + 1])
    ensures UnitAt(s, e + 1).None? ==> QuantityAt(s, 0).None?
    ensures UnitAt(s, e + 1).Some? ==> QuantityAt(s, 0) == Some((DigitsValue(s[0..e]), UnitAt(s, e + 1).value))
  {
    assert s[e..][0] == s[e] && s[e..][1] == s[e + 1];
    LeadingOneSpace(s[e..]);
  }

  /** "N unit ago" is read as the number N and that unit. */
  lemma AgoQuantity(n: nat, u: Unit, plural: bool)
    ensures SearchQuantity(Decimal(n) + AgoTail(u, plural), 0) == Some((n, u))
  {
    AgoTailUnit(u, plural);
    QuantityOf(Decimal(n), AgoTail(u, plural), u);
    DecimalRoundTrip(n);
  }

  /** "N unit(s) ago" resolves to today minus N days, weeks (7 days), months
      (30 days) or years (365 days), unless that falls before 0001-01-01. */
  lemma ResolvesAgo(n: nat, u: Unit, plural: bool, today: int)
    requires 1 <= today <= MaxOrdinal
    ensures var s := Decimal(n) + AgoTail(u, plural);
      var o := today - n * UnitDays(u);
      ParseRelativeDate(Some(s), today) == if o >= 1 then Some(FormatDate(FromOrdinal(o))) else Some(s)
  {
    AgoPlain(n, u, plural);
    AgoQuantity(n, u, plural);
    ResolvesPlain(Decimal(n) + AgoTail(u, plural), n, u, today);
  }

  /** Plain text whose leftmost number-and-unit is `n` `u` resolves to the
      day `n` units before today. */
  lemma ResolvesPlain(s: string, n: nat, u: Unit, today: int)
    requires 1 <= today <= MaxOrdinal
    requires Plain(s) && SearchQuantity(s, 0) == Some((n, u))
    ensures var o := today - n * UnitDays(u);
      ParseRelativeDate(Some(s), today) == if o >= 1 then Some(FormatDate(FromOrdinal(o))) else Some(s)
  {
    PlainNormal(s);
  }

  /** No match starts where there is no digit. */
  lemma {:induction false} SearchSkip(s: string, from: nat)
    requires from <= |s|
    requires forall i :: from <= i < |s| ==> !IsDigit(s[i])
    ensures SearchQuantity(s, from) == None
    decreases |s| - from
  {
    if from < |s| {
      SearchSkip(s, from + 1);
    }
  }

  lemma HoursFirst()
    ensures QuantityAt("2 hours ago", 0) == None
  {
    var s := "2 hours ago";
    assert s == "2" + " hours ago";
    DigitRunEndOf("2", " hours ago", 0);
    QuantityAfterSpace(s, 1);
    UnitAtNone(s, 2);
  }

  /** No unit word starts with a letter other than y, m, d or w. */
  lemma UnitAtNone(s: string, k: nat)
    requires k < |s| && s[k] != 'y' && s[k] != 'm' && s[k] != 'd' && s[k] != 'w'
    ensures UnitAt(s, k) == None
  {
    var t := s[k..];
    assert t[0] == s[k];
    assert !StartsWith(t, "year") by { if |t| >= 4 { assert t[..4][0] == t[0]; } }
    assert !StartsWith(t, "month") by { if |t| >= 5 { assert t[..5][0] == t[0]; } }
    assert !StartsWith(t, "day") by { if |t| >= 3 { assert t[..3][0] == t[0]; } }
    assert !StartsWith(t, "week") by { if |t| >= 4 { assert t[..4][0] == t[0]; } }
  }

  lemma HoursTailNoDigit()
    ensures forall i :: 1 <= i < |"2 hours ago"| ==> !IsDigit("2 hours ago"[i])
  {
    var s := "2 hours ago";
    assert s[1..] == " hours ago";
    assert forall i :: 0 <= i < |" hours ago"| ==> !IsDigit(" hours ago"[i]);
  }

  lemma HoursNoQuantity()
    ensures SearchQuantity("2 hours ago", 0) == None
  {
    HoursFirst();
    HoursTailNoDigit();
    SearchSkip("2 hours ago", 1);
  }

  /** Hours are not a unit: "2 hours ago" is handed back unchanged. */
  lemma HoursUnchanged(today: int)
    requires 1 <= today <= MaxOrdinal
    ensures ParseRelativeDate(Some("2 hours ago"), today) == Some("2 hours ago")
  {
    assert Plain("2 hours ago");
    PlainNormal("2 hours ago");
    HoursNoQuantity();
  }

  // ---------------------------------------------------------------- parse_data_to_list

  /** The markers the scanner looks for: around a review text, and around a
      star label. */
  datatype Tags = Tags(start: string, end: string, ratingsStart: string, ratingsEnd: string)

  /** The markers of a Google Maps review page, used when none are given. */
  const DefaultTags: Tags :=
    Tags("<span class=\"wiI7pd\">", "</span>", "class=\"DU9Pgb\"><span aria-label=\"", "\"")

  /** A slice index as Python reads it: negative counts from the end, and
      out-of-range values are clamped. */
  function PyIndex(len: nat, x: int): (r: nat)
    ensures r <= len
  {
    if x < 0 then (if x + len < 0 then 0 else x + len)
    else if x > len then len
    else x
  }

  /** `s[a:b]`. */
  function PySlice(s: string, a: int, b: int): string {
    var i, j := PyIndex(|s|, a), PyIndex(|s|, b);
    if i < j then s[i..j] else []
  }

  /** The star label that goes with the review found from `pos`: the stripped
      text after the next ratings marker at or after `pos`, up to the next
      closing marker (to the last character but one when there is none,
      as `find` then gives -1); `None` when no ratings marker follows. */
  function RatingFrom(t: string, tags: Tags, pos: nat): Option<string>
    requires pos <= |t|
  {
    var f := Find(t, tags.ratingsStart, pos);
    if f == -1 then None
    else
      var a := f + |tags.ratingsStart|;
      Some(Strip(PySlice(t, a, Find(t, tags.ratingsEnd, a))))
  }

  /** The star label is missing exactly when no ratings marker occurs at or
      after `pos`. */
  lemma RatingFromNoneIff(t: string, tags: Tags, pos: nat)
    requires pos <= |t|
    ensures RatingFrom(t, tags, pos).None? <==> forall i :: pos <= i ==> !OccursAt(t, tags.ratingsStart, i)
  {
    var f := Find(t, tags.ratingsStart, pos);
    if f == -1 {
      forall i | pos <= i
        ensures !OccursAt(t, tags.ratingsStart, i)
      {
        FindIsLeast(t, tags.ratingsStart, pos, i);
      }
    }
  }

  /** One round of the scanner from `pos`: the stripped text between the
      next start marker and the first closing marker after it, the star label
      found from `pos`, and the position just past that closing marker;
      `None` when either marker is missing. */
  function NextEntry(t: string, tags: Tags, pos: nat): (r: Option<(string, Option<string>, nat)>)
    requires pos <= |t| && |tags.start| + |tags.end| > 0
    ensures r.Some? ==> pos < r.value.2 <= |t|
  {
    var s := Find(t, tags.start, pos);
    if s == -1 then None
    else
      var si := s + |tags.start|;
      var e := Find(t, tags.end, si);
      if e == -1 then None
      else Some((Strip(t[si..e]), RatingFrom(t, tags, pos), e + |tags.end|))
  }

  /** The lists `parse_data_to_list` gathers from `pos` on: one review text
      and one star label per start...end pair, left to right. */
  function Scan(t: string, tags: Tags, pos: nat): (r: (seq<string>, seq<Option<string>>))
    requires pos <= |t| && |tags.start| + |tags.end| > 0
    ensures |r.0| == |r.1|
    decreases |t| - pos
  {
    match NextEntry(t, tags, pos)
    case None => ([], [])
    case Some((text, rating, next)) =>
      var rest := Scan(t, tags, next);
      ([text] + rest.0, [rating] + rest.1)
  }

  /** A round that finds an entry puts it in front of what the scan finds
      after it; a round that finds none ends the scan. */
  lemma {:induction false} ScanCons(t: string, tags: Tags, pos: nat)
    requires pos <= |t| && |tags.start| + |tags.end| > 0
    ensures NextEntry(t, tags, pos).None? ==> Scan(t, tags, pos) == ([], [])
    ensures NextEntry(t, tags, pos).Some? ==>
      var (text, rating, next) := NextEntry(t, tags, pos).value;
      Scan(t, tags, pos) == ([text] + Scan(t, tags, next).0, [rating] + Scan(t, tags, next).1)
  {
  }

  /** One pass of the body of the `parse_data_to_list` loop from `pos`:
      `found` is false where the loop breaks, otherwise the review text, the
      star label and the next position. */
  method ScanRound(t: string, tags: Tags, pos: nat) returns (found: bool, text: string, rating: Option<string>, next: nat)
    requires pos <= |t| && |tags.start| + |tags.end| > 0
    ensures !found ==> NextEntry(t, tags, pos).None?
    ensures found ==> NextEntry(t, tags, pos) == Some((text, rating, next))
  {
    found, text, rating, next := false, "", None, pos;
    var s := Find(t, tags.start, pos);
    if s == -1 {
      return;
    }
    var si := s + |tags.start|;
    var e := Find(t, tags.end, si);
    if e == -1 {
      return;
    }
    text := Strip(t[si..e]);
    rating := RatingRound(t, tags, pos);
    found, next := true, e + |tags.end|;
  }

  /** The star label of one round: the text after the next ratings marker,
      or `None` when there is none. */
  method RatingRound(t: string, tags: Tags, pos: nat) returns (rating: Option<string>)
    requires pos <= |t|
    ensures rating == RatingFrom(t, tags, pos)
  {
    var s2 := Find(t, tags.ratingsStart, pos);
    if s2 == -1 {
      return None;
    }
    var a := s2 + |tags.ratingsStart|;
    var e2 := Find(t, tags.ratingsEnd, a);
    rating := Some(Strip(PySlice(t, a, e2)));
  }

  /** `parse_data_to_list`. `None` stands for a target that is not a string:
      the first `find` raises, and the handler returns the empty lists. Both
      markers empty would make the loop spin in place, so one of them is
      required to be non-empty. */
  method ParseDataToList(target: Option<string>, tags: Tags) returns (texts: seq<string>, ratings: seq<Option<string>>)
    requires |tags.start| + |tags.end| > 0
    ensures target.None? ==> texts == [] && ratings == []
    ensures target.Some? ==> (texts, ratings) == Scan(target.value, tags, 0)
    ensures |texts| == |ratings|
  {
    if target.None? {
      return [], [];
    }
    var t := target.value;
    ghost var scan := ScanFrom(t, tags);
    texts, ratings := Gather(t, tags, scan);
  }

  /** `Scan` from every position, as one value. */
  ghost function ScanFrom(t: string, tags: Tags): nat -> (seq<string>, seq<Option<string>>)
    requires |tags.start| + |tags.end| > 0
  {
    (p: nat) => if p <= |t| then Scan(t, tags, p) else ([], [])
  }

  /** `scan` is `Scan` from every position of `t`. The trigger keeps the
      loop from unfolding the scan at positions it has not reached. */
  ghost predicate ScanIs(scan: nat -> (seq<string>, seq<Option<string>>), t: string, tags: Tags) {
    && |tags.start| + |tags.end| > 0
    && forall p: nat {:trigger Scan(t, tags, p)} :: p <= |t| ==> scan(p) == Scan(t, tags, p)
  }

  /** The `while True` loop of `parse_data_to_list`: it gathers exactly the
      scan from position 0. */
  method Gather(t: string, tags: Tags, ghost scan: nat -> (seq<string>, seq<Option<string>>))
    returns (texts: seq<string>, ratings: seq<Option<string>>)
    requires ScanIs(scan, t, tags)
    ensures (texts, ratings) == scan(0)
  {
    texts, ratings := [], [];
    var pos: nat := 0;
    assert [] + scan(0).0 == scan(0).0 && [] + scan(0).1 == scan(0).1;
    while true
      invariant pos <= |t|
      invariant (texts + scan(pos).0, ratings + scan(pos).1) == scan(0)
      decreases |t| - pos
    {
      var found, text, rating, next := Round(t, tags, pos, scan);
      if !found {
        break;
      }
      assert texts + ([text] + scan(next).0) == (texts + [text]) + scan(next).0;
      assert ratings + ([rating] + scan(next).1) == (ratings + [rating]) + scan(next).1;
      texts, ratings := texts + [text], ratings + [rating];
      pos := next;
    }
    assert texts + [] == texts && ratings + [] == ratings;
  }

  /** One round of the loop, stated through `scan`. */
  method Round(t: string, tags: Tags, pos: nat, ghost scan: nat -> (seq<string>, seq<Option<string>>))
    returns (found: bool, text: string, rating: Option<string>, next: nat)
    requires pos <= |t| && ScanIs(scan, t, tags)
    ensures !found ==> scan(pos) == ([], [])
    ensures found ==> pos < next <= |t| && scan(pos) == ([text] + scan(next).0, [rating] + scan(next).1)
  {
    found, text, rating, next := ScanRound(t, tags, pos);
    ScanCons(t, tags, pos);
    assert scan(pos) == Scan(t, tags, pos);
    if found {
      assert scan(next) == Scan(t, tags, next);
    }
  }

  /** `s` has no occurrence of `sub`. */
  ghost predicate Lacks(s: string, sub: string) {
    forall i :: !OccursAt(s, sub, i)
  }

  /** What lies between `a` and the first occurrence of `sub` from `a` holds
      no `sub`. */
  lemma BeforeFirstLacks(t: string, sub: string, a: nat, e: int)
    requires sub != [] && a <= |t| && e == Find(t, sub, a) && e != -1
    ensures a <= e && Lacks(t[a..e], sub)
  {
    forall i: nat
      ensures !OccursAt(t[a..e], sub, i)
    {
      if OccursAt(t[a..e], sub, i) {
        OccursInSlice(t, sub, a, e, i);
        FindIsLeast(t, sub, a, a + i);
      }
    }
  }

  /** Stripping cannot create an occurrence. */
  lemma StripLacks(w: string, sub: string)
    requires Lacks(w, sub)
    ensures Lacks(Strip(w), sub)
  {
    StripIsSlice(w);
    var p, q := LeadingSpace(w), LeadingSpace(w) + TrailingStart(w[LeadingSpace(w)..]);
    forall i: nat
      ensures !OccursAt(Strip(w), sub, i)
    {
      if OccursAt(Strip(w), sub, i) {
        OccursInSlice(w, sub, p, q, i);
      }
    }
  }

  /** No review text contains the closing marker: each is cut at the first
      closing marker after its start marker. */
  lemma {:induction false} ScanTextsLackEndTag(t: string, tags: Tags, pos: nat)
    requires pos <= |t| && tags.end != []
    ensures forall x :: x in Scan(t, tags, pos).0 ==> Lacks(x, tags.end)
    decreases |t| - pos
  {
    ScanCons(t, tags, pos);
    if NextEntry(t, tags, pos).Some? {
      var s := Find(t, tags.start, pos);
      var si := s + |tags.start|;
      var e := Find(t, tags.end, si);
      var head, next := Strip(t[si..e]), e + |tags.end|;
      assert NextEntry(t, tags, pos) == Some((head, RatingFrom(t, tags, pos), next));
      BeforeFirstLacks(t, tags.end, si, e);
      StripLacks(t[si..e], tags.end);
      ScanTextsLackEndTag(t, tags, next);
      var rest := Scan(t, tags, next).0;
      assert Scan(t, tags, pos).0 == [head] + rest;
      forall x | x in [head] + rest
        ensures Lacks(x, tags.end)
      {
        if x != head {
          assert x in rest;
        }
      }
    }
  }
}

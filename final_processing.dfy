/** The field extractors of the final processing stage: a full name split
    into first and last name, the `Food:`/`Service:`/`Atmosphere:` ratings
    pulled out of free text, and an address split into street, city, state
    and zip. Each regular expression of the source is matched by hand. */
module FinalProcessing {
  import opened Wrappers
  import opened Text

  // ---------------------------------------------------------------- names

  /** `extract_first_last(name)`: the title-cased first and last words;
      `None` where there is no such word. */
  function ExtractFirstLast(name: string): (r: (Option<string>, Option<string>))
    ensures r.1.Some? ==> r.0.Some?
  {
    var parts := Split(Strip(name));
    if |parts| >= 2 then (Some(Title(parts[0])), Some(Title(parts[|parts| - 1])))
    else if |parts| == 1 then (Some(Title(parts[0])), None)
    else (None, None)
  }

  lemma {:induction false} WordEndAppend(x: string, z: string)
    requires x != [] && !IsSpace(x[0])
    requires z != [] && IsSpace(z[0])
    ensures WordEnd(x + z, 0) == WordEnd(x, 0)
  {
    WordEndFrom(x, z, 0);
  }

  lemma {:induction false} WordEndFrom(x: string, z: string, i: nat)
    requires i <= |x|
    requires z != [] && IsSpace(z[0])
    ensures WordEnd(x + z, i) == WordEnd(x, i)
    decreases |x| - i
  {
    if i < |x| && !IsSpace(x[i]) {
      WordEndFrom(x, z, i + 1);
    }
  }

  /** `split()` treats a whitespace character as a separator: the words of
      `x + " " + y` are the words of `x` followed by the words of `y`. */
  lemma {:induction false} SplitAtSpace(x: string, sp: char, y: string)
    requires IsSpace(sp)
    ensures Split(x + [sp] + y) == Split(x) + Split(y)
    decreases |x|
  {
    var s := x + [sp] + y;
    if x == [] {
      assert s[1..] == y;
    } else if IsSpace(x[0]) {
      assert s[1..] == x[1..] + [sp] + y;
      SplitAtSpace(x[1..], sp, y);
    } else {
      WordEndAppend(x, [sp] + y);
      assert s == x + ([sp] + y);
      var k := WordEnd(x, 0);
      assert s[..k] == x[..k];
      assert s[k..] == x[k..] + [sp] + y;
      SplitAtSpace(x[k..], sp, y);
    }
  }

  /** A single word splits into itself. */
  lemma {:induction false} SplitWord(w: string)
    requires w != [] && NoSpace(w)
    ensures Split(w) == [w]
  {
    assert WordEnd(w, 0) == |w| by {
      WordEndOfWord(w, 0);
    }
    assert w[..|w|] == w;
    assert w[|w|..] == [];
  }

  lemma {:induction false} WordEndOfWord(w: string, i: nat)
    requires i <= |w| && NoSpace(w)
    ensures WordEnd(w, i) == |w|
    decreases |w| - i
  {
    if i < |w| {
      WordEndOfWord(w, i + 1);
    }
  }

  /** A blank name (empty or all whitespace) is exactly the one that yields
      no first name, and then no last name either. */
  lemma NameBlankIffNone(name: string)
    ensures ExtractFirstLast(name).0.None? <==> AllSpace(name)
    ensures AllSpace(name) ==> ExtractFirstLast(name) == (None, None)
  {
    var t := Strip(name);
    StripIsSlice(name);
    SplitEmptyIffAllSpace(t);
    var i, j := LeadingSpace(name), LeadingSpace(name) + TrailingStart(name[LeadingSpace(name)..]);
    assert name == name[..i] + t + name[j..];
    if AllSpace(name) {
      assert t == [];
    }
  }

  /** With two or more words only the outer ones matter: whatever
      whitespace surrounds the name, and whatever lies in a gap that starts
      and ends with whitespace (a single space, or middle words), the result
      is the title-cased first and last word. */
  lemma {:induction false} MiddleWordsDiscarded(pre: string, first: string, gap: string, last: string, post: string)
    requires AllSpace(pre) && AllSpace(post)
    requires first != [] && NoSpace(first) && last != [] && NoSpace(last)
    requires gap != [] && IsSpace(gap[0]) && IsSpace(gap[|gap| - 1])
    ensures ExtractFirstLast(pre + first + gap + last + post) == (Some(Title(first)), Some(Title(last)))
  {
    var core := first + gap + last;
    assert pre + first + gap + last + post == pre + core + post;
    StripSurrounded(pre, core, post);
    SplitOuterWords(first, gap, last);
  }

  /** The words of `first + gap + last` begin with `first` and end with
      `last` when the gap starts and ends with whitespace. */
  lemma {:induction false} SplitOuterWords(first: string, gap: string, last: string)
    requires first != [] && NoSpace(first) && last != [] && NoSpace(last)
    requires gap != [] && IsSpace(gap[0]) && IsSpace(gap[|gap| - 1])
    ensures var w := Split(first + gap + last); |w| >= 2 && w[0] == first && w[|w| - 1] == last
  {
    var rest := gap[1..] + last;
    assert first + gap + last == first + [gap[0]] + rest;
    SplitAtSpace(first, gap[0], rest);
    SplitWord(first);
    SplitWord(last);
    if gap[1..] == [] {
      assert rest == last;
    } else {
      var inner := gap[1..|gap| - 1];
      assert rest == inner + [gap[|gap| - 1]] + last;
      SplitAtSpace(inner, gap[|gap| - 1], last);
    }
  }

  /** A single word, whatever whitespace surrounds it, is the first name and
      there is no last name. */
  lemma SingleWord(before: string, word: string, after: string)
    requires AllSpace(before) && AllSpace(after) && word != [] && NoSpace(word)
    ensures ExtractFirstLast(before + word + after) == (Some(Title(word)), None)
  {
    StripSurrounded(before, word, after);
    SplitWord(word);
  }

  /** `extract_first_last("jane q public") == ("Jane", "Public")`. */
  lemma JaneQPublic()
    ensures ExtractFirstLast("jane q public") == (Some("Jane"), Some("Public"))
  {
    assert "jane q public" == "" + "jane" + " q " + "public" + "";
    MiddleWordsDiscarded("", "jane", " q ", "public", "");
    TitleJane();
    TitlePublic();
  }

  lemma TitleJane()
    ensures Title("jane") == "Jane"
  {
    TitleIsPositionwise("jane");
  }

  lemma TitlePublic()
    ensures Title("public") == "Public"
  {
    TitleIsPositionwise("public");
  }

  // ---------------------------------------------------------------- sub-ratings

  datatype SubRatings = SubRatings(food: Option<nat>, service: Option<nat>, atmosphere: Option<nat>)

  /** `re.search(tag + r"(\d+)", s)` can match at `i`: the tag, then at
      least one digit. */
  predicate LabelAt(s: string, tag: string, i: nat) {
    OccursAt(s, tag, i) && i + |tag| < |s| && IsDigit(s[i + |tag|])
  }

  /** The leftmost match position at or after `from`. */
  function SearchLabel(s: string, tag: string, from: nat): (r: Option<nat>)
    ensures r.Some? ==> from <= r.value && LabelAt(s, tag, r.value)
    ensures r.Some? ==> forall i :: from <= i < r.value ==> !LabelAt(s, tag, i)
    ensures r.None? ==> forall i :: from <= i ==> !LabelAt(s, tag, i)
    decreases |s| - from
  {
    if from >= |s| then None
    else if LabelAt(s, tag, from) then Some(from)
    else SearchLabel(s, tag, from + 1)
  }

  /** `int(m.group(1))` for the leftmost match, or `None`. */
  function LabelValue(s: string, tag: string): Option<nat> {
    match SearchLabel(s, tag, 0)
    case None => None
    case Some(i) =>
      var j := i + |tag|;
      Some(DigitsValue(s[j..DigitRunEnd(s, j)]))
  }

  /** `parse_subcategory_ratings(s)`; `None` stands for a value that is not a
      `str` (a missing cell). */
  function ParseSubcategoryRatings(s: Option<string>): SubRatings {
    match s
    case None => SubRatings(None, None, None)
    case Some(t) => SubRatings(LabelValue(t, "Food:"), LabelValue(t, "Service:"), LabelValue(t, "Atmosphere:"))
  }

  /** A label gives a rating exactly when it occurs somewhere immediately
      followed by a digit. */
  lemma {:induction false} LabelValueIffOccurs(s: string, tag: string)
    ensures LabelValue(s, tag).Some? <==> exists i: nat :: LabelAt(s, tag, i)
  {
    var r := SearchLabel(s, tag, 0);
    if r.Some? {
      assert LabelAt(s, tag, r.value);
    }
  }

  /** A value that is not text gives no rating at all; in text, each rating
      is present exactly when its own label occurs immediately followed by a
      digit. */
  lemma {:induction false} RatingsPresentIffLabelled(s: Option<string>)
    ensures s.None? ==> ParseSubcategoryRatings(s) == SubRatings(None, None, None)
    ensures s.Some? ==> (ParseSubcategoryRatings(s).food.Some? <==> exists i: nat :: LabelAt(s.value, "Food:", i))
    ensures s.Some? ==> (ParseSubcategoryRatings(s).service.Some? <==> exists i: nat :: LabelAt(s.value, "Service:", i))
    ensures s.Some? ==> (ParseSubcategoryRatings(s).atmosphere.Some? <==> exists i: nat :: LabelAt(s.value, "Atmosphere:", i))
  {
    if s.Some? {
      LabelValueIffOccurs(s.value, "Food:");
      LabelValueIffOccurs(s.value, "Service:");
      LabelValueIffOccurs(s.value, "Atmosphere:");
    }
  }

  /** The rating is the value of the whole run of digits after the leftmost
      occurrence. */
  lemma {:induction false} LabelValueLeftmost(s: string, tag: string, i: nat)
    requires LabelAt(s, tag, i)
    requires forall k: nat :: k < i ==> !LabelAt(s, tag, k)
    ensures LabelValue(s, tag) == Some(DigitsValue(s[i + |tag|..DigitRunEnd(s, i + |tag|)]))
  {
    var r := SearchLabel(s, tag, 0);
    assert r.Some?;
    assert r.value == i;
  }

  /** A match of the label that lies wholly inside `s` is a match in `s + t`,
      and no more. */
  lemma LabelAtAppend(s: string, t: string, tag: string, k: nat)
    requires k + |tag| < |s|
    ensures LabelAt(s + t, tag, k) == LabelAt(s, tag, k)
  {
    assert (s + t)[k..k + |tag|] == s[k..k + |tag|];
    assert (s + t)[k + |tag|] == s[k + |tag|];
  }

  /** The leftmost match found in `s` is also the leftmost in `s + t`. */
  lemma {:induction false} SearchLabelAppend(s: string, t: string, tag: string, from: nat)
    requires SearchLabel(s, tag, from).Some?
    ensures SearchLabel(s + t, tag, from) == SearchLabel(s, tag, from)
    decreases |s| - from
  {
    var r := SearchLabel(s, tag, from).value;
    assert from + |tag| <= r + |tag| < |s|;
    LabelAtAppend(s, t, tag, from);
    if !LabelAt(s, tag, from) {
      SearchLabelAppend(s, t, tag, from + 1);
    }
  }

  /** A run of digits that ends inside `s` ends at the same place in `s + t`. */
  lemma {:induction false} DigitRunAppend(s: string, t: string, j: nat)
    requires j <= |s| && DigitRunEnd(s, j) < |s|
    ensures DigitRunEnd(s + t, j) == DigitRunEnd(s, j)
    ensures (s + t)[j..DigitRunEnd(s, j)] == s[j..DigitRunEnd(s, j)]
    decreases |s| - j
  {
    assert (s + t)[j] == s[j];
    if IsDigit(s[j]) {
      DigitRunAppend(s, t, j + 1);
    }
  }

  /** Once its label has been read from `s`, a rating is fixed: text appended
      after a non-digit cannot change it. */
  lemma {:induction false} LabelValueAppend(s: string, t: string, tag: string)
    requires LabelValue(s, tag).Some?
    requires s != [] && !IsDigit(s[|s| - 1])
    ensures LabelValue(s + t, tag) == LabelValue(s, tag)
  {
    SearchLabelAppend(s, t, tag, 0);
    var i := SearchLabel(s, tag, 0).value;
    var j := i + |tag|;
    DigitRunAppend(s, t, j);
  }

  /** The three ratings are read independently: a rating found in `s` is kept
      whatever text follows `s` after a separator, whether or not that text
      holds the other labels, or the same label again. */
  lemma {:induction false} RatingsKeptByAppend(s: string, t: string)
    requires s != [] && !IsDigit(s[|s| - 1])
    ensures ParseSubcategoryRatings(Some(s)).food.Some? ==>
      ParseSubcategoryRatings(Some(s + t)).food == ParseSubcategoryRatings(Some(s)).food
    ensures ParseSubcategoryRatings(Some(s)).service.Some? ==>
      ParseSubcategoryRatings(Some(s + t)).service == ParseSubcategoryRatings(Some(s)).service
    ensures ParseSubcategoryRatings(Some(s)).atmosphere.Some? ==>
      ParseSubcategoryRatings(Some(s + t)).atmosphere == ParseSubcategoryRatings(Some(s)).atmosphere
  {
    if LabelValue(s, "Food:").Some? {
      LabelValueAppend(s, t, "Food:");
    }
    if LabelValue(s, "Service:").Some? {
      LabelValueAppend(s, t, "Service:");
    }
    if LabelValue(s, "Atmosphere:").Some? {
      LabelValueAppend(s, t, "Atmosphere:");
    }
  }

  /** `"Food:5"` gives 5 and `"Food:42 stars"` 42. */
  lemma FoodDigits()
    ensures LabelValue("Food:5", "Food:") == Some(5)
    ensures LabelValue("Food:42 stars", "Food:") == Some(42)
  {
    assert "Food:5"[0..5] == "Food:";
    assert LabelAt("Food:5", "Food:", 0);
    assert DigitRunEnd("Food:5", 5) == 6;
    assert "Food:5"[5..6] == "5";
    assert DigitsValue("5") == 5;

    var t := "Food:42 stars";
    assert t[0..5] == "Food:";
    assert LabelAt(t, "Food:", 0);
    assert DigitRunEnd(t, 7) == 7;
    assert DigitRunEnd(t, 5) == 7;
    assert t[5..7] == "42";
    assert DigitsValue("42") == 42 by {
      assert "42"[..1] == "4";
    }
  }

  /** A space after the colon, or a lower-case label, gives no rating. */
  lemma LabelMustBeExact()
    ensures LabelValue("Food: 5", "Food:") == None
    ensures LabelValue("food:5", "Food:") == None
  {
    forall i: nat ensures !LabelAt("Food: 5", "Food:", i) {
      if i == 0 {
        assert "Food: 5"[5] == ' ';
      } else if i + 5 <= 7 {
        assert "Food: 5"[i] != 'F';
      }
    }
    forall i: nat ensures !LabelAt("food:5", "Food:", i) {
      if i == 0 {
        assert "food:5"[0] != 'F';
      }
    }
  }

  /** `parse_subcategory_ratings("Food:5, Atmosphere:3")` gives food 5, no
      service rating and atmosphere 3. */
  lemma FoodAndAtmosphere()
    ensures ParseSubcategoryRatings(Some("Food:5, Atmosphere:3")) == SubRatings(Some(5), None, Some(3))
  {
    FoodAndAtmosphereFood();
    FoodAndAtmosphereService();
    FoodAndAtmosphereAtmosphere();
  }

  lemma FoodAndAtmosphereFood()
    ensures LabelValue("Food:5, Atmosphere:3", "Food:") == Some(5)
  {
    var s := "Food:5, Atmosphere:3";
    assert s[0..5] == "Food:";
    assert LabelAt(s, "Food:", 0);
    assert DigitRunEnd(s, 5) == 6;
    assert s[5..6] == "5";
    assert DigitsValue("5") == 5;
  }

  lemma FoodAndAtmosphereService()
    ensures LabelValue("Food:5, Atmosphere:3", "Service:") == None
  {
    var s := "Food:5, Atmosphere:3";
    assert 'S' !in s;
    forall i: nat ensures !LabelAt(s, "Service:", i) {
      if i + 8 <= |s| {
        assert s[i..i + 8][0] == s[i];
      }
    }
  }

  lemma FoodAndAtmosphereAtmosphere()
    ensures LabelValue("Food:5, Atmosphere:3", "Atmosphere:") == Some(3)
  {
    var s := "Food:5, Atmosphere:3";
    assert s[8..19] == "Atmosphere:";
    assert LabelAt(s, "Atmosphere:", 8);
    assert 'A' !in s[..8];
    forall k: nat | k < 8 ensures !LabelAt(s, "Atmosphere:", k) {
      assert s[k..k + 11][0] == s[..8][k];
    }
    assert DigitRunEnd(s, 19) == 20;
    assert s[19..20] == "3";
    assert DigitsValue("3") == 3;
    LabelValueLeftmost(s, "Atmosphere:", 8);
  }

  // ---------------------------------------------------------------- addresses

  datatype AddressParts = AddressParts(street: string, city: string, state: string, zip: string)

  /** `\s*([A-Z]{2})\s*(\d{5})$` matched against what follows the last comma;
      each `\s*` is greedy. */
  function MatchStateZip(tail: string): Option<(string, string)>
    decreases |tail|
  {
    if tail != [] && IsSpace(tail[0]) then MatchStateZip(tail[1..])
    else if |tail| >= 2 && IsUpperLetter(tail[0]) && IsUpperLetter(tail[1]) then MatchZip(tail[..2], tail[2..])
    else None
  }

  /** `\s*(\d{5})$` after the state. */
  function MatchZip(state: string, rest: string): Option<(string, string)>
    decreases |rest|
  {
    if rest != [] && IsSpace(rest[0]) then MatchZip(state, rest[1..])
    else if |rest| == 5 && AllDigits(rest) then Some((state, rest))
    else None
  }

  predicate StateShaped(state: string) {
    |state| == 2 && IsUpperLetter(state[0]) && IsUpperLetter(state[1])
  }

  predicate ZipShaped(zip: string) {
    |zip| == 5 && AllDigits(zip)
  }

  lemma {:induction false} MatchZipShape(state: string, rest: string)
    requires MatchZip(state, rest).Some?
    ensures MatchZip(state, rest).value.0 == state
    ensures ZipShaped(MatchZip(state, rest).value.1) && EndsWith(rest, MatchZip(state, rest).value.1)
    decreases |rest|
  {
    if rest != [] && IsSpace(rest[0]) {
      MatchZipShape(state, rest[1..]);
      SuffixOfTail(rest, MatchZip(state, rest[1..]).value.1);
    } else {
      assert rest[|rest| - 5..] == rest;
    }
  }

  /** A suffix of `s[1..]` is a suffix of `s`. */
  lemma SuffixOfTail(s: string, suffix: string)
    requires s != [] && EndsWith(s[1..], suffix)
    ensures EndsWith(s, suffix)
  {
    assert s[|s| - |suffix|..] == s[1..][|s| - 1 - |suffix|..];
  }

  /** What the state-and-zip pattern accepts is two upper-case letters and
      five digits that end the text. */
  lemma {:induction false} MatchStateZipShape(tail: string)
    requires MatchStateZip(tail).Some?
    ensures StateShaped(MatchStateZip(tail).value.0)
    ensures ZipShaped(MatchStateZip(tail).value.1) && EndsWith(tail, MatchStateZip(tail).value.1)
    decreases |tail|
  {
    if tail != [] && IsSpace(tail[0]) {
      MatchStateZipShape(tail[1..]);
      SuffixOfTail(tail, MatchStateZip(tail[1..]).value.1);
    } else {
      MatchZipShape(tail[..2], tail[2..]);
      assert tail[|tail| - 5..] == tail[2..][|tail| - 7..];
    }
  }

  /** The greatest index below `end` holding a comma. */
  function LastComma(t: string, end: nat): (r: Option<nat>)
    requires end <= |t|
    ensures r.Some? ==> r.value < end && t[r.value] == ','
    decreases end
  {
    if end == 0 then None
    else if t[end - 1] == ',' then Some(end - 1)
    else LastComma(t, end - 1)
  }

  /** `LastComma` finds the greatest comma, and misses none. */
  lemma {:induction false} LastCommaGreatest(t: string, end: nat)
    requires end <= |t|
    ensures var r := LastComma(t, end);
      && (r.Some? ==> forall i :: r.value < i < end ==> t[i] != ',')
      && (r.None? ==> forall i :: 0 <= i < end ==> t[i] != ',')
    decreases end
  {
    if end > 0 && t[end - 1] != ',' {
      LastCommaGreatest(t, end - 1);
    }
  }

  /** With the second comma at `c2`, a first comma at `c1` lets the regex
      match: `(.*)` before it and, after the greedy `\s*`, `(.*)` up to `c2`
      contain no newline (`.` does not match one). */
  predicate FirstCommaFits(t: string, c1: nat, c2: nat)
    requires c1 < c2 <= |t|
  {
    var g2 := t[c1 + 1..c2];
    t[c1] == ',' && '\n' !in t[..c1] && '\n' !in g2[LeadingSpace(g2)..]
  }

  /** The greedy first group settles on the greatest fitting first comma. */
  function FirstComma(t: string, c2: nat, end: nat): (r: Option<nat>)
    requires end <= c2 <= |t|
    ensures r.Some? ==> r.value < end && FirstCommaFits(t, r.value, c2)
    decreases end
  {
    if end == 0 then None
    else if FirstCommaFits(t, end - 1, c2) then Some(end - 1)
    else FirstComma(t, c2, end - 1)
  }

  /** `FirstComma` finds the greatest fitting comma, and misses none. */
  lemma {:induction false} FirstCommaGreatest(t: string, c2: nat, end: nat)
    requires end <= c2 <= |t|
    ensures var r := FirstComma(t, c2, end);
      && (r.Some? ==> forall i :: r.value < i < end ==> !FirstCommaFits(t, i, c2))
      && (r.None? ==> forall i :: 0 <= i < end ==> !FirstCommaFits(t, i, c2))
    decreases end
  {
    if end > 0 && !FirstCommaFits(t, end - 1, c2) {
      FirstCommaGreatest(t, c2, end - 1);
    }
  }

  /** `re.match(r"^(.*),\s*(.*),\s*([A-Z]{2})\s*(\d{5})$", t).groups()`: the
      four groups as matched, the city without the whitespace the greedy
      `\s*` in front of it took. */
  function MatchAddress(t: string): Option<AddressParts> {
    match LastComma(t, |t|)
    case None => None
    case Some(c2) =>
      match MatchStateZip(t[c2 + 1..])
      case None => None
      case Some(sz) =>
        match FirstComma(t, c2, c2)
        case None => None
        case Some(c1) => Some(Groups(t, c1, c2, sz))
  }

  function Groups(t: string, c1: nat, c2: nat, sz: (string, string)): AddressParts
    requires c1 < c2 <= |t|
  {
    var g2 := t[c1 + 1..c2];
    AddressParts(t[..c1], g2[LeadingSpace(g2)..], sz.0, sz.1)
  }

  /** `street.strip().upper()`, `city.strip().upper()`, `state.strip().upper()`
      and `zip_code.strip()`. */
  function Normalise(g: AddressParts): AddressParts {
    AddressParts(Upper(Strip(g.street)), Upper(Strip(g.city)), Upper(Strip(g.state)), Strip(g.zip))
  }

  /** `extract_address_parts(address)`; `None` stands both for a value that is
      not a `str` and for the four `None`s of a failed match. */
  function ExtractAddressParts(address: Option<string>): Option<AddressParts> {
    if address.None? then None
    else
      var m := MatchAddress(Strip(address.value));
      if m.None? then None else Some(Normalise(m.value))
  }

  /** A successful match, taken apart. */
  lemma {:induction false} MatchedGroups(t: string)
    requires MatchAddress(t).Some?
    ensures LastComma(t, |t|).Some?
    ensures var c2 := LastComma(t, |t|).value;
      && MatchStateZip(t[c2 + 1..]).Some? && FirstComma(t, c2, c2).Some?
      && MatchAddress(t).value == Groups(t, FirstComma(t, c2, c2).value, c2, MatchStateZip(t[c2 + 1..]).value)
  {
  }

  /** The match is determined by the two commas and the state and zip. */
  lemma {:induction false} MatchAddressIs(t: string, c1: nat, c2: nat, sz: (string, string))
    requires LastComma(t, |t|) == Some(c2)
    requires MatchStateZip(t[c2 + 1..]) == Some(sz)
    requires FirstComma(t, c2, c2) == Some(c1)
    ensures MatchAddress(t) == Some(Groups(t, c1, c2, sz))
  {
  }

  /** A comma with none after it is the one `LastComma` finds. */
  lemma LastCommaIs(t: string, c: nat)
    requires c < |t| && t[c] == ','
    requires forall i :: c < i < |t| ==> t[i] != ','
    ensures LastComma(t, |t|) == Some(c)
  {
    LastCommaGreatest(t, |t|);
  }

  /** One space, the state, one space, the zip. */
  lemma StateZipSpaced(state: string, zip: string)
    requires |state| == 2 && IsUpperLetter(state[0]) && IsUpperLetter(state[1])
    requires |zip| == 5 && AllDigits(zip)
    ensures MatchStateZip(" " + state + " " + zip) == Some((state, zip))
  {
    var tail := " " + state + " " + zip;
    assert tail[1..] == state + " " + zip;
    var u := tail[1..];
    assert u[..2] == state && u[2..] == " " + zip;
    assert u[2..][1..] == zip;
    assert !IsSpace(zip[0]);
    assert MatchZip(state, zip) == Some((state, zip));
    assert MatchZip(state, " " + zip) == Some((state, zip));
    assert MatchStateZip(u) == Some((state, zip));
  }

  /** Two upper-case letters are their own `strip().upper()`. */
  lemma StateNormal(state: string)
    requires |state| == 2 && IsUpperLetter(state[0]) && IsUpperLetter(state[1])
    ensures Upper(Strip(state)) == state
  {
    StripNoop(state);
  }

  /** Digits are their own `strip()`. */
  lemma ZipNormal(zip: string)
    requires |zip| == 5 && AllDigits(zip)
    ensures Strip(zip) == zip
  {
    StripNoop(zip);
  }

  /** Whatever matched, the state is two upper-case letters and the zip five
      digits, the very characters that end the stripped input. */
  lemma AddressStateAndZip(address: string)
    requires ExtractAddressParts(Some(address)).Some?
    ensures var p := ExtractAddressParts(Some(address)).value;
      && |p.state| == 2 && IsUpperLetter(p.state[0]) && IsUpperLetter(p.state[1])
      && |p.zip| == 5 && AllDigits(p.zip)
      && EndsWith(Strip(address), p.zip)
  {
    var t := Strip(address);
    var g := MatchAddress(t).value;
    GroupsStateZip(t);
    NormalisedStateZip(g);
  }

  /** The raw state and zip groups have the shape of the pattern, and the zip
      ends the text. */
  lemma GroupsStateZip(t: string)
    requires MatchAddress(t).Some?
    ensures var g := MatchAddress(t).value;
      && |g.state| == 2 && IsUpperLetter(g.state[0]) && IsUpperLetter(g.state[1])
      && |g.zip| == 5 && AllDigits(g.zip) && EndsWith(t, g.zip)
  {
    MatchedGroups(t);
    var c2 := LastComma(t, |t|).value;
    var tail := t[c2 + 1..];
    MatchStateZipShape(tail);
    assert t[|t| - 5..] == tail[|tail| - 5..];
  }

  /** Normalising leaves a well-formed state and zip as they are. */
  lemma {:induction false} NormalisedStateZip(g: AddressParts)
    requires |g.state| == 2 && IsUpperLetter(g.state[0]) && IsUpperLetter(g.state[1])
    requires |g.zip| == 5 && AllDigits(g.zip)
    ensures Normalise(g).state == g.state && Normalise(g).zip == g.zip
  {
    StateNormal(g.state);
    ZipNormal(g.zip);
  }

  /** Where the input has no newline, every comma before the last one fits,
      so the city is the comma-free text between the last two commas. */
  lemma CityHasNoComma(address: string)
    requires ExtractAddressParts(Some(address)).Some?
    requires '\n' !in Strip(address)
    ensures ',' !in ExtractAddressParts(Some(address)).value.city
  {
    var t := Strip(address);
    GroupsCityNoComma(t);
    NormalisedKeepsNoComma(MatchAddress(t).value);
  }

  lemma GroupsCityNoComma(t: string)
    requires MatchAddress(t).Some? && '\n' !in t
    ensures ',' !in MatchAddress(t).value.city
  {
    MatchedGroups(t);
    var c2 := LastComma(t, |t|).value;
    var c1 := FirstComma(t, c2, c2).value;
    CommaFreeBetween(t, c1, c2);
    var g2 := t[c1 + 1..c2];
    assert forall i :: 0 <= i < |g2| ==> g2[i] == t[c1 + 1 + i];
    assert ',' !in g2;
    assert forall x :: x in g2[LeadingSpace(g2)..] ==> x in g2;
  }

  /** `strip().upper()` brings in no comma. */
  lemma NormalisedKeepsNoComma(g: AddressParts)
    requires ',' !in g.city
    ensures ',' !in Normalise(g).city
  {
    StripIsSlice(g.city);
    assert forall x :: x in Strip(g.city) ==> x in g.city;
  }

  /** With no newline in the text, the greatest fitting first comma is the
      last comma before the second one. */
  lemma CommaFreeBetween(t: string, c1: nat, c2: nat)
    requires '\n' !in t
    requires c2 <= |t| && FirstComma(t, c2, c2) == Some(c1)
    ensures forall i :: c1 < i < c2 ==> t[i] != ','
  {
    FirstCommaGreatest(t, c2, c2);
    forall i | c1 < i < c2 ensures t[i] != ',' {
      if t[i] == ',' {
        var g2 := t[i + 1..c2];
        assert forall x :: x in t[..i] ==> x in t;
        assert forall x :: x in g2[LeadingSpace(g2)..] ==> x in t;
        assert FirstCommaFits(t, i, c2);
      }
    }
  }

  /** A fitting first comma with no comma after it before the second is the
      one `FirstComma` finds. */
  lemma FirstCommaIs(t: string, c1: nat, c2: nat)
    requires c1 < c2 <= |t| && FirstCommaFits(t, c1, c2)
    requires forall i :: c1 < i < c2 ==> t[i] != ','
    ensures FirstComma(t, c2, c2) == Some(c1)
  {
    FirstCommaGreatest(t, c2, c2);
  }

  /** Leading whitespace dropped before `strip()` makes no difference. */
  lemma StripAfterLeading(s: string)
    ensures Strip(s[LeadingSpace(s)..]) == Strip(s)
  {
    StripLeftIsSuffix(s);
    var r := s[LeadingSpace(s)..];
    StripLeftNoop(r);
  }

  /** The shape the pattern describes is accepted and split as intended:
      `street, city, ST 12345` gives the stripped, upper-cased street and city
      (earlier commas stay in the street), the state and the zip. */
  lemma WellFormedAddress(street: string, city: string, state: string, zip: string)
    requires street == [] || !IsSpace(street[0])
    requires '\n' !in street && '\n' !in city && ',' !in city
    requires |state| == 2 && IsUpperLetter(state[0]) && IsUpperLetter(state[1])
    requires |zip| == 5 && AllDigits(zip)
    ensures ExtractAddressParts(Some(street + ", " + city + ", " + state + " " + zip))
         == Some(AddressParts(Upper(Strip(street)), Upper(Strip(city)), state, zip))
  {
    var t := street + ", " + city + ", " + state + " " + zip;
    WellFormedTail(state, zip);
    assert t == street + "," + (" " + city) + "," + (" " + state + " " + zip);
    WellFormedStripped(street, " " + city, " " + state + " " + zip, zip);
    WellFormedMatch(street, city, state, zip);
    NormalisedWellFormed(street, city, state, zip);
  }

  lemma WellFormedMatch(street: string, city: string, state: string, zip: string)
    requires '\n' !in street && '\n' !in city && ',' !in city
    requires |state| == 2 && IsUpperLetter(state[0]) && IsUpperLetter(state[1])
    requires |zip| == 5 && AllDigits(zip)
    ensures MatchAddress(street + ", " + city + ", " + state + " " + zip)
         == Some(AddressParts(street, city[LeadingSpace(city)..], state, zip))
  {
    Assembled(street, city, state, zip);
    WellFormedTail(state, zip);
    StateZipSpaced(state, zip);
    SpaceThenCity(city);
    MatchFromPieces(street + ", " + city + ", " + state + " " + zip, street, " " + city, " " + state + " " + zip, (state, zip));
  }

  lemma Assembled(street: string, city: string, state: string, zip: string)
    ensures street + ", " + city + ", " + state + " " + zip == street + "," + (" " + city) + "," + (" " + state + " " + zip)
  {
  }

  lemma SpaceThenCity(city: string)
    requires '\n' !in city && ',' !in city
    ensures (" " + city)[LeadingSpace(" " + city)..] == city[LeadingSpace(city)..]
    ensures '\n' !in " " + city && ',' !in " " + city
  {
    assert (" " + city)[1..] == city;
  }

  /** A text made of a street, a comma, a comma-free city part, a comma and a
      state-and-zip tail matches with exactly those groups. */
  lemma MatchFromPieces(t: string, street: string, g2: string, tail: string, sz: (string, string))
    requires t == street + "," + g2 + "," + tail
    requires ',' !in g2 && ',' !in tail && '\n' !in street && '\n' !in g2
    requires MatchStateZip(tail) == Some(sz)
    ensures MatchAddress(t) == Some(AddressParts(street, g2[LeadingSpace(g2)..], sz.0, sz.1))
  {
    var c1 := |street|;
    var c2 := |street| + 1 + |g2|;
    WellFormedCommas(street, g2, tail);
    assert t[c2 + 1..] == tail;
    assert t[..c1] == street;
    assert t[c1 + 1..c2] == g2;
    assert FirstCommaFits(t, c1, c2) by {
      assert forall x :: x in g2[LeadingSpace(g2)..] ==> x in g2;
    }
    FirstCommaIs(t, c1, c2);
    MatchAddressIs(t, c1, c2, sz);
  }

  lemma NormalisedWellFormed(street: string, city: string, state: string, zip: string)
    requires |state| == 2 && IsUpperLetter(state[0]) && IsUpperLetter(state[1])
    requires |zip| == 5 && AllDigits(zip)
    ensures Normalise(AddressParts(street, city[LeadingSpace(city)..], state, zip))
         == AddressParts(Upper(Strip(street)), Upper(Strip(city)), state, zip)
  {
    StripAfterLeading(city);
    StateNormal(state);
    ZipNormal(zip);
  }

  /** The assembled address has nothing to strip. */
  lemma WellFormedStripped(street: string, g2: string, tail: string, zip: string)
    requires street == [] || !IsSpace(street[0])
    requires |zip| == 5 && AllDigits(zip) && EndsWith(tail, zip)
    ensures Strip(street + "," + g2 + "," + tail) == street + "," + g2 + "," + tail
  {
    var t := street + "," + g2 + "," + tail;
    assert t[0] == if street == [] then ',' else street[0];
    assert t[|t| - 1] == tail[|tail| - 1] == zip[4];
    StripNoop(t);
  }

  /** In the assembled address the two commas the pattern needs are the last
      one and the last one before it. */
  lemma WellFormedCommas(street: string, g2: string, tail: string)
    requires ',' !in g2 && ',' !in tail
    ensures var t := street + "," + g2 + "," + tail;
      var c2 := |street| + 1 + |g2|;
      && LastComma(t, |t|) == Some(c2)
      && forall i :: |street| < i < c2 ==> t[i] != ','
  {
    var t := street + "," + g2 + "," + tail;
    var c2 := |street| + 1 + |g2|;
    forall i | c2 < i < |t| ensures t[i] != ',' {
      assert t[i] == tail[i - c2 - 1];
    }
    forall i | |street| < i < c2 ensures t[i] != ',' {
      assert t[i] == g2[i - |street| - 1];
    }
    LastCommaIs(t, c2);
  }

  lemma WellFormedTail(state: string, zip: string)
    requires |state| == 2 && IsUpperLetter(state[0]) && IsUpperLetter(state[1])
    requires |zip| == 5 && AllDigits(zip)
    ensures ',' !in " " + state + " " + zip
    ensures EndsWith(" " + state + " " + zip, zip)
  {
    var tail := " " + state + " " + zip;
    assert tail[|tail| - 5..] == zip;
    forall i | 0 <= i < |tail| ensures tail[i] != ',' {
      if 1 <= i < 3 {
        assert tail[i] == state[i - 1];
      } else if 4 <= i {
        assert tail[i] == zip[i - 4];
      }
    }
  }

  /** `upper()` maps each character on its own. */
  lemma UpperIs(s: string, u: string)
    requires |s| == |u| && forall i :: 0 <= i < |s| ==> ToUpperChar(s[i]) == u[i]
    ensures Upper(s) == u
  {
  }

  /** `extract_address_parts("123 Main St, Springfield, IL 62704")`. */
  lemma SpringfieldAddress()
    ensures ExtractAddressParts(Some("123 Main St, Springfield, IL 62704"))
         == Some(AddressParts("123 MAIN ST", "SPRINGFIELD", "IL", "62704"))
  {
    SpringfieldPieces();
    WellFormedAddress("123 Main St", "Springfield", "IL", "62704");
    SpringfieldNormal();
  }

  lemma SpringfieldPieces()
    ensures "123 Main St, Springfield, IL 62704" == "123 Main St" + ", " + "Springfield" + ", " + "IL" + " " + "62704"
    ensures '\n' !in "123 Main St" && '\n' !in "Springfield" && ',' !in "Springfield"
    ensures AllDigits("62704") && !IsSpace('1')
  {
    SpringfieldJoined();
  }

  lemma SpringfieldJoined()
    ensures "123 Main St, Springfield, IL 62704" == "123 Main St" + ", " + "Springfield" + ", " + "IL" + " " + "62704"
  {
    var a := "123 Main St" + ", " + "Springfield";
    assert a == "123 Main St, Springfield";
    assert a + ", " + "IL" + " " + "62704" == "123 Main St, Springfield, IL 62704";
  }

  lemma SpringfieldNormal()
    ensures Upper(Strip("123 Main St")) == "123 MAIN ST"
    ensures Upper(Strip("Springfield")) == "SPRINGFIELD"
  {
    StripNoop("123 Main St");
    StripNoop("Springfield");
    UpperIs("123 Main St", "123 MAIN ST");
    UpperIs("Springfield", "SPRINGFIELD");
  }

  /** Without a comma nothing matches. */
  lemma AddressWithoutComma()
    ensures ExtractAddressParts(Some("not a real address")) == None
    ensures ExtractAddressParts(None) == None
  {
    var a := "not a real address";
    StripNoop(a);
    assert ',' !in a;
  }

  /** When the text after the last comma is not a state and a zip, nothing
      matches. */
  lemma TailMismatch(head: string, tail: string)
    requires head != [] && !IsSpace(head[0])
    requires tail != [] && !IsSpace(tail[|tail| - 1])
    requires ',' !in tail
    requires MatchStateZip(tail) == None
    ensures ExtractAddressParts(Some(head + "," + tail)) == None
  {
    var address := head + "," + tail;
    var c2 := |head|;
    assert address[0] == head[0] && address[|address| - 1] == tail[|tail| - 1];
    StripNoop(address);
    assert address[c2 + 1..] == tail;
    forall i | c2 < i < |address| ensures address[i] != ',' {
      assert address[i] == tail[i - c2 - 1];
    }
    LastCommaIs(address, c2);
  }

  /** A lower-case state does not match `[A-Z]{2}`. */
  lemma LowerCaseState()
    ensures ExtractAddressParts(Some("123 Main St, Springfield, il 62704")) == None
  {
    assert "123 Main St, Springfield, il 62704" == "123 Main St, Springfield" + "," + " il 62704";
    assert " il 62704"[1..] == "il 62704";
    assert MatchStateZip("il 62704") == None;
    TailMismatch("123 Main St, Springfield", " il 62704");
  }

  /** A ZIP+4 code is not five digits at the end. */
  lemma ZipPlusFour()
    ensures ExtractAddressParts(Some("123 Main St, Springfield, IL 62704-1234")) == None
  {
    assert "123 Main St, Springfield, IL 62704-1234" == "123 Main St, Springfield" + "," + (" " + "IL" + " " + "62704-1234");
    StateZipSpacedLongZip("IL", "62704-1234");
    TailMismatch("123 Main St, Springfield", " " + "IL" + " " + "62704-1234");
  }

  /** After the state, digits that do not end five characters later do not
      match. */
  lemma StateZipSpacedLongZip(state: string, zip: string)
    requires StateShaped(state) && zip != [] && !IsSpace(zip[0]) && |zip| != 5 && ',' !in zip
    ensures ',' !in " " + state + " " + zip
    ensures MatchStateZip(" " + state + " " + zip) == None
  {
    var tail := " " + state + " " + zip;
    assert tail[1..] == state + " " + zip;
    var u := tail[1..];
    assert u[..2] == state && u[2..] == " " + zip;
    assert u[2..][1..] == zip;
    assert MatchZip(state, zip) == None;
    assert MatchZip(state, " " + zip) == None;
    assert MatchStateZip(u) == None;
    assert forall i :: 0 <= i < |tail| ==> tail[i] == ' ' || IsUpperLetter(tail[i]) || tail[i] in zip;
  }
}

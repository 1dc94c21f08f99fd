/** The pre-processing filters applied to a scraped review table: the emoji
    filter on text cells, the removal of letters before reading a column as
    integers, and the guard on the file name of a table to load. A table is a
    `DataFrame` object: column names in order and a map from name to cells. */
module PreProcessing {
  import opened Wrappers
  import opened Text

  // ---------------------------------------------------------------- emoji filter

  /** U+200D ZERO WIDTH JOINER. */
  const Zwj: char := 0x200D as char

  /** The skin-tone modifiers U+1F3FB..U+1F3FF. */
  predicate IsSkinTone(c: char) {
    0x1F3FB <= c as int <= 0x1F3FF
  }

  /** The character class of the emoji pattern: thirteen code point ranges,
      one of which (U+24C2..U+1F251) also spans most of the Basic
      Multilingual Plane above the Latin, Greek and Cyrillic scripts. */
  predicate IsEmojiBase(c: char) {
    var n := c as int;
    || 0x1F600 <= n <= 0x1F64F
    || 0x1F300 <= n <= 0x1F5FF
    || 0x1F680 <= n <= 0x1F6FF
    || 0x1F700 <= n <= 0x1F77F
    || 0x1F780 <= n <= 0x1F7FF
    || 0x1F800 <= n <= 0x1F8FF
    || 0x1F900 <= n <= 0x1F9FF
    || 0x1FA00 <= n <= 0x1FA6F
    || 0x1FA70 <= n <= 0x1FAFF
    || 0x2702 <= n <= 0x27B0
    || 0x24C2 <= n <= 0x1F251
    || 0x1F004 <= n <= 0x1F0CF
    || 0x1F170 <= n <= 0x1F251
  }

  /** `all_emoji_regex.sub("", s)`: scanning left to right, a character of
      the class is removed, a joiner is removed together with a skin tone
      right after it, and a skin tone is removed on its own. */
  function RemoveEmojis(s: string): (r: string)
    ensures |r| <= |s|
    ensures forall i :: 0 <= i < |r| ==> !IsEmojiBase(r[i]) && !IsSkinTone(r[i])
    decreases |s|
  {
    if s == [] then []
    else if IsEmojiBase(s[0]) then RemoveEmojis(s[1..])
    else if s[0] == Zwj && |s| > 1 && IsSkinTone(s[1]) then RemoveEmojis(s[2..])
    else if IsSkinTone(s[0]) then RemoveEmojis(s[1..])
    else [s[0]] + RemoveEmojis(s[1..])
  }

  /** Reference reading, one position at a time: position `i` goes when it
      holds a character of the class or a skin tone, or a joiner right
      before a skin tone. */
  predicate DroppedAt(s: string, i: nat)
    requires i < |s|
  {
    IsEmojiBase(s[i]) || IsSkinTone(s[i]) || (s[i] == Zwj && i + 1 < |s| && IsSkinTone(s[i + 1]))
  }

  /** The characters of `s` from position `i` on that are not dropped, in
      their order. */
  function KeptFrom(s: string, i: nat): string
    requires i <= |s|
    decreases |s| - i
  {
    if i == |s| then []
    else (if DroppedAt(s, i) then [] else [s[i]]) + KeptFrom(s, i + 1)
  }

  lemma {:induction false} RemoveEmojisFrom(s: string, i: nat)
    requires i <= |s|
    ensures RemoveEmojis(s[i..]) == KeptFrom(s, i)
    decreases |s| - i
  {
    if i < |s| {
      var t := s[i..];
      assert t[0] == s[i] && t[1..] == s[i + 1..];
      RemoveEmojisFrom(s, i + 1);
      if !IsEmojiBase(s[i]) && s[i] == Zwj && i + 1 < |s| && IsSkinTone(s[i + 1]) {
        assert t[1] == s[i + 1] && t[2..] == s[i + 2..];
        RemoveEmojisFrom(s, i + 2);
        assert DroppedAt(s, i + 1);
      }
    }
  }

  /** The filter removes exactly the dropped positions and keeps every other
      character in its order. */
  lemma RemoveEmojisIsKept(s: string)
    ensures RemoveEmojis(s) == KeptFrom(s, 0)
  {
    assert s[0..] == s;
    RemoveEmojisFrom(s, 0);
  }

  /** Text with no character of the class and no skin tone passes
      unchanged. */
  lemma {:induction false} CleanTextKept(s: string)
    requires forall i :: 0 <= i < |s| ==> !IsEmojiBase(s[i]) && !IsSkinTone(s[i])
    ensures RemoveEmojis(s) == s
    decreases |s|
  {
    if s != [] {
      CleanTextKept(s[1..]);
    }
  }

  /** Filtering twice is filtering once. */
  lemma {:induction false} RemoveEmojisIdempotent(s: string)
    ensures RemoveEmojis(RemoveEmojis(s)) == RemoveEmojis(s)
  {
    CleanTextKept(RemoveEmojis(s));
  }

  /** Text below U+200D (Latin, Greek, Cyrillic, ...) passes unchanged. */
  lemma {:induction false} LowTextKept(s: string)
    requires forall i :: 0 <= i < |s| ==> s[i] as int < 0x200D
    ensures RemoveEmojis(s) == s
  {
    CleanTextKept(s);
  }

  /** CJK ideographs (U+4E00..U+9FFF) fall in the wide range and are
      removed, although they are not emoji. */
  lemma {:induction false} IdeographsRemoved(s: string)
    requires forall i :: 0 <= i < |s| ==> 0x4E00 <= s[i] as int <= 0x9FFF
    ensures RemoveEmojis(s) == []
  {
    RemoveEmojisIsKept(s);
    KeptNone(s, 0);
  }

  lemma {:induction false} KeptNone(s: string, i: nat)
    requires i <= |s| && forall j :: i <= j < |s| ==> DroppedAt(s, j)
    ensures KeptFrom(s, i) == []
    decreases |s| - i
  {
    if i < |s| {
      KeptNone(s, i + 1);
    }
  }

  /** A joiner between two emoji that are not skin tones survives, as in the
      family sequences. */
  lemma JoinerBetweenEmojiSurvives(a: char, b: char)
    requires IsEmojiBase(a) && IsEmojiBase(b) && !IsSkinTone(b)
    ensures RemoveEmojis([a, Zwj, b]) == [Zwj]
  {
    var s := [a, Zwj, b];
    assert !IsEmojiBase(Zwj) && !IsSkinTone(Zwj);
    assert s[1..] == [Zwj, b] && [Zwj, b][1..] == [b] && [b][1..] == [];
    assert RemoveEmojis([b]) == [];
    assert RemoveEmojis([Zwj, b]) == [Zwj] + RemoveEmojis([b]);
    assert RemoveEmojis(s) == RemoveEmojis([Zwj, b]);
  }

  /** A joiner before a skin tone goes with it. */
  lemma {:induction false} JoinerBeforeSkinToneRemoved(tone: char)
    requires IsSkinTone(tone)
    ensures RemoveEmojis([Zwj, tone]) == []
  {
    assert !IsEmojiBase(Zwj);
    assert [Zwj, tone][2..] == [];
  }

  // ---------------------------------------------------------------- tables

  /** A cell: text, a number, or a missing value (`NaN`). */
  datatype Cell = Str(s: string) | Num(n: int) | Missing

  /** `str(cell)` as `.astype(str)` writes it. */
  function CellText(c: Cell): string {
    match c
    case Str(s) => s
    case Num(n) => IntToString(n)
    case Missing => "nan"
  }

  /** A table: its column names in order and the cells of each column. */
  class DataFrame {
    var names: seq<string>
    var columns: map<string, seq<Cell>>

    constructor (names: seq<string>, columns: map<string, seq<Cell>>)
      ensures this.names == names && this.columns == columns
    {
      this.names := names;
      this.columns := columns;
    }
  }

  // ---------------------------------------------------------------- remove_alphabetic_chars

  /** `s` with the ASCII letters a-z and A-Z deleted. */
  function RemoveLetters(s: string): (r: string)
    ensures |r| <= |s|
    ensures forall i :: 0 <= i < |r| ==> !IsLetter(r[i])
    decreases |s|
  {
    if s == [] then []
    else (if IsLetter(s[0]) then [] else [s[0]]) + RemoveLetters(s[1..])
  }

  /** Deleting letters distributes over concatenation, so every character
      that is not a letter stays, in its place relative to the others. */
  lemma {:induction false} RemoveLettersConcat(a: string, b: string)
    ensures RemoveLetters(a + b) == RemoveLetters(a) + RemoveLetters(b)
    decreases |a|
  {
    if a != [] {
      assert (a + b)[0] == a[0] && (a + b)[1..] == a[1..] + b;
      RemoveLettersConcat(a[1..], b);
    } else {
      assert a + b == b;
    }
  }

  /** Only letters go: a character is in the result exactly when it is in
      the input and is not a letter. */
  lemma {:induction false} RemoveLettersMembers(s: string, c: char)
    ensures c in RemoveLetters(s) <==> c in s && !IsLetter(c)
    decreases |s|
  {
    if s != [] {
      RemoveLettersMembers(s[1..], c);
      assert c in s <==> c == s[0] || c in s[1..];
    }
  }

  /** One cell through `.str.replace("[a-zA-Z]", "", regex=True)` and
      `.astype(int)`: `None` where the cell is not text (the `.str` accessor
      yields `NaN`, which `int` rejects) or what is left is not an integer. */
  function CellInt(c: Cell): Option<int> {
    if c.Str? then PyInt(RemoveLetters(c.s)) else None
  }

  /** Every cell through `f`, or `None` as soon as one cell fails. */
  function MapCells(col: seq<Cell>, f: Cell -> Option<int>): (r: Option<seq<Cell>>)
    ensures r.Some? ==> |r.value| == |col|
    decreases |col|
  {
    if col == [] then Some([])
    else if f(col[0]).None? then None
    else
      match MapCells(col[1..], f)
      case None => None
      case Some(rest) => Some([Num(f(col[0]).value)] + rest)
  }

  /** `MapCells` succeeds exactly when `f` succeeds on every cell, and then
      holds `f`'s value in each place. */
  lemma {:induction false} MapCellsAll(col: seq<Cell>, f: Cell -> Option<int>)
    ensures MapCells(col, f).Some? <==> forall i :: 0 <= i < |col| ==> f(col[i]).Some?
    ensures MapCells(col, f).Some? ==> forall i :: 0 <= i < |col| ==> MapCells(col, f).value[i] == Num(f(col[i]).value)
    decreases |col|
  {
    if col != [] {
      var rest := col[1..];
      MapCellsAll(rest, f);
      if MapCells(col, f).Some? {
        var out := MapCells(col, f).value;
        assert out == [Num(f(col[0]).value)] + MapCells(rest, f).value;
        forall i | 0 <= i < |col|
          ensures f(col[i]).Some? && out[i] == Num(f(col[i]).value)
        {
          if i > 0 {
            assert col[i] == rest[i - 1];
            assert out[i] == MapCells(rest, f).value[i - 1];
          }
        }
      } else if f(col[0]).Some? {
        var j :| 0 <= j < |rest| && f(rest[j]).None?;
        assert col[j + 1] == rest[j];
      }
    }
  }

  /** `df[col].str.replace("[a-zA-Z]", "", regex=True).astype(int)` on one
      column. */
  function IntColumn(col: seq<Cell>): (r: Option<seq<Cell>>)
    ensures r.Some? ==> |r.value| == |col|
  {
    MapCells(col, CellInt)
  }

  /** A column converts exactly when each of its cells is text that reads as
      an integer once its letters are gone, and then each cell becomes that
      integer, in place. */
  lemma IntColumnCells(col: seq<Cell>)
    ensures IntColumn(col).Some? <==> forall i :: 0 <= i < |col| ==> col[i].Str? && PyInt(RemoveLetters(col[i].s)).Some?
    ensures IntColumn(col).Some? ==>
      forall i :: 0 <= i < |col| ==> IntColumn(col).value[i] == Num(PyInt(RemoveLetters(col[i].s)).value)
  {
    MapCellsAll(col, CellInt);
  }

  /** The columns after converting `targets` in order, and whether every
      conversion succeeded. A missing or failing column stops the loop; the
      columns converted before it stay converted. */
  function ConvertColumns(cols: map<string, seq<Cell>>, targets: seq<string>): (r: (map<string, seq<Cell>>, bool))
    ensures r.0.Keys == cols.Keys
    decreases |targets|
  {
    if targets == [] then (cols, true)
    else if targets[0] !in cols || IntColumn(cols[targets[0]]).None? then (cols, false)
    else ConvertColumns(cols[targets[0] := IntColumn(cols[targets[0]]).value], targets[1..])
  }

  /** `remove_alphabetic_chars`: converts the target columns in place, one
      after the other, and gives the same frame back, or `None` as soon as
      one column fails, with the columns before it already overwritten. */
  method RemoveAlphabeticChars(df: DataFrame, targets: seq<string>) returns (r: Option<DataFrame>)
    modifies df
    ensures df.names == old(df.names)
    ensures df.columns == ConvertColumns(old(df.columns), targets).0
    ensures r == if ConvertColumns(old(df.columns), targets).1 then Some(df) else None
  {
    for i := 0 to |targets|
      invariant df.names == old(df.names)
      invariant ConvertColumns(df.columns, targets[i..]) == ConvertColumns(old(df.columns), targets)
    {
      assert targets[i..][0] == targets[i] && targets[i..][1..] == targets[i + 1..];
      var col := targets[i];
      if col !in df.columns {
        return None;
      }
      var converted := IntColumn(df.columns[col]);
      if converted.None? {
        return None;
      }
      df.columns := df.columns[col := converted.value];
    }
    assert targets[|targets|..] == [];
    r := Some(df);
  }

  /** Columns that are not targets are left as they were. */
  lemma {:induction false} ConvertKeepsOthers(cols: map<string, seq<Cell>>, targets: seq<string>, k: string)
    requires k in cols && k !in targets
    ensures ConvertColumns(cols, targets).0[k] == cols[k]
    decreases |targets|
  {
    if targets != [] && targets[0] in cols && IntColumn(cols[targets[0]]).Some? {
      ConvertKeepsOthers(cols[targets[0] := IntColumn(cols[targets[0]]).value], targets[1..], k);
    }
  }

  /** On success every target column holds numbers only. */
  lemma {:induction false} ConvertedAreNumbers(cols: map<string, seq<Cell>>, targets: seq<string>, k: string)
    requires ConvertColumns(cols, targets).1 && k in targets
    ensures k in cols
    ensures forall c :: c in ConvertColumns(cols, targets).0[k] ==> c.Num?
    decreases |targets|
  {
    var t := targets[0];
    var c := IntColumn(cols[t]).value;
    var next := cols[t := c];
    IntColumnCells(cols[t]);
    if k in targets[1..] {
      ConvertedAreNumbers(next, targets[1..], k);
    } else {
      assert k == t;
      ConvertKeepsOthers(next, targets[1..], k);
    }
  }

  /** Converting column `target` of `cols` fails. */
  predicate FailsOn(cols: map<string, seq<Cell>>, target: string) {
    target !in cols || IntColumn(cols[target]).None?
  }

  /** On failure there is a first failing target: the ones before it all
      convert, and the frame is exactly as converting them leaves it. */
  lemma {:induction false} ConvertFailureKeepsPrefix(cols: map<string, seq<Cell>>, targets: seq<string>)
    requires !ConvertColumns(cols, targets).1
    ensures exists k :: (0 <= k < |targets|
      && ConvertColumns(cols, targets[..k]).1
      && FailsOn(ConvertColumns(cols, targets[..k]).0, targets[k])
      && ConvertColumns(cols, targets).0 == ConvertColumns(cols, targets[..k]).0)
    decreases |targets|
  {
    var t := targets[0];
    if t !in cols || IntColumn(cols[t]).None? {
      assert targets[..0] == [];
      assert ConvertColumns(cols, targets[..0]) == (cols, true);
      assert FailsOn(cols, targets[0]);
    } else {
      var next := cols[t := IntColumn(cols[t]).value];
      ConvertFailureKeepsPrefix(next, targets[1..]);
      var k :| 0 <= k < |targets[1..]|
        && ConvertColumns(next, targets[1..][..k]).1
        && FailsOn(ConvertColumns(next, targets[1..][..k]).0, targets[1..][k])
        && ConvertColumns(next, targets[1..]).0 == ConvertColumns(next, targets[1..][..k]).0;
      ConvertPrefixCons(cols, targets, k);
      assert targets[1..][k] == targets[k + 1];
      var p := ConvertColumns(cols, targets[..k + 1]);
      assert p.1 && FailsOn(p.0, targets[k + 1]) && ConvertColumns(cols, targets).0 == p.0;
    }
  }

  /** Converting one more target after a first one that converts. */
  lemma ConvertPrefixCons(cols: map<string, seq<Cell>>, targets: seq<string>, k: nat)
    requires k < |targets| && targets[0] in cols && IntColumn(cols[targets[0]]).Some?
    ensures ConvertColumns(cols, targets[..k + 1]) ==
      ConvertColumns(cols[targets[0] := IntColumn(cols[targets[0]]).value], targets[1..][..k])
  {
    var p := targets[..k + 1];
    assert p[0] == targets[0] && p[1..] == targets[1..][..k];
  }

  /** Text made of letters only vanishes. */
  lemma {:induction false} LettersVanish(s: string)
    requires forall i :: 0 <= i < |s| ==> IsLetter(s[i])
    ensures RemoveLetters(s) == []
    decreases |s|
  {
    if s != [] {
      LettersVanish(s[1..]);
    }
  }

  /** "5 " reads as 5: `int` ignores the surrounding whitespace. */
  lemma FiveWithSpace()
    ensures PyInt("5 ") == Some(5)
  {
    StripSurrounded([], "5", " ");
    assert [] + "5" + " " == "5 ";
    assert DigitBody("5");
    RemoveCharAbsent("5", '_');
    assert DigitsValue("5") == 5;
  }

  lemma StarsLettersRemoved()
    ensures RemoveLetters("5 stars") == "5 "
  {
    StarsSplit();
    RemoveLettersConcat("5 ", "stars");
    StarsAllLetters();
    LettersVanish("stars");
    FiveSpaceKept();
  }

  lemma StarsSplit()
    ensures "5 stars" == "5 " + "stars"
  {
  }

  lemma StarsAllLetters()
    ensures forall i :: 0 <= i < |"stars"| ==> IsLetter("stars"[i])
  {
  }

  lemma FiveSpaceKept()
    ensures RemoveLetters("5 ") == "5 "
  {
    assert "5 "[1..] == " " && " "[1..] == [];
  }

  /** A star column such as "5 stars" reads as the number 5. */
  lemma StarsColumn()
    ensures IntColumn([Str("5 stars")]) == Some([Num(5)])
  {
    var s := "5 stars";
    StarsLettersRemoved();
    FiveWithSpace();
    var col := [Str(s)];
    IntColumnCells(col);
    var out := IntColumn(col).value;
    assert |out| == 1 && out[0] == Num(5);
    assert out == [Num(5)];
  }

  // ---------------------------------------------------------------- remove_emojis

  /** `pd.api.types.is_string_dtype(df[col])` as pandas 2 decides it: an
      object column is a string column only when every cell is text, so a
      missing cell (NaN) or a number disqualifies it, and an all-missing
      column (float64) is never one. */
  predicate IsStringColumn(col: seq<Cell>) {
    forall i :: 0 <= i < |col| ==> col[i].Str?
  }

  /** The default target columns: the text columns, in frame order. */
  function StringColumns(names: seq<string>, cols: map<string, seq<Cell>>): (r: seq<string>)
    ensures forall n :: n in r <==> n in names && n in cols && IsStringColumn(cols[n])
    decreases |names|
  {
    if names == [] then []
    else
      var rest := StringColumns(names[1..], cols);
      assert forall n :: n in names <==> n == names[0] || n in names[1..];
      if names[0] in cols && IsStringColumn(cols[names[0]]) then [names[0]] + rest else rest
  }

  /** `.astype(str).apply(lambda x: all_emoji_regex.sub("", x))`. */
  function CleanColumn(col: seq<Cell>): (r: seq<Cell>)
    ensures |r| == |col|
    ensures forall i :: 0 <= i < |col| ==> r[i] == Str(RemoveEmojis(CellText(col[i])))
    ensures forall i :: 0 <= i < |col| ==> r[i].Str? && |r[i].s| <= |CellText(col[i])|
    ensures forall i, k :: 0 <= i < |col| && 0 <= k < |r[i].s| ==> !IsEmojiBase(r[i].s[k]) && !IsSkinTone(r[i].s[k])
  {
    seq(|col|, i requires 0 <= i < |col| => Str(RemoveEmojis(CellText(col[i]))))
  }

  /** Cleaning a column twice is cleaning it once. */
  lemma CleanColumnIdempotent(col: seq<Cell>)
    ensures CleanColumn(CleanColumn(col)) == CleanColumn(col)
  {
    forall i | 0 <= i < |col|
      ensures CleanColumn(CleanColumn(col))[i] == CleanColumn(col)[i]
    {
      RemoveEmojisIdempotent(CellText(col[i]));
    }
  }

  /** The columns of the copy after cleaning `targets` in order; `None`
      where a target is not a column (`KeyError`, which propagates). */
  function CleanColumns(cols: map<string, seq<Cell>>, targets: seq<string>): (r: Option<map<string, seq<Cell>>>)
    ensures r.Some? ==> r.value.Keys == cols.Keys
    ensures r.Some? <==> forall n :: n in targets ==> n in cols
    decreases |targets|
  {
    if targets == [] then Some(cols)
    else if targets[0] !in cols then None
    else
      assert forall n :: n in targets <==> n == targets[0] || n in targets[1..];
      CleanColumns(cols[targets[0] := CleanColumn(cols[targets[0]])], targets[1..])
  }

  /** One step of `CleanColumns`. */
  lemma CleanColumnsOn(cols: map<string, seq<Cell>>, targets: seq<string>)
    requires targets != []
    ensures CleanColumns(cols, targets) ==
      if targets[0] !in cols then None
      else CleanColumns(cols[targets[0] := CleanColumn(cols[targets[0]])], targets[1..])
  {
  }

  /** `remove_emojis`: cleans the given columns, or by default every text
      column, of a copy of the frame; the input frame is not touched. */
  method RemoveEmojisFrame(df: DataFrame, targets: seq<string>) returns (r: Option<DataFrame>)
    ensures var chosen := if targets != [] then targets else StringColumns(df.names, df.columns);
      match r
      case None => CleanColumns(df.columns, chosen).None?
      case Some(clean) =>
        && fresh(clean) && clean.names == df.names
        && CleanColumns(df.columns, chosen) == Some(clean.columns)
  {
    var chosen := if targets != [] then targets else StringColumns(df.names, df.columns);
    var clean := new DataFrame(df.names, df.columns);
    var ok := CleanLoop(clean, chosen);
    r := if ok then Some(clean) else None;
  }

  /** The loop of `remove_emojis` over the chosen columns of the copy. */
  method CleanLoop(clean: DataFrame, chosen: seq<string>) returns (ok: bool)
    modifies clean
    ensures clean.names == old(clean.names)
    ensures ok ==> CleanColumns(old(clean.columns), chosen) == Some(clean.columns)
    ensures !ok ==> CleanColumns(old(clean.columns), chosen).None?
  {
    ghost var cols := clean.columns;
    for i := 0 to |chosen|
      invariant clean.names == old(clean.names)
      invariant CleanColumns(clean.columns, chosen[i..]) == CleanColumns(cols, chosen)
    {
      assert chosen[i..][0] == chosen[i] && chosen[i..][1..] == chosen[i + 1..];
      CleanColumnsOn(clean.columns, chosen[i..]);
      var col := chosen[i];
      if col !in clean.columns {
        return false;
      }
      clean.columns := clean.columns[col := CleanColumn(clean.columns[col])];
    }
    assert chosen[|chosen|..] == [];
    ok := true;
  }

  /** After cleaning, every target column is text free of emoji, and other
      columns are as they were. */
  lemma {:induction false} CleanColumnsEffect(cols: map<string, seq<Cell>>, targets: seq<string>, k: string)
    requires CleanColumns(cols, targets).Some? && k in cols
    ensures k !in targets ==> CleanColumns(cols, targets).value[k] == cols[k]
    ensures k in targets ==> CleanColumns(cols, targets).value[k] == CleanColumn(cols[k])
    decreases |targets|
  {
    if targets != [] {
      var t := targets[0];
      var next := cols[t := CleanColumn(cols[t])];
      CleanColumnsEffect(next, targets[1..], k);
      if k == t && k in targets[1..] {
        CleanColumnIdempotent(cols[k]);
      }
    }
  }

  // ---------------------------------------------------------------- csv_to_df

  /** The guard of `csv_to_df`: the lower-cased path ends in "csv". */
  predicate CsvPathAccepted(path: string) {
    EndsWith(Lower(path), "csv")
  }

  /** `csv_to_df`, with what `pd.read_csv` would give as a parameter (`None`
      for a read that raises). */
  function CsvToDf<T>(path: string, read: Option<T>): (r: Option<T>)
    ensures !CsvPathAccepted(path) ==> r.None?
    ensures CsvPathAccepted(path) ==> r == read
  {
    if !CsvPathAccepted(path) then None else read
  }

  /** Any letter case is accepted. */
  lemma CsvPathUpperCase()
    ensures CsvPathAccepted("reviews.CSV")
  {
    assert Lower("CSV") == "csv" by {
      var l := Lower("CSV");
      assert |l| == 3 && l[0] == 'c' && l[1] == 's' && l[2] == 'v';
    }
    LowerConcat("reviews.", "CSV");
    LowerNoUpper("reviews.");
    assert ("reviews." + "csv")[8..] == "csv";
  }

  /** The dot before the extension is not checked. */
  lemma CsvPathWithoutDot()
    ensures CsvPathAccepted("reviews_csv")
  {
    LowerNoUpper("reviews_csv");
    assert "reviews_csv"[8..] == "csv";
  }

  /** Other extensions are refused. */
  lemma CsvPathOtherExtension()
    ensures !CsvPathAccepted("reviews.xlsx")
  {
    LowerNoUpper("reviews.xlsx");
    assert "reviews.xlsx"[9..][0] == 'l';
  }
}

# Google Maps review pipeline and `starbuck` import, in Dafny

This project models the review pipeline for one business on Google Maps:

- **Scrape** (`i_web_scraper.py`). The page URL is checked. Relative dates such as "3 weeks ago" are resolved against today's date. The review texts and ratings are cut out of the page source.
- **Stage** (`ii_stage_data.py`). The reviews become CSV rows under a default or chosen file name.
- **Pre-process** (`iii_data_pre_processing.py`). The loader accepts only CSV paths. Letters are removed from the rating columns before they become integers. Emoji are removed from the text columns.
- **Final processing** (`iv_data_final_processing.py`). The author name is split into first and last. The food, service and atmosphere ratings are read. The address is split into street, city, state and zip.
- **Import** (the Django app `starbuck`). `models.py` writes the tables `Business`, `Store`, `ScrapeEvent`, `CustomerReview`, `SubcategoryReview` and `CustomerSubcategoryReview`. Each call finds or creates the business and the three fixed `SubcategoryReview` lookup rows (Food, Service and Atmosphere). For every review it then finds or creates the store, the scrape event and the customer review, and one `CustomerSubcategoryReview` row per sub-rating that is present. The `import_reviews` management command sorts the file newest first, imports it row by row, warns about each row it skips, and ends with a summary line.

Pure code is modelled as functions with lemmas about them.

Code that changes state is modelled as methods, each proved against those functions:

- **Database.** The `Database` class holds the tables. Each method leaves exactly the tables of the function of the same name in `Models`.
- **Command.** The `Command` class holds the database and the lines written to standard output.
- **Data frame.** The `DataFrame` class holds the columns that `remove_alphabetic_chars` rewrites in place.
- **Loops.** The loops over reviews, rows and page positions are `while` loops with invariants that tie them to a fold function.

The properties proved about those functions fall into three groups.

- **Database:**
  - every upsert keeps the uniqueness constraints of the Django models;
  - calling `create_scrape_event` a second time with the same data, on the tables the first call left, creates no row and reports the same result (per call; not proved for a second run of the whole command);
  - store ids are the business prefix and a zero-padded number one greater than the business's greatest id;
  - the import's counters, warnings and summary agree.
- **Text processing:**
  - the address parser returns a two-letter state and a five-digit zip that end the address;
  - emoji removal is idempotent;
  - a resolved date is a `YYYY-MM-DD` date no later than today, and reads back as that day.
- **Order:** the sort on `review_date` is a sorted permutation.

The modules are:

| file | module | models |
|---|---|---|
| `wrappers.dfy` | `Wrappers` | `Option` and `Result` |
| `text.dfy` | `Text` | the Python string methods the code uses (`strip`, `split`, `title`, `upper`, `lower`, `find`, `int`, `str.format`) |
| `lex_order.dfy` | `LexOrder` | the database's text ordering, and `order_by(...).first()` |
| `calendar.dfy` | `Calendar` | `date.fromordinal`, `strftime("%Y-%m-%d")`, `strftime("%Y%m%d_%H%M%S")` |
| `web_scraper.dfy` | `WebScraper` | `verify_url`, `parse_relative_date`, `parse_data_to_list` |
| `stage_data.dfy` | `StageData` | `save_to_csv` |
| `pre_processing.dfy` | `PreProcessing` | `csv_to_df`, `remove_alphabetic_chars`, `remove_emojis` |
| `final_processing.dfy` | `FinalProcessing` | `extract_first_last`, `parse_subcategory_ratings`, `extract_address_parts` |
| `models.dfy` | `Models` | the tables, `Business.save`, `Store.save`, `ScrapeEvent.save`, `create_scrape_event` |
| `models_facts.dfy`, `models_replay.dfy`, `models_valid.dfy` | `ModelsFacts`, `ModelsReplay`, `ModelsValid` | what `create_scrape_event` guarantees, its idempotence, and the uniqueness constraints |
| `database.dfy` | `Database` | the same operations as methods on a mutable database |
| `import.dfy`, `import_facts.dfy` | `Import`, `ImportFacts` | `handle` and `import_data` as functions, and their properties |
| `import_reviews.dfy` | `ImportReviews` | the `Command` class |

Where the documentation of the system and its code disagree, the model follows the code:

- **"nan" address fields.** A row whose zip code (or other address field) is an empty cell is not skipped as missing. `str()` of pandas' `NaN` is `"nan"`, which passes the `all(required_fields)` guard, so such a row is imported with the address text "nan" (`Import.CellText`). The other effects of pandas' type inference on the cells are not modelled (see "Left out").
- **Incomplete reviews.** An incomplete review does not skip only its own record. `create_scrape_event` returns `None` at that entry and ignores the rest (`ModelsFacts.LaterEntriesIgnored`). The command calls it with one entry per row, so the row is skipped with the message of the failed tuple unpacking.
- **Relative dates.** The code does not look only for a leading "a" or "an". It replaces every "a " in the lower-cased text with "1 ", and leaves "an" alone (`WebScraper.ArticleReadsAsOne`).
- **Store ids.** Ids are not monotonic. The last id is picked by comparing ids as text, so after `X-9999` and `X-10000` the next id made is `X-10000` again, and that store cannot be created (`ModelsFacts.StoreIdCollision`).

## Model

| member | source | states |
|---|---|---|
| FinalProcessing.ExtractFirstLast | empirical/a_sourceCode/iv_data_final_processing.py:11-20 | a last name is only ever given together with a first name |
| FinalProcessing.NameBlankIffNone | empirical/a_sourceCode/iv_data_final_processing.py:17-20 | the first name is `None` exactly when the name is empty or all whitespace, and then both are `None` |
| FinalProcessing.MiddleWordsDiscarded | empirical/a_sourceCode/iv_data_final_processing.py:12-16 | with two or more words the result is the title-cased first and last word, whatever whitespace surrounds the name and whatever middle words or whitespace separate the two |
| FinalProcessing.SingleWord | empirical/a_sourceCode/iv_data_final_processing.py:17-18 | one word, whatever whitespace surrounds it, gives (title-cased word, `None`) |
| FinalProcessing.JaneQPublic | empirical/a_sourceCode/iv_data_final_processing.py:11-16 | "jane q public" gives ("Jane", "Public") |
| FinalProcessing.SearchLabel | empirical/a_sourceCode/iv_data_final_processing.py:30-32 | `re.search`: the leftmost position at or after the start where the label is followed by a digit, and none before it |
| FinalProcessing.LabelValueIffOccurs | empirical/a_sourceCode/iv_data_final_processing.py:30-38 | `LabelValue`: a rating is present exactly when its label occurs immediately followed by a digit |
| FinalProcessing.LabelValueLeftmost | empirical/a_sourceCode/iv_data_final_processing.py:30-38 | `LabelValue`: the rating is the value of the whole digit run after the leftmost occurrence |
| FinalProcessing.LabelValueAppend | empirical/a_sourceCode/iv_data_final_processing.py:30-38 | once a label has been read from a text that ends in a non-digit, no text appended after it changes that rating |
| FinalProcessing.RatingsKeptByAppend | empirical/a_sourceCode/iv_data_final_processing.py:23-41 | the three labels are searched independently: a food, service or atmosphere rating found in a text that ends in a non-digit is kept whatever follows, including other labels or the same label again |
| FinalProcessing.RatingsPresentIffLabelled | empirical/a_sourceCode/iv_data_final_processing.py:23-41 | `ParseSubcategoryRatings`: a value that is not text gives three `None`s; in text, each of food, service and atmosphere is present exactly when its own label occurs immediately followed by a digit |
| FinalProcessing.FoodDigits | empirical/a_sourceCode/iv_data_final_processing.py:30-36 | "Food:5" gives 5 and "Food:42 stars" gives 42 |
| FinalProcessing.LabelMustBeExact | empirical/a_sourceCode/iv_data_final_processing.py:30-32 | "Food: 5" and "food:5" give no rating |
| FinalProcessing.FoodAndAtmosphere | empirical/a_sourceCode/iv_data_final_processing.py:23-41 | "Food:5, Atmosphere:3" gives food 5, no service rating, atmosphere 3 |
| FinalProcessing.StateZipSpaced | empirical/a_sourceCode/iv_data_final_processing.py:45 | one space, two capitals, one space and five digits match the state-and-zip part |
| FinalProcessing.MatchStateZipShape | empirical/a_sourceCode/iv_data_final_processing.py:45 | what the state-and-zip part accepts is two capitals and five digits that end the text |
| FinalProcessing.LastCommaGreatest | empirical/a_sourceCode/iv_data_final_processing.py:45 | the second comma the pattern uses is the last comma of the text |
| FinalProcessing.FirstCommaGreatest | empirical/a_sourceCode/iv_data_final_processing.py:45 | the greedy first group settles on the greatest comma before it after which the match still fits |
| FinalProcessing.AddressStateAndZip | empirical/a_sourceCode/iv_data_final_processing.py:44-56 | `ExtractAddressParts`: whatever matched, the state is two capitals and the zip five digits that end the stripped input |
| FinalProcessing.NormalisedStateZip | empirical/a_sourceCode/iv_data_final_processing.py:51-54 | `Normalise` (of the address groups): `strip().upper()` and `strip()` leave a matched state and zip as they are |
| FinalProcessing.CityHasNoComma | empirical/a_sourceCode/iv_data_final_processing.py:45-52 | without a newline in the input, the city is comma-free text: earlier commas stay in the street |
| FinalProcessing.WellFormedAddress | empirical/a_sourceCode/iv_data_final_processing.py:44-56 | `ExtractAddressParts`: "street, city, ST 12345" gives the stripped, upper-cased street and city, the state and the zip |
| FinalProcessing.SpringfieldAddress | empirical/a_sourceCode/iv_data_final_processing.py:44-56 | "123 Main St, Springfield, IL 62704" gives ("123 MAIN ST", "SPRINGFIELD", "IL", "62704") |
| FinalProcessing.AddressWithoutComma | empirical/a_sourceCode/iv_data_final_processing.py:46-58 | "not a real address", which has no comma, and a value that is not text give no parts |
| FinalProcessing.TailMismatch | empirical/a_sourceCode/iv_data_final_processing.py:57-58 | when the text after the last comma is not a state and a zip, nothing matches, with no partial result |
| FinalProcessing.LowerCaseState | empirical/a_sourceCode/iv_data_final_processing.py:45 | a lower-case state gives no parts |
| FinalProcessing.ZipPlusFour | empirical/a_sourceCode/iv_data_final_processing.py:45 | a ZIP+4 code gives no parts |
| FinalProcessing.StateZipSpacedLongZip | empirical/a_sourceCode/iv_data_final_processing.py:45 | after the state, a digit group that is not five characters long does not match |
| WebScraper.VerifyUrl | empirical/a_sourceCode/i_web_scraper.py:46-60 | a refused URL raises an error whose message starts "URL verification failed." |
| WebScraper.VerifyUrlAccepts | empirical/a_sourceCode/i_web_scraper.py:46-60 | the URL is accepted exactly when the lower-cased URL is an http or https URL, with or without "www.", landing on the lower-cased expected address; it is then returned lower-cased |
| WebScraper.PatternsAccept | empirical/a_sourceCode/i_web_scraper.py:48-55 | the four prefixes together accept exactly the URLs that land on the expected address |
| WebScraper.UnitAt | empirical/a_sourceCode/i_web_scraper.py:293 | the unit alternation matches exactly the unit word the text starts with |
| WebScraper.DaysAgo | empirical/a_sourceCode/i_web_scraper.py:299-310 | today minus the delta is written `YYYY-MM-DD` and reads back as that day; none when it would fall before 0001-01-01 |
| WebScraper.ParseRelativeDate | empirical/a_sourceCode/i_web_scraper.py:277-313 | a value that is not text comes back as it is; a changed result is a `YYYY-MM-DD` date no later than today |
| WebScraper.ResolvesAgo | empirical/a_sourceCode/i_web_scraper.py:293-310 | "N unit(s) ago" resolves to today minus N, 7N, 30N or 365N days, or comes back unchanged where that falls before year 1 |
| WebScraper.ResolvesPlain | empirical/a_sourceCode/i_web_scraper.py:293-310 | text of ASCII lower-case letters, digits and spaces with no "a " in it, whose leftmost number-and-unit is N unit, resolves to today minus N days, weeks, months (30 days) or years (365 days), or comes back unchanged when that falls before 0001-01-01 |
| WebScraper.ArticleReadsAsOne | empirical/a_sourceCode/i_web_scraper.py:290 | "a ..." resolves as "1 ..." does, or both come back as they were |
| WebScraper.ArticleNormalise | empirical/a_sourceCode/i_web_scraper.py:290 | `Normalise` (`lower()` then `replace("a ", "1 ")`): a leading "a " and a leading "1 " normalise alike |
| WebScraper.NormaliseNoSpace | empirical/a_sourceCode/i_web_scraper.py:290 | `Normalise` of text without whitespace is its lower-case form, still without whitespace |
| WebScraper.QuantityNeedsSpace | empirical/a_sourceCode/i_web_scraper.py:293 | text without whitespace holds no number-and-unit |
| WebScraper.NoSpaceUnchanged | empirical/a_sourceCode/i_web_scraper.py:293-295 | text without whitespace comes back unchanged |
| WebScraper.SearchSkip | empirical/a_sourceCode/i_web_scraper.py:293 | no match starts where there is no digit |
| WebScraper.AgoQuantity | empirical/a_sourceCode/i_web_scraper.py:293 | `SearchQuantity`: "N unit ago" and "N units ago" are read as the number N and that unit |
| WebScraper.HoursUnchanged | empirical/a_sourceCode/i_web_scraper.py:294-295 | "2 hours ago" comes back unchanged |
| WebScraper.ParseRelativeDateIdempotent | empirical/a_sourceCode/i_web_scraper.py:286-313 | resolving a resolved date again changes nothing |
| WebScraper.PyIndex | empirical/a_sourceCode/i_web_scraper.py:358 | a slice bound is read as Python does, clamped into the text |
| WebScraper.NextEntry | empirical/a_sourceCode/i_web_scraper.py:335-362 | a round that finds an entry moves the position strictly forward |
| WebScraper.Scan | empirical/a_sourceCode/i_web_scraper.py:334-362 | the two gathered lists have equal length |
| WebScraper.ScanRound | empirical/a_sourceCode/i_web_scraper.py:335-362 | one pass of the loop body breaks exactly where `NextEntry` finds nothing, and otherwise gives its text, label and next position |
| WebScraper.RatingRound | empirical/a_sourceCode/i_web_scraper.py:351-359 | the second find-and-slice of a round gives the star label of `RatingFrom` |
| WebScraper.RatingFromNoneIff | empirical/a_sourceCode/i_web_scraper.py:351-354 | `RatingFrom`: the star label is `None` exactly when no ratings marker occurs at or after the current position |
| WebScraper.Round | empirical/a_sourceCode/i_web_scraper.py:335-362 | one pass of the loop body: when no entry is left the rest of the scan is empty, otherwise the position strictly advances and the entry found heads the rest of the scan |
| WebScraper.Gather | empirical/a_sourceCode/i_web_scraper.py:334-362 | what is gathered so far, followed by the rest of the scan, is the whole scan before and after each round |
| WebScraper.ParseDataToList | empirical/a_sourceCode/i_web_scraper.py:316-369 | the loop gathers exactly `Scan` from position 0; a value that is not text gives two empty lists; the lists have equal length |
| WebScraper.BeforeFirstLacks | empirical/a_sourceCode/i_web_scraper.py:342-347 | the text before the first closing marker holds no closing marker |
| WebScraper.StripLacks | empirical/a_sourceCode/i_web_scraper.py:347 | stripping cannot create an occurrence of a marker |
| WebScraper.ScanTextsLackEndTag | empirical/a_sourceCode/i_web_scraper.py:340-349 | no review text gathered contains the closing marker |
| PreProcessing.RemoveEmojis | empirical/a_sourceCode/iii_data_pre_processing.py:93-122 | the result is no longer than the input and holds no character of the class and no skin tone |
| PreProcessing.RemoveEmojisFrom | empirical/a_sourceCode/iii_data_pre_processing.py:96-122 | the left-to-right filter equals the position-wise reference reading on every suffix |
| PreProcessing.RemoveEmojisIsKept | empirical/a_sourceCode/iii_data_pre_processing.py:96-122 | the filter removes exactly the dropped positions and keeps every other character in order |
| PreProcessing.CleanTextKept | empirical/a_sourceCode/iii_data_pre_processing.py:86-88 | text with nothing to remove passes unchanged |
| PreProcessing.RemoveEmojisIdempotent | empirical/a_sourceCode/iii_data_pre_processing.py:86-88 | filtering twice is filtering once |
| PreProcessing.LowTextKept | empirical/a_sourceCode/iii_data_pre_processing.py:96-113 | text below U+200D passes unchanged |
| PreProcessing.IdeographsRemoved | empirical/a_sourceCode/iii_data_pre_processing.py:108 | CJK ideographs fall in the wide enclosed-characters range and are removed |
| PreProcessing.JoinerBetweenEmojiSurvives | empirical/a_sourceCode/iii_data_pre_processing.py:116-119 | a joiner between two emoji that are not skin tones survives |
| PreProcessing.JoinerBeforeSkinToneRemoved | empirical/a_sourceCode/iii_data_pre_processing.py:117 | a joiner right before a skin tone is removed with it |
| PreProcessing.RemoveLetters | empirical/a_sourceCode/iii_data_pre_processing.py:37 | the result holds no ASCII letter and is no longer than the input |
| PreProcessing.RemoveLettersConcat | empirical/a_sourceCode/iii_data_pre_processing.py:37 | removing letters distributes over concatenation, so the other characters keep their order |
| PreProcessing.RemoveLettersMembers | empirical/a_sourceCode/iii_data_pre_processing.py:37 | a character is in the result exactly when it is in the input and is not a letter |
| PreProcessing.LettersVanish | empirical/a_sourceCode/iii_data_pre_processing.py:37 | text of letters only vanishes |
| PreProcessing.IntColumn | empirical/a_sourceCode/iii_data_pre_processing.py:37 | a converted column keeps its length |
| PreProcessing.IntColumnCells | empirical/a_sourceCode/iii_data_pre_processing.py:37 | `CellInt` per cell: a column converts exactly when every cell is text reading as an integer once its letters are gone, and each cell becomes that integer |
| PreProcessing.StarsColumn | empirical/a_sourceCode/iii_data_pre_processing.py:37 | "5 stars" becomes the number 5 |
| PreProcessing.FiveWithSpace | empirical/a_sourceCode/iii_data_pre_processing.py:37 | "5 " reads as 5 |
| PreProcessing.ConvertColumns | empirical/a_sourceCode/iii_data_pre_processing.py:36-37 | converting keeps the set of columns |
| PreProcessing.RemoveAlphabeticChars | empirical/a_sourceCode/iii_data_pre_processing.py:33-43 | the frame is changed in place to `ConvertColumns` of its old columns; the result is the same frame on success and `None` otherwise |
| PreProcessing.ConvertKeepsOthers | empirical/a_sourceCode/iii_data_pre_processing.py:36-38 | columns that are not targets are left as they were |
| PreProcessing.ConvertedAreNumbers | empirical/a_sourceCode/iii_data_pre_processing.py:36-38 | on success every target exists and holds numbers only |
| PreProcessing.ConvertFailureKeepsPrefix | empirical/a_sourceCode/iii_data_pre_processing.py:35-43 | on failure there is a first failing target, and the columns before it stay converted |
| PreProcessing.StringColumns | empirical/a_sourceCode/iii_data_pre_processing.py:78-82 | the default targets are exactly the columns whose every cell is text: a column with a missing cell, a number, or only missing cells is not one (pandas 2 `is_string_dtype`) |
| PreProcessing.CleanColumn | empirical/a_sourceCode/iii_data_pre_processing.py:86-88 | each cell of a cleaned column is text, no longer than the cell's `str()` text, and holds no character of the emoji class and no skin tone |
| PreProcessing.CleanColumnIdempotent | empirical/a_sourceCode/iii_data_pre_processing.py:86-88 | cleaning a column twice is cleaning it once |
| PreProcessing.CleanColumns | empirical/a_sourceCode/iii_data_pre_processing.py:85-88 | cleaning keeps the set of columns, and fails exactly when a target is not a column |
| PreProcessing.CleanColumnsEffect | empirical/a_sourceCode/iii_data_pre_processing.py:84-90 | every target column is cleaned and every other column is kept |
| PreProcessing.RemoveEmojisFrame | empirical/a_sourceCode/iii_data_pre_processing.py:63-90 | a fresh frame with the same names holds the cleaned columns, the given targets or by default the columns whose every cell is text; the input frame is not changed |
| PreProcessing.CsvPathUpperCase | empirical/a_sourceCode/iii_data_pre_processing.py:19 | "reviews.CSV" is accepted |
| PreProcessing.CsvPathWithoutDot | empirical/a_sourceCode/iii_data_pre_processing.py:19 | "reviews_csv" is accepted: the dot is not checked |
| PreProcessing.CsvPathOtherExtension | empirical/a_sourceCode/iii_data_pre_processing.py:19-23 | "reviews.xlsx" is refused |
| StageData.JoinLength | empirical/a_sourceCode/ii_stage_data.py:75 | a joined text is as long as its parts plus one separator between each two |
| StageData.RowKeepsAddress | empirical/a_sourceCode/ii_stage_data.py:70 | `MakeRow`: every row carries the business address given |
| StageData.RowDateResolvedOrKept | empirical/a_sourceCode/ii_stage_data.py:72 | `MakeRow`: the date cell is the record's date as it came ("" when absent) or a `YYYY-MM-DD` date no later than today |
| StageData.StagingKeepsResolvedDate | empirical/a_sourceCode/ii_stage_data.py:72 | a date resolved when scraping is staged unchanged |
| StageData.CategoryRatingsBlank | empirical/a_sourceCode/ii_stage_data.py:75 | `MakeRow`: the category ratings cell is blank exactly when the list is absent, empty, or one blank rating |
| StageData.PathJoin | empirical/a_sourceCode/ii_stage_data.py:48 | `os.path.join` ends with the file name |
| StageData.PathJoinRelative | empirical/a_sourceCode/ii_stage_data.py:46-51 | joining a directory and a relative name keeps the directory in front |
| StageData.DefaultPath | empirical/a_sourceCode/ii_stage_data.py:41-51 | `Directory` and `FileName` with neither given: the path is "scraped_data/" followed by the default "google_maps_..." name |
| StageData.DefaultFileNameShape | empirical/a_sourceCode/ii_stage_data.py:41-43 | `FileName` without a name: the default name is "google_maps_", a fifteen-character timestamp and ".csv" |
| StageData.DefaultFileNameLoadable | empirical/a_sourceCode/ii_stage_data.py:41-43 | the default name passes the loader's extension guard |
| StageData.StageRows | empirical/a_sourceCode/ii_stage_data.py:67-77 | one row per review record, in order |
| StageData.SaveToCsv | empirical/a_sourceCode/ii_stage_data.py:21-80 | the path is the chosen directory joined with the chosen file name; one row per record, in order |
| Calendar.FromOrdinal | empirical/a_sourceCode/i_web_scraper.py:309 | `date.fromordinal` gives a valid date whose ordinal is the one given |
| Calendar.FormatDateShape | empirical/a_sourceCode/i_web_scraper.py:310 | `FormatDate`: a formatted date is four digits, a dash, two digits, a dash, two digits |
| Calendar.ParseFormatRoundTrip | empirical/a_sourceCode/i_web_scraper.py:310 | `FormatDate`: formatting a day and reading it back gives the same day |
| Calendar.TimestampShape | empirical/a_sourceCode/ii_stage_data.py:42 | `Timestamp`: a timestamp is fifteen characters, digits around one underscore |
| Text.Split | empirical/a_sourceCode/iv_data_final_processing.py:12 | `split()` gives non-empty words without whitespace |
| Text.SplitEmptyIffAllSpace | empirical/a_sourceCode/iv_data_final_processing.py:12-20 | `split()` finds no word exactly when the text is all whitespace |
| Text.TitleIsPositionwise | empirical/a_sourceCode/iv_data_final_processing.py:14-15 | `title()` keeps the length and agrees with the position-wise definition |
| Text.StripIsSlice | empirical/i_app/starbuck/models.py:128-131 | `strip()` is the slice between a whitespace-only prefix and a whitespace-only suffix, with no whitespace at its ends |
| Text.UpperStripIdempotent | empirical/i_app/starbuck/models.py:11 | `strip().upper()` is a normal form |
| Text.LowerStripIdempotent | empirical/i_app/starbuck/models.py:218 | `strip().lower()` is a normal form |
| Text.FindIsLeast | empirical/a_sourceCode/i_web_scraper.py:335 | `find` gives the first occurrence at or after the start, or -1 when there is none |
| Text.PyIntOfPad | empirical/i_app/starbuck/models.py:74 | `int()` reads a zero-padded number back as that number |
| Text.PadValue | empirical/i_app/starbuck/models.py:84 | `{n:04d}` reads as `n` and is four characters unless `n` needs more |
| Text.AfterLast | empirical/i_app/starbuck/models.py:74 | `split("-")[-1]` holds no separator and ends the id |
| LexOrder.LexLeTotal | empirical/i_app/starbuck/models.py:69 | any two ids are ordered one way or the other |
| LexOrder.LexLeTransitive | empirical/i_app/starbuck/models.py:69 | the order on ids is transitive |
| LexOrder.LexMax | empirical/i_app/starbuck/models.py:67-71 | `order_by("-store_id").first()` is one of the ids and no id sorts after it |
| Models.NamesNormalised | empirical/i_app/starbuck/models.py:11 | normalising a business name or a source a second time changes nothing |
| Models.LookupIsFirst | empirical/i_app/starbuck/models.py:143-146 | the lookup by natural key finds a key exactly when it is present, at its first row |
| Models.IdsOfMembers | empirical/i_app/starbuck/models.py:67-68 | the ids filtered by business are exactly those of the stores of that business |
| Models.EnsureSubcategories | empirical/i_app/starbuck/models.py:108-113 | three row numbers, each a row of the subcategory table |
| Models.AddSubReviews | empirical/i_app/starbuck/models.py:171-192 | sub-ratings change neither the businesses nor the subcategory rows |
| Models.ProcessEntry | empirical/i_app/starbuck/models.py:117-192 | one entry changes neither the businesses nor the subcategory rows |
| ModelsFacts.BusinessUpserted | empirical/i_app/starbuck/models.py:98-99 | the business row holds the normalised name; the tables are unchanged or have that name appended, and no other table changes |
| ModelsFacts.StoreIdReadsBack | empirical/i_app/starbuck/models.py:74-84 | an id written by `Store.save` reads back through `split("-")[-1]` and `int()` as its number |
| ModelsFacts.NewStoreIdShape | empirical/i_app/starbuck/models.py:80-84 | `NewStoreId`: a new id is the business prefix, "-", and one more than the business's last number |
| ModelsFacts.NextStoreNumber | empirical/i_app/starbuck/models.py:67-80 | `LastStoreNumber` and `NewStoreId`: when the greatest id of the business is `P-k`, the next store gets number k + 1 |
| ModelsFacts.FirstStoreId | empirical/i_app/starbuck/models.py:77-84 | the first store of a business is number 0001 |
| ModelsFacts.StoreIdCollision | empirical/i_app/starbuck/models.py:67-84 | ids compare as text: after "X-9999" and "X-10000" the next id made is "X-10000", which is taken, so the store cannot be created |
| ModelsFacts.EnsureSubcategoriesFixed | empirical/i_app/starbuck/models.py:108-113 | from no subcategory rows, or exactly the three, the rows are exactly Food, Service and Atmosphere at rows 0, 1, 2 |
| ModelsFacts.EntryRaises | empirical/i_app/starbuck/models.py:118-140 | an entry raises exactly when an address field is missing or not text or the store id is taken, and then writes nothing |
| ModelsFacts.IncompleteReviewKeepsRows | empirical/i_app/starbuck/models.py:150-158 | an entry with a complete address but an incomplete review returns `None` after its store and scrape event are written |
| ModelsFacts.SubReviewKeepsRating | empirical/i_app/starbuck/models.py:187-191 | an existing sub-rating row keeps its rating; otherwise one row with the given rating is appended |
| ModelsFacts.ProcessEntriesKeeps | empirical/i_app/starbuck/models.py:117-192 | what every pass of the loop keeps, the whole loop keeps |
| ModelsFacts.CreatedCounts | empirical/i_app/starbuck/models.py:147-195 | a loop that runs to the end adds one event per entry after those before, and counts every present sub-rating |
| ModelsFacts.LaterEntriesIgnored | empirical/i_app/starbuck/models.py:157-158 | once the loop stops at an entry, the entries after it are never looked at |
| ModelsFacts.EntryStepCounts | empirical/i_app/starbuck/models.py:176-192 | each pass that goes on counts the present sub-ratings of its entry |
| ModelsFacts.EntryStepKeepsSubcategories | empirical/i_app/starbuck/models.py:117-192 | no pass of the loop changes the subcategory rows |
| ModelsFacts.CreateScrapeEventGuards | empirical/i_app/starbuck/models.py:95-104 | without a business name nothing is written; without a source only the business row is written |
| ModelsFacts.CreateScrapeEventCreated | empirical/i_app/starbuck/models.py:115-195 | returned events are one per entry, and the count is every present sub-rating of every entry |
| ModelsFacts.CreateScrapeEventSubcategories | empirical/i_app/starbuck/models.py:108-113 | from no subcategory rows, or exactly the three, a call with a business name and a source leaves exactly Food, Service and Atmosphere |
| ModelsReplay.UpsertBusinessStable | empirical/i_app/starbuck/models.py:98-99 | the upsert only appends, and run again on any larger tables finds the same row and changes nothing |
| ModelsReplay.UpsertStoreStable | empirical/i_app/starbuck/models.py:65-86 | the same for stores: an existing store keeps its id |
| ModelsReplay.GetOrCreateEventStable | empirical/i_app/starbuck/models.py:143-146 | the same for scrape events |
| ModelsReplay.GetOrCreateReviewStable | empirical/i_app/starbuck/models.py:161-168 | the same for reviews |
| ModelsReplay.GetOrCreateSubcategoryStable | empirical/i_app/starbuck/models.py:111 | the same for subcategory rows |
| ModelsReplay.GetOrCreateSubReviewStable | empirical/i_app/starbuck/models.py:187-191 | the same for sub-rating rows |
| ModelsReplay.AddSubReviewsStable | empirical/i_app/starbuck/models.py:171-192 | the same for the sub-ratings of a review |
| ModelsReplay.ProcessEntryStable | empirical/i_app/starbuck/models.py:118-192 | one entry only appends; run again on any larger tables after an entry that went on, or on the same tables after one that stopped, it reports the same and writes nothing |
| ModelsReplay.ProcessEntriesGrows | empirical/i_app/starbuck/models.py:117-192 | the loop only appends |
| ModelsReplay.ProcessEntriesReplay | empirical/i_app/starbuck/models.py:117-192 | the loop run again on the tables it left gives the same outcome and leaves them as they are |
| ModelsReplay.CreateScrapeEventIdempotent | empirical/i_app/starbuck/models.py:94-195 | calling `create_scrape_event` again with the same data, on the tables the first call left, creates no row and reports what the first call reported |
| ModelsValid.EmptyValid | empirical/i_app/starbuck/models.py:38-44 | the empty database satisfies every uniqueness constraint |
| ModelsValid.DistinctAppend | empirical/i_app/starbuck/models.py:143-146 | appending a key the lookup did not find keeps the keys distinct |
| ModelsValid.UpsertBusinessValid | empirical/i_app/starbuck/models.py:98-99 | the business upsert keeps the tables valid |
| ModelsValid.UpsertStoreValid | empirical/i_app/starbuck/models.py:39 | the store upsert keeps natural keys and store ids unique |
| ModelsValid.GetOrCreateEventValid | empirical/i_app/starbuck/models.py:143-146 | scrape events stay unique by (store, source) |
| ModelsValid.GetOrCreateReviewValid | empirical/i_app/starbuck/models.py:161-168 | reviews stay unique by all their fields |
| ModelsValid.GetOrCreateSubcategoryValid | empirical/i_app/starbuck/models.py:252-254 | subcategory names stay unique |
| ModelsValid.GetOrCreateSubReviewValid | empirical/i_app/starbuck/models.py:243-244 | sub-ratings stay unique by (review, subcategory) |
| ModelsValid.EnsureSubcategoriesValid | empirical/i_app/starbuck/models.py:108-113 | the lookup step keeps the tables valid |
| ModelsValid.AddSubReviewsValid | empirical/i_app/starbuck/models.py:171-192 | the sub-ratings of a review keep the tables valid |
| ModelsValid.ProcessEntryValid | empirical/i_app/starbuck/models.py:117-192 | one entry keeps the tables valid with the business, the subcategory rows and a normalised source in place |
| ModelsValid.EntryStepValid | empirical/i_app/starbuck/models.py:117-192 | every pass of the loop does so |
| ModelsValid.CreateScrapeEventValid | empirical/i_app/starbuck/models.py:94-195 | `create_scrape_event` keeps the tables valid, whatever it returns |
| Database.Database.constructor | empirical/i_app/starbuck/models.py:6-44 | an empty database |
| Database.Database.Find | empirical/i_app/starbuck/models.py:143-146 | the loop finds the first row with the key, as `Lookup` does |
| Database.Database.UpsertBusiness | empirical/i_app/starbuck/models.py:98-99 | leaves the tables, and gives the row, of `Models.UpsertBusiness` |
| Database.Database.UpsertStore | empirical/i_app/starbuck/models.py:134-140 | leaves the tables, and gives the row or the error, of `Models.UpsertStore` |
| Database.Database.GetOrCreateEvent | empirical/i_app/starbuck/models.py:143-146 | as `Models.GetOrCreateEvent` |
| Database.Database.GetOrCreateReview | empirical/i_app/starbuck/models.py:161-168 | as `Models.GetOrCreateReview` |
| Database.Database.GetOrCreateSubcategory | empirical/i_app/starbuck/models.py:111 | as `Models.GetOrCreateSubcategory` |
| Database.Database.GetOrCreateSubReview | empirical/i_app/starbuck/models.py:187-191 | as `Models.GetOrCreateSubReview` |
| Database.Database.EnsureSubcategories | empirical/i_app/starbuck/models.py:108-113 | as `Models.EnsureSubcategories` |
| Database.Database.AddSubReviews | empirical/i_app/starbuck/models.py:171-192 | the loop leaves the tables of `Models.AddSubReviews` and counts the present ratings |
| Database.Database.ProcessEntry | empirical/i_app/starbuck/models.py:117-192 | one pass leaves the tables, and gives the step, of `Models.ProcessEntry` |
| Database.Database.CreateScrapeEvent | empirical/i_app/starbuck/models.py:94-195 | leaves the tables, and gives the outcome, of `Models.CreateScrapeEvent` |
| Database.Database.ProcessEntries | empirical/i_app/starbuck/models.py:115-195 | the loop over entries leaves the tables and outcome of `Models.ProcessEntries` |
| Import.ToEntry | empirical/i_app/starbuck/management/commands/import_reviews.py:123-138 | the entry's address is always text, and it is complete exactly when the stripped address fields are all non-empty |
| ImportFacts.BlankRatingAbsent | empirical/i_app/starbuck/management/commands/import_reviews.py:135-137 | `CellValue`: a sub-rating cell gives a present rating exactly when it is filled with text other than "" and "null"; an empty cell (`NaN`) or a missing column (`None`) gives none |
| ImportFacts.BlankZipPasses | empirical/i_app/starbuck/management/commands/import_reviews.py:130-148 | `CellText`: an empty zip cell reads as "nan", so with the other address fields filled the row passes the address guard and is imported with the zip "nan" |
| Import.SortByDate | empirical/i_app/starbuck/management/commands/import_reviews.py:96 | the sort keeps every row, as many times as it occurs |
| ImportFacts.DateFirstTotal | empirical/i_app/starbuck/management/commands/import_reviews.py:96 | any two dates are ordered one way or the other |
| ImportFacts.DateFirstTransitive | empirical/i_app/starbuck/management/commands/import_reviews.py:96 | the order on dates is transitive |
| ImportFacts.InsertSorted | empirical/i_app/starbuck/management/commands/import_reviews.py:96 | inserting a row into sorted rows keeps them sorted |
| ImportFacts.SortByDateSorted | empirical/i_app/starbuck/management/commands/import_reviews.py:96 | the sorted rows are newest first, empty dates last, and a permutation of the input |
| ImportFacts.ImportRowWrites | empirical/i_app/starbuck/management/commands/import_reviews.py:140-154 | a row changes the database only when its date converts and its address is filled; one with a blank address field is skipped as missing fields |
| ImportFacts.OneEntryLoop | empirical/i_app/starbuck/models.py:117-195 | the loop over a one-entry list ends with that entry's outcome |
| ImportFacts.OneEntryCreated | empirical/i_app/starbuck/management/commands/import_reviews.py:157-165 | a one-entry call that returns events returns one, with at most three sub-ratings |
| ImportFacts.ImportRowCounts | empirical/i_app/starbuck/management/commands/import_reviews.py:157-165 | a counted row passed both checks and adds its present sub-ratings, at most three |
| ImportFacts.OneEntryRaises | empirical/i_app/starbuck/management/commands/import_reviews.py:157-161 | a one-entry call on a filled address raises only for a missing name or source or a taken store id |
| ImportFacts.SkipReasons | empirical/i_app/starbuck/management/commands/import_reviews.py:140-171 | once its date converts, a row is skipped only for missing fields, a missing name or source, a taken store id or an incomplete review |
| ImportFacts.PresentCountBound | empirical/i_app/starbuck/models.py:171-192 | at most one sub-rating per rating |
| ImportFacts.RowStepCounts | empirical/i_app/starbuck/management/commands/import_reviews.py:163-165 | every row step counts at most three sub-ratings |
| ImportFacts.ImportRowsTally | empirical/i_app/starbuck/management/commands/import_reviews.py:115-171 | each row adds one warning or at most one success; warnings already written stay; each success adds at most three sub-ratings |
| ImportFacts.ImportRowsSplit | empirical/i_app/starbuck/management/commands/import_reviews.py:115-171 | the loop never stops early: the rows after any prefix run from what the prefix left |
| ImportFacts.ImportDataReport | empirical/i_app/starbuck/management/commands/import_reviews.py:109-177 | successes are at most the rows, sub-ratings at most three per success, one warning per row not counted, and the last line is the summary |
| ImportFacts.ImportRowsKeeps | empirical/i_app/starbuck/management/commands/import_reviews.py:115-171 | what every row step keeps, the loop keeps |
| ImportFacts.RowStepValid | empirical/i_app/starbuck/management/commands/import_reviews.py:157-161 | every row step keeps the tables valid |
| ImportFacts.HandleValid | empirical/i_app/starbuck/management/commands/import_reviews.py:92-107 | the command leaves valid tables valid |
| ImportFacts.HandleReport | empirical/i_app/starbuck/management/commands/import_reviews.py:92-107 | without a `review_date` column only the error is written and nothing changes; otherwise the last line is a summary over all rows |
| ImportReviews.Command.constructor | empirical/i_app/starbuck/management/commands/import_reviews.py:44-58 | a command on the given database with nothing written |
| ImportReviews.Command.ImportRow | empirical/i_app/starbuck/management/commands/import_reviews.py:116-171 | one row leaves the tables, and gives the result, of `Import.ImportRow` |
| ImportReviews.Command.ImportRows | empirical/i_app/starbuck/management/commands/import_reviews.py:115-171 | the loop leaves the tables of `Import.ImportRows`, writes its warnings and returns its counters |
| ImportReviews.Command.ImportData | empirical/i_app/starbuck/management/commands/import_reviews.py:109-177 | leaves the tables of `Import.ImportData` and writes its lines |
| ImportReviews.Command.Handle | empirical/i_app/starbuck/management/commands/import_reviews.py:92-107 | leaves the tables of `Import.Handle` and writes its lines |
## Left out

Missing behaviour:

- The Selenium session is left out: opening the browser, scrolling, clicking "More" and reading the page source. The page source is a parameter of `WebScraper.ParseDataToList`.
- The `main` functions of the four scripts are left out, as are `remove_pattern_from_columns`, `df_to_list_dict_values`, the admin registrations and the copies of the scripts. None of them is part of the modelled core.
- The clock is left out. Today's date is a parameter `today` (a proleptic Gregorian ordinal), and the time of day is a parameter `second`.
- Reading and writing CSV files is left out, because it is I/O. `csv_to_df` takes the result of the read as a parameter. `save_to_csv` returns the path and the rows it would write.
- Argument parsing and the styling of standard output are left out. The command's output is the sequence of lines written.
- `pd.to_datetime` and `timezone.make_aware` are left out, because they belong to pandas and Django. The command takes the conversion of `review_date` as a parameter `toDate`, which can fail.
- Django's transactions, savepoints and SQL are left out. A failed `Store.save` leaves the tables as they were, as the savepoint of `update_or_create` does. `auto_now_add` and `default` field values, and the database's coercion of ratings to integers, are not modelled. Ratings are compared as the values read from the file.
- `Store.save` called again on an existing store does nothing in the model. The code only generates an id when `store_id` is empty.
- Only ASCII is covered by case mapping, `isdigit`/`\d` and whitespace. `int()` also accepts non-ASCII digits, which the model does not.
- Column lengths (`max_length`) are not enforced. SQLite does not enforce them either.
- Import.SortByDate: keeps rows with equal dates in file order. The source does not promise an order for equal keys (`sort_values` does not sort stably by default).
- WebScraper.ParseDataToList: requires a non-empty opening or closing marker. With both empty, the source's loop never ends.
- Import.CellValue: every filled cell is text. `pd.read_csv` infers column types, so the source can see an `int`, a `float` or `NaN` where the model sees text. A `review_rating` of `0` is then the falsy integer `0`, which makes `create_scrape_event` return `None`; the model imports that row with the rating `"0"`.
- Import.CellText: a filled address cell keeps its text. In the source an all-digit zip column is read as integers, so `str()` turns "02134" into "2134". A zip column with one empty cell is read as floats, so "62704" becomes "62704.0". Only the empty cell itself ("nan") is modelled.
- ImportFacts.SkipReasons: holds only with all cells as text. With pandas' type inference a row whose rating reads as `0` is also skipped, with the unpacking message.
- FinalProcessing.ExtractFirstLast: takes text only. An empty `review_author` cell arrives as a float `NaN`, and `name.strip()` then raises `AttributeError`; the model has no such input.
- PreProcessing.StringColumns: follows pandas 2, where an object column is a string column only when every value is a string. Under pandas 1.x an object column of text with missing cells also counted, so those columns would be cleaned too (and their missing cells written as "nan"); an all-missing column is float64 and is excluded under both.
- PreProcessing.RemoveEmojisFrame: its default targets are `StringColumns`, so it inherits the pandas 1.x difference stated for that member.
- PreProcessing.CellInt: reads an unbounded integer. `astype(int)` converts to 64-bit integers and fails on values outside that range.
- Import.Handle: a second run of the command over the same file is not proved to leave the tables unchanged. Idempotence is proved for each call of `create_scrape_event` on the tables it left (`ModelsReplay.CreateScrapeEventIdempotent`). For the whole command, rows after the first would see tables extended by later rows, and that replay is not proved.
- Calendar.FormatDate: pads years below 1000 to four digits. `strftime` leaves their padding to the platform.

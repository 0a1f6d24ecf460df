# Chargemaster scraper, modelled in Dafny

This project models the scraping core of the price-transparency ETL in
`pct/etl/scraper.py`. A `Scraper` is configured per hospital: its price page
URL, a link label (the anchor text, or else the anchor `title`), a base URL, a
header row and an optional sheet number. `scrape` does the following, in order:

1. fetches the price page and insists on status 200;
2. feeds the page to a `WebpageParser`, which builds an index from link labels
   to hrefs;
3. resolves the configured label to `base_url + href`;
4. loads the chargemaster:
   - an `.xlsx` URL gives every sheet, each tagged with its name under
     `sheet_name`, appended in order;
   - a `.zip` URL is downloaded and must answer 200, then the first archive
     member is read with the configured sheet;
   - any other URL is read as CSV;
5. rewrites every column label as `replace(' ', '_').lower()`;
6. writes the table to `<hospital lower-cased>_chargemaster` in schema `raw`,
   replacing any existing table.

The modules:

- `Wrappers` holds `Option` and `Result`.
- `Errors` holds the ways a scrape can end without writing.
- `PyStr` holds the Python string operations used: `strip`, ASCII `lower`,
  `replace(' ', '_')` and `endswith`.
- `Frames` holds the slice of a DataFrame the scraper touches:
  - columns plus keyed rows;
  - `df[c] = v`;
  - `append`;
  - the sheet concatenation;
  - relabelling the columns by position.
- `Parsing` holds the parser:
  - a `WebpageParser` class whose handlers update its two fields;
  - the `Step`/`Run` functions that specify those handlers;
  - lemmas about the link index.
- `Scraping` holds the configuration, the resolution, the format dispatch, the
  sheet loop, the name normalisation and the whole scrape. It is written both
  as a specification function `Scraped` and as a method `Scrape` that writes
  to a `Database` object.

The HTTP client, the HTML tokenizer, the spreadsheet, CSV and zip readers are
the fields of an `Env` value. Each is a function of its arguments, so every
statement holds for every behaviour of those libraries.

Behaviour of the code worth knowing, each stated by a member below:

- **The base URL is always prepended.** `parse_webpage` returns `base_url +
  link` for every entry found, whether the entry was keyed by anchor text or
  by `title`; title-keyed hrefs get `base_url` prepended too
  (`LinkForLastWrite`).
- **`is_title` is never used.** It is computed and passed to `parse_webpage`,
  which ignores it (`IsTitleIgnored`, `ScrapeIgnoresIsTitle`).
- **A titled anchor's own text overwrites its entry.** When the text inside an
  anchor with a `title` strips to that same title, the text is recorded after
  the title, with whatever href was pending before the anchor (the empty
  string after an end tag), so the title's href is replaced
  (`TitleTextClobbers`).
- **Normalised labels can collide.** Two columns whose labels normalise to the
  same string are both kept, under that same label, because `df.columns =
  [...]` relabels by position (`RelabelCell`).
- **A valueless href is not found.** `url_text_pairs.get` returns `None` both
  for an absent label and for a label holding a valueless `href` (`<a href>`);
  both raise the not-found error (`Resolve`).
- **A titled anchor without an href raises.** An `a` tag with a `title` and no
  `href` raises `KeyError` before anything is recorded; this is the error
  `HrefKeyError` (`Step`, `RunFailsIff`).

## Model

| member | source | states |
|---|---|---|
| PyStr.Strip | pct/etl/scraper.py:117 | `data.strip()` neither starts nor ends with whitespace, and occurs in the input with only whitespace (Python's `isspace` set) around it |
| PyStr.StripPadded | pct/etl/scraper.py:117 | conversely, any slice that has only whitespace around it and neither starts nor ends with whitespace is the stripped string, so `Strip` is determined |
| PyStr.LowerChar | pct/etl/scraper.py:32 | an upper-case letter becomes the lower-case letter at the same place in the alphabet; every other character stays; the result is never upper case |
| PyStr.Lower | pct/etl/scraper.py:32 | `lower()` keeps the length and lower-cases each character in place |
| PyStr.EndsWith | pct/etl/scraper.py:57-67 | `url.endswith(suffix)` holds exactly when the last characters of the URL are, one by one, those of the suffix |
| PyStr.SpacesToUnderscores | pct/etl/scraper.py:32 | `replace(' ', '_')` keeps the length, turns each space into `_` and keeps every other character |
| Frames.SetColumn | pct/etl/scraper.py:62 | `df['sheet_name'] = name` keeps the row count; an existing column keeps its place, and a new one becomes the last column |
| Frames.SetColumnCell | pct/etl/scraper.py:62 | after the assignment every row shows the sheet name under the column, and its old cell under every other column |
| Frames.SetColumnValid | pct/etl/scraper.py:62 | the assignment keeps a frame well formed: distinct labels, and cells only under its own columns |
| Frames.Append | pct/etl/scraper.py:63 | `append` has the rows of both frames |
| Frames.AppendKeepsOrder | pct/etl/scraper.py:63 | the accumulator's columns come first, in their order |
| Frames.AppendColumns | pct/etl/scraper.py:63 | the appended frame has exactly the columns of both frames |
| Frames.AppendCell | pct/etl/scraper.py:63 | the accumulator's rows come first, then the appended frame's; each row shows what it showed in its own frame, and `Missing` under the columns its own frame lacked |
| Frames.AppendValid | pct/etl/scraper.py:63 | appending well-formed frames gives a well-formed frame |
| Frames.Tagged | pct/etl/scraper.py:62 | a sheet with its name written under the tag column has that column and the sheet's row count; its cells are given by `SetColumnCell` |
| Frames.Concat | pct/etl/scraper.py:58-63 | the accumulator after `k` sheets has as many rows as those sheets together |
| Frames.ConcatCell | pct/etl/scraper.py:58-63 | row `i` of sheet `k` is row `RowsBefore(k) + i` of the concatenation; it holds the sheet's name under the tag column, and its own cell (or `Missing`) under every other column |
| Frames.ConcatColumns | pct/etl/scraper.py:58-63 | the concatenation's columns are exactly the tag column (when there is a sheet) and the columns of some sheet |
| Frames.ConcatValid | pct/etl/scraper.py:58-63 | concatenating well-formed sheets yields a well-formed frame |
| Frames.Relabel | pct/etl/scraper.py:33 | `df.columns = labels` gives exactly those labels and keeps the row count; the cells are given by `RelabelCell` |
| Frames.RelabelCell | pct/etl/scraper.py:33 | `df.columns = labels` renames by position: the frame's rows in order, one cell per label, holding what the frame showed under the column at that position |
| Parsing.AttrDict | pct/etl/scraper.py:105 | `dict(attrs)` holds the last attribute's value under its name; which names are keys is given by `AttrDictKeys` |
| Parsing.AttrDictKeys | pct/etl/scraper.py:105-106 | `dict(attrs)` has a key for exactly the attribute names that occur |
| Parsing.AttrDictLast | pct/etl/scraper.py:105-107 | `dict(attrs)[name]` is the value of the last attribute with that name |
| Parsing.Step | pct/etl/scraper.py:103-118 | a handler raises exactly on an `a` tag that has a `title` but no `href`, and then with `KeyError` |
| Parsing.StepPairs | pct/etl/scraper.py:107-117 | a successful handler writes exactly its key (the title, or the stripped text) with its value, and no other entry changes |
| Parsing.Run | pct/etl/scraper.py:43 | feeding nothing changes nothing, and a failed feed fails only with `KeyError`; its contents are given by `RunKeys`, `LastWriteWins` and `UnwrittenKept` |
| Parsing.RunAppend | pct/etl/scraper.py:43 | feeding events in two parts is the same as feeding them at once |
| Parsing.RunFailsIff | pct/etl/scraper.py:107 | feeding fails exactly when some anchor has a title and no href, and then with `KeyError` |
| Parsing.RunKeys | pct/etl/scraper.py:107-117 | after feeding, the index keys are the keys held before plus exactly the titles and stripped texts seen |
| Parsing.LastWriteWins | pct/etl/scraper.py:107-117 | each key holds the value written by the last event that writes it, computed in the state just before that event |
| Parsing.UnwrittenKept | pct/etl/scraper.py:107-117 | a key that no event writes keeps what it had |
| Parsing.NonAnchorStartsIgnored | pct/etl/scraper.py:104 | start tags other than `a` leave the parser state unchanged |
| Parsing.TextAttribution | pct/etl/scraper.py:108-118 | after an `a` tag without a title, and any other start tags, the next text is recorded under its stripped form with the anchor's last href; the pending href is then cleared |
| Parsing.TitledAnchorText | pct/etl/scraper.py:103-117 | a titled anchor records its href under the title and leaves the pending href alone, so its text is recorded with the earlier pending href |
| Parsing.StrayText | pct/etl/scraper.py:113-118 | text after an end tag or after other text is recorded with `""` |
| Parsing.TitleTextClobbers | pct/etl/scraper.py:106-117 | when an anchor's text strips to its own title, the title's entry ends up holding the href pending before the anchor, not the anchor's href |
| Parsing.WebpageParser.constructor | pct/etl/scraper.py:98-101 | a fresh parser has `""` pending and an empty index |
| Parsing.WebpageParser.HandleStartTag | pct/etl/scraper.py:103-111 | the new state is the one `Step` gives for the start tag; the attribute loop leaves the last `href` pending; on `KeyError` nothing has changed |
| Parsing.WebpageParser.HandleEndTag | pct/etl/scraper.py:113-114 | any end tag clears the pending href and leaves the index unchanged |
| Parsing.WebpageParser.HandleData | pct/etl/scraper.py:116-118 | the stripped text is recorded with the pending href, which is then cleared |
| Parsing.WebpageParser.Feed | pct/etl/scraper.py:43 | the state after feeding is `Run` of the events, or feeding stops with the first handler's error |
| Parsing.FailureSticks | pct/etl/scraper.py:43 | once a prefix fails, the whole feed fails with the same error |
| Scraping.NewScraper | pct/etl/scraper.py:10-17 | a non-empty `link_text` is the label; otherwise `link_title` is. `is_title` holds exactly when `link_text` is omitted, and the other settings are kept |
| Scraping.Get | pct/etl/scraper.py:44 | `.get(k)` gives the entry under `k` when there is one, and `None` otherwise |
| Scraping.Resolve | pct/etl/scraper.py:44-48 | the lookup succeeds exactly when the label holds an href with a value; it then returns `base_url` followed by that href, and otherwise fails with not-found for the hospital and label |
| Scraping.LinkFor | pct/etl/scraper.py:36-48 | resolution fails only with the missing-href `KeyError` or with not-found for the configured label |
| Scraping.LinkForLastWrite | pct/etl/scraper.py:44-48 | when event `i` is the last to write the label, the link is found exactly when that event wrote an href with a value; the result is then `base_url` + that href (also for title keys and for `""`), and otherwise it is not-found |
| Scraping.LinkForUnwritten | pct/etl/scraper.py:44-46 | a label no event writes is never found, and without a faulty anchor the error is not-found |
| Scraping.LinkForKeyError | pct/etl/scraper.py:42-44 | resolution fails with `KeyError` exactly when some anchor has a title and no href |
| Scraping.IsTitleIgnored | pct/etl/scraper.py:36-48 | flipping `is_title` never changes the resolved link |
| Scraping.ParseWebpage | pct/etl/scraper.py:36-48 | feeding a fresh parser and looking up the label returns what `LinkFor` specifies |
| Scraping.SuffixesExclusive | pct/etl/scraper.py:57-67 | no URL ends with both `.xlsx` and `.zip` |
| Scraping.FormatOf | pct/etl/scraper.py:57-84 | exactly one branch is taken: `.xlsx` by suffix, `.zip` by suffix, otherwise CSV |
| Scraping.Load | pct/etl/scraper.py:50-86 | a sheet dictionary comes only from an archive without a sheet number; every failure other than a reader's own error comes from the archive branch |
| Scraping.LoadXlsxCell | pct/etl/scraper.py:58-63 | for a workbook the row count is the sum of the sheets' row counts; row `i` of sheet `k` holds the sheet's name under `sheet_name` and its own cell elsewhere |
| Scraping.LoadXlsxReadFailure | pct/etl/scraper.py:59-65 | a workbook fails to load exactly when its reader fails, and then with that reader's own error |
| Scraping.LoadXlsxColumns | pct/etl/scraper.py:58-63 | a workbook's columns are `sheet_name` and those of its sheets; well-formed sheets give a well-formed table |
| Scraping.LoadZipStatus | pct/etl/scraper.py:67-78 | an archive URL fails with the bad-response error exactly when the download is not 200; the error carries the status and the content |
| Scraping.LoadZipFirstMember | pct/etl/scraper.py:67-75 | an archive that unzips to members is read from member 0 only, with the sheet number and header row; a reader error propagates |
| Scraping.LoadCsv | pct/etl/scraper.py:80-84 | any other URL is read as CSV with the header row; a reader failure ends loading with that reader's own error, and no download by the scraper affects it |
| Scraping.LoadIgnoresIsTitle | pct/etl/scraper.py:50-86 | loading does not depend on `is_title` |
| Scraping.LoadDataToDf | pct/etl/scraper.py:50-86 | the loop that appends the tagged sheets, and the other branches, return what `Load` specifies |
| Scraping.SnakeCase | pct/etl/scraper.py:32 | the normalised label has the same length and no spaces or upper-case letters; spaces become `_`, letters are lower-cased, and every other character stays |
| Scraping.SnakeCaseFixed | pct/etl/scraper.py:32 | a label without spaces and upper-case letters is already normalised |
| Scraping.SnakeCaseIdempotent | pct/etl/scraper.py:32 | normalising a label twice is normalising it once |
| Scraping.SnakeColumns | pct/etl/scraper.py:32 | the normalised label list has the same length and order |
| Scraping.SnakeColumnsIdempotent | pct/etl/scraper.py:32-33 | normalising the label list again changes nothing |
| Scraping.TargetTable | pct/etl/scraper.py:93 | the table name is as long as the hospital name plus the suffix, ends with `_chargemaster` and holds no upper-case letter |
| Scraping.TargetTableSame | pct/etl/scraper.py:93 | the table name is the lower-cased hospital followed by `_chargemaster`; two hospitals share a table exactly when their names agree up to case |
| Scraping.Scraped | pct/etl/scraper.py:20-34 | a write goes to the hospital's table in schema `raw`; the page error happens exactly when the page is not 200, and carries its status and content |
| Scraping.PageFailureFirst | pct/etl/scraper.py:26-28 | a page that is not 200 decides the outcome: nothing parsed, loaded or read can change it |
| Scraping.ResolveFailureStops | pct/etl/scraper.py:30-31 | a link that cannot be resolved ends the scrape with that error, whatever the readers would do |
| Scraping.LoadFailureEndsScrape | pct/etl/scraper.py:31-34 | after resolution, a failed load (bad archive response, not a zip file, empty archive, reader error) ends the scrape with that same error, before anything is written |
| Scraping.WorkbookEndsScrape | pct/etl/scraper.py:32 | a sheet dictionary, which comes only from an archive read without a sheet number, ends the scrape with `AttributeError` |
| Scraping.ScrapedTable | pct/etl/scraper.py:32-34 | a loaded table is written with its rows in order, one cell per column, under the normalised labels |
| Scraping.ScrapedWorkbookRow | pct/etl/scraper.py:20-34 | end to end for a workbook: one written row per sheet row, in sheet order; row `i` of sheet `k` shows the sheet name in the column from `sheet_name` and its own cell elsewhere |
| Scraping.ScrapeIgnoresIsTitle | pct/etl/scraper.py:14 | flipping `is_title` never changes the scrape |
| Scraping.Database.CreateTableFromDataframe | pct/database.py:66-67 | the table is created in the schema, replacing any table with that name there; nothing else changes |
| Scraping.WriteData | pct/etl/scraper.py:88-94 | the data goes to `<hospital lower-cased>_chargemaster` in schema `raw`, and nothing else changes |
| Scraping.Scrape | pct/etl/scraper.py:20-34 | exactly one table, the one `Scraped` describes, is written on success; on failure the database is unchanged and the error is `Scraped`'s |

## Left out

- **HTTP.** `requests.get` is the `get` field of `Env`, a function of the URL. Connection errors, timeouts and redirects are not modelled, and two requests for the same URL see the same response.
- **Tokenizing the page.** `str(page_data.content)` and the HTML tokenizer are the `tokenize` field of `Env`. The model does not describe:
  - the `b'...'` rendering of the bytes and its escapes;
  - the tokenizer's tag-name lower-casing and entity decoding;
  - text held back because `close()` is never called.
- **pandas and zipfile.** The readers `read_excel`, `read_csv` and `ZipFile` are fields of `Env`; decoding is not modelled. The readers fetch URLs themselves, and a reader's exception is only the message it carries. The frames they return are taken as given, so the model does not describe:
  - value types, NaN handling and the index;
  - the renaming of duplicate headers;
  - the meaning of the header row beyond passing it through.
- **Column order in `append`.** The model puts the accumulator's columns first, then the new ones in order, as pandas 1.x does. Older pandas versions that sort the union are not modelled.
- **Non-string column labels.** Column labels are strings. A reader that produces numeric labels would make `.replace` raise `AttributeError`, and that path is not modelled.
- **Sheet selection by name.** `sheet_num` is modelled as a sheet number only, not as a sheet name.
- **Database plumbing.** The connection and the `to_sql` plumbing in `pct/database.py` are not modelled, nor is a failing write. The `Database` built at pct/etl/scraper.py:18 is a parameter of `Scrape`.
- **Logging.** The logging in the exception constructors is not modelled. The re-raise of a reader's exception is modelled only as that error propagating (`DecodeFailed`).
- **The test script.** `pct/test.py` is not part of this model.
- PyStr.Lower: lower-cases ASCII letters only, whereas Python's `str.lower` also lower-cases non-ASCII letters.
- Scraping.SnakeCase: inherits the ASCII-only lower-casing of `PyStr.Lower`.

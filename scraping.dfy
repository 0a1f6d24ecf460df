/**
  * `Scraper`: one hospital's configuration, and the pipeline that fetches the
  * hospital's price page, finds the chargemaster link on it, loads the
  * chargemaster into a table, normalises the column labels and writes the
  * table to the database.
  *
  * The foreign calls (HTTP, the HTML tokenizer, the spreadsheet and CSV
  * readers, the zip reader) are the fields of an `Env`: functions of their
  * arguments.
  */
module Scraping {
  import opened Wrappers
  import opened Errors
  import PyStr
  import opened Frames
  import opened Parsing

  // ---------------------------------------------------------------------------
  // Configuration
  // ---------------------------------------------------------------------------

  /** A configured scraper: the fields `__init__` sets, apart from the database handle. */
  datatype Scraper = Scraper(
    hospital: string,
    pageUrl: string,
    linkText: Label,
    isTitle: bool,
    baseUrl: string,
    startRow: int,
    sheetNum: Option<int>)

  /** Python truthiness of an optional string: present and not empty. */
  predicate Truthy(s: Option<string>) {
    s.Some? && s.value != ""
  }

  /**
    * `Scraper(...)`: the link is looked up by `link_text` when that is a
    * non-empty string and by `link_title` otherwise; `is_title` records only
    * whether `link_text` was left out, so an empty `link_text` falls through
    * to the title without setting it.
    */
  function NewScraper(
    hospital: string, pageUrl: string, linkText: Option<string> := None, linkTitle: Option<string> := None,
    baseUrl: string := "", startRow: int := 0, sheetNum: Option<int> := None): (sc: Scraper)
    ensures Truthy(linkText) ==> sc.linkText == linkText
    ensures !Truthy(linkText) ==> sc.linkText == linkTitle
    ensures sc.isTitle <==> linkText.None?
    ensures sc.hospital == hospital && sc.pageUrl == pageUrl && sc.baseUrl == baseUrl
    ensures sc.startRow == startRow && sc.sheetNum == sheetNum
  {
    var key := if Truthy(linkText) then linkText else linkTitle;
    Scraper(hospital, pageUrl, key, linkText.None?, baseUrl, startRow, sheetNum)
  }

  // ---------------------------------------------------------------------------
  // The outside world
  // ---------------------------------------------------------------------------

  /** What an HTTP GET returns. */
  datatype Response = Response(status: int, content: Bytes)

  /** What a spreadsheet reader reads: a URL it fetches itself, or the bytes of an archive member. */
  datatype Source = Url(url: string) | Member(data: Bytes)

  /**
    * The foreign calls:
    * - `get`: `requests.get`;
    * - `tokenize`: the page content rendered with `str` and split by the HTML
    *   tokenizer into the events the parser's handlers receive;
    * - `readWorkbook`: `read_excel` with `sheet_name=None` and a header row,
    *   giving every sheet in workbook order;
    * - `readSheet`: `read_excel` of one sheet (by number) with a header row;
    * - `readCsv`: `read_csv` with a header row;
    * - `unzip`: the members of a zip archive in archive order, or `None` when
    *   the bytes are not a zip archive.
    * A reader's failure is the message of the exception it raises.
    */
  datatype Env = Env(
    get: string -> Response,
    tokenize: Bytes -> seq<Event>,
    readWorkbook: (Source, int) -> Result<seq<Sheet>, string>,
    readSheet: (Bytes, int, int) -> Result<Frame, string>,
    readCsv: (string, int) -> Result<Frame, string>,
    unzip: Bytes -> Option<seq<Bytes>>)

  /** A reader's exception, propagated unchanged. */
  function Decoded<T>(r: Result<T, string>): Result<T, ScrapeError> {
    match r
    case Success(v) => Success(v)
    case Failure(e) => Failure(DecodeFailed(e))
  }

  // ---------------------------------------------------------------------------
  // Link resolution
  // ---------------------------------------------------------------------------

  /** `d.get(k)`: the value under `k`, or `None` when there is none. */
  function Get(pairs: map<Label, Href>, k: Label): (v: Href)
    ensures k in pairs ==> v == pairs[k]
    ensures k !in pairs ==> v.None?
  {
    if k in pairs then pairs[k] else None
  }

  /**
    * The lookup in `parse_webpage`: the configured label's href, prefixed with
    * the base URL; a label that is absent, or that holds a valueless href,
    * is not found.
    */
  function Resolve(sc: Scraper, pairs: map<Label, Href>): (r: Result<string, ScrapeError>)
    ensures r.Success? <==> sc.linkText in pairs && pairs[sc.linkText].Some?
    ensures r.Success? ==> r.value == sc.baseUrl + pairs[sc.linkText].value
    ensures r.Failure? ==> r.error == ChargemasterNotFound(sc.hospital, sc.linkText)
  {
    var link := Get(pairs, sc.linkText);
    if link.None? then Failure(ChargemasterNotFound(sc.hospital, sc.linkText))
    else Success(sc.baseUrl + link.value)
  }

  /**
    * `parse_webpage` on the page's events: a fresh parser is fed every event,
    * then the configured label is looked up. Feeding can only fail with the
    * missing-href `KeyError`, the lookup only with not-found.
    */
  function LinkFor(sc: Scraper, events: seq<Event>): (r: Result<string, ScrapeError>)
    ensures r.Failure? ==> r.error == HrefKeyError || r.error == ChargemasterNotFound(sc.hospital, sc.linkText)
  {
    RunFailsIff(Initial, events);
    var parsed :- Run(Initial, events);
    Resolve(sc, parsed.pairs)
  }

  /**
    * Resolution by the last write: when event `i` is the last to write the
    * configured label, the link is found exactly when that event wrote an
    * href with a value, and it is then the base URL followed by that href,
    * whether the label is a title or link text and even when the href is
    * empty; otherwise the result is not-found.
    */
  lemma LinkForLastWrite(sc: Scraper, events: seq<Event>, i: nat)
    requires Run(Initial, events).Success?
    requires i < |events| && WriteKey(events[i]) == Some(sc.linkText)
    requires forall j | i < j < |events| :: WriteKey(events[j]) != Some(sc.linkText)
    ensures Run(Initial, events[..i]).Success? && !Faulty(events[i])
    ensures var v := WrittenValue(Run(Initial, events[..i]).value, events[i]);
      && (LinkFor(sc, events).Success? <==> v.Some?)
      && (v.Some? ==> LinkFor(sc, events).value == sc.baseUrl + v.value)
      && (v.None? ==> LinkFor(sc, events) == Failure(ChargemasterNotFound(sc.hospital, sc.linkText)))
  {
    LastWriteWins(Initial, events, i, sc.linkText);
  }

  /**
    * A label that no event writes is never found: feeding either fails with
    * the missing-href `KeyError` or the lookup fails with not-found.
    */
  lemma LinkForUnwritten(sc: Scraper, events: seq<Event>)
    requires sc.linkText !in WrittenKeys(events)
    ensures LinkFor(sc, events).Failure?
    ensures !AnyFaulty(events) ==> LinkFor(sc, events).error == ChargemasterNotFound(sc.hospital, sc.linkText)
  {
    RunFailsIff(Initial, events);
    if !AnyFaulty(events) {
      UnwrittenKept(Initial, events, sc.linkText);
    }
  }

  /** Resolution fails with the missing-href `KeyError` exactly when an anchor has a title and no href. */
  lemma LinkForKeyError(sc: Scraper, events: seq<Event>)
    ensures LinkFor(sc, events) == Failure(HrefKeyError) <==> AnyFaulty(events)
  {
    RunFailsIff(Initial, events);
  }

  /** `is_title` is stored but never consulted: flipping it changes nothing about resolution. */
  lemma IsTitleIgnored(sc: Scraper, events: seq<Event>, b: bool)
    ensures LinkFor(sc.(isTitle := b), events) == LinkFor(sc, events)
  {
  }

  /** `parse_webpage`: feeds a fresh `WebpageParser` the page's events, then looks up the label. */
  method ParseWebpage(sc: Scraper, events: seq<Event>) returns (r: Result<string, ScrapeError>)
    ensures r == LinkFor(sc, events)
  {
    var parser := new WebpageParser();
    var fed := parser.Feed(events);
    if fed.Failure? {
      return Failure(fed.error);
    }
    var link := Get(parser.urlTextPairs, sc.linkText);
    if link.None? {
      r := Failure(ChargemasterNotFound(sc.hospital, sc.linkText));
    } else {
      r := Success(sc.baseUrl + link.value);
    }
  }

  // ---------------------------------------------------------------------------
  // Loading
  // ---------------------------------------------------------------------------

  /** The three branches of `load_data_to_df`, chosen by the URL's suffix. */
  datatype Format = Xlsx | Zip | Csv

  lemma LastChar(url: string, suffix: string)
    requires PyStr.EndsWith(url, suffix) && suffix != []
    ensures url[|url| - 1] == suffix[|suffix| - 1]
  {
    assert url[|url| - |suffix|..][|suffix| - 1] == url[|url| - 1];
  }

  /** No URL ends with both `.xlsx` and `.zip`: they end in different letters. */
  lemma SuffixesExclusive(url: string)
    ensures !(PyStr.EndsWith(url, ".xlsx") && PyStr.EndsWith(url, ".zip"))
  {
    if PyStr.EndsWith(url, ".xlsx") {
      LastChar(url, ".xlsx");
    }
    if PyStr.EndsWith(url, ".zip") {
      LastChar(url, ".zip");
    }
  }

  /**
    * The branch taken: exactly one of the three, `.xlsx` by its suffix, `.zip`
    * by its suffix, anything else as CSV.
    */
  function FormatOf(url: string): (f: Format)
    ensures f == Xlsx <==> PyStr.EndsWith(url, ".xlsx")
    ensures f == Zip <==> PyStr.EndsWith(url, ".zip")
    ensures f == Csv <==> !PyStr.EndsWith(url, ".xlsx") && !PyStr.EndsWith(url, ".zip")
  {
    SuffixesExclusive(url);
    if PyStr.EndsWith(url, ".xlsx") then Xlsx
    else if PyStr.EndsWith(url, ".zip") then Zip
    else Csv
  }

  /**
    * What `load_data_to_df` returns: a DataFrame, or, for an archive read
    * without a sheet number, the dictionary of all its sheets.
    */
  datatype Loaded = Table(frame: Frame) | Workbook(sheets: seq<Sheet>)

  /**
    * `load_data_to_df`: a workbook URL gives all its sheets, each tagged with
    * its name under `sheet_name`, appended in order; an archive URL is
    * fetched, must answer 200 and be a zip archive, and its first member is
    * read with the configured sheet number; any other URL is read as CSV.
    * Every reader gets the configured header row. Only the archive branch
    * fails with anything other than a reader's own error.
    */
  function Load(sc: Scraper, env: Env, url: string): (r: Result<Loaded, ScrapeError>)
    ensures r.Success? && r.value.Workbook? ==> FormatOf(url) == Zip && sc.sheetNum.None?
    ensures r.Failure? && !r.error.DecodeFailed? ==>
      && FormatOf(url) == Zip
      && (r.error.ChargemasterBadResponse? || r.error == BadZipFile || r.error == ArchiveEmpty)
  {
    match FormatOf(url)
    case Xlsx =>
      var sheets :- Decoded(env.readWorkbook(Url(url), sc.startRow));
      Success(Table(Concat(sheets, SheetNameColumn, |sheets|)))
    case Zip =>
      var response := env.get(url);
      if response.status != 200 then
        Failure(ChargemasterBadResponse(sc.hospital, response.status, response.content))
      else
        match env.unzip(response.content) {
          case None => Failure(BadZipFile)
          case Some(members) =>
            if members == [] then Failure(ArchiveEmpty)
            else
              match sc.sheetNum {
                case Some(n) =>
                  var t :- Decoded(env.readSheet(members[0], n, sc.startRow));
                  Success(Table(t))
                case None =>
                  var sheets :- Decoded(env.readWorkbook(Member(members[0]), sc.startRow));
                  Success(Workbook(sheets))
              }
        }
    case Csv =>
      var t :- Decoded(env.readCsv(url, sc.startRow));
      Success(Table(t))
  }

  /**
    * A workbook: its rows are the sheets' rows in sheet order, so their number
    * is the sum of the sheets' row counts, and the rows of sheet `k` form the
    * block after those of the sheets before it, each carrying the sheet's name
    * under `sheet_name` and its own cell under every other column.
    */
  lemma LoadXlsxCell(sc: Scraper, env: Env, url: string, sheets: seq<Sheet>, k: nat, i: nat, c: string)
    requires PyStr.EndsWith(url, ".xlsx")
    requires env.readWorkbook(Url(url), sc.startRow) == Success(sheets)
    requires k < |sheets| && i < |sheets[k].frame.rows|
    ensures Load(sc, env, url).Success? && Load(sc, env, url).value.Table?
    ensures var t := Load(sc, env, url).value.frame;
      && |t.rows| == RowsBefore(sheets, |sheets|)
      && CellAt(t, RowsBefore(sheets, k) + i, c)
         == if c == SheetNameColumn then Value(sheets[k].name) else CellAt(sheets[k].frame, i, c)
  {
    ConcatCell(sheets, SheetNameColumn, |sheets|, k, i, c);
  }

  /** A workbook the reader cannot read ends loading with that reader's own error. */
  lemma LoadXlsxReadFailure(sc: Scraper, env: Env, url: string)
    requires PyStr.EndsWith(url, ".xlsx")
    ensures Load(sc, env, url).Failure? <==> env.readWorkbook(Url(url), sc.startRow).Failure?
    ensures Load(sc, env, url).Failure? ==>
      Load(sc, env, url).error == DecodeFailed(env.readWorkbook(Url(url), sc.startRow).error)
  {
  }

  /**
    * A workbook's columns are `sheet_name` (when there is a sheet) and the
    * columns of any sheet; when every sheet is a well-formed frame so is the
    * result.
    */
  lemma LoadXlsxColumns(sc: Scraper, env: Env, url: string, sheets: seq<Sheet>, c: string)
    requires PyStr.EndsWith(url, ".xlsx")
    requires env.readWorkbook(Url(url), sc.startRow) == Success(sheets)
    ensures Load(sc, env, url).Success? && Load(sc, env, url).value.Table?
    ensures var t := Load(sc, env, url).value.frame;
      c in t.columns <==> (|sheets| > 0 && c == SheetNameColumn) || exists k | 0 <= k < |sheets| :: HasColumn(sheets[k], c)
    ensures AllValid(sheets) ==> Load(sc, env, url).value.frame.Valid()
  {
    ConcatColumns(sheets, SheetNameColumn, |sheets|, c);
    if AllValid(sheets) {
      ConcatValid(sheets, SheetNameColumn, |sheets|);
    }
  }

  /**
    * An archive URL fails with the bad-response error, carrying the status and
    * content, exactly when its download does not answer 200.
    */
  lemma LoadZipStatus(sc: Scraper, env: Env, url: string)
    requires PyStr.EndsWith(url, ".zip")
    ensures var r := Load(sc, env, url);
      r.Failure? && r.error.ChargemasterBadResponse? <==> env.get(url).status != 200
    ensures env.get(url).status != 200 ==>
      Load(sc, env, url) == Failure(ChargemasterBadResponse(sc.hospital, env.get(url).status, env.get(url).content))
  {
  }

  /**
    * An archive that downloads and unzips to at least one member is read from
    * its first member only, with the configured sheet number and header row.
    */
  lemma LoadZipFirstMember(sc: Scraper, env: Env, url: string, members: seq<Bytes>, n: int)
    requires PyStr.EndsWith(url, ".zip") && env.get(url).status == 200
    requires env.unzip(env.get(url).content) == Some(members) && members != []
    requires sc.sheetNum == Some(n)
    ensures Load(sc, env, url).Success? <==> env.readSheet(members[0], n, sc.startRow).Success?
    ensures Load(sc, env, url).Success? ==> Load(sc, env, url).value == Table(env.readSheet(members[0], n, sc.startRow).value)
    ensures Load(sc, env, url).Failure? ==> Load(sc, env, url).error == DecodeFailed(env.readSheet(members[0], n, sc.startRow).error)
  {
  }

  /** Any other URL is read as CSV with the configured header row, and nothing is downloaded by the scraper. */
  lemma LoadCsv(sc: Scraper, env: Env, url: string, get: string -> Response)
    requires !PyStr.EndsWith(url, ".xlsx") && !PyStr.EndsWith(url, ".zip")
    ensures Load(sc, env, url).Success? <==> env.readCsv(url, sc.startRow).Success?
    ensures Load(sc, env, url).Success? ==> Load(sc, env, url).value == Table(env.readCsv(url, sc.startRow).value)
    ensures Load(sc, env, url).Failure? ==> Load(sc, env, url).error == DecodeFailed(env.readCsv(url, sc.startRow).error)
    ensures Load(sc, env.(get := get), url) == Load(sc, env, url)
  {
  }

  /**
    * `load_data_to_df`: the workbook branch appends the tagged sheets to an
    * empty accumulator one by one.
    */
  method LoadDataToDf(sc: Scraper, env: Env, url: string) returns (r: Result<Loaded, ScrapeError>)
    ensures r == Load(sc, env, url)
  {
    if PyStr.EndsWith(url, ".xlsx") {
      var chargemasterData := EmptyFrame;
      var read := env.readWorkbook(Url(url), sc.startRow);
      if read.Failure? {
        return Failure(DecodeFailed(read.error));
      }
      var sheets := read.value;
      for i := 0 to |sheets|
        invariant chargemasterData == Concat(sheets, SheetNameColumn, i)
      {
        var df := SetColumn(sheets[i].frame, SheetNameColumn, Value(sheets[i].name));
        chargemasterData := Append(chargemasterData, df);
      }
      r := Success(Table(chargemasterData));
    } else if PyStr.EndsWith(url, ".zip") {
      var response := env.get(url);
      if response.status == 200 {
        var archive := env.unzip(response.content);
        if archive.None? {
          return Failure(BadZipFile);
        }
        var members := archive.value;
        if members == [] {
          return Failure(ArchiveEmpty);
        }
        if sc.sheetNum.Some? {
          var read := env.readSheet(members[0], sc.sheetNum.value, sc.startRow);
          r := if read.Success? then Success(Table(read.value)) else Failure(DecodeFailed(read.error));
        } else {
          var read := env.readWorkbook(Member(members[0]), sc.startRow);
          r := if read.Success? then Success(Workbook(read.value)) else Failure(DecodeFailed(read.error));
        }
      } else {
        r := Failure(ChargemasterBadResponse(sc.hospital, response.status, response.content));
      }
    } else {
      var read := env.readCsv(url, sc.startRow);
      r := if read.Success? then Success(Table(read.value)) else Failure(DecodeFailed(read.error));
    }
  }

  // ---------------------------------------------------------------------------
  // Names
  // ---------------------------------------------------------------------------

  /**
    * `column.replace(' ', '_').lower()`: spaces become underscores and upper
    * case letters become lower case; every other character stays.
    */
  function SnakeCase(c: string): (r: string)
    ensures |r| == |c|
    ensures forall i | 0 <= i < |r| :: r[i] != ' ' && !PyStr.IsUpper(r[i])
    ensures forall i | 0 <= i < |c| :: c[i] == ' ' ==> r[i] == '_'
    ensures forall i | 0 <= i < |c| :: PyStr.IsUpper(c[i]) ==> r[i] == PyStr.LowerChar(c[i])
    ensures forall i | 0 <= i < |c| :: c[i] != ' ' && !PyStr.IsUpper(c[i]) ==> r[i] == c[i]
  {
    PyStr.Lower(PyStr.SpacesToUnderscores(c))
  }

  /** A label with no spaces and no upper case letters is already normalised. */
  lemma SnakeCaseFixed(c: string)
    requires forall i | 0 <= i < |c| :: c[i] != ' ' && !PyStr.IsUpper(c[i])
    ensures SnakeCase(c) == c
  {
  }

  /** Normalising a label twice is normalising it once. */
  lemma SnakeCaseIdempotent(c: string)
    ensures SnakeCase(SnakeCase(c)) == SnakeCase(c)
  {
    SnakeCaseFixed(SnakeCase(c));
  }

  /** The label list comprehension in `scrape`: same length, same order, each label normalised. */
  function SnakeColumns(cols: seq<string>): (r: seq<string>)
    ensures |r| == |cols|
    ensures forall j | 0 <= j < |cols| :: r[j] == SnakeCase(cols[j])
  {
    seq(|cols|, j requires 0 <= j < |cols| => SnakeCase(cols[j]))
  }

  /** Normalising the label list again changes nothing. */
  lemma SnakeColumnsIdempotent(cols: seq<string>)
    ensures SnakeColumns(SnakeColumns(cols)) == SnakeColumns(cols)
  {
    forall j | 0 <= j < |cols| ensures SnakeColumns(SnakeColumns(cols))[j] == SnakeColumns(cols)[j] {
      SnakeCaseIdempotent(cols[j]);
    }
  }

  /** The schema every chargemaster is written to. */
  const RawSchema: string := "raw"

  /** What follows the lower-cased hospital name in the table name. */
  const TableSuffix: string := "_chargemaster"

  /** `'{hospital}_chargemaster'.format(hospital=hospital.lower())`. */
  function TargetTable(hospital: string): (t: string)
    ensures |t| == |hospital| + |TableSuffix|
    ensures PyStr.EndsWith(t, TableSuffix)
    ensures forall i | 0 <= i < |t| :: !PyStr.IsUpper(t[i])
  {
    PyStr.Lower(hospital) + TableSuffix
  }

  /**
    * Two hospitals write to the same table exactly when their names agree up
    * to case; the table name is the lower-cased name followed by the suffix.
    */
  lemma TargetTableSame(a: string, b: string)
    ensures TargetTable(a) == TargetTable(b) <==> PyStr.Lower(a) == PyStr.Lower(b)
    ensures PyStr.EndsWith(TargetTable(a), TableSuffix)
    ensures TargetTable(a)[..|a|] == PyStr.Lower(a)
  {
    var ta := TargetTable(a);
    assert ta[..|a|] == PyStr.Lower(a);
    assert ta[|ta| - |TableSuffix|..] == TableSuffix;
    if ta == TargetTable(b) {
      assert |a| == |b|;
      assert TargetTable(b)[..|b|] == PyStr.Lower(b);
    }
  }

  // ---------------------------------------------------------------------------
  // The whole scrape
  // ---------------------------------------------------------------------------

  /** The write `scrape` ends with: a table name, a schema and the relabelled table. */
  datatype Written = Written(table: string, schema: string, data: Grid)

  /**
    * `scrape`, step by step: the page must answer 200 before anything else
    * happens; then the link is resolved, the chargemaster loaded, its columns
    * relabelled with their normalised labels, and the result written to the
    * hospital's table in the raw schema. A dictionary of sheets has no
    * `columns`, so an archive read without a sheet number fails there.
    */
  function Scraped(sc: Scraper, env: Env): (r: Result<Written, ScrapeError>)
    ensures r.Success? ==> r.value.table == TargetTable(sc.hospital) && r.value.schema == RawSchema
    ensures r.Failure? && r.error.WebpageBadResponse? <==> env.get(sc.pageUrl).status != 200
    ensures r.Failure? && r.error.WebpageBadResponse? ==>
      r.error == WebpageBadResponse(sc.hospital, env.get(sc.pageUrl).status, env.get(sc.pageUrl).content)
  {
    var page := env.get(sc.pageUrl);
    if page.status != 200 then Failure(WebpageBadResponse(sc.hospital, page.status, page.content))
    else
      var url :- LinkFor(sc, env.tokenize(page.content));
      var loaded :- Load(sc, env, url);
      match loaded
      case Workbook(_) => Failure(NoColumnsAttribute)
      case Table(t) => Success(Written(TargetTable(sc.hospital), RawSchema, Relabel(t, SnakeColumns(t.columns))))
  }

  /**
    * A page that does not answer 200 decides the outcome alone: no parsing,
    * loading or writing result can change it.
    */
  lemma PageFailureFirst(sc: Scraper, env: Env, other: Env)
    requires env.get(sc.pageUrl).status != 200
    requires other.get(sc.pageUrl) == env.get(sc.pageUrl)
    ensures Scraped(sc, other) == Scraped(sc, env)
  {
  }

  /** A link that cannot be resolved stops the scrape before anything is loaded. */
  lemma ResolveFailureStops(sc: Scraper, env: Env)
    requires env.get(sc.pageUrl).status == 200
    requires LinkFor(sc, env.tokenize(env.get(sc.pageUrl).content)).Failure?
    ensures Scraped(sc, env) == Failure(LinkFor(sc, env.tokenize(env.get(sc.pageUrl).content)).error)
    ensures forall w, s, c, u :: Scraped(sc, env.(readWorkbook := w, readSheet := s, readCsv := c, unzip := u)) == Scraped(sc, env)
  {
  }

  /**
    * Loading comes after resolution and before anything is normalised or
    * written: a failed load (a bad archive response, a file that is not a zip
    * archive, an empty archive, a reader's error) ends the scrape with that
    * same error.
    */
  lemma LoadFailureEndsScrape(sc: Scraper, env: Env, url: string)
    requires env.get(sc.pageUrl).status == 200
    requires LinkFor(sc, env.tokenize(env.get(sc.pageUrl).content)) == Success(url)
    requires Load(sc, env, url).Failure?
    ensures Scraped(sc, env) == Failure(Load(sc, env, url).error)
  {
  }

  /**
    * An archive read without a sheet number yields a dictionary of sheets,
    * which has no `columns`: the scrape ends with `AttributeError` and writes
    * nothing.
    */
  lemma WorkbookEndsScrape(sc: Scraper, env: Env, url: string)
    requires env.get(sc.pageUrl).status == 200
    requires LinkFor(sc, env.tokenize(env.get(sc.pageUrl).content)) == Success(url)
    requires Load(sc, env, url).Success? && Load(sc, env, url).value.Workbook?
    ensures FormatOf(url) == Zip && sc.sheetNum.None?
    ensures Scraped(sc, env) == Failure(NoColumnsAttribute)
  {
  }

  /**
    * A loaded table is written with its rows in order, one cell per column,
    * under the normalised labels of its columns.
    */
  lemma ScrapedTable(sc: Scraper, env: Env, url: string, t: Frame, r: nat, j: nat)
    requires env.get(sc.pageUrl).status == 200
    requires LinkFor(sc, env.tokenize(env.get(sc.pageUrl).content)) == Success(url)
    requires Load(sc, env, url) == Success(Table(t))
    requires r < |t.rows| && j < |t.columns|
    ensures Scraped(sc, env).Success?
    ensures var g := Scraped(sc, env).value.data;
      && g.columns == SnakeColumns(t.columns)
      && |g.rows| == |t.rows| && |g.rows[r]| == |t.columns|
      && g.rows[r][j] == CellAt(t, r, t.columns[j])
  {
    RelabelCell(t, SnakeColumns(t.columns), r, j);
  }

  /**
    * End to end for a workbook: the written table has one row per sheet row,
    * in sheet order, and row `i` of sheet `k` shows the sheet's name in the
    * column that came from `sheet_name` and its own cell in every other one.
    */
  lemma ScrapedWorkbookRow(sc: Scraper, env: Env, url: string, sheets: seq<Sheet>, k: nat, i: nat, j: nat)
    requires env.get(sc.pageUrl).status == 200
    requires LinkFor(sc, env.tokenize(env.get(sc.pageUrl).content)) == Success(url)
    requires PyStr.EndsWith(url, ".xlsx") && env.readWorkbook(Url(url), sc.startRow) == Success(sheets)
    requires k < |sheets| && i < |sheets[k].frame.rows|
    requires j < |Concat(sheets, SheetNameColumn, |sheets|).columns|
    ensures Scraped(sc, env).Success?
    ensures var t := Concat(sheets, SheetNameColumn, |sheets|);
      var g := Scraped(sc, env).value.data;
      && |g.rows| == RowsBefore(sheets, |sheets|)
      && g.columns == SnakeColumns(t.columns)
      && RowsBefore(sheets, k) + i < |g.rows|
      && j < |g.rows[RowsBefore(sheets, k) + i]|
      && g.rows[RowsBefore(sheets, k) + i][j]
         == if t.columns[j] == SheetNameColumn then Value(sheets[k].name) else CellAt(sheets[k].frame, i, t.columns[j])
  {
    var t := Concat(sheets, SheetNameColumn, |sheets|);
    BlockWithin(sheets, k, i, |sheets|);
    LoadXlsxCell(sc, env, url, sheets, k, i, t.columns[j]);
    ScrapedTable(sc, env, url, t, RowsBefore(sheets, k) + i, j);
  }

  /** `is_title` is stored but never consulted: flipping it changes nothing about the scrape. */
  lemma ScrapeIgnoresIsTitle(sc: Scraper, env: Env, b: bool)
    ensures Scraped(sc.(isTitle := b), env) == Scraped(sc, env)
  {
    var events := env.tokenize(env.get(sc.pageUrl).content);
    IsTitleIgnored(sc, events, b);
    var link := LinkFor(sc, events);
    if link.Success? {
      LoadIgnoresIsTitle(sc, env, link.value, b);
    }
  }

  /** Loading reads the hospital name, header row and sheet number, never `is_title`. */
  lemma LoadIgnoresIsTitle(sc: Scraper, env: Env, url: string, b: bool)
    ensures Load(sc.(isTitle := b), env, url) == Load(sc, env, url)
  {
  }

  /** The database tables, by schema and name. */
  class Database {
    var tables: map<(string, string), Grid>

    constructor()
      ensures tables == map[]
    {
      tables := map[];
    }

    /** `create_table_from_dataframe`: the table is created, replacing any table of that name in that schema. */
    method CreateTableFromDataframe(tableName: string, data: Grid, schemaName: string)
      modifies this
      ensures tables == old(tables)[(schemaName, tableName) := data]
    {
      tables := tables[(schemaName, tableName) := data];
    }
  }

  /** `write_data`: the table goes to the hospital's lower-cased name, with the suffix, in the raw schema. */
  method WriteData(sc: Scraper, db: Database, data: Grid)
    modifies db
    ensures db.tables == old(db.tables)[(RawSchema, TargetTable(sc.hospital)) := data]
  {
    db.CreateTableFromDataframe(TargetTable(sc.hospital), data, RawSchema);
  }

  /**
    * `scrape`: on success exactly one table is written, the one `Scraped`
    * describes; on failure the database is left as it was.
    */
  method Scrape(sc: Scraper, env: Env, db: Database) returns (r: Result<(), ScrapeError>)
    modifies db
    ensures r.Success? <==> Scraped(sc, env).Success?
    ensures r.Failure? ==> r.error == Scraped(sc, env).error && db.tables == old(db.tables)
    ensures r.Success? ==>
      var w := Scraped(sc, env).value;
      db.tables == old(db.tables)[(w.schema, w.table) := w.data]
  {
    var pageData := env.get(sc.pageUrl);
    if pageData.status != 200 {
      return Failure(WebpageBadResponse(sc.hospital, pageData.status, pageData.content));
    }
    var chargemasterUrl := ParseWebpage(sc, env.tokenize(pageData.content));
    if chargemasterUrl.Failure? {
      return Failure(chargemasterUrl.error);
    }
    var chargemasterData := LoadDataToDf(sc, env, chargemasterUrl.value);
    if chargemasterData.Failure? {
      return Failure(chargemasterData.error);
    }
    if chargemasterData.value.Workbook? {
      return Failure(NoColumnsAttribute);
    }
    var t := chargemasterData.value.frame;
    var snakeCase := SnakeColumns(t.columns);
    WriteData(sc, db, Relabel(t, snakeCase));
    r := Success(());
  }
}

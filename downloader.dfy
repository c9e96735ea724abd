/**
 * The past-exam downloader: `process_page` picks the exam files out of one
 * page of the exam table, and `_download_file` stores each of them under
 * `exams/<exam_num>/<question|answer>/`, skipping files that are already
 * there and retrying failed downloads with exponential back-off.
 *
 * The network is an oracle: the page a request for the table returns, and
 * for download `i` of a page, what its attempt `j` gets. The file system is
 * a map from paths to contents plus the set of existing directories. Sleeps
 * and log entries are recorded in order instead of happening.
 */
module Downloader {
  import opened Wrappers
  import opened Text
  import opened ExamFiles
  import Collections

  newtype byte = x: int | 0 <= x < 256

  /** What `session.get(url)` and `raise_for_status()` give: the body, or an exception. */
  datatype Response = Ok(content: seq<byte>) | Failed

  /** The first `<a>` of a cell, with its `href` attribute if it has one. */
  datatype Anchor = Anchor(href: Option<string>)

  /** One `<td>`: its text and its first `<a>`, if any. */
  datatype Cell = Cell(text: string, link: Option<Anchor>)

  /** One `<tr>` of the exam table, as its cells. */
  type Row = seq<Cell>

  /** What the logger records. */
  datatype LogEntry =
    | AlreadyExists(path: string)
    | Downloaded(path: string)
    | DownloadFailed(path: string)
    | PageFailed(url: string)

  /** The part of the world the downloader changes. */
  datatype State = State(files: map<string, seq<byte>>, requests: seq<string>, sleeps: seq<nat>, log: seq<LogEntry>)

  /** `2 ** attempt`, the back-off after failed attempt `attempt`. */
  function Pow2(n: nat): (r: nat)
    ensures r >= 1
  {
    if n == 0 then 1 else 2 * Pow2(n - 1)
  }

  /** How many times `for attempt in range(max_retries)` runs. */
  function Tries(maxRetries: int): nat {
    if maxRetries > 0 then maxRetries else 0
  }

  /** The delays slept after failed attempts `lo` to `hi - 1`. */
  function Backoffs(lo: nat, hi: nat): (r: seq<nat>)
    requires lo <= hi
    ensures |r| == hi - lo
    ensures forall i :: 0 <= i < |r| ==> r[i] == Pow2(lo + i)
    decreases hi - lo
  {
    if lo == hi then [] else [Pow2(lo)] + Backoffs(lo + 1, hi)
  }

  /** Each delay doubles the one before it. */
  lemma BackoffsDouble(lo: nat, hi: nat)
    requires lo <= hi
    ensures forall i :: 0 < i < hi - lo ==> Backoffs(lo, hi)[i] == 2 * Backoffs(lo, hi)[i - 1]
  {
  }

  /** `n` copies of `x`. */
  function Repeat<T>(x: T, n: nat): (r: seq<T>)
    ensures |r| == n && forall i :: 0 <= i < n ==> r[i] == x
  {
    seq(n, _ => x)
  }

  /** The directory `_download_file` writes `f` into. */
  function ParentDir(baseDir: string, f: ExamFile): string {
    baseDir + ("/" + (f.examNum + ("/" + Subdir(f))))
  }

  /** The target is the file name inside `ParentDir`, the directory whose existence decides whether the write can succeed. */
  lemma TargetPathInParent(baseDir: string, f: ExamFile)
    ensures TargetPath(baseDir, f) == ParentDir(baseDir, f) + ("/" + Filename(f))
  {
    var tail := "/" + Filename(f);
    Collections.AppendAssoc(Subdir(f), "/", Filename(f));
    Collections.AppendAssoc("/", Subdir(f), tail);
    Collections.AppendAssoc(f.examNum, "/" + Subdir(f), tail);
    Collections.AppendAssoc("/", f.examNum + ("/" + Subdir(f)), tail);
    Collections.AppendAssoc(baseDir, "/" + (f.examNum + ("/" + Subdir(f))), tail);
  }

  /**
   * The `for attempt in range(max_retries)` loop from attempt `attempt` on:
   * each attempt sends the request; a response that can be written ends the
   * loop with the file stored and logged; otherwise the last attempt logs the
   * failure, and every failed attempt sleeps `2 ** attempt`.
   */
  function Attempts(st: State, path: string, url: string, writable: bool, outcome: nat -> Response, attempt: nat, maxRetries: int): State
    decreases maxRetries - attempt
  {
    if attempt >= maxRetries then st
    else
      var sent := st.(requests := st.requests + [url]);
      var resp := outcome(attempt);
      if resp.Ok? && writable then
        sent.(files := sent.files[path := resp.content], log := sent.log + [Downloaded(path)])
      else
        var logged := if attempt == maxRetries - 1 then sent.(log := sent.log + [DownloadFailed(path)]) else sent;
        Attempts(logged.(sleeps := logged.sleeps + [Pow2(attempt)]), path, url, writable, outcome, attempt + 1, maxRetries)
  }

  /** The first attempt from `attempt` on that can be written, or the end of the loop when none can. */
  function FirstSuccess(outcome: nat -> Response, writable: bool, attempt: nat, maxRetries: int): (k: nat)
    ensures attempt <= k
    ensures k < maxRetries ==> writable && outcome(k).Ok?
    ensures k >= maxRetries ==> k == attempt || k == maxRetries
    ensures forall j :: attempt <= j < k ==> !(writable && outcome(j).Ok?)
    decreases maxRetries - attempt
  {
    if attempt >= maxRetries || (writable && outcome(attempt).Ok?) then attempt
    else FirstSuccess(outcome, writable, attempt + 1, maxRetries)
  }

  /**
   * The retry loop in closed form: with `k` the first attempt that succeeds,
   * it sends one request per attempt up to and including `k`, sleeps
   * `2 ** j` after each failed attempt `j` before `k`, and stores and logs
   * the body of attempt `k`; when every attempt fails, it sends
   * `max_retries` requests, sleeps after each of them, leaves the files
   * alone and logs one failure.
   */
  lemma {:induction false} AttemptsOutcome(st: State, path: string, url: string, writable: bool, outcome: nat -> Response, attempt: nat, maxRetries: int)
    ensures var r := Attempts(st, path, url, writable, outcome, attempt, maxRetries);
            var k := FirstSuccess(outcome, writable, attempt, maxRetries);
      && (k < maxRetries ==>
            && r.requests == st.requests + Repeat(url, k + 1 - attempt)
            && r.sleeps == st.sleeps + Backoffs(attempt, k)
            && r.files == st.files[path := outcome(k).content]
            && r.log == st.log + [Downloaded(path)])
      && (k >= maxRetries ==>
            && r.requests == st.requests + Repeat(url, k - attempt)
            && r.sleeps == st.sleeps + Backoffs(attempt, k)
            && r.files == st.files
            && r.log == st.log + (if attempt < maxRetries then [DownloadFailed(path)] else []))
    decreases maxRetries - attempt
  {
    if attempt < maxRetries && !(writable && outcome(attempt).Ok?) {
      var sent := st.(requests := st.requests + [url]);
      var logged := if attempt == maxRetries - 1 then sent.(log := sent.log + [DownloadFailed(path)]) else sent;
      var next := logged.(sleeps := logged.sleeps + [Pow2(attempt)]);
      AttemptsOutcome(next, path, url, writable, outcome, attempt + 1, maxRetries);
      var k := FirstSuccess(outcome, writable, attempt, maxRetries);
      RepeatCons(url, k - attempt);
      Collections.AppendAssoc(st.requests, [url], Repeat(url, k - attempt));
      Collections.AppendAssoc(st.sleeps, [Pow2(attempt)], Backoffs(attempt + 1, k));
      if k < maxRetries {
        RepeatCons(url, k + 1 - attempt);
        Collections.AppendAssoc(st.requests, [url], Repeat(url, k - attempt));
      }
    } else if attempt < maxRetries {
      assert Repeat(url, 1) == [url];
      assert Backoffs(attempt, attempt) == [];
    } else {
      assert Repeat(url, 0) == [] && Backoffs(attempt, attempt) == [];
    }
  }

  lemma RepeatCons<T>(x: T, n: nat)
    requires n >= 1
    ensures Repeat(x, n) == [x] + Repeat(x, n - 1)
  {
  }

  /** `_download_file(exam_file)` on state `st`, with `outcome(j)` the result of attempt `j`. */
  function DownloadSpec(st: State, dirs: set<string>, baseDir: string, f: ExamFile, outcome: nat -> Response, maxRetries: int): State
  {
    var path := TargetPath(baseDir, f);
    if path in st.files || path in dirs then st.(log := st.log + [AlreadyExists(path)])
    else Attempts(st, path, f.url, ParentDir(baseDir, f) in dirs, outcome, 0, maxRetries)
  }

  /**
   * A target path that already exists, as a file or as a directory, is
   * neither fetched nor written; only the skip is logged.
   */
  lemma DownloadSkipsExisting(st: State, dirs: set<string>, baseDir: string, f: ExamFile, outcome: nat -> Response, maxRetries: int)
    requires TargetPath(baseDir, f) in st.files || TargetPath(baseDir, f) in dirs
    ensures DownloadSpec(st, dirs, baseDir, f, outcome, maxRetries)
         == st.(log := st.log + [AlreadyExists(TargetPath(baseDir, f))])
  {
  }

  /**
   * A download sends at most `max_retries` requests, sleeps at most as
   * often, changes no file but its own target, and adds exactly one log
   * entry when `max_retries` is positive or the target exists, and none
   * otherwise.
   */
  lemma DownloadBounds(st: State, dirs: set<string>, baseDir: string, f: ExamFile, outcome: nat -> Response, maxRetries: int)
    ensures var r := DownloadSpec(st, dirs, baseDir, f, outcome, maxRetries);
      && |st.requests| <= |r.requests| <= |st.requests| + Tries(maxRetries)
      && |r.sleeps| - |st.sleeps| <= |r.requests| - |st.requests|
      && r.requests[..|st.requests|] == st.requests
      && (forall p :: p != TargetPath(baseDir, f) ==> (p in r.files <==> p in st.files) && (p in st.files ==> r.files[p] == st.files[p]))
      && |st.log| <= |r.log| && r.log[..|st.log|] == st.log
      && |r.log| == |st.log| + (if maxRetries > 0 || TargetPath(baseDir, f) in st.files || TargetPath(baseDir, f) in dirs then 1 else 0)
  {
    var path := TargetPath(baseDir, f);
    if !(path in st.files || path in dirs) {
      AttemptsOutcome(st, path, f.url, ParentDir(baseDir, f) in dirs, outcome, 0, maxRetries);
    }
  }

  /** Once a download has stored the file, running it again fetches nothing. */
  lemma DownloadAgainSkips(st: State, dirs: set<string>, baseDir: string, f: ExamFile, outcome: nat -> Response, again: nat -> Response, maxRetries: int)
    requires TargetPath(baseDir, f) in DownloadSpec(st, dirs, baseDir, f, outcome, maxRetries).files
    ensures var once := DownloadSpec(st, dirs, baseDir, f, outcome, maxRetries);
      DownloadSpec(once, dirs, baseDir, f, again, maxRetries).requests == once.requests
  {
  }

  /** What `process_page` does with one row: skip it, keep an exam file, or fail on a link without `href`. */
  datatype RowResult = Skip | Keep(file: ExamFile) | MissingHref

  /**
   * The body of the row loop: a row with at least two cells, a link in the
   * second cell and "會考" in the stripped text of the first is parsed;
   * reading `link_cell['href']` raises when the link has none.
   */
  function ExamineRow(row: Row): RowResult {
    if |row| < 2 then Skip
    else
      var title := Strip(row[0].text);
      match row[1].link
      case None => Skip
      case Some(anchor) =>
        if !Contains(title, ExamMark) then Skip
        else match anchor.href
          case None => MissingHref
          case Some(href) =>
            match ParseExamFile(title, href)
            case None => Skip
            case Some(f) => Keep(f)
  }

  /**
   * A row gives an exam file exactly when it has at least two cells, the
   * second holds a link with an `href`, and the stripped text of the first
   * parses together with that `href`.
   */
  lemma KeepIff(row: Row, f: ExamFile)
    ensures ExamineRow(row) == Keep(f) <==>
      && |row| >= 2 && row[1].link.Some? && row[1].link.value.href.Some?
      && ParseExamFile(Strip(row[0].text), row[1].link.value.href.value) == Some(f)
  {
    if ExamineRow(row) == Keep(f) {
      KeepSound(row, f);
    }
    if |row| >= 2 && row[1].link.Some? && row[1].link.value.href.Some?
       && ParseExamFile(Strip(row[0].text), row[1].link.value.href.value) == Some(f) {
      KeepComplete(row, f);
    }
  }

  lemma KeepSound(row: Row, f: ExamFile)
    requires ExamineRow(row) == Keep(f)
    ensures |row| >= 2 && row[1].link.Some? && row[1].link.value.href.Some?
    ensures ParseExamFile(Strip(row[0].text), row[1].link.value.href.value) == Some(f)
  {
  }

  lemma KeepComplete(row: Row, f: ExamFile)
    requires |row| >= 2 && row[1].link.Some? && row[1].link.value.href.Some?
    requires ParseExamFile(Strip(row[0].text), row[1].link.value.href.value) == Some(f)
    ensures ExamineRow(row) == Keep(f)
  {
    var title := Strip(row[0].text);
    var href := row[1].link.value.href.value;
    MatchHeadingSome(title, href);
    RowKeeps(row, title, href, f);
  }

  lemma RowKeeps(row: Row, title: string, href: string, f: ExamFile)
    requires |row| >= 2 && row[1].link == Some(Anchor(Some(href))) && Strip(row[0].text) == title
    requires Contains(title, ExamMark) && ParseExamFile(title, href) == Some(f)
    ensures ExamineRow(row) == Keep(f)
  {
  }

  lemma MatchHeadingSome(title: string, href: string)
    requires ParseExamFile(title, href).Some?
    ensures Contains(title, ExamMark)
  {
  }

  /** The row loop raises exactly on a row whose title names an exam and whose link has no `href`. */
  lemma MissingHrefIff(row: Row)
    ensures ExamineRow(row) == MissingHref <==>
      && |row| >= 2 && row[1].link.Some? && row[1].link.value.href.None?
      && Contains(Strip(row[0].text), ExamMark)
  {
  }

  /** What the row loop makes of each row. */
  function Examined(rows: seq<Row>): (r: seq<RowResult>)
    ensures |r| == |rows| && forall k :: 0 <= k < |rows| ==> r[k] == ExamineRow(rows[k])
  {
    seq(|rows|, k requires 0 <= k < |rows| => ExamineRow(rows[k]))
  }

  /** The file a row result keeps, if any. */
  function KeptFile(result: RowResult): Option<ExamFile> {
    if result.Keep? then Some(result.file) else None
  }

  /** The exam files of a page, in row order, or the `KeyError` that ends the page. */
  function PageFiles(rows: seq<Row>): (r: Result<seq<ExamFile>, string>)
    ensures r.Success? ==> |r.value| <= |rows|
  {
    if MissingHref in Examined(rows) then Failure("href")
    else Success(Collections.FilterMap(Examined(rows), KeptFile))
  }

  /** A page's rows fail to be read exactly when one of them raises. */
  lemma PageFailsIff(rows: seq<Row>)
    ensures PageFiles(rows).Failure? <==> exists k :: 0 <= k < |rows| && ExamineRow(rows[k]) == MissingHref
  {
    var results := Examined(rows);
    if MissingHref in results {
      var k :| 0 <= k < |results| && results[k] == MissingHref;
      assert ExamineRow(rows[k]) == MissingHref;
    }
  }

  /**
   * The exam files of a page that is read are those of the rows that keep
   * one, each from its own row and in row order, and none of those rows is
   * left out.
   */
  lemma PageFilesInRowOrder(rows: seq<Row>)
    requires PageFiles(rows).Success?
    ensures
      var files, results := PageFiles(rows).value, Examined(rows);
      exists idx: seq<nat> ::
        && |idx| == |files|
        && (forall k :: 0 <= k < |idx| ==> idx[k] < |rows| && results[idx[k]] == Keep(files[k]))
        && (forall k, l :: 0 <= k < l < |idx| ==> idx[k] < idx[l])
        && (forall i :: 0 <= i < |rows| && results[i].Keep? ==> i in idx)
  {
    var files, results := PageFiles(rows).value, Examined(rows);
    var idx := Collections.Origins(results, KeptFile);
    forall k | 0 <= k < |idx|
      ensures results[idx[k]] == Keep(files[k])
    {
      assert KeptFile(results[idx[k]]) == Some(files[k]);
    }
    forall i | 0 <= i < |rows| && results[i].Keep?
      ensures i in idx
    {
      assert KeptFile(results[i]).Some?;
    }
  }

  /** `f"{self.base_url}/{page_num}"` */
  function PageUrl(baseUrl: string, pageNum: int): string {
    baseUrl + "/" + IntToString(pageNum)
  }

  /** The downloads of a page, one after the other; download `i` sees `outcomes(i)`. */
  function DownloadAll(st: State, dirs: set<string>, baseDir: string, fs: seq<ExamFile>, outcomes: nat -> nat -> Response, maxRetries: int): State
  {
    if fs == [] then st
    else
      var n := |fs| - 1;
      DownloadSpec(DownloadAll(st, dirs, baseDir, fs[..n], outcomes, maxRetries), dirs, baseDir, fs[n], outcomes(n), maxRetries)
  }

  /**
   * `process_page(page_num)`: fetch the page; when that fails or a kept row's
   * link has no `href`, log the page as failed; otherwise download its exam
   * files.
   */
  function PageSpec(st: State, dirs: set<string>, baseUrl: string, baseDir: string, pageNum: int, page: Option<seq<Row>>, outcomes: nat -> nat -> Response, maxRetries: int): State
  {
    var url := PageUrl(baseUrl, pageNum);
    var sent := st.(requests := st.requests + [url]);
    match page
    case None => sent.(log := sent.log + [PageFailed(url)])
    case Some(rows) =>
      match PageFiles(rows)
      case Failure(_) => sent.(log := sent.log + [PageFailed(url)])
      case Success(fs) => DownloadAll(sent, dirs, baseDir, fs, outcomes, maxRetries)
  }

  /** The downloads of a page send at most `max_retries` requests each, and keep everything sent and logged before. */
  lemma {:induction false} DownloadAllBounds(st: State, dirs: set<string>, baseDir: string, fs: seq<ExamFile>, outcomes: nat -> nat -> Response, maxRetries: int)
    ensures var r := DownloadAll(st, dirs, baseDir, fs, outcomes, maxRetries);
      && |st.requests| <= |r.requests| <= |st.requests| + |fs| * Tries(maxRetries)
      && r.requests[..|st.requests|] == st.requests
      && |st.log| <= |r.log| && r.log[..|st.log|] == st.log
      && (forall p :: p in st.files ==> p in r.files)
    decreases |fs|
  {
    if fs != [] {
      var n := |fs| - 1;
      var mid := DownloadAll(st, dirs, baseDir, fs[..n], outcomes, maxRetries);
      DownloadAllBounds(st, dirs, baseDir, fs[..n], outcomes, maxRetries);
      DownloadBounds(mid, dirs, baseDir, fs[n], outcomes(n), maxRetries);
      var r := DownloadAll(st, dirs, baseDir, fs, outcomes, maxRetries);
      var m := Tries(maxRetries);
      assert |fs| * m == n * m + m;
      Collections.TakePrefix(r.requests, |st.requests|, |mid.requests|);
      Collections.TakePrefix(r.log, |st.log|, |mid.log|);
    }
  }

  /** A page that cannot be fetched, or whose rows raise, downloads nothing and logs the failure. */
  lemma PageFailureLogged(st: State, dirs: set<string>, baseUrl: string, baseDir: string, pageNum: int, page: Option<seq<Row>>, outcomes: nat -> nat -> Response, maxRetries: int)
    requires page.None? || PageFiles(page.value).Failure?
    ensures PageSpec(st, dirs, baseUrl, baseDir, pageNum, page, outcomes, maxRetries)
         == st.(requests := st.requests + [PageUrl(baseUrl, pageNum)], log := st.log + [PageFailed(PageUrl(baseUrl, pageNum))])
  {
  }

  /** A page whose rows all read downloads the files they give, after the request for the page. */
  lemma PageDownloads(st: State, dirs: set<string>, baseUrl: string, baseDir: string, pageNum: int, rows: seq<Row>, outcomes: nat -> nat -> Response, maxRetries: int)
    requires PageFiles(rows).Success?
    ensures |PageFiles(rows).value| <= |rows|
    ensures PageSpec(st, dirs, baseUrl, baseDir, pageNum, Some(rows), outcomes, maxRetries)
         == DownloadAll(st.(requests := st.requests + [PageUrl(baseUrl, pageNum)]), dirs, baseDir, PageFiles(rows).value, outcomes, maxRetries)
  {
  }

  /**
   * A page sends one request for itself and then at most `max_retries` per
   * row, after everything sent before.
   */
  lemma PageBounds(st: State, dirs: set<string>, baseUrl: string, baseDir: string, pageNum: int, page: Option<seq<Row>>, outcomes: nat -> nat -> Response, maxRetries: int)
    ensures var r := PageSpec(st, dirs, baseUrl, baseDir, pageNum, page, outcomes, maxRetries);
      && |st.requests| + 1 <= |r.requests|
      && (page.None? ==> |r.requests| == |st.requests| + 1)
      && (page.Some? ==> |r.requests| <= |st.requests| + 1 + |page.value| * Tries(maxRetries))
      && r.requests[..|st.requests| + 1] == st.requests + [PageUrl(baseUrl, pageNum)]
  {
    var url := PageUrl(baseUrl, pageNum);
    var sent := st.(requests := st.requests + [url]);
    if page.Some? && PageFiles(page.value).Success? {
      var fs := PageFiles(page.value).value;
      var t := Tries(maxRetries);
      PageDownloads(st, dirs, baseUrl, baseDir, pageNum, page.value, outcomes, maxRetries);
      DownloadAllBounds(sent, dirs, baseDir, fs, outcomes, maxRetries);
      var d := DownloadAll(sent, dirs, baseDir, fs, outcomes, maxRetries);
      var most, bound := |fs| * t, |page.value| * t;
      Collections.MulMonotone(|fs|, |page.value|, t);
      assert |d.requests| <= |sent.requests| + most <= |st.requests| + 1 + bound;
    } else {
      PageFailureLogged(st, dirs, baseUrl, baseDir, pageNum, page, outcomes, maxRetries);
      if page.Some? {
        Collections.MulMonotone(0, |page.value|, Tries(maxRetries));
      }
      assert (st.requests + [url])[..|st.requests| + 1] == st.requests + [url];
    }
  }

  /** The directories `_create_directory_structure` makes under `base`: the base, `1` to `6`, and `question` and `answer` in each. */
  function ExamDirs(base: string): set<string> {
    {base}
    + (set n | 1 <= n <= 6 :: base + ("/" + NatToString(n)))
    + (set n, d | 1 <= n <= 6 && d in {"question", "answer"} :: base + ("/" + (NatToString(n) + ("/" + d))))
  }

  /** An exam numbered 1 to 6 has a directory to be written into. */
  lemma ParentDirCreated(base: string, f: ExamFile, n: nat)
    requires 1 <= n <= 6 && f.examNum == NatToString(n)
    ensures ParentDir(base, f) in ExamDirs(base)
  {
    assert Subdir(f) in {"question", "answer"};
  }

  /** `ExamDownloader`: the settings it was made with and the state it changes. */
  class ExamDownloader {
    const baseUrl: string
    const maxRetries: int
    const timeout: int
    const baseDir: string
    const dirs: set<string>
    var files: map<string, seq<byte>>
    var requests: seq<string>
    var sleeps: seq<nat>
    var log: seq<LogEntry>

    function CurrentState(): State
      reads this
    {
      State(files, requests, sleeps, log)
    }

    /**
     * `ExamDownloader(base_url, max_retries=3, timeout=30)` on a file
     * system holding `existing` files in `existingDirs`: it makes the
     * directory tree under "exams".
     */
    constructor(baseUrl: string, existing: map<string, seq<byte>>, existingDirs: set<string>, maxRetries: int := 3, timeout: int := 30)
      ensures this.baseUrl == baseUrl && this.maxRetries == maxRetries && this.timeout == timeout
      ensures baseDir == "exams" && dirs == existingDirs + ExamDirs("exams")
      ensures CurrentState() == State(existing, [], [], [])
    {
      this.baseUrl := baseUrl;
      this.maxRetries := maxRetries;
      this.timeout := timeout;
      baseDir := "exams";
      dirs := existingDirs + ExamDirs("exams");
      files := existing;
      requests := [];
      sleeps := [];
      log := [];
    }

    /** `_download_file(exam_file)`, where attempt `j` gets `outcome(j)`. */
    method DownloadFile(f: ExamFile, outcome: nat -> Response)
      modifies this
      ensures CurrentState() == DownloadSpec(old(CurrentState()), dirs, baseDir, f, outcome, maxRetries)
    {
      var path := TargetPath(baseDir, f);
      if path in files || path in dirs {
        log := log + [AlreadyExists(path)];
        return;
      }
      var writable := ParentDir(baseDir, f) in dirs;
      var attempt := 0;
      while attempt < maxRetries
        invariant Attempts(CurrentState(), path, f.url, writable, outcome, attempt, maxRetries)
               == DownloadSpec(old(CurrentState()), dirs, baseDir, f, outcome, maxRetries)
        decreases maxRetries - attempt
      {
        requests := requests + [f.url];
        var response := outcome(attempt);
        if response.Ok? && writable {
          files := files[path := response.content];
          log := log + [Downloaded(path)];
          return;
        }
        if attempt == maxRetries - 1 {
          log := log + [DownloadFailed(path)];
        }
        sleeps := sleeps + [Pow2(attempt)];
        attempt := attempt + 1;
      }
    }

    /** The row loop of `process_page`: the exam files of the rows in order, or the `KeyError`. */
    method CollectExamFiles(rows: seq<Row>) returns (r: Result<seq<ExamFile>, string>)
      ensures r == PageFiles(rows)
    {
      var examFiles: seq<ExamFile> := [];
      ghost var examined := Examined(rows);
      for i := 0 to |rows|
        invariant MissingHref !in examined[..i]
        invariant examFiles == Collections.FilterMap(examined[..i], KeptFile)
      {
        Collections.FilterMapStep(examined, i, KeptFile);
        assert examined[..i + 1] == examined[..i] + [examined[i]];
        var row := ExamineRow(rows[i]);
        if row.MissingHref? {
          return Failure("href");
        }
        if row.Keep? {
          examFiles := examFiles + [row.file];
        }
      }
      Collections.TakeAll(rows);
      Collections.TakeAll(examined);
      r := Success(examFiles);
    }

    /** `process_page(page_num)`, where fetching the page gives `page` and download `i` sees `outcomes(i)`. */
    method ProcessPage(pageNum: int, page: Option<seq<Row>>, outcomes: nat -> nat -> Response)
      modifies this
      ensures CurrentState() == PageSpec(old(CurrentState()), dirs, baseUrl, baseDir, pageNum, page, outcomes, maxRetries)
    {
      var url := PageUrl(baseUrl, pageNum);
      requests := requests + [url];
      if page.None? {
        log := log + [PageFailed(url)];
        return;
      }
      var examFiles := CollectExamFiles(page.value);
      if examFiles.Failure? {
        log := log + [PageFailed(url)];
        return;
      }
      ghost var start := CurrentState();
      var fs := examFiles.value;
      for i := 0 to |fs|
        invariant CurrentState() == DownloadAll(start, dirs, baseDir, fs[..i], outcomes, maxRetries)
      {
        Collections.TakePrefix(fs, i, i + 1);
        DownloadFile(fs[i], outcomes(i));
      }
      Collections.TakeAll(fs);
    }
  }
}

# Calendar converter and past-exam downloader, in Dafny

This project models two small Python utilities and proves properties of the model.

**`ics_converter.py`** reads lines such as `Quiz1: 03/05` or `會考: 03/25`.
- `parse_llm_output` turns them into quiz and exam records.
- `generate_ics` writes those records as an iCalendar file (RFC 5545):
  - a `VCALENDAR` with four header lines;
  - one `VEVENT` of twelve lines per event, with a `VALARM` nested inside it;
  - `END:VCALENDAR`;
  - all lines joined with `"\n"`.
- The nested `parse_date` picks `quiz_time` or `exam_time`: slot 0 for the start, slot 1 for the end. It raises when `datetime` refuses the date.

**`iwantitall.py`** downloads past exam papers of a mathematics course.
- An `ExamFile` names its PDF `<year>年第<semester>學期第<n>次會考[解答].pdf`.
- It is stored under `exams/<n>/<question|answer>/`.
- `_parse_exam_file` reads a record back from a table row's title and link.
- `_download_file` skips files that already exist. Otherwise it tries up to `max_retries` times and sleeps `2 ** attempt` after every failed attempt.
- `process_page` picks the qualifying rows of a listing page and downloads their files.

Files:

| file | module | contents |
|---|---|---|
| `wrappers.dfy` | `Wrappers` | `Option` and `Result` |
| `text.dfy` | `Text` | the string functions the sources use (strip, splitlines, split, join, `in`, `int()`, decimal formatting) |
| `collections.dfy` | `Collections` | filtering a sequence, concatenating results, slicing lemmas |
| `ics_converter.dfy` | `IcsConverter` | the line parser, `parse_date`, the calendar lines and text |
| `exam_files.dfy` | `ExamFiles` | `ExamFile`, `filename`, `subdir`, the target path, `_parse_exam_file` |
| `downloader.dfy` | `Downloader` | the retry loop, the row filter, and `ExamDownloader` as a class |

The nondeterministic and external parts become parameters:
- **Stamps.** The random UID and the current time of event `i` are `stamp(i)`.
- **Pages.** The page a request returns is an `Option` of its rows.
- **Attempts.** For download `i` of a page, attempt `j` gets `outcomes(i)(j)`.
- **File system.** Existing files are a map from paths to contents; existing directories are a set.
- **Sleeps and log.** Sleeps and log entries are appended to lists instead of happening.

Three details of the code that the model keeps:
- A row gives at most one file: the first `<a>` of its second cell. "解答" in the title marks that file as the answers.
- `_download_file` also sleeps after the last failed attempt.
- The sub-directories are `question` and `answer`.

## Model

| member | source | states |
|---|---|---|
| IcsConverter.MatchLine | ics_converter.py:26 | `re.match` of the line pattern, with `$` read as the end of the line (Python's `$` also matches before a final `\n`, which no stripped line has: StrippedLineEnd); MatchLineSound and MatchLineComplete state that it finds exactly the full matches, with their groups |
| IcsConverter.ToEvent | ics_converter.py:31-43 | the record of a match: a quiz when the title starts with `Quiz`, else the exam; LineEventSound and LineEventComplete state it |
| IcsConverter.LineEvent | ics_converter.py:20-43 | the event of one stripped line, if any; LineEventSound and LineEventComplete state when there is one and what it is, and StrippedLineEnd that the line it matches has no final `\n` |
| IcsConverter.TitleLengthSound | ics_converter.py:26 | what is taken as the first group is `Quiz` plus digits or `會考` |
| IcsConverter.TitleLengthComplete | ics_converter.py:26 | a title followed by a non-digit is recognised with its full length |
| IcsConverter.MatchTailSound | ics_converter.py:26 | a recognised tail is whitespace, `:`, whitespace and a `DD/DD` date, and nothing else |
| IcsConverter.MatchTailComplete | ics_converter.py:26 | every such tail is recognised with that date |
| IcsConverter.MatchLineSound | ics_converter.py:26 | a match is a full match of `^(Quiz\d+\|會考)\s*:\s*(\d{2}/\d{2})$`, `$` read as the end of the line, with the returned groups |
| IcsConverter.MatchLineComplete | ics_converter.py:26 | every full match is found, with the same groups |
| IcsConverter.LineEventSound | ics_converter.py:19-43 | a line yields an event only if, stripped, it fully matches the pattern; the event is a quiz exactly when its title starts with `Quiz`, and otherwise it is the exam titled `會考` |
| IcsConverter.LineEventComplete | ics_converter.py:26-43 | a stripped line that fully matches yields the event with that title, verbatim date and type |
| IcsConverter.StrippedLineEnd | ics_converter.py:20 | a stripped line is empty or does not end in `\n`, so `$` matches only at its end |
| IcsConverter.SourceLines | ics_converter.py:19 | `llm_text.strip().splitlines()`; ParsedEvents and EventsInLineOrder state how the events come from these lines |
| IcsConverter.ParsedEvents | ics_converter.py:17-45 | there are never more events than lines, and every event is well formed |
| IcsConverter.EventsInLineOrder | ics_converter.py:19-43 | every event comes from its own line, in line order, and no matching line is dropped |
| IcsConverter.ParseLlmOutput | ics_converter.py:5-45 | the loop returns exactly the events of the matching lines, in order |
| IcsConverter.NewDateTime | ics_converter.py:87-94 | `datetime` succeeds exactly on a valid year, month, day (leap years included), hour and minute |
| IcsConverter.TimeOf | ics_converter.py:79-83 | picks slot 0 (start) or 1 (end) of `quiz_time` for a quiz and of `exam_time` otherwise; ParseDateSound and ParseDateOfTime state that `parse_date` reads that time |
| IcsConverter.ParseDate | ics_converter.py:73-94 | a date-time that `parse_date` returns is valid |
| IcsConverter.ParseDateSound | ics_converter.py:73-94 | a successful `parse_date` read the chosen slot as `HH:MM`; year `start_year`, month and day come from the event's date |
| IcsConverter.ParseDateOfTime | ics_converter.py:78-94 | when the time TimeOf picks is `HH:MM` in digits, the result is what `datetime` gives for `start_year`, the event's month and day and that hour and minute, error included |
| IcsConverter.ParseDateMalformed | ics_converter.py:85 | a time that is not two parts around one `:` raises that error, whatever the date |
| IcsConverter.DefaultDatesParse | ics_converter.py:48-53 | with the default arguments, `parse_date` succeeds exactly on a real day of 2025, at 10:00 for a start and 12:00 for an end |
| IcsConverter.FormatDateTime | ics_converter.py:104-105 | the `strftime` text; FormatDateTimeShows and FormatDateTimePlain state its shape and that it reads back |
| IcsConverter.FormatDateTimeShows | ics_converter.py:104-105 | the text is `YYYYMMDDTHHMMSS` with seconds `00` and reads back as the date-time |
| IcsConverter.FormatDateTimePlain | ics_converter.py:104-105 | the date-time text holds no line break |
| IcsConverter.TitlePlain | ics_converter.py:26 | a matched title holds no line break |
| IcsConverter.EventBlock | ics_converter.py:113-127 | the twelve lines of one event; CalendarBlockAt and EventBlockPlain state their place and content |
| IcsConverter.TriggerMinutes | ics_converter.py:124 | the `TRIGGER:-PT…M` line holds `alarm_minutes` in decimal, with a minus sign when it is negative, and reads back as it |
| IcsConverter.EventBlockPlain | ics_converter.py:113-127 | an event contributes twelve lines, none with a line break |
| IcsConverter.EventLines | ics_converter.py:99-127 | both `parse_date` calls, start first, then the twelve lines; EventLinesBlock and CalendarFirstError state it |
| IcsConverter.EventLinesBlock | ics_converter.py:97-127 | an event gives lines exactly when both its dates parse; those lines are its twelve-line block |
| IcsConverter.EmitEvent | ics_converter.py:97-127 | one turn of the loop over events returns that event's lines or the first `parse_date` error |
| IcsConverter.Calendar | ics_converter.py:66-130 | the `ics_lines` list or the first error; CalendarSucceedsIff, CalendarFirstError, CalendarLayout and CalendarPlain state it |
| IcsConverter.CalendarSucceedsIff | ics_converter.py:97-100 | `generate_ics` returns exactly when both dates of every event parse |
| IcsConverter.CalendarFirstError | ics_converter.py:97-100 | the error raised is that of the first event whose dates fail, start before end |
| IcsConverter.Body | ics_converter.py:97-127 | the event loop's lines or its first error; BodyLayout states them |
| IcsConverter.BodyLayout | ics_converter.py:97-127 | the event lines are twelve per event, in event order |
| IcsConverter.CalendarBlockAt | ics_converter.py:113-127 | event `k`'s block sits at lines `4+12k` to `15+12k`, with `UID`, `DTSTAMP`, `DTSTART`, `DTEND`, `SUMMARY:微積分 <title>`, the alarm with `Reminder for <title>` and `TRIGGER:-PT<alarm_minutes>M` |
| IcsConverter.CalendarLayout | ics_converter.py:66-130 | the list has `5 + 12n` lines: the four header lines, each event's block in order, then `END:VCALENDAR` |
| IcsConverter.HeaderPlain | ics_converter.py:67-70 | the header and footer lines hold no line break |
| IcsConverter.ProductIdPlain | ics_converter.py:69 | the `PRODID` line holds no line break |
| IcsConverter.CalendarPlain | ics_converter.py:66-130 | no line of the calendar holds a line break, given stamps without line breaks |
| IcsConverter.IcsText | ics_converter.py:48-133 | what `generate_ics` returns; IcsTextLines and IcsTextFraming state how the text holds the calendar's lines |
| IcsConverter.IcsTextLines | ics_converter.py:133 | splitting the returned text into lines gives back the calendar's lines, so the `"\n"` join loses nothing |
| IcsConverter.IcsTextFraming | ics_converter.py:130-133 | the text starts with the four header lines and a newline, and ends with a newline and `END:VCALENDAR`, with no newline after it |
| IcsConverter.WriteCalendar | ics_converter.py:66-133 | the loop builds the header, the event blocks and the footer, joined by `"\n"`, or stops with the first event's error |
| IcsConverter.GenerateIcs | ics_converter.py:48-133 | `generate_ics` returns the calendar text of the parsed events or raises the first date error |
| ExamFiles.Filename | iwantitall.py:44-46 | the `filename` property; ParseFilename, FilenameAnswerMark and FilenameInjective state that it keeps every field |
| ExamFiles.TargetPath | iwantitall.py:143 | `base_dir / exam_num / subdir / filename`; TargetPathInjective and Downloader.TargetPathInParent state it |
| ExamFiles.Subdir | iwantitall.py:48-51 | `answer` exactly for answers and `question` exactly otherwise |
| ExamFiles.GroupSound | iwantitall.py:132 | a `(\d+)` group is a run of digits followed by the literal |
| ExamFiles.GroupComplete | iwantitall.py:132 | a run of digits followed by the literal is taken as the whole group |
| ExamFiles.MatchHeading | iwantitall.py:132-133 | `re.match` of the title pattern; MatchHeadingSound and MatchHeadingComplete state that it finds exactly the titles that begin with it |
| ExamFiles.MatchHeadingSound | iwantitall.py:132-133 | a match means the title begins with `<digits>年第<digits>學期第<digits>次會考` with those groups |
| ExamFiles.MatchHeadingComplete | iwantitall.py:132-133 | a title that begins with the pattern is matched with its groups |
| ExamFiles.HeadingHasExamMark | iwantitall.py:134 | a matched title always contains `會考` |
| ExamFiles.FullUrl | iwantitall.py:137 | the host prefix for links that do not start with `http`; NormalizeUrlHost states it |
| ExamFiles.NormalizeUrl | iwantitall.py:137-138 | the link has no `#`, is a prefix of the full link, and ends where the first `#` was |
| ExamFiles.NormalizeUrlHost | iwantitall.py:137-138 | the host is put in front exactly when the link does not start with `http`, and the link is cut at its first `#` |
| ExamFiles.ParseExamFile | iwantitall.py:130-139 | `_parse_exam_file`; ParseExamFileSound and ParseExamFileComplete state both directions |
| ExamFiles.ParseExamFileSound | iwantitall.py:130-139 | a record's fields are the pattern's groups at the start of the title; it is an answer exactly when `解答` occurs in the title; the link is normalised |
| ExamFiles.ParseExamFileComplete | iwantitall.py:130-139 | every title that begins with the pattern gives that record |
| ExamFiles.FilenameAnswerMark | iwantitall.py:46 | a file name holds `解答` exactly when it names answers |
| ExamFiles.ParseFilename | iwantitall.py:130-139 | parsing a record's file name gives back its year, semester, exam number and answer flag |
| ExamFiles.FilenameInjective | iwantitall.py:44-46 | records with numeric fields and the same file name agree on those four fields |
| ExamFiles.TargetPathInjective | iwantitall.py:143 | records with numeric fields that differ in year, semester, exam number or answer flag are stored at different paths |
| Downloader.Backoffs | iwantitall.py:161 | the delay slept after failed attempt `j` is `2 ** j` |
| Downloader.BackoffsDouble | iwantitall.py:161 | each delay is twice the one before it |
| Downloader.Attempts | iwantitall.py:149-161 | the retry loop from one attempt on; AttemptsOutcome gives it in closed form |
| Downloader.TargetPathInParent | iwantitall.py:143-155 | the target is the file name inside the directory whose existence decides whether the write at line 154 succeeds |
| Downloader.FirstSuccess | iwantitall.py:149-157 | the first attempt that gets a writable response, or the end of the loop |
| Downloader.AttemptsOutcome | iwantitall.py:149-161 | the retry loop requests once per attempt up to the first success; it stores and logs that body, or logs one failure after `max_retries` attempts; it sleeps `2 ** j` after every failed attempt `j` |
| Downloader.DownloadSpec | iwantitall.py:141-161 | `_download_file`; DownloadSkipsExisting, DownloadBounds, DownloadAgainSkips and AttemptsOutcome state it |
| Downloader.DownloadSkipsExisting | iwantitall.py:145-147 | a target path that exists, as a file or as a directory, is neither fetched nor written, only logged |
| Downloader.DownloadBounds | iwantitall.py:141-161 | at most `max_retries` requests and no more sleeps than requests; only the target file changes; history is kept; exactly one log entry when `max_retries` is positive or the target exists, and none otherwise |
| Downloader.DownloadAgainSkips | iwantitall.py:143-147 | once stored, a file is not fetched again |
| Downloader.ExamineRow | iwantitall.py:173-182 | the body of the row loop; KeepIff and MissingHrefIff state when it keeps a file and when it raises |
| Downloader.PageFiles | iwantitall.py:171-182 | the page's files or the `KeyError`; PageFailsIff and PageFilesInRowOrder state it |
| Downloader.KeepIff | iwantitall.py:173-182 | a row keeps a file exactly when it has at least two cells, a link with an `href` in the second, and its stripped title parses |
| Downloader.MissingHrefIff | iwantitall.py:175-180 | a row raises exactly when its title contains `會考` and its link has no `href` |
| Downloader.PageFailsIff | iwantitall.py:173-193 | the page's rows are lost exactly when one row raises |
| Downloader.PageFilesInRowOrder | iwantitall.py:173-182 | the page's files are those of the kept rows, each from its own row, in row order, none left out |
| Downloader.DownloadAll | iwantitall.py:184-190 | the page's downloads, one after another; DownloadAllBounds states what they keep and send |
| Downloader.PageUrl | iwantitall.py:165 | `f"{base_url}/{page_num}"`; PageFailureLogged and PageBounds state that it is the page's one request |
| Downloader.PageSpec | iwantitall.py:163-193 | `process_page`; PageFailureLogged, PageDownloads and PageBounds state it |
| Downloader.DownloadAllBounds | iwantitall.py:184-190 | the downloads of a page keep what was sent, logged and stored before, and send at most `max_retries` requests per file |
| Downloader.PageFailureLogged | iwantitall.py:165-193 | a page that cannot be fetched or read is requested once, logged, and downloads nothing |
| Downloader.PageDownloads | iwantitall.py:184-190 | a page that is read downloads its files, in order, after its own request |
| Downloader.PageBounds | iwantitall.py:163-193 | a page sends its own request first and then at most `max_retries` requests per row |
| Downloader.ExamDirs | iwantitall.py:73-79 | the directories made at start-up; ParentDirCreated states that they hold every exam's directory |
| Downloader.ParentDirCreated | iwantitall.py:73-79 | the tree made at start-up holds the directory of every exam numbered 1 to 6 |
| Downloader.ExamDownloader.constructor | iwantitall.py:55-60 | keeps `base_url`, `max_retries` (3) and `timeout` (30), sets `base_dir` to `exams`, and creates the directory tree |
| Downloader.ExamDownloader.DownloadFile | iwantitall.py:141-161 | `_download_file` changes the files, requests, sleeps and log as the retry loop specifies |
| Downloader.ExamDownloader.CollectExamFiles | iwantitall.py:171-182 | the row loop returns the page's files in row order, or the `KeyError` |
| Downloader.ExamDownloader.ProcessPage | iwantitall.py:163-193 | `process_page` requests the page, then logs the failure or downloads the page's files one after another |

## Left out

- Character classes are ASCII. `strip` and `\s` are the ASCII whitespace plus `\x1c`-`\x1f`. `splitlines` breaks on `\n`, `\r`, `\r\n`, `\v`, `\f` and `\x1c`-`\x1e`. `\d` is `0`-`9`. Python also accepts the Unicode separators, spaces and digits; those are not modelled.
- `int()` is modelled on non-empty digit strings only. Python also accepts a sign, surrounding whitespace and `_` between digits; the model reports `NotAnInteger` for those.
- `%Y` is written as four digits, padded with zeros. Years below 1000 depend on the platform's `strftime`.
- IcsConverter.WriteCalendar appends each event's twelve lines as one block, not line by line. The resulting list is the same.
- `uuid.uuid4()` and `datetime.now()` are the `stamp` parameter; their formats are not modelled. Text without line breaks is assumed where the line layout of the text is stated.
- The two `__main__` blocks, `main()` and `run()` are left out. They are file I/O and the fixed loop over pages 0 to 5.
- `_login`, `_handle_login` and `_init_session` are left out. They are Selenium, environment variables, cookies and HTTP headers.
- BeautifulSoup is left out. A row is its cells, and a cell is its text and its first `<a>` with an optional `href`.
- HTTP status and timeouts are not modelled. Any exception in fetching is `Failed` in the oracle. `timeout` is kept but has no effect.
- Downloader.ExamDownloader.ProcessPage runs the downloads of a page one after another. The source runs them on a thread pool of five workers with a `tqdm` progress bar. Interleavings, including two downloads racing on one path, are not modelled.
- A write fails only when the target's directory does not exist, and then counts as a failed attempt. Partial writes, disk errors, and `mkdir` failures in `_create_directory_structure` are not modelled.
- `re.match`'s `$` is read as the end of the line. Python's `$` also matches before a final `\n`; `parse_llm_output` strips every line first, so it never meets that case.
- Log entries record their kind and path or URL, not the message text or the exception.

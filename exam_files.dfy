/**
 * The exam-file descriptor of the past-exam downloader: the `ExamFile`
 * record, the file name and sub-directory it is stored under, and
 * `_parse_exam_file`, which reads a record back from a table row's title and
 * link.
 */
module ExamFiles {
  import opened Wrappers
  import opened Text
  import Collections

  /** One past exam paper or its answers: `year`, `semester`, `exam_num`, `is_answer`, `url`. */
  datatype ExamFile = ExamFile(year: string, semester: string, examNum: string, isAnswer: bool, url: string)

  /** The site that relative links point into. */
  const Host: string := "https://united-cal.math.ncu.edu.tw"

  const ExamMark: string := "會考"
  const AnswerMark: string := "解答"

  /** "<year>年第<semester>學期第<exam_num>次會考": what the title pattern matches. */
  function Heading(year: string, semester: string, examNum: string): string {
    year + ("年第" + (semester + ("學期第" + (examNum + ExamHeading))))
  }

  const ExamHeading: string := "次會考"

  /** The `filename` property: the heading, "解答" for answers, then ".pdf". */
  function Filename(f: ExamFile): string {
    Heading(f.year, f.semester, f.examNum) + (if f.isAnswer then AnswerMark else "") + ".pdf"
  }

  /** The `subdir` property. */
  function Subdir(f: ExamFile): (r: string)
    ensures r == "answer" <==> f.isAnswer
    ensures r == "question" <==> !f.isAnswer
  {
    if f.isAnswer then "answer" else "question"
  }

  /** `base_dir / exam_num / subdir / filename`, where `_download_file` stores `f`. */
  function TargetPath(baseDir: string, f: ExamFile): string {
    baseDir + ("/" + (f.examNum + ("/" + (Subdir(f) + ("/" + Filename(f))))))
  }

  /** The three groups of the title pattern. */
  datatype Groups = Groups(year: string, semester: string, examNum: string)

  /** `title` begins with the pattern `(\d+)年第(\d+)學期第(\d+)次會考`, with these groups. */
  predicate HeadingMatch(title: string, g: Groups) {
    IsInteger(g.year) && IsInteger(g.semester) && IsInteger(g.examNum)
    && StartsWith(title, Heading(g.year, g.semester, g.examNum))
  }

  /** One `(\d+)` group followed by the literal `lit` at the start of `s`: the group and what follows `lit`. */
  function Group(s: string, lit: string): Option<(string, string)>
  {
    var n := DigitRun(s);
    if n > 0 && StartsWith(s[n..], lit) then Some((s[..n], s[n + |lit|..])) else None
  }

  lemma GroupSound(s: string, lit: string)
    requires Group(s, lit).Some?
    ensures IsInteger(Group(s, lit).value.0)
    ensures s == Group(s, lit).value.0 + (lit + Group(s, lit).value.1)
  {
    var n := DigitRun(s);
    Collections.SplitAt(s, n);
    Collections.SplitAt(s[n..], |lit|);
    assert s[n..][|lit|..] == s[n + |lit|..];
  }

  /** A group is the whole run of digits, since the literal after it does not start with a digit. */
  lemma GroupComplete(s: string, lit: string, d: string, rest: string)
    requires IsInteger(d) && lit != [] && !IsDigit(lit[0]) && s == d + (lit + rest)
    ensures Group(s, lit) == Some((d, rest))
  {
    assert s[|d|] == lit[0];
    DigitRunIs(s, |d|);
    assert s[|d|..] == lit + rest;
    assert s[..|d|] == d;
  }

  /** `re.match(r"(\d+)年第(\d+)學期第(\d+)次會考", title)`, anchored at the start of the title only. */
  function MatchHeading(title: string): Option<Groups>
  {
    match Group(title, "年第")
    case None => None
    case Some((year, rest1)) =>
      match Group(rest1, "學期第")
      case None => None
      case Some((semester, rest2)) =>
        match Group(rest2, ExamHeading)
        case None => None
        case Some((examNum, _)) => Some(Groups(year, semester, examNum))
  }

  /** A heading followed by more text, written group by group. */
  lemma HeadingAppend(year: string, semester: string, examNum: string, rest: string)
    ensures Heading(year, semester, examNum) + rest
         == year + ("年第" + (semester + ("學期第" + (examNum + (ExamHeading + rest)))))
  {
    Collections.AppendAssoc(examNum, ExamHeading, rest);
    Collections.AppendAssoc("學期第", examNum + ExamHeading, rest);
    Collections.AppendAssoc(semester, "學期第" + (examNum + ExamHeading), rest);
    Collections.AppendAssoc("年第", semester + ("學期第" + (examNum + ExamHeading)), rest);
    Collections.AppendAssoc(year, "年第" + (semester + ("學期第" + (examNum + ExamHeading))), rest);
  }

  /** A match is the pattern at the start of the title. */
  lemma MatchHeadingSound(title: string)
    requires MatchHeading(title).Some?
    ensures HeadingMatch(title, MatchHeading(title).value)
  {
    var (year, rest1) := Group(title, "年第").value;
    GroupSound(title, "年第");
    var (semester, rest2) := Group(rest1, "學期第").value;
    GroupSound(rest1, "學期第");
    var (examNum, rest3) := Group(rest2, ExamHeading).value;
    GroupSound(rest2, ExamHeading);
    HeadingAppend(year, semester, examNum, rest3);
    StartsWithAppend(Heading(year, semester, examNum), rest3);
  }

  /** A title that begins with the pattern is matched, with the same groups. */
  lemma MatchHeadingComplete(title: string, g: Groups)
    requires HeadingMatch(title, g)
    ensures MatchHeading(title) == Some(g)
  {
    var h := Heading(g.year, g.semester, g.examNum);
    var rest3 := title[|h|..];
    var rest2 := g.examNum + (ExamHeading + rest3);
    var rest1 := g.semester + ("學期第" + rest2);
    Collections.SplitAt(title, |h|);
    HeadingAppend(g.year, g.semester, g.examNum, rest3);
    GroupComplete(title, "年第", g.year, rest1);
    GroupComplete(rest1, "學期第", g.semester, rest2);
    GroupComplete(rest2, ExamHeading, g.examNum, rest3);
  }

  /** The heading ends with "會考". */
  lemma HeadingEndsWithMark(year: string, semester: string, examNum: string)
    ensures Heading(year, semester, examNum) == (year + "年第" + semester + "學期第" + examNum + "次") + ExamMark
  {
    HeadingAppend(year, semester, examNum, []);
    assert Heading(year, semester, examNum) + [] == Heading(year, semester, examNum);
    assert ExamHeading + [] == "次" + ExamMark;
    Collections.AppendAssoc(examNum, "次", ExamMark);
    Collections.AppendAssoc("學期第", examNum + "次", ExamMark);
    Collections.AppendAssoc(semester, "學期第" + (examNum + "次"), ExamMark);
    Collections.AppendAssoc("年第", semester + ("學期第" + (examNum + "次")), ExamMark);
    Collections.AppendAssoc(year, "年第" + (semester + ("學期第" + (examNum + "次"))), ExamMark);
    Collections.AppendAssoc(year, "年第", semester);
    Collections.AppendAssoc(year + "年第", semester, "學期第");
    Collections.AppendAssoc(year, "年第" + semester, "學期第");
  }

  /** Whatever the pattern matches contains "會考", so the second test of `_parse_exam_file` never fails on its own. */
  lemma HeadingHasExamMark(title: string)
    requires MatchHeading(title).Some?
    ensures Contains(title, ExamMark)
  {
    var g := MatchHeading(title).value;
    MatchHeadingSound(title);
    var h := Heading(g.year, g.semester, g.examNum);
    Collections.SplitAt(title, |h|);
    HeadingEndsWithMark(g.year, g.semester, g.examNum);
    ContainsInside(g.year + "年第" + g.semester + "學期第" + g.examNum + "次", ExamMark, title[|h|..]);
  }

  /** The f-string of `_parse_exam_file`: the host is put in front unless the link starts with "http". */
  function FullUrl(href: string): string {
    if StartsWith(href, "http") then href else Host + href
  }

  /** `full_url.split('#')[0]`: the link up to its first '#'. */
  function NormalizeUrl(href: string): (r: string)
    ensures '#' !in r
    ensures StartsWith(FullUrl(href), r)
    ensures |r| < |FullUrl(href)| ==> FullUrl(href)[|r|] == '#'
  {
    var full := FullUrl(href);
    var n := IndexOf(full, '#');
    assert Split(full, '#')[0] == full[..n];
    assert full[..n] == full[..|full[..n]|];
    Split(full, '#')[0]
  }

  /**
   * A relative link becomes the host followed by the link up to its first
   * '#'; a link that starts with "http" is only cut at its first '#'.
   */
  lemma NormalizeUrlHost(href: string)
    ensures !StartsWith(href, "http") ==> NormalizeUrl(href) == Host + href[..IndexOf(href, '#')]
    ensures StartsWith(href, "http") ==> NormalizeUrl(href) == href[..IndexOf(href, '#')]
  {
    var full := FullUrl(href);
    assert NormalizeUrl(href) == full[..IndexOf(full, '#')];
    if !StartsWith(href, "http") {
      HostHasNoHash();
      IndexOfAppend(Host, href, '#');
      TakeAppend(Host, href, IndexOf(href, '#'));
    }
  }


  lemma HostHasNoHash()
    ensures '#' !in Host
  {
    assert forall i :: 0 <= i < |Host| ==> Host[i] != '#';
  }

  /**
   * `_parse_exam_file(filename, url)`: the record when the title begins with
   * the pattern and contains "會考", and nothing otherwise.
   */
  function ParseExamFile(title: string, href: string): Option<ExamFile>
  {
    match MatchHeading(title)
    case None => None
    case Some(g) =>
      if Contains(title, ExamMark)
      then Some(ExamFile(g.year, g.semester, g.examNum, Contains(title, AnswerMark), NormalizeUrl(href)))
      else None
  }

  /**
   * A parsed record carries the groups of the pattern at the start of the
   * title, is an answer exactly when "解答" occurs anywhere in the title, and
   * keeps the normalised link.
   */
  lemma ParseExamFileSound(title: string, href: string)
    requires ParseExamFile(title, href).Some?
    ensures var f := ParseExamFile(title, href).value;
      && HeadingMatch(title, Groups(f.year, f.semester, f.examNum))
      && (f.isAnswer <==> Contains(title, AnswerMark))
      && f.url == NormalizeUrl(href)
  {
    MatchHeadingSound(title);
  }

  /** Every title that begins with the pattern gives a record. */
  lemma ParseExamFileComplete(title: string, href: string, g: Groups)
    requires HeadingMatch(title, g)
    ensures ParseExamFile(title, href)
         == Some(ExamFile(g.year, g.semester, g.examNum, Contains(title, AnswerMark), NormalizeUrl(href)))
  {
    MatchHeadingComplete(title, g);
    HeadingHasExamMark(title);
  }

  /** Numeric fields: what `filename` is built from when the record came from a title. */
  predicate NumericFields(f: ExamFile) {
    IsInteger(f.year) && IsInteger(f.semester) && IsInteger(f.examNum)
  }

  /** A file name holds "解答" exactly when it names answers. */
  lemma FilenameAnswerMark(f: ExamFile)
    requires NumericFields(f)
    ensures Contains(Filename(f), AnswerMark) <==> f.isAnswer
  {
    var h := Heading(f.year, f.semester, f.examNum);
    if f.isAnswer {
      ContainsInside(h, AnswerMark, ".pdf");
      assert Filename(f) == h + AnswerMark + ".pdf";
    } else {
      var name := Filename(f);
      assert '解' !in f.year && '解' !in f.semester && '解' !in f.examNum by {
        assert forall i :: 0 <= i < |f.year| ==> IsDigit(f.year[i]);
        assert forall i :: 0 <= i < |f.semester| ==> IsDigit(f.semester[i]);
        assert forall i :: 0 <= i < |f.examNum| ==> IsDigit(f.examNum[i]);
      }
      assert '解' !in "年第" && '解' !in "學期第" && '解' !in ExamHeading && '解' !in ".pdf";
      assert '解' !in name;
      NotContains(name, AnswerMark);
    }
  }

  /** Parsing a file name gives back the record it was made from, with the link normalised. */
  lemma ParseFilename(f: ExamFile, href: string)
    requires NumericFields(f)
    ensures ParseExamFile(Filename(f), href) == Some(ExamFile(f.year, f.semester, f.examNum, f.isAnswer, NormalizeUrl(href)))
  {
    var name := Filename(f);
    var h := Heading(f.year, f.semester, f.examNum);
    assert name[..|h|] == h;
    ParseExamFileComplete(name, href, Groups(f.year, f.semester, f.examNum));
    FilenameAnswerMark(f);
  }

  /** Two records with numeric fields and the same file name agree on year, semester, exam and answer flag. */
  lemma FilenameInjective(f: ExamFile, g: ExamFile)
    requires NumericFields(f) && NumericFields(g) && Filename(f) == Filename(g)
    ensures f.year == g.year && f.semester == g.semester && f.examNum == g.examNum && f.isAnswer == g.isAnswer
  {
    ParseFilename(f, "");
    ParseFilename(g, "");
  }

  lemma DropPrefix(a: string, x: string, y: string)
    requires a + x == a + y
    ensures x == y
  {
    assert x == (a + x)[|a|..];
    assert y == (a + y)[|a|..];
  }

  /**
   * Different exam files (numeric fields) are stored at different paths:
   * equal paths under one base directory mean the same exam, the same kind of
   * paper, the same year and the same semester.
   */
  lemma TargetPathInjective(baseDir: string, f: ExamFile, g: ExamFile)
    requires NumericFields(f) && NumericFields(g) && TargetPath(baseDir, f) == TargetPath(baseDir, g)
    ensures f.year == g.year && f.semester == g.semester && f.examNum == g.examNum && f.isAnswer == g.isAnswer
  {
    var sf, sg := Subdir(f) + ("/" + Filename(f)), Subdir(g) + ("/" + Filename(g));
    Collections.AppendAssoc(baseDir, "/", f.examNum + ("/" + sf));
    Collections.AppendAssoc(baseDir, "/", g.examNum + ("/" + sg));
    DropPrefix(baseDir + "/", f.examNum + ("/" + sf), g.examNum + ("/" + sg));
    GroupComplete(f.examNum + ("/" + sf), "/", f.examNum, sf);
    GroupComplete(g.examNum + ("/" + sg), "/", g.examNum, sg);
    assert sf[0] == Subdir(f)[0] && sg[0] == Subdir(g)[0];
    assert f.isAnswer == g.isAnswer;
    Collections.AppendAssoc(Subdir(f), "/", Filename(f));
    Collections.AppendAssoc(Subdir(g), "/", Filename(g));
    DropPrefix(Subdir(f) + "/", Filename(f), Filename(g));
    FilenameInjective(f, g);
  }
}

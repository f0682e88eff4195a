// The ACP observing-log reader of the nightly plots (`ReadACPLog`): a
// line-driven state machine that turns each night's `*.log` files into
// one row per image.

module AcpLog {
  import opened Optional
  import opened Text

  /** A measured value: `float("NaN")` until a line supplies its text. */
  datatype Measure = NaN | Number(text: string)

  // ---------------------------------------------------------------------
  // Regular-expression pieces, in Python 2 byte-string semantics

  /** The two character classes the patterns capture. */
  datatype CharClass =
    | NameChars    // [a-zA-Z0-9@\-_\+]
    | NumberChars  // [0-9\.]

  predicate InClass(c: char, cls: CharClass) {
    match cls
    case NameChars =>
      ('a' <= c <= 'z') || ('A' <= c <= 'Z') || IsDigit(c) || c == '@' || c == '-' || c == '_' || c == '+'
    case NumberChars => IsDigit(c) || c == '.'
  }

  /** Length of the longest prefix of `s` in `cls`: what a greedy `[...]*` takes. */
  function Span(s: string, cls: CharClass): (n: nat)
    ensures n <= |s|
    ensures forall i :: 0 <= i < n ==> InClass(s[i], cls)
    ensures n < |s| ==> !InClass(s[n], cls)
  {
    if s != [] && InClass(s[0], cls) then 1 + Span(s[1..], cls) else 0
  }

  /** Whether the text character `c` matches the phrase character `q`, where a space stands for `\s`. */
  predicate CharMatches(q: char, c: char) {
    if q == ' ' then IsSpace(c) else c == q
  }

  /**
   * A literal phrase at the start of `s`, where each space of the phrase
   * stands for `\s` (one whitespace character); the rest of `s` after it.
   */
  function Phrase(s: string, p: string): (r: Option<string>)
    ensures r.Some? ==> |p| <= |s| && r.value == s[|p|..]
  {
    if |p| <= |s| && forall i :: 0 <= i < |p| ==> CharMatches(p[i], s[i]) then Some(s[|p|..]) else None
  }

  /** `\d{2}:\d{2}:\d{2}`. */
  predicate IsTime(t: string) {
    |t| == 8 && IsDigit(t[0]) && IsDigit(t[1]) && t[2] == ':' && IsDigit(t[3]) && IsDigit(t[4])
    && t[5] == ':' && IsDigit(t[6]) && IsDigit(t[7])
  }

  /**
   * `(\d{2}:\d{2}:\d{2})\s*` at the start of a line: the time and the rest.
   * Every pattern continues with a non-space literal, so the greedy `\s*`
   * never gives anything back.
   */
  function Stamp(line: string): (r: Option<(string, string)>)
    ensures r.Some? ==> |line| >= 8 && IsTime(r.value.0) && r.value.0 == line[..8]
  {
    if |line| >= 8 && IsTime(line[..8]) then Some((line[..8], SkipSpaces(line[8..]))) else None
  }

  /** `[0-9\.]{2,5}` followed by `\s`: the greedy count cannot back off onto a space, so the whole run must fit. */
  function ShortNumber(s: string): (r: Option<(string, string)>)
    ensures r.Some? ==> 2 <= |r.value.0| <= 5 && s == r.value.0 + r.value.1
  {
    var n := Span(s, NumberChars);
    if 2 <= n <= 5 then (assert s == s[..n] + s[n..]; Some((s[..n], s[n..]))) else None
  }

  // ---------------------------------------------------------------------
  // The five line patterns (lines 53-57); `re.match` anchors each at the start

  /** `(\d{2}:\d{2}:\d{2})\s*Imaging\sto\s([a-zA-Z0-9@\-_\+]*)`: the time and the image name. */
  function StartOfImage(line: string): (r: Option<(string, string)>)
    ensures r.Some? ==> IsTime(r.value.0) && forall i :: 0 <= i < |r.value.1| ==> InClass(r.value.1[i], NameChars)
  {
    match Stamp(line)
    case None => None
    case Some((time, rest)) =>
      match Phrase(rest, "Imaging to ")
      case None => None
      case Some(tail) => Some((time, tail[..Span(tail, NameChars)]))
  }

  /** `...Pointing\serror\sis\s([0-9\.]+)\sarcmin.*`: the pointing error. */
  function PointingError(line: string): (r: Option<string>)
    ensures r.Some? ==> |r.value| >= 1 && forall i :: 0 <= i < |r.value| ==> InClass(r.value[i], NumberChars)
  {
    match Stamp(line)
    case None => None
    case Some((_, rest)) =>
      match Phrase(rest, "Pointing error is ")
      case None => None
      case Some(tail) =>
        var n := Span(tail, NumberChars);
        if n >= 1 && Phrase(tail[n..], " arcmin").Some? then Some(tail[..n]) else None
  }

  /** `...Image\sFWHM\sis\s[0-9\.]{2,5}\sarcsec\s\(([0-9\.]{2,5})\spixels\)`: the FWHM in pixels. */
  function ImageFwhm(line: string): (r: Option<string>)
    ensures r.Some? ==> 2 <= |r.value| <= 5
  {
    match Stamp(line)
    case None => None
    case Some((_, rest)) =>
      match Phrase(rest, "Image FWHM is ")
      case None => None
      case Some(tail) =>
        match ShortNumber(tail)
        case None => None
        case Some((_, tail2)) =>
          match Phrase(tail2, " arcsec (")
          case None => None
          case Some(tail3) =>
            match ShortNumber(tail3)
            case None => None
            case Some((pixels, tail4)) =>
              if Phrase(tail4, " pixels)").Some? then Some(pixels) else None
  }

  /** `...\(avg\sFWHM\s=\s([0-9\.]{2,5})\sarcsec\)`: the average FWHM. */
  function AvgFwhm(line: string): (r: Option<string>)
    ensures r.Some? ==> 2 <= |r.value| <= 5
  {
    match Stamp(line)
    case None => None
    case Some((_, rest)) =>
      match Phrase(rest, "(avg FWHM = ")
      case None => None
      case Some(tail) =>
        match ShortNumber(tail)
        case None => None
        case Some((avg, tail2)) =>
          if Phrase(tail2, " arcsec)").Some? then Some(avg) else None
  }

  /** `...Run\scomplete`. */
  predicate RunComplete(line: string) {
    match Stamp(line)
    case None => false
    case Some((_, rest)) => Phrase(rest, "Run complete").Some?
  }

  /** Text of digits and dots that Python's `float` accepts: a digit and at most one dot. */
  predicate FloatText(t: string) {
    (exists i :: 0 <= i < |t| && IsDigit(t[i]))
    && forall i, j :: 0 <= i < j < |t| ==> !(t[i] == '.' && t[j] == '.')
  }

  // ---------------------------------------------------------------------
  // The state machine

  /** The variables the loop of lines 70-97 updates. */
  datatype AcpState = AcpState(image: string, time: string, imageFwhm: Measure, avgFwhm: Measure, pointing: Measure)

  /** A row of the ACP table (the decimal time, a float function of `time`, is not modelled). */
  datatype AcpRow = AcpRow(time: string, image: string, imageFwhm: Measure, avgFwhm: Measure, pointing: Measure)

  /** Lines 70-75: the state at the start of each log file. */
  const Fresh := AcpState("", "", NaN, NaN, NaN)

  function RowOf(st: AcpState): AcpRow {
    AcpRow(st.time, st.image, st.imageFwhm, st.avgFwhm, st.pointing)
  }

  /**
   * Lines 79-80: the previous image is recorded when it has a name without
   * `Empty` in it (`re.match('.*Empty.*')`; image names never hold a newline).
   */
  predicate Recordable(image: string) {
    image != "" && !Contains(image, "Empty")
  }

  /** One line's effect: the new state and the rows it adds, or the `ValueError` of an unreadable number. */
  datatype StepResult = Next(state: AcpState, rows: seq<AcpRow>) | BadNumber

  /** What the five patterns find on one line. */
  datatype LineMatch = LineMatch(
    start: Option<(string, string)>,
    pointing: Option<string>,
    imageFwhm: Option<string>,
    avgFwhm: Option<string>,
    runComplete: bool)

  function Matches(line: string): LineMatch {
    LineMatch(StartOfImage(line), PointingError(line), ImageFwhm(line), AvgFwhm(line), RunComplete(line))
  }

  /** Lines 76-97: the effect of each pattern that matched, in the order the source tries them. */
  function Apply(st: AcpState, m: LineMatch): StepResult {
    var st1 := if m.start.Some? then st.(image := m.start.value.1, time := m.start.value.0) else st;
    var rows := if m.start.Some? && Recordable(st.image) then [RowOf(st)] else [];
    if m.pointing.Some? && !FloatText(m.pointing.value) then BadNumber
    else
      var st2 := if m.pointing.Some? then st1.(pointing := Number(m.pointing.value)) else st1;
      if m.imageFwhm.Some? && !FloatText(m.imageFwhm.value) then BadNumber
      else
        var st3 := if m.imageFwhm.Some? then st2.(imageFwhm := Number(m.imageFwhm.value)) else st2;
        if m.avgFwhm.Some? && !FloatText(m.avgFwhm.value) then BadNumber
        else
          var st4 := if m.avgFwhm.Some? then st3.(avgFwhm := Number(m.avgFwhm.value)) else st3;
          Next(st4, if m.runComplete then rows + [RowOf(st4)] else rows)
  }

  /** One line of a log file. */
  function Step(st: AcpState, line: string): StepResult {
    Apply(st, Matches(line))
  }

  /** The state and rows after the given lines of one file, from `from`. */
  function Scan(from: AcpState, lines: seq<string>): StepResult
    decreases |lines|
  {
    if lines == [] then Next(from, [])
    else
      match Scan(from, lines[..|lines| - 1])
      case BadNumber => BadNumber
      case Next(st, rows) =>
        match Step(st, lines[|lines| - 1])
        case BadNumber => BadNumber
        case Next(st', more) => Next(st', rows + more)
  }

  /** A file of the log directory: its name and its text. */
  datatype LogFile = LogFile(name: string, text: string)

  /** `fnmatch(LogFile, '*.log')`. */
  predicate IsLogName(name: string) {
    |name| >= 4 && name[|name| - 4..] == ".log"
  }

  /** The whole table from the directory's files in listing order, or `None` on a `ValueError`. */
  function AllRows(files: seq<LogFile>): Option<seq<AcpRow>>
    decreases |files|
  {
    if files == [] then Some([])
    else
      var f := files[|files| - 1];
      match AllRows(files[..|files| - 1])
      case None => None
      case Some(rows) =>
        if !IsLogName(f.name) then Some(rows)
        else
          match Scan(Fresh, ReadLines(f.text))
          case BadNumber => None
          case Next(_, more) => Some(rows + more)
  }

  /** The outcome of `ReadACPLog`. */
  datatype AcpResult =
    | NoDirectory          // `ACPdata = None` (line 103)
    | Unreadable           // `float` raised
    | Table(rows: seq<AcpRow>)

  // ---------------------------------------------------------------------
  // The reader

  /** The body of the line loop, given what the patterns found on the line: the variables after it, or `BadNumber`. */
  method ApplyLine(st: AcpState, m: LineMatch) returns (r: StepResult)
    ensures r == Apply(st, m)
  {
    var image, time, imageFwhm, avgFwhm, pointing := st.image, st.time, st.imageFwhm, st.avgFwhm, st.pointing;
    var added: seq<AcpRow> := [];
    if m.start.Some? {
      if image != "" && !Contains(image, "Empty") {
        added := added + [AcpRow(time, image, imageFwhm, avgFwhm, pointing)];
      }
      image := m.start.value.1;
      time := m.start.value.0;
    }
    if m.pointing.Some? {
      if !FloatText(m.pointing.value) {
        return BadNumber;
      }
      pointing := Number(m.pointing.value);
    }
    if m.imageFwhm.Some? {
      if !FloatText(m.imageFwhm.value) {
        return BadNumber;
      }
      imageFwhm := Number(m.imageFwhm.value);
    }
    if m.avgFwhm.Some? {
      if !FloatText(m.avgFwhm.value) {
        return BadNumber;
      }
      avgFwhm := Number(m.avgFwhm.value);
    }
    if m.runComplete {
      added := added + [AcpRow(time, image, imageFwhm, avgFwhm, pointing)];
    }
    r := Next(AcpState(image, time, imageFwhm, avgFwhm, pointing), added);
  }

  /** Lines 68-98: one log file, line by line, from the fresh state. */
  method ReadFile(lines: seq<string>) returns (r: StepResult)
    ensures r == Scan(Fresh, lines)
  {
    var st := Fresh;
    var fileRows: seq<AcpRow> := [];
    var j := 0;
    while j < |lines|
      invariant 0 <= j <= |lines|
      invariant Scan(Fresh, lines[..j]) == Next(st, fileRows)
    {
      assert lines[..j + 1][..j] == lines[..j];
      var next := ApplyLine(st, Matches(lines[j]));
      if next.BadNumber? {
        assert Scan(Fresh, lines[..j + 1]) == BadNumber;
        ScanStaysBad(Fresh, lines, j + 1);
        return BadNumber;
      }
      st := next.state;
      fileRows := fileRows + next.rows;
      j := j + 1;
    }
    assert lines[..|lines|] == lines;
    r := Next(st, fileRows);
  }

  /** Lines 58-105: read every `*.log` file of the night's log directory, in listing order. */
  method ReadAcpLog(present: bool, files: seq<LogFile>) returns (result: AcpResult)
    ensures !present <==> result == NoDirectory
    ensures present ==> (result == Unreadable <==> AllRows(files).None?)
    ensures present && AllRows(files).Some? ==> result == Table(AllRows(files).value)
  {
    if !present {
      return NoDirectory;
    }
    var table: seq<AcpRow> := [];
    var k := 0;
    while k < |files|
      invariant 0 <= k <= |files|
      invariant AllRows(files[..k]) == Some(table)
    {
      var f := files[k];
      assert files[..k + 1][..k] == files[..k];
      if IsLogName(f.name) {
        var r := ReadFile(ReadLines(f.text));
        if r.BadNumber? {
          assert AllRows(files[..k + 1]) == None;
          AllRowsStaysNone(files, k + 1);
          return Unreadable;
        }
        table := table + r.rows;
      }
      k := k + 1;
    }
    assert files[..|files|] == files;
    result := Table(table);
  }

  lemma {:induction false} ScanStaysBad(from: AcpState, lines: seq<string>, k: nat)
    requires k <= |lines| && Scan(from, lines[..k]) == BadNumber
    ensures Scan(from, lines) == BadNumber
    decreases |lines| - k
  {
    if k < |lines| {
      assert lines[..k + 1][..k] == lines[..k];
      ScanStaysBad(from, lines, k + 1);
    } else {
      assert lines[..k] == lines;
    }
  }

  lemma {:induction false} AllRowsStaysNone(files: seq<LogFile>, k: nat)
    requires k <= |files| && AllRows(files[..k]).None?
    ensures AllRows(files).None?
    decreases |files| - k
  {
    if k < |files| {
      assert files[..k + 1][..k] == files[..k];
      AllRowsStaysNone(files, k + 1);
    } else {
      assert files[..k] == files;
    }
  }

  // ---------------------------------------------------------------------
  // What the state machine promises

  /**
   * A start-of-image line records the previous image exactly when it has a
   * name without `Empty`, and then holds the new image's name and time; the
   * measured values carry over.
   */
  lemma StartOfImageRecordsPrevious(st: AcpState, line: string)
    requires StartOfImage(line).Some?
    ensures var (time, name) := StartOfImage(line).value;
      && Step(st, line).Next?
      && (Step(st, line).rows == [RowOf(st)] <==> Recordable(st.image))
      && (Step(st, line).rows == [] <==> !Recordable(st.image))
      && Step(st, line).state == st.(image := name, time := time)
  {
    StartExcludesOthers(line);
  }

  /** A run-complete line records the current image unconditionally and changes nothing. */
  lemma RunCompleteRecords(st: AcpState, line: string)
    requires RunComplete(line)
    ensures Step(st, line) == Next(st, [RowOf(st)])
  {
    RunCompleteExcludesOthers(line);
  }

  /** Each measured value changes only on its own kind of line, and only to that line's number. */
  lemma MeasuresChangeOnlyOnTheirLines(st: AcpState, line: string)
    requires Step(st, line).Next?
    ensures var st' := Step(st, line).state;
      && (PointingError(line).None? ==> st'.pointing == st.pointing)
      && (PointingError(line).Some? ==> st'.pointing == Number(PointingError(line).value))
      && (ImageFwhm(line).None? ==> st'.imageFwhm == st.imageFwhm)
      && (ImageFwhm(line).Some? ==> st'.imageFwhm == Number(ImageFwhm(line).value))
      && (AvgFwhm(line).None? ==> st'.avgFwhm == st.avgFwhm)
      && (AvgFwhm(line).Some? ==> st'.avgFwhm == Number(AvgFwhm(line).value))
      && (StartOfImage(line).None? ==> st'.image == st.image && st'.time == st.time)
  {
  }

  /** A line that matches none of the patterns leaves everything as it was. */
  lemma OtherLinesIgnored(st: AcpState, line: string)
    requires StartOfImage(line).None? && PointingError(line).None? && ImageFwhm(line).None?
    requires AvgFwhm(line).None? && !RunComplete(line)
    ensures Step(st, line) == Next(st, [])
  {
  }

  lemma StartExcludesOthers(line: string)
    requires StartOfImage(line).Some?
    ensures PointingError(line).None? && ImageFwhm(line).None? && AvgFwhm(line).None? && !RunComplete(line)
  {
    var rest := Stamp(line).value.1;
    assert CharMatches("Imaging to "[0], rest[0]) && CharMatches("Imaging to "[4], rest[4]);
    PhraseLetter(rest, "Pointing error is ", 0);
    PhraseLetter(rest, "Image FWHM is ", 4);
    PhraseLetter(rest, "(avg FWHM = ", 0);
    PhraseLetter(rest, "Run complete", 0);
  }

  lemma RunCompleteExcludesOthers(line: string)
    requires RunComplete(line)
    ensures StartOfImage(line).None? && PointingError(line).None? && ImageFwhm(line).None? && AvgFwhm(line).None?
  {
    var rest := Stamp(line).value.1;
    assert CharMatches("Run complete"[0], rest[0]);
    PhraseLetter(rest, "Imaging to ", 0);
    PhraseLetter(rest, "Pointing error is ", 0);
    PhraseLetter(rest, "Image FWHM is ", 0);
    PhraseLetter(rest, "(avg FWHM = ", 0);
  }

  /** A phrase whose `k`-th character is a letter other than the text's fails to match. */
  lemma PhraseLetter(s: string, p: string, k: nat)
    requires k < |p| && p[k] != ' ' && (k < |s| ==> s[k] != p[k])
    ensures Phrase(s, p).None?
  {
  }

  // ---------------------------------------------------------------------
  // Files are read independently

  /** The rows of a list of files are the rows of its parts: nothing carries over from one file to the next. */
  lemma {:induction false} AllRowsAppend(a: seq<LogFile>, b: seq<LogFile>)
    ensures AllRows(a + b) ==
      (if AllRows(a).None? || AllRows(b).None? then None else Some(AllRows(a).value + AllRows(b).value))
    decreases |b|
  {
    if b == [] {
      assert a + b == a;
      assert AllRows(b) == Some([]);
      if AllRows(a).Some? {
        assert AllRows(a).value + [] == AllRows(a).value;
      }
    } else {
      var b' := b[..|b| - 1];
      var f := b[|b| - 1];
      AllRowsAppend(a, b');
      assert (a + b)[..|a + b| - 1] == a + b';
      assert (a + b)[|a + b| - 1] == f;
      if AllRows(a).Some? && AllRows(b').Some? && IsLogName(f.name) && Scan(Fresh, ReadLines(f.text)).Next? {
        AppendAssoc(AllRows(a).value, AllRows(b').value, Scan(Fresh, ReadLines(f.text)).rows);
      }
    }
  }

  /** Files whose names do not end in `.log` contribute nothing. */
  lemma {:induction false} OnlyLogFilesRead(files: seq<LogFile>, f: LogFile)
    requires !IsLogName(f.name)
    ensures AllRows(files + [f]) == AllRows(files)
  {
    assert (files + [f])[..|files|] == files;
  }

  /** A single log file is scanned from the fresh state. */
  lemma SingleLogFile(f: LogFile)
    requires IsLogName(f.name)
    ensures var scan := Scan(Fresh, ReadLines(f.text));
      AllRows([f]) == if scan.BadNumber? then None else Some(scan.rows)
  {
    var scan := Scan(Fresh, ReadLines(f.text));
    assert [f][..0] == [];
    assert AllRows([f][..0]) == Some([]);
    if scan.Next? {
      assert [] + scan.rows == scan.rows;
    }
  }

  // ---------------------------------------------------------------------
  // The patterns recognise the lines ACP writes

  lemma PhraseOf(p: string, rest: string)
    ensures Phrase(p + rest, p) == Some(rest)
  {
    forall i | 0 <= i < |p| ensures CharMatches(p[i], (p + rest)[i]) {
      assert (p + rest)[i] == p[i];
    }
    assert (p + rest)[|p|..] == rest;
  }

  lemma {:induction false} SpanOf(run: string, rest: string, cls: CharClass)
    requires forall i :: 0 <= i < |run| ==> InClass(run[i], cls)
    requires rest != [] ==> !InClass(rest[0], cls)
    ensures Span(run + rest, cls) == |run|
    decreases |run|
  {
    if run != [] {
      assert (run + rest)[1..] == run[1..] + rest;
      SpanOf(run[1..], rest, cls);
    } else {
      assert run + rest == rest;
    }
  }

  lemma StampOf(time: string, rest: string)
    requires IsTime(time) && (rest != [] ==> !IsSpace(rest[0]))
    ensures Stamp(time + " " + rest) == Some((time, rest))
  {
    AppendAssoc(time, " ", rest);
    AppendParts(time, " " + rest);
    SkipOneSpace(' ', rest);
  }

  /** `12:34:56 Imaging to M42-Ha\n` is a start-of-image line for `M42-Ha` at `12:34:56`. */
  lemma StartOfImageOf(time: string, name: string, tail: string)
    requires IsTime(time)
    requires forall i :: 0 <= i < |name| ==> InClass(name[i], NameChars)
    requires tail != [] ==> !InClass(tail[0], NameChars)
    ensures StartOfImage(time + " " + ("Imaging to " + (name + tail))) == Some((time, name))
  {
    StampOf(time, "Imaging to " + (name + tail));
    PhraseOf("Imaging to ", name + tail);
    SpanOf(name, tail, NameChars);
    assert (name + tail)[..|name|] == name;
  }

  /** `12:34:56 Pointing error is 1.25 arcmin...` gives the pointing error `1.25`. */
  lemma PointingErrorOf(time: string, value: string, tail: string)
    requires IsTime(time) && |value| >= 1
    requires forall i :: 0 <= i < |value| ==> InClass(value[i], NumberChars)
    ensures PointingError(time + " " + ("Pointing error is " + (value + (" arcmin" + tail)))) == Some(value)
  {
    StampOf(time, "Pointing error is " + (value + (" arcmin" + tail)));
    PhraseOf("Pointing error is ", value + (" arcmin" + tail));
    SpanOf(value, " arcmin" + tail, NumberChars);
    assert (value + (" arcmin" + tail))[..|value|] == value;
    assert (value + (" arcmin" + tail))[|value|..] == " arcmin" + tail;
    PhraseOf(" arcmin", tail);
  }

  lemma ShortNumberOf(value: string, rest: string)
    requires 2 <= |value| <= 5
    requires forall i :: 0 <= i < |value| ==> InClass(value[i], NumberChars)
    requires rest != [] && rest[0] == ' '
    ensures ShortNumber(value + rest) == Some((value, rest))
  {
    SpanOf(value, rest, NumberChars);
    assert (value + rest)[..|value|] == value;
    assert (value + rest)[|value|..] == rest;
  }

  /** `12:34:56 (avg FWHM = 2.41 arcsec)` gives the average FWHM `2.41`. */
  lemma AvgFwhmOf(time: string, value: string, tail: string)
    requires IsTime(time) && 2 <= |value| <= 5
    requires forall i :: 0 <= i < |value| ==> InClass(value[i], NumberChars)
    ensures AvgFwhm(time + " " + ("(avg FWHM = " + (value + (" arcsec)" + tail)))) == Some(value)
  {
    StampOf(time, "(avg FWHM = " + (value + (" arcsec)" + tail)));
    PhraseOf("(avg FWHM = ", value + (" arcsec)" + tail));
    ShortNumberOf(value, " arcsec)" + tail);
    PhraseOf(" arcsec)", tail);
  }

  /** `12:34:56 Image FWHM is 3.10 arcsec (1.23 pixels)` gives the FWHM in pixels `1.23`. */
  lemma ImageFwhmOf(time: string, arcsec: string, pixels: string, tail: string)
    requires IsTime(time) && 2 <= |arcsec| <= 5 && 2 <= |pixels| <= 5
    requires forall i :: 0 <= i < |arcsec| ==> InClass(arcsec[i], NumberChars)
    requires forall i :: 0 <= i < |pixels| ==> InClass(pixels[i], NumberChars)
    ensures ImageFwhm(time + " " + ("Image FWHM is " + (arcsec + (" arcsec (" + (pixels + (" pixels)" + tail))))))
            == Some(pixels)
  {
    var after := pixels + (" pixels)" + tail);
    StampOf(time, "Image FWHM is " + (arcsec + (" arcsec (" + after)));
    PhraseOf("Image FWHM is ", arcsec + (" arcsec (" + after));
    ShortNumberOf(arcsec, " arcsec (" + after);
    PhraseOf(" arcsec (", after);
    ShortNumberOf(pixels, " pixels)" + tail);
    PhraseOf(" pixels)", tail);
  }

  /** `12:34:56 Run complete` ends a run. */
  lemma RunCompleteOf(time: string, tail: string)
    requires IsTime(time)
    ensures RunComplete(time + " " + ("Run complete" + tail))
  {
    StampOf(time, "Run complete" + tail);
    PhraseOf("Run complete", tail);
  }
}

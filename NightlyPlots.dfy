// The text logic of the nightly plots: the HST to UT clock conversion,
// the weather-condition and dome-fan fields of the environmental logs,
// the IQMon entry filter, and the names of the plot files.

module NightlyPlots {
  import opened Optional
  import opened Text
  import opened AcpLog

  // ---------------------------------------------------------------------
  // HST to UT (lines 35-41)

  /** The hour arithmetic: Hawaii is ten hours behind UT, wrapping past midnight from 14:00 on. */
  function UtHour(h: int): int {
    if h >= 14 then h + 10 - 24 else h + 10
  }

  /** The reverse conversion, UT back to HST. */
  function HstHour(u: int): int {
    (u + 14) % 24
  }

  /** The outcome of `ConvertHSTtoUTString`. */
  datatype Converted =
    | UT(text: string)
    | ValueError  // `int()` of the hour field failed
    | IndexError  // fewer than three `:`-separated fields

  /**
   * Lines 35-41: the hour field is read with `int` and moved to UT without
   * zero padding; the minute and second fields are copied as they are.
   */
  function ConvertHSTtoUT(time: string): Converted {
    var hms := Split(time, ':');
    match ParseInt(hms[0])
    case None => ValueError
    case Some(h) =>
      if |hms| < 3 then IndexError
      else UT(IntToString(UtHour(h)) + ":" + hms[1] + ":" + hms[2])
  }

  /** For a clock hour, the UT hour is a clock hour ten hours on, and the reverse conversion recovers it. */
  lemma UtHourOfClockHour(h: int)
    requires 0 <= h <= 23
    ensures 0 <= UtHour(h) <= 23
    ensures UtHour(h) == (h + 10) % 24
    ensures HstHour(UtHour(h)) == h
  {
  }

  /** Two different clock hours never land on the same UT hour. */
  lemma UtHourInjective(h1: int, h2: int)
    requires 0 <= h1 <= 23 && 0 <= h2 <= 23 && UtHour(h1) == UtHour(h2)
    ensures h1 == h2
  {
    UtHourOfClockHour(h1);
    UtHourOfClockHour(h2);
  }

  /**
   * A time `H:MM:SS` converts to `U:MM:SS` with `U` the UT hour of `H`; the
   * result splits back into its fields and its hour reads back as `U`.
   */
  lemma ConvertFields(hour: string, minutes: string, seconds: string, h: int)
    requires ParseInt(hour) == Some(h)
    requires ':' !in hour && ':' !in minutes && ':' !in seconds
    ensures var u := IntToString(UtHour(h));
      && ConvertHSTtoUT(hour + ":" + minutes + ":" + seconds) == UT(u + ":" + minutes + ":" + seconds)
      && Split(u + ":" + minutes + ":" + seconds, ':') == [u, minutes, seconds]
      && ParseInt(u) == Some(UtHour(h))
  {
    var u := IntToString(UtHour(h));
    JoinedFields(hour, minutes, seconds);
    IntToStringNoColon(UtHour(h));
    JoinedFields(u, minutes, seconds);
    ParseIntOfIntToString(UtHour(h));
  }

  lemma JoinedFields(a: string, b: string, c: string)
    requires ':' !in a && ':' !in b && ':' !in c
    ensures Split(a + ":" + b + ":" + c, ':') == [a, b, c]
  {
    assert [b] + [c] == [b, c] && [a] + [b, c] == [a, b, c];
    JoinCons(b, [c], ':');
    JoinCons(a, [b, c], ':');
    JoinSplit([a, b, c], ':');
    AppendAssoc(a, ":", b + (":" + c));
    AppendAssoc(a + ":", b, ":" + c);
    AppendAssoc(a + ":" + b, ":", c);
  }

  lemma IntToStringNoColon(i: int)
    ensures ':' !in IntToString(i)
  {
    var s := IntToString(i);
    var digits := NatToString(if i < 0 then -i else i);
    forall k | 0 <= k < |s| ensures s[k] != ':' {
      if i < 0 && k > 0 {
        assert s[k] == digits[k - 1];
      } else if i >= 0 {
        assert s[k] == digits[k];
      }
    }
  }

  /** The error cases: an unreadable hour, or a readable hour with fewer than three fields. */
  lemma ConvertErrors(time: string)
    ensures ConvertHSTtoUT(time) == ValueError <==> ParseInt(Split(time, ':')[0]).None?
    ensures ConvertHSTtoUT(time) == IndexError <==>
      ParseInt(Split(time, ':')[0]).Some? && |Split(time, ':')| < 3
  {
  }

  // ---------------------------------------------------------------------
  // Weather conditions and the dome fan (lines 256-331)

  /** The wet, cloud and wind conditions of one environmental-log row. */
  datatype Condition = Condition(wet: string, cloud: string, wind: string)

  /** The value recorded when the condition field does not match. */
  const Unknown := Condition("-1", "-1", "-1")

  predicate IsV20Level(c: char) {
    '0' <= c <= '3'
  }

  predicate IsV5Level(c: char) {
    c == '-' || IsDigit(c)
  }

  /** Each condition is a single level character, or `-1` for every field at once. */
  predicate WellFormedCondition(c: Condition) {
    c == Unknown || (|c.wet| == 1 && |c.cloud| == 1 && |c.wind| == 1)
  }

  /** Lines 260-268: `re.match('([0-3])([0-3])([0-3])', condition)`. */
  function V20Condition(field: string): (r: Condition)
    ensures r == Unknown <==> !(|field| >= 3 && IsV20Level(field[0]) && IsV20Level(field[1]) && IsV20Level(field[2]))
    ensures r != Unknown ==> r == Condition([field[0]], [field[1]], [field[2]])
    ensures WellFormedCondition(r)
  {
    if |field| >= 3 && IsV20Level(field[0]) && IsV20Level(field[1]) && IsV20Level(field[2]) then
      Condition([field[0]], [field[1]], [field[2]])
    else Unknown
  }

  /**
   * Lines 323-331: `re.match('\s*([\-0-9])([\-0-9])([\-0-9])\s*', condition)`.
   * The characters after the leading whitespace cannot be whitespace, so
   * the greedy `\s*` never gives any back.
   */
  function V5Condition(field: string): Condition {
    var t := SkipSpaces(field);
    if |t| >= 3 && IsV5Level(t[0]) && IsV5Level(t[1]) && IsV5Level(t[2]) then
      Condition([t[0]], [t[1]], [t[2]])
    else Unknown
  }

  /**
   * The VYSOS-5 condition is unknown exactly when the three characters after
   * the leading whitespace are not all levels; otherwise it holds those three.
   */
  lemma V5ConditionMeaning(field: string)
    ensures var t := SkipSpaces(field); var r := V5Condition(field);
      && (r == Unknown <==> !(|t| >= 3 && IsV5Level(t[0]) && IsV5Level(t[1]) && IsV5Level(t[2])))
      && (r != Unknown ==> r == Condition([t[0]], [t[1]], [t[2]]))
      && WellFormedCondition(r)
  {
  }

  /** A three-digit condition code reads back as its three digits, whatever follows it. */
  lemma V20ConditionOf(wet: char, cloud: char, wind: char, rest: string)
    requires IsV20Level(wet) && IsV20Level(cloud) && IsV20Level(wind)
    ensures V20Condition([wet, cloud, wind] + rest) == Condition([wet], [cloud], [wind])
  {
  }

  /** The same for the VYSOS-5 log, after any leading whitespace. */
  lemma V5ConditionOf(blank: string, wet: char, cloud: char, wind: char, rest: string)
    requires AllSpace(blank) && IsV5Level(wet) && IsV5Level(cloud) && IsV5Level(wind)
    ensures V5Condition(blank + ([wet, cloud, wind] + rest)) == Condition([wet], [cloud], [wind])
  {
    var s := [wet, cloud, wind] + rest;
    assert s[0] == wet && s[1] == cloud && s[2] == wind;
    SkipSpacesOver(blank, s);
    assert SkipSpaces(blank + s) == s;
  }

  lemma {:induction false} SkipSpacesOver(blank: string, s: string)
    requires AllSpace(blank) && (s != [] ==> !IsSpace(s[0]))
    ensures SkipSpaces(blank + s) == s
    decreases |blank|
  {
    if blank != [] {
      assert (blank + s)[1..] == blank[1..] + s;
      SkipSpacesOver(blank[1..], s);
    } else {
      assert blank + s == s;
    }
  }

  /** `[0-1]`. */
  predicate IsBit(c: char) {
    c == '0' || c == '1'
  }

  /**
   * Where `.*([0-1])([0-1]).*` can put its group: two adjacent bits with no
   * newline before them (`.` does not match a newline).
   */
  predicate PairAt(s: string, i: int) {
    0 <= i && i + 1 < |s| && IsBit(s[i]) && IsBit(s[i + 1]) && '\n' !in s[..i]
  }

  /** The greedy `.*` puts the group at the last such place below `n`. */
  function LastPair(s: string, n: nat): (r: Option<nat>)
    requires n <= |s|
    ensures r.Some? ==> r.value < n && PairAt(s, r.value) && forall j :: r.value < j < n ==> !PairAt(s, j)
    ensures r.None? ==> forall j :: 0 <= j < n ==> !PairAt(s, j)
  {
    if n == 0 then None
    else if PairAt(s, n - 1) then Some(n - 1)
    else LastPair(s, n - 1)
  }

  /** Lines 272-276: the dome fan as a percentage, `float(group(1)) * 100`, or 0 when there is no match. */
  function DomeFan(field: string): int {
    match LastPair(field, |field|)
    case None => 0
    case Some(i) => if field[i] == '1' then 100 else 0
  }

  /** The fan is 0 or 100, and 100 exactly when the last bit pair the match can reach starts with `1`. */
  lemma DomeFanMeaning(field: string)
    ensures DomeFan(field) == 0 || DomeFan(field) == 100
    ensures DomeFan(field) == 100 <==>
      exists i :: PairAt(field, i) && field[i] == '1' && forall j :: i < j < |field| ==> !PairAt(field, j)
  {
    var r := LastPair(field, |field|);
    if exists i :: PairAt(field, i) && field[i] == '1' && forall j :: i < j < |field| ==> !PairAt(field, j) {
      var i :| PairAt(field, i) && field[i] == '1' && forall j :: i < j < |field| ==> !PairAt(field, j);
      assert r.Some? && r.value == i;
    }
    if DomeFan(field) == 100 {
      assert PairAt(field, r.value) && field[r.value] == '1';
    }
  }

  /** A fan field made only of bits is on exactly when its second-to-last bit is `1`. */
  lemma DomeFanOfBits(field: string)
    requires |field| >= 2 && forall i :: 0 <= i < |field| ==> IsBit(field[i])
    ensures DomeFan(field) == 100 <==> field[|field| - 2] == '1'
  {
    var n := |field| - 2;
    assert '\n' !in field[..n] by {
      forall k | 0 <= k < n ensures field[..n][k] != '\n' {
        assert field[..n][k] == field[k];
      }
    }
    assert PairAt(field, n);
    assert LastPair(field, |field|) == Some(n);
  }

  /** One row of the VYSOS-20 environmental log, as far as the parsing here goes. */
  datatype V20Row = V20Row(condition: string, domeFanState: string)

  /** The columns the VYSOS-20 loop appends. */
  datatype V20Columns = V20Columns(wet: seq<string>, cloud: seq<string>, wind: seq<string>, domeFan: seq<int>)

  /** Lines 256-281: parse each row's condition and dome-fan fields, appending to the columns. */
  method ParseV20Rows(rows: seq<V20Row>) returns (cols: V20Columns)
    ensures |cols.wet| == |cols.cloud| == |cols.wind| == |cols.domeFan| == |rows|
    ensures forall i :: 0 <= i < |rows| ==>
      Condition(cols.wet[i], cols.cloud[i], cols.wind[i]) == V20Condition(rows[i].condition)
    ensures forall i :: 0 <= i < |rows| ==> cols.domeFan[i] == DomeFan(rows[i].domeFanState)
    ensures forall i :: 0 <= i < |rows| ==> cols.domeFan[i] == 0 || cols.domeFan[i] == 100
  {
    var wet: seq<string>, cloud: seq<string>, wind: seq<string>, fan: seq<int> := [], [], [], [];
    var i := 0;
    while i < |rows|
      invariant 0 <= i <= |rows|
      invariant |wet| == |cloud| == |wind| == |fan| == i
      invariant forall k :: 0 <= k < i ==> Condition(wet[k], cloud[k], wind[k]) == V20Condition(rows[k].condition)
      invariant forall k :: 0 <= k < i ==> fan[k] == DomeFan(rows[k].domeFanState)
      invariant forall k :: 0 <= k < i ==> fan[k] == 0 || fan[k] == 100
    {
      var c := V20Condition(rows[i].condition);
      wet, cloud, wind := wet + [c.wet], cloud + [c.cloud], wind + [c.wind];
      DomeFanMeaning(rows[i].domeFanState);
      fan := fan + [DomeFan(rows[i].domeFanState)];
      i := i + 1;
    }
    cols := V20Columns(wet, cloud, wind, fan);
  }

  /** The wet, cloud and wind columns built by appending each condition's parts in turn. */
  function Columns(cs: seq<Condition>): (seq<string>, seq<string>, seq<string>)
    decreases |cs|
  {
    if cs == [] then ([], [], [])
    else
      var previous := Columns(cs[..|cs| - 1]);
      var c := cs[|cs| - 1];
      (previous.0 + [c.wet], previous.1 + [c.cloud], previous.2 + [c.wind])
  }

  /** Row `i` of the three columns holds the parts of condition `i`. */
  lemma {:induction false} ColumnsMeaning(cs: seq<Condition>)
    ensures var cols := Columns(cs);
      && |cols.0| == |cols.1| == |cols.2| == |cs|
      && forall i :: 0 <= i < |cs| ==> Condition(cols.0[i], cols.1[i], cols.2[i]) == cs[i]
    decreases |cs|
  {
    if cs != [] {
      var init := cs[..|cs| - 1];
      ColumnsMeaning(init);
      var cols := Columns(cs);
      forall i | 0 <= i < |cs|
        ensures Condition(cols.0[i], cols.1[i], cols.2[i]) == cs[i]
      {
        if i < |init| {
          assert cs[i] == init[i];
        }
      }
    }
  }

  /** Lines 319-337: parse each VYSOS-5 row's condition field, appending to the columns. */
  method ParseV5Rows(conditions: seq<string>) returns (wet: seq<string>, cloud: seq<string>, wind: seq<string>)
    ensures |wet| == |cloud| == |wind| == |conditions|
    ensures forall i :: 0 <= i < |conditions| ==> Condition(wet[i], cloud[i], wind[i]) == V5Condition(conditions[i])
  {
    wet, cloud, wind := [], [], [];
    ghost var parsed: seq<Condition> := [];
    var i := 0;
    while i < |conditions|
      invariant 0 <= i <= |conditions|
      invariant |parsed| == i
      invariant forall k :: 0 <= k < i ==> parsed[k] == V5Condition(conditions[k])
      invariant (wet, cloud, wind) == Columns(parsed)
    {
      var c := V5Condition(conditions[i]);
      wet, cloud, wind := wet + [c.wet], cloud + [c.cloud], wind + [c.wind];
      assert (parsed + [c])[..i] == parsed;
      parsed := parsed + [c];
      i := i + 1;
    }
    ColumnsMeaning(parsed);
  }

  // ---------------------------------------------------------------------
  // The IQMon summary (lines 111-169)

  /** One entry of an IQMon summary file; values are kept as the text the file holds, `None` when missing. */
  datatype Entry = Entry(
    exposureStart: string, filename: string, fwhm: string, ellipticity: string,
    alt: string, az: string, airmass: string, pointingError: string,
    zeroPoint: string, nStars: string, background: string, backgroundRms: string)

  /** A row of the IQMon table (the decimal time, a float function of `exposureStart`, is not modelled). */
  datatype IqRow = IqRow(
    exposureStart: string, filename: string, fwhm: string, ellipticity: string,
    alt: string, az: string, airmass: string, pointingError: string,
    zeroPoint: Measure, nStars: string, background: string, backgroundRms: string)

  /** Lines 156-157: the entry has the three values the plots need. */
  predicate Complete(e: Entry) {
    e.fwhm != "None" && e.ellipticity != "None" && e.pointingError != "None"
  }

  /** Lines 154-163: a missing zero point becomes `NaN`. */
  function RowOf(e: Entry): (r: IqRow)
    ensures r.zeroPoint == NaN <==> e.zeroPoint == "None"
  {
    IqRow(e.exposureStart, e.filename, e.fwhm, e.ellipticity, e.alt, e.az, e.airmass, e.pointingError,
          if e.zeroPoint == "None" then NaN else Number(e.zeroPoint),
          e.nStars, e.background, e.backgroundRms)
  }

  /** The rows of the complete entries, in order. */
  function Kept(entries: seq<Entry>): seq<IqRow>
    decreases |entries|
  {
    if entries == [] then []
    else
      var e := entries[|entries| - 1];
      Kept(entries[..|entries| - 1]) + (if Complete(e) then [RowOf(e)] else [])
  }

  /** Lines 152-166: the entry loop. */
  method FilterEntries(entries: seq<Entry>) returns (rows: seq<IqRow>)
    ensures rows == Kept(entries)
  {
    rows := [];
    var i := 0;
    while i < |entries|
      invariant 0 <= i <= |entries|
      invariant rows == Kept(entries[..i])
    {
      assert entries[..i + 1][..i] == entries[..i];
      if Complete(entries[i]) {
        rows := rows + [RowOf(entries[i])];
      }
      i := i + 1;
    }
    assert entries[..|entries|] == entries;
  }

  /** A row is in the table exactly when a complete entry produced it. */
  lemma {:induction false} KeptMeaning(entries: seq<Entry>)
    ensures |Kept(entries)| <= |entries|
    ensures forall r :: r in Kept(entries) <==> exists i :: 0 <= i < |entries| && Complete(entries[i]) && RowOf(entries[i]) == r
    decreases |entries|
  {
    if entries != [] {
      var init := entries[..|entries| - 1];
      var e := entries[|entries| - 1];
      KeptMeaning(init);
      forall r ensures r in Kept(entries) <==> exists i :: 0 <= i < |entries| && Complete(entries[i]) && RowOf(entries[i]) == r {
        if r in Kept(init) {
          var i :| 0 <= i < |init| && Complete(init[i]) && RowOf(init[i]) == r;
          assert entries[i] == init[i];
        }
        if exists i :: 0 <= i < |entries| && Complete(entries[i]) && RowOf(entries[i]) == r {
          var i :| 0 <= i < |entries| && Complete(entries[i]) && RowOf(entries[i]) == r;
          if i < |init| {
            assert init[i] == entries[i];
          }
        }
      }
    }
  }

  /** The filter keeps order: the table of two runs of entries is the two tables one after the other. */
  lemma {:induction false} KeptAppend(a: seq<Entry>, b: seq<Entry>)
    ensures Kept(a + b) == Kept(a) + Kept(b)
    decreases |b|
  {
    if b == [] {
      assert a + b == a;
    } else {
      var b' := b[..|b| - 1];
      KeptAppend(a, b');
      assert (a + b)[..|a + b| - 1] == a + b';
      assert (a + b)[|a + b| - 1] == b[|b| - 1];
      var last := if Complete(b[|b| - 1]) then [RowOf(b[|b| - 1])] else [];
      AppendAssoc(Kept(a), Kept(b'), last);
    }
  }

  /** When every entry is complete, every entry becomes a row. */
  lemma {:induction false} KeptAllComplete(entries: seq<Entry>)
    requires forall i :: 0 <= i < |entries| ==> Complete(entries[i])
    ensures |Kept(entries)| == |entries|
    ensures forall i :: 0 <= i < |entries| ==> Kept(entries)[i] == RowOf(entries[i])
    decreases |entries|
  {
    if entries != [] {
      KeptAllComplete(entries[..|entries| - 1]);
    }
  }

  /** `VYSOS-5` or `VYSOS-20` (lines 113-116 and 379-388). */
  function TelName(telescope: string): (r: Option<string>)
    ensures r.Some? <==> telescope == "V5" || telescope == "V20"
    ensures r.Some? ==> r.value == "VYSOS-" + telescope[1..]
  {
    if telescope == "V5" then Some("VYSOS-5")
    else if telescope == "V20" then Some("VYSOS-20")
    else None
  }

  /** `([0-9]{8}UT)_V5_Summary\.txt` (or `_V20_`) at the start of the name: the date it captures. */
  function SummaryDate(name: string, telescope: string): (r: Option<string>)
    ensures r.Some? ==> |r.value| == 10 && IsPrefix(r.value, name)
  {
    var suffix := "_" + telescope + "_Summary.txt";
    if |name| >= 10 && AllDigits(name[..8]) && name[8..10] == "UT" && IsPrefix(suffix, name[10..]) then
      Some(name[..10])
    else None
  }

  /** A file of the IQMon directory: its name, and its entries when it reads as a list. */
  datatype SummaryFile = SummaryFile(name: string, entries: Option<seq<Entry>>)

  /** The outcome of `ReadIQMonLog`. */
  datatype IqResult =
    | UnknownTelescope                 // `telname` is never bound
    | NoTable                          // `IQMonTable = None`
    | IqTable(rows: seq<IqRow>)

  predicate ReadsAs(f: SummaryFile, telescope: string, date: string) {
    SummaryDate(f.name, telescope) == Some(date) && f.entries.Some?
  }

  /**
   * The table left by the loop of lines 125-166: each summary file of the
   * night that reads as a list builds a fresh table, so the last one wins;
   * a file that fails to read leaves the table as it was.
   */
  function SummaryTable(files: seq<SummaryFile>, telescope: string, date: string): (r: Option<seq<IqRow>>)
    ensures r.None? <==> forall k :: 0 <= k < |files| ==> !ReadsAs(files[k], telescope, date)
    decreases |files|
  {
    if files == [] then None
    else
      var f := files[|files| - 1];
      if ReadsAs(f, telescope, date) then Some(Kept(f.entries.value))
      else
        var r := SummaryTable(files[..|files| - 1], telescope, date);
        assert forall k :: 0 <= k < |files| - 1 ==> files[..|files| - 1][k] == files[k];
        r
  }

  /** The table comes from the last summary file of the night that reads as a list. */
  lemma {:induction false} SummaryTableLastWins(files: seq<SummaryFile>, telescope: string, date: string)
    requires SummaryTable(files, telescope, date).Some?
    ensures exists k :: (
      && 0 <= k < |files| && ReadsAs(files[k], telescope, date)
      && SummaryTable(files, telescope, date).value == Kept(files[k].entries.value)
      && forall j :: k < j < |files| ==> !ReadsAs(files[j], telescope, date))
    decreases |files|
  {
    var last := |files| - 1;
    if !ReadsAs(files[last], telescope, date) {
      var init := files[..last];
      SummaryTableLastWins(init, telescope, date);
      var k :| (
        && 0 <= k < |init| && ReadsAs(init[k], telescope, date)
        && SummaryTable(init, telescope, date).value == Kept(init[k].entries.value)
        && forall j :: k < j < |init| ==> !ReadsAs(init[j], telescope, date));
      assert init[k] == files[k];
      forall j | k < j < |files| ensures !ReadsAs(files[j], telescope, date) {
        if j < last {
          assert init[j] == files[j];
        }
      }
    } else {
      assert SummaryTable(files, telescope, date).value == Kept(files[last].entries.value);
    }
  }

  /** Lines 111-169: find the night's summary in the IQMon directory and turn its entries into a table. */
  method ReadIqmonLog(telescope: string, date: string, present: bool, files: seq<SummaryFile>)
    returns (result: IqResult)
    ensures TelName(telescope).None? <==> result == UnknownTelescope
    ensures TelName(telescope).Some? && !present ==> result == NoTable
    ensures TelName(telescope).Some? && present ==>
      result == (if SummaryTable(files, telescope, date).None? then NoTable
                 else IqTable(SummaryTable(files, telescope, date).value))
  {
    var telname := TelName(telescope);
    if telname.None? {
      return UnknownTelescope;
    }
    result := NoTable;
    if !present {
      return;
    }
    var k := 0;
    while k < |files|
      invariant 0 <= k <= |files|
      invariant result == (if SummaryTable(files[..k], telescope, date).None? then NoTable
                           else IqTable(SummaryTable(files[..k], telescope, date).value))
    {
      var f := files[k];
      assert files[..k + 1][..k] == files[..k];
      var fileDate := SummaryDate(f.name, telescope);
      if fileDate.Some? && fileDate.value == date {
        match f.entries {
          case None =>
          case Some(entries) =>
            var rows := FilterEntries(entries);
            result := IqTable(rows);
        }
      }
      k := k + 1;
    }
    assert files[..|files|] == files;
  }

  // ---------------------------------------------------------------------
  // Paths and file names of MakePlots (lines 361-396)

  /** Lines 371-377: the last of the two IQMon log directories that exists; none is an `AssertionError`. */
  function LogsPath(home: string, present: string -> bool): (r: Option<string>)
    ensures r.Some? ==> present(r.value)
    ensures r.None? <==> !present(PathJoin(PathJoin(home, "IQMon"), "Logs")) && !present("/Volumes/DroboPro1/IQMon/Logs")
    ensures present("/Volumes/DroboPro1/IQMon/Logs") ==> r == Some("/Volumes/DroboPro1/IQMon/Logs")
    ensures !present("/Volumes/DroboPro1/IQMon/Logs") && present(PathJoin(PathJoin(home, "IQMon"), "Logs")) ==>
      r == Some(PathJoin(PathJoin(home, "IQMon"), "Logs"))
  {
    var candidates := [PathJoin(PathJoin(home, "IQMon"), "Logs"), "/Volumes/DroboPro1/IQMon/Logs"];
    if present(candidates[1]) then Some(candidates[1])
    else if present(candidates[0]) then Some(candidates[0])
    else None
  }

  /** Lines 361-369: each telescope's data directory, preferring its own volume to the Drobo. */
  function DataPath(telescope: string, present: string -> bool): (r: string)
    ensures r == PathJoin("/Volumes", "Data_" + telescope) <==> present(PathJoin("/Volumes", "Data_" + telescope))
    ensures r != PathJoin("/Volumes", "Data_" + telescope) ==> r == PathJoin(PathJoin("/Volumes", "Drobo"), telescope)
  {
    var own := PathJoin("/Volumes", "Data_" + telescope);
    var drobo := PathJoin(PathJoin("/Volumes", "Drobo"), telescope);
    OwnVolumeIsNotDrobo(telescope);
    if present(own) then own else drobo
  }

  /** The telescope's own volume and its Drobo directory are different paths. */
  lemma OwnVolumeIsNotDrobo(telescope: string)
    ensures PathJoin("/Volumes", "Data_" + telescope) != PathJoin(PathJoin("/Volumes", "Drobo"), telescope)
  {
    var own := PathJoin("/Volumes", "Data_" + telescope);
    assert own == "/Volumes/Data_" + telescope;
    var drobo := PathJoin(PathJoin("/Volumes", "Drobo"), telescope);
    if telescope != [] && telescope[0] == '/' {
      assert drobo == telescope;
      assert |own| > |drobo|;
    } else {
      assert drobo == "/Volumes/Drobo/" + telescope;
      assert own[10] != drobo[10];
    }
  }

  /** The three plot files of a night (lines 390-396). */
  datatype PlotFiles = PlotFiles(plot: string, env: string, recent: string)

  function PlotFileNames(logsPath: string, telescope: string, date: string): Option<PlotFiles> {
    match TelName(telescope)
    case None => None
    case Some(telname) =>
      var dir := PathJoin(logsPath, telname);
      Some(PlotFiles(PathJoin(dir, date + "_" + telescope + ".png"),
                     PathJoin(dir, date + "_" + telescope + "_Env.png"),
                     PathJoin(dir, "Recent_" + telname + "_Conditions.png")))
  }

  /**
   * The three plots are three different files in the telescope's own IQMon
   * directory, the first two named after the night.
   */
  lemma PlotFilesDistinct(logsPath: string, telescope: string, date: string)
    requires logsPath != [] && logsPath[|logsPath| - 1] != '/' && '/' !in date
    requires telescope == "V5" || telescope == "V20"
    ensures var files := PlotFileNames(logsPath, telescope, date);
      var dir := logsPath + "/" + TelName(telescope).value;
      && files.Some?
      && files.value.plot == dir + "/" + (date + "_" + telescope + ".png")
      && files.value.env == dir + "/" + (date + "_" + telescope + "_Env.png")
      && files.value.recent == dir + "/" + ("Recent_" + TelName(telescope).value + "_Conditions.png")
      && files.value.plot != files.value.env
      && files.value.plot != files.value.recent
      && files.value.env != files.value.recent
  {
    var telname := TelName(telescope).value;
    var dir := logsPath + "/" + telname;
    var plot := date + "_" + telescope + ".png";
    var env := date + "_" + telescope + "_Env.png";
    var recent := "Recent_" + telname + "_Conditions.png";
    assert telname[0] == 'V';
    assert PathJoin(logsPath, telname) == dir;
    assert dir[|dir| - 1] != '/';
    assert plot[0] != '/' && env[0] != '/' && recent[0] != '/' by {
      if date != [] {
        assert plot[0] == date[0] && env[0] == date[0];
        assert date[0] in date;
      }
    }
    assert |plot| < |env|;
    EndsDiffer(dir + "/", plot, recent);
    EndsDiffer(dir + "/", env, recent);
  }

  /** A night's plot name ends in `_V5.png`, `V20.png` or `Env.png`; the recent plot's in `ons.png`. */
  lemma EndsDiffer(dir: string, name: string, recent: string)
    requires |name| >= 7 && |recent| >= 7
    requires name[|name| - 7] in "_VE" && recent[|recent| - 7] == 'o'
    ensures dir + name != dir + recent
  {
    if |name| == |recent| {
      assert (dir + name)[|dir| + |name| - 7] == name[|name| - 7];
      assert (dir + recent)[|dir| + |recent| - 7] == recent[|recent| - 7];
    }
  }
}

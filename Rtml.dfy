// The RTML writer of the scheduler (`convert_to_rtml.py`): each target
// becomes a Request block, with its priority raised by the rank of its
// monitoring period.

module Rtml {
  import opened Optional
  import opened Text

  /**
   * A row of the target table. Integer columns are integers; the float
   * columns and the coordinates are kept as the text their format
   * specifiers produce.
   */
  datatype Target = Target(
    name: string, period: int, count: int, priority: int, nexp: int, filter: string,
    horizon: string, moonDistance: string, moonWidth: string, exposureTime: string,
    raDegrees: string, decDegrees: string)

  /** An open output file: the text of each `write`, in order. */
  class OutStream {
    var written: seq<string>

    /** `open(name, 'w')`: a new, empty file. */
    constructor()
      ensures written == []
    {
      written := [];
    }

    method Write(s: string)
      modifies this
      ensures written == old(written) + [s]
    {
      written := written + [s];
    }
  }

  /** The two telescopes the script knows: the filter map of line 10 and the assert of line 55. */
  predicate KnownTelescope(telescope: string) {
    telescope == "V5" || telescope == "V20"
  }

  /** `VYSOS-` and the telescope without its leading `V` (lines 25 and 66). */
  function UserName(telescope: string): string {
    "VYSOS-" + (if |telescope| >= 1 then telescope[1..] else "")
  }

  /** Lines 11-17: targets visited every night with more than three exposures are dwelt on. */
  function ProjectLabel(period: int, count: int): (project: string)
    ensures project == "Dwell on Targets" <==> period == 1 && count > 3
    ensures project != "Dwell on Targets" ==> project == "Monitor Every " + IntToString(period) + " Days"
  {
    if period == 1 && count > 3 then "Dwell on Targets"
    else "Monitor Every " + IntToString(period) + " Days"
  }

  /** Lines 23-51: the lines of one Request block. */
  function RequestLines(t: Target, telescope: string): seq<string> {
    [ "   <Request bestefforts=\"false\">\n",
      "       <ID>" + t.name + "</ID>\n",
      "       <UserName>" + UserName(telescope) + "</UserName>\n",
      "       <Description>Observing Plan for " + t.name + "</Description>\n",
      "       <Reason>Monitor=" + IntToString(t.period) + "</Reason>\n",
      "       <Project>" + ProjectLabel(t.period, t.count) + "</Project>\n",
      "       <Schedule>\n",
      "           <Horizon>" + t.horizon + "</Horizon>\n",
      "           <Moon>\n",
      "               <Distance>" + t.moonDistance + "</Distance>\n",
      "               <Width>" + t.moonWidth + "</Width>\n",
      "           </Moon>\n",
      "           <Priority>" + IntToString(t.priority) + "</Priority>\n",
      "       </Schedule>\n",
      "       <Target count=\"" + IntToString(t.count) + "\" interval=\"0\" tolerance=\"0\">\n",
      "           <Name>" + t.name + "</Name>\n",
      "           <Coordinates>\n",
      "               <RightAscension>" + t.raDegrees + "</RightAscension>\n",
      "               <Declination>" + t.decDegrees + "</Declination>\n",
      "           </Coordinates>\n",
      "           <Picture count=\"" + IntToString(t.nexp) + "\">\n",
      "               <Name>" + t.filter + "</Name>\n",
      "               <ExposureTime>" + t.exposureTime + "</ExposureTime>\n",
      "               <Filter>" + t.filter + "</Filter>\n",
      "               <Dither>4</Dither>\n",
      "           </Picture>\n",
      "       </Target>\n",
      "   </Request>\n",
      "\n" ]
  }

  /** Lines 9-51: `write_request`; an unknown telescope fails the filter lookup before anything is written. */
  method WriteRequest(f: OutStream, t: Target, telescope: string) returns (ok: bool)
    modifies f
    ensures ok <==> KnownTelescope(telescope)
    ensures ok ==> f.written == old(f.written) + RequestLines(t, telescope)
    ensures !ok ==> f.written == old(f.written)
  {
    if !KnownTelescope(telescope) {
      return false;
    }
    ok := true;
    WriteLines(f, RequestLines(t, telescope));
  }

  /** A Request block is 29 lines, opened and closed by the Request tags. */
  lemma RequestFrame(t: Target, telescope: string)
    ensures var lines := RequestLines(t, telescope);
      && |lines| == 29
      && lines[0] == "   <Request bestefforts=\"false\">\n"
      && lines[27] == "   </Request>\n" && lines[28] == "\n"
  {
  }

  /** The block names its target three times and carries its period, priority and telescope. */
  lemma RequestFields(t: Target, telescope: string)
    requires |telescope| >= 1
    ensures var lines := RequestLines(t, telescope);
      && lines[1] == "       <ID>" + t.name + "</ID>\n"
      && lines[3] == "       <Description>Observing Plan for " + t.name + "</Description>\n"
      && lines[15] == "           <Name>" + t.name + "</Name>\n"
      && lines[4] == "       <Reason>Monitor=" + IntToString(t.period) + "</Reason>\n"
      && lines[2] == "       <UserName>VYSOS-" + telescope[1..] + "</UserName>\n"
      && lines[12] == "           <Priority>" + IntToString(t.priority) + "</Priority>\n"
  {
  }

  /** The block's Project is "Dwell on Targets" exactly for nightly targets with more than three exposures. */
  lemma RequestProject(t: Target, telescope: string)
    ensures RequestLines(t, telescope)[5] == "       <Project>Dwell on Targets</Project>\n"
      <==> t.period == 1 && t.count > 3
  {
    var project := ProjectLabel(t.period, t.count);
    var dwell := "Dwell on Targets";
    assert RequestLines(t, telescope)[5] == "       <Project>" + project + "</Project>\n";
    if "       <Project>" + project + "</Project>\n" == "       <Project>" + dwell + "</Project>\n" {
      SameFrame("       <Project>", project, dwell, "</Project>\n");
    }
  }

  /** Equal texts with the same prefix and suffix have the same middle. */
  lemma SameFrame(pre: string, a: string, b: string, post: string)
    requires pre + a + post == pre + b + post
    ensures a == b
  {
    var x := pre + a + post;
    assert |a| == |b|;
    assert a == x[|pre|..|pre| + |a|];
    assert b == x[|pre|..|pre| + |b|];
  }

  // ---------------------------------------------------------------------
  // Grouping by period (lines 70-74)

  predicate SortedByPeriod(ts: seq<Target>) {
    forall i, j :: 0 <= i < j < |ts| ==> ts[i].period <= ts[j].period
  }

  /** Place `t` after every element whose period is not larger than its own. */
  function Insert(t: Target, sorted: seq<Target>): (r: seq<Target>)
    ensures multiset(r) == multiset(sorted) + multiset{t}
    ensures |r| == |sorted| + 1
    decreases |sorted|
  {
    if sorted == [] || t.period < sorted[0].period then [t] + sorted
    else
      var r := [sorted[0]] + Insert(t, sorted[1..]);
      assert sorted == [sorted[0]] + sorted[1..];
      r
  }

  lemma {:induction false} InsertSorted(t: Target, sorted: seq<Target>)
    requires SortedByPeriod(sorted)
    ensures SortedByPeriod(Insert(t, sorted))
    ensures forall k :: 0 <= k < |Insert(t, sorted)| ==>
      Insert(t, sorted)[k] == t || Insert(t, sorted)[k] in sorted
    decreases |sorted|
  {
    if sorted != [] && t.period >= sorted[0].period {
      var rest := Insert(t, sorted[1..]);
      InsertSorted(t, sorted[1..]);
      var r := [sorted[0]] + rest;
      forall k | 1 <= k < |r| ensures sorted[0].period <= r[k].period {
        assert r[k] == rest[k - 1];
        if r[k] != t {
          var j :| 0 <= j < |sorted[1..]| && sorted[1..][j] == r[k];
          assert sorted[j + 1] == r[k];
        }
      }
      forall k | 1 <= k < |r| ensures r[k] == t || r[k] in sorted {
        assert r[k] == rest[k - 1];
        if r[k] != t {
          assert r[k] in sorted[1..];
        }
      }
    }
  }

  /**
   * `tab.group_by('period')`: the rows in ascending order of period, rows
   * with the same period in table order.
   */
  function GroupByPeriod(ts: seq<Target>): (r: seq<Target>)
    ensures |r| == |ts|
    ensures multiset(r) == multiset(ts)
    decreases |ts|
  {
    if ts == [] then []
    else
      var init := ts[..|ts| - 1];
      assert ts == init + [ts[|ts| - 1]];
      Insert(ts[|ts| - 1], GroupByPeriod(init))
  }


  /** The grouped table is ordered by period. */
  lemma {:induction false} GroupByPeriodSorts(ts: seq<Target>)
    ensures SortedByPeriod(GroupByPeriod(ts))
    decreases |ts|
  {
    if ts != [] {
      var init := ts[..|ts| - 1];
      GroupByPeriodSorts(init);
      InsertSorted(ts[|ts| - 1], GroupByPeriod(init));
    }
  }


  /** `groups.keys['period']`: the distinct periods of a sorted table, in ascending order. */
  function Keys(sorted: seq<Target>): (keys: seq<int>)
    decreases |sorted|
  {
    if sorted == [] then []
    else
      var keys := Keys(sorted[..|sorted| - 1]);
      var p := sorted[|sorted| - 1].period;
      if keys != [] && keys[|keys| - 1] == p then keys else keys + [p]
  }

  predicate StrictlyIncreasing(keys: seq<int>) {
    forall i, j :: 0 <= i < j < |keys| ==> keys[i] < keys[j]
  }

  /** Some row of the table has period `p`. */
  predicate HasPeriod(ts: seq<Target>, p: int) {
    exists i :: 0 <= i < |ts| && ts[i].period == p
  }

  /** The keys are each period once, in ascending order, and nothing else. */
  lemma {:induction false} KeysMeaning(sorted: seq<Target>)
    requires SortedByPeriod(sorted)
    ensures StrictlyIncreasing(Keys(sorted))
    ensures forall p :: p in Keys(sorted) <==> HasPeriod(sorted, p)
    ensures sorted != [] ==> Keys(sorted) != [] && Keys(sorted)[|Keys(sorted)| - 1] == sorted[|sorted| - 1].period
    decreases |sorted|
  {
    if sorted != [] {
      var init := sorted[..|sorted| - 1];
      var p := sorted[|sorted| - 1].period;
      KeysMeaning(init);
      var keys := Keys(init);
      forall q ensures q in Keys(sorted) <==> HasPeriod(sorted, q) {
        if q in keys {
          var i :| 0 <= i < |init| && init[i].period == q;
          assert sorted[i] == init[i];
        }
        if HasPeriod(sorted, q) {
          var i :| 0 <= i < |sorted| && sorted[i].period == q;
          if i < |init| {
            assert init[i] == sorted[i];
          }
        }
      }
      if init != [] {
        assert init[|init| - 1] == sorted[|sorted| - 2];
      }
    }
  }

  /** Reordering the rows keeps the set of periods. */
  lemma HasPeriodOfPermutation(a: seq<Target>, b: seq<Target>, p: int)
    requires multiset(a) == multiset(b)
    ensures HasPeriod(a, p) ==> HasPeriod(b, p)
  {
    if HasPeriod(a, p) {
      var i :| 0 <= i < |a| && a[i].period == p;
      assert a[i] in multiset(b);
      var j :| 0 <= j < |b| && b[j] == a[i];
    }
  }

  /** The keys of the grouped table are the table's distinct periods, ascending. */
  lemma KeysOfTable(table: seq<Target>)
    ensures StrictlyIncreasing(Keys(GroupByPeriod(table)))
    ensures forall p :: p in Keys(GroupByPeriod(table)) <==> HasPeriod(table, p)
  {
    var grouped := GroupByPeriod(table);
    GroupByPeriodSorts(table);
    KeysMeaning(grouped);
    forall p ensures HasPeriod(grouped, p) <==> HasPeriod(table, p) {
      HasPeriodOfPermutation(grouped, table, p);
      HasPeriodOfPermutation(table, grouped, p);
    }
  }

  /** Line 73: the position of a period among the keys. */
  function Rank(p: int, keys: seq<int>): (r: nat)
    ensures p in keys ==> r < |keys| && keys[r] == p
    ensures p !in keys ==> r == |keys|
  {
    if keys == [] then 0
    else if keys[0] == p then 0
    else 1 + Rank(p, keys[1..])
  }

  /**
   * The rank of a period is the number of distinct periods shorter than it,
   * so a longer period always ranks after a shorter one.
   */
  lemma RankCountsShorter(p: int, keys: seq<int>)
    requires StrictlyIncreasing(keys) && p in keys
    ensures forall j :: 0 <= j < |keys| ==> (keys[j] < p <==> j < Rank(p, keys))
  {
  }

  lemma RankOrder(p1: int, p2: int, keys: seq<int>)
    requires StrictlyIncreasing(keys) && p1 in keys && p2 in keys
    ensures p1 < p2 <==> Rank(p1, keys) < Rank(p2, keys)
  {
  }

  /** Line 74: the row with its priority raised by ten per rank of its period. */
  function Raised(t: Target, keys: seq<int>): Target {
    t.(priority := t.priority + 10 * Rank(t.period, keys))
  }

  function RaisedAll(ts: seq<Target>, keys: seq<int>): (r: seq<Target>)
    ensures |r| == |ts|
  {
    seq(|ts|, i requires 0 <= i < |ts| => Raised(ts[i], keys))
  }

  function Prioritised(grouped: seq<Target>): (r: seq<Target>)
    ensures |r| == |grouped|
  {
    RaisedAll(grouped, Keys(grouped))
  }

  /** The rows in the order they are written, each with its final priority. */
  function Scheduled(table: seq<Target>): seq<Target> {
    Prioritised(GroupByPeriod(table))
  }

  /**
   * Each written row is the grouped row with only its priority changed, and
   * the bonus is ten times the position of the row's period among the keys.
   */
  lemma ScheduledMeaning(table: seq<Target>)
    ensures |Scheduled(table)| == |table|
    ensures forall i :: 0 <= i < |Scheduled(table)| ==>
      var row := GroupByPeriod(table)[i];
      var keys := Keys(GroupByPeriod(table));
      && Scheduled(table)[i].(priority := row.priority) == row
      && row.period in keys
      && keys[Rank(row.period, keys)] == row.period
      && Scheduled(table)[i].priority == row.priority + 10 * Rank(row.period, keys)
  {
    var grouped := GroupByPeriod(table);
    GroupByPeriodSorts(table);
    KeysMeaning(grouped);
    forall i | 0 <= i < |grouped| ensures grouped[i].period in Keys(grouped) {
      assert HasPeriod(grouped, grouped[i].period);
    }
  }

  // ---------------------------------------------------------------------
  // The document (lines 54-76)

  /** Lines 63-69. */
  function Header(telescope: string): seq<string> {
    [ "\n",
      "<RTML>\n",
      "   <Contact>\n",
      "       <User>" + UserName(telescope) + "</User>\n",
      "       <Email>vysostelescope@gmail.com</Email>\n",
      "   </Contact>\n",
      "\n" ]
  }

  const Footer := "</RTML>\n"

  /** Blocks of lines, one after the other. */
  function Concatenated(blocks: seq<seq<string>>): seq<string>
    decreases |blocks|
  {
    if blocks == [] then [] else Concatenated(blocks[..|blocks| - 1]) + blocks[|blocks| - 1]
  }

  /** The Request block of each row. */
  function Blocks(ts: seq<Target>, telescope: string): (r: seq<seq<string>>)
    ensures |r| == |ts|
  {
    seq(|ts|, i requires 0 <= i < |ts| => RequestLines(ts[i], telescope))
  }

  /** The Request blocks of the rows, each with its raised priority. */
  function Requests(ts: seq<Target>, keys: seq<int>, telescope: string): seq<string>
    decreases |ts|
  {
    if ts == [] then []
    else Requests(ts[..|ts| - 1], keys, telescope) + RequestLines(Raised(ts[|ts| - 1], keys), telescope)
  }

  function Document(table: seq<Target>, telescope: string): seq<string> {
    var grouped := GroupByPeriod(table);
    Header(telescope) + Requests(grouped, Keys(grouped), telescope) + [Footer]
  }

  /** Write each line in turn. */
  method WriteLines(f: OutStream, lines: seq<string>)
    modifies f
    ensures f.written == old(f.written) + lines
  {
    var i := 0;
    while i < |lines|
      invariant 0 <= i <= |lines|
      invariant f.written == old(f.written) + lines[..i]
    {
      f.Write(lines[i]);
      assert lines[..i + 1] == lines[..i] + [lines[i]];
      i := i + 1;
    }
    assert lines[..|lines|] == lines;
  }

  lemma RequestsSnoc(ts: seq<Target>, keys: seq<int>, telescope: string, i: nat)
    requires i < |ts|
    ensures Requests(ts[..i + 1], keys, telescope)
         == Requests(ts[..i], keys, telescope) + RequestLines(Raised(ts[i], keys), telescope)
  {
    assert ts[..i + 1][..i] == ts[..i];
  }

  /** The same blocks, listed first and then concatenated. */
  lemma {:induction false} RequestsAsBlocks(ts: seq<Target>, keys: seq<int>, telescope: string)
    ensures Requests(ts, keys, telescope) == Concatenated(Blocks(RaisedAll(ts, keys), telescope))
    decreases |ts|
  {
    if ts != [] {
      var init := ts[..|ts| - 1];
      RequestsAsBlocks(init, keys, telescope);
      var b := Blocks(RaisedAll(ts, keys), telescope);
      assert b[..|b| - 1] == Blocks(RaisedAll(init, keys), telescope);
    }
  }

  /** Lines 73-75: raise one row's priority by the rank of its period and write its Request. */
  method WriteRaised(f: OutStream, entry: Target, keys: seq<int>, telescope: string)
    requires KnownTelescope(telescope)
    modifies f
    ensures f.written == old(f.written) + RequestLines(Raised(entry, keys), telescope)
  {
    var moncount := Rank(entry.period, keys);
    var raised := entry.(priority := entry.priority + 10 * moncount);
    assert raised == Raised(entry, keys);
    var ok := WriteRequest(f, raised, telescope);
  }

  /** Lines 72-75: one Request per grouped row, its priority raised by the rank of its period. */
  method WriteRequests(f: OutStream, grouped: seq<Target>, telescope: string)
    requires KnownTelescope(telescope)
    modifies f
    ensures f.written == old(f.written) + Requests(grouped, Keys(grouped), telescope)
  {
    var keys := Keys(grouped);
    var i := 0;
    while i < |grouped|
      invariant 0 <= i <= |grouped|
      invariant f.written == old(f.written) + Requests(grouped[..i], keys, telescope)
    {
      WriteRaised(f, grouped[i], keys, telescope);
      RequestsSnoc(grouped, keys, telescope, i);
      AppendAssoc(old(f.written), Requests(grouped[..i], keys, telescope), RequestLines(Raised(grouped[i], keys), telescope));
      i := i + 1;
    }
    assert grouped[..|grouped|] == grouped;
  }

  /**
   * Lines 54-76: check the telescope, start a new file, write the header,
   * one Request per row in period order, and the footer.
   */
  method ConvertTable(table: seq<Target>, telescope: string) returns (f: Option<OutStream>)
    ensures f.None? <==> !KnownTelescope(telescope)
    ensures f.Some? ==> f.value.written == Document(table, telescope)
  {
    if !KnownTelescope(telescope) {
      return None;
    }
    ghost var header := Header(telescope);
    ghost var grouped := GroupByPeriod(table);
    ghost var body := Requests(grouped, Keys(grouped), telescope);
    var out := new OutStream();
    WriteLines(out, Header(telescope));
    assert out.written == header;
    WriteRequests(out, GroupByPeriod(table), telescope);
    assert out.written == header + body;
    out.Write(Footer);
    f := Some(out);
  }

  /** Blocks of 29 lines each make 29 lines per block. */
  lemma {:induction false} ConcatenatedLength(blocks: seq<seq<string>>)
    requires forall i :: 0 <= i < |blocks| ==> |blocks[i]| == 29
    ensures |Concatenated(blocks)| == 29 * |blocks|
    decreases |blocks|
  {
    if blocks != [] {
      ConcatenatedLength(blocks[..|blocks| - 1]);
    }
  }

  /** Block `k` sits at lines `29 * k` to `29 * k + 29`. */
  lemma {:induction false} ConcatenatedBlock(blocks: seq<seq<string>>, k: nat)
    requires forall i :: 0 <= i < |blocks| ==> |blocks[i]| == 29
    requires k < |blocks|
    ensures |Concatenated(blocks)| == 29 * |blocks|
    ensures Concatenated(blocks)[29 * k..29 * k + 29] == blocks[k]
    decreases |blocks|
  {
    var init := blocks[..|blocks| - 1];
    var last := blocks[|blocks| - 1];
    ConcatenatedLength(blocks);
    ConcatenatedLength(init);
    AppendParts(Concatenated(init), last);
    if k < |init| {
      ConcatenatedBlock(init, k);
      assert (Concatenated(init) + last)[29 * k..29 * k + 29] == Concatenated(init)[29 * k..29 * k + 29];
    }
  }

  lemma RequestBlocksLength(ts: seq<Target>, telescope: string)
    ensures forall i :: 0 <= i < |Blocks(ts, telescope)| ==> |Blocks(ts, telescope)[i]| == 29
  {
  }

  /** The document is the header, one 29-line block per row and the footer. */
  lemma DocumentLength(table: seq<Target>, telescope: string)
    ensures |Document(table, telescope)| == 8 + 29 * |table|
  {
    var grouped := GroupByPeriod(table);
    RequestsAsBlocks(grouped, Keys(grouped), telescope);
    ScheduledMeaning(table);
    RequestBlocksLength(Scheduled(table), telescope);
    ConcatenatedLength(Blocks(Scheduled(table), telescope));
  }

  /** It opens with a blank line, `<RTML>` and the contact, and closes with `</RTML>`. */
  lemma DocumentEnds(table: seq<Target>, telescope: string)
    ensures var doc := Document(table, telescope);
      && |doc| >= 8
      && doc[0] == "\n" && doc[1] == "<RTML>\n"
      && doc[3] == "       <User>" + UserName(telescope) + "</User>\n"
      && doc[|doc| - 1] == Footer
  {
  }

  /** Line `7 + 29 * k` starts the Request of the `k`-th row in period order. */
  lemma DocumentBlock(table: seq<Target>, telescope: string, k: nat)
    requires k < |table|
    ensures |Document(table, telescope)| == 8 + 29 * |table|
    ensures Document(table, telescope)[7 + 29 * k..36 + 29 * k] == RequestLines(Scheduled(table)[k], telescope)
  {
    var blocks := Blocks(Scheduled(table), telescope);
    var grouped := GroupByPeriod(table);
    RequestsAsBlocks(grouped, Keys(grouped), telescope);
    DocumentLength(table, telescope);
    ScheduledMeaning(table);
    RequestBlocksLength(Scheduled(table), telescope);
    ConcatenatedBlock(blocks, k);
    InFrame(Header(telescope), Concatenated(blocks), [Footer], k);
  }

  lemma InFrame(header: seq<string>, body: seq<string>, footer: seq<string>, k: nat)
    requires |header| == 7 && 29 * k + 29 <= |body|
    ensures (header + body + footer)[7 + 29 * k..36 + 29 * k] == body[29 * k..29 * k + 29]
  {
    AppendParts(header, body);
    assert (header + body + footer)[..7 + |body|] == header + body;
  }
}

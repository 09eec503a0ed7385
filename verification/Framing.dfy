/**
  The two layers of a check's report together: samples printed as performance data, framed
  in a status line, read by the line parser and then by the perfdata parser.
 */
module Framing {
  import opened Text
  import opened Numerals
  import opened Checks
  import opened LineFormats
  import opened PerfdataRoundTrip
  import FileTailer
  import P = Perfdata

  ghost predicate NamesFreeOf(ms: seq<Sample>, c: char) {
    forall i :: 0 <= i < |ms| ==> c !in ms[i].name
  }

  ghost predicate CleanNames(ms: seq<Sample>) {
    forall i :: 0 <= i < |ms| ==> CleanName(ms[i].name)
  }

  /** The perfdata reads back as exactly what the samples mean. */
  ghost predicate ReadsAs(perfData: string, ms: seq<Sample>)
    requires ValidSamples(ms)
  {
    P.Perfdata(perfData) == P.Parsed(MeaningAll(ms))
  }

  lemma SamplesRead(ms: seq<Sample>)
    requires ValidSamples(ms)
    ensures ReadsAs(SpellPerfdata(ms), ms) <==> CleanNames(ms)
  {
    hide P.Perfdata, SpellPerfdata, CleanName;
    PerfdataRoundTrips(ms);
  }

  // ---- printed samples fit into a field --------------------------------------------------

  lemma {:induction false} DoubleFreeOf(name: string, c: char)
    requires c !in name
    ensures c !in Double(name)
  {
    if name != "" {
      DoubleFreeOf(name[..|name| - 1], c);
    }
  }

  lemma PlainFreeOf(s: string, c: char)
    requires PlainText(s) && IsSpace(c)
    ensures c !in s
  {
  }

  lemma SampleFreeOf(m: Sample, c: char)
    requires ValidSample(m) && IsSpace(c) && c !in m.name
    ensures c !in SpellSample(m)
  {
    hide Double, Body;
    DoubleFreeOf(m.name, c);
    BodySplits(m);
    PlainFreeOf(Body(m), c);
  }

  /** Only a label can bring a separator of the frame into printed samples. */
  lemma SamplesFreeOf(ms: seq<Sample>, c: char)
    requires ValidSamples(ms) && NamesFreeOf(ms, c) && IsSpace(c) && c != ' '
    ensures c !in SpellPerfdata(ms)
  {
    hide SpellSample, SpellAll, Join, ValidSample;
    SpellAllPieces(ms);
    forall i | 0 <= i < |ms|
      ensures c !in SpellAll(ms)[i]
    {
      SampleFreeOf(ms[i], c);
    }
    JoinFreeOf(SpellAll(ms), ' ', c);
  }

  lemma NothingToTrim(s: string)
    requires TrimSpace(s) == s
    ensures TrimRight(s, IsSpace) == s
  {
  }

  lemma SamplesTrimmed(ms: seq<Sample>)
    requires ValidSamples(ms)
    ensures TrimRight(SpellPerfdata(ms), IsSpace) == SpellPerfdata(ms)
    ensures SpellPerfdata(ms) != "" <==> ms != []
  {
    hide SpellSample, TrimSpace, TrimRight;
    if ms != [] {
      PrintedTokens(ms);
      NothingToTrim(SpellPerfdata(ms));
    } else {
      EmptyTrimmed();
    }
  }

  lemma EmptyTrimmed()
    ensures TrimRight("", IsSpace) == ""
  {
  }

  // ---- the three framings ------------------------------------------------------------------

  /** A Livestatus row keeps its record, and its samples come back exactly when their labels are clean. */
  lemma LivestatusSamples(r: CheckResult, args: Option<string>, ms: seq<Sample>)
    requires ValidSamples(ms) && NamesFreeOf(ms, '\t') && LivestatusRecord(r.(perfData := ""), args)
    ensures var sent := r.(perfData := SpellPerfdata(ms));
      var got := ParseLivestatusLine(Join(LivestatusColumns(sent, args), '\t'));
      got == Ok(sent) && (ReadsAs(got.value.perfData, ms) <==> CleanNames(ms))
  {
    hide SpellPerfdata, ParseLivestatusLine, LivestatusColumns, ReadsAs, CleanNames, Join, FullCommand;
    SamplesFreeOf(ms, '\t');
    LivestatusLineReads(r.(perfData := SpellPerfdata(ms)), args);
    SamplesRead(ms);
  }

  /**
    A default service line with samples keeps its record through the trimming that collecting
    does, and its samples come back exactly when their labels are clean; without any sample
    the line is dropped.
   */
  lemma DefaultLineSamples(r: CheckResult, w: Wording, ms: seq<Sample>)
    requires ValidSamples(ms) && NamesFreeOf(ms, '\t') && FileRecord(r.(perfData := "")) && Says(w, r)
    ensures var sent := r.(perfData := SpellPerfdata(ms));
      var got := ParseDefaultLine(TrimSpace(Framed(DefaultHead(sent, w), sent.perfData)));
      && (got.Ok? <==> ms != [])
      && (got.Ok? ==> got.value == sent.(checkCommand := "") && (ReadsAs(got.value.perfData, ms) <==> CleanNames(ms)))
  {
    hide ParseNagiosState, ParseTimet, SpellPerfdata, ParseDefaultLine, DefaultHead, ReadsAs, CleanNames, Framed, TrimSpace, TrimRight;
    SamplesFreeOf(ms, '\t');
    SamplesTrimmed(ms);
    DefaultLineCollected(r.(perfData := SpellPerfdata(ms)), w);
    SamplesRead(ms);
  }

  lemma DefaultHostLineSamples(r: CheckResult, w: Wording, ms: seq<Sample>)
    requires ValidSamples(ms) && NamesFreeOf(ms, '\t') && FileRecord(r.(perfData := "")) && Says(w, r)
    ensures var sent := r.(perfData := SpellPerfdata(ms));
      var got := ParseDefaultHostLine(TrimSpace(Framed(DefaultHostHead(sent, w), sent.perfData)));
      && (got.Ok? <==> ms != [])
      && (got.Ok? ==> got.value == sent.(checkCommand := "", serviceDescription := "Host Check")
                      && (ReadsAs(got.value.perfData, ms) <==> CleanNames(ms)))
  {
    hide ParseNagiosState, ParseTimet, SpellPerfdata, ParseDefaultHostLine, DefaultHostHead, ReadsAs, CleanNames, Framed, TrimSpace, TrimRight;
    SamplesFreeOf(ms, '\t');
    SamplesTrimmed(ms);
    DefaultHostLineCollected(r.(perfData := SpellPerfdata(ms)), w);
    SamplesRead(ms);
  }

  /** The fields as they are after the line was trimmed. */
  function TrimLast(fields: seq<(string, string)>): seq<(string, string)>
    requires |fields| > 0
  {
    var n := |fields| - 1;
    fields[n := (fields[n].0, TrimRight(fields[n].1, IsSpace))]
  }

  lemma TrimLastKeeps(fields: seq<(string, string)>)
    requires ValidFields(fields)
    ensures ValidFields(TrimLast(fields))
    ensures forall i :: 0 <= i < |fields| ==> TrimLast(fields)[i].0 == fields[i].0
    ensures forall key, value :: (key, value) in fields && TrimRight(value, IsSpace) == value ==> (key, value) in TrimLast(fields)
  {
    hide TrimRight;
    var n := |fields| - 1;
    var (_, value) := fields[n];
    assert forall c :: c in TrimRight(value, IsSpace) ==> c in value;
    forall key, value | (key, value) in fields && TrimRight(value, IsSpace) == value
      ensures (key, value) in TrimLast(fields)
    {
      var i :| 0 <= i < |fields| && fields[i] == (key, value);
      assert TrimLast(fields)[i] == (key, value);
    }
  }

  /**
    A PNP4Nagios line with samples parses after the trimming that collecting does, whatever its
    field order and further fields; its samples come back exactly when their labels are clean.
   */
  lemma PnpLineSamples(fields: seq<(string, string)>, host: string, service: string, ms: seq<Sample>)
    requires ValidFields(fields) && fields[0].0 != "" && !IsSpace(fields[0].0[0])
    requires ("HOSTNAME", host) in fields && ("SERVICEDESC", service) in fields
    requires ValidSamples(ms) && ("SERVICEPERFDATA", SpellPerfdata(ms)) in fields
    ensures var got := ParsePNP4NagiosLine(TrimSpace(PnpLine(fields)));
      got.Ok? && got.value.perfData == SpellPerfdata(ms) && (ReadsAs(got.value.perfData, ms) <==> CleanNames(ms))
  {
    hide SpellPerfdata, FieldMap, Split, PnpLine, ReadsAs, CleanNames, TrimSpace, TrimRight, ParseNagiosState, ParseTimet,
      BaseCommand, TrimLast, ValidFields;
    SamplesTrimmed(ms);
    SamplesRead(ms);
    TrimmedPnpLine(fields);
    TrimLastKeeps(fields);
    FieldsReadBack(TrimLast(fields));
    KeyStays(fields, "HOSTNAME", host);
    KeyStays(fields, "SERVICEDESC", service);
  }

  lemma PnpHostLineSamples(fields: seq<(string, string)>, host: string, ms: seq<Sample>)
    requires ValidFields(fields) && fields[0].0 != "" && !IsSpace(fields[0].0[0])
    requires ("HOSTNAME", host) in fields
    requires ValidSamples(ms) && ("HOSTPERFDATA", SpellPerfdata(ms)) in fields
    ensures var got := ParsePNP4NagiosHostLine(TrimSpace(PnpLine(fields)));
      got.Ok? && got.value.perfData == SpellPerfdata(ms) && (ReadsAs(got.value.perfData, ms) <==> CleanNames(ms))
  {
    hide SpellPerfdata, FieldMap, Split, PnpLine, ReadsAs, CleanNames, TrimSpace, TrimRight, ParseNagiosState, ParseTimet,
      BaseCommand, TrimLast, ValidFields;
    SamplesTrimmed(ms);
    SamplesRead(ms);
    TrimmedPnpLine(fields);
    TrimLastKeeps(fields);
    FieldsReadBack(TrimLast(fields));
    KeyStays(fields, "HOSTNAME", host);
  }

  lemma TrimmedPnpLine(fields: seq<(string, string)>)
    requires ValidFields(fields) && fields[0].0 != "" && !IsSpace(fields[0].0[0])
    ensures TrimSpace(PnpLine(fields)) == PnpLine(TrimLast(fields))
  {
    PnpLineCollected(fields);
    hide TrimSpace, PnpLine, TrimRight;
  }

  lemma KeyStays(fields: seq<(string, string)>, key: string, value: string)
    requires ValidFields(fields) && (key, value) in fields
    ensures exists v :: (key, v) in TrimLast(fields)
  {
    hide ValidFields, TrimLast, TrimRight;
    TrimLastKeeps(fields);
    var i :| 0 <= i < |fields| && fields[i] == (key, value);
    LastLength(fields);
    assert TrimLast(fields)[i] == (key, TrimLast(fields)[i].1);
  }

  lemma LastLength(fields: seq<(string, string)>)
    requires |fields| > 0
    ensures |TrimLast(fields)| == |fields|
  {
    hide TrimRight;
  }

  // ---- a whole perfdata file -----------------------------------------------------------------

  /** The text of a list of lines. */
  function LinesText(lines: seq<string>): string {
    if |lines| == 0 then "" else LinesText(lines[..|lines| - 1]) + (lines[|lines| - 1] + ['\n'])
  }

  /** A line that the scanner finds again and that trimming leaves its first character. */
  ghost predicate PlainLine(line: string) {
    '\n' !in line && line != "" && !IsSpace(line[0])
  }

  lemma ScanOneLine(line: string)
    requires '\n' !in line
    ensures FileTailer.ScanLines(line + ['\n']) == [FileTailer.DropCR(line)]
  {
    hide Find;
    FindAfter(line, '\n', "");
    EmptyConcat(line + ['\n']);
    AroundSeparator(line, '\n', "");
  }

  /** A carriage return that the scanner drops would have been trimmed anyway. */
  lemma DropThenTrim(line: string)
    requires line != "" && !IsSpace(line[0])
    ensures TrimSpace(FileTailer.DropCR(line)) == TrimSpace(line)
  {
    var s := FileTailer.DropCR(line);
    assert IsSpace('\r');
    TrimRightStart(line);
    TrimRightStart(s);
  }

  lemma ParseOneLine(line: string, format: Format, isHost: bool)
    ensures ParseLines([line], format, isHost)
      == var s := TrimSpace(line);
         if s == "" || ParseLine(s, format, isHost).Err? then [] else [ParseLine(s, format, isHost).value]
  {
    hide ParseLine, TrimSpace;
    assert [line][..0] == [];
  }

  lemma LineScans(line: string, format: Format, isHost: bool)
    requires PlainLine(line)
    ensures ParseLines(FileTailer.ScanLines(line + ['\n']), format, isHost) == ParseLines([line], format, isHost)
  {
    hide TrimSpace, ParseLine, FileTailer.DropCR, ParseLines;
    ScanOneLine(line);
    DropThenTrim(line);
    ParseOneLine(FileTailer.DropCR(line), format, isHost);
    ParseOneLine(line, format, isHost);
  }

  lemma LinesTextEnded(lines: seq<string>)
    ensures FileTailer.LineEnded(LinesText(lines))
  {
  }

  lemma NothingScanned(format: Format, isHost: bool)
    ensures ParseLines(FileTailer.ScanLines(""), format, isHost) == ParseLines([], format, isHost)
  {
  }

  /** The records of a text of lines are those of the lines, in either format. */
  lemma {:induction false} LinesArrive(lines: seq<string>, format: Format, isHost: bool)
    requires forall i :: 0 <= i < |lines| ==> PlainLine(lines[i])
    ensures ParseLines(FileTailer.ScanLines(LinesText(lines)), format, isHost) == ParseLines(lines, format, isHost)
  {
    hide FileTailer.ScanLines, PlainLine, FileTailer.LineEnded, ParseLines;
    if |lines| == 0 {
      NothingScanned(format, isHost);
    } else {
      var init, line := lines[..|lines| - 1], lines[|lines| - 1];
      LinesArrive(init, format, isHost);
      LineScans(line, format, isHost);
      LinesTextEnded(init);
      FileTailer.ScanConcat(LinesText(init), line + ['\n']);
      ParseLinesConcat(FileTailer.ScanLines(LinesText(init)), FileTailer.ScanLines(line + ['\n']), format, isHost);
      ParseLinesConcat(init, [line], format, isHost);
      Unsnoc(lines);
    }
  }

  // ---- the default format

  /** One line of a default file: a record, and the texts of its state and time. */
  datatype Written = Written(record: CheckResult, wording: Wording)

  function DefaultLine(x: Written, isHost: bool): string {
    Framed(if isHost then DefaultHostHead(x.record, x.wording) else DefaultHead(x.record, x.wording), x.record.perfData)
  }

  function DefaultLines(xs: seq<Written>, isHost: bool): (lines: seq<string>)
    ensures |lines| == |xs| && forall i :: 0 <= i < |xs| ==> lines[i] == DefaultLine(xs[i], isHost)
  {
    seq(|xs|, i requires 0 <= i < |xs| => DefaultLine(xs[i], isHost))
  }

  /** The text written for a list of results. */
  function FileText(xs: seq<Written>, isHost: bool): string {
    LinesText(DefaultLines(xs, isHost))
  }

  ghost predicate Printable(x: Written) {
    var r, w := x.record, x.wording;
    && FileRecord(r) && Says(w, r)
    && '\n' !in r.hostName && '\n' !in r.serviceDescription && '\n' !in r.pluginOutput && '\n' !in r.perfData
    && '\n' !in w.state && '\n' !in w.time
  }

  ghost predicate AllPrintable(xs: seq<Written>) {
    forall i :: 0 <= i < |xs| ==> Printable(xs[i])
  }

  /** What a result turns into on its way through the file: without visible perfdata it is lost. */
  function Arriving(r: CheckResult, isHost: bool): seq<CheckResult> {
    var p := TrimRight(r.perfData, IsSpace);
    var read := r.(checkCommand := "", perfData := p);
    if p == "" then [] else [if isHost then read.(serviceDescription := "Host Check") else read]
  }

  function AllArriving(xs: seq<Written>, isHost: bool): seq<CheckResult> {
    if |xs| == 0 then [] else AllArriving(xs[..|xs| - 1], isHost) + Arriving(xs[|xs| - 1].record, isHost)
  }

  lemma HeadFreeOfNewlines(x: Written)
    requires Printable(x)
    ensures FreeOf(DefaultHead(x.record, x.wording) + [x.record.perfData], '\n')
    ensures FreeOf(DefaultHostHead(x.record, x.wording) + [x.record.perfData], '\n')
  {
    hide ParseTimet, ParseNagiosState;
  }

  lemma TagFirst(r: CheckResult, w: Wording)
    ensures |DefaultHead(r, w)| > 0 && DefaultHead(r, w)[0] != "" && DefaultHead(r, w)[0][0] == '['
    ensures |DefaultHostHead(r, w)| > 0 && DefaultHostHead(r, w)[0] != "" && DefaultHostHead(r, w)[0][0] == '['
  {
  }

  lemma DefaultLinePlain(x: Written, isHost: bool)
    requires Printable(x)
    ensures PlainLine(DefaultLine(x, isHost))
  {
    hide Join, DefaultHead, DefaultHostHead, Printable;
    var r, w := x.record, x.wording;
    var head := if isHost then DefaultHostHead(r, w) else DefaultHead(r, w);
    HeadFreeOfNewlines(x);
    JoinFreeOf(head + [r.perfData], '\t', '\n');
    TagFirst(r, w);
    FrameStart(head, r.perfData);
  }

  lemma LineArrives(x: Written, isHost: bool)
    requires Printable(x)
    ensures ParseLines([DefaultLine(x, isHost)], Default, isHost) == Arriving(x.record, isHost)
  {
    hide TrimSpace, ParseDefaultLine, ParseDefaultHostLine, TrimRight, ParseLines, FileRecord, Says;
    ParseOneLine(DefaultLine(x, isHost), Default, isHost);
    DefaultLineCollected(x.record, x.wording);
    DefaultHostLineCollected(x.record, x.wording);
    BlankFails();
  }

  lemma BlankFails()
    ensures ParseDefaultLine("").Err? && ParseDefaultHostLine("").Err?
  {
  }

  lemma DefaultLinesSnoc(xs: seq<Written>, isHost: bool)
    requires |xs| > 0
    ensures var n := |xs| - 1; DefaultLines(xs, isHost) == DefaultLines(xs[..n], isHost) + [DefaultLine(xs[n], isHost)]
  {
    hide DefaultLine;
  }

  lemma {:induction false} DefaultLinesArrive(xs: seq<Written>, isHost: bool)
    requires AllPrintable(xs)
    ensures ParseLines(DefaultLines(xs, isHost), Default, isHost) == AllArriving(xs, isHost)
  {
    hide DefaultLine, Arriving, Printable, ParseLine;
    if |xs| > 0 {
      hide DefaultLines, ParseLines;
      var n := |xs| - 1;
      DefaultLinesArrive(xs[..n], isHost);
      LineArrives(xs[n], isHost);
      DefaultLinesSnoc(xs, isHost);
      ParseLinesConcat(DefaultLines(xs[..n], isHost), [DefaultLine(xs[n], isHost)], Default, isHost);
    }
  }

  /**
    The results read from the text of a service or host perfdata file are those written to it, in
    order, without those that have no visible perfdata.
   */
  lemma FileArrives(xs: seq<Written>, isHost: bool)
    requires AllPrintable(xs)
    ensures ParseLines(FileTailer.ScanLines(FileText(xs, isHost)), Default, isHost) == AllArriving(xs, isHost)
  {
    hide FileTailer.ScanLines, ParseLines, DefaultLine, Printable, PlainLine, LinesText;
    forall i | 0 <= i < |xs|
      ensures PlainLine(DefaultLines(xs, isHost)[i])
    {
      DefaultLinePlain(xs[i], isHost);
    }
    LinesArrive(DefaultLines(xs, isHost), Default, isHost);
    DefaultLinesArrive(xs, isHost);
  }

  // ---- the PNP4Nagios format

  /** One line of a PNP4Nagios file: its fields, and the record they carry once the line is trimmed. */
  datatype Report = Report(fields: seq<(string, string)>, record: CheckResult, wording: Wording, args: Option<string>)

  ghost predicate ValidReport(p: Report, isHost: bool) {
    && ValidFields(p.fields) && p.fields[0].0 != "" && !IsSpace(p.fields[0].0[0])
    && (forall i :: 0 <= i < |p.fields| ==> '\n' !in p.fields[i].0 && '\n' !in p.fields[i].1)
    && PnpRecord(p.record, p.wording)
    && if isHost
       then CarriesHost(TrimLast(p.fields), p.record, p.wording, p.args) && p.record.serviceDescription == "Host Check"
       else CarriesService(TrimLast(p.fields), p.record, p.wording, p.args)
  }

  ghost predicate ValidReports(ps: seq<Report>, isHost: bool) {
    forall i :: 0 <= i < |ps| ==> ValidReport(ps[i], isHost)
  }

  function PnpLines(ps: seq<Report>): (lines: seq<string>)
    ensures |lines| == |ps| && forall i :: 0 <= i < |ps| ==> lines[i] == PnpLine(ps[i].fields)
  {
    seq(|ps|, i requires 0 <= i < |ps| => PnpLine(ps[i].fields))
  }

  function Records(ps: seq<Report>): (rs: seq<CheckResult>)
    ensures |rs| == |ps| && forall i :: 0 <= i < |ps| ==> rs[i] == ps[i].record
  {
    seq(|ps|, i requires 0 <= i < |ps| => ps[i].record)
  }

  lemma PnpLinePlain(fields: seq<(string, string)>)
    requires ValidFields(fields) && fields[0].0 != "" && !IsSpace(fields[0].0[0])
    requires forall i :: 0 <= i < |fields| ==> '\n' !in fields[i].0 && '\n' !in fields[i].1
    ensures PlainLine(PnpLine(fields))
  {
    hide Join;
    PnpStart(fields);
    forall i | 0 <= i < |fields|
      ensures '\n' !in Pairs(fields)[i]
    {
    }
    JoinFreeOf(Pairs(fields), '\t', '\n');
  }

  lemma ReportArrives(p: Report, isHost: bool)
    requires ValidReport(p, isHost)
    ensures ParseLines([PnpLine(p.fields)], Pnp4Nagios, isHost) == [p.record]
  {
    hide TrimSpace, ParsePNP4NagiosLine, ParsePNP4NagiosHostLine, ParseLines, PnpLine, ValidReport;
    ParseOneLine(PnpLine(p.fields), Pnp4Nagios, isHost);
    ReportReads(p, isHost);
    BlankPnpFails();
  }

  lemma ReportReads(p: Report, isHost: bool)
    requires ValidReport(p, isHost)
    ensures ParseLine(TrimSpace(PnpLine(p.fields)), Pnp4Nagios, isHost) == Ok(p.record)
  {
    assert |p.fields| > 0;
    hide TrimSpace, ParsePNP4NagiosLine, ParsePNP4NagiosHostLine, TrimLast, PnpLine, ValidFields, CarriesService, CarriesHost,
      PnpRecord;
    TrimLastKeeps(p.fields);
    TrimmedPnpLine(p.fields);
    if isHost {
      PnpHostLineReads(TrimLast(p.fields), p.record, p.wording, p.args);
    } else {
      PnpLineReads(TrimLast(p.fields), p.record, p.wording, p.args);
    }
  }

  lemma BlankPnpFails()
    ensures ParsePNP4NagiosLine("").Err? && ParsePNP4NagiosHostLine("").Err?
  {
    hide Field;
    SplitOne("");
    NoMark();
    assert [""][..0] == [];
  }

  lemma SplitOne(s: string)
    requires '\t' !in s
    ensures Split(s, '\t') == [s]
  {
  }

  lemma NoMark()
    ensures Field("").None?
  {
  }

  lemma PnpLinesSnoc(ps: seq<Report>)
    requires |ps| > 0
    ensures var n := |ps| - 1;
      PnpLines(ps) == PnpLines(ps[..n]) + [PnpLine(ps[n].fields)] && Records(ps) == Records(ps[..n]) + [ps[n].record]
  {
    hide PnpLine;
  }

  lemma {:induction false} PnpLinesArrive(ps: seq<Report>, isHost: bool)
    requires ValidReports(ps, isHost)
    ensures ParseLines(PnpLines(ps), Pnp4Nagios, isHost) == Records(ps)
  {
    hide PnpLine, ValidReport, ParseLine;
    if |ps| > 0 {
      hide PnpLines, ParseLines, Records;
      var n := |ps| - 1;
      PnpLinesArrive(ps[..n], isHost);
      ReportArrives(ps[n], isHost);
      PnpLinesSnoc(ps);
      ParseLinesConcat(PnpLines(ps[..n]), [PnpLine(ps[n].fields)], Pnp4Nagios, isHost);
    }
  }

  /** The results read from the text of a PNP4Nagios service or host file are those written to it, in order. */
  lemma PnpFileArrives(ps: seq<Report>, isHost: bool)
    requires ValidReports(ps, isHost)
    ensures ParseLines(FileTailer.ScanLines(LinesText(PnpLines(ps))), Pnp4Nagios, isHost) == Records(ps)
  {
    forall i | 0 <= i < |ps|
      ensures PlainLine(PnpLines(ps)[i])
    {
      hide PnpLine, PlainLine;
      assert ValidReport(ps[i], isHost);
      PnpLinePlain(ps[i].fields);
    }
    hide FileTailer.ScanLines, ParseLines, ValidReport, PlainLine, LinesText;
    LinesArrive(PnpLines(ps), Pnp4Nagios, isHost);
    PnpLinesArrive(ps, isHost);
  }
}

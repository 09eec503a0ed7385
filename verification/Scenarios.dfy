/**
  Two short runs that show where the guarantees end: a record lost to a failing open, and an
  inode number that comes back.
 */
module Scenarios {
  import opened Text
  import opened Checks
  import opened LineFormats
  import opened FileTailer
  import D = TailerDelivery
  import L = TailerLoss
  import Deduplication
  import Framing
  import Pipeline

  /** A run, its actions all gentle and of whole lines and none a failing open, that leads from one state to another. */
  ghost predicate Leads(s: State, run: seq<Action>, t: State) {
    && D.GentleRun(s, run) && Exec(s, run) == t
    && Open(false) !in run && forall i :: 0 <= i < |run| ==> D.WritesLines(run[i])
  }

  lemma LeadsNowhere(s: State)
    ensures Leads(s, [], s)
  {
  }

  lemma LeadsOn(s: State, run: seq<Action>, t: State, a: Action)
    requires Leads(s, run, t) && D.Gentle(t, a) && D.WritesLines(a) && a != Open(false)
    ensures Leads(s, run + [a], Step(t, a))
  {
    hide Step, D.Gentle, D.WritesLines, Exec;
    D.ConsRest(a, []);
    GentleOne(t, a);
    D.GentleConcat(s, run, [a]);
    ExecSnoc(s, run, a);
  }

  lemma GentleOne(s: State, a: Action)
    requires D.Gentle(s, a)
    ensures D.GentleRun(s, [a])
  {
    assert [a][1..] == [];
  }

  /** One file, present at start and empty then, in which some text was written since. */
  function Only(text: string, linked: bool): World {
    World([Inode(7, text, linked)], if linked then Some(0) else None)
  }

  /** Between two collects, holding that file. */
  function Waiting(text: string, linked: bool): State {
    State(Only(text, linked), Some(Fd(0, 0)), 7, Idle, Some(Fd(0, 0)), 0, [Session(0, 0)], "", [], [], [], true)
  }

  /** In a collect that has read that file. */
  function Has(text: string, phase: Phase): State {
    State(Only(text, false), if phase == Opening then None else Some(Fd(0, |text|)), 7, phase, Some(Fd(0, 0)), 0,
          [Session(0, |text|)], text, ScanLines(text), [], [|text|], true)
  }

  lemma Starts()
    ensures WorldOK(Only("", true), None) && D.WholeLines(Only("", true))
    ensures Step(Step(Init(Only("", true)), Start), SeekEnd) == Waiting("", true)
  {
  }

  lemma Appends(text: string)
    ensures Step(Waiting("", true), Append(0, text)) == Waiting(text, true)
    ensures D.Gentle(Waiting("", true), Append(0, text))
  {
    EmptyConcat(text);
  }

  lemma Unlinks(text: string)
    ensures Step(Waiting(text, true), Unlink(0)) == Waiting(text, false)
    ensures D.Gentle(Waiting(text, true), Unlink(0))
  {
  }

  lemma Begins(text: string)
    ensures Step(Waiting(text, false), BeginCollect) == Has(text, Statting)
  {
    hide ScanLines;
    EmptyConcat(text);
    EmptyConcat(ScanLines(text));
    assert text[0..] == text;
    assert Lengths(Only(text, false)) == [|text|];
  }

  lemma Stats(text: string)
    ensures Step(Has(text, Statting), Stat(true)) == Has(text, Draining)
  {
    hide ScanLines;
  }

  lemma Drains(text: string)
    ensures Step(Has(text, Draining), Drain) == Has(text, Closing)
  {
    NothingScanned();
    hide ScanLines;
    EmptyConcat(text);
    EmptyConcat(ScanLines(text));
    assert text[|text|..] == "";
  }

  lemma NothingScanned()
    ensures ScanLines("") == []
  {
  }

  lemma Closes(text: string)
    ensures Step(Has(text, Closing), Close) == Has(text, Opening)
  {
    hide ScanLines;
  }

  /** Some whole lines are written and read, and the file is gone when the tailer wants to open the path. */
  lemma LeadsToOpening(text: string) returns (run: seq<Action>)
    requires LineEnded(text)
    ensures WorldOK(Only("", true), None) && D.WholeLines(Only("", true))
    ensures Leads(Init(Only("", true)), run, Has(text, Opening))
  {
    Starts();
    Appends(text);
    Unlinks(text);
    Begins(text);
    Stats(text);
    Drains(text);
    Closes(text);
    var s := Init(Only("", true));
    hide Step, Only, Waiting, Has, Leads, WorldOK, D.WholeLines, Init, LineEnded;
    LeadsNowhere(s);
    LeadsOn(s, [], s, Start);
    LeadsOn(s, [] + [Start], Step(s, Start), SeekEnd);
    run := [] + [Start] + [SeekEnd];
    LeadsOn(s, run, Waiting("", true), Append(0, text));
    run := run + [Append(0, text)];
    LeadsOn(s, run, Waiting(text, true), Unlink(0));
    run := run + [Unlink(0)];
    LeadsOn(s, run, Waiting(text, false), BeginCollect);
    run := run + [BeginCollect];
    LeadsOn(s, run, Has(text, Statting), Stat(true));
    run := run + [Stat(true)];
    LeadsOn(s, run, Has(text, Draining), Drain);
    run := run + [Drain];
    LeadsOn(s, run, Has(text, Closing), Close);
    run := run + [Close];
  }

  // ---- a lost record ---------------------------------------------------------------------------

  /** After the path could not be opened, and after one more collect, which finds no file. */
  function Missed(text: string, later: bool): State {
    var s := Has(text, Opening);
    var failed := Batch(ScanLines(text), true);
    if later then s.(phase := Idle, current := [], batches := [failed, Batch([], false)])
    else s.(phase := Idle, current := [], batches := [failed], smooth := false)
  }

  lemma Misses(text: string)
    ensures Step(Has(text, Opening), Open(false)) == Missed(text, false)
    ensures Step(Step(Missed(text, false), BeginCollect), Stat(true)) == Missed(text, true)
    ensures D.CaughtUp(Missed(text, true)) && Missed(text, true).consumed == text
  {
    hide ScanLines;
    assert Lengths(Only(text, false)) == [|text|];
  }

  /** The run that misses what was written: reading it, failing to open the path, and collecting once more. */
  lemma LeadsToMissing(text: string) returns (lost: seq<Action>, run: seq<Action>)
    requires LineEnded(text)
    ensures WorldOK(Only("", true), None) && D.WholeLines(Only("", true))
    ensures Leads(Init(Only("", true)), lost, Has(text, Opening))
    ensures run == lost + [Open(false)] + [BeginCollect] + [Stat(true)]
    ensures var s := Init(Only("", true)); D.GentleRun(s, run) && Exec(s, run) == Missed(text, true)
    ensures forall i :: 0 <= i < |run| ==> D.WritesLines(run[i])
  {
    lost := LeadsToOpening(text);
    Misses(text);
    run := lost + [Open(false)] + [BeginCollect] + [Stat(true)];
    hide Step, Only, Has, Missed, WorldOK, D.WholeLines, Init, LineEnded, Exec;
    var s := Init(Only("", true));
    Onward(s, lost, Has(text, Opening), Open(false));
    Onward(s, lost + [Open(false)], Missed(text, false), BeginCollect);
    Onward(s, lost + [Open(false)] + [BeginCollect], Step(Missed(text, false), BeginCollect), Stat(true));
  }

  lemma Onward(s: State, run: seq<Action>, t: State, a: Action)
    requires D.GentleRun(s, run) && Exec(s, run) == t && IsTailer(a)
    requires forall i :: 0 <= i < |run| ==> D.WritesLines(run[i])
    ensures D.GentleRun(s, run + [a]) && Exec(s, run + [a]) == Step(t, a)
    ensures forall i :: 0 <= i < |run + [a]| ==> D.WritesLines((run + [a])[i])
  {
    hide Step, Exec, LineEnded;
    GentleOne(t, a);
    hide D.Gentle;
    D.GentleConcat(s, run, [a]);
    ExecSnoc(s, run, a);
  }

  /**
    Any result with visible perfdata can be lost: it is written and read, the file is taken away,
    and opening the path fails once. The next collect succeeds and catches up; what was written
    holds that result and nothing else, and the scrapes see nothing.
   */
  lemma RecordLost(x: Framing.Written) returns (w: World, run: seq<Action>)
    requires Framing.Printable(x) && TrimRight(x.record.perfData, IsSpace) != ""
    ensures Pipeline.FairRun(w, run) && !Pipeline.ReopensClean(Init(w), run, Default)
    ensures var s := Exec(Init(w), run);
      && D.History(s) == Framing.FileText([x], false)
      && ParseLines(ScanLines(D.History(s)), Default, false) == Framing.Arriving(x.record, false) != []
      && forall clocks: seq<nat> :: |clocks| == |s.batches| ==>
           Deduplication.Stream(Pipeline.Scrapes(s.batches, Default, clocks)) == []
  {
    var text := Framing.DefaultLine(x, false) + ['\n'];
    LineRead(x);
    w := Only("", true);
    var lost;
    lost, run := LeadsToMissing(text);
    Misses(text);
    NothingSeen(text);
    var batches := Missed(text, true).batches;
    assert Has(text, Opening).phase == Opening && Has(text, Opening).current == ScanLines(text);
    hide Exec, Only, Has, Missed, WorldOK, D.WholeLines, ScanLines, ParseLines, Framing.DefaultLine, Framing.FileText, Framing.Arriving,
      Pipeline.ReopensClean, Deduplication.Stream, Pipeline.Scrapes, D.History, D.CaughtUp, D.GentleRun, L.LosslessRun, Init,
      Pipeline.Dropped;
    D.CaughtUpReadsAll(w, run);
    L.GentleIsLossless(w, run);
    forall clocks: seq<nat> | |clocks| == |batches|
      ensures Deduplication.Stream(Pipeline.Scrapes(batches, Default, clocks)) == []
    {
      StreamMissed(text, clocks);
    }
    var _ := Pipeline.EverythingDelivered(w, run, Default, Midnight(|batches|));
  }

  /** Some clock readings. */
  function Midnight(n: nat): (r: seq<nat>)
    ensures |r| == n
  {
    seq(n, i => 0)
  }

  lemma NothingSeen(text: string)
    ensures |Missed(text, true).batches| == 2
  {
    hide ScanLines;
  }

  lemma StreamMissed(text: string, clocks: seq<nat>)
    requires |clocks| == |Missed(text, true).batches|
    ensures Deduplication.Stream(Pipeline.Scrapes(Missed(text, true).batches, Default, clocks)) == []
  {
    hide ScanLines, ParseLines, Deduplication.Stream, Pipeline.Scrapes, Has;
    var batches := Missed(text, true).batches;
    Pipeline.StreamSnoc(batches, Default, clocks);
    Pipeline.StreamSnoc(batches[..1], Default, clocks[..1]);
    NoScrapes(batches[..1][..0], clocks[..1][..0]);
    NoLines();
  }

  lemma NoScrapes(batches: seq<Batch>, clocks: seq<nat>)
    requires batches == [] && clocks == []
    ensures Deduplication.Stream(Pipeline.Scrapes(batches, Default, clocks)) == []
  {
  }

  lemma NoLines()
    ensures ParseLines([], Default, false) == []
  {
  }

  lemma LineRead(x: Framing.Written)
    requires Framing.Printable(x) && TrimRight(x.record.perfData, IsSpace) != ""
    ensures var text := Framing.DefaultLine(x, false) + ['\n'];
      && LineEnded(text) && text == Framing.FileText([x], false)
      && ParseLines(ScanLines(text), Default, false) == Framing.Arriving(x.record, false) != []
  {
    hide Framing.DefaultLine, ScanLines, ParseLines, TrimRight, Framing.Printable;
    Framing.DefaultLinePlain(x, false);
    Framing.LineScans(Framing.DefaultLine(x, false), Default, false);
    Framing.LineArrives(x, false);
    OneLineText(x);
  }

  lemma OneLineText(x: Framing.Written)
    ensures Framing.FileText([x], false) == Framing.DefaultLine(x, false) + ['\n']
  {
    hide Framing.DefaultLine;
    var lines := Framing.DefaultLines([x], false);
    assert lines[..|lines| - 1] == [];
    assert Framing.LinesText([]) == "";
    EmptyConcat(Framing.DefaultLine(x, false) + ['\n']);
  }

  // ---- a recycled inode number ----------------------------------------------------------------------

  /**
    A first file was opened and is no longer held; the path names another one, under the inode
    number of the first, which the tailer remembers.
   */
  ghost predicate Recycled(s: State) {
    && s.file.None? && s.phase == Statting && s.sessions == [Session(0, 0)]
    && s.world.path == Some(1) && |s.world.files| == 2
    && s.world.files[0].ino == s.world.files[1].ino == s.ino
  }

  lemma ComesBack(s: State)
    requires s == Step(Has("", Opening), Open(true))
    ensures var t := Step(Step(s, Publish(7, "", false)), BeginCollect); Recycled(t) && CheckRotation(t.world, t.file, t.ino)
  {
    hide ScanLines;
    assert s.phase == Idle && s.world == Only("", false) && s.file == None && s.ino == 7;
    assert FreeIno(s.world, s.file, 7);
    var t := Step(s, Publish(7, "", false));
    assert t == s.(world := World([Inode(7, "", false), Inode(7, "", true)], Some(1)));
  }

  /**
    Holding the file is needed for the comparison of inode numbers: after it was closed, the next
    file at the path can carry the remembered number, and only the test for a held file makes the
    tailer open it.
   */
  lemma InodeRecycled() returns (w: World, run: seq<Action>)
    ensures WorldOK(w, None) && Recycled(Exec(Init(w), run))
    ensures var s := Exec(Init(w), run); CheckRotation(s.world, s.file, s.ino)
  {
    w := Only("", true);
    run := LeadsToOpening("");
    ComesBack(Step(Has("", Opening), Open(true)));
    hide Step, Exec, Only, Has, WorldOK, CheckRotation, Recycled, Init;
    ExecSnoc(Init(w), run, Open(true));
    ExecSnoc(Init(w), run + [Open(true)], Publish(7, "", false));
    ExecSnoc(Init(w), run + [Open(true)] + [Publish(7, "", false)], BeginCollect);
    run := run + [Open(true)] + [Publish(7, "", false)] + [BeginCollect];
  }
}

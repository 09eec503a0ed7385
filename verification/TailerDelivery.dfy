/**
  What the tailer delivers when rotations are spaced far enough apart: nothing is lost,
  and with whole-line appends the lines are those of the text.
 */
module TailerDelivery {
  import opened Text
  import opened FileTailer

  // ---- environment assumptions ---------------------------------------------------------

  /** How many generations were opened. */
  function Opened(s: State): nat {
    if s.phase == Seeking then 1 else |s.sessions|
  }

  /** The generation at the path, if any, has been opened: it may be rotated away. */
  ghost predicate Rotatable(s: State) {
    s.phase == Starting || s.world.path.None? || s.world.path.value < s.first + Opened(s)
  }

  /** A generation whose file was drained for the last time. */
  ghost predicate Retired(s: State, gen: nat) {
    s.first <= gen < s.first + Opened(s) && !(Holds(s.file, gen) && s.phase != Closing)
  }

  /**
    Nobody writes to a file after its last drain, and no file is rotated away before it was
    opened. The tailer's own calls may fail at any time.
   */
  ghost predicate Gentle(s: State, a: Action) {
    match a
    case Append(g, _) => !Retired(s, g)
    case Vanish => Rotatable(s)
    case Publish(_, _, _) => Rotatable(s)
    case Unlink(g) => s.world.path == Some(g) ==> Rotatable(s)
    case _ => true
  }

  ghost predicate GentleRun(s: State, run: seq<Action>)
    decreases |run|
  {
    |run| > 0 ==> Gentle(s, run[0]) && GentleRun(Step(s, run[0]), run[1..])
  }

  // ---- nothing is lost --------------------------------------------------------------------

  /** The opened generations are consecutive, and at most one, at the path, waits to be opened. */
  ghost predicate Consecutive(s: State) {
    s.phase != Starting ==>
      && (forall i :: 0 <= i < |s.sessions| ==> s.sessions[i].gen == s.first + i)
      && (s.phase == Seeking && s.file.Some? ==> s.file.value.gen == s.first)
      && (s.world.path.Some? ==> s.world.path.value >= s.first)
      && (|| s.first + Opened(s) == |s.world.files|
          || (s.first + Opened(s) + 1 == |s.world.files| && s.world.path == Some(s.first + Opened(s))))
  }

  /** Every generation given up was read to its end. */
  ghost predicate Complete(s: State) {
    forall i :: 0 <= i < |s.sessions| && (i + 1 < |s.sessions| || s.file.None? || s.phase == Closing) ==>
      s.sessions[i].end == |Content(s.world, s.sessions[i].gen)|
  }

  /**
    What existed when the latest collect began is read, but for a generation still to be opened,
    unless one of that collect's calls failed.
   */
  ghost predicate Marked(s: State) {
    && |s.mark| <= |s.world.files|
    && (forall g :: 0 <= g < |s.mark| ==> s.mark[g] <= |Content(s.world, g)|)
    && (forall i :: 0 <= i < |s.sessions| && s.smooth && s.first + i < |s.mark| && !(s.phase == Rereading && i + 1 == |s.sessions|) ==>
          s.mark[s.first + i] <= s.sessions[i].end)
    && (s.smooth && (s.phase == Idle || s.phase == Rereading) ==> |s.mark| <= s.first + |s.sessions| || s.mark == [])
  }

  ghost predicate Delivering(s: State) {
    Inv(s) && Consecutive(s) && Complete(s) && Marked(s)
  }

  lemma IsDelivering(s: State)
    requires Inv(s) && Consecutive(s) && Complete(s) && Marked(s)
    ensures Delivering(s)
  {
  }

  /** The part of the tailer's invariant that matters here. */
  ghost predicate Frame(s: State) {
    && PhaseOK(s) && PathMovesOn(s)
    && (s.world.path.Some? ==> s.world.path.value + 1 == |s.world.files|)
    && (forall i :: 0 <= i < |s.sessions| ==> s.sessions[i].gen < |s.world.files|)
    && (s.file.Some? ==> s.file.value.gen < |s.world.files|)
    && (s.file.Some? && s.phase != Seeking ==>
          |s.sessions| > 0 && s.sessions[|s.sessions| - 1] == Session(s.file.value.gen, s.file.value.offset))
  }

  lemma InvFrame(s: State)
    requires Inv(s)
    ensures Frame(s)
  {
    hide TextOf, From, InUse;
  }

  lemma AppendContents(w: World, g: nat, text: string)
    requires g < |w.files|
    ensures var v := EnvNext(w, Append(g, text));
      && |v.files| == |w.files| && v.path == w.path
      && forall h: nat :: |Content(v, h)| >= |Content(w, h)| && (h != g ==> Content(v, h) == Content(w, h))
  {
  }

  lemma AppendComplete(s: State, g: nat, text: string)
    requires Frame(s) && Consecutive(s) && Complete(s) && g < |s.world.files| && !Retired(s, g)
    ensures Complete(s.(world := EnvNext(s.world, Append(g, text))))
  {
    AppendContents(s.world, g, text);
    hide EnvNext, Content, PathMovesOn;
    forall i | 0 <= i < |s.sessions| && (i + 1 < |s.sessions| || s.file.None? || s.phase == Closing)
      ensures s.sessions[i].gen != g
    {
    }
  }

  lemma GentleAppend(s: State, g: nat, text: string)
    requires Frame(s) && Consecutive(s) && Complete(s) && Marked(s) && g < |s.world.files| && !Retired(s, g)
    ensures var t := s.(world := EnvNext(s.world, Append(g, text)));
      Consecutive(t) && Complete(t) && Marked(t)
  {
    AppendComplete(s, g, text);
    AppendContents(s.world, g, text);
    hide EnvNext, Content, Complete, Frame;
  }

  lemma SameContents(w: World, a: Action, g: nat)
    requires !IsTailer(a) && !a.Append? && g < |w.files|
    ensures Content(EnvNext(w, a), g) == Content(w, g)
  {
  }

  lemma ContentsKept(s: State, w: World)
    requires Complete(s) && Marked(s) && |w.files| >= |s.world.files|
    requires forall i :: 0 <= i < |s.sessions| ==> s.sessions[i].gen < |s.world.files|
    requires forall g: nat :: g < |s.world.files| ==> Content(w, g) == Content(s.world, g)
    ensures Complete(s.(world := w)) && Marked(s.(world := w))
  {
    hide Content;
  }

  lemma GentleRotation(s: State, a: Action)
    requires Frame(s) && Consecutive(s) && Complete(s) && Marked(s)
    requires !IsTailer(a) && !a.Append? && Gentle(s, a)
    ensures var t := s.(world := EnvNext(s.world, a));
      Consecutive(t) && Complete(t) && Marked(t)
  {
    RotationConsecutive(s, a);
    hide Content, EnvNext, Consecutive, Gentle, PathMovesOn, Complete, Marked;
    forall g: nat | g < |s.world.files|
      ensures Content(EnvNext(s.world, a), g) == Content(s.world, g)
    {
      SameContents(s.world, a, g);
    }
    FilesGrow(s.world, a);
    ContentsKept(s, EnvNext(s.world, a));
  }

  lemma RotationConsecutive(s: State, a: Action)
    requires Frame(s) && Consecutive(s)
    requires !IsTailer(a) && !a.Append? && Gentle(s, a)
    ensures Consecutive(s.(world := EnvNext(s.world, a)))
  {
    FilesGrow(s.world, a);
    hide EnvNext, PathMovesOn;
  }

  lemma FilesGrow(w: World, a: Action)
    requires !IsTailer(a) && !a.Append?
    ensures |EnvNext(w, a).files| == |w.files| + if a.Publish? then 1 else 0
    ensures EnvNext(w, a).path == match a
      case Publish(_, _, _) => Some(|w.files|)
      case Vanish => None
      case Unlink(g) => if w.path == Some(g) then None else w.path
      case _ => w.path
  {
  }

  lemma EnvDelivers(s: State, a: Action)
    requires Delivering(s) && Enabled(s, a) && !IsTailer(a) && Gentle(s, a)
    ensures Delivering(Step(s, a))
  {
    EnvKeeps(s, a);
    InvFrame(s);
    match a {
      case Append(g, text) => GentleAppend(s, g, text);
      case _ => GentleRotation(s, a);
    }
    hide Inv, Consecutive, Complete, Marked;
    IsDelivering(Step(s, a));
  }

  lemma StartDelivers(s: State)
    requires Delivering(s) && s.phase == Starting
    ensures Delivering(AfterStart(s))
  {
    StartKeeps(s);
    var t := AfterStart(s);
    assert Consecutive(t);
    hide Inv, Consecutive;
    IsDelivering(t);
  }

  lemma SeekDelivers(s: State)
    requires Delivering(s) && s.phase == Seeking
    ensures Delivering(AfterSeek(s))
  {
    SeekKeeps(s);
    InvFrame(s);
    hide Inv, TextOf, PathMovesOn;
    var t := AfterSeek(s);
    assert Consecutive(t);
    hide Consecutive;
    assert Complete(t) && Marked(t);
    hide Complete, Marked;
    IsDelivering(t);
  }

  lemma ConsecutiveStays(s: State, t: State)
    requires Consecutive(s) && s.world == t.world && s.first == t.first
    requires |s.sessions| == |t.sessions| && forall i :: 0 <= i < |s.sessions| ==> t.sessions[i].gen == s.sessions[i].gen
    requires s.phase != Starting && s.phase != Seeking && t.phase != Starting && t.phase != Seeking
    ensures Consecutive(t)
  {
  }

  lemma CompleteStays(s: State, t: State)
    requires Complete(s) && s.world == t.world && s.sessions == t.sessions
    requires t.phase == Closing ==> s.phase == Closing
    requires t.file.None? ==> s.file.None? || (s.phase == Closing && Frame(s))
    ensures Complete(t)
  {
  }

  lemma MarkedStays(s: State, t: State)
    requires Marked(s) && s.world == t.world && s.sessions == t.sessions && s.first == t.first && s.mark == t.mark
    requires s.phase != Rereading && (t.smooth ==> s.smooth)
    requires t.smooth && (t.phase == Idle || t.phase == Rereading) ==> |s.mark| <= s.first + |s.sessions|
    ensures Marked(t)
  {
  }

  /** Reading the held file brings its session to the end of the file. */
  lemma ReadComplete(s: State)
    requires Inv(s) && Complete(s) && s.phase != Seeking
    ensures var t := ReadHeld(s);
      forall i :: 0 <= i < |t.sessions| ==>
        && (t.sessions[i].end == |Content(t.world, t.sessions[i].gen)|)
        && t.sessions[i].end >= s.sessions[i].end
  {
    ReadFrame(s);
    if s.file.Some? {
      ReadSessions(s);
    }
    hide TextOf, ScanLines, WorldOK;
  }

  lemma BeginMarked(s: State)
    requires Frame(s) && Inv(s) && Complete(s) && Consecutive(s) && s.phase == Idle
    ensures Marked(AfterBegin(s)) && Complete(AfterBegin(s))
  {
    ReadComplete(s);
    ReadFrame(s);
    hide Inv, ReadHeld, Complete, PathMovesOn, Frame;
    var t := AfterBegin(s);
    assert t.world == s.world && t.mark == Lengths(s.world);
    assert forall i :: 0 <= i < |t.sessions| ==> t.sessions[i].gen == s.first + i;
    hide Consecutive;
    assert Marked(t);
    hide Marked;
    AllRead(t);
  }

  lemma AllRead(t: State)
    requires forall i :: 0 <= i < |t.sessions| ==> t.sessions[i].end == |Content(t.world, t.sessions[i].gen)|
    ensures Complete(t)
  {
  }

  lemma BeginDelivers(s: State)
    requires Delivering(s) && s.phase == Idle
    ensures Delivering(AfterBegin(s))
  {
    ReadingKeeps(s, Statting, Lengths(s.world), true);
    InvFrame(s);
    BeginMarked(s);
    ReadFrame(s);
    hide Inv, ReadHeld, Frame, Complete, Marked;
    var t := AfterBegin(s);
    ConsecutiveStays(s, t);
    hide Consecutive;
    IsDelivering(t);
  }

  lemma DrainMarked(s: State)
    requires Frame(s) && Inv(s) && Complete(s) && Marked(s) && Consecutive(s) && s.phase == Draining
    ensures var t := AfterDrain(s); Marked(t) && Complete(t) && Consecutive(t)
  {
    ReadComplete(s);
    ReadFrame(s);
    hide Inv, ReadHeld, Complete, PathMovesOn, Frame;
    var t := AfterDrain(s);
    ConsecutiveStays(s, t);
    hide Consecutive;
    assert Marked(t);
    hide Marked;
    AllRead(t);
  }

  lemma DrainDelivers(s: State)
    requires Delivering(s) && s.phase == Draining
    ensures Delivering(AfterDrain(s))
  {
    DrainKeeps(s);
    InvFrame(s);
    DrainMarked(s);
    hide Inv, ReadHeld, Consecutive, Complete, Marked, Frame;
    IsDelivering(AfterDrain(s));
  }

  lemma RereadMarked(s: State)
    requires Frame(s) && Inv(s) && Complete(s) && Marked(s) && Consecutive(s) && s.phase == Rereading
    ensures var t := AfterReread(s); Marked(t) && Complete(t) && Consecutive(t)
  {
    ReadComplete(s);
    ReadFrame(s);
    hide Inv, ReadHeld, Complete, PathMovesOn, Frame;
    var t := AfterReread(s);
    ConsecutiveStays(s, t);
    assert forall i :: 0 <= i < |t.sessions| ==> t.sessions[i].gen == s.first + i;
    hide Consecutive;
    assert Marked(t);
    hide Marked;
    AllRead(t);
  }

  lemma RereadDelivers(s: State)
    requires Delivering(s) && s.phase == Rereading
    ensures Delivering(AfterReread(s))
  {
    RereadKeeps(s);
    InvFrame(s);
    RereadMarked(s);
    ReadFrame(s);
    hide Inv, ReadHeld, Consecutive, Complete, Marked, Frame;
    IsDelivering(AfterReread(s));
  }

  lemma NothingHeld(w: World, ino: nat)
    ensures CheckRotation(w, None, ino) <==> w.path.Some?
  {
  }

  lemma StatMarked(s: State)
    requires Inv(s) && Frame(s) && Consecutive(s) && Marked(s) && s.phase == Statting
    requires !CheckRotation(s.world, s.file, s.ino)
    ensures |s.mark| <= s.first + |s.sessions|
  {
    if s.file.Some? {
      RotationExact(s);
    }
    NothingHeld(s.world, s.ino);
    hide Inv, CheckRotation, PathMovesOn;
  }

  lemma StatDelivers(s: State, ok: bool)
    requires Delivering(s) && s.phase == Statting
    ensures Delivering(AfterStat(s, ok))
  {
    StatKeeps(s, ok);
    InvFrame(s);
    if ok && !CheckRotation(s.world, s.file, s.ino) {
      StatMarked(s);
    }
    hide Inv, CheckRotation, Consecutive, Complete, Marked, Frame;
    var t := AfterStat(s, ok);
    ConsecutiveStays(s, t);
    CompleteStays(s, t);
    MarkedStays(s, t);
    IsDelivering(t);
  }

  lemma CloseDelivers(s: State)
    requires Delivering(s) && s.phase == Closing
    ensures Delivering(AfterClose(s))
  {
    CloseKeeps(s);
    InvFrame(s);
    hide Inv, Consecutive, Complete, Marked, Frame;
    var t := AfterClose(s);
    ConsecutiveStays(s, t);
    CompleteStays(s, t);
    MarkedStays(s, t);
    IsDelivering(t);
  }

  /** Nothing waits at the path when the path is missing; otherwise the next generation does. */
  lemma OpenNext(s: State)
    requires Frame(s) && Consecutive(s) && s.phase == Opening
    ensures s.first + |s.sessions| == |s.world.files| - if s.world.path.Some? then 1 else 0
    ensures s.world.path.Some? ==> s.world.path.value == s.first + |s.sessions|
  {
  }

  lemma OpenDelivers(s: State, ok: bool)
    requires Delivering(s) && s.phase == Opening
    ensures Delivering(AfterOpen(s, ok))
  {
    OpenKeeps(s, ok);
    InvFrame(s);
    OpenNext(s);
    assert |s.mark| <= |s.world.files|;
    var t := AfterOpen(s, ok);
    hide Inv, Consecutive, Complete, Marked, Frame;
    if !ok || s.world.path.None? {
      ConsecutiveStays(s, t);
      CompleteStays(s, t);
      MarkedStays(s, t);
    } else {
      ReopenDelivers(s);
    }
    hide AfterOpen;
    IsDelivering(t);
  }

  lemma ReopenDelivers(s: State)
    requires Frame(s) && Consecutive(s) && Complete(s) && Marked(s) && s.phase == Opening
    requires s.world.path == Some(s.first + |s.sessions|) && s.first + |s.sessions| + 1 == |s.world.files|
    ensures var t := AfterOpen(s, true); Consecutive(t) && Complete(t) && Marked(t)
  {
    hide Content, PathMovesOn;
    var t := AfterOpen(s, true);
    assert t.sessions == s.sessions + [Session(s.first + |s.sessions|, 0)];
    assert Consecutive(t);
    hide Consecutive;
    assert Complete(t);
    hide Complete;
    assert Marked(t);
  }

  lemma StepDelivers(s: State, a: Action)
    requires Delivering(s) && Gentle(s, a)
    ensures Delivering(Step(s, a))
  {
    if Enabled(s, a) {
      match a
      case Stat(ok) => StatDelivers(s, ok);
      case Open(ok) => OpenDelivers(s, ok);
      case Start => StartDelivers(s);
      case SeekEnd => SeekDelivers(s);
      case Close => CloseDelivers(s);
      case BeginCollect => BeginDelivers(s);
      case Drain => DrainDelivers(s);
      case Reread => RereadDelivers(s);
      case _ => EnvDelivers(s, a);
    }
    hide Delivering, EnvNext;
  }

  lemma {:induction false} ExecDelivers(s: State, run: seq<Action>)
    requires Delivering(s) && GentleRun(s, run)
    ensures Delivering(Exec(s, run))
    decreases |run|
  {
    hide Delivering, Step, Gentle;
    if |run| > 0 {
      StepDelivers(s, run[0]);
      ExecDelivers(Step(s, run[0]), run[1..]);
    }
  }

  lemma InitDelivers(w: World)
    requires WorldOK(w, None)
    ensures Delivering(Init(w))
  {
    InitKeeps(w);
  }

  ghost predicate NoneFailed(s: State) {
    forall i :: 0 <= i < |s.batches| ==> !s.batches[i].failed
  }

  lemma {:induction false} OpensSucceed(s: State, run: seq<Action>)
    requires NoneFailed(s) && Open(false) !in run
    ensures NoneFailed(Exec(s, run))
    decreases |run|
  {
    if |run| > 0 {
      assert run[0] in run && forall a :: a in run[1..] ==> a in run;
      StepSucceeds(s, run[0]);
      hide Step, NoneFailed;
      OpensSucceed(Step(s, run[0]), run[1..]);
    }
  }

  lemma StepSucceeds(s: State, a: Action)
    requires NoneFailed(s) && a != Open(false)
    ensures NoneFailed(Step(s, a))
  {
    ReadFrame(s);
    hide ReadHeld, CheckRotation, EnvNext;
  }

  /**
    No loss: when a collect has returned whose own calls succeeded, whatever failed before,
    every generation that existed when it began was opened, and everything in it by then, from
    where reading starts, is read. If no open fails, no collect fails.
   */
  lemma CollectDelivers(w: World, run: seq<Action>)
    requires WorldOK(w, None) && GentleRun(Init(w), run)
    ensures var s := Exec(Init(w), run);
      && (s.phase == Idle && s.smooth ==> forall g :: s.first <= g < |s.mark| ==>
            && g - s.first < |s.sessions| && s.sessions[g - s.first].gen == g
            && s.mark[g] <= s.sessions[g - s.first].end)
      && (Open(false) !in run ==> NoneFailed(s))
  {
    InitDelivers(w);
    ExecDelivers(Init(w), run);
    if Open(false) !in run {
      OpensSucceed(Init(w), run);
    }
    hide Exec, Inv, NoneFailed;
  }

  /** All sessions read to the end of all generations since the start. */
  function FullSessions(s: State): seq<Session> {
    if s.first <= |s.world.files| then
      seq(|s.world.files| - s.first, i requires 0 <= i => Session(s.first + i, |Content(s.world, s.first + i)|))
    else []
  }

  /** Everything written since the start. */
  function History(s: State): string {
    TextOf(s.world, s.origin, FullSessions(s))
  }

  /** The latest collect returned, its calls succeeded, and nothing was written since it began. */
  ghost predicate CaughtUp(s: State) {
    s.phase == Idle && s.smooth && s.mark == Lengths(s.world)
  }

  /**
    When the latest collect began after the last write and its calls succeeded, all that was
    written is read: a call that failed before only delayed reading.
   */
  lemma CaughtUpReadsAll(w: World, run: seq<Action>)
    requires WorldOK(w, None) && GentleRun(Init(w), run)
    ensures var s := Exec(Init(w), run); CaughtUp(s) ==> s.consumed == History(s)
  {
    InitDelivers(w);
    ExecDelivers(Init(w), run);
    var s := Exec(Init(w), run);
    hide Exec, TextOf, WorldOK;
    if CaughtUp(s) {
      AllSessionsFull(s);
    }
  }

  lemma AllOpened(s: State)
    requires Frame(s) && Consecutive(s) && Marked(s) && CaughtUp(s)
    ensures s.first + |s.sessions| == |s.world.files|
  {
    hide PathMovesOn, Content;
  }

  lemma AllSessionsFull(s: State)
    requires Delivering(s) && CaughtUp(s)
    ensures s.sessions == FullSessions(s)
  {
    InvFrame(s);
    AllOpened(s);
    SessionEnds(s);
    hide Inv, Frame, Marked, Complete, Content, CaughtUp, PathMovesOn;
    forall i: nat | i < |s.sessions|
      ensures s.sessions[i] == Session(s.first + i, |Content(s.world, s.first + i)|)
    {
    }
  }

  lemma SessionEnds(s: State)
    requires Inv(s) && Consecutive(s) && Marked(s) && CaughtUp(s)
    ensures forall i :: 0 <= i < |s.sessions| ==> s.sessions[i].end == |Content(s.world, s.first + i)|
  {
    hide TextOf, WorldOK, PathMovesOn;
  }

  // ---- what was written does not depend on when it is read -----------------------------------------

  /** What the history is made of; while seeking, the generation found at start. */
  datatype View = View(world: World, origin: Option<Fd>, first: nat, seeking: Option<nat>)

  function ViewOf(s: State): View {
    View(s.world, s.origin, s.first, if s.phase == Seeking && s.file.Some? then Some(s.file.value.gen) else None)
  }

  /** The actions of a run that took place, without the tailer's, but for where it starts. */
  function Trace(s: State, run: seq<Action>): seq<Action>
    decreases |run|
  {
    if |run| == 0 then []
    else
      var a := run[0];
      (if Enabled(s, a) && (!IsTailer(a) || a.Start? || a.SeekEnd?) then [a] else []) + Trace(Step(s, a), run[1..])
  }

  function NextView(v: View, a: Action): View {
    match a
    case Start =>
      if v.world.path.None? then v.(first := |v.world.files|)
      else v.(first := v.world.path.value, seeking := v.world.path)
    case SeekEnd =>
      if v.seeking.None? then v
      else v.(origin := Some(Fd(v.seeking.value, |Content(v.world, v.seeking.value)|)), seeking := None)
    case _ => v.(world := EnvNext(v.world, a))
  }

  function Replay(v: View, trace: seq<Action>): View
    decreases |trace|
  {
    if |trace| == 0 then v else Replay(NextView(v, trace[0]), trace[1..])
  }

  lemma StepView(s: State, a: Action)
    ensures ViewOf(Step(s, a)) ==
      if Enabled(s, a) && (!IsTailer(a) || a.Start? || a.SeekEnd?) then NextView(ViewOf(s), a) else ViewOf(s)
  {
    ReadFrame(s);
    hide ReadHeld, CheckRotation, EnvNext, Content;
  }

  lemma {:induction false} ReplayTrace(s: State, run: seq<Action>)
    ensures ViewOf(Exec(s, run)) == Replay(ViewOf(s), Trace(s, run))
    decreases |run|
  {
    if |run| > 0 {
      hide Step, ViewOf, NextView, Enabled;
      StepView(s, run[0]);
      ReplayTrace(Step(s, run[0]), run[1..]);
      ConsRest(run[0], Trace(Step(s, run[0]), run[1..]));
      EmptyConcat(Trace(Step(s, run[0]), run[1..]));
    }
  }

  lemma SameView(s: State, t: State)
    requires ViewOf(s) == ViewOf(t)
    ensures History(s) == History(t)
  {
    hide Content, TextOf;
    assert FullSessions(s) == FullSessions(t);
  }

  /**
    What was written since the start is determined by what writers and rotation tools did and by
    when the tailer started, not by when or how often it collected or which of its calls failed.
   */
  lemma HistoryFromTrace(w: World, run: seq<Action>, other: seq<Action>)
    requires Trace(Init(w), run) == Trace(Init(w), other)
    ensures History(Exec(Init(w), run)) == History(Exec(Init(w), other))
  {
    hide ViewOf, Exec, Trace, Replay, History;
    ReplayTrace(Init(w), run);
    ReplayTrace(Init(w), other);
    SameView(Exec(Init(w), run), Exec(Init(w), other));
  }

  // ---- left alone, the tailer catches up ---------------------------------------------------------

  /** How far the tailer is from returning. */
  function Rank(p: Phase): nat {
    match p
    case Idle => 0
    case Rereading => 1
    case Opening => 2
    case Closing => 3
    case Draining => 4
    case Statting => 5
    case Seeking => 6
    case Starting => 7
  }

  /** The tailer's next system call, succeeding. */
  function NextCall(s: State): Action {
    match s.phase
    case Idle => BeginCollect
    case Rereading => Reread
    case Opening => Open(true)
    case Closing => Close
    case Draining => Drain
    case Statting => Stat(true)
    case Seeking => SeekEnd
    case Starting => Start
  }

  lemma CallMovesOn(s: State)
    requires s.phase == Seeking ==> s.file.Some?
    ensures var t := Step(s, NextCall(s));
      && (s.phase != Idle ==> Rank(t.phase) < Rank(s.phase) && t.mark == s.mark && t.smooth == s.smooth)
      && (s.phase == Idle ==> t.phase == Statting && t.mark == Lengths(s.world) && t.smooth)
      && t.world == s.world && (t.phase == Seeking ==> t.file.Some?)
      && Gentle(s, NextCall(s))
  {
    ReadFrame(s);
    hide ReadHeld, CheckRotation;
  }

  /** The tailer's calls until it returns, with nothing in between. */
  ghost function RunOn(s: State): seq<Action>
    requires s.phase == Seeking ==> s.file.Some?
    decreases Rank(s.phase)
  {
    if s.phase == Idle then []
    else
      CallMovesOn(s);
      [NextCall(s)] + RunOn(Step(s, NextCall(s)))
  }

  lemma {:induction false} RunOnReturns(s: State)
    requires s.phase == Seeking ==> s.file.Some?
    ensures var t := Exec(s, RunOn(s)); t.phase == Idle && t.world == s.world && t.mark == s.mark && t.smooth == s.smooth
    ensures GentleRun(s, RunOn(s))
    decreases Rank(s.phase)
  {
    hide Step, Gentle, NextCall;
    if s.phase != Idle {
      CallMovesOn(s);
      RunOnReturns(Step(s, NextCall(s)));
      ConsRest(NextCall(s), RunOn(Step(s, NextCall(s))));
    }
  }

  lemma ConsRest<X>(x: X, rest: seq<X>)
    ensures ([x] + rest)[0] == x && ([x] + rest)[1..] == rest
  {
  }

  lemma {:induction false} GentleConcat(s: State, a: seq<Action>, b: seq<Action>)
    requires GentleRun(s, a) && GentleRun(Exec(s, a), b)
    ensures GentleRun(s, a + b)
    decreases |a|
  {
    hide Step, Gentle;
    if |a| == 0 {
      EmptyConcat(b);
    } else {
      GentleConcat(Step(s, a[0]), a[1..], b);
      assert (a + b)[1..] == a[1..] + b;
    }
  }

  /** Finishing what is under way, and one more collect. */
  ghost function CatchUp(s: State): seq<Action>
    requires s.phase == Seeking ==> s.file.Some?
  {
    RunOnReturns(s);
    var t := Exec(s, RunOn(s));
    CallMovesOn(t);
    RunOn(s) + ([BeginCollect] + RunOn(Step(t, BeginCollect)))
  }

  lemma CatchesUp(s: State)
    requires s.phase == Seeking ==> s.file.Some?
    ensures GentleRun(s, CatchUp(s)) && CaughtUp(Exec(s, CatchUp(s))) && Exec(s, CatchUp(s)).world == s.world
  {
    hide Gentle, Step, Exec, GentleRun, RunOn, Lengths;
    RunOnReturns(s);
    var t := Exec(s, RunOn(s));
    CallMovesOn(t);
    var rest := RunOn(Step(t, BeginCollect));
    RunOnReturns(Step(t, BeginCollect));
    OneMore(t, BeginCollect, rest);
    GentleConcat(s, RunOn(s), [BeginCollect] + rest);
    ExecConcat(s, RunOn(s), [BeginCollect] + rest);
  }

  lemma OneMore(s: State, a: Action, rest: seq<Action>)
    requires Gentle(s, a) && GentleRun(Step(s, a), rest)
    ensures GentleRun(s, [a] + rest) && Exec(s, [a] + rest) == Exec(Step(s, a), rest)
  {
    hide Gentle, Step;
    ConsRest(a, rest);
  }

  /**
    From every state of a gentle run, wherever a collect may be, finishing it and one more
    collect read all that was written, if nothing happens in between.
   */
  lemma QuietCollectReadsAll(w: World, run: seq<Action>)
    requires WorldOK(w, None) && GentleRun(Init(w), run)
    ensures var s := Exec(Init(w), run);
      && (s.phase == Seeking ==> s.file.Some?)
      && var t := Exec(Init(w), run + CatchUp(s));
      && GentleRun(Init(w), run + CatchUp(s)) && CaughtUp(t) && t.world == s.world && t.consumed == History(t)
  {
    hide Gentle, Step, Exec, GentleRun, CatchUp, History, WorldOK, CaughtUp;
    var s := Exec(Init(w), run);
    SeekingHolds(w, run);
    CatchesUp(s);
    GentleConcat(Init(w), run, CatchUp(s));
    ExecConcat(Init(w), run, CatchUp(s));
    CaughtUpReadsAll(w, run + CatchUp(s));
  }

  lemma SeekingHolds(w: World, run: seq<Action>)
    requires WorldOK(w, None)
    ensures var s := Exec(Init(w), run); s.phase == Seeking ==> s.file.Some?
  {
    InitKeeps(w);
    ExecKeeps(Init(w), run);
    hide Exec, WorldOK, TextOf;
  }

  // ---- lines ---------------------------------------------------------------------------------

  function AllLines(batches: seq<Batch>): seq<string> {
    if |batches| == 0 then [] else AllLines(batches[..|batches| - 1]) + batches[|batches| - 1].lines
  }

  ghost predicate WholeLines(w: World) {
    forall g :: 0 <= g < |w.files| ==> LineEnded(w.files[g].content)
  }

  /** Writers append whole lines. */
  ghost predicate WritesLines(a: Action) {
    (a.Append? || a.Publish?) ==> LineEnded(a.text)
  }

  ghost predicate LineWise(s: State) {
    WholeLines(s.world) && LineEnded(s.consumed) && AllLines(s.batches) + s.current == ScanLines(s.consumed)
  }

  lemma {:induction false} RunOnWrites(s: State)
    requires s.phase == Seeking ==> s.file.Some?
    ensures forall i :: 0 <= i < |RunOn(s)| ==> WritesLines(RunOn(s)[i]) && RunOn(s)[i] != Open(false) && IsTailer(RunOn(s)[i])
    decreases Rank(s.phase)
  {
    hide Step, LineEnded;
    if s.phase != Idle {
      CallMovesOn(s);
      RunOnWrites(Step(s, NextCall(s)));
    }
  }

  lemma CatchUpWrites(s: State)
    requires s.phase == Seeking ==> s.file.Some?
    ensures forall i :: 0 <= i < |CatchUp(s)| ==> WritesLines(CatchUp(s)[i]) && CatchUp(s)[i] != Open(false) && IsTailer(CatchUp(s)[i])
  {
    hide Step, LineEnded, RunOn, Exec;
    RunOnReturns(s);
    var t := Exec(s, RunOn(s));
    CallMovesOn(t);
    RunOnWrites(s);
    RunOnWrites(Step(t, BeginCollect));
  }

  lemma LineEndedConcat(a: string, b: string)
    requires LineEnded(a) && LineEnded(b)
    ensures LineEnded(a + b)
  {
  }

  lemma ChunkLineEnded(w: World, fd: Fd)
    requires WholeLines(w)
    ensures LineEnded(Chunk(w, fd))
  {
  }

  lemma ReadLineWise(s: State)
    requires LineWise(s)
    ensures LineWise(ReadHeld(s))
  {
    if s.file.Some? {
      var chunk := Chunk(s.world, s.file.value);
      ChunkLineEnded(s.world, s.file.value);
      LineEndedConcat(s.consumed, chunk);
      ScanConcat(s.consumed, chunk);
      Regroup(AllLines(s.batches), s.current, ScanLines(chunk));
      hide WholeLines, LineEnded, ScanLines, AllLines, Chunk;
    }
  }

  lemma FinishLineWise(s: State, failed: bool)
    requires LineWise(s)
    ensures LineWise(Finish(s, failed))
  {
    var b := Batch(s.current, failed);
    assert (s.batches + [b])[..|s.batches|] == s.batches;
    EmptyConcat(AllLines(s.batches + [b]));
    hide WholeLines, LineEnded, ScanLines;
  }

  lemma EnvLineWise(w: World, a: Action)
    requires WholeLines(w) && WritesLines(a)
    ensures WholeLines(EnvNext(w, a))
  {
    if a.Append? && a.gen < |w.files| {
      LineEndedConcat(w.files[a.gen].content, a.text);
    }
    hide LineEnded;
  }

  lemma OnlyLines(s: State, t: State)
    requires LineWise(s) && WholeLines(t.world)
    requires t.consumed == s.consumed && t.current == s.current && t.batches == s.batches
    ensures LineWise(t)
  {
  }

  lemma ReadingLineWise(s: State)
    requires LineWise(s)
    ensures LineWise(AfterBegin(s)) && LineWise(AfterDrain(s)) && LineWise(AfterReread(s))
  {
    ReadLineWise(s);
    var r := ReadHeld(s);
    assert WholeLines(r.world);
    FinishLineWise(r, false);
    hide LineWise, WholeLines, ReadHeld, Finish;
    OnlyLines(r, AfterBegin(s));
    OnlyLines(r, AfterDrain(s));
  }

  lemma FindingLineWise(s: State, ok: bool)
    requires LineWise(s)
    ensures LineWise(AfterStat(s, ok)) && LineWise(AfterOpen(s, ok))
  {
    assert WholeLines(s.world);
    FinishLineWise(s, true);
    FinishLineWise(s, false);
    hide LineWise, WholeLines, Finish, CheckRotation;
    if ok && CheckRotation(s.world, s.file, s.ino) {
      OnlyLines(s, AfterStat(s, ok));
    }
    if ok && OpenPath(s).file.Some? {
      OnlyLines(s, AfterOpen(s, ok));
    }
  }

  lemma OtherLineWise(s: State)
    requires LineWise(s)
    ensures LineWise(AfterStart(s)) && LineWise(AfterSeek(s)) && LineWise(AfterClose(s))
  {
    assert WholeLines(s.world);
    hide LineWise, WholeLines;
    OnlyLines(s, AfterStart(s));
    OnlyLines(s, AfterSeek(s));
    OnlyLines(s, AfterClose(s));
  }

  lemma TailerLineWise(s: State, a: Action)
    requires LineWise(s)
    ensures LineWise(TailerNext(s, a))
  {
    hide LineWise, AfterStart, AfterSeek, AfterClose, AfterBegin, AfterStat, AfterDrain, AfterOpen, AfterReread;
    ReadingLineWise(s);
    OtherLineWise(s);
    match a {
      case Stat(ok) => FindingLineWise(s, ok);
      case Open(ok) => FindingLineWise(s, ok);
      case _ =>
    }
  }

  lemma WorldLineWise(s: State, a: Action)
    requires LineWise(s) && WritesLines(a)
    ensures LineWise(s.(world := EnvNext(s.world, a)))
  {
    EnvLineWise(s.world, a);
    hide EnvNext, WholeLines, LineEnded, ScanLines, AllLines;
    OnlyLines(s, s.(world := EnvNext(s.world, a)));
  }

  lemma StepLineWise(s: State, a: Action)
    requires LineWise(s) && WritesLines(a)
    ensures LineWise(Step(s, a))
  {
    hide LineWise, WritesLines, TailerNext, EnvNext, Enabled, IsTailer;
    TailerLineWise(s, a);
    WorldLineWise(s, a);
  }

  lemma {:induction false} ExecLineWise(s: State, run: seq<Action>)
    requires LineWise(s) && forall i :: 0 <= i < |run| ==> WritesLines(run[i])
    ensures LineWise(Exec(s, run))
    decreases |run|
  {
    hide LineWise, Step, WritesLines;
    if |run| > 0 {
      StepLineWise(s, run[0]);
      ExecLineWise(Step(s, run[0]), run[1..]);
    }
  }

  /** With whole-line appends, however the reads fall, the lines collected are the lines of the text read. */
  lemma LinesOfText(w: World, run: seq<Action>)
    requires WholeLines(w) && forall i :: 0 <= i < |run| ==> WritesLines(run[i])
    ensures var s := Exec(Init(w), run); AllLines(s.batches) + s.current == ScanLines(s.consumed)
  {
    assert LineWise(Init(w));
    ExecLineWise(Init(w), run);
    hide Exec;
  }
}

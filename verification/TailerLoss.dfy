/**
  Exactly which runs lose what was written: those in which someone writes to a file that was
  given up, or takes a file with something in it away from the path before it was opened.
 */
module TailerLoss {
  import opened Text
  import opened FileTailer
  import opened TailerDelivery

  // ---- reading all that was written, generation by generation ------------------------------

  /** Everything the tailer knows lies in the generations since the start. */
  ghost predicate Anchored(s: State) {
    s.phase != Starting ==>
      && s.first <= |s.world.files|
      && (forall i :: 0 <= i < |s.sessions| ==> s.first <= s.sessions[i].gen)
      && (s.origin.Some? ==> s.origin.value.gen == s.first)
      && (s.file.Some? ==> s.first <= s.file.value.gen)
      && (s.phase == Seeking ==> s.file.Some? && s.file.value.gen == s.first)
      && (s.world.path.Some? ==> s.first <= s.world.path.value)
  }

  ghost predicate ReadToEnd(s: State, g: nat, i: nat) {
    i < |s.sessions| && s.sessions[i].gen == g && s.sessions[i].end == |Content(s.world, g)|
  }

  /** A generation that was read to its end, or in which there was nothing to read. */
  ghost predicate Settled(s: State, g: nat) {
    |Content(s.world, g)| <= From(s.origin, g) || exists i: nat :: ReadToEnd(s, g, i)
  }

  ghost predicate Sorted(sessions: seq<Session>) {
    forall i, j :: 0 <= i < j < |sessions| ==> sessions[i].gen < sessions[j].gen
  }

  /** How many sessions are of earlier generations. */
  function Before(sessions: seq<Session>, n: nat): nat {
    if n == 0 then 0
    else
      var k := Before(sessions, n - 1);
      if k < |sessions| && sessions[k].gen == n - 1 then k + 1 else k
  }

  lemma {:induction false} BeforeCounts(sessions: seq<Session>, n: nat)
    requires Sorted(sessions)
    ensures var k := Before(sessions, n);
      && k <= |sessions|
      && (forall i :: 0 <= i < k ==> sessions[i].gen < n)
      && (forall i :: k <= i < |sessions| ==> sessions[i].gen >= n)
  {
    if n > 0 {
      BeforeCounts(sessions, n - 1);
    }
  }

  /** What was read of the generations before one. */
  ghost function ReadBefore(s: State, n: nat): string
    requires Sorted(s.sessions)
  {
    BeforeCounts(s.sessions, n);
    TextOf(s.world, s.origin, s.sessions[..Before(s.sessions, n)])
  }

  /** All of a generation from where reading it starts. */
  function Whole(s: State, g: nat): string {
    Slice(s.world, s.origin, Session(g, |Content(s.world, g)|))
  }

  function WrittenBefore(s: State, n: nat): string {
    if n <= s.first then "" else WrittenBefore(s, n - 1) + Whole(s, n - 1)
  }

  lemma FullSnoc(s: State, n: nat)
    requires s.first < n <= |s.world.files|
    ensures |FullSessions(s)| == |s.world.files| - s.first
    ensures FullSessions(s)[..n - s.first]
         == FullSessions(s)[..n - 1 - s.first] + [Session(n - 1, |Content(s.world, n - 1)|)]
  {
    hide Content;
  }

  lemma {:induction false} HistoryBefore(s: State, n: nat)
    requires s.first <= n <= |s.world.files|
    ensures TextOf(s.world, s.origin, FullSessions(s)[..n - s.first]) == WrittenBefore(s, n)
  {
    if n > s.first {
      hide Slice, Content;
      HistoryBefore(s, n - 1);
      FullSnoc(s, n);
      SnocParts(FullSessions(s)[..n - 1 - s.first], Session(n - 1, |Content(s.world, n - 1)|));
    }
  }

  lemma AllWritten(s: State)
    requires s.first <= |s.world.files|
    ensures History(s) == WrittenBefore(s, |s.world.files|)
  {
    HistoryBefore(s, |s.world.files|);
    hide TextOf, WrittenBefore, Content;
    assert FullSessions(s)[..|s.world.files| - s.first] == FullSessions(s);
  }

  lemma AllReadBefore(s: State)
    requires SessionsOK(s)
    ensures Sorted(s.sessions) && ReadBefore(s, |s.world.files|) == TextOf(s.world, s.origin, s.sessions)
  {
    BeforeCounts(s.sessions, |s.world.files|);
    hide TextOf, Before;
    assert s.sessions[..|s.sessions|] == s.sessions;
  }

  lemma NothingBefore(s: State)
    requires Sorted(s.sessions) && forall i :: 0 <= i < |s.sessions| ==> s.first <= s.sessions[i].gen
    ensures ReadBefore(s, s.first) == ""
  {
    BeforeCounts(s.sessions, s.first);
  }

  lemma SlicePrefix(c: string, from: nat, end: nat)
    requires from <= end <= |c|
    ensures |c[from..end]| <= |c[from..]| && (c[from..end] == c[from..] <==> end == |c|)
  {
  }

  /** What was read of one more generation. */
  lemma ReadNext(s: State, g: nat)
    requires SessionsOK(s) && Sorted(s.sessions) && g < |s.world.files|
    ensures var k := Before(s.sessions, g);
      ReadBefore(s, g + 1) == ReadBefore(s, g)
        + if k < |s.sessions| && s.sessions[k].gen == g then Slice(s.world, s.origin, s.sessions[k]) else ""
  {
    BeforeCounts(s.sessions, g);
    var k := Before(s.sessions, g);
    if k < |s.sessions| && s.sessions[k].gen == g {
      assert s.sessions[..k + 1][..k] == s.sessions[..k];
    }
    EmptyConcat(ReadBefore(s, g));
    hide Slice, From, Content;
  }

  /** One generation is read as a whole exactly when it is settled. */
  lemma NextSettled(s: State, g: nat)
    requires SessionsOK(s) && Sorted(s.sessions) && g < |s.world.files|
    ensures var k := Before(s.sessions, g);
      var read := if k < |s.sessions| && s.sessions[k].gen == g then Slice(s.world, s.origin, s.sessions[k]) else "";
      |read| <= |Whole(s, g)| && (read == Whole(s, g) <==> Settled(s, g))
  {
    BeforeCounts(s.sessions, g);
    var k := Before(s.sessions, g);
    var c, from := Content(s.world, g), From(s.origin, g);
    if k < |s.sessions| && s.sessions[k].gen == g {
      OnlySession(s, g, k);
      SlicePrefix(c, from, s.sessions[k].end);
      hide Before;
      assert c[from..|c|] == c[from..];
      assert Settled(s, g) <==> ReadToEnd(s, g, k) || |c| <= from;
    } else {
      NoSession(s, g, k);
      assert from == 0;
      assert c[0..|c|] == c;
    }
  }

  lemma OnlySession(s: State, g: nat, k: nat)
    requires Sorted(s.sessions) && k < |s.sessions| && s.sessions[k].gen == g
    ensures forall i: nat :: ReadToEnd(s, g, i) ==> i == k
  {
    hide Content;
  }

  lemma NoSession(s: State, g: nat, k: nat)
    requires SessionsOK(s) && k <= |s.sessions|
    requires forall i :: 0 <= i < k ==> s.sessions[i].gen < g
    requires forall i :: k <= i < |s.sessions| ==> s.sessions[i].gen > g
    ensures From(s.origin, g) == 0 && forall i: nat :: !ReadToEnd(s, g, i)
  {
    hide Content;
  }

  lemma {:induction false} SettledBefore(s: State, n: nat)
    requires SessionsOK(s) && Sorted(s.sessions) && s.first <= n <= |s.world.files|
    requires forall i :: 0 <= i < |s.sessions| ==> s.first <= s.sessions[i].gen
    ensures |ReadBefore(s, n)| <= |WrittenBefore(s, n)|
    ensures ReadBefore(s, n) == WrittenBefore(s, n) <==> forall g: nat :: s.first <= g < n ==> Settled(s, g)
  {
    hide ReadBefore, Settled, Whole, Before, SessionsOK, Sorted, Slice;
    if n == s.first {
      NothingBefore(s);
    } else {
      var g := n - 1;
      SettledBefore(s, g);
      ReadNext(s, g);
      NextSettled(s, g);
      var k := Before(s.sessions, g);
      var read := if k < |s.sessions| && s.sessions[k].gen == g then Slice(s.world, s.origin, s.sessions[k]) else "";
      EqualParts(ReadBefore(s, g), read, WrittenBefore(s, g), Whole(s, g));
    }
  }

  ghost predicate AllSettled(s: State) {
    forall g: nat :: s.first <= g < |s.world.files| ==> Settled(s, g)
  }

  /** All that was written since the start is read exactly when every generation since then is settled. */
  lemma ReadsAllWhenSettled(s: State)
    requires Inv(s) && Anchored(s) && s.phase != Starting
    ensures s.consumed == History(s) <==> AllSettled(s)
  {
    ReadSoFar(s);
    hide Inv, SessionsOK, TextOf, Settled, WrittenBefore, ReadBefore, History;
    AllReadBefore(s);
    AllWritten(s);
    hide Sorted;
    SettledBefore(s, |s.world.files|);
  }

  lemma ReadSoFar(s: State)
    requires Inv(s)
    ensures SessionsOK(s) && s.consumed == TextOf(s.world, s.origin, s.sessions)
  {
  }

  // ---- giving up generations ------------------------------------------------------------------

  /** A generation that will not be read any further: neither held for reading nor at the path. */
  ghost predicate GivenUp(s: State, g: nat) {
    && s.phase != Starting && s.first <= g < |s.world.files|
    && !(Holds(s.file, g) && s.phase != Closing) && s.world.path != Some(g)
  }

  /** An action that takes a file away from the path. */
  ghost predicate Takes(s: State, a: Action, g: nat) {
    s.world.path == Some(g) && EnvNext(s.world, a).path != Some(g)
  }

  /**
    An action after which something written will never be read: writing to a generation that was
    given up, or taking one that holds something away from the path before it was opened.
   */
  ghost predicate Loses(s: State, a: Action) {
    && Enabled(s, a) && !IsTailer(a) && s.phase != Starting
    && if a.Append? then a.text != "" && GivenUp(s, a.gen)
       else exists g: nat :: Takes(s, a, g) && !Holds(s.file, g) && Content(s.world, g) != ""
  }

  ghost predicate LosslessRun(s: State, run: seq<Action>)
    decreases |run|
  {
    |run| > 0 ==> !Loses(s, run[0]) && LosslessRun(Step(s, run[0]), run[1..])
  }

  ghost predicate NothingLost(s: State) {
    forall g: nat :: GivenUp(s, g) ==> Settled(s, g)
  }

  lemma AppendPaths(w: World, a: Action)
    requires !IsTailer(a)
    ensures var v := EnvNext(w, a);
      && |v.files| >= |w.files|
      && (a.Append? ==> v.path == w.path && |v.files| == |w.files|)
      && (v.path.Some? ==> v.path == w.path || v.path.value == |w.files| == |v.files| - 1)
      && forall g: nat :: g < |w.files| ==>
           |Content(v, g)| >= |Content(w, g)| && (!(a.Append? && a.gen == g && a.text != "") ==> Content(v, g) == Content(w, g))
  {
  }

  lemma AppendGrows(w: World, g: nat, text: string)
    requires g < |w.files| && text != ""
    ensures |Content(EnvNext(w, Append(g, text)), g)| > |Content(w, g)|
  {
  }

  lemma EnvAnchored(s: State, w: World)
    requires Anchored(s) && |w.files| >= |s.world.files|
    requires w.path.Some? ==> w.path == s.world.path || w.path.value >= |s.world.files|
    ensures Anchored(s.(world := w))
  {
  }

  lemma ReadAnchored(s: State)
    requires Anchored(s)
    ensures Anchored(ReadHeld(s))
  {
    hide Chunk, ScanLines;
  }

  lemma OpensAnchored(s: State, ok: bool)
    requires Anchored(s) && WorldOK(s.world, s.file) && PhaseOK(s)
    ensures s.phase == Starting ==> Anchored(AfterStart(s))
    ensures s.phase == Seeking ==> Anchored(AfterSeek(s))
    ensures s.phase == Opening ==> Anchored(AfterOpen(s, ok))
  {
    hide Content;
  }

  lemma ReadsAnchored(s: State)
    requires Anchored(s) && s.phase != Starting && s.phase != Seeking
    ensures Anchored(AfterBegin(s)) && Anchored(AfterDrain(s)) && Anchored(AfterReread(s))
  {
    ReadAnchored(s);
    ReadFrame(s);
    hide ReadHeld, Lengths;
  }

  lemma OthersAnchored(s: State, ok: bool)
    requires Anchored(s) && s.phase != Starting && s.phase != Seeking
    ensures Anchored(AfterStat(s, ok)) && Anchored(AfterClose(s))
  {
    hide CheckRotation;
  }

  lemma TailerAnchored(s: State, a: Action)
    requires Anchored(s) && WorldOK(s.world, s.file) && PhaseOK(s) && Enabled(s, a) && IsTailer(a)
    ensures Anchored(TailerNext(s, a))
  {
    hide Anchored, WorldOK, PhaseOK, AfterStart, AfterSeek, AfterBegin, AfterStat, AfterDrain, AfterClose, AfterOpen, AfterReread;
    var ok := (a.Stat? || a.Open?) && a.ok;
    OpensAnchored(s, ok);
    if s.phase != Starting && s.phase != Seeking {
      ReadsAnchored(s);
      OthersAnchored(s, ok);
    }
  }

  lemma StepAnchored(s: State, a: Action)
    requires Inv(s) && Anchored(s)
    ensures Anchored(Step(s, a))
  {
    if Enabled(s, a) {
      hide Anchored;
      if IsTailer(a) {
        TailerAnchored(s, a);
      } else {
        AppendPaths(s.world, a);
        hide EnvNext;
        EnvAnchored(s, EnvNext(s.world, a));
      }
    }
  }

  /** A generation with something in it that will never be read. */
  ghost predicate Lost(s: State, g: nat) {
    GivenUp(s, g) && !Settled(s, g)
  }

  // ---- the tailer's own steps lose nothing -------------------------------------------------------

  lemma ReadSettles(s: State, g: nat)
    requires HeldOK(s) && SessionsOK(s) && s.phase != Seeking
    ensures Settled(s, g) ==> Settled(ReadHeld(s), g)
    ensures !Holds(s.file, g) ==> (Settled(ReadHeld(s), g) ==> Settled(s, g))
    ensures Holds(s.file, g) ==> Settled(ReadHeld(s), g)
  {
    var t := ReadHeld(s);
    ReadFrame(s);
    if s.file.Some? {
      ReadSessions(s);
      var n := |s.sessions| - 1;
      assert forall i :: 0 <= i < n ==> t.sessions[i] == s.sessions[i];
      if Holds(s.file, g) {
        assert ReadToEnd(t, g, n);
      } else {
        hide SessionsOK, Content, Chunk, ScanLines, From;
        assert forall i: nat :: ReadToEnd(s, g, i) <==> ReadToEnd(t, g, i);
      }
    } else {
      NothingToRead(s);
    }
  }

  /** The same sessions over the same world. */
  lemma SameSettled(s: State, t: State, g: nat)
    requires s.world == t.world && s.origin == t.origin && s.sessions == t.sessions
    ensures Settled(s, g) <==> Settled(t, g)
  {
    hide Content;
    assert forall i: nat :: ReadToEnd(s, g, i) <==> ReadToEnd(t, g, i);
  }

  lemma StartLost(s: State, g: nat)
    requires Inv(s) && s.phase == Starting
    ensures !Lost(s, g) && !Lost(AfterStart(s), g)
  {
    hide Settled, TextOf, InUse;
  }

  lemma SeekLost(s: State, g: nat)
    requires Inv(s) && Anchored(s) && s.phase == Seeking
    ensures Lost(AfterSeek(s), g) <==> Lost(s, g)
  {
    var t := AfterSeek(s);
    if g != s.file.value.gen {
      assert forall i: nat :: !ReadToEnd(s, g, i);
      assert forall i: nat :: !ReadToEnd(t, g, i);
      assert From(s.origin, g) == From(t.origin, g) == 0;
    }
    hide TextOf, WorldOK, ReadToEnd;
  }

  lemma SamePlace(s: State, t: State, g: nat)
    requires s.world == t.world && s.first == t.first && s.phase != Starting && t.phase != Starting
    requires Holds(s.file, g) && s.phase != Closing <==> Holds(t.file, g) && t.phase != Closing
    ensures GivenUp(s, g) <==> GivenUp(t, g)
  {
  }

  lemma ReadingLost(s: State, t: State, g: nat)
    requires Inv(s) && s.phase != Seeking && s.phase != Starting && s.phase != Closing && t.phase != Starting && t.phase != Closing
    requires t.world == s.world && t.first == s.first && t.origin == s.origin && t.sessions == ReadHeld(s).sessions
    requires t.file == ReadHeld(s).file
    ensures Lost(t, g) <==> Lost(s, g)
  {
    ReadFrame(s);
    HeldSame(s, g);
    ReadSettles(s, g);
    SameSettled(ReadHeld(s), t, g);
    SamePlace(s, t, g);
    hide Inv, ReadHeld, Settled;
  }

  lemma HeldSame(s: State, g: nat)
    ensures Holds(ReadHeld(s).file, g) <==> Holds(s.file, g)
  {
    hide Chunk, ScanLines;
  }

  lemma DrainLost(s: State, g: nat)
    requires Inv(s) && s.phase == Draining
    ensures Lost(AfterDrain(s), g) <==> Lost(s, g)
  {
    var t := AfterDrain(s);
    ReadFrame(s);
    HeldSame(s, g);
    ReadSettles(s, g);
    SameSettled(ReadHeld(s), t, g);
    hide Inv, ReadHeld, Settled;
    if !Holds(s.file, g) {
      SamePlace(s, t, g);
    }
  }

  lemma OpenLost(s: State, ok: bool, g: nat)
    requires Inv(s) && Anchored(s) && s.phase == Opening
    ensures Lost(AfterOpen(s, ok), g) <==> Lost(s, g)
  {
    var t := AfterOpen(s, ok);
    if ok && s.world.path.Some? && s.world.path.value != g {
      hide Inv, Content, From, Anchored;
      assert forall i: nat :: ReadToEnd(s, g, i) <==> ReadToEnd(t, g, i);
    } else if ok && s.world.path.Some? {
      hide Inv, Settled, Content, From, Anchored;
    } else {
      SameSettled(s, t, g);
      hide Inv, Settled, Anchored;
    }
  }

  lemma TailerLost(s: State, a: Action, g: nat)
    requires Inv(s) && Anchored(s) && Enabled(s, a) && IsTailer(a)
    ensures Lost(Step(s, a), g) <==> Lost(s, g)
  {
    var t := Step(s, a);
    match a {
      case Start => StartLost(s, g);
      case SeekEnd => SeekLost(s, g);
      case BeginCollect => BeginLost(s, g);
      case Stat(ok) => QuietLost(s, ok, g);
      case Drain => DrainLost(s, g);
      case Close => CloseLost(s, g);
      case Open(ok) => OpenLost(s, ok, g);
      case Reread => RereadLost(s, g);
    }
    hide Inv, Anchored, Lost;
  }

  lemma BeginLost(s: State, g: nat)
    requires Inv(s) && s.phase == Idle
    ensures Lost(AfterBegin(s), g) <==> Lost(s, g)
  {
    ReadFrame(s);
    hide Inv, ReadHeld, Lost, Lengths;
    ReadingLost(s, AfterBegin(s), g);
  }

  lemma RereadLost(s: State, g: nat)
    requires Inv(s) && s.phase == Rereading
    ensures Lost(AfterReread(s), g) <==> Lost(s, g)
  {
    ReadFrame(s);
    hide Inv, ReadHeld, Lost;
    ReadingLost(s, AfterReread(s), g);
  }

  lemma QuietLost(s: State, ok: bool, g: nat)
    requires s.phase == Statting
    ensures Lost(AfterStat(s, ok), g) <==> Lost(s, g)
  {
    hide CheckRotation, Settled;
    SameSettled(s, AfterStat(s, ok), g);
    SamePlace(s, AfterStat(s, ok), g);
  }

  lemma CloseLost(s: State, g: nat)
    requires s.phase == Closing
    ensures Lost(AfterClose(s), g) <==> Lost(s, g)
  {
    hide Settled;
    SameSettled(s, AfterClose(s), g);
    SamePlace(s, AfterClose(s), g);
  }

  // ---- what others do loses exactly in the two ways -----------------------------------------------

  lemma EnvSettled(s: State, w: World, g: nat)
    requires SessionsOK(s) && g < |s.world.files|
    requires |Content(w, g)| >= |Content(s.world, g)|
    ensures Content(w, g) == Content(s.world, g) ==> (Settled(s.(world := w), g) <==> Settled(s, g))
    ensures |Content(w, g)| > |Content(s.world, g)| ==> !Settled(s.(world := w), g)
  {
    var t := s.(world := w);
    assert forall i: nat :: i < |s.sessions| && s.sessions[i].gen == g ==> s.sessions[i].end <= |Content(s.world, g)|;
    StartsWithin(s, g);
    hide Content, SessionsOK, From;
    if Content(w, g) == Content(s.world, g) {
      assert forall i: nat :: ReadToEnd(t, g, i) <==> ReadToEnd(s, g, i);
    }
  }

  lemma StartsWithin(s: State, g: nat)
    requires SessionsOK(s) && g < |s.world.files|
    ensures From(s.origin, g) <= |Content(s.world, g)|
  {
  }

  /** Nothing of the file at the path is read before it is held. */
  lemma PathUnread(s: State, g: nat)
    requires Inv(s) && Anchored(s) && s.phase != Starting && s.world.path == Some(g) && !Holds(s.file, g)
    ensures From(s.origin, g) == 0 && forall i: nat :: !ReadToEnd(s, g, i)
  {
    hide TextOf, Content, InUse;
  }

  lemma PathNotClosing(s: State, g: nat)
    requires Inv(s) && s.phase == Closing && Holds(s.file, g)
    ensures s.world.path != Some(g)
  {
    hide TextOf, Content, InUse;
  }

  lemma AppendLost(s: State, a: Action, g: nat)
    requires Inv(s) && a.Append? && Enabled(s, a)
    ensures Lost(s, g) ==> Lost(Step(s, a), g)
    ensures Loses(s, a) && g == a.gen ==> Lost(Step(s, a), g)
    ensures !Loses(s, a) && Lost(Step(s, a), g) ==> Lost(s, g)
  {
    AppendPaths(s.world, a);
    if a.text != "" {
      AppendGrows(s.world, a.gen, a.text);
    }
    var w := EnvNext(s.world, a);
    if g < |s.world.files| {
      EnvSettled(s, w, g);
    }
    hide Inv, EnvNext, Content, Settled;
  }

  lemma MoveLost(s: State, a: Action, g: nat)
    requires Inv(s) && Anchored(s) && !IsTailer(a) && !a.Append? && Enabled(s, a)
    ensures Lost(s, g) ==> Lost(Step(s, a), g)
    ensures s.phase != Starting && Takes(s, a, g) && !Holds(s.file, g) && Content(s.world, g) != "" ==> Lost(Step(s, a), g)
    ensures !Loses(s, a) && Lost(Step(s, a), g) ==> Lost(s, g)
  {
    AppendPaths(s.world, a);
    PathNewest(s);
    var w := EnvNext(s.world, a);
    if g < |s.world.files| {
      EnvSettled(s, w, g);
    }
    if s.phase != Starting && s.world.path == Some(g) {
      if !Holds(s.file, g) {
        PathUnread(s, g);
        UnreadSettled(s, g);
      } else if s.phase == Closing {
        PathNotClosing(s, g);
      }
    }
    hide Inv, EnvNext, Content, Settled, ReadToEnd;
  }

  lemma PathNewest(s: State)
    requires Inv(s)
    ensures s.world.path.Some? ==> s.world.path.value < |s.world.files|
  {
  }

  lemma UnreadSettled(s: State, g: nat)
    requires From(s.origin, g) == 0 && forall i: nat :: !ReadToEnd(s, g, i)
    ensures Settled(s, g) <==> Content(s.world, g) == ""
  {
    hide Content;
  }

  /** A step loses something of some generation, or leaves exactly the same generations lost. */
  lemma StepLost(s: State, a: Action)
    requires Inv(s) && Anchored(s)
    ensures NothingLost(Step(s, a)) <==> NothingLost(s) && !Loses(s, a)
  {
    var t := Step(s, a);
    if Enabled(s, a) {
      if IsTailer(a) {
        hide Inv, Anchored, Lost, Step, Enabled;
        forall g: nat
          ensures Lost(t, g) <==> Lost(s, g)
        {
          TailerLost(s, a, g);
        }
      } else {
        EnvLost(s, a);
        hide Inv, Anchored, Lost, Step, Enabled, Loses;
      }
    }
    LostOrNot(s);
    LostOrNot(t);
    hide NothingLost, Lost, Inv, Anchored, Step, Enabled;
  }

  lemma LostOrNot(s: State)
    ensures NothingLost(s) <==> forall g: nat :: !Lost(s, g)
  {
    hide Settled, GivenUp;
    if forall g: nat :: !Lost(s, g) {
      forall g: nat | GivenUp(s, g)
        ensures Settled(s, g)
      {
        assert !Lost(s, g);
      }
    }
  }

  lemma EnvLost(s: State, a: Action)
    requires Inv(s) && Anchored(s) && Enabled(s, a) && !IsTailer(a)
    ensures (exists g: nat :: Lost(Step(s, a), g)) <==> (exists g: nat :: Lost(s, g)) || Loses(s, a)
  {
    hide Inv, Anchored, Lost, Step, Enabled, Takes, GivenUp;
    forall g: nat
      ensures Lost(s, g) ==> Lost(Step(s, a), g)
      ensures !Loses(s, a) && Lost(Step(s, a), g) ==> Lost(s, g)
    {
      LostBefore(s, a, g);
    }
    if Loses(s, a) {
      var g := LosesSome(s, a);
    }
  }

  lemma LostBefore(s: State, a: Action, g: nat)
    requires Inv(s) && Anchored(s) && Enabled(s, a) && !IsTailer(a)
    ensures Lost(s, g) ==> Lost(Step(s, a), g)
    ensures !Loses(s, a) && Lost(Step(s, a), g) ==> Lost(s, g)
  {
    hide Inv, Anchored, Lost, Step, Enabled, Loses;
    if a.Append? {
      AppendLost(s, a, g);
    } else {
      MoveLost(s, a, g);
    }
  }

  lemma LosesSome(s: State, a: Action) returns (g: nat)
    requires Inv(s) && Anchored(s) && Loses(s, a)
    ensures Lost(Step(s, a), g)
  {
    hide Inv, Anchored, Lost, Step, Takes, GivenUp;
    if a.Append? {
      g := a.gen;
      AppendLost(s, a, g);
    } else {
      g :| Takes(s, a, g) && !Holds(s.file, g) && Content(s.world, g) != "";
      MoveLost(s, a, g);
    }
  }

  lemma {:induction false} RunLost(s: State, run: seq<Action>)
    requires Inv(s) && Anchored(s)
    ensures Inv(Exec(s, run)) && Anchored(Exec(s, run))
    ensures NothingLost(Exec(s, run)) <==> NothingLost(s) && LosslessRun(s, run)
    decreases |run|
  {
    hide Inv, Anchored, NothingLost, Step, Loses;
    if |run| > 0 {
      StepKeeps(s, run[0]);
      StepAnchored(s, run[0]);
      StepLost(s, run[0]);
      RunLost(Step(s, run[0]), run[1..]);
    }
  }

  // ---- a tailer that caught up has read what is not given up ----------------------------------------

  /** Nothing was written since the latest collect began, whose calls succeeded so far. */
  ghost predicate Still(s: State) {
    s.smooth && s.phase != Starting && s.phase != Seeking && s.mark == Lengths(s.world)
  }

  /** What existed when the latest collect began still does. */
  ghost predicate MarkWithin(s: State) {
    |s.mark| <= |s.world.files| && forall g: nat :: g < |s.mark| ==> s.mark[g] <= |Content(s.world, g)|
  }

  ghost predicate HeldRead(s: State) {
    s.file.Some? ==> s.file.value.offset == |Content(s.world, s.file.value.gen)|
  }

  /** If nothing was written meanwhile, the held file is read, and at the end of a collect it is the one at the path. */
  ghost predicate Current(s: State) {
    && MarkWithin(s)
    && (s.phase == Starting || s.phase == Seeking ==> s.mark == [])
    && (Still(s) && s.phase != Rereading ==> HeldRead(s))
    && (Still(s) && (s.phase == Rereading || s.phase == Idle) ==>
          s.world.path.Some? ==> Holds(s.file, s.world.path.value))
  }

  lemma LengthsSame(s: State, w: World)
    requires MarkWithin(s) && s.mark == Lengths(w) && |w.files| >= |s.world.files|
    requires forall g: nat :: g < |s.world.files| ==> |Content(w, g)| >= |Content(s.world, g)|
    ensures s.mark == Lengths(s.world) && |w.files| == |s.world.files|
    ensures forall g: nat :: g < |s.world.files| ==> |Content(w, g)| == |Content(s.world, g)|
  {
    assert |s.mark| == |w.files|;
    forall g: nat | g < |s.world.files|
      ensures |Content(w, g)| == |Content(s.world, g)| == s.mark[g]
    {
      assert s.mark[g] == |w.files[g].content|;
    }
  }

  lemma EnvCurrent(s: State, a: Action)
    requires Current(s) && Inv(s) && Enabled(s, a) && !IsTailer(a)
    ensures Current(Step(s, a))
  {
    AppendPaths(s.world, a);
    var w := EnvNext(s.world, a);
    var t := s.(world := w);
    assert MarkWithin(t) by { hide Lengths, Content; }
    if Still(t) {
      LengthsSame(s, w);
    }
    HeldExists(s);
    hide Inv, EnvNext, Content, Lengths, MarkWithin;
  }

  lemma HeldExists(s: State)
    requires Inv(s)
    ensures s.file.Some? ==> s.file.value.gen < |s.world.files| && s.file.value.offset <= |Content(s.world, s.file.value.gen)|
  {
  }

  lemma ReadCurrent(s: State)
    requires Inv(s)
    ensures HeldRead(ReadHeld(s))
  {
    HeldExists(s);
    hide Inv, Content, ScanLines;
  }

  lemma LengthsMark(w: World)
    ensures forall g: nat :: g < |w.files| ==> Lengths(w)[g] == |Content(w, g)|
  {
  }

  lemma BeginCurrent(s: State)
    requires Inv(s) && s.phase == Idle
    ensures Current(AfterBegin(s))
  {
    ReadCurrent(s);
    ReadFrame(s);
    LengthsMark(s.world);
    hide Inv, ReadHeld, Content, Lengths;
  }

  lemma DrainCurrent(s: State)
    requires Current(s) && Inv(s) && s.phase == Draining
    ensures Current(AfterDrain(s))
  {
    ReadCurrent(s);
    ReadFrame(s);
    hide Inv, ReadHeld, Content, Lengths;
  }

  lemma RereadCurrent(s: State)
    requires Current(s) && Inv(s) && s.phase == Rereading
    ensures Current(AfterReread(s))
  {
    ReadCurrent(s);
    ReadFrame(s);
    if s.world.path.Some? {
      HeldSame(s, s.world.path.value);
    }
    hide Inv, ReadHeld, Content, Lengths;
  }

  lemma StatCurrent(s: State, ok: bool)
    requires Current(s) && Inv(s) && s.phase == Statting
    ensures Current(AfterStat(s, ok))
  {
    if s.file.Some? {
      RotationExact(s);
    } else {
      NothingHeld(s.world, s.ino);
    }
    hide Inv, Content, Lengths, CheckRotation;
  }

  lemma OpenCurrent(s: State, ok: bool)
    requires Current(s) && Inv(s) && (s.phase == Opening || s.phase == Closing)
    ensures s.phase == Opening ==> Current(AfterOpen(s, ok))
    ensures s.phase == Closing ==> Current(AfterClose(s))
  {
    hide Inv, Content, Lengths;
  }

  lemma StartCurrent(s: State)
    requires Current(s) && Inv(s)
    ensures s.phase == Starting ==> Current(AfterStart(s))
    ensures s.phase == Seeking ==> Current(AfterSeek(s))
  {
    if s.phase == Seeking {
      HeldExists(s);
    }
    NoneAtStart(s);
    hide Inv, Content;
  }

  lemma NoneAtStart(s: State)
    requires Inv(s)
    ensures s.phase == Starting ==> s.file.None?
    ensures s.phase == Seeking ==> s.file.Some?
    ensures s.world.path.Some? ==> s.world.path.value < |s.world.files|
  {
  }

  lemma StepCurrent(s: State, a: Action)
    requires Current(s) && Inv(s)
    ensures Current(Step(s, a))
  {
    if Enabled(s, a) {
      match a
      case Start => StartCurrent(s);
      case SeekEnd => StartCurrent(s);
      case BeginCollect => BeginCurrent(s);
      case Stat(ok) => StatCurrent(s, ok);
      case Drain => DrainCurrent(s);
      case Close => OpenCurrent(s, true);
      case Open(ok) => OpenCurrent(s, ok);
      case Reread => RereadCurrent(s);
      case _ => EnvCurrent(s, a);
    }
    hide Current, Inv, EnvNext;
  }

  lemma {:induction false} RunCurrent(s: State, run: seq<Action>)
    requires Current(s) && Inv(s)
    ensures Current(Exec(s, run))
    decreases |run|
  {
    hide Current, Inv, Step;
    if |run| > 0 {
      StepKeeps(s, run[0]);
      StepCurrent(s, run[0]);
      RunCurrent(Step(s, run[0]), run[1..]);
    }
  }

  lemma OthersSettled(s: State, g: nat)
    requires Inv(s) && Current(s) && CaughtUp(s) && s.first <= g < |s.world.files| && !GivenUp(s, g)
    ensures Settled(s, g)
  {
    assert Still(s);
    assert Holds(s.file, g);
    LastSession(s);
    assert ReadToEnd(s, g, |s.sessions| - 1);
    hide Inv, Content, Lengths;
  }

  lemma LastSession(s: State)
    requires Inv(s) && s.file.Some? && s.phase == Idle
    ensures |s.sessions| > 0 && s.sessions[|s.sessions| - 1] == Session(s.file.value.gen, s.file.value.offset)
  {
  }

  /**
    No loss, exactly: a tailer that caught up, whatever happened before, has read all that was
    written since the start if and only if nobody wrote to a file that was given up and no file
    was taken away from the path with something in it before it was opened.
   */
  lemma ReadsAllIffLossless(w: World, run: seq<Action>)
    requires WorldOK(w, None)
    ensures var s := Exec(Init(w), run);
      CaughtUp(s) ==> (s.consumed == History(s) <==> LosslessRun(Init(w), run))
  {
    InitKeeps(w);
    RunLost(Init(w), run);
    RunCurrent(Init(w), run);
    var s := Exec(Init(w), run);
    hide Exec, Inv, Anchored, Current, Settled, LosslessRun, History;
    if CaughtUp(s) {
      ReadsAllWhenSettled(s);
      forall g: nat | s.first <= g < |s.world.files| && !GivenUp(s, g)
        ensures Settled(s, g)
      {
        OthersSettled(s, g);
      }
      hide CaughtUp;
    }
  }

  // ---- runs without loss ------------------------------------------------------------------------------

  lemma {:induction false} LosslessConcat(s: State, a: seq<Action>, b: seq<Action>)
    ensures LosslessRun(s, a + b) <==> LosslessRun(s, a) && LosslessRun(Exec(s, a), b)
    decreases |a|
  {
    hide Step, Loses;
    if |a| == 0 {
      EmptyConcat(b);
    } else {
      LosslessConcat(Step(s, a[0]), a[1..], b);
      FirstOfConcat(a, b);
    }
  }

  lemma {:induction false} TailerLosesNothing(s: State, run: seq<Action>)
    requires forall i :: 0 <= i < |run| ==> IsTailer(run[i])
    ensures LosslessRun(s, run)
    decreases |run|
  {
    hide Step;
    if |run| > 0 {
      TailerLosesNothing(Step(s, run[0]), run[1..]);
    }
  }

  /** A gentle run loses nothing. */
  lemma GentleIsLossless(w: World, run: seq<Action>)
    requires WorldOK(w, None) && GentleRun(Init(w), run)
    ensures LosslessRun(Init(w), run)
  {
    hide Exec, GentleRun, LosslessRun, CatchUp, History, CaughtUp, WorldOK;
    QuietCollectReadsAll(w, run);
    var more := CatchUp(Exec(Init(w), run));
    ReadsAllIffLossless(w, run + more);
    LosslessConcat(Init(w), run, more);
  }

  /** From every state of a run without loss, finishing a collect and one more read all that was written. */
  lemma QuietLosslessReadsAll(w: World, run: seq<Action>)
    requires WorldOK(w, None) && LosslessRun(Init(w), run)
    ensures var s := Exec(Init(w), run);
      && (s.phase == Seeking ==> s.file.Some?)
      && var t := Exec(Init(w), run + CatchUp(s));
      && LosslessRun(Init(w), run + CatchUp(s)) && CaughtUp(t) && t.world == s.world && t.consumed == History(t)
  {
    hide Exec, GentleRun, LosslessRun, CatchUp, History, CaughtUp, WorldOK;
    var s := Exec(Init(w), run);
    SeekingHolds(w, run);
    CatchesUp(s);
    CatchUpWrites(s);
    TailerLosesNothing(s, CatchUp(s));
    LosslessConcat(Init(w), run, CatchUp(s));
    ExecConcat(Init(w), run, CatchUp(s));
    ReadsAllIffLossless(w, run + CatchUp(s));
  }
}

/**
  Tailing a rotating perfdata file as a transition system: single system calls of the
  tailer, interleaved with whatever a writer and a rotation tool do to the files.
  A disabled action changes nothing, so every sequence of actions is a run.
 */
module FileTailer {
  import opened Text

  /** A file generation; generations are numbered in the order they appear, inode numbers may repeat. */
  datatype Inode = Inode(ino: nat, content: string, linked: bool)

  /** All generations ever seen, and the one at the tracked path. */
  datatype World = World(files: seq<Inode>, path: Option<nat>)

  /** An open file description with its implicit offset. */
  datatype Fd = Fd(gen: nat, offset: nat)

  /** Where the tailer is: the system call it makes next. */
  datatype Phase = Starting | Seeking | Idle | Statting | Draining | Closing | Opening | Rereading

  /** One opening of a generation, and how far it was read. */
  datatype Session = Session(gen: nat, end: nat)

  /** The lines of one finished collect, and whether reopening failed. */
  datatype Batch = Batch(lines: seq<string>, failed: bool)

  /**
    `file` and `ino` are the tracked file's fields. The rest is history: the offset found
    at start (`origin`), the first generation that matters (`first`), the sessions so far, the
    text read in them, the lines of the collect in progress, the finished collects, and, for
    the latest collect, the file lengths when it began (`mark`) and whether its calls
    succeeded (`smooth`).
   */
  datatype State = State(
    world: World, file: Option<Fd>, ino: nat, phase: Phase,
    origin: Option<Fd>, first: nat, sessions: seq<Session>, consumed: string,
    current: seq<string>, batches: seq<Batch>, mark: seq<nat>, smooth: bool)

  datatype Action =
    // the writer and the rotation tool
    | Append(gen: nat, text: string)
    | Vanish
    | Unlink(gen: nat)
    | Publish(ino: nat, text: string, unlinkOld: bool)
    // the tailer
    | Start
    | SeekEnd
    | BeginCollect
    | Stat(ok: bool)
    | Drain
    | Close
    | Open(ok: bool)
    | Reread

  predicate IsTailer(a: Action) {
    a.Start? || a.SeekEnd? || a.BeginCollect? || a.Stat? || a.Drain? || a.Close? || a.Open? || a.Reread?
  }

  // ---- lines -----------------------------------------------------------------------

  function DropCR(s: string): string {
    if s != "" && s[|s| - 1] == '\r' then s[..|s| - 1] else s
  }

  /** `bufio.ScanLines`: an unterminated tail is a line too. */
  function ScanLines(s: string): seq<string>
    decreases |s|
  {
    if s == "" then []
    else
      var i := Find(s, '\n');
      if i < 0 then [DropCR(s)] else [DropCR(s[..i])] + ScanLines(s[i + 1..])
  }

  predicate LineEnded(s: string) {
    s == "" || s[|s| - 1] == '\n'
  }

  lemma FindInConcat(a: string, b: string)
    ensures var i := Find(a, '\n');
      && (i >= 0 ==> Find(a + b, '\n') == i)
      && (i < 0 ==> Find(a + b, '\n') == if Find(b, '\n') < 0 then -1 else |a| + Find(b, '\n'))
  {
    hide Find;
    var s := a + b;
    assert forall k :: 0 <= k < |a| ==> s[k] == a[k];
    assert forall k :: |a| <= k < |s| ==> s[k] == b[k - |a|];
    var i, j := Find(a, '\n'), Find(b, '\n');
    assert i >= 0 ==> s[i] == '\n';
    assert j >= 0 ==> s[|a| + j] == '\n';
  }

  lemma {:induction false} ScanConcat(a: string, b: string)
    requires LineEnded(a)
    ensures ScanLines(a + b) == ScanLines(a) + ScanLines(b)
    decreases |a|
  {
    if a == "" {
      EmptyConcat(b);
      EmptyConcat(ScanLines(b));
    } else {
      hide Find, DropCR;
      var i := Find(a, '\n');
      FindInConcat(a, b);
      ConcatSlices(a, b, i);
      ScanConcat(a[i + 1..], b);
      Regroup([DropCR(a[..i])], ScanLines(a[i + 1..]), ScanLines(b));
    }
  }

  lemma ConcatSlices(a: string, b: string, i: nat)
    requires i < |a|
    ensures (a + b)[..i] == a[..i] && (a + b)[i + 1..] == a[i + 1..] + b
  {
  }

  lemma DropOne(line: string)
    ensures DropCR(line + ['\r']) == line
    ensures line == "" || line[|line| - 1] != '\r' ==> DropCR(line) == line
  {
    SnocParts(line, '\r');
  }

  /** A line ends at its first newline; one carriage return before the newline goes too. */
  lemma LineEnds(line: string, rest: string)
    requires '\n' !in line
    ensures ScanLines(line + "\r\n" + rest) == [line] + ScanLines(rest)
    ensures line == "" || line[|line| - 1] != '\r' ==> ScanLines(line + "\n" + rest) == [line] + ScanLines(rest)
  {
    DropOne(line);
    hide DropCR, Find;
    FindAfter(line + ['\r'], '\n', rest);
    AroundSeparator(line + ['\r'], '\n', rest);
    FindAfter(line, '\n', rest);
    AroundSeparator(line, '\n', rest);
    assert line + "\r\n" + rest == line + ['\r'] + ['\n'] + rest;
    assert line + "\n" + rest == line + ['\n'] + rest;
  }

  lemma ScanUnroll(s: string)
    requires s != ""
    ensures var i := Find(s, '\n'); |ScanLines(s)| == if i < 0 then 1 else 1 + |ScanLines(s[i + 1..])|
  {
  }

  lemma {:induction false} ScanSplitLine(a: string, b: string)
    requires !LineEnded(a) && b != ""
    ensures |ScanLines(a + b)| == |ScanLines(a)| + |ScanLines(b)| - 1
    decreases |a|
  {
    hide Find, ScanLines;
    var i, j := Find(a, '\n'), Find(b, '\n');
    FindInConcat(a, b);
    ScanUnroll(a);
    ScanUnroll(a + b);
    if i >= 0 {
      ConcatSlices(a, b, i);
      ScanSplitLine(a[i + 1..], b);
    } else {
      ScanUnroll(b);
      if j >= 0 {
        DropConcat(a, b, j + 1);
      }
    }
  }

  lemma DropConcat(a: string, b: string, j: nat)
    requires j <= |b|
    ensures (a + b)[|a| + j..] == b[j..]
  {
  }

  /** Reading a text in two parts yields its lines exactly when the cut is at the end of a line. */
  lemma LinesOfParts(a: string, b: string)
    ensures ScanLines(a + b) == ScanLines(a) + ScanLines(b) <==> LineEnded(a) || b == ""
  {
    if LineEnded(a) {
      ScanConcat(a, b);
    } else if b == "" {
      EmptyConcat(a);
      EmptyConcat(ScanLines(a));
    } else {
      ScanSplitLine(a, b);
    }
  }

  // ---- steps -------------------------------------------------------------------------

  function Content(w: World, gen: nat): string {
    if gen < |w.files| then w.files[gen].content else ""
  }

  function Lengths(w: World): (ls: seq<nat>)
    ensures |ls| == |w.files|
    ensures forall g :: 0 <= g < |ls| ==> ls[g] == |w.files[g].content|
  {
    seq(|w.files|, g requires 0 <= g < |w.files| => |w.files[g].content|)
  }

  predicate Holds(file: Option<Fd>, gen: nat) {
    file.Some? && file.value.gen == gen
  }

  /** An inode number is taken while its file is linked somewhere or held open. */
  predicate InUse(w: World, file: Option<Fd>, gen: nat) {
    gen < |w.files| && (w.files[gen].linked || Holds(file, gen))
  }

  predicate FreeIno(w: World, file: Option<Fd>, ino: nat) {
    forall g: nat | g < |w.files| :: InUse(w, file, g) ==> w.files[g].ino != ino
  }

  function SetLinked(w: World, gen: nat, linked: bool): World {
    if gen < |w.files| then w.(files := w.files[gen := w.files[gen].(linked := linked)]) else w
  }

  /** `checkRotation`, when the path can be examined. */
  predicate CheckRotation(w: World, file: Option<Fd>, ino: nat) {
    match w.path
    case None => file.Some?
    case Some(g) => file.None? || (g < |w.files| && w.files[g].ino != ino)
  }

  predicate Enabled(s: State, a: Action) {
    match a
    case Append(g, _) => g < |s.world.files|
    case Vanish => s.world.path.Some?
    case Unlink(g) => g < |s.world.files|
    case Publish(ino, _, _) => FreeIno(s.world, s.file, ino)
    case Start => s.phase == Starting
    case SeekEnd => s.phase == Seeking
    case BeginCollect => s.phase == Idle
    case Stat(_) => s.phase == Statting
    case Drain => s.phase == Draining
    case Close => s.phase == Closing
    case Open(_) => s.phase == Opening
    case Reread => s.phase == Rereading
  }

  function EnvNext(w: World, a: Action): World {
    match a
    case Append(g, text) =>
      if g < |w.files| then w.(files := w.files[g := w.files[g].(content := w.files[g].content + text)]) else w
    case Vanish => w.(path := None)
    case Unlink(g) =>
      SetLinked(w, g, false).(path := if w.path == Some(g) then None else w.path)
    case Publish(ino, text, unlinkOld) =>
      var kept := if unlinkOld && w.path.Some? then SetLinked(w, w.path.value, false) else w;
      World(kept.files + [Inode(ino, text, true)], Some(|kept.files|))
    case _ => w
  }

  function ExtendLast(sessions: seq<Session>, end: nat): seq<Session> {
    if |sessions| == 0 then [] else sessions[|sessions| - 1 := sessions[|sessions| - 1].(end := end)]
  }

  function Chunk(w: World, fd: Fd): string {
    var c := Content(w, fd.gen);
    if fd.offset <= |c| then c[fd.offset..] else ""
  }

  /** `readLines`: everything from the offset to the end of the file. */
  function ReadHeld(s: State): State {
    if s.file.None? then s
    else
      var fd := s.file.value;
      var chunk := Chunk(s.world, fd);
      var end := fd.offset + |chunk|;
      s.(file := Some(Fd(fd.gen, end)), sessions := ExtendLast(s.sessions, end),
         consumed := s.consumed + chunk, current := s.current + ScanLines(chunk))
  }

  function Finish(s: State, failed: bool): State {
    s.(phase := Idle, current := [], batches := s.batches + [Batch(s.current, failed)])
  }

  function InoAt(w: World, gen: nat): nat {
    if gen < |w.files| then w.files[gen].ino else 0
  }

  function OpenPath(s: State): State {
    match s.world.path
    case None => s.(file := None)
    case Some(g) => s.(file := Some(Fd(g, 0)), ino := InoAt(s.world, g))
  }

  /** `initTracker`: opening ... */
  function AfterStart(s: State): State {
    var t := OpenPath(s);
    t.(phase := if t.file.Some? then Seeking else Idle,
       first := if t.file.Some? then t.file.value.gen else |s.world.files|)
  }

  /** ... and seeking to the end. */
  function AfterSeek(s: State): State {
    if s.file.None? then s
    else
      var g := s.file.value.gen;
      var end := |Content(s.world, g)|;
      s.(phase := Idle, file := Some(Fd(g, end)), origin := Some(Fd(g, end)), sessions := [Session(g, end)])
  }

  /** `readNewLinesFromTracker`: reading the held file ... */
  function AfterBegin(s: State): State {
    ReadHeld(s).(phase := Statting, mark := Lengths(s.world), smooth := true)
  }

  /** ... checking for rotation, which a failing stat denies ... */
  function AfterStat(s: State, ok: bool): State {
    if ok && CheckRotation(s.world, s.file, s.ino) then s.(phase := if s.file.Some? then Draining else Opening)
    else Finish(s.(smooth := s.smooth && ok), false)
  }

  /** ... draining and closing the old file ... */
  function AfterDrain(s: State): State {
    ReadHeld(s).(phase := Closing)
  }

  function AfterClose(s: State): State {
    s.(phase := Opening, file := None)
  }

  /** ... opening the path, which may be missing or fail ... */
  function AfterOpen(s: State, ok: bool): State {
    if !ok then Finish(s.(smooth := false), true)
    else
      var t := OpenPath(s);
      if t.file.None? then Finish(s, false)
      else t.(phase := Rereading, sessions := s.sessions + [Session(t.file.value.gen, 0)])
  }

  /** ... and reading the new file. */
  function AfterReread(s: State): State {
    Finish(ReadHeld(s), false)
  }

  function TailerNext(s: State, a: Action): State {
    match a
    case Start => AfterStart(s)
    case SeekEnd => AfterSeek(s)
    case BeginCollect => AfterBegin(s)
    case Stat(ok) => AfterStat(s, ok)
    case Drain => AfterDrain(s)
    case Close => AfterClose(s)
    case Open(ok) => AfterOpen(s, ok)
    case Reread => AfterReread(s)
    case _ => s
  }

  function Step(s: State, a: Action): State {
    if !Enabled(s, a) then s
    else if IsTailer(a) then TailerNext(s, a)
    else s.(world := EnvNext(s.world, a))
  }

  function Exec(s: State, run: seq<Action>): State
    decreases |run|
  {
    if |run| == 0 then s else Exec(Step(s, run[0]), run[1..])
  }

  function Init(w: World): State {
    State(w, None, 0, Starting, None, 0, [], "", [], [], [], true)
  }

  lemma {:induction false} ExecConcat(s: State, a: seq<Action>, b: seq<Action>)
    ensures Exec(s, a + b) == Exec(Exec(s, a), b)
    decreases |a|
  {
    hide Step;
    if |a| == 0 {
      EmptyConcat(b);
    } else {
      ExecConcat(Step(s, a[0]), a[1..], b);
      assert (a + b)[1..] == a[1..] + b;
    }
  }

  lemma ExecOne(s: State, a: Action)
    ensures Exec(s, [a]) == Step(s, a)
  {
    assert [a][1..] == [];
  }

  lemma ExecSnoc(s: State, run: seq<Action>, a: Action)
    ensures Exec(s, run + [a]) == Step(Exec(s, run), a)
  {
    ExecConcat(s, run, [a]);
    ExecOne(Exec(s, run), a);
  }

  // ---- invariants ----------------------------------------------------------------------

  /** The path names the newest generation or nothing; inode numbers in use are distinct. */
  ghost predicate WorldOK(w: World, file: Option<Fd>) {
    && (w.path.Some? ==> w.path.value + 1 == |w.files| && w.files[w.path.value].linked)
    && (forall g: nat, h: nat :: InUse(w, file, g) && InUse(w, file, h) && g != h ==> w.files[g].ino != w.files[h].ino)
  }

  ghost predicate HeldOK(s: State) {
    s.file.Some? ==>
      var fd := s.file.value;
      && fd.gen < |s.world.files| && fd.offset <= |s.world.files[fd.gen].content|
      && s.ino == s.world.files[fd.gen].ino
      && (s.phase != Seeking ==> |s.sessions| > 0 && s.sessions[|s.sessions| - 1] == Session(fd.gen, fd.offset))
  }

  ghost predicate PhaseOK(s: State) {
    && (s.phase == Idle ==> s.current == [])
    && (s.phase == Starting || s.phase == Opening ==> s.file.None?)
    && (s.phase == Seeking || s.phase == Draining || s.phase == Closing || s.phase == Rereading ==> s.file.Some?)
    && (s.phase == Starting || s.phase == Seeking ==>
          s.sessions == [] && s.consumed == "" && s.origin == None && s.current == [] && s.batches == [] && s.mark == [])
  }

  /** Where reading of a generation starts: at its beginning, except for the one present at start. */
  function From(origin: Option<Fd>, gen: nat): nat {
    if origin.Some? && origin.value.gen == gen then origin.value.offset else 0
  }

  /** Each generation is opened at most once, in order, and read up to a point within its content. */
  ghost predicate SessionsOK(s: State) {
    && (forall i :: 0 <= i < |s.sessions| ==>
          && s.sessions[i].gen < |s.world.files|
          && From(s.origin, s.sessions[i].gen) <= s.sessions[i].end <= |s.world.files[s.sessions[i].gen].content|)
    && (forall i, j :: 0 <= i < j < |s.sessions| ==> s.sessions[i].gen < s.sessions[j].gen)
    && (s.origin.Some? ==> |s.sessions| > 0 && s.sessions[0].gen == s.origin.value.gen)
  }

  /** Once the held generation is given up, the path can only name a later one. */
  ghost predicate PathMovesOn(s: State) {
    (s.file.None? || s.phase == Draining || s.phase == Closing) && s.world.path.Some? && |s.sessions| > 0
    ==> s.sessions[|s.sessions| - 1].gen < s.world.path.value
  }

  function Slice(w: World, origin: Option<Fd>, x: Session): string {
    var c, from := Content(w, x.gen), From(origin, x.gen);
    if from <= x.end <= |c| then c[from..x.end] else ""
  }

  /** The text of a list of sessions, in order. */
  function TextOf(w: World, origin: Option<Fd>, sessions: seq<Session>): string {
    if |sessions| == 0 then ""
    else TextOf(w, origin, sessions[..|sessions| - 1]) + Slice(w, origin, sessions[|sessions| - 1])
  }

  ghost predicate Inv(s: State) {
    && WorldOK(s.world, s.file) && HeldOK(s) && PhaseOK(s) && SessionsOK(s) && PathMovesOn(s)
    && s.consumed == TextOf(s.world, s.origin, s.sessions)
  }

  lemma IsInv(s: State)
    requires WorldOK(s.world, s.file) && HeldOK(s) && PhaseOK(s) && SessionsOK(s) && PathMovesOn(s)
    requires s.consumed == TextOf(s.world, s.origin, s.sessions)
    ensures Inv(s)
  {
  }

  /** A world that only grew, as far as file contents and inode numbers go. */
  ghost predicate Grown(v: World, w: World) {
    && |v.files| <= |w.files|
    && forall g :: 0 <= g < |v.files| ==> v.files[g].content <= w.files[g].content && v.files[g].ino == w.files[g].ino
  }

  lemma {:induction false} TextStable(v: World, w: World, origin: Option<Fd>, sessions: seq<Session>)
    requires Grown(v, w)
    requires forall i :: 0 <= i < |sessions| ==>
      && sessions[i].gen < |v.files|
      && From(origin, sessions[i].gen) <= sessions[i].end <= |v.files[sessions[i].gen].content|
    ensures TextOf(v, origin, sessions) == TextOf(w, origin, sessions)
  {
    if |sessions| > 0 {
      var init, x := sessions[..|sessions| - 1], sessions[|sessions| - 1];
      TextStable(v, w, origin, init);
      SliceStable(v.files[x.gen].content, w.files[x.gen].content, From(origin, x.gen), x.end);
    }
  }

  lemma SliceStable(c: string, d: string, from: nat, to: nat)
    requires c <= d && from <= to <= |c|
    ensures c[from..to] == d[from..to]
  {
  }

  lemma EnvGrows(w: World, a: Action)
    ensures Grown(w, EnvNext(w, a))
  {
  }

  lemma EnvKeepsWorld(s: State, a: Action)
    requires WorldOK(s.world, s.file) && Enabled(s, a) && !IsTailer(a)
    ensures WorldOK(EnvNext(s.world, a), s.file)
  {
    var w, w' := s.world, EnvNext(s.world, a);
    EnvGrows(w, a);
    forall g: nat | g < |w.files| && InUse(w', s.file, g)
      ensures InUse(w, s.file, g) && w'.files[g].ino == w.files[g].ino
    {
      LinkedBefore(w, a, g);
    }
    if a.Publish? {
      forall g: nat | InUse(w', s.file, g) && g < |w.files|
        ensures w'.files[g].ino != a.ino
      {
        LinkedBefore(w, a, g);
        assert InUse(w, s.file, g);
      }
    }
  }

  /** No action links an old file again. */
  lemma LinkedBefore(w: World, a: Action, g: nat)
    requires g < |w.files| && !IsTailer(a)
    ensures |EnvNext(w, a).files| >= |w.files|
    ensures var f := EnvNext(w, a).files[g]; f.ino == w.files[g].ino && (f.linked ==> w.files[g].linked)
  {
  }

  lemma HeldUnderGrowth(s: State, w: World)
    requires HeldOK(s) && Grown(s.world, w)
    ensures HeldOK(s.(world := w))
  {
  }

  lemma SessionsUnderGrowth(s: State, w: World)
    requires SessionsOK(s) && Grown(s.world, w)
    ensures SessionsOK(s.(world := w))
  {
    hide From;
  }

  /** What the environment does keeps the invariant: contents only grow, and the path only moves to new files. */
  lemma EnvKeeps(s: State, a: Action)
    requires Inv(s) && Enabled(s, a) && !IsTailer(a)
    ensures Inv(Step(s, a))
  {
    var w := EnvNext(s.world, a);
    EnvKeepsWorld(s, a);
    EnvGrows(s.world, a);
    EnvPath(s.world, a);
    HeldUnderGrowth(s, w);
    SessionsUnderGrowth(s, w);
    hide EnvNext, Enabled, WorldOK, From, Grown, HeldOK;
    TextStable(s.world, w, s.origin, s.sessions);
  }

  lemma EnvPath(w: World, a: Action)
    requires !IsTailer(a)
    ensures var p := EnvNext(w, a).path; p.Some? ==> p == w.path || p.value == |w.files|
  {
  }

  lemma ReadSessions(s: State)
    requires SessionsOK(s) && HeldOK(s) && s.file.Some? && s.phase != Seeking
    ensures SessionsOK(ReadHeld(s)) && HeldOK(ReadHeld(s))
    ensures ReadHeld(s).file == Some(Fd(s.file.value.gen, |s.world.files[s.file.value.gen].content|))
  {
    hide ScanLines;
  }

  lemma ReadText(s: State)
    requires SessionsOK(s) && HeldOK(s) && s.file.Some? && s.phase != Seeking
    requires s.consumed == TextOf(s.world, s.origin, s.sessions)
    ensures var t := ReadHeld(s); t.consumed == TextOf(t.world, t.origin, t.sessions)
  {
    hide ScanLines, From;
    var t := ReadHeld(s);
    var n := |s.sessions| - 1;
    var fd := s.file.value;
    var c := s.world.files[fd.gen].content;
    assert t.sessions[..n] == s.sessions[..n];
    SliceExtends(c, From(s.origin, fd.gen), fd.offset);
    Regroup(TextOf(s.world, s.origin, s.sessions[..n]), c[From(s.origin, fd.gen)..fd.offset], c[fd.offset..]);
  }

  lemma SameHolder(w: World, file: Option<Fd>, other: Option<Fd>)
    requires WorldOK(w, file)
    requires other.Some? ==> file.Some? && other.value.gen == file.value.gen
    ensures WorldOK(w, other)
  {
    assert forall g: nat :: InUse(w, other, g) ==> InUse(w, file, g);
  }

  lemma ReadKeeps(s: State)
    requires Inv(s) && s.file.Some? && s.phase != Seeking && s.phase != Idle
    ensures Inv(ReadHeld(s))
  {
    ReadSessions(s);
    ReadText(s);
    SameHolder(s.world, s.file, ReadHeld(s).file);
    hide WorldOK, HeldOK, SessionsOK, TextOf, ScanLines, Chunk;
  }

  lemma SliceExtends(c: string, from: nat, to: nat)
    requires from <= to <= |c|
    ensures c[from..to] + c[to..] == c[from..|c|]
  {
  }

  // ---- the tailer's own steps ---------------------------------------------------------

  /**
    Rotation detection is exact: while a file is held, its inode number cannot be taken by
    another file, so comparing inode numbers compares generations.
   */
  lemma RotationExact(s: State)
    requires Inv(s) && s.file.Some?
    ensures CheckRotation(s.world, s.file, s.ino) <==> s.world.path != Some(s.file.value.gen)
  {
    if s.world.path.Some? {
      assert InUse(s.world, s.file, s.world.path.value) && InUse(s.world, s.file, s.file.value.gen);
    }
  }

  lemma NothingToRead(s: State)
    requires s.file.None?
    ensures ReadHeld(s) == s
  {
  }

  lemma SmoothKeeps(s: State, smooth: bool)
    requires Inv(s)
    ensures Inv(s.(smooth := smooth))
  {
    SessionsOnly(s, s.(smooth := smooth));
    hide TextOf, WorldOK, From, SessionsOK;
    IsInv(s.(smooth := smooth));
  }

  lemma StatKeeps(s: State, ok: bool)
    requires Inv(s) && s.phase == Statting
    ensures Inv(AfterStat(s, ok))
  {
    if ok && CheckRotation(s.world, s.file, s.ino) {
      if s.file.Some? {
        RotationExact(s);
      }
      hide TextOf, WorldOK, ScanLines, From, Inv;
      IsInv(AfterStat(s, ok));
    } else {
      var smooth := s.smooth && ok;
      SmoothKeeps(s, smooth);
      hide Inv, CheckRotation;
      FinishKeeps(s.(smooth := smooth), false);
    }
  }

  lemma OpenWorld(s: State)
    requires WorldOK(s.world, s.file) && s.file.None?
    ensures WorldOK(s.world, OpenPath(s).file)
  {
    assert forall g: nat :: InUse(s.world, OpenPath(s).file, g) ==> InUse(s.world, s.file, g);
  }

  lemma OpenText(w: World, origin: Option<Fd>, sessions: seq<Session>, g: nat)
    requires From(origin, g) == 0
    ensures TextOf(w, origin, sessions + [Session(g, 0)]) == TextOf(w, origin, sessions)
  {
    var all := sessions + [Session(g, 0)];
    assert all[..|all| - 1] == sessions;
    EmptyConcat(TextOf(w, origin, sessions));
  }

  lemma OpenSessions(s: State)
    requires SessionsOK(s) && WorldOK(s.world, s.file) && PathMovesOn(s) && s.file.None? && s.world.path.Some?
    ensures var g := s.world.path.value;
      && From(s.origin, g) == 0
      && SessionsOK(s.(sessions := s.sessions + [Session(g, 0)]))
  {
    hide InUse;
  }

  lemma OpenKeeps(s: State, ok: bool)
    requires Inv(s) && s.phase == Opening
    ensures Inv(AfterOpen(s, ok))
  {
    if ok && s.world.path.Some? {
      ReopenKeeps(s);
    } else {
      hide TextOf, WorldOK, ScanLines, From, SessionsOK;
      SessionsOnly(s, AfterOpen(s, ok));
      hide Inv;
      IsInv(AfterOpen(s, ok));
    }
  }

  lemma ReopenKeeps(s: State)
    requires Inv(s) && s.phase == Opening && s.world.path.Some?
    ensures Inv(AfterOpen(s, true))
  {
    var g := s.world.path.value;
    var t := AfterOpen(s, true);
    OpenWorld(s);
    OpenSessions(s);
    OpenedHeld(s);
    OpenText(s.world, s.origin, s.sessions, g);
    hide TextOf, WorldOK, ScanLines, From, SessionsOK;
    SessionsOnly(s.(sessions := s.sessions + [Session(g, 0)]), t);
    hide Inv;
    IsInv(t);
  }

  lemma OpenedHeld(s: State)
    requires WorldOK(s.world, s.file)
    ensures var t := OpenPath(s);
      t.file.Some? ==> t.file.value.gen < |s.world.files| && t.ino == s.world.files[t.file.value.gen].ino
  {
  }

  lemma StartKeeps(s: State)
    requires Inv(s) && s.phase == Starting
    ensures Inv(AfterStart(s))
  {
    OpenWorld(s);
    OpenedHeld(s);
    hide WorldOK, Inv;
    IsInv(AfterStart(s));
  }

  lemma SeekKeeps(s: State)
    requires Inv(s) && s.phase == Seeking
    ensures Inv(AfterSeek(s))
  {
    var t := AfterSeek(s);
    SameHolder(s.world, s.file, t.file);
    assert t.sessions[..0] == [];
    assert Slice(t.world, t.origin, t.sessions[0]) == "";
    hide WorldOK, Inv;
    IsInv(t);
  }

  lemma CloseKeeps(s: State)
    requires Inv(s) && s.phase == Closing
    ensures Inv(AfterClose(s))
  {
    SameHolder(s.world, s.file, None);
    hide WorldOK, TextOf, From, Inv;
    IsInv(AfterClose(s));
  }

  lemma MaybeReadKeeps(s: State)
    requires Inv(s) && s.phase != Seeking && s.phase != Idle
    ensures Inv(ReadHeld(s))
  {
    if s.file.Some? {
      ReadKeeps(s);
    } else {
      NothingToRead(s);
    }
  }

  /** Reading changes neither the world nor where the tailer is. */
  lemma ReadFrame(s: State)
    ensures var t := ReadHeld(s);
      && t.world == s.world && t.phase == s.phase && t.origin == s.origin && t.ino == s.ino && t.first == s.first
      && t.mark == s.mark && t.smooth == s.smooth && t.batches == s.batches && |t.sessions| == |s.sessions| && t.file.Some? == s.file.Some?
      && forall i :: 0 <= i < |s.sessions| ==> t.sessions[i].gen == s.sessions[i].gen
  {
  }

  lemma SessionsOnly(s: State, t: State)
    requires SessionsOK(s) && s.world == t.world && s.origin == t.origin && s.sessions == t.sessions
    ensures SessionsOK(t)
  {
  }

  lemma MoveKeeps(s: State, phase: Phase, mark: seq<nat>, smooth: bool)
    requires Inv(s) && (s.phase == Idle || s.phase == Draining)
    requires phase == Statting || (phase == Closing && s.phase == Draining)
    ensures Inv(s.(phase := phase, mark := mark, smooth := smooth))
  {
    var t := s.(phase := phase, mark := mark, smooth := smooth);
    SessionsOnly(s, t);
    hide WorldOK, TextOf, From, SessionsOK;
    IsInv(t);
  }

  lemma ReadingKeeps(s: State, phase: Phase, mark: seq<nat>, smooth: bool)
    requires Inv(s) && (s.phase == Idle || s.phase == Draining)
    requires phase == Statting || (phase == Closing && s.phase == Draining)
    ensures Inv(ReadHeld(s).(phase := phase, mark := mark, smooth := smooth))
  {
    hide Inv, ReadHeld;
    MoveKeeps(s, phase, mark, smooth);
    MaybeReadKeeps(s.(phase := phase, mark := mark, smooth := smooth));
    ReadMoves(s, phase, mark, smooth);
  }

  lemma ReadMoves(s: State, phase: Phase, mark: seq<nat>, smooth: bool)
    ensures ReadHeld(s.(phase := phase, mark := mark, smooth := smooth))
         == ReadHeld(s).(phase := phase, mark := mark, smooth := smooth)
  {
    hide ScanLines, Chunk;
  }

  lemma FinishKeeps(s: State, failed: bool)
    requires Inv(s) && (s.phase == Statting || s.phase == Opening || s.phase == Rereading)
    ensures Inv(Finish(s, failed))
  {
    SessionsOnly(s, Finish(s, failed));
    hide WorldOK, TextOf, From, SessionsOK;
    IsInv(Finish(s, failed));
  }

  lemma RereadKeeps(s: State)
    requires Inv(s) && s.phase == Rereading
    ensures Inv(AfterReread(s))
  {
    MaybeReadKeeps(s);
    ReadFrame(s);
    FinishKeeps(ReadHeld(s), false);
  }

  lemma DrainKeeps(s: State)
    requires Inv(s) && s.phase == Draining
    ensures Inv(AfterDrain(s))
  {
    ReadingKeeps(s, Closing, s.mark, s.smooth);
    ReadFrame(s);
    hide Inv, ReadHeld;
  }

  lemma StepKeeps(s: State, a: Action)
    requires Inv(s)
    ensures Inv(Step(s, a))
  {
    if Enabled(s, a) {
      match a
      case Stat(ok) => StatKeeps(s, ok);
      case Open(ok) => OpenKeeps(s, ok);
      case Start => StartKeeps(s);
      case SeekEnd => SeekKeeps(s);
      case Close => CloseKeeps(s);
      case BeginCollect => ReadingKeeps(s, Statting, Lengths(s.world), true);
      case Drain => DrainKeeps(s);
      case Reread => RereadKeeps(s);
      case _ => EnvKeeps(s, a);
    }
    hide Inv, EnvNext;
  }

  lemma {:induction false} ExecKeeps(s: State, run: seq<Action>)
    requires Inv(s)
    ensures Inv(Exec(s, run))
    decreases |run|
  {
    hide Inv, Step;
    if |run| > 0 {
      StepKeeps(s, run[0]);
      ExecKeeps(Step(s, run[0]), run[1..]);
    }
  }

  lemma InitKeeps(w: World)
    requires WorldOK(w, None)
    ensures Inv(Init(w))
  {
  }

  /**
    Conservation, for every interleaving of writer, rotation tool and tailer: what was read
    is the concatenation, over the generations opened, of one stretch of each; generations are
    opened in order and once each, so no byte is read twice; a stretch starts at the file's
    beginning, or, for the generation present at start, at its end then.
   */
  lemma Conservation(w: World, run: seq<Action>)
    requires WorldOK(w, None)
    ensures var s := Exec(Init(w), run);
      && s.consumed == TextOf(s.world, s.origin, s.sessions)
      && (forall i, j :: 0 <= i < j < |s.sessions| ==> s.sessions[i].gen < s.sessions[j].gen)
      && (forall i :: 0 <= i < |s.sessions| ==>
            From(s.origin, s.sessions[i].gen) <= s.sessions[i].end <= |Content(s.world, s.sessions[i].gen)|)
      && (forall i :: 1 <= i < |s.sessions| ==> From(s.origin, s.sessions[i].gen) == 0)
      && (s.file.Some? && s.phase != Seeking ==>
            s.sessions != [] && s.sessions[|s.sessions| - 1] == Session(s.file.value.gen, s.file.value.offset))
  {
    InitKeeps(w);
    ExecKeeps(Init(w), run);
    hide Exec, TextOf, WorldOK;
  }

  /** In every reachable state with a held file, rotation is detected exactly. */
  lemma RotationDetected(w: World, run: seq<Action>)
    requires WorldOK(w, None)
    ensures var s := Exec(Init(w), run);
      s.file.Some? ==> (CheckRotation(s.world, s.file, s.ino) <==> s.world.path != Some(s.file.value.gen))
  {
    InitKeeps(w);
    ExecKeeps(Init(w), run);
    hide Exec, Inv, CheckRotation;
    var s := Exec(Init(w), run);
    if s.file.Some? {
      RotationExact(s);
    }
  }
}

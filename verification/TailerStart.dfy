/**
  Where reading starts: at the end of the file that is there when the tailer starts, and at the
  beginning of every file that comes later.
 */
module TailerStart {
  import opened Text
  import opened FileTailer
  import opened TailerDelivery
  import TailerLoss

  // ---- the call that fixes the start ----------------------------------------------------------

  /** In this state, seeking skips all that the held file holds. */
  ghost predicate SeeksTo(t: State, origin: Option<Fd>) {
    && t.phase == Seeking && t.file.Some? && t.file.value.gen < |t.world.files|
    && origin == Some(Fd(t.file.value.gen, |t.world.files[t.file.value.gen].content|))
  }

  lemma OtherOrigin(s: State, a: Action)
    requires a != SeekEnd
    ensures Step(s, a).origin == s.origin
  {
    ReadFrame(s);
    hide ReadHeld, CheckRotation, EnvNext, Lengths;
  }

  lemma SeekOrigin(s: State)
    requires Inv(s) && s.phase == Seeking
    ensures s.origin.None? && SeeksTo(s, AfterSeek(s).origin)
  {
    HeldExistsHere(s);
    hide TextOf, WorldOK, SessionsOK, PathMovesOn;
  }

  lemma OriginStep(s: State, a: Action)
    requires Inv(s)
    ensures s.origin.Some? ==> Step(s, a).origin == s.origin
    ensures s.origin.None? && Step(s, a).origin.Some? ==> a == SeekEnd && SeeksTo(s, Step(s, a).origin)
  {
    hide Inv, SeeksTo, AfterSeek;
    if a != SeekEnd {
      OtherOrigin(s, a);
    } else if s.phase == Seeking {
      SeekOrigin(s);
    }
  }

  lemma HeldExistsHere(s: State)
    requires Inv(s)
    ensures s.file.Some? ==> s.file.value.gen < |s.world.files|
  {
  }

  lemma ReachesInv(w: World, run: seq<Action>)
    requires WorldOK(w, None)
    ensures Inv(Exec(Init(w), run))
  {
    InitKeeps(w);
    ExecKeeps(Init(w), run);
  }

  lemma PrefixOfSnoc<T>(xs: seq<T>, x: T, k: nat)
    requires k <= |xs|
    ensures (xs + [x])[..k] == xs[..k] && (k < |xs| ==> (xs + [x])[k] == xs[k])
  {
  }

  /**
    The offset where reading starts was fixed by a seek, at which it was the length of the file
    held by then.
   */
  lemma {:induction false} StartsAtEnd(w: World, run: seq<Action>) returns (k: nat)
    requires WorldOK(w, None) && Exec(Init(w), run).origin.Some?
    ensures k < |run| && run[k] == SeekEnd
    ensures var t := Exec(Init(w), run[..k]); Enabled(t, SeekEnd) && SeeksTo(t, Exec(Init(w), run).origin)
    decreases |run|
  {
    hide Inv, Step, Exec, SeeksTo, WorldOK;
    if |run| == 0 {
      NothingYet(w);
    } else {
      var init, a := run[..|run| - 1], run[|run| - 1];
      Unsnoc(run);
      var s := Exec(Init(w), init);
      ReachesInv(w, init);
      ExecSnoc(Init(w), init, a);
      OriginStep(s, a);
      if s.origin.Some? {
        k := StartsAtEnd(w, init);
        PrefixOfSnoc(init, a, k);
      } else {
        k := |init|;
        PrefixOfSnoc(init, a, k);
        assert init[..k] == init;
        SeeksWhenSeeking(s, Exec(Init(w), run).origin);
      }
    }
  }

  lemma NothingYet(w: World)
    ensures Exec(Init(w), []).origin.None?
  {
  }

  lemma SeeksWhenSeeking(s: State, origin: Option<Fd>)
    requires SeeksTo(s, origin)
    ensures Enabled(s, SeekEnd)
  {
  }

  // ---- what is read from there --------------------------------------------------------------------

  /** The beginnings of files, as far as each was read. */
  function Heads(w: World, sessions: seq<Session>): string {
    if |sessions| == 0 then ""
    else
      var x := sessions[|sessions| - 1];
      var c := Content(w, x.gen);
      Heads(w, sessions[..|sessions| - 1]) + if x.end <= |c| then c[..x.end] else ""
  }

  /** All that some generations hold. */
  function Contents(w: World, lo: nat, hi: nat): string {
    if hi <= lo then "" else Contents(w, lo, hi - 1) + Content(w, hi - 1)
  }

  lemma {:induction false} HeadsOnly(w: World, origin: Option<Fd>, sessions: seq<Session>)
    requires forall i :: 0 <= i < |sessions| ==> origin.Some? ==> sessions[i].gen != origin.value.gen
    ensures TextOf(w, origin, sessions) == Heads(w, sessions)
  {
    if |sessions| > 0 {
      HeadsOnly(w, origin, sessions[..|sessions| - 1]);
      hide Content;
      var x := sessions[|sessions| - 1];
      assert From(origin, x.gen) == 0;
    }
  }

  lemma {:induction false} TextSplits(w: World, origin: Option<Fd>, x: Session, rest: seq<Session>)
    ensures TextOf(w, origin, [x] + rest) == Slice(w, origin, x) + TextOf(w, origin, rest)
  {
    hide Slice;
    if |rest| == 0 {
      EmptyConcat([x]);
      assert [x][..0] == [];
      EmptyConcat(Slice(w, origin, x));
    } else {
      TextSplits(w, origin, x, rest[..|rest| - 1]);
      LastOfConcat([x], rest);
      Regroup(Slice(w, origin, x), TextOf(w, origin, rest[..|rest| - 1]), Slice(w, origin, rest[|rest| - 1]));
    }
  }

  lemma {:induction false} HeadsOfAll(w: World, lo: nat, sessions: seq<Session>)
    requires lo + |sessions| <= |w.files|
    requires forall i :: 0 <= i < |sessions| ==> sessions[i] == Session(lo + i, |Content(w, lo + i)|)
    ensures Heads(w, sessions) == Contents(w, lo, lo + |sessions|)
  {
    if |sessions| > 0 {
      var n := |sessions| - 1;
      HeadsOfAll(w, lo, sessions[..n]);
      hide Content;
      var c := Content(w, lo + n);
      assert c[..|c|] == c;
    }
  }

  // ---- what was there before is not read ---------------------------------------------------------

  lemma StepGrows(s: State, a: Action)
    ensures Grown(s.world, Step(s, a).world)
  {
    EnvGrows(s.world, a);
    ReadFrame(s);
    hide EnvNext, ReadHeld, CheckRotation;
    assert Grown(s.world, s.world);
  }

  lemma GrownTrans(u: World, v: World, w: World)
    requires Grown(u, v) && Grown(v, w)
    ensures Grown(u, w)
  {
    forall g | 0 <= g < |u.files|
      ensures u.files[g].content <= w.files[g].content && u.files[g].ino == w.files[g].ino
    {
      PrefixTrans(u.files[g].content, v.files[g].content, w.files[g].content);
    }
  }

  lemma PrefixTrans(a: string, b: string, c: string)
    requires a <= b <= c
    ensures a <= c
  {
    assert a == b[..|a|] && b == c[..|b|];
    assert a == c[..|a|];
  }

  lemma {:induction false} RunGrows(s: State, run: seq<Action>)
    ensures Grown(s.world, Exec(s, run).world)
    decreases |run|
  {
    hide Step, Grown;
    if |run| == 0 {
      SameGrown(s.world);
    } else {
      StepGrows(s, run[0]);
      RunGrows(Step(s, run[0]), run[1..]);
      GrownTrans(s.world, Step(s, run[0]).world, Exec(s, run).world);
    }
  }

  lemma SameGrown(w: World)
    ensures Grown(w, w)
  {
  }

  lemma FirstSession(s: State)
    requires Inv(s) && s.origin.Some?
    ensures |s.sessions| > 0 && s.sessions[0].gen == s.origin.value.gen < |s.world.files|
    ensures s.origin.value.offset <= s.sessions[0].end <= |s.world.files[s.sessions[0].gen].content|
    ensures forall i :: 0 < i < |s.sessions| ==> s.sessions[i].gen != s.origin.value.gen
    ensures s.consumed == TextOf(s.world, s.origin, s.sessions)
  {
    hide TextOf, WorldOK;
  }

  /** What a tailer reads of a file that was there when it started, and of the later ones. */
  lemma ReadAfterOrigin(s: State)
    requires Inv(s) && s.origin.Some?
    ensures var fd := s.origin.value;
      && |s.sessions| > 0 && fd.gen < |s.world.files| && fd.offset <= s.sessions[0].end <= |s.world.files[fd.gen].content|
      && s.consumed == s.world.files[fd.gen].content[fd.offset..s.sessions[0].end] + Heads(s.world, s.sessions[1..])
  {
    FirstSession(s);
    var x, rest := s.sessions[0], s.sessions[1..];
    assert s.sessions == [x] + rest;
    TextSplits(s.world, s.origin, x, rest);
    HeadsOnly(s.world, s.origin, rest);
    hide Inv, TextOf, Heads;
  }

  lemma FullRest(s: State)
    requires s.first < |s.world.files|
    ensures var full := FullSessions(s);
      && |full| == |s.world.files| - s.first && full == [Session(s.first, |Content(s.world, s.first)|)] + full[1..]
      && forall i :: 0 <= i < |full[1..]| ==> full[1..][i] == Session(s.first + 1 + i, |Content(s.world, s.first + 1 + i)|)
  {
    hide Content;
  }

  lemma WrittenFrom(s: State, fd: Fd)
    requires s.origin == Some(fd) && fd.gen == s.first < |s.world.files| && fd.offset <= |s.world.files[fd.gen].content|
    ensures History(s) == s.world.files[fd.gen].content[fd.offset..] + Contents(s.world, fd.gen + 1, |s.world.files|)
  {
    FullRest(s);
    hide FullSessions, Slice, Content, TextOf, Heads, Contents;
    RestHeads(s, FullSessions(s)[1..]);
    TextSplits(s.world, s.origin, Session(s.first, |Content(s.world, s.first)|), FullSessions(s)[1..]);
    WholeSlice(s.world, fd);
  }

  lemma RestHeads(s: State, rest: seq<Session>)
    requires s.origin.Some? ==> s.origin.value.gen == s.first
    requires s.first + 1 + |rest| == |s.world.files|
    requires forall i :: 0 <= i < |rest| ==> rest[i] == Session(s.first + 1 + i, |Content(s.world, s.first + 1 + i)|)
    ensures TextOf(s.world, s.origin, rest) == Contents(s.world, s.first + 1, |s.world.files|)
  {
    hide TextOf, Heads, Contents, Content;
    HeadsOnly(s.world, s.origin, rest);
    HeadsOfAll(s.world, s.first + 1, rest);
  }

  lemma WrittenAfterOrigin(s: State)
    requires Inv(s) && s.origin.Some? && s.origin.value.gen == s.first
    ensures var fd := s.origin.value;
      && fd.gen < |s.world.files| && fd.offset <= |s.world.files[fd.gen].content|
      && History(s) == s.world.files[fd.gen].content[fd.offset..] + Contents(s.world, fd.gen + 1, |s.world.files|)
  {
    hide Inv, History, Contents, TextOf;
    FirstSession(s);
    WrittenFrom(s, s.origin.value);
  }

  lemma WholeSlice(w: World, fd: Fd)
    requires fd.gen < |w.files| && fd.offset <= |w.files[fd.gen].content|
    ensures Slice(w, Some(fd), Session(fd.gen, |Content(w, fd.gen)|)) == w.files[fd.gen].content[fd.offset..]
  {
    var c := w.files[fd.gen].content;
    assert c[fd.offset..|c|] == c[fd.offset..];
  }

  lemma ReachesAnchored(w: World, run: seq<Action>)
    requires WorldOK(w, None)
    ensures var s := Exec(Init(w), run);
      && (s.origin.Some? ==> s.phase != Starting && s.origin.value.gen == s.first)
      && (s.phase != Starting ==> s.first <= |s.world.files|)
  {
    hide WorldOK, Exec, TextOf;
    InitKeeps(w);
    TailerLoss.RunLost(Init(w), run);
  }

  /**
    What is in the file when the tailer seeks is neither read nor counted as written since the
    start: of that file, only what was appended afterwards is; of later files, everything.
   */
  lemma OldTextSkipped(w: World, run: seq<Action>) returns (k: nat, before: string)
    requires WorldOK(w, None) && Exec(Init(w), run).origin.Some?
    ensures k < |run| && run[k] == SeekEnd
    ensures var t, s := Exec(Init(w), run[..k]), Exec(Init(w), run);
      && t.file.Some? && t.file.value.gen < |t.world.files| && before == t.world.files[t.file.value.gen].content
      && |s.sessions| > 0 && var g := t.file.value.gen;
      && g < |s.world.files| && before <= s.world.files[g].content
      && |before| <= s.sessions[0].end <= |s.world.files[g].content|
      && s.consumed == s.world.files[g].content[|before|..s.sessions[0].end] + Heads(s.world, s.sessions[1..])
      && History(s) == s.world.files[g].content[|before|..] + Contents(s.world, g + 1, |s.world.files|)
  {
    k := StartsAtEnd(w, run);
    var t, s := Exec(Init(w), run[..k]), Exec(Init(w), run);
    before := t.world.files[t.file.value.gen].content;
    ReachesInv(w, run);
    ReachesAnchored(w, run);
    assert run == run[..k] + run[k..];
    ExecConcat(Init(w), run[..k], run[k..]);
    RunGrows(t, run[k..]);
    hide Exec, Inv, Heads, Contents, WorldOK, History;
    ReadAfterOrigin(s);
    WrittenAfterOrigin(s);
  }

  // ---- no file at start ---------------------------------------------------------------------------------

  lemma StartFirst(s: State)
    requires s.world.path.Some? ==> s.world.path.value < |s.world.files|
    ensures var t := AfterStart(s);
      && t.phase != Starting && t.world == s.world
      && t.first == if s.world.path.Some? then s.world.path.value else |s.world.files|
  {
  }

  lemma OtherFirst(s: State, a: Action)
    requires a != Start
    ensures Step(s, a).first == s.first
    ensures s.phase == Starting <==> Step(s, a).phase == Starting
  {
    ReadFrame(s);
    hide ReadHeld, CheckRotation, EnvNext, Lengths, Content;
  }

  lemma FirstStep(s: State, a: Action)
    requires Inv(s)
    ensures s.phase != Starting ==> Step(s, a).phase != Starting && Step(s, a).first == s.first
    ensures s.phase == Starting && Step(s, a).phase != Starting ==>
      && a == Start && s.world == Step(s, a).world
      && Step(s, a).first == (if s.world.path.Some? then s.world.path.value else |s.world.files|)
  {
    PathExists(s);
    hide Inv, AfterStart;
    if a == Start {
      StartFirst(s);
    } else {
      OtherFirst(s, a);
    }
  }

  lemma PathExists(s: State)
    requires Inv(s)
    ensures s.world.path.Some? ==> s.world.path.value < |s.world.files|
  {
  }

  /** The first generation that counts is the one at the path when the tailer starts, or else the next to come. */
  lemma {:induction false} FirstAtStart(w: World, run: seq<Action>) returns (j: nat)
    requires WorldOK(w, None) && Exec(Init(w), run).phase != Starting
    ensures j < |run| && run[j] == Start
    ensures var t := Exec(Init(w), run[..j]);
      Exec(Init(w), run).first == if t.world.path.Some? then t.world.path.value else |t.world.files|
    decreases |run|
  {
    hide Inv, Step, Exec, WorldOK;
    if |run| == 0 {
      StartingYet(w);
    } else {
      var init, a := run[..|run| - 1], run[|run| - 1];
      Unsnoc(run);
      var s := Exec(Init(w), init);
      ReachesInv(w, init);
      ExecSnoc(Init(w), init, a);
      FirstStep(s, a);
      if s.phase != Starting {
        j := FirstAtStart(w, init);
        PrefixOfSnoc(init, a, j);
      } else {
        j := |init|;
        PrefixOfSnoc(init, a, j);
        assert init[..j] == init;
      }
    }
  }

  lemma StartingYet(w: World)
    ensures Exec(Init(w), []).phase == Starting
  {
  }

  lemma AllHeads(s: State)
    requires s.origin.None? && s.first <= |s.world.files|
    ensures History(s) == Contents(s.world, s.first, |s.world.files|)
  {
    FullAll(s);
    hide FullSessions, TextOf, Heads, Contents, Content;
    HeadsOnly(s.world, s.origin, FullSessions(s));
    HeadsOfAll(s.world, s.first, FullSessions(s));
  }

  /** Without a file at start, every file is read from its beginning, and all their text counts. */
  lemma FreshStart(w: World, run: seq<Action>)
    requires WorldOK(w, None)
    ensures var s := Exec(Init(w), run);
      s.origin.None? && s.phase != Starting && s.phase != Seeking ==>
        && s.consumed == Heads(s.world, s.sessions)
        && History(s) == Contents(s.world, s.first, |s.world.files|)
  {
    hide Exec, Inv, TextOf, Heads, Contents, WorldOK, History;
    ReachesInv(w, run);
    var s := Exec(Init(w), run);
    ReachesAnchored(w, run);
    if s.origin.None? {
      ReadText(s);
      HeadsOnly(s.world, s.origin, s.sessions);
      if s.first <= |s.world.files| {
        AllHeads(s);
      }
    }
  }

  lemma FullAll(s: State)
    requires s.first <= |s.world.files|
    ensures var full := FullSessions(s);
      && |full| == |s.world.files| - s.first
      && forall i :: 0 <= i < |full| ==> full[i] == Session(s.first + i, |Content(s.world, s.first + i)|)
  {
    hide Content;
  }

  lemma ReadText(s: State)
    requires Inv(s)
    ensures s.consumed == TextOf(s.world, s.origin, s.sessions)
  {
  }
}

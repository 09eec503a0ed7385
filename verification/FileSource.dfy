/**
  The file ingestion mode as an object: tracked files whose fields the system calls
  update, and the collect that parses their new lines.
 */
module FileSource {
  import opened Text
  import opened Checks
  import opened LineFormats
  import opened FileTailer

  const READ_FAILURE := "reading service perfdata"

  /** The file system as the system calls see it. */
  class FileSystem {
    var world: World

    constructor (w: World)
      ensures world == w
    {
      world := w;
    }
  }

  ghost predicate EnvOnly(script: seq<Action>) {
    forall i :: 0 <= i < |script| ==> !IsTailer(script[i])
  }

  /** `trackedFile`, with the state of the transition system it follows as ghost history. */
  class TrackedFile {
    const fs: FileSystem
    var file: Option<Fd>
    var ino: nat
    ghost var model: State

    ghost predicate Valid()
      reads this, fs
    {
      model.world == fs.world && model.file == file && model.ino == ino && Inv(model)
    }

    constructor (fs: FileSystem)
      requires WorldOK(fs.world, None)
      ensures Valid() && this.fs == fs && model == Init(fs.world)
    {
      this.fs := fs;
      file := None;
      ino := 0;
      model := Init(fs.world);
      new;
      InitKeeps(fs.world);
    }

    /**
      `initTracker`: opening the file, if there is one, and skipping what it holds by then.
      Other failures to open it are reported, and nothing is tracked.
     */
    method InitTracker(gap: seq<Action>, openOk: bool) returns (failed: bool)
      requires Valid() && model.phase == Starting && EnvOnly(gap)
      modifies this, fs
      ensures Valid() && failed == !openOk
      ensures failed ==> model == old(model)
      ensures !failed ==> model.phase == Idle && model.current == [] && model.batches == []
      ensures !failed && file.Some? ==>
        file.value.gen < |fs.world.files| && file.value.offset == |fs.world.files[file.value.gen].content|
      ensures !failed ==> model == Exec(old(model), [Start] + if old(fs.world).path.None? then [] else gap + [SeekEnd])
    {
      if !openOk {
        return true;
      }
      failed := false;
      hide Inv, Exec, Step;
      ExecOne(old(model), Start);
      EmptyConcat([Start]);
      StartFile();
      if file.Some? {
        Interfere(gap);
        SeekToEnd();
        SeekRun(old(model), gap);
      }
    }

    /** `openAndGetInode` at start. */
    method StartFile()
      requires Valid() && model.phase == Starting
      modifies this
      ensures Valid() && model == Step(old(model), Start)
      ensures model.phase == if file.Some? then Seeking else Idle
      ensures file.Some? <==> fs.world.path.Some?
      ensures model.current == [] && model.batches == []
    {
      StartsEmpty(model);
      StepKeeps(model, Start);
      hide Inv;
      match fs.world.path {
        case None => file := None;
        case Some(g) =>
          file := Some(Fd(g, 0));
          ino := InoAt(fs.world, g);
      }
      model := Step(model, Start);
    }

    method SeekToEnd()
      requires Valid() && model.phase == Seeking
      modifies `file, `model
      ensures Valid() && model == Step(old(model), SeekEnd)
      ensures file.Some? && file.value.gen < |fs.world.files|
      ensures file.value.offset == |fs.world.files[file.value.gen].content|
      ensures model.phase == Idle && model.current == old(model).current && model.batches == old(model).batches
    {
      HeldLength(model);
      hide Content;
      StepKeeps(model, SeekEnd);
      var end := |Content(fs.world, file.value.gen)|;
      file := Some(Fd(file.value.gen, end));
      model := Step(model, SeekEnd);
      hide Inv;
    }

    /** One action of others, if it is possible now. */
    method Disturb(a: Action)
      requires Valid() && !IsTailer(a)
      modifies fs, `model
      ensures Valid() && model == Step(old(model), a)
      ensures Undisturbed(old(model), model)
    {
      if EnabledNow(a) {
        EnvKeeps(model, a);
        fs.world := EnvNext(fs.world, a);
      }
      model := Step(model, a);
      hide Inv, EnvNext;
    }

    /** Whether an action of the environment is possible now. */
    predicate EnabledNow(a: Action)
      requires Valid() && !IsTailer(a)
      reads this, fs
      ensures EnabledNow(a) <==> Enabled(model, a)
    {
      hide Inv, FreeIno;
      match a
      case Append(g, _) => g < |fs.world.files|
      case Vanish => fs.world.path.Some?
      case Unlink(g) => g < |fs.world.files|
      case Publish(ino, _, _) => FreeIno(fs.world, file, ino)
    }

    /** Whatever others do to the files between two system calls. */
    method Interfere(script: seq<Action>)
      requires Valid() && EnvOnly(script)
      modifies fs, `model
      ensures Valid() && model == Exec(old(model), script)
      ensures Undisturbed(old(model), model)
    {
      hide Inv, Step;
      for i := 0 to |script|
        invariant Valid() && model == Exec(old(model), script[..i]) && Undisturbed(old(model), model)
      {
        ExecSnoc(old(model), script[..i], script[i]);
        assert script[..i + 1] == script[..i] + [script[i]];
        Disturb(script[i]);
      }
      assert script[..|script|] == script;
    }

    /** `readLines` on the held file. */
    method ReadLines() returns (lines: seq<string>)
      requires file.Some?
      modifies `file
      ensures var chunk := Chunk(fs.world, old(file).value);
        && lines == ScanLines(chunk)
        && file == Some(Fd(old(file).value.gen, old(file).value.offset + |chunk|))
    {
      hide Chunk, Find, DropCR;
      var fd := file.value;
      var chunk := Chunk(fs.world, fd);
      lines := [];
      var rest := chunk;
      EmptyConcat(ScanLines(chunk));
      while rest != ""
        invariant lines + ScanLines(rest) == ScanLines(chunk)
        decreases |rest|
      {
        var eol := Find(rest, '\n');
        var line := DropCR(if eol < 0 then rest else rest[..eol]);
        var after := if eol < 0 then "" else rest[eol + 1..];
        Regroup(lines, [line], ScanLines(after));
        EmptyConcat([line]);
        lines := lines + [line];
        rest := after;
      }
      EmptyConcat(lines);
      file := Some(Fd(fd.gen, fd.offset + |chunk|));
    }

    /** Reading the held file, if there is one, as a step of the transition system. */
    method ReadStep(ghost a: Action) returns (lines: seq<string>)
      requires Valid() && Enabled(model, a) && (a.BeginCollect? || a.Drain? || a.Reread?)
      modifies this
      ensures Valid() && model == Step(old(model), a)
      ensures ReadHeld(old(model)).current == old(model).current + lines
    {
      hide Inv, Chunk, ScanLines, Lengths;
      lines := [];
      if file.Some? {
        lines := ReadLines();
      }
      EmptyConcat(model.current);
      StepKeeps(model, a);
      model := Step(model, a);
    }

    /** Reading what the held file has, then checking for rotation. */
    method FindRotation(gap: seq<Action>, statOk: bool) returns (lines: seq<string>, rotated: bool)
      requires Valid() && model.phase == Idle && model.current == [] && EnvOnly(gap)
      modifies this, fs
      ensures Valid() && model == Exec(old(model), [BeginCollect] + gap + [Stat(statOk)])
      ensures rotated ==> model.phase == if file.Some? then Draining else Opening
      ensures rotated ==> Collecting(old(model), model, lines)
      ensures !rotated ==> Collected(old(model), model, lines, false)
    {
      hide Inv, Exec, ReadHeld, Lengths;
      ReadFrame(model);
      lines := ReadStep(BeginCollect);
      EmptyConcat(lines);
      Interfere(gap);
      ExecOne(old(model), BeginCollect);
      ExecConcat(old(model), [BeginCollect], gap);
      ExecSnoc(old(model), [BeginCollect] + gap, Stat(statOk));
      rotated := statOk && CheckRotation(fs.world, file, ino);
      StepKeeps(model, Stat(statOk));
      model := Step(model, Stat(statOk));
    }

    /** Draining and closing the old file. */
    method DrainAndClose(gap: seq<Action>) returns (lines: seq<string>)
      requires Valid() && model.phase == Draining && EnvOnly(gap)
      modifies this, fs
      ensures Valid() && model == Exec(old(model), [Drain] + gap + [Close])
      ensures model.phase == Opening && file.None?
      ensures Collecting(old(model), model, old(model).current + lines)
    {
      hide Inv, Exec, ReadHeld;
      ReadFrame(model);
      lines := ReadStep(Drain);
      Interfere(gap);
      ExecOne(old(model), Drain);
      ExecConcat(old(model), [Drain], gap);
      ExecSnoc(old(model), [Drain] + gap, Close);
      StepKeeps(model, Close);
      file := None;
      model := Step(model, Close);
    }

    /** Opening the path and reading the new file. */
    method Reopen(gap: seq<Action>, openOk: bool) returns (lines: seq<string>, failed: bool)
      requires Valid() && model.phase == Opening && EnvOnly(gap)
      modifies this, fs
      ensures Valid()
      ensures var missing := !openOk || old(fs.world).path.None?;
        model == Exec(old(model), [Open(openOk)] + if missing then [] else gap + [Reread])
      ensures failed == !openOk
      ensures Collected(old(model), model, old(model).current + lines, failed)
    {
      hide Inv, Exec, ReadHeld;
      ExecOne(old(model), Open(openOk));
      StepKeeps(model, Open(openOk));
      EmptyConcat(model.current);
      EmptyConcat([Open(openOk)]);
      lines := [];
      if !openOk {
        model := Step(model, Open(openOk));
        return lines, true;
      }
      failed := false;
      match fs.world.path {
        case None =>
          model := Step(model, Open(openOk));
        case Some(g) =>
          file := Some(Fd(g, 0));
          ino := InoAt(fs.world, g);
          model := Step(model, Open(openOk));
          Interfere(gap);
          ExecConcat(old(model), [Open(openOk)], gap);
          ExecSnoc(old(model), [Open(openOk)] + gap, Reread);
          assert [Open(openOk)] + gap + [Reread] == [Open(openOk)] + (gap + [Reread]);
          ReadFrame(model);
          lines := ReadStep(Reread);
      }
    }

    /**
      `readNewLinesFromTracker`: every system call is a step of the transition system, with
      `gaps` happening between them. The lines returned, and whether reopening failed, are
      those of the collect that the transition system records.
     */
    method ReadNewLines(gaps: Gaps, statOk: bool, openOk: bool) returns (allLines: seq<string>, failed: bool)
      requires Valid() && model.phase == Idle && model.current == [] && EnvGaps(gaps)
      modifies this, fs
      ensures Valid() && model == Exec(old(model), CollectRun(old(model), gaps, statOk, openOk))
      ensures Collected(old(model), model, allLines, failed)
      ensures failed ==> !openOk
    {
      hide Inv, Exec;
      var rotated;
      allLines, rotated := FindRotation(gaps.stat, statOk);
      failed := false;
      ghost var run := [BeginCollect] + gaps.stat + [Stat(statOk)];
      if rotated {
        if file.Some? {
          Interfere(gaps.drain);
          ExecConcat(old(model), run, gaps.drain);
          run := run + gaps.drain;
          ExecConcat(old(model), run, [Drain] + gaps.close + [Close]);
          run := run + ([Drain] + gaps.close + [Close]);
          var drained := DrainAndClose(gaps.close);
          allLines := allLines + drained;
        }
        Interfere(gaps.open);
        ExecConcat(old(model), run, gaps.open);
        run := run + gaps.open;
        ghost var missing := !openOk || model.world.path.None?;
        ghost var rest := [Open(openOk)] + if missing then [] else gaps.reread + [Reread];
        ExecConcat(old(model), run, rest);
        run := run + rest;
        var added;
        added, failed := Reopen(gaps.reread, openOk);
        allLines := allLines + added;
      }
    }
  }

  /** What others do before each system call of a collect but the first. */
  datatype Gaps = Gaps(stat: seq<Action>, drain: seq<Action>, close: seq<Action>, open: seq<Action>, reread: seq<Action>)

  ghost predicate EnvGaps(g: Gaps) {
    EnvOnly(g.stat) && EnvOnly(g.drain) && EnvOnly(g.close) && EnvOnly(g.open) && EnvOnly(g.reread)
  }

  /** The steps of one collect, with what happens between them. */
  function CollectRun(s: State, gaps: Gaps, statOk: bool, openOk: bool): seq<Action> {
    var found := [BeginCollect] + gaps.stat + [Stat(statOk)];
    var t := Exec(s, found);
    if t.phase == Idle then found
    else
      var drained := if t.file.Some? then found + gaps.drain + ([Drain] + gaps.close + [Close]) else found;
      var ready := drained + gaps.open;
      var missing := !openOk || Exec(s, ready).world.path.None?;
      ready + ([Open(openOk)] + if missing then [] else gaps.reread + [Reread])
  }

  /** A collect that began in `s` is under way. */
  ghost predicate Collecting(s: State, t: State, lines: seq<string>) {
    t.current == lines && t.batches == s.batches
  }

  /** Interference touches neither the tailer's place nor its lines. */
  ghost predicate Undisturbed(s: State, t: State) {
    t.phase == s.phase && t.current == s.current && t.batches == s.batches
  }

  /** A collect that began in `s` has returned. */
  ghost predicate Collected(s: State, t: State, lines: seq<string>, failed: bool) {
    t.phase == Idle && t.current == [] && t.batches == s.batches + [Batch(lines, failed)]
  }

  lemma SeekRun(s: State, gap: seq<Action>)
    ensures Exec(s, [Start] + (gap + [SeekEnd])) == Step(Exec(Step(s, Start), gap), SeekEnd)
  {
    hide Step;
    ExecOne(s, Start);
    ExecConcat(s, [Start], gap + [SeekEnd]);
    ExecSnoc(Step(s, Start), gap, SeekEnd);
  }

  lemma HeldLength(s: State)
    requires Inv(s) && s.file.Some?
    ensures s.file.value.gen < |s.world.files|
    ensures |Content(s.world, s.file.value.gen)| == |s.world.files[s.file.value.gen].content|
  {
  }

  lemma StartsEmpty(s: State)
    requires Inv(s) && s.phase == Starting
    ensures s.current == [] && s.batches == []
  {
  }

  function Last(batches: seq<Batch>): Batch {
    if |batches| == 0 then Batch([], false) else batches[|batches| - 1]
  }

  /** `fileTailer`: the service file, and the host file if one is configured. */
  class Tailer {
    const format: Format
    const service: TrackedFile
    const host: TrackedFile?

    constructor (format: Format, service: TrackedFile, host: TrackedFile?)
      ensures this.format == format && this.service == service && this.host == host
    {
      this.format := format;
      this.service := service;
      this.host := host;
    }

    ghost function Repr(): set<object>
      reads this
    {
      {service, service.fs} + if host == null then {} else {host, host.fs}
    }

    ghost predicate Ready()
      reads this, Repr()
    {
      && service.Valid() && service.model.phase == Idle && service.model.current == []
      && (host != null ==>
            && host != service && host.fs != service.fs
            && host.Valid() && host.model.phase == Idle && host.model.current == [])
    }

    /**
      `collect`: the records of the new service lines, then those of the new host lines. When
      the service path cannot be reopened, the lines drained so far are dropped and the host
      file is not read; when the host path cannot be, the host lines are kept.
     */
    method Collect(gaps: Gaps, statOk: bool, openOk: bool, hostGaps: Gaps, hostStatOk: bool, hostOpenOk: bool)
        returns (r: Result<seq<CheckResult>, string>)
      requires Ready() && EnvGaps(gaps) && EnvGaps(hostGaps)
      modifies Repr()
      ensures Ready()
      ensures service.model == Exec(old(service.model), CollectRun(old(service.model), gaps, statOk, openOk))
      ensures service.model.batches == old(service.model.batches) + [Last(service.model.batches)]
      ensures r.Err? <==> Last(service.model.batches).failed
      ensures r.Err? ==> r.error == READ_FAILURE
      ensures r.Err? && host != null ==> host.model == old(host.model)
      ensures r.Ok? && host != null ==>
        host.model == Exec(old(host.model), CollectRun(old(host.model), hostGaps, hostStatOk, hostOpenOk))
      ensures r.Ok? ==>
        var records := ParseLines(Last(service.model.batches).lines, format, false);
        r.value == if host == null then records else records + ParseLines(Last(host.model.batches).lines, format, true)
    {
      hide Inv, Exec, ParseLines, CollectRun;
      var serviceLines, failed := service.ReadNewLines(gaps, statOk, openOk);
      if failed {
        return Err(READ_FAILURE);
      }
      var results := CollectLines(serviceLines, format, false);
      if host != null {
        var hostLines, _ := host.ReadNewLines(hostGaps, hostStatOk, hostOpenOk);
        var hostResults := CollectLines(hostLines, format, true);
        results := results + hostResults;
      }
      return Ok(results);
    }
  }
}

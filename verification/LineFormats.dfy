/**
  The three tab-delimited framings of check results: default Nagios perfdata lines,
  PNP4Nagios lines and Livestatus rows.
 */
module LineFormats {
  import opened Text
  import opened Numerals
  import opened Checks

  datatype LineError = WrongPrefix | TooFewFields(found: nat) | MissingField(key: string) | BadState(text: string)

  const SERVICE_TAG := "[SERVICEPERFDATA]"
  const HOST_TAG := "[HOSTPERFDATA]"

  /** `strings.ToUpper`, as far as it can produce an ASCII letter. */
  function Upper(c: char): char {
    if 'a' <= c <= 'z' then ('A' as int + (c as int - 'a' as int)) as char
    else if c == '\U{0131}' then 'I'
    else if c == '\U{017F}' then 'S'
    else c
  }

  function ToUpper(s: string): (t: string)
    ensures |t| == |s| && forall i :: 0 <= i < |s| ==> t[i] == Upper(s[i])
  {
    seq(|s|, i requires 0 <= i < |s| => Upper(s[i]))
  }

  function ParseNagiosState(s: string): int {
    var u := ToUpper(TrimSpace(s));
    if u == "OK" || u == "UP" || u == "0" then 0
    else if u == "WARNING" || u == "1" then 1
    else if u == "CRITICAL" || u == "DOWN" || u == "2" then 2
    else 3
  }

  function ParseTimet(s: string): int {
    IntOrZero(ParseInt(TrimSpace(s)))
  }

  /** The command name before the first `!`. */
  function BaseCommand(cmd: string): string {
    var bang := Find(cmd, '!');
    if bang >= 0 then cmd[..bang] else cmd
  }

  // ---- default format ----------------------------------------------------------

  function ParseDefaultLine(line: string): Result<CheckResult, LineError> {
    if !(SERVICE_TAG <= line) then Err(WrongPrefix)
    else
      var parts := Split(line, '\t');
      if |parts| < 7 then Err(TooFewFields(|parts|))
      else Ok(CheckResult(parts[2], parts[3], "", ParseNagiosState(parts[4]), parts[5], parts[6],
                          ParseTimet(parts[1]), ZERO, ZERO))
  }

  function ParseDefaultHostLine(line: string): Result<CheckResult, LineError> {
    if !(HOST_TAG <= line) then Err(WrongPrefix)
    else
      var parts := Split(line, '\t');
      if |parts| < 6 then Err(TooFewFields(|parts|))
      else Ok(CheckResult(parts[2], "Host Check", "", ParseNagiosState(parts[3]), parts[4], parts[5],
                          ParseTimet(parts[1]), ZERO, ZERO))
  }

  function Occurrences(s: string, c: char): nat {
    if s == "" then 0 else (if s[0] == c then 1 else 0) + Occurrences(s[1..], c)
  }

  lemma {:induction false} SkipTo(s: string, c: char)
    ensures var i := Find(s, c); Occurrences(s, c) == if i < 0 then 0 else 1 + Occurrences(s[i + 1..], c)
  {
    if s != "" && s[0] != c {
      SkipTo(s[1..], c);
    }
  }

  lemma {:induction false} SplitCount(s: string, sep: char)
    ensures |Split(s, sep)| == 1 + Occurrences(s, sep)
    decreases |s|
  {
    hide Occurrences, Find;
    SkipTo(s, sep);
    var i := Find(s, sep);
    if i >= 0 {
      SplitCount(s[i + 1..], sep);
    }
  }

  /** A default line is accepted exactly when it starts with its tag and has enough tabs, whatever the fields hold. */
  lemma DefaultLinesAccepted(line: string)
    ensures ParseDefaultLine(line).Ok? <==> SERVICE_TAG <= line && Occurrences(line, '\t') >= 6
    ensures ParseDefaultHostLine(line).Ok? <==> HOST_TAG <= line && Occurrences(line, '\t') >= 5
  {
    hide Split, Occurrences, ParseTimet, ParseNagiosState;
    SplitCount(line, '\t');
  }

  function StateName(state: int): string {
    match state
    case 0 => "OK"
    case 1 => "WARNING"
    case 2 => "CRITICAL"
    case _ => "UNKNOWN"
  }

  /** The word in a host line. */
  function HostStateName(state: int): string {
    match state
    case 0 => "UP"
    case 2 => "DOWN"
    case _ => "UNREACHABLE"
  }

  /** The texts that stand for a state and a time in a line. */
  datatype Wording = Wording(state: string, time: string)

  /** Any texts will do that are read as the record's state and time. */
  ghost predicate Says(w: Wording, r: CheckResult) {
    && '\t' !in w.state && '\t' !in w.time
    && ParseNagiosState(w.state) == r.state && ParseTimet(w.time) == r.lastCheck
  }

  /** A record that a perfdata file can carry. */
  ghost predicate FileRecord(r: CheckResult) {
    && '\t' !in r.hostName && '\t' !in r.serviceDescription && '\t' !in r.pluginOutput && '\t' !in r.perfData
    && r.executionTime == ZERO && r.latency == ZERO
  }

  /** All fields of a default service line but the last. */
  function DefaultHead(r: CheckResult, w: Wording): seq<string> {
    [SERVICE_TAG, w.time, r.hostName, r.serviceDescription, w.state, r.pluginOutput]
  }

  function DefaultHostHead(r: CheckResult, w: Wording): seq<string> {
    [HOST_TAG, w.time, r.hostName, w.state, r.pluginOutput]
  }

  /** A framed line: the fields before the perfdata, and the perfdata. */
  function Framed(head: seq<string>, perfData: string): string {
    Join(head + [perfData], '\t')
  }

  lemma StateNames(state: int)
    requires 0 <= state <= 3
    ensures ParseNagiosState(StateName(state)) == state && '\t' !in StateName(state)
  {
    hide TrimSpace, ToUpper;
    UpperWord(StateName(state));
  }

  lemma HostStateNames(state: int)
    requires state == 0 || state == 2 || state == 3
    ensures ParseNagiosState(HostStateName(state)) == state && '\t' !in HostStateName(state)
  {
    hide TrimSpace, ToUpper;
    UpperWord(HostStateName(state));
  }

  /** What Nagios itself writes: the name of a service or host state, and the time in digits. */
  lemma NagiosWordings(r: CheckResult)
    requires MIN_INT64 <= r.lastCheck <= MAX_INT64
    ensures 0 <= r.state <= 3 ==> Says(Wording(StateName(r.state), FormatInt(r.lastCheck)), r)
    ensures r.state in {0, 2, 3} ==> Says(Wording(HostStateName(r.state), FormatInt(r.lastCheck)), r)
  {
    hide ParseNagiosState, ParseTimet, StateName, HostStateName, FormatInt;
    TimetReads(r.lastCheck);
    if 0 <= r.state <= 3 {
      StateNames(r.state);
    }
    if r.state in {0, 2, 3} {
      HostStateNames(r.state);
    }
  }

  /** The words and digits for each state; anything else is unknown. */
  function StateWords(state: int): set<string> {
    match state
    case 0 => {"OK", "UP", "0"}
    case 1 => {"WARNING", "1"}
    case 2 => {"CRITICAL", "DOWN", "2"}
    case _ => {}
  }

  /** A letter of a word in any case; Unicode adds a dotless i and a long s. */
  predicate InSomeCase(c: char, letter: char) {
    || c == letter
    || ('A' <= letter <= 'Z' && c as int == letter as int + 32)
    || (letter == 'I' && c == '\U{0131}')
    || (letter == 'S' && c == '\U{017F}')
  }

  ghost predicate SpellsWord(text: string, word: string) {
    |text| == |word| && forall i :: 0 <= i < |word| ==> InSomeCase(text[i], word[i])
  }

  predicate AllSpaces(s: string) {
    forall i :: 0 <= i < |s| ==> IsSpace(s[i])
  }

  /** A word in any case with any spaces before and after it. */
  ghost predicate ReadsWord(s: string, word: string) {
    exists before, text, after :: Padded(s, before, text, after) && SpellsWord(text, word)
  }

  ghost predicate Padded(s: string, before: string, text: string, after: string) {
    s == before + text + after && AllSpaces(before) && AllSpaces(after)
  }

  /** A word of capitals or a digit. */
  ghost predicate PlainWord(word: string) {
    word != "" && forall i :: 0 <= i < |word| ==> 'A' <= word[i] <= 'Z' || '0' <= word[i] <= '9'
  }

  lemma UpperIsWord(text: string, word: string)
    requires PlainWord(word)
    ensures ToUpper(text) == word <==> SpellsWord(text, word)
  {
    forall c: char, letter: char | 'A' <= letter <= 'Z' || '0' <= letter <= '9'
      ensures Upper(c) == letter <==> InSomeCase(c, letter)
    {
    }
    hide Upper, InSomeCase;
    if SpellsWord(text, word) {
      assert ToUpper(text) == word;
    }
  }

  lemma CutLeft(s: string) returns (before: string)
    ensures s == before + TrimLeft(s, IsSpace) && AllSpaces(before)
  {
    var n := |s| - |TrimLeft(s, IsSpace)|;
    before := s[..n];
    hide TrimLeft, IsSpace;
    assert s == s[..n] + s[n..];
  }

  lemma CutRight(t: string) returns (after: string)
    ensures t == TrimRight(t, IsSpace) + after && AllSpaces(after)
  {
    var n := |TrimRight(t, IsSpace)|;
    after := t[n..];
    hide TrimRight, IsSpace;
    assert t == t[..n] + t[n..];
  }

  lemma PaddedTrim(s: string) returns (before: string, after: string)
    ensures Padded(s, before, TrimSpace(s), after)
  {
    hide TrimLeft, TrimRight, IsSpace, AllSpaces;
    before := CutLeft(s);
    after := CutRight(TrimLeft(s, IsSpace));
    Regroup(before, TrimSpace(s), after);
  }

  lemma WordNotSpace(text: string, word: string)
    requires PlainWord(word) && SpellsWord(text, word)
    ensures text != "" && !IsSpace(text[0]) && !IsSpace(text[|text| - 1])
  {
  }

  lemma TrimOne(s: string)
    requires s != "" && IsSpace(s[0])
    ensures TrimLeft(s, IsSpace) == TrimLeft(s[1..], IsSpace)
  {
    hide IsSpace;
  }

  lemma {:induction false} TrimSpacesBefore(before: string, rest: string)
    requires AllSpaces(before) && rest != "" && !IsSpace(rest[0])
    ensures TrimLeft(before + rest, IsSpace) == rest
  {
    if before == "" {
      EmptyConcat(rest);
    } else {
      hide TrimLeft, IsSpace;
      TrimSpacesBefore(before[1..], rest);
      FirstOfConcat(before, rest);
      TrimOne(before + rest);
    }
  }

  lemma {:induction false} TrimSpacesAfter(text: string, after: string)
    requires AllSpaces(after) && text != "" && !IsSpace(text[|text| - 1])
    ensures TrimRight(text + after, IsSpace) == text
  {
    if after == "" {
      EmptyConcat(text);
    } else {
      TrimSpacesAfter(text, after[..|after| - 1]);
      LastOfConcat(text, after);
    }
  }

  lemma TrimPadded(s: string, before: string, text: string, after: string)
    requires Padded(s, before, text, after) && text != "" && !IsSpace(text[0]) && !IsSpace(text[|text| - 1])
    ensures TrimSpace(s) == text
  {
    hide TrimLeft, TrimRight, IsSpace;
    Regroup(before, text, after);
    TrimSpacesBefore(before, text + after);
    TrimSpacesAfter(text, after);
  }

  lemma WordRead(s: string, word: string)
    requires PlainWord(word)
    ensures ToUpper(TrimSpace(s)) == word <==> ReadsWord(s, word)
  {
    hide ToUpper, TrimSpace, SpellsWord, Padded;
    UpperIsWord(TrimSpace(s), word);
    var b, a := PaddedTrim(s);
    forall before, text, after | Padded(s, before, text, after) && SpellsWord(text, word)
      ensures TrimSpace(s) == text
    {
      WordNotSpace(text, word);
      TrimPadded(s, before, text, after);
    }
  }

  /**
    A state field reads as a known state exactly when it is one of the state's words, in any
    case and with any spaces around it; anything else is unknown.
   */
  lemma StatesRecognised(s: string, state: int)
    requires 0 <= state <= 3
    ensures ParseNagiosState(s) == state <==>
      if state < 3 then exists word :: word in StateWords(state) && ReadsWord(s, word)
      else forall word :: word in StateWords(0) + StateWords(1) + StateWords(2) ==> !ReadsWord(s, word)
  {
    hide ToUpper, TrimSpace, ReadsWord;
    var u := ToUpper(TrimSpace(s));
    assert forall k :: 0 <= k <= 2 ==> (ParseNagiosState(s) == k <==> u in StateWords(k));
    assert ParseNagiosState(s) == 3 <==> u !in StateWords(0) + StateWords(1) + StateWords(2);
    forall word | word in StateWords(0) + StateWords(1) + StateWords(2)
      ensures ToUpper(TrimSpace(s)) == word <==> ReadsWord(s, word)
    {
      WordRead(s, word);
    }
  }

  lemma UpperWord(s: string)
    requires forall i :: 0 <= i < |s| ==> 'A' <= s[i] <= 'Z'
    ensures TrimSpace(s) == s && ToUpper(s) == s && '\t' !in s
  {
    hide TrimSpace, ToUpper;
    UpperTrimmed(s);
    UpperSame(s);
  }

  lemma UpperSame(s: string)
    requires forall i :: 0 <= i < |s| ==> 'A' <= s[i] <= 'Z'
    ensures ToUpper(s) == s
  {
    var u := ToUpper(s);
    hide ToUpper;
    assert forall i :: 0 <= i < |s| ==> u[i] == s[i];
  }

  lemma UpperTrimmed(s: string)
    requires forall i :: 0 <= i < |s| ==> 'A' <= s[i] <= 'Z'
    ensures TrimSpace(s) == s
  {
  }

  lemma TagsFree()
    ensures '\t' !in SERVICE_TAG && '\t' !in HOST_TAG
  {
  }

  lemma TimetReads(v: int)
    requires MIN_INT64 <= v <= MAX_INT64
    ensures ParseTimet(FormatInt(v)) == v && '\t' !in FormatInt(v)
  {
    hide ParseInt, FormatInt, TrimSpace;
    ParseFormattedInt(v);
  }

  /** A time that is missing, or in which there is no digit, reads as 0. */
  lemma UnreadableTimes(s: string)
    requires forall c :: c in s ==> !IsDigit(c)
    ensures ParseTimet(s) == 0
  {
    var t := TrimSpace(s);
    assert forall c :: c in t ==> c in s;
    hide TrimSpace;
    var (sign, digits) := ReadSign(t);
    assert digits != "" ==> digits[0] in digits && digits[0] in t;
  }

  /** Records read from files carry no execution time and no latency. */
  lemma FileRecordsUntimed(line: string, format: Format, isHost: bool)
    ensures var got := ParseLine(line, format, isHost);
      got.Ok? ==> got.value.executionTime == got.value.latency == Decimal(false, 0, 0)
  {
    hide Split, FieldMap, ParseTimet, ParseNagiosState, BaseCommand;
  }

  /** A frame whose head and perfdata are free of tabs splits back into them. */
  lemma FrameSplits(head: seq<string>, perfData: string)
    requires FreeOf(head, '\t') && '\t' !in perfData
    ensures Split(Framed(head, perfData), '\t') == head + [perfData]
  {
    SplitJoin(head + [perfData], '\t');
  }

  lemma {:induction false} JoinStartsWith(parts: seq<string>, sep: char)
    requires |parts| > 0
    ensures parts[0] <= Join(parts, sep)
  {
  }

  lemma DefaultHeadFree(r: CheckResult, w: Wording)
    requires FileRecord(r) && Says(w, r)
    ensures FreeOf(DefaultHead(r, w), '\t') && FreeOf(DefaultHostHead(r, w), '\t')
  {
    hide SERVICE_TAG, HOST_TAG, ParseNagiosState, ParseTimet;
    TagsFree();
  }

  lemma DefaultLineReads(r: CheckResult, w: Wording)
    requires FileRecord(r) && Says(w, r)
    ensures DefaultHead(r, w) == ["[SERVICEPERFDATA]", w.time, r.hostName, r.serviceDescription, w.state, r.pluginOutput]
    ensures ParseDefaultLine(Framed(DefaultHead(r, w), r.perfData)) == Ok(r.(checkCommand := ""))
  {
    hide Split, Join, ParseTimet, ParseNagiosState, FreeOf;
    DefaultHeadFree(r, w);
    FrameSplits(DefaultHead(r, w), r.perfData);
    JoinStartsWith(DefaultHead(r, w) + [r.perfData], '\t');
  }

  lemma DefaultHostLineReads(r: CheckResult, w: Wording)
    requires FileRecord(r) && Says(w, r)
    ensures DefaultHostHead(r, w) == ["[HOSTPERFDATA]", w.time, r.hostName, w.state, r.pluginOutput]
    ensures ParseDefaultHostLine(Framed(DefaultHostHead(r, w), r.perfData))
         == Ok(r.(checkCommand := "", serviceDescription := "Host Check"))
  {
    hide Split, Join, ParseTimet, ParseNagiosState, FreeOf;
    DefaultHeadFree(r, w);
    FrameSplits(DefaultHostHead(r, w), r.perfData);
    JoinStartsWith(DefaultHostHead(r, w) + [r.perfData], '\t');
  }

  // ---- the trimming that collecting does before parsing --------------------------

  lemma TrimRightDrop(a: string, b: string)
    requires b != "" && IsSpace(b[|b| - 1])
    ensures TrimRight(a + b, IsSpace) == TrimRight(a + b[..|b| - 1], IsSpace)
    ensures TrimRight(b, IsSpace) == TrimRight(b[..|b| - 1], IsSpace)
  {
    assert (a + b)[..|a + b| - 1] == a + b[..|b| - 1];
  }

  lemma {:induction false} TrimRightConcat(a: string, b: string)
    ensures TrimRight(a + b, IsSpace) == if TrimRight(b, IsSpace) != "" then a + TrimRight(b, IsSpace) else TrimRight(a, IsSpace)
    decreases |b|
  {
    if b == "" {
      EmptyConcat(a);
    } else if IsSpace(b[|b| - 1]) {
      hide TrimRight, IsSpace;
      TrimRightDrop(a, b);
      TrimRightConcat(a, b[..|b| - 1]);
    }
  }

  lemma TrimRightStart(s: string)
    requires s != "" && !IsSpace(s[0])
    ensures TrimSpace(s) == TrimRight(s, IsSpace)
  {
  }

  lemma {:induction false} SplitPrefix(p: string, q: string, sep: char)
    ensures |Split(p, sep)| <= |Split(p + q, sep)|
    decreases |p|
  {
    var i := Find(p, sep);
    if i >= 0 {
      SplitPrefix(p[i + 1..], q, sep);
      SameFirst(p, q, sep);
      assert (p + q)[i + 1..] == p[i + 1..] + q;
    }
  }

  lemma SameFirst(p: string, q: string, c: char)
    requires c in p
    ensures Find(p + q, c) == Find(p, c)
  {
    var i := Find(p, c);
    hide Find;
    assert (p + q)[i] == p[i];
    assert forall k :: 0 <= k < i ==> (p + q)[k] == p[k];
  }

  /**
    A frame trimmed as a whole: with visible perfdata only its trailing spaces go; without,
    a field is lost, and with it the frame's field count.
   */
  lemma FrameTrimmed(head: seq<string>, perfData: string)
    requires |head| > 0 && head[0] != "" && !IsSpace(head[0][0])
    requires FreeOf(head, '\t') && '\t' !in perfData
    ensures var t, p := TrimSpace(Framed(head, perfData)), TrimRight(perfData, IsSpace);
      if p != "" then t == Framed(head, p) else |Split(t, '\t')| <= |head|
  {
    hide TrimSpace, Split;
    var p := TrimRight(perfData, IsSpace);
    var h := Join(head, '\t');
    JoinSnoc(head, perfData, '\t');
    JoinSnoc(head, p, '\t');
    FrameStart(head, perfData);
    TrimRightStart(Framed(head, perfData));
    TrimRightConcat(h + ['\t'], perfData);
    if p == "" {
      TrimRightTab(h);
      var t := TrimRight(h, IsSpace);
      SplitJoin(head, '\t');
      SplitPrefix(t, h[|t|..], '\t');
      assert t + h[|t|..] == h;
    }
  }

  lemma TrimRightTab(h: string)
    ensures TrimRight(h + ['\t'], IsSpace) == TrimRight(h, IsSpace)
  {
    assert (h + ['\t'])[..|h|] == h;
  }

  lemma FrameStart(head: seq<string>, perfData: string)
    requires |head| > 0 && head[0] != ""
    ensures Framed(head, perfData) != "" && Framed(head, perfData)[0] == head[0][0]
  {
    JoinStartsWith(head + [perfData], '\t');
  }

  /**
    A default service line that collecting trims and parses keeps its record exactly when
    the check has visible perfdata; the perfdata then loses only trailing spaces. A check
    without perfdata is dropped as a line with too few fields.
   */
  lemma DefaultLineCollected(r: CheckResult, w: Wording)
    requires FileRecord(r) && Says(w, r)
    ensures var got, p := ParseDefaultLine(TrimSpace(Framed(DefaultHead(r, w), r.perfData))), TrimRight(r.perfData, IsSpace);
      && (got.Ok? <==> p != "")
      && (got.Ok? ==> got.value == r.(checkCommand := "", perfData := p))
  {
    hide ParseNagiosState, ParseTimet, TrimSpace, Split, Framed, FreeOf, TrimRight;
    DefaultHeadFree(r, w);
    FrameTrimmed(DefaultHead(r, w), r.perfData);
    var p := TrimRight(r.perfData, IsSpace);
    assert forall c :: c in p ==> c in r.perfData;
    if p != "" {
      DefaultLineReads(r.(perfData := p), w);
    }
  }

  lemma DefaultHostLineCollected(r: CheckResult, w: Wording)
    requires FileRecord(r) && Says(w, r)
    ensures var got, p := ParseDefaultHostLine(TrimSpace(Framed(DefaultHostHead(r, w), r.perfData))), TrimRight(r.perfData, IsSpace);
      && (got.Ok? <==> p != "")
      && (got.Ok? ==> got.value == r.(checkCommand := "", serviceDescription := "Host Check", perfData := p))
  {
    hide ParseNagiosState, ParseTimet, TrimSpace, Split, Framed, FreeOf, TrimRight;
    DefaultHeadFree(r, w);
    FrameTrimmed(DefaultHostHead(r, w), r.perfData);
    var p := TrimRight(r.perfData, IsSpace);
    assert forall c :: c in p ==> c in r.perfData;
    if p != "" {
      DefaultHostLineReads(r.(perfData := p), w);
    }
  }

  // ---- PNP4Nagios: KEY::VALUE parts ------------------------------------------------

  ghost predicate MarkAt(s: string, i: nat) {
    i + 1 < |s| && s[i] == ':' && s[i + 1] == ':'
  }

  /** `strings.Index(s, "::")`. */
  function FindMark(s: string): (i: int)
    ensures -1 <= i
    ensures i >= 0 ==> MarkAt(s, i) && forall k: nat :: k < i ==> !MarkAt(s, k)
    ensures i < 0 ==> forall k: nat :: !MarkAt(s, k)
  {
    if |s| < 2 then -1
    else if s[0] == ':' && s[1] == ':' then 0
    else
      var i := FindMark(s[1..]);
      assert forall k: nat :: k > 0 ==> MarkAt(s, k) == MarkAt(s[1..], k - 1);
      if i < 0 then -1 else i + 1
  }

  /** The key and value of a part, if it has a mark. */
  function Field(part: string): Option<(string, string)> {
    var i := FindMark(part);
    if i < 0 then None else Some((part[..i], part[i + 2..]))
  }

  function FieldMap(parts: seq<string>): map<string, string> {
    if |parts| == 0 then map[]
    else
      var fields := FieldMap(parts[..|parts| - 1]);
      match Field(parts[|parts| - 1])
      case None => fields
      case Some((key, value)) => fields[key := value]
  }

  method ParsePNP4NagiosFields(line: string) returns (fields: map<string, string>)
    ensures fields == FieldMap(Split(line, '\t'))
  {
    hide Split, FindMark;
    fields := map[];
    var parts := Split(line, '\t');
    for n := 0 to |parts|
      invariant fields == FieldMap(parts[..n])
    {
      var part := parts[n];
      assert parts[..n + 1][..n] == parts[..n];
      var idx := FindMark(part);
      if idx < 0 {
        continue;
      }
      fields := fields[part[..idx] := part[idx + 2..]];
    }
    assert parts[..|parts|] == parts;
  }

  /** The last part that carries a key. */
  ghost predicate LastWith(parts: seq<string>, key: string, i: nat) {
    && i < |parts| && Field(parts[i]).Some? && Field(parts[i]).value.0 == key
    && forall j :: i < j < |parts| && Field(parts[j]).Some? ==> Field(parts[j]).value.0 != key
  }

  /**
    The field map binds exactly the keys that some part carries, each to the value in the
    last part that carries it.
   */
  lemma {:induction false} FieldMapMeaning(parts: seq<string>, key: string)
    ensures key in FieldMap(parts) <==> exists i: nat :: LastWith(parts, key, i)
    ensures forall i: nat :: LastWith(parts, key, i) ==> key in FieldMap(parts) && FieldMap(parts)[key] == Field(parts[i]).value.1
  {
    if |parts| > 0 {
      hide Field;
      var init, n := parts[..|parts| - 1], |parts| - 1;
      FieldMapMeaning(init, key);
      if Field(parts[n]).Some? && Field(parts[n]).value.0 == key {
        LastWithEnd(parts, key);
        assert LastWith(parts, key, n);
      } else {
        forall i: nat
          ensures LastWith(parts, key, i) <==> LastWith(init, key, i)
        {
          LastWithInit(parts, key, i);
        }
      }
    }
  }

  lemma LastWithEnd(parts: seq<string>, key: string)
    requires |parts| > 0
    requires var f := Field(parts[|parts| - 1]); f.Some? && f.value.0 == key
    ensures forall i: nat :: LastWith(parts, key, i) <==> i == |parts| - 1
  {
    hide Field;
  }

  lemma LastWithInit(parts: seq<string>, key: string, i: nat)
    requires |parts| > 0
    requires var f := Field(parts[|parts| - 1]); f.Some? ==> f.value.0 != key
    ensures LastWith(parts, key, i) <==> LastWith(parts[..|parts| - 1], key, i)
  {
    hide Field;
    var init := parts[..|parts| - 1];
    assert forall j :: 0 <= j < |init| ==> init[j] == parts[j];
  }

  function Pair(key: string, value: string): string {
    key + "::" + value
  }

  function Pairs(fields: seq<(string, string)>): (parts: seq<string>)
    ensures |parts| == |fields|
    ensures forall i :: 0 <= i < |fields| ==> parts[i] == Pair(fields[i].0, fields[i].1)
  {
    seq(|fields|, i requires 0 <= i < |fields| => Pair(fields[i].0, fields[i].1))
  }

  function PnpLine(fields: seq<(string, string)>): string {
    Join(Pairs(fields), '\t')
  }

  /** Distinct keys free of colons, and no tabs; values may hold anything else, `::` included. */
  ghost predicate ValidFields(fields: seq<(string, string)>) {
    && |fields| > 0
    && (forall i :: 0 <= i < |fields| ==> ':' !in fields[i].0 && '\t' !in fields[i].0 && '\t' !in fields[i].1)
    && (forall i, j :: 0 <= i < j < |fields| ==> fields[i].0 != fields[j].0)
  }

  lemma PairReads(key: string, value: string)
    requires ':' !in key
    ensures Field(Pair(key, value)) == Some((key, value))
  {
    var s := Pair(key, value);
    assert MarkAt(s, |key|);
    assert forall k :: 0 <= k < |key| ==> s[k] == key[k] && key[k] in key;
    PairSides(key, value);
  }

  lemma PairSides(key: string, value: string)
    ensures Pair(key, value)[..|key|] == key && Pair(key, value)[|key| + 2..] == value
  {
  }

  lemma PnpLineSplits(fields: seq<(string, string)>)
    requires ValidFields(fields)
    ensures Split(PnpLine(fields), '\t') == Pairs(fields)
  {
    hide Split, Join;
    forall i | 0 <= i < |fields|
      ensures '\t' !in Pairs(fields)[i]
    {
      PairTabFree(fields[i].0, fields[i].1);
    }
    SplitJoin(Pairs(fields), '\t');
  }

  lemma PairTabFree(key: string, value: string)
    requires '\t' !in key && '\t' !in value
    ensures '\t' !in Pair(key, value)
  {
  }

  /** Reading a printed field list gives back every key with its value, and no other key. */
  lemma FieldsReadBack(fields: seq<(string, string)>)
    requires ValidFields(fields)
    ensures var m := FieldMap(Split(PnpLine(fields), '\t'));
      forall key, value :: (key in m && m[key] == value) <==> (key, value) in fields
  {
    hide Split, Field, FieldMap, PnpLine, Pair;
    PnpLineSplits(fields);
    var parts := Pairs(fields);
    var m := FieldMap(parts);
    forall i | 0 <= i < |fields|
      ensures Field(parts[i]) == Some(fields[i])
    {
      PairReads(fields[i].0, fields[i].1);
    }
    forall key, value
      ensures (key in m && m[key] == value) <==> (key, value) in fields
    {
      FieldMapMeaning(parts, key);
      if key in m {
        var i: nat :| LastWith(parts, key, i);
        assert fields[i] == (key, m[key]);
      }
      if (key, value) in fields {
        var i: nat :| i < |fields| && fields[i] == (key, value);
        assert LastWith(parts, key, i);
      }
    }
  }

  function Get(fields: map<string, string>, key: string): string {
    if key in fields then fields[key] else ""
  }

  function FieldsToService(fields: map<string, string>): Result<CheckResult, LineError> {
    if "HOSTNAME" !in fields then Err(MissingField("HOSTNAME"))
    else if "SERVICEDESC" !in fields then Err(MissingField("SERVICEDESC"))
    else Ok(CheckResult(fields["HOSTNAME"], fields["SERVICEDESC"], BaseCommand(Get(fields, "SERVICECHECKCOMMAND")),
                        ParseNagiosState(Get(fields, "SERVICESTATE")), Get(fields, "SERVICEOUTPUT"),
                        Get(fields, "SERVICEPERFDATA"), ParseTimet(Get(fields, "TIMET")), ZERO, ZERO))
  }

  function FieldsToHost(fields: map<string, string>): Result<CheckResult, LineError> {
    if "HOSTNAME" !in fields then Err(MissingField("HOSTNAME"))
    else Ok(CheckResult(fields["HOSTNAME"], "Host Check", BaseCommand(Get(fields, "HOSTCHECKCOMMAND")),
                        ParseNagiosState(Get(fields, "HOSTSTATE")), Get(fields, "HOSTOUTPUT"),
                        Get(fields, "HOSTPERFDATA"), ParseTimet(Get(fields, "TIMET")), ZERO, ZERO))
  }

  function ParsePNP4NagiosLine(line: string): Result<CheckResult, LineError> {
    FieldsToService(FieldMap(Split(line, '\t')))
  }

  function ParsePNP4NagiosHostLine(line: string): Result<CheckResult, LineError> {
    FieldsToHost(FieldMap(Split(line, '\t')))
  }

  /** A command with the arguments that Nagios puts behind it. */
  function FullCommand(cmd: string, args: Option<string>): string {
    if args.Some? then cmd + ['!'] + args.value else cmd
  }

  lemma CommandStripped(cmd: string, args: Option<string>)
    requires '!' !in cmd
    ensures BaseCommand(FullCommand(cmd, args)) == cmd
  {
    if args.Some? {
      FindAfter(cmd, '!', args.value);
      AroundSeparator(cmd, '!', args.value);
    }
  }

  /** A field list that gives a key a value, or none and the value is empty. */
  ghost predicate Gives(fields: seq<(string, string)>, key: string, value: string) {
    (key, value) in fields || (value == "" && forall v :: (key, v) !in fields)
  }

  lemma GivenRead(fields: seq<(string, string)>, key: string, value: string)
    requires ValidFields(fields) && Gives(fields, key, value)
    ensures Get(FieldMap(Split(PnpLine(fields), '\t')), key) == value
  {
    hide Split, FieldMap, PnpLine, ValidFields;
    FieldsReadBack(fields);
    var m := FieldMap(Split(PnpLine(fields), '\t'));
    if key in m {
      assert (key, m[key]) in fields;
    }
  }

  /** A service line with these fields, wherever they stand among others; all but two may be missing. */
  ghost predicate CarriesService(fields: seq<(string, string)>, r: CheckResult, w: Wording, args: Option<string>) {
    && ("HOSTNAME", r.hostName) in fields && ("SERVICEDESC", r.serviceDescription) in fields
    && Gives(fields, "SERVICESTATE", w.state) && Gives(fields, "SERVICEOUTPUT", r.pluginOutput)
    && Gives(fields, "SERVICEPERFDATA", r.perfData) && Gives(fields, "TIMET", w.time)
    && Gives(fields, "SERVICECHECKCOMMAND", FullCommand(r.checkCommand, args))
  }

  /** What a PNP4Nagios record is read as: its texts, and no timing. */
  ghost predicate PnpRecord(r: CheckResult, w: Wording) {
    && ParseNagiosState(w.state) == r.state && ParseTimet(w.time) == r.lastCheck
    && '!' !in r.checkCommand && r.executionTime == ZERO && r.latency == ZERO
  }

  /** A PNP4Nagios line reads back as the record it carries, whatever its field order and further or missing fields. */
  lemma PnpLineReads(fields: seq<(string, string)>, r: CheckResult, w: Wording, args: Option<string>)
    requires ValidFields(fields) && CarriesService(fields, r, w, args) && PnpRecord(r, w)
    ensures ParsePNP4NagiosLine(PnpLine(fields)) == Ok(r)
  {
    hide Split, FieldMap, PnpLine, ParseNagiosState, ParseTimet, BaseCommand, FullCommand, Gives, ValidFields;
    FieldsReadBack(fields);
    GivenRead(fields, "SERVICESTATE", w.state);
    GivenRead(fields, "SERVICEOUTPUT", r.pluginOutput);
    GivenRead(fields, "SERVICEPERFDATA", r.perfData);
    GivenRead(fields, "TIMET", w.time);
    GivenRead(fields, "SERVICECHECKCOMMAND", FullCommand(r.checkCommand, args));
    CommandStripped(r.checkCommand, args);
  }

  ghost predicate CarriesHost(fields: seq<(string, string)>, r: CheckResult, w: Wording, args: Option<string>) {
    && ("HOSTNAME", r.hostName) in fields
    && Gives(fields, "HOSTSTATE", w.state) && Gives(fields, "HOSTOUTPUT", r.pluginOutput)
    && Gives(fields, "HOSTPERFDATA", r.perfData) && Gives(fields, "TIMET", w.time)
    && Gives(fields, "HOSTCHECKCOMMAND", FullCommand(r.checkCommand, args))
  }

  lemma PnpHostLineReads(fields: seq<(string, string)>, r: CheckResult, w: Wording, args: Option<string>)
    requires ValidFields(fields) && CarriesHost(fields, r, w, args) && PnpRecord(r, w)
    ensures ParsePNP4NagiosHostLine(PnpLine(fields)) == Ok(r.(serviceDescription := "Host Check"))
  {
    hide Split, FieldMap, PnpLine, ParseNagiosState, ParseTimet, BaseCommand, FullCommand, Gives, ValidFields;
    FieldsReadBack(fields);
    GivenRead(fields, "HOSTSTATE", w.state);
    GivenRead(fields, "HOSTOUTPUT", r.pluginOutput);
    GivenRead(fields, "HOSTPERFDATA", r.perfData);
    GivenRead(fields, "TIMET", w.time);
    GivenRead(fields, "HOSTCHECKCOMMAND", FullCommand(r.checkCommand, args));
    CommandStripped(r.checkCommand, args);
  }

  /** A part of a line that binds a key. */
  ghost predicate Binds(line: string, key: string) {
    exists part :: part in Split(line, '\t') && Field(part).Some? && Field(part).value.0 == key
  }

  lemma {:induction false} BoundKeys(parts: seq<string>, key: string)
    ensures key in FieldMap(parts) <==> exists part :: part in parts && Field(part).Some? && Field(part).value.0 == key
  {
    if |parts| > 0 {
      hide Field;
      BoundKeys(parts[..|parts| - 1], key);
      Unsnoc(parts);
    }
  }

  /** PNP4Nagios lines are accepted exactly when some part binds each required key. */
  lemma PnpLinesAccepted(line: string)
    ensures ParsePNP4NagiosLine(line).Ok? <==> Binds(line, "HOSTNAME") && Binds(line, "SERVICEDESC")
    ensures ParsePNP4NagiosHostLine(line).Ok? <==> Binds(line, "HOSTNAME")
  {
    hide Split, Field, FieldMap, ParseTimet, ParseNagiosState, BaseCommand;
    BoundKeys(Split(line, '\t'), "HOSTNAME");
    BoundKeys(Split(line, '\t'), "SERVICEDESC");
  }

  /** Collecting trims the line first: that costs a PNP4Nagios line only the last value's trailing spaces. */
  lemma PnpLineCollected(fields: seq<(string, string)>)
    requires ValidFields(fields) && fields[0].0 != "" && !IsSpace(fields[0].0[0])
    ensures var n := |fields| - 1;
      TrimSpace(PnpLine(fields)) == PnpLine(fields[n := (fields[n].0, TrimRight(fields[n].1, IsSpace))])
  {
    hide TrimSpace, TrimRight, Join, Pair, Pairs;
    var n := |fields| - 1;
    var (key, value) := fields[n];
    var v := TrimRight(value, IsSpace);
    var trimmed := fields[n := (key, v)];
    var init := Pairs(fields[..n]);
    PairsSnoc(fields);
    PairsSnoc(trimmed);
    assert trimmed[..n] == fields[..n];
    PairTrimmed(key, value);
    PnpStart(fields);
    TrimRightStart(PnpLine(fields));
    if n > 0 {
      JoinSnoc(init, Pair(key, value), '\t');
      JoinSnoc(init, Pair(key, v), '\t');
      TrimRightConcat(Join(init, '\t') + ['\t'], Pair(key, value));
    } else {
      JoinOne(init, Pair(key, value));
      JoinOne(init, Pair(key, v));
    }
  }

  lemma JoinOne(init: seq<string>, s: string)
    requires init == []
    ensures Join(init + [s], '\t') == s
  {
    assert init + [s] == [s];
  }

  lemma PairsSnoc(fields: seq<(string, string)>)
    requires |fields| > 0
    ensures var n := |fields| - 1; Pairs(fields) == Pairs(fields[..n]) + [Pair(fields[n].0, fields[n].1)]
  {
    hide Pair;
  }

  lemma PairTrimmed(key: string, value: string)
    ensures TrimRight(Pair(key, value), IsSpace) == Pair(key, TrimRight(value, IsSpace)) != ""
  {
    hide TrimRight;
    TrimRightConcat(key + "::", value);
    MarkNotTrimmed(key);
    EmptyConcat(key + "::");
  }

  lemma MarkNotTrimmed(key: string)
    ensures TrimRight(key + "::", IsSpace) == key + "::"
  {
  }

  lemma PnpStart(fields: seq<(string, string)>)
    requires ValidFields(fields) && fields[0].0 != ""
    ensures PnpLine(fields) != "" && PnpLine(fields)[0] == fields[0].0[0]
  {
    hide Join;
    JoinStartsWith(Pairs(fields), '\t');
    assert Pairs(fields)[0] == Pair(fields[0].0, fields[0].1);
  }

  // ---- Livestatus rows ---------------------------------------------------------------

  function ParseLivestatusLine(line: string): Result<CheckResult, LineError> {
    var fields := Split(line, '\t');
    if |fields| < 9 then Err(TooFewFields(|fields|))
    else
      match ParseInt(fields[3])
      case BadSyntax => Err(BadState(fields[3]))
      case OutOfRange(_) => Err(BadState(fields[3]))
      case Int(state) =>
        Ok(CheckResult(fields[0], fields[1], BaseCommand(fields[2]), state, fields[5], fields[4],
                       IntOrZero(ParseInt(fields[6])), FloatOrZero(fields[7]), FloatOrZero(fields[8])))
  }

  function FloatOrZero(s: string): Decimal {
    match ParseFloat(s)
    case None => ZERO
    case Some(d) => d
  }

  function LivestatusColumns(r: CheckResult, args: Option<string>): seq<string> {
    [r.hostName, r.serviceDescription, FullCommand(r.checkCommand, args), FormatInt(r.state), r.perfData, r.pluginOutput,
     FormatInt(r.lastCheck), Spell(NumeralOf(r.executionTime)), Spell(NumeralOf(r.latency))]
  }

  ghost predicate LivestatusRecord(r: CheckResult, args: Option<string>) {
    && '\t' !in r.hostName && '\t' !in r.serviceDescription && '\t' !in r.pluginOutput && '\t' !in r.perfData
    && '\t' !in FullCommand(r.checkCommand, args) && '!' !in r.checkCommand
    && MIN_INT64 <= r.state <= MAX_INT64 && MIN_INT64 <= r.lastCheck <= MAX_INT64
  }

  lemma DecimalReads(d: Decimal)
    ensures FloatOrZero(Spell(NumeralOf(d))) == d && '\t' !in Spell(NumeralOf(d))
  {
    hide Spell, ParseFloat, NumeralOf;
    ParseFloatSpelled(NumeralOf(d));
    SpellingChars(NumeralOf(d));
  }

  lemma IntReads(v: int)
    requires MIN_INT64 <= v <= MAX_INT64
    ensures ParseInt(FormatInt(v)) == Int(v) && '\t' !in FormatInt(v)
  {
    hide ParseInt, FormatInt;
    ParseFormattedInt(v);
  }

  /** Every record read from a Livestatus row is the one written: perfdata semicolons and spaces included. */
  lemma LivestatusLineReads(r: CheckResult, args: Option<string>)
    requires LivestatusRecord(r, args)
    ensures LivestatusColumns(r, args) ==
      [r.hostName, r.serviceDescription, FullCommand(r.checkCommand, args), FormatInt(r.state), r.perfData, r.pluginOutput,
       FormatInt(r.lastCheck), Spell(NumeralOf(r.executionTime)), Spell(NumeralOf(r.latency))]
    ensures ParseLivestatusLine(Join(LivestatusColumns(r, args), '\t')) == Ok(r)
  {
    hide Split, Join, ParseInt, FormatInt, FloatOrZero, Spell, NumeralOf, BaseCommand, FullCommand;
    IntReads(r.state);
    IntReads(r.lastCheck);
    DecimalReads(r.executionTime);
    DecimalReads(r.latency);
    CommandStripped(r.checkCommand, args);
    SplitJoin(LivestatusColumns(r, args), '\t');
  }

  function Column(line: string, i: nat): string {
    var fields := Split(line, '\t');
    if i < |fields| then fields[i] else ""
  }

  /** A row is accepted exactly when it has at least nine columns and its state is an integer of 64 bits. */
  lemma LivestatusLinesAccepted(line: string)
    ensures ParseLivestatusLine(line).Ok? <==>
      Occurrences(line, '\t') >= 8 && ParseInt(Column(line, 3)).Int?
  {
    hide Split, Occurrences, ParseInt, FloatOrZero, BaseCommand;
    SplitCount(line, '\t');
  }

  // ---- lines of a perfdata file --------------------------------------------------------

  datatype Format = Default | Pnp4Nagios

  function ParseLine(line: string, format: Format, isHost: bool): Result<CheckResult, LineError> {
    match format
    case Default => if isHost then ParseDefaultHostLine(line) else ParseDefaultLine(line)
    case Pnp4Nagios => if isHost then ParsePNP4NagiosHostLine(line) else ParsePNP4NagiosLine(line)
  }

  /** The records of the lines that parse, in order; blank and unreadable lines are skipped. */
  function ParseLines(lines: seq<string>, format: Format, isHost: bool): seq<CheckResult> {
    if |lines| == 0 then []
    else
      var before := ParseLines(lines[..|lines| - 1], format, isHost);
      var line := TrimSpace(lines[|lines| - 1]);
      if line == "" then before
      else
        match ParseLine(line, format, isHost)
        case Err(_) => before
        case Ok(r) => before + [r]
  }

  method CollectLines(lines: seq<string>, format: Format, isHost: bool) returns (results: seq<CheckResult>)
    ensures results == ParseLines(lines, format, isHost)
  {
    hide ParseLine, TrimSpace;
    results := [];
    for i := 0 to |lines|
      invariant results == ParseLines(lines[..i], format, isHost)
    {
      assert lines[..i + 1][..i] == lines[..i];
      var line := TrimSpace(lines[i]);
      if line == "" {
        continue;
      }
      var r := ParseLine(line, format, isHost);
      if r.Err? {
        continue;
      }
      results := results + [r.value];
    }
    assert lines[..|lines|] == lines;
  }

  /** Parsing line by line does not depend on how the lines were batched. */
  lemma {:induction false} ParseLinesConcat(a: seq<string>, b: seq<string>, format: Format, isHost: bool)
    ensures ParseLines(a + b, format, isHost) == ParseLines(a, format, isHost) + ParseLines(b, format, isHost)
  {
    hide ParseLine, TrimSpace;
    if |b| == 0 {
      EmptyConcat(a);
      EmptyConcat(ParseLines(a, format, isHost));
    } else {
      var init := b[..|b| - 1];
      ParseLinesConcat(a, init, format, isHost);
      assert (a + b)[..|a + b| - 1] == a + init;
      assert (a + b)[|a + b| - 1] == b[|b| - 1];
    }
  }
}

/**
 The traceback compactor: a stream of `service | message` lines in, the same
 stream out with the scaffolding of registered LiteLLM tracebacks removed.
 The regular expressions and Unicode tables it consults are parameters, so the
 theorems hold for every choice of them and for every pattern registry.
 */
module LogFilter {
  import opened Sequences
  import opened Strings

  const HEADER := "Traceback (most recent call last):"
  const MAX_LINES := 512
  const MAX_BYTES := 256 * 1024
  const SERVICE_HINT := "litellm"

  /** What the filter asks of text libraries. */
  datatype Text = Text(
    stripAnsi: string -> string,
    stripTimestamp: string -> string,
    isSpace: char -> bool,
    lower: string -> string,
    isLogRecord: string -> bool,
    byteLen: string -> nat)

  datatype Pattern = Pattern(name: string, terminal: string -> bool, required: seq<string>)

  datatype ComposeLine = ComposeLine(raw: string, service: string, message: string)

  datatype Role = HeaderRole | Scaffold | Sideband | TerminalRole

  datatype BufferedLine = BufferedLine(raw: string, message: Option<string>, role: Role)

  // ---------------------------------------------------------------------
  // Reading one line
  // ---------------------------------------------------------------------

  function ParseComposeLine(t: Text, line: string): (r: Option<ComposeLine>)
    ensures r.Some? ==> r.value.raw == line && r.value.service != ""
  {
    var clean := t.stripAnsi(StripRight(c => c == '\r' || c == '\n', line));
    var bar := FirstIndex(c => c == '|', clean);
    if bar == |clean| then None else
      var service := Strip(t.isSpace, clean[..bar]);
      if service == "" then None else
        var message := clean[bar + 1..];
        var unpadded := if message != "" && message[0] == ' ' then message[1..] else message;
        Some(ComposeLine(line, service, t.stripTimestamp(unpadded)))
  }

  predicate IsLitellm(t: Text, line: ComposeLine) {
    Contains(t.lower(line.service), SERVICE_HINT)
  }

  /** A line that opens a candidate segment while the filter is idle. */
  predicate Opens(t: Text, raw: string) {
    var p := ParseComposeLine(t, raw);
    p.Some? && IsLitellm(t, p.value) && p.value.message == HEADER
  }

  function ServiceOf(t: Text, raw: string): string
    requires Opens(t, raw)
  {
    ParseComposeLine(t, raw).value.service
  }

  predicate Indented(t: Text, message: string) {
    message != "" && t.isSpace(message[0])
  }

  /** What a line is to a segment of service `svc` that is being held. */
  datatype Kind = Foreign | Header | Frame | Record | Terminal

  function KindOf(t: Text, svc: string, raw: string): Kind {
    var p := ParseComposeLine(t, raw);
    if p.None? || p.value.service != svc then Foreign
    else if p.value.message == HEADER then Header
    else if Strip(t.isSpace, p.value.message) == "" || Indented(t, p.value.message) then Frame
    else if t.isLogRecord(p.value.message) then Record
    else Terminal
  }

  /** A line that ends the unfiltered tail of an oversize segment of `svc`. */
  predicate EndsTail(t: Text, svc: string, raw: string) {
    var p := ParseComposeLine(t, raw);
    p.Some? && p.value.service == svc && p.value.message != ""
    && !Indented(t, p.value.message) && !t.isLogRecord(p.value.message)
  }

  function RoleOf(k: Kind): Role {
    match k
    case Foreign => Sideband
    case Header => HeaderRole
    case Frame => Scaffold
    case Record => Sideband
    case Terminal => TerminalRole
  }

  function MessageOf(t: Text, raw: string): Option<string> {
    match ParseComposeLine(t, raw)
    case None => None
    case Some(p) => Some(p.message)
  }

  /** The buffer entry a held line turns into. */
  function Entry(t: Text, svc: string, raw: string): BufferedLine {
    BufferedLine(raw, MessageOf(t, raw), RoleOf(KindOf(t, svc, raw)))
  }

  function Bytes(t: Text, lines: seq<string>): nat {
    if lines == [] then 0 else Bytes(t, Init(lines)) + t.byteLen(Last(lines))
  }

  predicate TooLarge(t: Text, lines: seq<string>) {
    |lines| > MAX_LINES || Bytes(t, lines) > MAX_BYTES
  }

  // ---------------------------------------------------------------------
  // Recognising a complete segment
  // ---------------------------------------------------------------------

  predicate PatternMatches(p: Pattern, text: string, terminal: string) {
    p.terminal(terminal) && forall f | f in p.required :: Contains(text, f)
  }

  predicate Registered(registry: seq<Pattern>, text: string, terminal: string) {
    exists i :: 0 <= i < |registry| && PatternMatches(registry[i], text, terminal)
  }

  /** The messages that are present. */
  function Present(ms: seq<Option<string>>): seq<string> {
    if ms == [] then []
    else (if ms[0].Some? then [ms[0].value] else []) + Present(ms[1..])
  }

  function TracebackText(t: Text, lines: seq<string>): string {
    JoinLines(Present(Map(raw => MessageOf(t, raw), lines)))
  }

  /** A held segment whose last line is its terminal exception is a known one. */
  predicate Known(t: Text, registry: seq<Pattern>, lines: seq<string>)
    requires lines != []
  {
    MessageOf(t, Last(lines)).Some?
    && Registered(registry, TracebackText(t, lines), MessageOf(t, Last(lines)).value)
  }

  predicate Scaffolding(t: Text, svc: string, raw: string) {
    KindOf(t, svc, raw) in {Header, Frame}
  }

  function Reduced(t: Text, svc: string, lines: seq<string>): seq<string> {
    Filter(raw => !Scaffolding(t, svc, raw), lines)
  }

  // ---------------------------------------------------------------------
  // The whole-input reference: cut the input into segments, render each
  // ---------------------------------------------------------------------

  datatype Segment =
    | Plain(line: string)
    | Complete(service: string, lines: seq<string>)
    | Interrupted(lines: seq<string>)
    | Oversize(held: seq<string>, tail: seq<string>)
    | Unfinished(lines: seq<string>)
  {
    function Raw(): seq<string> {
      match this
      case Plain(line) => [line]
      case Oversize(held, tail) => held + tail
      case _ => lines
    }

    function Render(t: Text, registry: seq<Pattern>): seq<string> {
      if Complete? && lines != [] && Known(t, registry, lines)
      then Reduced(t, service, lines)
      else Raw()
    }
  }

  /** The candidate that starts at `lines[0]` stops at line `k`. */
  predicate Boundary(t: Text, svc: string, lines: seq<string>, k: nat)
    requires k < |lines|
  {
    KindOf(t, svc, lines[k]) in {Header, Terminal} || TooLarge(t, lines[..k + 1])
  }

  function SegmentEnd(t: Text, svc: string, lines: seq<string>, k: nat): (e: nat)
    requires k <= |lines|
    ensures k <= e <= |lines|
    ensures forall j :: k <= j < e ==> !Boundary(t, svc, lines, j)
    ensures e < |lines| ==> Boundary(t, svc, lines, e)
    decreases |lines| - k
  {
    if k == |lines| || Boundary(t, svc, lines, k) then k else SegmentEnd(t, svc, lines, k + 1)
  }

  /** One past the line that ends an unfiltered tail, or the length. */
  function TailEnd(t: Text, svc: string, lines: seq<string>): (e: nat)
    ensures e <= |lines|
    ensures forall j :: 0 <= j < e - 1 ==> !EndsTail(t, svc, lines[j])
    ensures e < |lines| ==> e > 0 && EndsTail(t, svc, lines[e - 1])
  {
    if lines == [] then 0
    else if EndsTail(t, svc, lines[0]) then 1
    else 1 + TailEnd(t, svc, lines[1..])
  }

  function Cut(t: Text, lines: seq<string>): seq<Segment>
    decreases |lines|
  {
    if lines == [] then []
    else if !Opens(t, lines[0]) then [Plain(lines[0])] + Cut(t, lines[1..])
    else
      var svc := ServiceOf(t, lines[0]);
      var e := SegmentEnd(t, svc, lines, 1);
      if e == |lines| then [Unfinished(lines)]
      else match KindOf(t, svc, lines[e])
        case Header => [Interrupted(lines[..e])] + Cut(t, lines[e..])
        case Terminal => [Complete(svc, lines[..e + 1])] + Cut(t, lines[e + 1..])
        case _ =>
          var rest := lines[e + 1..];
          var f := TailEnd(t, svc, rest);
          [Oversize(lines[..e + 1], rest[..f])] + Cut(t, rest[f..])
  }

  function RenderAll(t: Text, registry: seq<Pattern>, segments: seq<Segment>): seq<string> {
    if segments == [] then []
    else segments[0].Render(t, registry) + RenderAll(t, registry, segments[1..])
  }

  function Reference(t: Text, registry: seq<Pattern>, lines: seq<string>): seq<string> {
    RenderAll(t, registry, Cut(t, lines))
  }

  /** `lines` may be held: they open with a header of `svc` and reach no boundary. */
  ghost predicate Held(t: Text, svc: string, lines: seq<string>) {
    lines != [] && Opens(t, lines[0]) && ServiceOf(t, lines[0]) == svc
    && forall k :: 1 <= k < |lines| ==> !Boundary(t, svc, lines, k)
  }

  /** `s`, followed by `rest`, is what its constructor says. */
  ghost predicate WellShaped(t: Text, s: Segment, rest: seq<string>) {
    match s
    case Plain(line) => !Opens(t, line)
    case Complete(svc, lines) =>
      |lines| > 1 && Held(t, svc, Init(lines)) && KindOf(t, svc, Last(lines)) == Terminal
    case Interrupted(lines) =>
      lines != [] && Opens(t, lines[0]) && Held(t, ServiceOf(t, lines[0]), lines)
      && rest != [] && KindOf(t, ServiceOf(t, lines[0]), rest[0]) == Header
    case Oversize(held, tail) =>
      |held| > 1 && Opens(t, held[0]) && (
        var svc := ServiceOf(t, held[0]);
        && Held(t, svc, Init(held)) && KindOf(t, svc, Last(held)) !in {Header, Terminal}
        && TooLarge(t, held)
        && (forall j :: 0 <= j < |tail| - 1 ==> !EndsTail(t, svc, tail[j]))
        && (rest != [] ==> tail != [])
        && (tail != [] && rest != [] ==> EndsTail(t, svc, Last(tail))))
    case Unfinished(lines) =>
      lines != [] && Opens(t, lines[0]) && Held(t, ServiceOf(t, lines[0]), lines) && rest == []
  }

  /** `segments` cut `lines` into well-shaped pieces that lose nothing. */
  ghost predicate WellCut(t: Text, segments: seq<Segment>, lines: seq<string>) {
    if segments == [] then lines == [] else
      var n := |segments[0].Raw()|;
      n <= |lines| && lines[..n] == segments[0].Raw()
      && WellShaped(t, segments[0], lines[n..])
      && WellCut(t, segments[1..], lines[n..])
  }

  // ---------------------------------------------------------------------
  // The streaming machine, one line at a time
  // ---------------------------------------------------------------------

  datatype Mode = Idle | Holding(service: string, held: seq<string>) | Passing(service: string)

  /** The filter between two lines: its mode, and what it yielded and dropped. */
  datatype State = State(mode: Mode, out: seq<string>, dropped: seq<string>)
  {
    function Buffered(): seq<string> {
      if mode.Holding? then mode.held else []
    }
  }

  const START := State(Idle, [], [])

  function StepHolding(t: Text, registry: seq<Pattern>, st: State, raw: string): State
    requires st.mode.Holding? && st.mode.held != []
  {
    var svc := st.mode.service;
    var grown := st.mode.held + [raw];
    match KindOf(t, svc, raw)
    case Header => State(Holding(svc, [raw]), st.out + st.mode.held, st.dropped)
    case Terminal =>
      if Known(t, registry, grown)
      then State(Idle, st.out + Reduced(t, svc, grown),
                 st.dropped + Filter(x => Scaffolding(t, svc, x), grown))
      else State(Idle, st.out + grown, st.dropped)
    case _ =>
      if TooLarge(t, grown) then State(Passing(svc), st.out + grown, st.dropped)
      else State(Holding(svc, grown), st.out, st.dropped)
  }

  function Step(t: Text, registry: seq<Pattern>, st: State, raw: string): State
    requires st.mode.Holding? ==> st.mode.held != []
  {
    match st.mode
    case Passing(svc) =>
      State(if EndsTail(t, svc, raw) then Idle else st.mode, st.out + [raw], st.dropped)
    case Idle =>
      if Opens(t, raw) then State(Holding(ServiceOf(t, raw), [raw]), st.out, st.dropped)
      else State(Idle, st.out + [raw], st.dropped)
    case Holding(_, _) => StepHolding(t, registry, st, raw)
  }

  /** The state after the whole of `lines` was consumed, before the end of input is seen. */
  function After(t: Text, registry: seq<Pattern>, lines: seq<string>): (st: State)
    ensures st.mode.Holding? ==> st.mode.held != []
  {
    if lines == [] then START
    else Step(t, registry, After(t, registry, Init(lines)), Last(lines))
  }

  /** The complete output: an unfinished segment is released at the end of input. */
  function Finish(st: State): seq<string> {
    st.out + st.Buffered()
  }

  // ---------------------------------------------------------------------
  // The machine computes the reference
  // ---------------------------------------------------------------------

  ghost predicate ValidMode(t: Text, mode: Mode) {
    mode.Holding? ==> Held(t, mode.service, mode.held)
  }

  /** What the reference yields for `rest` when the machine is in `mode`. */
  ghost function Continuation(t: Text, registry: seq<Pattern>, mode: Mode, rest: seq<string>): seq<string> {
    match mode
    case Idle => Reference(t, registry, rest)
    case Holding(_, held) => Reference(t, registry, held + rest)
    case Passing(svc) =>
      var f := TailEnd(t, svc, rest);
      rest[..f] + Reference(t, registry, rest[f..])
  }

  lemma BoundaryLocal(t: Text, svc: string, a: seq<string>, b: seq<string>, k: nat)
    requires k < |a|
    ensures Boundary(t, svc, a + b, k) == Boundary(t, svc, a, k)
  {
    assert (a + b)[..k + 1] == a[..k + 1];
  }

  /** A held prefix followed by a boundary line is cut exactly there. */
  lemma {:induction false} SegmentEndAt(t: Text, svc: string, held: seq<string>, more: seq<string>, k: nat)
    requires Held(t, svc, held) && 1 <= k <= |held|
    requires more != [] ==> Boundary(t, svc, held + more, |held|)
    ensures SegmentEnd(t, svc, held + more, k) == |held|
    decreases |held| - k
  {
    if k < |held| {
      BoundaryLocal(t, svc, held, more, k);
      SegmentEndAt(t, svc, held, more, k + 1);
    }
  }

  lemma HeldRendersRaw(t: Text, registry: seq<Pattern>, svc: string, held: seq<string>)
    requires Held(t, svc, held)
    ensures Cut(t, held) == [Unfinished(held)]
    ensures Reference(t, registry, held) == held
  {
    assert held + [] == held;
    SegmentEndAt(t, svc, held, [], 1);
    assert RenderAll(t, registry, [Unfinished(held)]) == held;
  }

  lemma CutPlain(t: Text, registry: seq<Pattern>, raw: string, rest: seq<string>)
    requires !Opens(t, raw)
    ensures Reference(t, registry, [raw] + rest) == [raw] + Reference(t, registry, rest)
  {
    var input := [raw] + rest;
    assert input[0] == raw && input[1..] == rest;
    assert Cut(t, input) == [Plain(raw)] + Cut(t, rest);
    assert Plain(raw).Render(t, registry) == [raw];
  }

  /** The reference cut where a segment opens and does not run to the end. */
  lemma CutOpened(t: Text, svc: string, lines: seq<string>, e: nat)
    requires lines != [] && Opens(t, lines[0]) && ServiceOf(t, lines[0]) == svc
    requires e == SegmentEnd(t, svc, lines, 1) && e < |lines|
    ensures Cut(t, lines) == match KindOf(t, svc, lines[e])
      case Header => [Interrupted(lines[..e])] + Cut(t, lines[e..])
      case Terminal => [Complete(svc, lines[..e + 1])] + Cut(t, lines[e + 1..])
      case _ =>
        var rest := lines[e + 1..];
        [Oversize(lines[..e + 1], rest[..TailEnd(t, svc, rest)])] + Cut(t, rest[TailEnd(t, svc, rest)..])
  {
    hide ParseComposeLine, KindOf, Opens, ServiceOf, SegmentEnd, TailEnd, TooLarge, Boundary;
  }

  /** The same for a held prefix that a boundary line follows. */
  lemma CutHeld(t: Text, svc: string, held: seq<string>, raw: string, rest: seq<string>)
    requires Held(t, svc, held) && (KindOf(t, svc, raw) in {Header, Terminal} || TooLarge(t, held + [raw]))
    ensures Cut(t, held + ([raw] + rest)) == match KindOf(t, svc, raw)
      case Header => [Interrupted(held)] + Cut(t, [raw] + rest)
      case Terminal => [Complete(svc, held + [raw])] + Cut(t, rest)
      case _ => [Oversize(held + [raw], rest[..TailEnd(t, svc, rest)])] + Cut(t, rest[TailEnd(t, svc, rest)..])
  {
    hide ParseComposeLine, KindOf, Opens, ServiceOf, SegmentEnd, TailEnd, TooLarge, Cut;
    var all := held + ([raw] + rest);
    AroundMiddle(held, raw, rest);
    SegmentEndAt(t, svc, held, [raw] + rest, 1);
    assert all[0] == held[0];
    CutOpened(t, svc, all, |held|);
  }

  lemma CutInterrupted(t: Text, registry: seq<Pattern>, svc: string, held: seq<string>, raw: string, rest: seq<string>)
    requires Held(t, svc, held) && KindOf(t, svc, raw) == Header
    ensures Cut(t, held + ([raw] + rest)) == [Interrupted(held)] + Cut(t, [raw] + rest)
    ensures Reference(t, registry, held + ([raw] + rest)) == held + Reference(t, registry, [raw] + rest)
  {
    hide KindOf, Held, Cut, TooLarge;
    CutHeld(t, svc, held, raw, rest);
    assert Interrupted(held).Render(t, registry) == held;
  }

  lemma CutComplete(t: Text, registry: seq<Pattern>, svc: string, held: seq<string>, raw: string, rest: seq<string>)
    requires Held(t, svc, held) && KindOf(t, svc, raw) == Terminal
    ensures Cut(t, held + ([raw] + rest)) == [Complete(svc, held + [raw])] + Cut(t, rest)
    ensures Reference(t, registry, held + ([raw] + rest))
         == Complete(svc, held + [raw]).Render(t, registry) + Reference(t, registry, rest)
  {
    hide KindOf, Held, Cut, TooLarge, Known, Reduced;
    CutHeld(t, svc, held, raw, rest);
  }

  lemma CutOversize(t: Text, svc: string, held: seq<string>, raw: string, rest: seq<string>)
    requires Held(t, svc, held) && KindOf(t, svc, raw) !in {Header, Terminal} && TooLarge(t, held + [raw])
    ensures var f := TailEnd(t, svc, rest);
      Cut(t, held + ([raw] + rest)) == [Oversize(held + [raw], rest[..f])] + Cut(t, rest[f..])
  {
    hide KindOf, Held, Cut, TooLarge, TailEnd;
    CutHeld(t, svc, held, raw, rest);
  }

  lemma RenderOversize(t: Text, registry: seq<Pattern>, svc: string, held: seq<string>, raw: string, rest: seq<string>)
    requires Held(t, svc, held) && KindOf(t, svc, raw) !in {Header, Terminal} && TooLarge(t, held + [raw])
    ensures Reference(t, registry, held + ([raw] + rest))
         == held + [raw] + Continuation(t, registry, Passing(svc), rest)
  {
    hide ParseComposeLine, KindOf, TooLarge, Cut, TailEnd, Held;
    var f := TailEnd(t, svc, rest);
    var seg := Oversize(held + [raw], rest[..f]);
    CutOversize(t, svc, held, raw, rest);
    assert seg.Render(t, registry) == held + [raw] + rest[..f];
    Assoc(held + [raw], rest[..f], Reference(t, registry, rest[f..]));
    assert RenderAll(t, registry, [seg] + Cut(t, rest[f..])) == seg.Render(t, registry)
        + Reference(t, registry, rest[f..]);
  }

  lemma HeldGrows(t: Text, svc: string, held: seq<string>, raw: string)
    requires Held(t, svc, held) && KindOf(t, svc, raw) !in {Header, Terminal} && !TooLarge(t, held + [raw])
    ensures Held(t, svc, held + [raw])
  {
    var grown := held + [raw];
    forall k | 1 <= k < |grown| ensures !Boundary(t, svc, grown, k) {
      if k < |held| {
        BoundaryLocal(t, svc, held, [raw], k);
      } else {
        assert grown[..k + 1] == grown;
      }
    }
  }

  /** A header of the held service opens a segment of its own. */
  lemma HeaderOpens(t: Text, svc: string, held: seq<string>, raw: string)
    requires Held(t, svc, held) && KindOf(t, svc, raw) == Header
    ensures Held(t, svc, [raw])
  {
    assert IsLitellm(t, ParseComposeLine(t, held[0]).value);
  }

  lemma HoldingStep(t: Text, registry: seq<Pattern>, st: State, raw: string, rest: seq<string>)
    requires st.mode.Holding? && ValidMode(t, st.mode)
    ensures ValidMode(t, StepHolding(t, registry, st, raw).mode)
    ensures st.out + Reference(t, registry, st.mode.held + ([raw] + rest))
         == StepHolding(t, registry, st, raw).out + Continuation(t, registry, StepHolding(t, registry, st, raw).mode,
             rest)
  {
    hide ParseComposeLine, Reference, TooLarge, Bytes;
    var svc, held := st.mode.service, st.mode.held;
    match KindOf(t, svc, raw) {
      case Header =>
        HeaderOpens(t, svc, held, raw);
        CutInterrupted(t, registry, svc, held, raw, rest);
        Assoc(st.out, held, Reference(t, registry, [raw] + rest));
      case Terminal =>
        CutComplete(t, registry, svc, held, raw, rest);
        Assoc(st.out, Complete(svc, held + [raw]).Render(t, registry), Reference(t, registry, rest));
      case _ =>
        if TooLarge(t, held + [raw]) {
          RenderOversize(t, registry, svc, held, raw, rest);
          Assoc(st.out, held + [raw], Continuation(t, registry, Passing(svc), rest));
        } else {
          HeldGrows(t, svc, held, raw);
          assert held + ([raw] + rest) == held + [raw] + rest;
        }
    }
  }

  lemma PassingStep(t: Text, registry: seq<Pattern>, svc: string, raw: string, rest: seq<string>)
    ensures Continuation(t, registry, Passing(svc), [raw] + rest)
         == [raw] + Continuation(t, registry, if EndsTail(t, svc, raw) then Idle else Passing(svc), rest)
  {
    hide ParseComposeLine, EndsTail, Reference;
    var input := [raw] + rest;
    assert input[0] == raw && input[1..] == rest;
    var f := TailEnd(t, svc, rest);
    if EndsTail(t, svc, raw) {
      assert TailEnd(t, svc, input) == 1 && input[..1] == [raw];
    } else {
      assert input[..f + 1] == [raw] + rest[..f] && input[f + 1..] == rest[f..];
    }
  }

  lemma StepAgrees(t: Text, registry: seq<Pattern>, st: State, raw: string, rest: seq<string>)
    requires ValidMode(t, st.mode)
    ensures ValidMode(t, Step(t, registry, st, raw).mode)
    ensures st.out + Continuation(t, registry, st.mode, [raw] + rest)
         == Step(t, registry, st, raw).out + Continuation(t, registry, Step(t, registry, st, raw).mode, rest)
  {
    match st.mode {
      case Holding(_, _) => HoldingStep(t, registry, st, raw, rest);
      case Idle =>
        if !Opens(t, raw) {
          CutPlain(t, registry, raw, rest);
          Assoc(st.out, [raw], Reference(t, registry, rest));
        }
      case Passing(svc) =>
        PassingStep(t, registry, svc, raw, rest);
        Assoc(st.out, [raw], Continuation(t, registry, Step(t, registry, st, raw).mode, rest));
    }
  }

  lemma {:induction false} AfterAgrees(t: Text, registry: seq<Pattern>, lines: seq<string>, rest: seq<string>)
    ensures ValidMode(t, After(t, registry, lines).mode)
    ensures After(t, registry, lines).out + Continuation(t, registry, After(t, registry, lines).mode, rest)
         == Reference(t, registry, lines + rest)
  {
    if lines == [] {
      assert lines + rest == rest;
    } else {
      var before := After(t, registry, Init(lines));
      var more := [Last(lines)] + rest;
      assert Init(lines) + more == lines + rest;
      AfterAgrees(t, registry, Init(lines), more);
      StepAgrees(t, registry, before, Last(lines), rest);
      assert After(t, registry, lines) == Step(t, registry, before, Last(lines));
    }
  }

  /** Main result: the streaming machine's whole output is the whole-input reference. */
  lemma StreamIsReference(t: Text, registry: seq<Pattern>, lines: seq<string>)
    ensures Finish(After(t, registry, lines)) == Reference(t, registry, lines)
  {
    AfterAgrees(t, registry, lines, []);
    assert lines + [] == lines;
    var mode := After(t, registry, lines).mode;
    if mode.Holding? {
      HeldRendersRaw(t, registry, mode.service, mode.held);
      assert mode.held + [] == mode.held;
    }
  }

  // ---------------------------------------------------------------------
  // The reference cut is the only well-shaped one
  // ---------------------------------------------------------------------

  lemma HeldPrefix(t: Text, svc: string, lines: seq<string>, e: nat)
    requires lines != [] && Opens(t, lines[0]) && ServiceOf(t, lines[0]) == svc
    requires 1 <= e <= |lines| && forall k :: 1 <= k < e ==> !Boundary(t, svc, lines, k)
    ensures Held(t, svc, lines[..e])
  {
    forall k | 1 <= k < e ensures !Boundary(t, svc, lines[..e], k) {
      assert lines[..e] + lines[e..] == lines;
      BoundaryLocal(t, svc, lines[..e], lines[e..], k);
    }
  }

  lemma FirstSegmentShape(t: Text, lines: seq<string>)
    requires lines != []
    ensures var first := Cut(t, lines)[0]; var n := |first.Raw()|;
      0 < n <= |lines| && lines[..n] == first.Raw()
      && WellShaped(t, first, lines[n..]) && Cut(t, lines)[1..] == Cut(t, lines[n..])
  {
    if Opens(t, lines[0]) {
      var svc := ServiceOf(t, lines[0]);
      var e := SegmentEnd(t, svc, lines, 1);
      HeldPrefix(t, svc, lines, e);
      if e == |lines| {
        assert lines[..e] == lines && lines[e..] == [];
      } else {
        OpenedSegmentShape(t, svc, lines, e);
      }
    }
  }

  lemma SplitAround<T>(s: seq<T>, e: nat, f: nat)
    requires e + 1 + f <= |s|
    ensures Init(s[..e + 1]) == s[..e] && Last(s[..e + 1]) == s[e] && s[..e + 1][0] == s[0]
    ensures s[..e + 1] + s[e + 1..][..f] == s[..e + 1 + f] && s[e + 1 + f..] == s[e + 1..][f..]
  {}

  lemma OpenedSegmentShape(t: Text, svc: string, lines: seq<string>, e: nat)
    requires lines != [] && Opens(t, lines[0]) && ServiceOf(t, lines[0]) == svc
    requires e == SegmentEnd(t, svc, lines, 1) && e < |lines| && Held(t, svc, lines[..e])
    ensures var first := Cut(t, lines)[0]; var n := |first.Raw()|;
      0 < n <= |lines| && lines[..n] == first.Raw()
      && WellShaped(t, first, lines[n..]) && Cut(t, lines)[1..] == Cut(t, lines[n..])
  {
    hide ParseComposeLine, KindOf, SegmentEnd, TailEnd, TooLarge, Cut, Held, Opens, ServiceOf;
    SplitAround(lines, e, 0);
    HeldIsNotEmpty(t, svc, lines[..e]);
    CutOpened(t, svc, lines, e);
    if KindOf(t, svc, lines[e]) !in {Header, Terminal} {
      OversizeShape(t, svc, lines, e);
    }
  }

  lemma RejoinAt<T>(s: seq<T>, e: nat)
    requires e < |s|
    ensures s == s[..e] + ([s[e]] + s[e + 1..]) && s[..e] + [s[e]] == s[..e + 1]
  {}

  lemma HeldIsNotEmpty(t: Text, svc: string, held: seq<string>)
    requires Held(t, svc, held)
    ensures held != []
  {}

  lemma OversizeShape(t: Text, svc: string, lines: seq<string>, e: nat)
    requires lines != [] && Opens(t, lines[0]) && ServiceOf(t, lines[0]) == svc
    requires e == SegmentEnd(t, svc, lines, 1) && e < |lines| && Held(t, svc, lines[..e])
    requires KindOf(t, svc, lines[e]) !in {Header, Terminal} && TooLarge(t, lines[..e + 1])
    ensures var first := Cut(t, lines)[0]; var n := |first.Raw()|;
      0 < n <= |lines| && lines[..n] == first.Raw()
      && WellShaped(t, first, lines[n..]) && Cut(t, lines)[1..] == Cut(t, lines[n..])
  {
    hide ParseComposeLine, KindOf, Opens, ServiceOf, Cut, SegmentEnd, TailEnd, Boundary, TooLarge, Held, WellShaped;
    var held, rest := lines[..e + 1], lines[e + 1..];
    var f := TailEnd(t, svc, rest);
    SplitAround(lines, e, f);
    HeldIsNotEmpty(t, svc, lines[..e]);
    WellShapedOversize(t, svc, held, rest, f);
    RejoinAt(lines, e);
    CutOversize(t, svc, lines[..e], lines[e], rest);
  }

  lemma WellShapedOversize(t: Text, svc: string, held: seq<string>, rest: seq<string>, f: nat)
    requires |held| > 1 && Held(t, svc, Init(held)) && TooLarge(t, held)
    requires KindOf(t, svc, Last(held)) !in {Header, Terminal} && f == TailEnd(t, svc, rest)
    ensures WellShaped(t, Oversize(held, rest[..f]), rest[f..])
  {
    assert held[0] == Init(held)[0];
  }

  lemma {:induction false} CutIsWellCut(t: Text, lines: seq<string>)
    ensures WellCut(t, Cut(t, lines), lines)
    decreases |lines|
  {
    if lines != [] {
      FirstSegmentShape(t, lines);
      CutIsWellCut(t, lines[|Cut(t, lines)[0].Raw()|..]);
    }
  }

  lemma {:induction false} TailEndAt(t: Text, svc: string, tail: seq<string>, rest: seq<string>)
    requires forall j :: 0 <= j < |tail| - 1 ==> !EndsTail(t, svc, tail[j])
    requires rest != [] ==> tail != [] && EndsTail(t, svc, Last(tail))
    ensures TailEnd(t, svc, tail + rest) == |tail|
  {
    if tail != [] {
      var all := tail + rest;
      assert all[0] == tail[0] && all[1..] == tail[1..] + rest;
      if |tail| > 1 {
        assert Last(tail[1..]) == Last(tail);
        TailEndAt(t, svc, tail[1..], rest);
      } else if !EndsTail(t, svc, tail[0]) {
        assert tail[1..] + rest == [];
      }
    }
  }

  lemma OversizeForced(t: Text, held: seq<string>, tail: seq<string>, rest: seq<string>)
    requires WellShaped(t, Oversize(held, tail), rest)
    ensures Cut(t, held + tail + rest) == [Oversize(held, tail)] + Cut(t, rest)
  {
    var svc := ServiceOf(t, held[0]);
    var after := tail + rest;
    assert held + tail + rest == Init(held) + ([Last(held)] + after);
    assert Init(held) + [Last(held)] == held;
    CutOversize(t, svc, Init(held), Last(held), after);
    TailEndAt(t, svc, tail, rest);
    assert after[..|tail|] == tail && after[|tail|..] == rest;
  }

  lemma FirstSegmentForced(t: Text, s: Segment, rest: seq<string>)
    requires WellShaped(t, s, rest)
    ensures s.Raw() != [] && Cut(t, s.Raw() + rest) == [s] + Cut(t, rest)
  {
    match s {
      case Plain(line) =>
        assert ([line] + rest)[1..] == rest;
      case Complete(svc, lines) =>
        assert lines + rest == Init(lines) + ([Last(lines)] + rest) && Init(lines) + [Last(lines)] == lines;
        CutComplete(t, [], svc, Init(lines), Last(lines), rest);
      case Interrupted(lines) =>
        assert rest == [rest[0]] + rest[1..];
        CutInterrupted(t, [], ServiceOf(t, lines[0]), lines, rest[0], rest[1..]);
      case Oversize(held, tail) =>
        OversizeForced(t, held, tail, rest);
      case Unfinished(lines) =>
        HeldRendersRaw(t, [], ServiceOf(t, lines[0]), lines);
        assert lines + rest == lines;
    }
  }

  /** Any list of well-shaped segments that covers the input is the reference cut. */
  lemma {:induction false} CutIsUnique(t: Text, segments: seq<Segment>, lines: seq<string>)
    ensures WellCut(t, segments, lines) <==> segments == Cut(t, lines)
  {
    CutIsWellCut(t, lines);
    if WellCut(t, segments, lines) && segments != [] {
      var n := |segments[0].Raw()|;
      FirstSegmentForced(t, segments[0], lines[n..]);
      assert segments[0].Raw() + lines[n..] == lines;
      CutIsUnique(t, segments[1..], lines[n..]);
    }
  }

  // ---------------------------------------------------------------------
  // What every moment of a stream keeps
  // ---------------------------------------------------------------------

  /** The only lines compaction may ever remove. */
  predicate Removable(t: Text, raw: string) {
    var p := ParseComposeLine(t, raw);
    p.Some? && IsLitellm(t, p.value)
    && (p.value.message == HEADER || Strip(t.isSpace, p.value.message) == "" || Indented(t, p.value.message))
  }

  lemma HeldScaffoldingIsRemovable(t: Text, svc: string, held: seq<string>, raw: string)
    requires Held(t, svc, held) && Scaffolding(t, svc, raw)
    ensures Removable(t, raw)
  {
    assert IsLitellm(t, ParseComposeLine(t, held[0]).value);
  }

  /** This line completes a segment the registry knows. */
  predicate Reduces(t: Text, registry: seq<Pattern>, st: State, raw: string) {
    st.mode.Holding? && KindOf(t, st.mode.service, raw) == Terminal && Known(t, registry, st.mode.held + [raw])
  }

  /** A step copies its line, unless it completes a known segment. */
  lemma FinishStep(t: Text, registry: seq<Pattern>, st: State, raw: string)
    requires st.mode.Holding? ==> st.mode.held != []
    ensures var next := Step(t, registry, st, raw);
      if Reduces(t, registry, st, raw) then
        var svc, grown := st.mode.service, st.mode.held + [raw];
        && Finish(st) + [raw] == st.out + grown
        && Finish(next) == st.out + Reduced(t, svc, grown)
        && next.dropped == st.dropped + Filter(x => Scaffolding(t, svc, x), grown)
      else
        Finish(next) == Finish(st) + [raw] && next.dropped == st.dropped
  {
    if st.mode.Holding? {
      Assoc(st.out, st.mode.held, [raw]);
    }
  }

  /** Consumed lines are yielded, dropped or held, and nothing else. */
  ghost predicate Accounted(t: Text, lines: seq<string>, st: State) {
    multiset(lines) == multiset(Finish(st)) + multiset(st.dropped)
    && forall x :: x in st.dropped ==> Removable(t, x)
  }

  lemma ReductionAccounts(t: Text, svc: string, held: seq<string>, grown: seq<string>)
    requires Held(t, svc, held)
    ensures multiset(Reduced(t, svc, grown)) + multiset(Filter(x => Scaffolding(t, svc, x), grown)) == multiset(grown)
    ensures forall x :: x in Filter(x => Scaffolding(t, svc, x), grown) ==> Removable(t, x)
  {
    var scaffolding := x => Scaffolding(t, svc, x);
    FilterMembers(scaffolding, grown);
    forall x | x in Filter(scaffolding, grown) ensures Removable(t, x) {
      HeldScaffoldingIsRemovable(t, svc, held, x);
    }
    FilterSplits(x => !Scaffolding(t, svc, x), scaffolding, grown);
  }

  lemma SplitAccounts<T>(lines: seq<T>, fin: seq<T>, dropped: seq<T>, out: seq<T>,
                         grown: seq<T>, kept: seq<T>, removed: seq<T>, raw: T)
    requires multiset(lines) == multiset(fin) + multiset(dropped)
    requires fin + [raw] == out + grown && multiset(kept) + multiset(removed) == multiset(grown)
    ensures multiset(lines + [raw]) == multiset(out + kept) + multiset(dropped + removed)
  {
    calc {
      multiset(lines + [raw]);
      multiset(lines) + multiset([raw]);
      multiset(fin) + multiset([raw]) + multiset(dropped);
      { assert multiset(fin) + multiset([raw]) == multiset(fin + [raw]); }
      multiset(out + grown) + multiset(dropped);
      multiset(out) + multiset(kept) + multiset(removed) + multiset(dropped);
      multiset(out + kept) + multiset(dropped + removed);
    }
  }

  lemma StepAccounts(t: Text, registry: seq<Pattern>, lines: seq<string>, st: State, raw: string)
    requires ValidMode(t, st.mode) && Accounted(t, lines, st)
    ensures Accounted(t, lines + [raw], Step(t, registry, st, raw))
  {
    var next := Step(t, registry, st, raw);
    FinishStep(t, registry, st, raw);
    if Reduces(t, registry, st, raw) {
      var svc, grown := st.mode.service, st.mode.held + [raw];
      ReductionAccounts(t, svc, st.mode.held, grown);
      SplitAccounts(lines, Finish(st), st.dropped, st.out, grown, Reduced(t, svc, grown),
                    Filter(x => Scaffolding(t, svc, x), grown), raw);
    } else {
      SplitAccounts(lines, Finish(st), st.dropped, Finish(st), [raw], [raw], [], raw);
      assert st.dropped + [] == st.dropped;
    }
  }

  lemma {:induction false} EveryLineAccounted(t: Text, registry: seq<Pattern>, lines: seq<string>)
    ensures Accounted(t, lines, After(t, registry, lines))
  {
    hide Step, Reference, Continuation, ParseComposeLine;
    if lines != [] {
      EveryLineAccounted(t, registry, Init(lines));
      AfterAgrees(t, registry, Init(lines), []);
      StepAccounts(t, registry, Init(lines), After(t, registry, Init(lines)), Last(lines));
      assert Init(lines) + [Last(lines)] == lines;
    }
  }

  /**
   The buffer never holds a live stream back further than the bound: at most 512
   lines and 256 KiB, except that a lone header line is not size-checked.
   */
  lemma BufferIsBounded(t: Text, registry: seq<Pattern>, lines: seq<string>)
    ensures var held := After(t, registry, lines).Buffered();
      |held| <= MAX_LINES && (Bytes(t, held) <= MAX_BYTES || |held| == 1)
    ensures var st := After(t, registry, lines);
      |lines| == |st.out| + |st.dropped| + |st.Buffered()|
  {
    AfterAgrees(t, registry, lines, []);
    EveryLineAccounted(t, registry, lines);
    var st := After(t, registry, lines);
    assert |multiset(lines)| == |multiset(Finish(st))| + |multiset(st.dropped)|;
    if st.mode.Holding? && |st.mode.held| > 1 {
      var held := st.mode.held;
      assert !Boundary(t, st.mode.service, held, |held| - 1);
      assert held[..|held|] == held;
    }
  }

  /** The byte bound is exceeded exactly while one oversize header line is held. */
  lemma ByteBoundExactly(t: Text, registry: seq<Pattern>, lines: seq<string>)
    ensures Bytes(t, After(t, registry, lines).Buffered()) > MAX_BYTES
       <==> lines != [] && t.byteLen(Last(lines)) > MAX_BYTES
            && After(t, registry, lines).Buffered() == [Last(lines)]
  {
    BufferIsBounded(t, registry, lines);
    var held := After(t, registry, lines).Buffered();
    if |held| == 1 {
      assert Bytes(t, held) == Bytes(t, []) + t.byteLen(held[0]);
      HeldEndsWithLast(t, registry, lines);
    }
  }

  lemma HeldEndsWithLast(t: Text, registry: seq<Pattern>, lines: seq<string>)
    requires After(t, registry, lines).Buffered() != []
    ensures lines != [] && Last(After(t, registry, lines).Buffered()) == Last(lines)
  {}

  lemma StepKeeps(t: Text, registry: seq<Pattern>, p: string -> bool, st: State, raw: string)
    requires ValidMode(t, st.mode)
    requires forall x :: p(x) ==> !Removable(t, x)
    ensures Filter(p, Finish(Step(t, registry, st, raw))) == Filter(p, Finish(st) + [raw])
  {
    FinishStep(t, registry, st, raw);
    if Reduces(t, registry, st, raw) {
      var svc, grown := st.mode.service, st.mode.held + [raw];
      FilterAppend(p, st.out, grown);
      FilterAppend(p, st.out, Reduced(t, svc, grown));
      forall x | x in grown && p(x) ensures !Scaffolding(t, svc, x) {
        if Scaffolding(t, svc, x) {
          HeldScaffoldingIsRemovable(t, svc, st.mode.held, x);
        }
      }
      FilterThrough(p, x => !Scaffolding(t, svc, x), grown);
    }
  }

  lemma {:induction false} AfterKeeps(t: Text, registry: seq<Pattern>, p: string -> bool, lines: seq<string>)
    requires forall x :: p(x) ==> !Removable(t, x)
    ensures Filter(p, Finish(After(t, registry, lines))) == Filter(p, lines)
  {
    if lines != [] {
      var before := After(t, registry, Init(lines));
      AfterKeeps(t, registry, p, Init(lines));
      AfterAgrees(t, registry, Init(lines), []);
      StepKeeps(t, registry, p, before, Last(lines));
      FilterAppend(p, Finish(before), [Last(lines)]);
      FilterAppend(p, Init(lines), [Last(lines)]);
      assert Init(lines) + [Last(lines)] == lines;
    }
  }

  /**
   Main result: any view of the stream that looks only at lines compaction may not
   remove, such as every line of another service, is the same before and after.
   */
  lemma OtherLinesUnchanged(t: Text, registry: seq<Pattern>, p: string -> bool, lines: seq<string>)
    requires forall x :: p(x) ==> !Removable(t, x)
    ensures Filter(p, Reference(t, registry, lines)) == Filter(p, lines)
  {
    AfterKeeps(t, registry, p, lines);
    StreamIsReference(t, registry, lines);
  }

  lemma StepShrinks(t: Text, registry: seq<Pattern>, st: State, raw: string)
    requires st.mode.Holding? ==> st.mode.held != []
    ensures Subsequence(Finish(Step(t, registry, st, raw)), Finish(st) + [raw])
  {
    FinishStep(t, registry, st, raw);
    if Reduces(t, registry, st, raw) {
      var svc, grown := st.mode.service, st.mode.held + [raw];
      FilterIsSubsequence(x => !Scaffolding(t, svc, x), grown);
      SubsequenceRefl(st.out);
      SubsequenceAppend(st.out, st.out, Reduced(t, svc, grown), grown);
    } else {
      SubsequenceRefl(Finish(st) + [raw]);
    }
  }

  /** Compaction only ever deletes: its output is the input with some lines left out. */
  lemma {:induction false} OutputIsSubsequence(t: Text, registry: seq<Pattern>, lines: seq<string>)
    ensures Subsequence(Finish(After(t, registry, lines)), lines)
  {
    if lines != [] {
      hide Step, Subsequence, Finish;
      assert Init(lines) + [Last(lines)] == lines;
      var before := After(t, registry, Init(lines));
      OutputIsSubsequence(t, registry, Init(lines));
      StepShrinks(t, registry, before, Last(lines));
      SubsequenceRefl([Last(lines)]);
      SubsequenceAppend(Finish(before), Init(lines), [Last(lines)], [Last(lines)]);
      SubsequenceTrans(Finish(After(t, registry, lines)), Finish(before) + [Last(lines)], lines);
    }
  }

  // ---------------------------------------------------------------------
  // The pattern registry
  // ---------------------------------------------------------------------

  /** Everything `small` recognises, `large` recognises too. */
  ghost predicate Extends(small: seq<Pattern>, large: seq<Pattern>) {
    forall text, terminal :: Registered(small, text, terminal) ==> Registered(large, text, terminal)
  }

  lemma AppendExtends(registry: seq<Pattern>, more: seq<Pattern>)
    ensures Extends(registry, registry + more) && Extends(more, registry + more)
  {
    var all := registry + more;
    forall text, terminal | Registered(more, text, terminal) ensures Registered(all, text, terminal) {
      var i :| 0 <= i < |more| && PatternMatches(more[i], text, terminal);
      assert all[|registry| + i] == more[i];
    }
    forall text, terminal | Registered(registry, text, terminal) ensures Registered(all, text, terminal) {
      var i :| 0 <= i < |registry| && PatternMatches(registry[i], text, terminal);
      assert all[i] == registry[i];
    }
  }

  lemma RegistryStep(t: Text, small: seq<Pattern>, large: seq<Pattern>, a: State, b: State, raw: string)
    requires Extends(small, large) && a.mode == b.mode && (a.mode.Holding? ==> a.mode.held != [])
    requires Subsequence(b.out, a.out)
    ensures Step(t, large, b, raw).mode == Step(t, small, a, raw).mode
    ensures Subsequence(Step(t, large, b, raw).out, Step(t, small, a, raw).out)
  {
    hide ParseComposeLine, KindOf, Opens, EndsTail, TooLarge, TracebackText, Subsequence, Scaffolding;
    var a', b' := Step(t, small, a, raw), Step(t, large, b, raw);
    var moreA, moreB := a'.out[|a.out|..], b'.out[|b.out|..];
    if a.mode.Holding? && KindOf(t, a.mode.service, raw) == Terminal {
      var svc, grown := a.mode.service, a.mode.held + [raw];
      FilterIsSubsequence(x => !Scaffolding(t, svc, x), grown);
      assert Known(t, small, grown) ==> Known(t, large, grown);
    }
    SubsequenceRefl(moreA);
    SubsequenceAppend(b.out, a.out, moreB, moreA);
    assert a'.out == a.out + moreA && b'.out == b.out + moreB;
  }

  lemma {:induction false} RegistrySteps(t: Text, small: seq<Pattern>, large: seq<Pattern>, lines: seq<string>)
    requires Extends(small, large)
    ensures After(t, large, lines).mode == After(t, small, lines).mode
    ensures Subsequence(After(t, large, lines).out, After(t, small, lines).out)
  {
    if lines != [] {
      RegistrySteps(t, small, large, Init(lines));
      RegistryStep(t, small, large, After(t, small, Init(lines)), After(t, large, Init(lines)), Last(lines));
    }
  }

  /**
   Main result: the registry never steers the machine. Enlarging it leaves every mode
   of the run as it was and only removes lines, from what was yielded so far and from
   the whole output.
   */
  lemma RegistryOnlyRemoves(t: Text, small: seq<Pattern>, large: seq<Pattern>, lines: seq<string>)
    requires Extends(small, large)
    ensures After(t, large, lines).mode == After(t, small, lines).mode
    ensures Subsequence(After(t, large, lines).out, After(t, small, lines).out)
    ensures Subsequence(Finish(After(t, large, lines)), Finish(After(t, small, lines)))
  {
    RegistrySteps(t, small, large, lines);
    hide Extends, After, Subsequence;
    var held := After(t, large, lines).Buffered();
    SubsequenceRefl(held);
    SubsequenceAppend(After(t, large, lines).out, After(t, small, lines).out, held, held);
  }

  /** Registering more patterns, before or after the old ones, only removes lines from the whole output. */
  lemma MorePatternsOnlyRemove(t: Text, registry: seq<Pattern>, more: seq<Pattern>, lines: seq<string>)
    ensures var all := Finish(After(t, registry + more, lines));
      Subsequence(all, Finish(After(t, registry, lines))) && Subsequence(all, Finish(After(t, more, lines)))
  {
    AppendExtends(registry, more);
    hide Extends, After, Subsequence;
    RegistryOnlyRemoves(t, registry, registry + more, lines);
    RegistryOnlyRemoves(t, more, registry + more, lines);
  }

  /** With nothing registered the filter is the identity. */
  lemma {:induction false} EmptyRegistryIsIdentity(t: Text, lines: seq<string>)
    ensures Finish(After(t, [], lines)) == lines
  {
    if lines != [] {
      EmptyRegistryIsIdentity(t, Init(lines));
      FinishStep(t, [], After(t, [], Init(lines)), Last(lines));
      assert Init(lines) + [Last(lines)] == lines;
    }
  }

  // ---------------------------------------------------------------------
  // The generator itself
  // ---------------------------------------------------------------------

  /** One traceback segment, buffered until its terminal exception is known. */
  class TracebackBuffer {
    const service: string
    var lines: seq<BufferedLine>
    var nbytes: nat

    constructor (t: Text, service: string, first: ComposeLine)
      ensures this.service == service
      ensures lines == [BufferedLine(first.raw, Some(first.message), HeaderRole)]
      ensures nbytes == t.byteLen(first.raw)
    {
      this.service := service;
      lines := [BufferedLine(first.raw, Some(first.message), HeaderRole)];
      nbytes := t.byteLen(first.raw);
    }

    method Add(t: Text, line: Option<ComposeLine>, raw: string, role: Role)
      modifies this
      ensures lines == old(lines) + [BufferedLine(raw, if line.None? then None else Some(line.value.message), role)]
      ensures nbytes == old(nbytes) + t.byteLen(raw)
    {
      var message := if line.None? then None else Some(line.value.message);
      lines := lines + [BufferedLine(raw, message, role)];
      nbytes := nbytes + t.byteLen(raw);
    }

    predicate Overflows()
      reads this
    {
      |lines| > MAX_LINES || nbytes > MAX_BYTES
    }

    function Text(): string
      reads this
    {
      JoinLines(Present(Map((b: BufferedLine) => b.message, lines)))
    }

    function RawLines(): seq<string>
      reads this
    {
      Map((b: BufferedLine) => b.raw, lines)
    }

    function CompactedLines(): seq<string>
      reads this
    {
      Map((b: BufferedLine) => b.raw, Filter((b: BufferedLine) => b.role in {Sideband, TerminalRole}, lines))
    }

    /** The buffer holds exactly the raw lines `held`, classified for its service. */
    ghost predicate Holds(t: Text, held: seq<string>)
      reads this
    {
      lines == Map(raw => Entry(t, service, raw), held) && nbytes == Bytes(t, held)
    }
  }

  /** The buffer's own queries, in terms of the raw lines it holds. */
  lemma BufferMeaning(t: Text, buffer: TracebackBuffer, held: seq<string>)
    requires buffer.Holds(t, held)
    ensures buffer.Overflows() == TooLarge(t, held)
    ensures buffer.RawLines() == held
    ensures buffer.Text() == TracebackText(t, held)
    ensures buffer.CompactedLines() == Reduced(t, buffer.service, held)
  {
    var entry := raw => Entry(t, buffer.service, raw);
    assert Map((b: BufferedLine) => b.message, Map(entry, held)) == Map(raw => MessageOf(t, raw), held);
    FilterEntries(t, buffer.service, held);
  }

  lemma {:induction false} FilterEntries(t: Text, svc: string, held: seq<string>)
    ensures Map((b: BufferedLine) => b.raw,
                Filter((b: BufferedLine) => b.role in {Sideband, TerminalRole}, Map(raw => Entry(t, svc, raw), held)))
         == Reduced(t, svc, held)
  {
    if held != [] {
      FilterEntries(t, svc, held[1..]);
      var all := Map(raw => Entry(t, svc, raw), held);
      assert all[1..] == Map(raw => Entry(t, svc, raw), held[1..]);
      assert all[0] == Entry(t, svc, held[0]);
    }
  }

  method MatchPattern(registry: seq<Pattern>, text: string, terminal: string) returns (found: Option<Pattern>)
    ensures found.Some? <==> Registered(registry, text, terminal)
    ensures found.Some? ==> PatternMatches(found.value, text, terminal)
  {
    for i := 0 to |registry|
      invariant forall k :: 0 <= k < i ==> !PatternMatches(registry[k], text, terminal)
    {
      if PatternMatches(registry[i], text, terminal) {
        return Some(registry[i]);
      }
    }
    found := None;
  }

  /** The method's variables stand for this machine mode. */
  ghost predicate Stands(t: Text, mode: Mode, pending: TracebackBuffer?, passthrough: Option<string>)
    reads pending
  {
    match mode
    case Idle => pending == null && passthrough == None
    case Passing(svc) => pending == null && passthrough == Some(svc)
    case Holding(svc, held) =>
      pending != null && passthrough == None && pending.service == svc && held != [] && pending.Holds(t, held)
  }

  /** The streaming generator: what it has yielded by the end of input is the reference. */
  method CompactTracebacks(t: Text, registry: seq<Pattern>, input: seq<string>) returns (out: seq<string>)
    ensures out == Reference(t, registry, input)
  {
    var pending: TracebackBuffer? := null;
    var passthrough: Option<string> := None;
    out := [];
    for i := 0 to |input|
      invariant out == After(t, registry, input[..i]).out
      invariant Stands(t, After(t, registry, input[..i]).mode, pending, passthrough)
      invariant pending != null ==> fresh(pending)
    {
      var raw := input[i];
      ghost var st := After(t, registry, input[..i]);
      assert Init(input[..i + 1]) == input[..i] && Last(input[..i + 1]) == raw;
      assert After(t, registry, input[..i + 1]) == Step(t, registry, st, raw);
      var parsed := ParseComposeLine(t, raw);
      if passthrough.Some? {
        out := out + [raw];
        if parsed.Some? && parsed.value.service == passthrough.value {
          var message := parsed.value.message;
          if message != "" && !t.isSpace(message[0]) && !t.isLogRecord(message) {
            passthrough := None;
          }
        }
      } else if pending == null {
        if parsed.Some? && IsLitellm(t, parsed.value) && parsed.value.message == HEADER {
          pending := new TracebackBuffer(t, parsed.value.service, parsed.value);
        } else {
          out := out + [raw];
        }
      } else {
        pending, passthrough, out := HoldLine(t, registry, pending, raw, parsed, out, st);
      }
    }
    StreamIsReference(t, registry, input);
    assert input[..|input|] == input;
    if pending != null {
      BufferMeaning(t, pending, After(t, registry, input).mode.held);
      out := out + pending.RawLines();
    }
  }

  /** The part of the loop body that runs while a segment is pending. */
  method HoldLine(t: Text, registry: seq<Pattern>, buffer: TracebackBuffer, raw: string,
                  parsed: Option<ComposeLine>, yielded: seq<string>, ghost st: State)
    returns (pending: TracebackBuffer?, passthrough: Option<string>, out: seq<string>)
    requires parsed == ParseComposeLine(t, raw)
    requires st.mode.Holding? && yielded == st.out && Stands(t, st.mode, buffer, None)
    modifies buffer
    ensures out == Step(t, registry, st, raw).out
    ensures Stands(t, Step(t, registry, st, raw).mode, pending, passthrough)
    ensures pending != null ==> pending == buffer || fresh(pending)
  {
    ghost var held := st.mode.held;
    pending, passthrough, out := buffer, None, yielded;
    BufferMeaning(t, buffer, held);
    var role := Sideband;
    if parsed.Some? && parsed.value.service == buffer.service {
      var message := parsed.value.message;
      if message == HEADER {
        out := out + buffer.RawLines();
        pending := new TracebackBuffer(t, parsed.value.service, parsed.value);
        return;
      }
      if Strip(t.isSpace, message) == "" {
        role := Scaffold;
      } else if message != "" && t.isSpace(message[0]) {
        role := Scaffold;
      } else if !t.isLogRecord(message) {
        out := ResolveSegment(t, registry, buffer, raw, parsed, yielded, held);
        pending := null;
        return;
      }
    }
    AddLine(t, buffer, parsed, raw, role, held);
    BufferMeaning(t, buffer, held + [raw]);
    if buffer.Overflows() {
      out := out + buffer.RawLines();
      pending, passthrough := null, Some(buffer.service);
    }
  }

  /** A terminal exception line: yield the segment, reduced if the registry knows it. */
  method ResolveSegment(t: Text, registry: seq<Pattern>, buffer: TracebackBuffer, raw: string,
                        parsed: Option<ComposeLine>, yielded: seq<string>, ghost held: seq<string>)
    returns (out: seq<string>)
    requires parsed == ParseComposeLine(t, raw) && parsed.Some? && buffer.Holds(t, held)
    requires KindOf(t, buffer.service, raw) == Terminal
    modifies buffer
    ensures out == yielded + if Known(t, registry, held + [raw])
                             then Reduced(t, buffer.service, held + [raw]) else held + [raw]
  {
    AddLine(t, buffer, parsed, raw, TerminalRole, held);
    BufferMeaning(t, buffer, held + [raw]);
    var pattern := MatchPattern(registry, buffer.Text(), parsed.value.message);
    out := yielded + if pattern.None? then buffer.RawLines() else buffer.CompactedLines();
  }

  /** Buffering a line with the role its kind gives it extends what is held. */
  method AddLine(t: Text, buffer: TracebackBuffer, parsed: Option<ComposeLine>, raw: string, role: Role,
                 ghost held: seq<string>)
    requires parsed == ParseComposeLine(t, raw) && buffer.Holds(t, held)
    requires role == RoleOf(KindOf(t, buffer.service, raw))
    modifies buffer
    ensures buffer.Holds(t, held + [raw])
  {
    buffer.Add(t, parsed, raw, role);
    assert Init(held + [raw]) == held;
    assert Map(x => Entry(t, buffer.service, x), held + [raw])
        == Map(x => Entry(t, buffer.service, x), held) + [Entry(t, buffer.service, raw)];
  }
}

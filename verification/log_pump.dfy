/**
 The log pane's pump. Worker threads append lines tagged with their stream's
 generation; the UI thread drains them in bounded batches, restarts the stream under
 a new generation, and writes lines of its own. A drain runs on the UI thread, so
 only appends can interleave with it.
 */
module LogPump {
  import opened Sequences
  import opened Strings

  const PANE_LINES := 2000
  const DRAIN_LINES := 200

  /** A streamed line and the generation of the worker that produced it. */
  datatype Entry = Entry(generation: nat, line: string)

  datatype PumpState = PumpState(
    generation: nat, pending: seq<Entry>, backlog: seq<string>, dropped: nat, pane: seq<string>)

  const EMPTY := PumpState(0, [], [], 0, [])

  // ---------------------------------------------------------------------
  // What each operation does to the state
  // ---------------------------------------------------------------------

  function LinesOf(generation: nat, entries: seq<Entry>): seq<string> {
    Map((e: Entry) => e.line, Filter((e: Entry) => e.generation == generation, entries))
  }

  /** The newest `n` elements. */
  function Newest<T>(n: nat, s: seq<T>): seq<T> {
    if |s| <= n then s else s[|s| - n..]
  }

  function Least(a: nat, b: nat): nat {
    if a < b then a else b
  }

  /** The pane's own copy of its lines, trimmed once it is twice too long. */
  function Written(pane: seq<string>, lines: seq<string>): seq<string> {
    var all := pane + lines;
    if |all| > 2 * PANE_LINES then Newest(PANE_LINES, all) else all
  }

  /** `… N earlier line(s) not shown`. */
  function Notice(n: nat): string {
    "… " + Decimal(n) + " earlier line(s) not shown"
  }

  /** Everything the current stream has waiting, oldest first. */
  function Waiting(s: PumpState): seq<string> {
    s.backlog + LinesOf(s.generation, s.pending)
  }

  /** After a drain has emptied the pending queue, before it draws. */
  function Collected(s: PumpState): PumpState {
    var waiting := Waiting(s);
    s.(pending := [], backlog := Newest(PANE_LINES, waiting),
       dropped := s.dropped + (|waiting| - |Newest(PANE_LINES, waiting)|))
  }

  /** What a drain of this collected state draws. */
  function Batch(s: PumpState): seq<string> {
    if s.backlog == [] then [] else
      (if s.dropped > 0 then [Notice(s.dropped)] else []) + s.backlog[..Least(DRAIN_LINES, |s.backlog|)]
  }

  function Drawn(s: PumpState): PumpState {
    if s.backlog == [] then s else
      s.(backlog := s.backlog[Least(DRAIN_LINES, |s.backlog|)..], dropped := 0, pane := Written(s.pane, Batch(s)))
  }

  /** One line taken off the queue. */
  function Popped(s: PumpState): PumpState
    requires s.pending != []
  {
    var e, rest := s.pending[0], s.pending[1..];
    if e.generation != s.generation then s.(pending := rest)
    else if |s.backlog| == PANE_LINES
    then s.(pending := rest, dropped := s.dropped + 1, backlog := s.backlog[1..] + [e.line])
    else s.(pending := rest, backlog := s.backlog + [e.line])
  }

  // ---------------------------------------------------------------------
  // Collecting is incremental
  // ---------------------------------------------------------------------

  lemma LinesOfAppend(generation: nat, a: seq<Entry>, b: seq<Entry>)
    ensures LinesOf(generation, a + b) == LinesOf(generation, a) + LinesOf(generation, b)
  {
    FilterAppend((e: Entry) => e.generation == generation, a, b);
  }

  lemma NewestAppend<T>(n: nat, a: seq<T>, b: seq<T>)
    ensures Newest(n, Newest(n, a) + b) == Newest(n, a + b)
  {}

  /** Collecting, then collecting later arrivals, is collecting all at once. */
  lemma CollectedAppend(s: PumpState, more: seq<Entry>)
    ensures Collected(s.(pending := s.pending + more)) == Collected(Collected(s).(pending := more))
  {
    LinesOfAppend(s.generation, s.pending, more);
    Assoc(s.backlog, LinesOf(s.generation, s.pending), LinesOf(s.generation, more));
    NewestAppend(PANE_LINES, Waiting(s), LinesOf(s.generation, more));
  }

  /** The same arrivals keep two states that collect alike collecting alike. */
  lemma CollectAlike(a: PumpState, b: PumpState, more: seq<Entry>)
    requires Collected(a) == Collected(b)
    ensures Collected(a.(pending := a.pending + more)) == Collected(b.(pending := b.pending + more))
  {
    hide Collected;
    CollectedAppend(a, more);
    CollectedAppend(b, more);
  }

  lemma CollectedPop(s: PumpState)
    requires s.pending != [] && |s.backlog| <= PANE_LINES
    ensures Collected(Popped(s)) == Collected(s)
  {
    var e, rest := s.pending[0], s.pending[1..];
    assert s.pending == [e] + rest;
    LinesOfAppend(s.generation, [e], rest);
    LinesOfOne(s.generation, e);
    hide LinesOf;
    var queued := LinesOf(s.generation, rest);
    if e.generation == s.generation {
      Assoc(s.backlog, [e.line], queued);
      NewestPush(s.backlog, e.line, queued);
    } else {
      assert [] + queued == queued;
    }
  }

  lemma NewestPush(backlog: seq<string>, line: string, queued: seq<string>)
    requires |backlog| <= PANE_LINES
    ensures var pushed := (if |backlog| == PANE_LINES then backlog[1..] else backlog) + [line];
      Newest(PANE_LINES, pushed + queued) == Newest(PANE_LINES, backlog + [line] + queued)
  {
    var all := backlog + [line] + queued;
    if |backlog| == PANE_LINES {
      assert backlog[1..] + [line] + queued == all[1..];
    }
  }

  lemma LinesOfOne(generation: nat, e: Entry)
    ensures LinesOf(generation, [e]) == if e.generation == generation then [e.line] else []
  {
    assert Filter((x: Entry) => x.generation == generation, [e][1..]) == [];
  }

  lemma CollectedIdle(s: PumpState)
    requires s.pending == [] && |s.backlog| <= PANE_LINES
    ensures Collected(s) == s
  {
    assert Waiting(s) == s.backlog;
  }

  lemma {:induction false} FlattenNext<T>(parts: seq<seq<T>>, k: nat)
    requires k < |parts|
    ensures Flatten(parts[..k + 1]) == Flatten(parts[..k]) + parts[k]
    ensures Flatten(parts[k..]) == parts[k] + Flatten(parts[k + 1..])
  {
    assert parts[..k + 1] == parts[..k] + [parts[k]];
    FlattenAppend(parts[..k], [parts[k]]);
  }

  // ---------------------------------------------------------------------
  // The pump object
  // ---------------------------------------------------------------------

  class Pump {
    var generation: nat
    var pending: seq<Entry>
    var backlog: seq<string>
    var dropped: nat
    var pane: seq<string>

    ghost function State(): PumpState
      reads this
    {
      PumpState(generation, pending, backlog, dropped, pane)
    }

    /** The backlog's deque has a fixed capacity. */
    predicate Valid()
      reads this
    {
      |backlog| <= PANE_LINES
    }

    constructor ()
      ensures Valid() && State() == EMPTY
    {
      generation, pending, backlog, dropped, pane := 0, [], [], 0, [];
    }

    /** A worker's append; it checked its generation some time before. */
    method Append(e: Entry)
      modifies this
      ensures State() == old(State()).(pending := old(pending) + [e])
    {
      pending := pending + [e];
    }

    method WriteLines(lines: seq<string>)
      modifies this
      ensures State() == old(State()).(pane := Written(old(pane), lines))
    {
      pane := pane + lines;
      if |pane| > 2 * PANE_LINES {
        pane := pane[|pane| - PANE_LINES..];
      }
    }

    /** Invalidate the current worker: its later lines are dropped. */
    method Terminate()
      modifies this
      ensures State() == old(State()).(generation := old(generation) + 1)
    {
      generation := generation + 1;
    }

    /** Start over under a new generation, which is returned for the new worker. */
    method Restart() returns (stream: nat)
      modifies this
      ensures stream == old(generation) + 1
      ensures State() == PumpState(stream, old(pending), [], 0, [])
    {
      generation := generation + 1;
      stream := generation;
      pane := [];
      backlog := [];
      dropped := 0;
    }

    /** Reopen the pane: restart, then write what it last showed. */
    method Resume() returns (stream: nat)
      modifies this
      ensures stream == old(generation) + 1
      ensures State() == PumpState(stream, old(pending), [], 0,
        Written([], Newest(PANE_LINES, old(pane))))
    {
      var previous := if |pane| <= PANE_LINES then pane else pane[|pane| - PANE_LINES..];
      stream := Restart();
      if previous != [] {
        WriteLines(previous);
      }
    }

    /**
     Empty the queue. `arrivals[k]` is what workers append before the k-th time the loop
     looks at it; the loop stops at the first look that finds it empty. Whatever the
     interleaving, the outcome is that of finding everything appended by the last look
     waiting at the start.
     */
    method Collect(arrivals: seq<seq<Entry>>) returns (looks: nat)
      requires Valid()
      modifies this
      ensures Valid() && looks <= |arrivals|
      ensures State() == Collected(old(State()).(pending := old(pending) + Flatten(arrivals[..looks])))
    {
      hide Popped, Collected;
      ghost var start := State();
      ghost var target := start;
      looks := 0;
      assert arrivals[..0] == [] && old(pending) + [] == old(pending);
      while true
        invariant looks <= |arrivals| && Valid()
        invariant target == start.(pending := start.pending + Flatten(arrivals[..looks]))
        invariant Collected(State()) == Collected(target)
        decreases |Flatten(arrivals[looks..])| + |pending|
      {
        if looks < |arrivals| {
          FlattenNext(arrivals, looks);
          ghost var here := State();
          CollectAlike(here, target, arrivals[looks]);
          pending := pending + arrivals[looks];
          assert State() == here.(pending := here.pending + arrivals[looks]);
          target := target.(pending := target.pending + arrivals[looks]);
          looks := looks + 1;
        }
        if pending == [] {
          CollectedIdle(State());
          assert target == old(State()).(pending := old(pending) + Flatten(arrivals[..looks]));
          return;
        }
        CollectedPop(State());
        TakeOne();
      }
    }

    /** One tick of the UI; workers' arrivals after its last look come after it. */
    method Drain(arrivals: seq<seq<Entry>>) returns (batch: seq<string>, looks: nat)
      requires Valid()
      modifies this
      ensures Valid() && looks <= |arrivals|
      ensures var found := Collected(old(State()).(pending := old(pending) + Flatten(arrivals[..looks])));
        State() == Drawn(found) && batch == Batch(found)
    {
      looks := Collect(arrivals);
      batch := Draw();
    }

    /** The body of the draining loop. */
    method TakeOne()
      requires Valid() && pending != []
      modifies this
      ensures Valid() && State() == Popped(old(State())) && pending == old(pending)[1..]
    {
      var e := pending[0];
      pending := pending[1..];
      if e.generation != generation {
        return;
      }
      if |backlog| == PANE_LINES {
        dropped := dropped + 1;
        backlog := backlog[1..];
      }
      backlog := backlog + [e.line];
    }

    /** The drawing half of a tick. */
    method Draw() returns (batch: seq<string>)
      requires Valid()
      modifies this
      ensures Valid() && State() == Drawn(old(State())) && batch == Batch(old(State()))
    {
      batch := [];
      if backlog == [] {
        return;
      }
      var n := if |backlog| < DRAIN_LINES then |backlog| else DRAIN_LINES;
      batch := backlog[..n];
      backlog := backlog[n..];
      if dropped > 0 {
        batch := [Notice(dropped)] + batch;
        dropped := 0;
      }
      WriteLines(batch);
    }
  }

  // ---------------------------------------------------------------------
  // Whole runs
  // ---------------------------------------------------------------------

  /** What the pane received from the stream: a line, or a notice for the lines lost there. */
  datatype Event = Line(line: string) | Gap(lost: seq<string>)
  {
    function Shown(): string {
      match this
      case Line(line) => line
      case Gap(lost) => Notice(|lost|)
    }

    function Expanded(): seq<string> {
      match this
      case Line(line) => [line]
      case Gap(lost) => lost
    }
  }

  function Expand(events: seq<Event>): seq<string> {
    Flatten(Map((e: Event) => e.Expanded(), events))
  }

  /**
   The pump with its history: everything ever appended, the generations given to
   workers, the generation of the last restart, and what the pane was given since it.
   */
  datatype World = World(
    pump: PumpState, produced: seq<Entry>, issued: set<nat>, started: nat,
    drawn: seq<Event>, written: seq<string>)

  const NEW_WORLD := World(EMPTY, [], {}, 0, [], [])

  /** Restart and resume start a worker only when there is something to follow. */
  datatype Action =
    | Append(entry: Entry)
    | Drain
    | Terminate
    | Restart(follows: bool)
    | Resume(follows: bool)
    | WriteLines(lines: seq<string>)

  function Restarted(w: World, follows: bool, rewritten: seq<string>): World {
    var g := w.pump.generation + 1;
    World(PumpState(g, w.pump.pending, [], 0, Written([], rewritten)), w.produced,
          if follows then w.issued + {g} else w.issued, g, [], rewritten)
  }

  /** The stream events one drain draws. */
  function DrawnEvents(s: PumpState): seq<Event> {
    var found := Collected(s);
    var waiting := Waiting(s);
    var lost := waiting[..|waiting| - |found.backlog|];
    if found.backlog == [] then [] else
      (if found.dropped > 0 then [Gap(lost)] else [])
      + Map(line => Line(line), found.backlog[..Least(DRAIN_LINES, |found.backlog|)])
  }

  /** A worker only ever appends under a generation a restart gave it. */
  function Next(w: World, a: Action): World {
    match a
    case Append(e) =>
      if e.generation !in w.issued then w else
        w.(pump := w.pump.(pending := w.pump.pending + [e]), produced := w.produced + [e])
    case Drain =>
      var found := Collected(w.pump);
      w.(pump := Drawn(found), drawn := w.drawn + DrawnEvents(w.pump), written := w.written + Batch(found))
    case Terminate => w.(pump := w.pump.(generation := w.pump.generation + 1))
    case Restart(follows) => Restarted(w, follows, [])
    case Resume(follows) => Restarted(w, follows, Newest(PANE_LINES, w.pump.pane))
    case WriteLines(lines) =>
      w.(pump := w.pump.(pane := Written(w.pump.pane, lines)), written := w.written + lines)
  }

  function Run(actions: seq<Action>): World {
    if actions == [] then NEW_WORLD else Next(Run(Init(actions)), Last(actions))
  }

  /** The lines the last restart's stream has produced. */
  function StreamLines(w: World): seq<string> {
    LinesOf(w.started, w.produced)
  }

  /** The stream's lines that reached the pane, lost ones counted in, or wait in the backlog. */
  function Admitted(w: World): seq<string> {
    Expand(w.drawn) + w.pump.backlog
  }

  ghost predicate Good(w: World) {
    && w.started <= w.pump.generation && |w.pump.backlog| <= PANE_LINES && w.pump.dropped == 0
    && (forall g :: g in w.issued ==> g <= w.started)
    && (forall e :: e in w.produced ==> e.generation in w.issued)
    && (forall e :: e in w.pump.pending ==> e in w.produced)
    && Admitted(w) <= StreamLines(w)
    && (w.started == w.pump.generation ==>
          StreamLines(w) == Admitted(w) + LinesOf(w.started, w.pump.pending))
    && PaneKeeps(w)
  }

  /** The pane holds the newest lines written: at least 2000 of them, at most 4000. */
  ghost predicate PaneKeeps(w: World) {
    var n := |w.pump.pane|;
    n <= |w.written| && w.written[|w.written| - n..] == w.pump.pane
    && Least(PANE_LINES, |w.written|) <= n <= 2 * PANE_LINES
  }

  lemma {:induction false} ExpandAppend(a: seq<Event>, b: seq<Event>)
    ensures Expand(a + b) == Expand(a) + Expand(b)
  {
    FlattenAppend(Map((e: Event) => e.Expanded(), a), Map((e: Event) => e.Expanded(), b));
    assert Map((e: Event) => e.Expanded(), a + b)
        == Map((e: Event) => e.Expanded(), a) + Map((e: Event) => e.Expanded(), b);
  }

  lemma {:induction false} ExpandLines(lines: seq<string>)
    ensures Expand(Map(line => Line(line), lines)) == lines
  {
    if lines != [] {
      ExpandLines(lines[1..]);
      var events := Map(line => Line(line), lines);
      assert events == [Line(lines[0])] + Map(line => Line(line), lines[1..]);
      ExpandAppend([Line(lines[0])], Map(line => Line(line), lines[1..]));
      assert Map((e: Event) => e.Expanded(), [Line(lines[0])]) == [[lines[0]]];
      assert Flatten([[lines[0]]]) == [lines[0]];
    }
  }

  lemma ExpandGap(lost: seq<string>)
    ensures Expand([Gap(lost)]) == lost
  {
    assert Map((e: Event) => e.Expanded(), [Gap(lost)]) == [lost];
    assert Flatten([lost]) == lost;
  }

  lemma BatchExpands(lost: seq<string>, backlog: seq<string>, n: nat)
    requires n <= |backlog|
    ensures var gap := if lost != [] then [Gap(lost)] else [];
      Expand(gap + Map(line => Line(line), backlog[..n])) + backlog[n..] == lost + backlog
  {
    var gap := if lost != [] then [Gap(lost)] else [];
    var lines := Map(line => Line(line), backlog[..n]);
    ExpandAppend(gap, lines);
    ExpandLines(backlog[..n]);
    ExpandGap(lost);
    assert Expand(gap) == lost;
    assert backlog == backlog[..n] + backlog[n..];
    Assoc(lost, backlog[..n], backlog[n..]);
  }

  /** A drain moves lines from the queue to the pane and accounts for each one. */
  lemma DrainAccounts(s: PumpState)
    requires s.dropped == 0
    ensures Expand(DrawnEvents(s)) + Drawn(Collected(s)).backlog == Waiting(s)
    ensures Map((e: Event) => e.Shown(), DrawnEvents(s)) == Batch(Collected(s))
    ensures |DrawnEvents(s)| <= DRAIN_LINES + 1
  {
    hide Waiting, Notice;
    var found := Collected(s);
    var waiting := Waiting(s);
    var lost := waiting[..|waiting| - |found.backlog|];
    assert waiting == lost + found.backlog && |lost| == found.dropped;
    if found.backlog != [] {
      BatchExpands(lost, found.backlog, Least(DRAIN_LINES, |found.backlog|));
    }
  }

  lemma NoLinesOf(generation: nat, entries: seq<Entry>)
    requires forall e :: e in entries ==> e.generation != generation
    ensures LinesOf(generation, entries) == []
  {
    FilterNone((e: Entry) => e.generation == generation, entries);
  }

  lemma WrittenKeeps(pane: seq<string>, written: seq<string>, lines: seq<string>)
    requires |pane| <= |written| && written[|written| - |pane|..] == pane
    requires Least(PANE_LINES, |written|) <= |pane| <= 2 * PANE_LINES
    ensures var after := Written(pane, lines); var all := written + lines;
      |after| <= |all| && all[|all| - |after|..] == after
      && Least(PANE_LINES, |all|) <= |after| <= 2 * PANE_LINES
  {
    assert written + lines == written[..|written| - |pane|] + (pane + lines);
  }

  /** A drain admits exactly the current generation's queued lines. */
  lemma DrainAdmits(w: World)
    requires w.pump.dropped == 0
    ensures Admitted(Next(w, Drain)) == Admitted(w) + LinesOf(w.pump.generation, w.pump.pending)
  {
    var next := Next(w, Drain);
    hide Expand, LinesOf, DrawnEvents, Collected, Batch;
    DrainAccounts(w.pump);
    ExpandAppend(w.drawn, DrawnEvents(w.pump));
    Assoc(Expand(w.drawn), Expand(DrawnEvents(w.pump)), next.pump.backlog);
    Assoc(Expand(w.drawn), w.pump.backlog, LinesOf(w.pump.generation, w.pump.pending));
  }

  lemma DrainKeepsPane(w: World)
    requires PaneKeeps(w)
    ensures PaneKeeps(Next(w, Drain))
  {
    var found := Collected(w.pump);
    DrawnPane(w.pump);
    hide Drawn, Batch, Collected, Written;
    WrittenKeeps(w.pump.pane, w.written, Batch(found));
    assert w.written + [] == w.written;
  }

  lemma DrawnPane(s: PumpState)
    ensures var found := Collected(s);
      if found.backlog == [] then Drawn(found).pane == s.pane && Batch(found) == []
      else Drawn(found).pane == Written(s.pane, Batch(found))
  {}

  lemma DrainKeepsGood(w: World)
    requires Good(w)
    ensures Good(Next(w, Drain))
  {
    hide LinesOf, Expand, Written, Batch, DrawnEvents, PaneKeeps;
    var next := Next(w, Drain);
    DrainKeepsPane(w);
    DrainAdmits(w);
    NoLinesOf(w.started, []);
    if w.started < w.pump.generation {
      NoLinesOf(w.pump.generation, w.pump.pending);
      assert Admitted(w) + [] == Admitted(w);
    } else {
      assert Admitted(next) + [] == Admitted(next);
    }
  }

  lemma AppendKeepsGood(w: World, e: Entry)
    requires Good(w)
    ensures Good(Next(w, Append(e)))
  {
    if e.generation in w.issued {
      LinesOfAppend(w.started, w.produced, [e]);
      LinesOfAppend(w.started, w.pump.pending, [e]);
      Assoc(Admitted(w), LinesOf(w.started, w.pump.pending), LinesOf(w.started, [e]));
    }
  }

  lemma RestartKeepsGood(w: World, follows: bool, rewritten: seq<string>)
    requires Good(w) && |rewritten| <= PANE_LINES
    ensures Good(Restarted(w, follows, rewritten))
  {
    var next := Restarted(w, follows, rewritten);
    NoLinesOf(next.started, w.produced);
    NoLinesOf(next.started, w.pump.pending);
  }

  lemma StepKeepsGood(w: World, a: Action)
    requires Good(w)
    ensures Good(Next(w, a))
  {
    match a {
      case Append(e) => AppendKeepsGood(w, e);
      case Drain => DrainKeepsGood(w);
      case Terminate =>
      case Restart(follows) => RestartKeepsGood(w, follows, []);
      case Resume(follows) => RestartKeepsGood(w, follows, Newest(PANE_LINES, w.pump.pane));
      case WriteLines(lines) => WrittenKeeps(w.pump.pane, w.written, lines);
    }
  }

  /**
   Main result, over every run. While the last restart's stream is current, the lines it
   produced are those drawn, with each notice read as the lines lost at that spot, then
   the backlog, then its lines still queued. Once terminated it can only have been cut
   short. In both cases nothing another generation produced was drawn.
   */
  lemma {:induction false} EveryRunIsGood(actions: seq<Action>)
    ensures Good(Run(actions))
  {
    if actions != [] {
      EveryRunIsGood(Init(actions));
      hide Good, Next;
      StepKeepsGood(Run(Init(actions)), Last(actions));
    }
  }

  /** Every line drawn since a restart is a line of the stream that restart began, in its place. */
  lemma NoStaleLineDrawn(actions: seq<Action>, i: nat)
    requires i < |Expand(Run(actions).drawn)|
    ensures var w := Run(actions);
      i < |StreamLines(w)| && Expand(w.drawn)[i] == StreamLines(w)[i]
  {
    EveryRunIsGood(actions);
  }

  /** A tick draws at most 200 lines and one notice. */
  lemma TickIsBounded(actions: seq<Action>)
    ensures var w := Run(actions); var next := Next(w, Drain);
      |next.drawn| - |w.drawn| <= DRAIN_LINES + 1
      && next.written == w.written + Map((e: Event) => e.Shown(), next.drawn[|w.drawn|..])
  {
    EveryRunIsGood(actions);
    DrainAccounts(Run(actions).pump);
  }

  function Ticks(w: World, n: nat): World {
    if n == 0 then w else Next(Ticks(w, n - 1), Drain)
  }

  lemma TickShape(w: World)
    requires Good(w)
    ensures var next := Next(w, Drain);
      next.produced == w.produced && next.started == w.started && next.pump.generation == w.pump.generation
      && next.pump.pending == [] && |next.pump.backlog| <= PANE_LINES - DRAIN_LINES
      && (w.pump.pending == [] ==>
            |next.pump.backlog| == if |w.pump.backlog| < DRAIN_LINES then 0 else |w.pump.backlog| - DRAIN_LINES)
  {
    if w.pump.pending == [] {
      CollectedIdle(w.pump);
    }
  }

  /** The backlog that can be left after `n` ticks without arrivals. */
  function LeftAfter(n: nat): nat {
    if n < 10 then PANE_LINES - n * DRAIN_LINES else 0
  }

  ghost predicate Quiet(w: World, after: World, n: nat) {
    Good(after) && after.produced == w.produced && after.started == w.started
    && after.pump.generation == w.pump.generation
    && (n > 0 ==> after.pump.pending == []) && |after.pump.backlog| <= LeftAfter(n)
  }

  lemma QuietAtOnce(w: World)
    requires Good(w)
    ensures Quiet(w, w, 0)
  {}

  lemma QuietTick(w: World, mid: World, n: nat)
    requires Quiet(w, mid, n)
    ensures Quiet(w, Next(mid, Drain), n + 1)
  {
    hide Next, Good;
    DrainKeepsGood(mid);
    TickShape(mid);
  }

  lemma {:induction false} QuietTicks(w: World, n: nat)
    requires Good(w)
    ensures Quiet(w, Ticks(w, n), n)
  {
    hide Quiet, Next, Good;
    if n == 0 {
      QuietAtOnce(w);
    } else {
      QuietTicks(w, n - 1);
      QuietTick(w, Ticks(w, n - 1), n - 1);
    }
  }

  /** Ten ticks after a stream's last line, all of it has been drawn or named in a notice. */
  lemma TenQuietTicksShowAll(actions: seq<Action>)
    ensures var w := Run(actions); var after := Ticks(w, 10);
      w.started == w.pump.generation ==> Expand(after.drawn) == StreamLines(w)
  {
    hide Ticks, Next, Run, Expand, LinesOf, Good;
    EveryRunIsGood(actions);
    QuietTicks(Run(actions), 10);
    if Run(actions).started == Run(actions).pump.generation {
      NothingWaits(Ticks(Run(actions), 10));
    }
  }

  lemma NothingWaits(w: World)
    requires Good(w) && w.started == w.pump.generation && w.pump.pending == [] && w.pump.backlog == []
    ensures Expand(w.drawn) == StreamLines(w)
  {
    assert LinesOf(w.started, []) == [];
    hide Expand, LinesOf, PaneKeeps;
  }

  /**
   Terminating does not empty the backlog: the next tick still draws a line of the
   terminated stream exactly when the backlog was not empty.
   */
  lemma TerminatedBacklogIsDrawn(actions: seq<Action>)
    ensures var w := Run(actions + [Terminate]); var next := Next(w, Drain);
      next.drawn != w.drawn <==> Run(actions).pump.backlog != []
  {
    var w := Run(actions + [Terminate]);
    assert Init(actions + [Terminate]) == actions && Last(actions + [Terminate]) == Terminate;
    EveryRunIsGood(actions + [Terminate]);
    EveryRunIsGood(actions);
    NoLinesOf(w.pump.generation, w.pump.pending);
    assert Waiting(w.pump) == w.pump.backlog;
    if w.pump.backlog != [] {
      assert |DrawnEvents(w.pump)| > 0;
    }
  }

  /** A stream that floods the queue before the first tick. */
  function Flood(n: nat): seq<Action> {
    if n == 0 then [Restart(true)] else Flood(n - 1) + [Append(Entry(1, "x"))]
  }

  lemma {:induction false} FloodWaits(n: nat)
    ensures var w := Run(Flood(n));
      && w.pump.generation == 1 && w.issued == {1} && w.pump.backlog == [] && w.pump.dropped == 0
      && |LinesOf(1, w.pump.pending)| == n
  {
    if n == 0 {
      assert Init(Flood(0)) == [] && Last(Flood(0)) == Restart(true);
      assert NEW_WORLD.issued + {1} == {1};
    } else {
      FloodWaits(n - 1);
      assert Init(Flood(n)) == Flood(n - 1) && Last(Flood(n)) == Append(Entry(1, "x"));
      LinesOfAppend(1, Run(Flood(n - 1)).pump.pending, [Entry(1, "x")]);
      LinesOfOne(1, Entry(1, "x"));
      hide LinesOf;
    }
  }

  /** A run whose terminated stream is still drawn: 201 lines, one tick, a termination. */
  lemma TerminatedBacklogExample()
    ensures var w := Run(Flood(201) + [Drain] + [Terminate]); Next(w, Drain).drawn != w.drawn
  {
    var actions := Flood(201) + [Drain];
    assert Init(actions) == Flood(201) && Last(actions) == Drain;
    FloodWaits(201);
    hide Flood, LinesOf;
    assert |Run(actions).pump.backlog| == 1;
    hide Run, Next;
    TerminatedBacklogIsDrawn(actions);
  }

  // ---------------------------------------------------------------------
  // Every action on the lines that wait and the lines the pane holds
  // ---------------------------------------------------------------------

  /** The queued lines of one generation, in order. */
  ghost function Queued(entries: seq<Entry>, generation: nat): seq<string> {
    if entries == [] then [] else
      Queued(entries[..|entries| - 1], generation)
      + var e := entries[|entries| - 1]; if e.generation == generation then [e.line] else []
  }

  lemma {:induction false} QueuedAreLines(entries: seq<Entry>, generation: nat)
    ensures LinesOf(generation, entries) == Queued(entries, generation)
  {
    if entries != [] {
      assert entries == Init(entries) + [Last(entries)];
      QueuedAreLines(Init(entries), generation);
      LinesOfAppend(generation, Init(entries), [Last(entries)]);
      LinesOfOne(generation, Last(entries));
    }
  }

  /**
   Of the lines that wait, those beyond the newest 2000 are given up and counted in one
   notice, the next 200 are drawn, oldest first, and the rest stays.
   */
  ghost predicate Ticked(s: PumpState, t: PumpState, batch: seq<string>) {
    var waiting := s.backlog + Queued(s.pending, s.generation);
    var lost := if |waiting| > 2000 then |waiting| - 2000 else 0;
    var end := if |waiting| - lost > 200 then lost + 200 else |waiting|;
    var all := s.pane + batch;
    && batch == (if lost > 0 then ["… " + Decimal(lost) + " earlier line(s) not shown"] else []) + waiting[lost..end]
    && t == PumpState(s.generation, [], waiting[end..], 0, if |all| > 4000 then all[|all| - 2000..] else all)
  }

  /** Main result: what a tick does after any run. */
  lemma TickExactly(actions: seq<Action>)
    ensures var w := Run(actions); var next := Next(w, Drain);
      w.written <= next.written && Ticked(w.pump, next.pump, next.written[|w.written|..])
  {
    var w := Run(actions);
    EveryRunIsGood(actions);
    GoodPump(w);
    hide Run, Good, Ticked, Batch, Drawn, Collected;
    TickOnFields(w.pump);
    assert (w.written + Batch(Collected(w.pump)))[|w.written|..] == Batch(Collected(w.pump));
  }

  lemma GoodPump(w: World)
    requires Good(w)
    ensures w.pump.dropped == 0 && |w.pump.pane| <= 4000
  {}

  lemma TickOnFields(s: PumpState)
    requires s.dropped == 0 && |s.pane| <= 4000
    ensures Ticked(s, Drawn(Collected(s)), Batch(Collected(s)))
  {
    QueuedAreLines(s.pending, s.generation);
    hide LinesOf, Queued, Decimal;
    var waiting := Waiting(s);
    var found := Collected(s);
    var lost := if |waiting| > 2000 then |waiting| - 2000 else 0;
    var end := if |waiting| - lost > 200 then lost + 200 else |waiting|;
    assert found.backlog == waiting[lost..] && found.dropped == lost;
    if waiting != [] {
      assert waiting[lost..][..end - lost] == waiting[lost..end] && waiting[lost..][end - lost..] == waiting[end..];
    } else {
      assert s.pane + [] == s.pane;
    }
  }

  /** The other actions, after any run: appends, terminations, restarts, resumes and lines written by the UI. */
  lemma ActionsExactly(w: World, e: Entry, follows: bool, lines: seq<string>)
    ensures Next(w, Append(e)) == if e.generation in w.issued
      then w.(pump := w.pump.(pending := w.pump.pending + [e]), produced := w.produced + [e]) else w
    ensures Next(w, Terminate).pump == w.pump.(generation := w.pump.generation + 1)
    ensures var next := Next(w, Restart(follows));
      && next.pump == PumpState(w.pump.generation + 1, w.pump.pending, [], 0, [])
      && next.issued == (if follows then w.issued + {w.pump.generation + 1} else w.issued)
      && next.started == w.pump.generation + 1 && next.drawn == [] && next.written == []
    ensures |w.pump.pane| <= 4000 ==>
      Next(w, Resume(follows)).pump == PumpState(w.pump.generation + 1, w.pump.pending, [], 0,
        if |w.pump.pane| > 2000 then w.pump.pane[|w.pump.pane| - 2000..] else w.pump.pane)
    ensures var all := w.pump.pane + lines;
      Next(w, WriteLines(lines)).pump == w.pump.(pane := if |all| > 4000 then all[|all| - 2000..] else all)
  {
    assert [] + Newest(PANE_LINES, w.pump.pane) == Newest(PANE_LINES, w.pump.pane);
  }
}

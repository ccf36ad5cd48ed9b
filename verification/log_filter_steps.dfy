/**
 What the traceback compactor does with the next line, said in terms of the lines:
 their service, their message, and a pattern's own terminal test and fragments.
 The three step theorems fix every run, since `LogFilter.After` takes one step a line.
 */
module LogFilterSteps {
  import opened Sequences
  import opened Strings
  import opened StringMeaning
  import opened LogFilter

  // ---------------------------------------------------------------------
  // Reading a line
  // ---------------------------------------------------------------------

  /** `line` without the carriage returns and newlines at its end. */
  ghost predicate WithoutLineEnd(line: string, body: string) {
    body <= line && (forall k :: |body| <= k < |line| ==> line[k] == '\r' || line[k] == '\n')
    && (body != "" ==> Last(body) != '\r' && Last(body) != '\n')
  }

  /** `line` is a record of `service` that says `message`. */
  ghost predicate Says(t: Text, line: string, service: string, message: string) {
    exists body, prefix, rest ::
      && WithoutLineEnd(line, body)
      && t.stripAnsi(body) == prefix + "|" + rest && '|' !in prefix
      && Trimmed(t.isSpace, prefix, service) && service != ""
      && message == t.stripTimestamp(if rest != "" && rest[0] == ' ' then rest[1..] else rest)
  }

  lemma LineBody(line: string) returns (body: string)
    ensures body == StripRight(c => c == '\r' || c == '\n', line)
    ensures WithoutLineEnd(line, body)
    ensures forall other :: WithoutLineEnd(line, other) ==> other == body
  {
    var ends := c => c == '\r' || c == '\n';
    body := StripRight(ends, line);
    StripRightMeaning(ends, line);
    forall other | WithoutLineEnd(line, other) ensures other == body {
      StripRightUnique(ends, line, other);
    }
  }

  /** A line is read as a record exactly when it has a bar with a service before it. */
  lemma ParseMeaning(t: Text, line: string, service: string, message: string)
    ensures ParseComposeLine(t, line) == Some(ComposeLine(line, service, message)) <==> Says(t, line, service, message)
  {
    var body := LineBody(line);
    var clean := t.stripAnsi(body);
    var bar := FirstIndex(c => c == '|', clean);
    forall prefix, rest | clean == prefix + "|" + rest && '|' !in prefix
      ensures bar == |prefix| && clean[..bar] == prefix && clean[bar + 1..] == rest
    {
      assert clean[|prefix|] == '|';
      assert forall k :: 0 <= k < |prefix| ==> clean[k] == prefix[k];
    }
    forall prefix ensures Trimmed(t.isSpace, prefix, service) <==> service == Strip(t.isSpace, prefix) {
      StripMeaning(t.isSpace, prefix, service);
    }
    if bar < |clean| {
      var prefix, rest := clean[..bar], clean[bar + 1..];
      assert clean == prefix + "|" + rest && '|' !in prefix;
    }
  }

  // ---------------------------------------------------------------------
  // The three modes
  // ---------------------------------------------------------------------

  /** While idle, a traceback header of a LiteLLM service is held; any other line passes. */
  lemma IdleStep(t: Text, registry: seq<Pattern>, lines: seq<string>, raw: string)
    requires After(t, registry, lines).mode == Idle
    ensures var st, p := After(t, registry, lines), ParseComposeLine(t, raw);
      After(t, registry, lines + [raw]) ==
        if p.Some? && (exists a, b :: t.lower(p.value.service) == a + "litellm" + b)
           && p.value.message == "Traceback (most recent call last):"
        then State(Holding(p.value.service, [raw]), st.out, st.dropped)
        else State(Idle, st.out + [raw], st.dropped)
  {
    AfterOne(t, registry, lines, raw);
    var p := ParseComposeLine(t, raw);
    if p.Some? {
      ContainsMeaning(t.lower(p.value.service), "litellm");
    }
  }

  /** While an oversize tail passes, every line does, and the first terminal-looking one ends it. */
  lemma PassingStep(t: Text, registry: seq<Pattern>, lines: seq<string>, raw: string, svc: string)
    requires After(t, registry, lines).mode == Passing(svc)
    ensures var st, p := After(t, registry, lines), ParseComposeLine(t, raw);
      After(t, registry, lines + [raw]) == State(
        if p.Some? && p.value.service == svc && p.value.message != "" && !t.isSpace(p.value.message[0])
           && !t.isLogRecord(p.value.message)
        then Idle else Passing(svc),
        st.out + [raw], st.dropped)
  {
    AfterOne(t, registry, lines, raw);
  }

  lemma AfterOne(t: Text, registry: seq<Pattern>, lines: seq<string>, raw: string)
    ensures After(t, registry, lines + [raw]) == Step(t, registry, After(t, registry, lines), raw)
  {
    assert Init(lines + [raw]) == lines;
  }

  /** The bytes of `lines`, counted from the front. */
  ghost function ByteTotal(t: Text, lines: seq<string>): nat {
    if lines == [] then 0 else t.byteLen(lines[0]) + ByteTotal(t, lines[1..])
  }

  lemma {:induction false} BytesAreTotal(t: Text, lines: seq<string>)
    ensures Bytes(t, lines) == ByteTotal(t, lines)
  {
    if |lines| == 1 {
      assert Init(lines) == [] && lines[1..] == [];
    } else if lines != [] {
      BytesAreTotal(t, Init(lines));
      BytesAreTotal(t, lines[1..]);
      BytesAreTotal(t, Init(lines[1..]));
      assert Init(lines)[1..] == Init(lines[1..]);
    }
  }

  /** The messages of the lines that have one, in order and joined by newlines. */
  ghost function Transcript(t: Text, lines: seq<string>): string {
    if lines == [] then "" else
      var p := ParseComposeLine(t, Last(lines));
      if p.None? then Transcript(t, Init(lines))
      else if forall i :: 0 <= i < |lines| - 1 ==> ParseComposeLine(t, lines[i]).None? then p.value.message
      else Transcript(t, Init(lines)) + "\n" + p.value.message
  }

  lemma {:induction false} PresentAppend(ms: seq<Option<string>>, m: Option<string>)
    ensures Present(ms + [m]) == if m.Some? then Present(ms) + [m.value] else Present(ms)
  {
    if ms == [] {
      assert ms + [m] == [m];
    } else {
      PresentAppend(ms[1..], m);
      assert (ms + [m])[1..] == ms[1..] + [m];
    }
  }

  lemma {:induction false} NothingPresent(ms: seq<Option<string>>)
    ensures Present(ms) == [] <==> forall i :: 0 <= i < |ms| ==> ms[i] == None
  {
    if ms != [] {
      NothingPresent(ms[1..]);
      assert forall i :: 1 <= i < |ms| ==> ms[i] == ms[1..][i - 1];
    }
  }

  lemma {:induction false} TextIsTranscript(t: Text, lines: seq<string>)
    ensures TracebackText(t, lines) == Transcript(t, lines)
  {
    hide ParseComposeLine;
    var said := raw => MessageOf(t, raw);
    var all: seq<Option<string>> := Map(said, lines);
    assert all == Map(raw => MessageOf(t, raw), lines);
    if lines != [] {
      var ms, m := Map(said, Init(lines)), MessageOf(t, Last(lines));
      assert ms == Map(raw => MessageOf(t, raw), Init(lines));
      TextIsTranscript(t, Init(lines));
      assert all == ms + [m];
      PresentAppend(ms, m);
      NothingPresent(ms);
      assert forall i :: 0 <= i < |ms| ==> ms[i] == MessageOf(t, lines[i]);
      if m.Some? {
        JoinLinesAppend(Present(ms), m.value);
      }
    }
  }

  /** A line of `svc` that holds a traceback together: a header, or blank or indented text. */
  ghost predicate Structural(t: Text, svc: string, raw: string) {
    var p := ParseComposeLine(t, raw);
    p.Some? && p.value.service == svc
    && (p.value.message == "Traceback (most recent call last):" || p.value.message == ""
        || t.isSpace(p.value.message[0]))
  }

  /** A line of `svc` that is none of these and no log record, so ends the traceback. */
  ghost predicate Concluding(t: Text, svc: string, raw: string) {
    var p := ParseComposeLine(t, raw);
    p.Some? && p.value.service == svc && !Structural(t, svc, raw) && !t.isLogRecord(p.value.message)
  }

  lemma KindMeaning(t: Text, svc: string, raw: string)
    ensures KindOf(t, svc, raw) == Terminal <==> Concluding(t, svc, raw)
    ensures KindOf(t, svc, raw) == Header <==>
      var p := ParseComposeLine(t, raw);
      p.Some? && p.value.service == svc && p.value.message == "Traceback (most recent call last):"
    ensures Scaffolding(t, svc, raw) <==> Structural(t, svc, raw)
  {
    var p := ParseComposeLine(t, raw);
    if p.Some? {
      BlankStarts(t.isSpace, p.value.message);
    }
  }

  /** A second header of the service yields what was held and is held itself. */
  lemma HeaderStep(t: Text, registry: seq<Pattern>, lines: seq<string>, raw: string, svc: string, held: seq<string>)
    requires After(t, registry, lines).mode == Holding(svc, held)
    requires ParseComposeLine(t, raw) == Some(ComposeLine(raw, svc, "Traceback (most recent call last):"))
    ensures var st := After(t, registry, lines);
      After(t, registry, lines + [raw]) == State(Holding(svc, [raw]), st.out + held, st.dropped)
  {
    AfterOne(t, registry, lines, raw);
  }

  /**
   A line that is neither a header nor terminal is held as well, up to 512 lines and
   262144 bytes; the line that goes past either yields all that was held, itself included.
   */
  lemma BufferStep(t: Text, registry: seq<Pattern>, lines: seq<string>, raw: string, svc: string, held: seq<string>)
    requires After(t, registry, lines).mode == Holding(svc, held) && !Concluding(t, svc, raw)
    requires ParseComposeLine(t, raw) != Some(ComposeLine(raw, svc, "Traceback (most recent call last):"))
    ensures var st, grown := After(t, registry, lines), held + [raw];
      After(t, registry, lines + [raw]) ==
        if |grown| > 512 || ByteTotal(t, grown) > 262144 then State(Passing(svc), st.out + grown, st.dropped)
        else State(Holding(svc, grown), st.out, st.dropped)
  {
    AfterOne(t, registry, lines, raw);
    KindMeaning(t, svc, raw);
    BytesAreTotal(t, held + [raw]);
  }

  /** The pattern accepts the terminal message and every fragment it asks for occurs in the text. */
  ghost predicate Recognises(p: Pattern, text: string, terminal: string) {
    p.terminal(terminal) && forall f <- p.required :: exists a, b :: text == a + f + b
  }

  lemma RegistryMeaning(registry: seq<Pattern>, text: string, terminal: string)
    ensures Registered(registry, text, terminal) <==> exists p <- registry :: Recognises(p, text, terminal)
  {
    forall p ensures PatternMatches(p, text, terminal) == Recognises(p, text, terminal) {
      forall f | f in p.required ensures Contains(text, f) <==> exists a, b :: text == a + f + b {
        ContainsMeaning(text, f);
      }
    }
  }

  lemma TerminalStep(t: Text, registry: seq<Pattern>, lines: seq<string>, raw: string, svc: string, held: seq<string>)
    requires After(t, registry, lines).mode == Holding(svc, held) && Concluding(t, svc, raw)
    ensures var st, grown := After(t, registry, lines), held + [raw];
      var known := exists p <- registry ::
        Recognises(p, Transcript(t, grown), ParseComposeLine(t, raw).value.message);
      && After(t, registry, lines + [raw]).mode == Idle
      && After(t, registry, lines + [raw]).out ==
           st.out + if known then Filter(x => !Structural(t, svc, x), grown) else grown
  {
    hide ParseComposeLine, After;
    var grown := held + [raw];
    AfterOne(t, registry, lines, raw);
    KindMeaning(t, svc, raw);
    TextIsTranscript(t, grown);
    RegistryMeaning(registry, TracebackText(t, grown), ParseComposeLine(t, raw).value.message);
    ReducedMeaning(t, svc, grown);
  }

  lemma ReducedMeaning(t: Text, svc: string, lines: seq<string>)
    ensures Reduced(t, svc, lines) == Filter(x => !Structural(t, svc, x), lines)
  {
    forall x ensures Scaffolding(t, svc, x) == Structural(t, svc, x) {
      KindMeaning(t, svc, x);
    }
    FilterSame(x => !Scaffolding(t, svc, x), x => !Structural(t, svc, x), lines);
  }

  /**
   Main result: a complete segment fails open. It is replayed as it came when every
   registered pattern refuses its terminal message or asks for a fragment that stands
   nowhere in its messages.
   */
  lemma NearMissIsReplayed(t: Text, registry: seq<Pattern>, lines: seq<string>, raw: string, svc: string,
                           held: seq<string>)
    requires After(t, registry, lines).mode == Holding(svc, held) && Concluding(t, svc, raw)
    requires forall p <- registry ::
      || !p.terminal(ParseComposeLine(t, raw).value.message)
      || exists f <- p.required :: forall a, b :: Transcript(t, held + [raw]) != a + f + b
    ensures After(t, registry, lines + [raw]).out == After(t, registry, lines).out + (held + [raw])
  {
    TerminalStep(t, registry, lines, raw, svc, held);
  }

  /**
   Main result: a segment one pattern accepts, terminal message and every fragment, loses
   exactly the header, blank and indented lines of its service.
   */
  lemma KnownIsReduced(t: Text, registry: seq<Pattern>, lines: seq<string>, raw: string, svc: string,
                       held: seq<string>, p: Pattern)
    requires After(t, registry, lines).mode == Holding(svc, held) && Concluding(t, svc, raw)
    requires p in registry && p.terminal(ParseComposeLine(t, raw).value.message)
    requires forall f <- p.required :: exists a, b :: Transcript(t, held + [raw]) == a + f + b
    ensures After(t, registry, lines + [raw]).out ==
      After(t, registry, lines).out + Filter(x => !Structural(t, svc, x), held + [raw])
  {
    TerminalStep(t, registry, lines, raw, svc, held);
    assert Recognises(p, Transcript(t, held + [raw]), ParseComposeLine(t, raw).value.message);
  }
}

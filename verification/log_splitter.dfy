/**
 The incremental line splitter: raw container output in arbitrary chunks, display
 lines out. A carriage return ends a line too, but at most one such redraw is shown
 per interval of clock time.
 */
module LogSplitter {
  import opened Sequences
  import opened Strings
  import StringMeaning

  /** How a piece of output ended; CrLf only when both characters met in one buffer. */
  datatype Ending = Lf | Cr | CrLf

  datatype Piece = Piece(line: string, ending: Ending)

  datatype Pieces = Pieces(pieces: seq<Piece>, rest: string)

  predicate IsBreak(c: char) {
    c == '\n' || c == '\r'
  }

  /** Where the first line ending is, or the length. */
  function NextBreak(buf: string): (cut: nat)
    ensures cut <= |buf|
    ensures forall k :: 0 <= k < cut ==> !IsBreak(buf[k])
    ensures cut < |buf| ==> IsBreak(buf[cut])
  {
    FirstIndex(IsBreak, buf)
  }

  /** What one buffer is cut into, and the unfinished rest. */
  function Scan(buf: string): Pieces
    decreases |buf|
  {
    var cut := NextBreak(buf);
    if cut == |buf| then Pieces([], buf) else
      var ending := EndingAt(buf, cut);
      var more := Scan(buf[cut + Width(ending)..]);
      Pieces([Piece(buf[..cut], ending)] + more.pieces, more.rest)
  }

  lemma ScanOnce(buf: string)
    ensures var cut := NextBreak(buf); if cut == |buf| then Scan(buf) == Pieces([], buf) else
      var ending := EndingAt(buf, cut);
      var more := Scan(buf[cut + Width(ending)..]);
      Scan(buf) == Pieces([Piece(buf[..cut], ending)] + more.pieces, more.rest)
  {}

  function EndingAt(buf: string, cut: nat): (e: Ending)
    requires cut < |buf|
    ensures cut + Width(e) <= |buf|
  {
    if buf[cut] == '\n' then Lf
    else if cut + 1 < |buf| && buf[cut + 1] == '\n' then CrLf
    else Cr
  }

  function Width(e: Ending): nat {
    if e == CrLf then 2 else 1
  }

  // ---------------------------------------------------------------------
  // Which pieces are shown
  // ---------------------------------------------------------------------

  /** The rate limit's memory: the last redraw shown, and how often the clock was read. */
  datatype Limiter = Limiter(last: Option<real>, ticks: nat)

  /** The splitter's settings; the k-th reading of the clock is `clock(k)`. */
  datatype Config = Config(every: real, clock: nat -> real, isSpace: char -> bool)
  {
    predicate Blank(line: string) {
      Strip(isSpace, line) == ""
    }

    ghost predicate Monotone() {
      forall i: nat, j: nat :: i <= j ==> clock(i) <= clock(j)
    }
  }

  datatype Shown = Shown(limiter: Limiter, pieces: seq<Piece>, redraws: seq<real>)

  predicate TooSoon(c: Config, lim: Limiter) {
    lim.last.Some? && c.clock(lim.ticks) - lim.last.value < c.every
  }

  function Show(c: Config, lim: Limiter, p: Piece): Shown {
    if c.Blank(p.line) then Shown(lim, [], [])
    else if p.ending != Cr then Shown(lim, [p], [])
    else if TooSoon(c, lim) then Shown(lim.(ticks := lim.ticks + 1), [], [])
    else
      var now := c.clock(lim.ticks + 1);
      Shown(Limiter(Some(now), lim.ticks + 2), [p], [now])
  }

  function ShowAll(c: Config, lim: Limiter, pieces: seq<Piece>): Shown
    decreases |pieces|
  {
    if pieces == [] then Shown(lim, [], []) else
      var first := Show(c, lim, pieces[0]);
      Then(first, ShowAll(c, first.limiter, pieces[1..]))
  }

  function Then(first: Shown, more: Shown): Shown {
    Shown(more.limiter, first.pieces + more.pieces, first.redraws + more.redraws)
  }

  function Lines(pieces: seq<Piece>): seq<string> {
    Map((p: Piece) => p.line, pieces)
  }

  // ---------------------------------------------------------------------
  // The whole-input reference
  // ---------------------------------------------------------------------

  /** The output as it arrived: its characters, and where one read ended. */
  datatype Symbol = Char(c: char) | ReadEnd

  function Chars(s: string): seq<Symbol> {
    Map(c => Char(c), s)
  }

  function Arrivals(chunks: seq<string>): seq<Symbol> {
    if chunks == [] then [] else Chars(chunks[0]) + [ReadEnd] + Arrivals(chunks[1..])
  }

  /** Cut the arrivals character by character; `acc` is the line so far. */
  function Cut(acc: string, arrivals: seq<Symbol>): Pieces
    decreases |arrivals|
  {
    if arrivals == [] then Pieces([], acc)
    else match arrivals[0]
      case ReadEnd => Cut(acc, arrivals[1..])
      case Char('\n') => After(Piece(acc, Lf), Cut("", arrivals[1..]))
      case Char('\r') =>
        if |arrivals| > 1 && arrivals[1] == Char('\n')
        then After(Piece(acc, CrLf), Cut("", arrivals[2..]))
        else After(Piece(acc, Cr), Cut("", arrivals[1..]))
      case Char(c) => Cut(acc + [c], arrivals[1..])
  }

  function After(p: Piece, more: Pieces): Pieces {
    Pieces([p] + more.pieces, more.rest)
  }

  function Tail(c: Config, rest: string): seq<string> {
    if c.Blank(rest) then [] else [rest]
  }

  /** All lines shown for the chunks, the final flush included. */
  function Reference(c: Config, lim: Limiter, chunks: seq<string>): seq<string> {
    var cut := Cut("", Arrivals(chunks));
    Lines(ShowAll(c, lim, cut.pieces).pieces) + Tail(c, cut.rest)
  }

  /** The text cut at every LF and CR; the last field is what follows the last of them. */
  function Fields(acc: string, text: string): seq<string>
    decreases |text|
  {
    if text == "" then [acc]
    else if IsBreak(text[0]) then [acc] + Fields("", text[1..])
    else Fields(acc + [text[0]], text[1..])
  }

  /** The fields that an LF ends. */
  function LfFields(acc: string, text: string): seq<string>
    decreases |text|
  {
    if text == "" then []
    else if text[0] == '\n' then [acc] + LfFields("", text[1..])
    else if text[0] == '\r' then LfFields("", text[1..])
    else LfFields(acc + [text[0]], text[1..])
  }

  // ---------------------------------------------------------------------
  // Feeding chunk by chunk cuts exactly where the reference does
  // ---------------------------------------------------------------------

  ghost predicate Unbroken(s: string) {
    forall i :: 0 <= i < |s| ==> !IsBreak(s[i])
  }

  lemma {:induction false} ScanRest(buf: string)
    ensures Unbroken(Scan(buf).rest)
    decreases |buf|
  {
    var cut := NextBreak(buf);
    if cut < |buf| {
      ScanRest(buf[cut + Width(EndingAt(buf, cut))..]);
    }
  }

  lemma {:induction false} CutUnbroken(acc: string, s: string, rest: seq<Symbol>)
    requires Unbroken(s)
    ensures Cut(acc, Chars(s) + rest) == Cut(acc + s, rest)
    decreases |s|
  {
    if s == "" {
      assert Chars(s) + rest == rest && acc + s == acc;
    } else {
      var all := Chars(s) + rest;
      assert all[0] == Char(s[0]) && all[1..] == Chars(s[1..]) + rest;
      assert acc + [s[0]] + s[1..] == acc + s && !IsBreak(s[0]);
      CutUnbroken(acc + [s[0]], s[1..], rest);
    }
  }

  lemma CharsDrop(s: string, k: nat, rest: seq<Symbol>)
    requires k <= |s|
    ensures (Chars(s) + rest)[k..] == Chars(s[k..]) + rest
  {
    assert Chars(s)[k..] == Chars(s[k..]);
  }

  lemma CutAtBreak(line: string, buf: string, cut: nat, rest: seq<Symbol>)
    requires cut < |buf| && IsBreak(buf[cut])
    ensures var e := EndingAt(buf, cut);
      Cut(line, Chars(buf[cut..]) + ([ReadEnd] + rest))
      == After(Piece(line, e), Cut("", Chars(buf[cut + Width(e)..]) + ([ReadEnd] + rest)))
  {
    var after := [ReadEnd] + rest;
    var tail := Chars(buf[cut..]) + after;
    var e := EndingAt(buf, cut);
    assert tail[0] == Char(buf[cut]);
    CharsDrop(buf[cut..], Width(e), after);
    assert buf[cut..][Width(e)..] == buf[cut + Width(e)..];
    assert tail[1] == if cut + 1 < |buf| then Char(buf[cut + 1]) else ReadEnd;
  }

  /** One read: the reference, entered with a clean line, cuts what the buffer scan cuts. */
  lemma {:induction false} CutIsScan(buf: string, rest: seq<Symbol>)
    ensures var s := Scan(buf); var more := Cut(s.rest, rest);
      Cut("", Chars(buf) + ([ReadEnd] + rest)) == Pieces(s.pieces + more.pieces, more.rest)
    decreases |buf|
  {
    var cut := NextBreak(buf);
    var after := [ReadEnd] + rest;
    var line := buf[..cut];
    assert Chars(buf) + after == Chars(line) + (Chars(buf[cut..]) + after);
    CutUnbroken("", line, Chars(buf[cut..]) + after);
    assert "" + line == line;
    if cut == |buf| {
      assert Chars(buf[cut..]) + after == after && after[1..] == rest && line == buf;
      assert [] + Cut(buf, rest).pieces == Cut(buf, rest).pieces;
    } else {
      var ending := EndingAt(buf, cut);
      var next := buf[cut + Width(ending)..];
      CutIsScan(next, rest);
      CutAtBreak(line, buf, cut, rest);
      Assoc([Piece(line, ending)], Scan(next).pieces, Cut(Scan(next).rest, rest).pieces);
    }
  }

  /** The pieces cut over a run of reads, starting from the unfinished line `buf`. */
  function ScanAll(buf: string, chunks: seq<string>): Pieces
    decreases |chunks|
  {
    if chunks == [] then Pieces([], buf) else
      var s := Scan(buf + chunks[0]);
      var more := ScanAll(s.rest, chunks[1..]);
      Pieces(s.pieces + more.pieces, more.rest)
  }

  lemma ReadCut(buf: string, chunk: string, rest: seq<Symbol>)
    requires Unbroken(buf)
    ensures var s := Scan(buf + chunk); var more := Cut(s.rest, rest);
      Cut(buf, Chars(chunk) + [ReadEnd] + rest) == Pieces(s.pieces + more.pieces, more.rest)
  {
    var after := Chars(chunk) + [ReadEnd] + rest;
    CutUnbroken("", buf, after);
    assert "" + buf == buf;
    CutIsScan(buf + chunk, rest);
    assert Chars(buf) + after == Chars(buf + chunk) + ([ReadEnd] + rest);
  }

  /** Main result: where reads end never changes what is cut, beyond parting a CR from its LF. */
  lemma {:induction false} ReadsCutAsOne(buf: string, chunks: seq<string>)
    requires Unbroken(buf)
    ensures ScanAll(buf, chunks) == Cut(buf, Arrivals(chunks))
    decreases |chunks|
  {
    if chunks != [] {
      ScanRest(buf + chunks[0]);
      ReadsCutAsOne(Scan(buf + chunks[0]).rest, chunks[1..]);
      ReadCut(buf, chunks[0], Arrivals(chunks[1..]));
    }
  }

  // ---------------------------------------------------------------------
  // The pieces against the plain text
  // ---------------------------------------------------------------------

  function TextOf(arrivals: seq<Symbol>): string {
    if arrivals == [] then ""
    else (if arrivals[0].Char? then [arrivals[0].c] else "") + TextOf(arrivals[1..])
  }

  lemma {:induction false} TextOfAppend(a: seq<Symbol>, b: seq<Symbol>)
    ensures TextOf(a + b) == TextOf(a) + TextOf(b)
  {
    if a == [] {
      assert a + b == b;
    } else {
      TextOfAppend(a[1..], b);
      assert (a + b)[1..] == a[1..] + b;
      var head := if a[0].Char? then [a[0].c] else "";
      Assoc(head, TextOf(a[1..]), TextOf(b));
    }
  }

  lemma {:induction false} TextOfChars(s: string)
    ensures TextOf(Chars(s)) == s
  {
    if s != "" {
      TextOfChars(s[1..]);
      assert Chars(s)[1..] == Chars(s[1..]);
    }
  }

  lemma {:induction false} TextOfArrivals(chunks: seq<string>)
    ensures TextOf(Arrivals(chunks)) == Flatten(chunks)
  {
    if chunks != [] {
      TextOfArrivals(chunks[1..]);
      TextOfChars(chunks[0]);
      TextOfAppend(Chars(chunks[0]) + [ReadEnd], Arrivals(chunks[1..]));
      TextOfAppend(Chars(chunks[0]), [ReadEnd]);
    }
  }

  /** The lines of `pieces` and the unfinished rest, blank ones left out. */
  function Visible(c: Config, pieces: seq<Piece>, rest: string): seq<string> {
    Filter((line: string) => !c.Blank(line), Lines(pieces)) + Tail(c, rest)
  }

  lemma VisibleCons(c: Config, p: Piece, pieces: seq<Piece>, rest: string)
    ensures Visible(c, [p] + pieces, rest) == Tail(c, p.line) + Visible(c, pieces, rest)
  {
    assert Lines([p] + pieces)[1..] == Lines(pieces);
  }

  lemma FieldsCons(c: Config, field: string, fields: seq<string>)
    ensures Filter((line: string) => !c.Blank(line), [field] + fields)
         == Tail(c, field) + Filter((line: string) => !c.Blank(line), fields)
  {
    assert ([field] + fields)[1..] == fields;
  }

  /** Blank lines aside, the pieces and the rest are the fields of the whole text. */
  lemma {:induction false} PiecesAreFields(c: Config, acc: string, arrivals: seq<Symbol>)
    ensures var cut := Cut(acc, arrivals);
      Visible(c, cut.pieces, cut.rest) == Filter((line: string) => !c.Blank(line), Fields(acc, TextOf(arrivals)))
    decreases |arrivals|
  {
    if arrivals != [] {
      var text := TextOf(arrivals[1..]);
      assert arrivals[0].Char? ==> TextOf(arrivals) == [arrivals[0].c] + text && TextOf(arrivals)[1..] == text;
      match arrivals[0] {
        case ReadEnd =>
          assert TextOf(arrivals) == text;
          PiecesAreFields(c, acc, arrivals[1..]);
        case Char(ch) =>
          if IsBreak(ch) {
            BreakIsField(c, acc, arrivals);
          } else {
            PiecesAreFields(c, acc + [ch], arrivals[1..]);
          }
      }
    }
  }

  lemma {:induction false} BreakIsField(c: Config, acc: string, arrivals: seq<Symbol>)
    requires arrivals != [] && arrivals[0].Char? && IsBreak(arrivals[0].c)
    ensures var cut := Cut(acc, arrivals);
      Visible(c, cut.pieces, cut.rest) == Filter((line: string) => !c.Blank(line), Fields(acc, TextOf(arrivals)))
    decreases |arrivals|, 0
  {
    var joined := arrivals[0] == Char('\r') && |arrivals| > 1 && arrivals[1] == Char('\n');
    var rest := arrivals[if joined then 2 else 1..];
    var p := Piece(acc, if arrivals[0] == Char('\n') then Lf else if joined then CrLf else Cr);
    var more := Cut("", rest);
    assert Cut(acc, arrivals) == After(p, more);
    PiecesAreFields(c, "", rest);
    VisibleCons(c, p, more.pieces, more.rest);
    var text := TextOf(arrivals);
    assert text[0] == arrivals[0].c && text[1..] == TextOf(arrivals[1..]);
    FieldsCons(c, acc, Fields("", text[1..]));
    if joined {
      assert arrivals[1..][0] == Char('\n') && arrivals[1..][1..] == rest;
      assert text[1..] == ['\n'] + TextOf(rest) && text[1..][1..] == TextOf(rest);
      FieldsCons(c, "", Fields("", TextOf(rest)));
    }
  }

  predicate LfEnded(p: Piece) {
    p.ending == Lf
  }

  function LfLines(pieces: seq<Piece>): seq<string> {
    Lines(Filter(p => LfEnded(p), pieces))
  }

  lemma LfLinesCons(p: Piece, pieces: seq<Piece>)
    ensures LfLines([p] + pieces) == (if LfEnded(p) then [p.line] else []) + LfLines(pieces)
  {
    assert ([p] + pieces)[1..] == pieces;
    var kept := Filter(q => LfEnded(q), pieces);
    assert Lines([p] + kept) == [p.line] + Lines(kept);
  }

  /** Blank lines aside, the pieces that end in LF are the LF-ended fields of the text. */
  lemma {:induction false} LfPiecesAreFields(c: Config, acc: string, arrivals: seq<Symbol>)
    ensures Filter((line: string) => !c.Blank(line), LfLines(Cut(acc, arrivals).pieces))
         == Filter((line: string) => !c.Blank(line), LfFields(acc, TextOf(arrivals)))
    decreases |arrivals|
  {
    if arrivals != [] {
      var text := TextOf(arrivals[1..]);
      assert arrivals[0].Char? ==> TextOf(arrivals) == [arrivals[0].c] + text && TextOf(arrivals)[1..] == text;
      match arrivals[0] {
        case ReadEnd =>
          assert TextOf(arrivals) == text;
          LfPiecesAreFields(c, acc, arrivals[1..]);
        case Char(ch) =>
          if IsBreak(ch) {
            LfBreakIsField(c, acc, arrivals);
          } else {
            LfPiecesAreFields(c, acc + [ch], arrivals[1..]);
          }
      }
    }
  }

  lemma {:induction false} LfBreakIsField(c: Config, acc: string, arrivals: seq<Symbol>)
    requires arrivals != [] && arrivals[0].Char? && IsBreak(arrivals[0].c)
    ensures Filter((line: string) => !c.Blank(line), LfLines(Cut(acc, arrivals).pieces))
         == Filter((line: string) => !c.Blank(line), LfFields(acc, TextOf(arrivals)))
    decreases |arrivals|, 0
  {
    var joined := arrivals[0] == Char('\r') && |arrivals| > 1 && arrivals[1] == Char('\n');
    var rest := arrivals[if joined then 2 else 1..];
    var p := Piece(acc, if arrivals[0] == Char('\n') then Lf else if joined then CrLf else Cr);
    assert Cut(acc, arrivals) == After(p, Cut("", rest));
    LfPiecesAreFields(c, "", rest);
    LfLinesCons(p, Cut("", rest).pieces);
    var text := TextOf(arrivals);
    assert text[0] == arrivals[0].c && text[1..] == TextOf(arrivals[1..]);
    FieldsCons(c, acc, LfLines(Cut("", rest).pieces));
    FieldsCons(c, acc, LfFields("", text[1..]));
    if joined {
      assert arrivals[1..][0] == Char('\n') && arrivals[1..][1..] == rest;
      assert text[1..] == ['\n'] + TextOf(rest) && text[1..][1..] == TextOf(rest);
      FieldsCons(c, "", LfFields("", TextOf(rest)));
    }
  }

  // ---------------------------------------------------------------------
  // What the rate limit does and does not drop
  // ---------------------------------------------------------------------

  lemma ThenAssoc(a: Shown, b: Shown, c: Shown)
    ensures Then(a, Then(b, c)) == Then(Then(a, b), c)
  {
    Assoc(a.pieces, b.pieces, c.pieces);
    Assoc(a.redraws, b.redraws, c.redraws);
  }

  lemma {:induction false} ShowAllAppend(c: Config, lim: Limiter, a: seq<Piece>, b: seq<Piece>)
    ensures var first := ShowAll(c, lim, a);
      ShowAll(c, lim, a + b) == Then(first, ShowAll(c, first.limiter, b))
    decreases |a|
  {
    if a == [] {
      assert a + b == b;
    } else {
      hide Show;
      var head := Show(c, lim, a[0]);
      var first := ShowAll(c, head.limiter, a[1..]);
      ShowAllAppend(c, head.limiter, a[1..], b);
      assert (a + b)[1..] == a[1..] + b;
      ThenAssoc(head, first, ShowAll(c, first.limiter, b));
    }
  }

  lemma ShowNone(c: Config, lim: Limiter)
    ensures ShowAll(c, lim, []) == Shown(lim, [], [])
  {}

  lemma ShowOne(c: Config, lim: Limiter, p: Piece)
    ensures ShowAll(c, lim, [p]) == Show(c, lim, p)
  {
    assert [p][1..] == [];
  }

  /** Only redraws are ever limited: every other non-blank piece is shown, in order. */
  lemma {:induction false} OnlyRedrawsLimited(c: Config, lim: Limiter, q: Piece -> bool, pieces: seq<Piece>)
    requires forall p :: q(p) ==> p.ending != Cr
    ensures Filter(q, ShowAll(c, lim, pieces).pieces) == Filter((p: Piece) => q(p) && !c.Blank(p.line), pieces)
    decreases |pieces|
  {
    if pieces != [] {
      var first := Show(c, lim, pieces[0]);
      var more := ShowAll(c, first.limiter, pieces[1..]).pieces;
      OnlyRedrawsLimited(c, first.limiter, q, pieces[1..]);
      FilterAppend(q, first.pieces, more);
    }
  }

  /** Nothing is shown that is blank, twice, or out of order. */
  lemma {:induction false} ShownInOrder(c: Config, lim: Limiter, pieces: seq<Piece>)
    ensures Subsequence(ShowAll(c, lim, pieces).pieces, Filter((p: Piece) => !c.Blank(p.line), pieces))
    decreases |pieces|
  {
    if pieces != [] {
      var first := Show(c, lim, pieces[0]);
      var more := ShowAll(c, first.limiter, pieces[1..]).pieces;
      ShownInOrder(c, first.limiter, pieces[1..]);
      var visible := Filter((p: Piece) => !c.Blank(p.line), pieces[1..]);
      if first.pieces == [] {
        assert first.pieces + more == more;
        SubsequenceSkip(more, pieces[0], visible);
      } else {
        SubsequenceRefl(first.pieces);
        SubsequenceAppend(first.pieces, first.pieces, more, visible);
      }
    }
  }

  lemma {:induction false} NoLimitShowsAll(c: Config, lim: Limiter, pieces: seq<Piece>)
    requires c.every <= 0.0 && c.Monotone() && Dated(c, lim)
    ensures ShowAll(c, lim, pieces).pieces == Filter((p: Piece) => !c.Blank(p.line), pieces)
    decreases |pieces|
  {
    if pieces != [] {
      NoLimitShowsAll(c, Show(c, lim, pieces[0]).limiter, pieces[1..]);
    }
  }

  /** The remembered redraw time is a past reading of the clock. */
  ghost predicate Dated(c: Config, lim: Limiter) {
    lim.last.Some? ==> lim.last.value <= c.clock(lim.ticks)
  }

  lemma LinesOfVisible(c: Config, pieces: seq<Piece>)
    ensures Lines(Filter((p: Piece) => !c.Blank(p.line), pieces))
         == Filter((line: string) => !c.Blank(line), Lines(pieces))
  {
    if pieces != [] {
      LinesOfVisible(c, pieces[1..]);
      assert Lines(pieces)[1..] == Lines(pieces[1..]);
    }
  }

  /**
   Main result: without a rate limit the lines shown are the non-blank fields of the
   whole text, whatever the chunks it arrived in.
   */
  lemma UnlimitedIsWholeText(c: Config, lim: Limiter, chunks: seq<string>)
    requires c.every <= 0.0 && c.Monotone() && Dated(c, lim)
    ensures Reference(c, lim, chunks)
         == Filter((line: string) => !c.Blank(line), Fields("", Flatten(chunks)))
  {
    var cut := Cut("", Arrivals(chunks));
    NoLimitShowsAll(c, lim, cut.pieces);
    LinesOfVisible(c, cut.pieces);
    PiecesAreFields(c, "", Arrivals(chunks));
    TextOfArrivals(chunks);
  }

  lemma LinesCons(p: Piece, pieces: seq<Piece>)
    ensures Lines([p] + pieces) == [p.line] + Lines(pieces)
  {}

  lemma {:induction false} LfLinesOfVisible(c: Config, pieces: seq<Piece>)
    ensures Lines(Filter((p: Piece) => LfEnded(p) && !c.Blank(p.line), pieces))
         == Filter((line: string) => !c.Blank(line), LfLines(pieces))
  {
    if pieces != [] {
      hide Strip, LfLines, Lines;
      LfLinesOfVisible(c, pieces[1..]);
      assert [pieces[0]] + pieces[1..] == pieces;
      LfLinesCons(pieces[0], pieces[1..]);
      FieldsCons(c, pieces[0].line, LfLines(pieces[1..]));
      LinesCons(pieces[0], Filter((p: Piece) => LfEnded(p) && !c.Blank(p.line), pieces[1..]));
    }
  }

  /**
   Main result: at any rate limit, every non-blank line of the text that an LF ends is
   shown, in order; a CRLF line is too when its two characters met in one buffer.
   */
  lemma LineEndsAlwaysShown(c: Config, lim: Limiter, chunks: seq<string>)
    ensures var cut := Cut("", Arrivals(chunks)); var shown := ShowAll(c, lim, cut.pieces).pieces;
      && LfLines(shown) == Filter((line: string) => !c.Blank(line), LfFields("", Flatten(chunks)))
      && Filter((p: Piece) => p.ending == CrLf, shown)
         == Filter((p: Piece) => p.ending == CrLf && !c.Blank(p.line), cut.pieces)
  {
    var pieces := Cut("", Arrivals(chunks)).pieces;
    OnlyRedrawsLimited(c, lim, p => LfEnded(p), pieces);
    FilterSame((p: Piece) => (q => LfEnded(q))(p) && !c.Blank(p.line),
               (p: Piece) => LfEnded(p) && !c.Blank(p.line), pieces);
    OnlyRedrawsLimited(c, lim, (p: Piece) => p.ending == CrLf, pieces);
    FilterSame((p: Piece) => ((q: Piece) => q.ending == CrLf)(p) && !c.Blank(p.line),
               (p: Piece) => p.ending == CrLf && !c.Blank(p.line), pieces);
    LfLinesOfVisible(c, pieces);
    LfPiecesAreFields(c, "", Arrivals(chunks));
    TextOfArrivals(chunks);
  }

  ghost predicate Spaced(every: real, times: seq<real>) {
    forall i :: 0 <= i < |times| - 1 ==> times[i + 1] - times[i] >= every
  }

  /** A shown redraw is dated, and comes at least one interval after the last one. */
  lemma ShowTimes(c: Config, lim: Limiter, p: Piece)
    requires c.Monotone()
    ensures var first := Show(c, lim, p);
      && |first.redraws| == |Filter((q: Piece) => q.ending == Cr, first.pieces)|
      && if first.redraws == [] then first.limiter.last == lim.last
         else first.limiter.last.Some? && first.redraws == [first.limiter.last.value]
              && (lim.last.Some? ==> first.redraws[0] - lim.last.value >= c.every)
  {
    assert c.clock(lim.ticks) <= c.clock(lim.ticks + 1);
  }

  lemma {:induction false} RedrawsSpaced(c: Config, lim: Limiter, pieces: seq<Piece>)
    requires c.Monotone()
    ensures var shown := ShowAll(c, lim, pieces);
      && Spaced(c.every, (if lim.last.Some? then [lim.last.value] else []) + shown.redraws)
      && |shown.redraws| == |Filter((p: Piece) => p.ending == Cr, shown.pieces)|
    decreases |pieces|
  {
    if pieces != [] {
      hide Show;
      var first := Show(c, lim, pieces[0]);
      var more := ShowAll(c, first.limiter, pieces[1..]);
      ShowTimes(c, lim, pieces[0]);
      RedrawsSpaced(c, first.limiter, pieces[1..]);
      FilterAppend((p: Piece) => p.ending == Cr, first.pieces, more.pieces);
      if first.redraws != [] {
        SpacedCons(c.every, lim.last, first.redraws[0], more.redraws);
      } else {
        assert first.redraws + more.redraws == more.redraws;
      }
    }
  }

  lemma SpacedCons(every: real, last: Option<real>, now: real, times: seq<real>)
    requires Spaced(every, [now] + times) && (last.Some? ==> now - last.value >= every)
    ensures Spaced(every, (if last.Some? then [last.value] else []) + ([now] + times))
  {
    var all := (if last.Some? then [last.value] else []) + ([now] + times);
    forall i | 0 <= i < |all| - 1 ensures all[i + 1] - all[i] >= every {
      var k := if last.Some? then i - 1 else i;
      if k >= 0 {
        assert all[i] == ([now] + times)[k] && all[i + 1] == ([now] + times)[k + 1];
      }
    }
  }

  lemma {:induction false} SpacedSpan(every: real, times: seq<real>)
    requires Spaced(every, times) && times != []
    ensures Last(times) - times[0] >= (|times| - 1) as real * every
  {
    if |times| > 1 {
      SpacedSpan(every, Init(times));
      assert times[|times| - 2 + 1] - times[|times| - 2] >= every;
      var k := (|times| - 2) as real;
      assert (|times| - 1) as real == k + 1.0;
      assert (k + 1.0) * every == k * every + every;
    }
  }

  /** Main result: k shown redraws span at least (k - 1) intervals of clock time. */
  lemma RedrawRate(c: Config, lim: Limiter, pieces: seq<Piece>)
    requires c.Monotone()
    ensures var shown := ShowAll(c, lim, pieces); var k := |Filter((p: Piece) => p.ending == Cr, shown.pieces)|;
      |shown.redraws| == k && (k > 0 ==> Last(shown.redraws) - shown.redraws[0] >= (k - 1) as real * c.every)
  {
    hide ShowAll, Spaced;
    var times := ShowAll(c, lim, pieces).redraws;
    RedrawsSpaced(c, lim, pieces);
    if times != [] {
      SpacedTail(c.every, if lim.last.Some? then [lim.last.value] else [], times);
      SpacedSpan(c.every, times);
    }
  }

  lemma SpacedTail(every: real, head: seq<real>, times: seq<real>)
    requires Spaced(every, head + times)
    ensures Spaced(every, times)
  {
    forall i | 0 <= i < |times| - 1 ensures times[i + 1] - times[i] >= every {
      assert (head + times)[i + |head|] == times[i] && (head + times)[i + |head| + 1] == times[i + 1];
    }
  }

  /** The redraw the limiter remembers is the last one shown. */
  lemma {:induction false} LastIsRemembered(c: Config, lim: Limiter, pieces: seq<Piece>)
    ensures var shown := ShowAll(c, lim, pieces);
      shown.limiter.last == if shown.redraws == [] then lim.last else Some(Last(shown.redraws))
    decreases |pieces|
  {
    if pieces != [] {
      LastIsRemembered(c, Show(c, lim, pieces[0]).limiter, pieces[1..]);
    }
  }

  lemma ShowMeaning(c: Config, lim: Limiter, p: Piece)
    ensures var first, now := Show(c, lim, p), lim.ticks;
      if forall i :: 0 <= i < |p.line| ==> c.isSpace(p.line[i]) then first == Shown(lim, [], [])
      else if p.ending != Cr then first == Shown(lim, [p], [])
      else if lim.last.Some? && c.clock(now) - lim.last.value < c.every then
        first == Shown(Limiter(lim.last, now + 1), [], [])
      else first == Shown(Limiter(Some(c.clock(now + 1)), now + 2), [p], [c.clock(now + 1)])
  {
    hide Strip;
    StringMeaning.BlankMeaning(c.isSpace, p.line);
  }

  /**
   Main result: what happens to the next piece, whatever came before. White space is
   not shown, a line that a LF ends is, and a redraw is left out exactly when one was
   shown less than an interval before the clock reading taken for it; when it is due
   it is shown, and dated by the reading after that.
   */
  lemma NextPieceExactly(c: Config, before: seq<Piece>, p: Piece)
    ensures var shown := ShowAll(c, Limiter(None, 0), before);
      var next := ShowAll(c, Limiter(None, 0), before + [p]);
      var now := shown.limiter.ticks;
      if forall i :: 0 <= i < |p.line| ==> c.isSpace(p.line[i]) then next == shown
      else if p.ending != Cr then next == shown.(pieces := shown.pieces + [p])
      else if shown.redraws != [] && c.clock(now) - Last(shown.redraws) < c.every then
        next == shown.(limiter := shown.limiter.(ticks := now + 1))
      else
        && next.pieces == shown.pieces + [p] && next.redraws == shown.redraws + [c.clock(now + 1)]
        && next.limiter.ticks == now + 2
  {
    hide Show, ShowAll;
    var start := Limiter(None, 0);
    var shown := ShowAll(c, start, before);
    ShowAllAppend(c, start, before, [p]);
    ShowOne(c, shown.limiter, p);
    ShowMeaning(c, shown.limiter, p);
    LastIsRemembered(c, start, before);
    assert shown.pieces + [] == shown.pieces && shown.redraws + [] == shown.redraws;
  }

  /** Where a buffer is cut: after its first LF, CRLF or bare CR, and nowhere without one. */
  lemma ScanExactly(line: string, after: string)
    requires forall i :: 0 <= i < |line| ==> line[i] != '\n' && line[i] != '\r'
    ensures Scan(line) == Pieces([], line)
    ensures Scan(line + "\n" + after) == Pieces([Piece(line, Lf)] + Scan(after).pieces, Scan(after).rest)
    ensures Scan(line + "\r\n" + after) == Pieces([Piece(line, CrLf)] + Scan(after).pieces, Scan(after).rest)
    ensures after == "" || after[0] != '\n' ==>
      Scan(line + "\r" + after) == Pieces([Piece(line, Cr)] + Scan(after).pieces, Scan(after).rest)
  {
    hide Scan;
    ScanOnce(line);
    assert NextBreak(line) == |line|;
    FirstBreak(line, "\n", after);
    FirstBreak(line, "\r\n", after);
    if after == "" || after[0] != '\n' {
      FirstBreak(line, "\r", after);
    }
  }

  lemma FirstBreak(line: string, end: string, after: string)
    requires forall i :: 0 <= i < |line| ==> line[i] != '\n' && line[i] != '\r'
    requires end == "\n" || end == "\r\n" || (end == "\r" && (after == "" || after[0] != '\n'))
    ensures var e := if end == "\n" then Lf else if end == "\r\n" then CrLf else Cr;
      Scan(line + end + after) == Pieces([Piece(line, e)] + Scan(after).pieces, Scan(after).rest)
  {
    hide Scan;
    var buf := line + end + after;
    ScanOnce(buf);
    assert forall i :: 0 <= i < |line| ==> buf[i] == line[i];
    assert buf[|line|] == end[0];
    assert NextBreak(buf) == |line| && buf[..|line|] == line && buf[|line| + |end|..] == after;
    assert |line| + 1 < |buf| ==> buf[|line| + 1] == if |end| == 2 then end[1] else after[0];
  }

  // ---------------------------------------------------------------------
  // The splitter object
  // ---------------------------------------------------------------------

  class LineSplitter {
    const config: Config
    var buf: string
    var limiter: Limiter

    constructor (config: Config)
      ensures this.config == config && buf == "" && limiter == Limiter(None, 0)
    {
      this.config := config;
      buf := "";
      limiter := Limiter(None, 0);
    }

    /** Take the line that ends at `cut` off the buffer; whether it is shown. */
    method TakeLine(cut: nat) returns (line: string, shows: bool)
      requires cut < |buf| && IsBreak(buf[cut])
      modifies this
      ensures var ending := EndingAt(old(buf), cut); var shown := Show(config, old(limiter), Piece(line, ending));
        && line == old(buf)[..cut] && buf == old(buf)[cut + Width(ending)..]
        && limiter == shown.limiter && shown.pieces == if shows then [Piece(line, ending)] else []
    {
      var end := buf[cut];
      line := buf[..cut];
      buf := buf[cut + 1..];
      if Strip(config.isSpace, line) == "" {
        if end == '\r' && buf != "" && buf[0] == '\n' {
          buf := buf[1..];
        }
        return line, false;
      }
      if end == '\r' {
        if buf != "" && buf[0] == '\n' {
          buf := buf[1..];
        } else if TooSoon(config, limiter) {
          limiter := limiter.(ticks := limiter.ticks + 1);
          return line, false;
        } else {
          limiter := Limiter(Some(config.clock(limiter.ticks + 1)), limiter.ticks + 2);
        }
      }
      shows := true;
    }

    method Feed(text: string) returns (out: seq<string>)
      modifies this
      ensures var scanned := Scan(old(buf) + text); var shown := ShowAll(config, old(limiter), scanned.pieces);
        buf == scanned.rest && limiter == shown.limiter && out == Lines(shown.pieces)
    {
      hide Show, Scan, ShowAll;
      ShowNone(config, limiter);
      buf := buf + text;
      out := [];
      ghost var start := buf;
      ghost var done: seq<Piece> := [];
      while true
        invariant Scan(start) == Pieces(done + Scan(buf).pieces, Scan(buf).rest)
        invariant var shown := ShowAll(config, old(limiter), done);
          limiter == shown.limiter && out == Lines(shown.pieces)
        decreases |buf|
      {
        var cut := NextBreak(buf);
        ScanOnce(buf);
        if cut == |buf| {
          assert done + [] == done;
          return;
        }
        ghost var piece := Piece(buf[..cut], EndingAt(buf, cut));
        ghost var next := Scan(buf[cut + Width(piece.ending)..]);
        ShowAllAppend(config, old(limiter), done, [piece]);
        ShowOne(config, limiter, piece);
        Assoc(done, [piece], next.pieces);
        var line, shows := TakeLine(cut);
        done := done + [piece];
        if shows {
          out := out + [line];
        }
      }
    }

    method Flush() returns (out: seq<string>)
      modifies this
      ensures buf == "" && limiter == old(limiter)
      ensures out == Tail(config, old(buf))
    {
      var line := buf;
      buf := "";
      out := if Strip(config.isSpace, line) != "" then [line] else [];
    }
  }

  /** A container's output pumped through one splitter: what is shown is the reference. */
  method Pump(config: Config, chunks: seq<string>) returns (out: seq<string>)
    ensures out == Reference(config, Limiter(None, 0), chunks)
  {
    hide Show, Scan, Cut, Tail;
    var split := new LineSplitter(config);
    ghost var start := split.limiter;
    ghost var done: seq<Piece> := [];
    out := [];
    for i := 0 to |chunks|
      invariant fresh(split) && split.config == config
      invariant var rest := ScanAll(split.buf, chunks[i..]);
        ScanAll("", chunks) == Pieces(done + rest.pieces, rest.rest)
      invariant var shown := ShowAll(config, start, done);
        split.limiter == shown.limiter && out == Lines(shown.pieces)
    {
      ghost var scanned := Scan(split.buf + chunks[i]);
      assert chunks[i..][0] == chunks[i] && chunks[i..][1..] == chunks[i + 1..];
      ShowAllAppend(config, start, done, scanned.pieces);
      Assoc(done, scanned.pieces, ScanAll(scanned.rest, chunks[i + 1..]).pieces);
      ghost var shown := ShowAll(config, split.limiter, scanned.pieces);
      var lines := split.Feed(chunks[i]);
      done := done + scanned.pieces;
      out := out + lines;
    }
    assert done + [] == done;
    ReadsCutAsOne("", chunks);
    var rest := split.Flush();
    out := out + rest;
  }
}

/** How the `.env` readers and the rewriter treat a line, said in terms of its characters. */
module EnvFileLines {
  import opened Sequences
  import opened Strings
  import StringMeaning
  import opened EnvFile

  // ---------------------------------------------------------------------
  // Characters, lines and text
  // ---------------------------------------------------------------------

  /** White space and line breaks by their code points. */
  lemma CodePoints(c: char)
    ensures var n := c as int;
      && (IsBreak(c) <==> 10 <= n <= 13 || 28 <= n <= 30 || n == 133 || n == 8232 || n == 8233)
      && (IsSpace(c) <==> 9 <= n <= 13 || 28 <= n <= 32 || n == 133 || n == 160 || n == 5760
                          || 8192 <= n <= 8202 || n == 8232 || n == 8233 || n == 8239 || n == 8287 || n == 12288)
  {}

  /** A text is split after its first break, a carriage return and a newline counting as one. */
  lemma SplitExactly(line: string, end: string, rest: string)
    requires forall i :: 0 <= i < |line| ==> !IsBreak(line[i])
    requires end == "\r\n" || (|end| == 1 && IsBreak(end[0]) && !(end == "\r" && rest != "" && rest[0] == '\n'))
    ensures SplitLines(line + end + rest) == [line] + SplitLines(rest)
    ensures SplitLines(line) == if line == "" then [] else [line]
  {
    var text := line + end + rest;
    assert IsBreak('\r');
    hide IsBreak;
    assert forall i :: 0 <= i < |line| ==> text[i] == line[i];
    assert text[|line|] == end[0];
    assert FirstIndex(IsBreak, text) == |line| && FirstIndex(IsBreak, line) == |line|;
    assert |line| + 1 < |text| ==> text[|line| + 1] == if |end| == 2 then end[1] else rest[0];
    assert BreakWidth(text, |line|) == |end|;
    assert text[..|line|] == line && text[|line| + |end|..] == rest;
  }

  /** Each line followed by a newline. */
  ghost function Lined(lines: seq<string>): string {
    if lines == [] then "" else lines[0] + "\n" + Lined(lines[1..])
  }

  /** The text of a list of lines: each followed by a newline, a blank last one left out. */
  lemma {:induction false} TextExactly(lines: seq<string>)
    requires AllOneLine(lines)
    ensures ToText(lines) ==
      Lined(if lines != [] && lines[|lines| - 1] == "" then lines[..|lines| - 1] else lines)
  {
    if |lines| > 1 {
      hide ToText, OneLine;
      TextExactly(lines[1..]);
      ToTextCons(lines);
      LinedCons(lines[0], Trimmed(lines[1..]));
      assert Trimmed(lines) == [lines[0]] + Trimmed(lines[1..]);
    } else if |lines| == 1 {
      assert lines == [lines[0]];
      TextOfOne(lines[0]);
    }
  }

  lemma LinedCons(line: string, lines: seq<string>)
    ensures Lined([line] + lines) == line + "\n" + Lined(lines)
  {}

  lemma TextOfOne(line: string)
    requires OneLine(line)
    ensures ToText([line]) == if line == "" then "" else line + "\n"
    ensures Lined([line]) == line + "\n" && Lined([line][..0]) == ""
  {
    assert JoinLines([line]) == line;
  }

  // ---------------------------------------------------------------------
  // One line
  // ---------------------------------------------------------------------

  /** `key=value` without the white space around it, and around the key. */
  ghost predicate Spells(line: string, key: string, value: string) {
    exists stripped, left ::
      && StringMeaning.Trimmed(IsSpace, line, stripped) && stripped == left + "=" + value
      && stripped[0] != '#' && '=' !in left && StringMeaning.Trimmed(IsSpace, left, key)
  }

  /** The reader takes a pair from a line exactly when the line spells it. */
  lemma EntryExactly(line: string, key: string, value: string)
    ensures Entry(line) == Some(Pair(key, value)) <==> Spells(line, key, value)
  {
    hide IsSpace, Strip;
    var stripped := Strip(IsSpace, line);
    forall s ensures StringMeaning.Trimmed(IsSpace, line, s) <==> s == stripped {
      StringMeaning.StripMeaning(IsSpace, line, s);
    }
    forall left ensures StringMeaning.Trimmed(IsSpace, left, key) <==> key == Strip(IsSpace, left) {
      StringMeaning.StripMeaning(IsSpace, left, key);
    }
    var at := FirstIndex(IsEquals, stripped);
    if at < |stripped| {
      assert stripped == stripped[..at] + "=" + stripped[at + 1..] && '=' !in stripped[..at];
    }
    forall left | stripped == left + "=" + value && '=' !in left
      ensures at == |left| && stripped[..at] == left && stripped[at + 1..] == value
    {
      SplitAtEquals(stripped, left, value);
    }
  }

  lemma SplitAtEquals(s: string, left: string, value: string)
    requires s == left + "=" + value && '=' !in left
    ensures FirstIndex(IsEquals, s) == |left| && s[..|left|] == left && s[|left| + 1..] == value
  {
    assert s[|left|] == '=';
    assert forall i :: 0 <= i < |left| ==> s[i] == left[i] && left[i] in left;
  }

  /** The rewriter takes a line for an assignment when the reader does and its key has no white space in it. */
  lemma ReadLineExactly(line: string, key: string)
    ensures ReadLine(line) == KeyValue(key, line) <==>
      key != "" && (forall c <- key :: !IsSpace(c)) && exists value :: Spells(line, key, value)
    ensures (forall key' :: ReadLine(line) != KeyValue(key', line)) ==> ReadLine(line) == Other(line)
  {
    var e := Entry(line);
    forall value ensures e == Some(Pair(key, value)) <==> Spells(line, key, value) {
      EntryExactly(line, key, value);
    }
    hide Spells, IsSpace, Strip;
    assert FirstIndex(IsSpace, key) == |key| <==> forall c <- key :: !IsSpace(c);
    assert e.Some? && e.value.key == key ==> Spells(line, key, e.value.value);
  }

  /** White space, then nothing, a comment, or text without an equals sign. */
  ghost predicate SaysNothing(line: string) {
    exists stripped :: StringMeaning.Trimmed(IsSpace, line, stripped)
      && (stripped == "" || stripped[0] == '#' || '=' !in stripped)
  }

  /** Main result: a comment, blank or malformed line is read as nothing, and never taken for an assignment. */
  lemma CommentsSayNothing(line: string)
    ensures Entry(line) == None <==> SaysNothing(line)
    ensures SaysNothing(line) ==> ReadLine(line) == Other(line)
  {
    hide IsSpace, Strip;
    var stripped := Strip(IsSpace, line);
    forall s ensures StringMeaning.Trimmed(IsSpace, line, s) <==> s == stripped {
      StringMeaning.StripMeaning(IsSpace, line, s);
    }
    var at := FirstIndex(IsEquals, stripped);
    assert at == |stripped| <==> '=' !in stripped;
  }

  lemma NothingAssigned(line: string, lines: seq<string>)
    requires SaysNothing(line)
    ensures Data(lines + [line]) == Data(lines)
  {
    CommentsSayNothing(line);
    assert Init(lines + [line]) == lines;
  }

  // ---------------------------------------------------------------------
  // The rewritten file, line by line
  // ---------------------------------------------------------------------

  /**
   Main result: a write puts `key=value` in place of every line that reads as one of its
   keys, leaves every other line, and appends the keys no line had, in order.
   */
  lemma RewriteExactly(values: Values, lines: seq<string>)
    requires GoodKeys(values)
    ensures var out := Rewrite(values, lines);
      && |out| >= |lines|
      && (forall i :: 0 <= i < |lines| ==>
            out[i] == var e := Entry(lines[i]);
              if e.Some? && e.value.key in Keys(values)
              then e.value.key + "=" + ValueOf(values, e.value.key) else lines[i])
      && out[|lines|..] == Map((p: Pair) => p.key + "=" + p.value,
                               Filter((p: Pair) => p.key !in Data(lines), values))
  {
    forall i | 0 <= i < |lines|
      ensures Rewrite(values, lines)[i] == var e := Entry(lines[i]);
        if e.Some? && e.value.key in Keys(values)
        then e.value.key + "=" + ValueOf(values, e.value.key) else lines[i]
    {
      RewriteLineReads(values, lines[i]);
      SameKey(lines[i]);
    }
    SeenIsData(values, lines);
    hide RewriteLine, GoodKeys, Data, Entry;
    FilterSame((p: Pair) => p.key !in Seen(Keys(values), lines), (p: Pair) => p.key !in Data(lines), values);
  }

  /** Every comment, blank or malformed line is still there after a write, in its place, the last blank aside. */
  lemma CommentsStay(file: File, values: Values, i: nat)
    requires GoodKeys(values) && forall k :: k in Keys(values) ==> OneLine(ValueOf(values, k))
    requires i < |LinesOf(file)| && SaysNothing(LinesOf(file)[i])
    ensures var after := SplitLines(ToText(Rewrite(values, LinesOf(file))));
      i < |LinesOf(file)| - 1 || i < |after| ==> i < |after| && after[i] == LinesOf(file)[i]
  {
    CommentsSayNothing(LinesOf(file)[i]);
    hide ReadLine, SplitLines, ToText, Rewrite, SaysNothing;
    UnmanagedLinesStay(file, values, i);
  }

  /** The line spells an assignment to one of the keys. */
  ghost predicate AssignsOneOf(keys: set<string>, line: string) {
    exists key, value :: key in keys && key != "" && (forall c <- key :: !IsSpace(c)) && Spells(line, key, value)
  }

  /** Removing keys takes the assignments to them, and no other line. */
  lemma RemovedExactly(keys: set<string>, lines: seq<string>)
    ensures Removed(keys, lines) == Filter(line => !AssignsOneOf(keys, line), lines)
  {
    forall line | line in lines ensures Manages(keys, line) <==> AssignsOneOf(keys, line) {
      ManagesMeaning(keys, line);
    }
    FilterSame(line => !Manages(keys, line), line => !AssignsOneOf(keys, line), lines);
  }

  lemma RawIsLine(line: string)
    ensures ReadLine(line).raw == line
  {}

  lemma ManagesMeaning(keys: set<string>, line: string)
    ensures Manages(keys, line) <==> AssignsOneOf(keys, line)
  {
    RawIsLine(line);
    hide Spells, IsSpace, ReadLine;
    if Manages(keys, line) {
      ReadLineExactly(line, ReadLine(line).key);
    }
    if key, value :|
      key in keys && key != "" && (forall c <- key :: !IsSpace(c)) && Spells(line, key, value)
    {
      ReadLineExactly(line, key);
    }
  }
}

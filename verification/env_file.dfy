/**
 The `.env` file, rewritten in place: managed keys get new values where they stand,
 everything else is kept, new keys go to the end. A file is the text its reader sees.
 */
module EnvFile {
  import opened Sequences
  import opened Strings

  // ---------------------------------------------------------------------
  // Characters and lines, as Python's str sees them
  // ---------------------------------------------------------------------

  /** `str.splitlines` breaks after these. */
  predicate IsBreak(c: char) {
    c in "\n\r\U{0B}\U{0C}\U{1C}\U{1D}\U{1E}\U{85}\U{2028}\U{2029}"
  }

  /** `str.isspace`. */
  predicate IsSpace(c: char) {
    IsBreak(c) || c in " \t\U{1F}\U{A0}\U{1680}\U{202F}\U{205F}\U{3000}" || '\U{2000}' <= c <= '\U{200A}'
  }

  function BreakWidth(text: string, at: nat): (w: nat)
    requires at < |text|
    ensures 1 <= w && at + w <= |text|
  {
    if text[at] == '\r' && at + 1 < |text| && text[at + 1] == '\n' then 2 else 1
  }

  function SplitLines(text: string): seq<string>
    decreases |text|
  {
    if text == "" then [] else
      var at := FirstIndex(IsBreak, text);
      if at == |text| then [text] else [text[..at]] + SplitLines(text[at + BreakWidth(text, at)..])
  }

  /** The lines joined and ended by newlines, unless that leaves nothing. */
  function ToText(lines: seq<string>): string {
    var text := JoinLines(lines);
    if text != "" && Last(text) != '\n' then text + "\n" else text
  }

  predicate OneLine(s: string) {
    forall i :: 0 <= i < |s| ==> !IsBreak(s[i])
  }

  // ---------------------------------------------------------------------
  // Reading a line
  // ---------------------------------------------------------------------

  datatype Record = KeyValue(key: string, raw: string) | Other(raw: string)

  predicate IsEquals(c: char) {
    c == '='
  }

  /** A line that is neither blank, nor a comment, nor without an equals sign. */
  predicate Assigns(stripped: string) {
    stripped != "" && stripped[0] != '#' && FirstIndex(IsEquals, stripped) < |stripped|
  }

  function KeyPart(stripped: string): string {
    Strip(IsSpace, stripped[..FirstIndex(IsEquals, stripped)])
  }

  function ReadLine(line: string): Record {
    var stripped := Strip(IsSpace, line);
    if !Assigns(stripped) then Other(line) else
      var key := KeyPart(stripped);
      if key == "" || FirstIndex(IsSpace, key) < |key| then Other(line) else KeyValue(key, line)
  }

  datatype Pair = Pair(key: string, value: string)

  /** What the plain reader makes of a line; it does not check the key. */
  function Entry(line: string): Option<Pair> {
    var stripped := Strip(IsSpace, line);
    if !Assigns(stripped) then None
    else Some(Pair(KeyPart(stripped), stripped[FirstIndex(IsEquals, stripped) + 1..]))
  }

  function Data(lines: seq<string>): map<string, string> {
    if lines == [] then map[] else Put(Data(Init(lines)), Entry(Last(lines)))
  }

  function Put(data: map<string, string>, e: Option<Pair>): map<string, string> {
    if e.None? then data else data[e.value.key := e.value.value]
  }

  type File = Option<string>

  function LinesOf(file: File): seq<string> {
    if file.None? then [] else SplitLines(file.value)
  }

  method ParseEnvFile(file: File) returns (data: map<string, string>)
    ensures data == Data(LinesOf(file))
  {
    data := map[];
    if file.None? {
      return;
    }
    var lines := SplitLines(file.value);
    for i := 0 to |lines|
      invariant data == Data(lines[..i])
    {
      assert Init(lines[..i + 1]) == lines[..i];
      var e := Entry(lines[i]);
      if e.Some? {
        data := data[e.value.key := e.value.value];
      }
    }
    assert lines[..|lines|] == lines;
  }

  // ---------------------------------------------------------------------
  // Rewriting
  // ---------------------------------------------------------------------

  /** The values to write, in order; a dictionary has each key once. */
  type Values = seq<Pair>

  ghost predicate DistinctKeys(values: Values) {
    forall i, j :: 0 <= i < j < |values| ==> values[i].key != values[j].key
  }

  function Keys(values: Values): set<string> {
    set p | p in values :: p.key
  }

  function ValueOf(values: Values, key: string): string
    requires key in Keys(values)
  {
    if values[0].key == key then values[0].value else ValueOf(values[1..], key)
  }

  function Assignment(key: string, value: string): string {
    key + "=" + value
  }

  predicate Manages(keys: set<string>, line: string) {
    ReadLine(line).KeyValue? && ReadLine(line).key in keys
  }

  function RewriteLine(values: Values, line: string): string {
    if Manages(Keys(values), line)
    then Assignment(ReadLine(line).key, ValueOf(values, ReadLine(line).key)) else line
  }

  function Seen(keys: set<string>, lines: seq<string>): set<string> {
    set line | line in lines && Manages(keys, line) :: ReadLine(line).key
  }

  function Appended(values: Values, seen: set<string>): seq<string> {
    Map((p: Pair) => Assignment(p.key, p.value), Filter((p: Pair) => p.key !in seen, values))
  }

  function Rewrite(values: Values, lines: seq<string>): seq<string> {
    Map(line => RewriteLine(values, line), lines) + Appended(values, Seen(Keys(values), lines))
  }

  method WriteEnvFile(file: File, values: Values) returns (text: string)
    ensures text == ToText(Rewrite(values, LinesOf(file)))
  {
    hide SplitLines, RewriteLine, Manages;
    var lines := if file.Some? then SplitLines(file.value) else [];
    var out, seen := RewriteLines(lines, values);
    ghost var kept := out;
    for i := 0 to |values|
      invariant out == kept + Appended(values[..i], seen)
    {
      assert values[..i + 1] == values[..i] + [values[i]];
      AppendedGrows(values[..i], values[i], seen);
      if values[i].key !in seen {
        out := out + [Assignment(values[i].key, values[i].value)];
      }
    }
    assert values[..|values|] == values;
    text := ToText(out);
  }

  /** The first loop: managed lines rewritten, and the keys they had. */
  method RewriteLines(lines: seq<string>, values: Values) returns (out: seq<string>, seen: set<string>)
    ensures out == Map(line => RewriteLine(values, line), lines) && seen == Seen(Keys(values), lines)
  {
    hide ReadLine;
    var keys := Keys(values);
    out, seen := [], {};
    for i := 0 to |lines|
      invariant out == Map(line => RewriteLine(values, line), lines[..i])
      invariant seen == Seen(keys, lines[..i])
    {
      assert lines[..i + 1] == lines[..i] + [lines[i]];
      var r := ReadLine(lines[i]);
      if r.KeyValue? && r.key in keys {
        out := out + [Assignment(r.key, ValueOf(values, r.key))];
        seen := seen + {r.key};
      } else {
        out := out + [lines[i]];
      }
    }
    assert lines[..|lines|] == lines;
  }

  lemma AppendedGrows(values: Values, p: Pair, seen: set<string>)
    ensures Appended(values + [p], seen)
         == Appended(values, seen) + if p.key in seen then [] else [Assignment(p.key, p.value)]
  {
    FilterAppend((q: Pair) => q.key !in seen, values, [p]);
    assert [p][1..] == [];
  }

  function Removed(keys: set<string>, lines: seq<string>): seq<string> {
    Filter(line => !Manages(keys, line), lines)
  }

  method RemoveEnvKeys(file: File, keys: set<string>) returns (after: File)
    ensures after == if keys == {} || file.None? then file else Some(ToText(Removed(keys, LinesOf(file))))
  {
    if keys == {} || file.None? {
      return file;
    }
    var lines := SplitLines(file.value);
    var kept: seq<string> := [];
    for i := 0 to |lines|
      invariant kept == Removed(keys, lines[..i])
    {
      assert lines[..i + 1] == lines[..i] + [lines[i]];
      FilterAppend(line => !Manages(keys, line), lines[..i], [lines[i]]);
      assert [lines[i]][1..] == [];
      if !Manages(keys, lines[i]) {
        kept := kept + [lines[i]];
      }
    }
    assert lines[..|lines|] == lines;
    after := Some(ToText(kept));
  }

  // ---------------------------------------------------------------------
  // Text and lines
  // ---------------------------------------------------------------------

  lemma {:induction false} SplitLinesAreLines(text: string)
    ensures forall line :: line in SplitLines(text) ==> OneLine(line)
    decreases |text|
  {
    if text != "" {
      var at := FirstIndex(IsBreak, text);
      if at < |text| {
        SplitLinesAreLines(text[at + BreakWidth(text, at)..]);
      }
    }
  }

  /** A trailing blank line is lost. */
  function Trimmed(lines: seq<string>): seq<string> {
    if lines != [] && Last(lines) == "" then Init(lines) else lines
  }

  ghost predicate AllOneLine(lines: seq<string>) {
    forall i :: 0 <= i < |lines| ==> OneLine(lines[i])
  }

  lemma SplitFirst(line: string, rest: string)
    requires OneLine(line)
    ensures SplitLines(line + "\n" + rest) == [line] + SplitLines(rest)
  {
    var text := line + "\n" + rest;
    FirstIndexAt(line, rest);
    assert text[|line| + 1..] == rest && text[..|line|] == line;
  }

  lemma {:induction false} FirstIndexAt(line: string, rest: string)
    requires OneLine(line)
    ensures FirstIndex(IsBreak, line + "\n" + rest) == |line|
  {
    var text := line + "\n" + rest;
    var at := FirstIndex(IsBreak, text);
    assert text[|line|] == '\n' && IsBreak('\n');
    assert forall k :: 0 <= k < |line| ==> text[k] == line[k];
  }

  lemma {:induction false} SplitOneLine(line: string)
    requires OneLine(line) && line != ""
    ensures SplitLines(line) == [line]
    ensures SplitLines(line + "\n") == [line]
  {
    var at := FirstIndex(IsBreak, line);
    assert at == |line|;
    SplitFirst(line, "");
    assert line + "\n" + "" == line + "\n";
  }

  lemma ToTextOne(line: string)
    requires OneLine(line)
    ensures SplitLines(ToText([line])) == Trimmed([line])
  {
    if line != "" {
      SplitOneLine(line);
    }
  }

  /** The text of a list of lines splits back into it, less one trailing blank line. */
  lemma {:induction false} TextRoundTrip(lines: seq<string>)
    requires AllOneLine(lines)
    ensures SplitLines(ToText(lines)) == Trimmed(lines)
  {
    hide SplitLines, ToText, OneLine;
    if |lines| > 1 {
      TextRoundTrip(lines[1..]);
      ToTextCons(lines);
      SplitFirst(lines[0], ToText(lines[1..]));
      assert Trimmed(lines) == [lines[0]] + Trimmed(lines[1..]);
    } else if |lines| == 1 {
      ToTextOne(lines[0]);
      assert lines == [lines[0]];
    } else {
      ToTextNone();
    }
  }

  lemma ToTextNone()
    ensures SplitLines(ToText([])) == []
  {}

  lemma ToTextCons(lines: seq<string>)
    requires |lines| > 1
    ensures ToText(lines) == lines[0] + "\n" + ToText(lines[1..])
  {
    var rest := JoinLines(lines[1..]);
    var text := lines[0] + "\n" + rest;
    assert JoinLines(lines) == text;
    if rest == "" {
      assert text == lines[0] + "\n" && Last(text) == '\n';
    } else {
      assert Last(text) == Last(rest);
    }
  }

  // ---------------------------------------------------------------------
  // What is written is what is read
  // ---------------------------------------------------------------------

  /** A key the line reader accepts as it stands. */
  ghost predicate WellFormedKey(key: string) {
    key != "" && key[0] != '#' && forall i :: 0 <= i < |key| ==> key[i] != '=' && !IsSpace(key[i])
  }

  ghost predicate GoodKeys(values: Values) {
    DistinctKeys(values) && forall p :: p in values ==> WellFormedKey(p.key)
  }

  /** What is left of a value after the line is stripped. */
  function Kept(value: string): string {
    StripRight(IsSpace, value)
  }

  /** One line, and no trailing white space. */
  predicate Clean(value: string) {
    OneLine(value) && (value != "" ==> !IsSpace(Last(value)))
  }

  lemma {:induction false} StripRightSuffix(a: string, b: string)
    requires a != "" && !IsSpace(Last(a))
    ensures StripRight(IsSpace, a + b) == a + StripRight(IsSpace, b)
  {
    if b == "" {
      assert a + b == a;
    } else {
      assert Last(a + b) == Last(b) && Init(a + b) == a + Init(b);
      if IsSpace(Last(b)) {
        StripRightSuffix(a, Init(b));
      }
    }
  }

  lemma FirstIndexOf(p: char -> bool, a: string, b: string)
    requires b != "" && p(b[0]) && forall i :: 0 <= i < |a| ==> !p(a[i])
    ensures FirstIndex(p, a + b) == |a|
  {
    var s := a + b;
    assert s[|a|] == b[0];
    assert forall i :: 0 <= i < |a| ==> s[i] == a[i];
  }

  lemma KeyStrips(key: string)
    requires WellFormedKey(key)
    ensures Strip(IsSpace, key) == key && FirstIndex(IsSpace, key) == |key|
  {
    assert key[0] == key[0] && Last(key) == key[|key| - 1];
  }

  /** A written assignment reads back under its key, with its value's end stripped. */
  lemma AssignmentReads(key: string, value: string)
    requires WellFormedKey(key)
    ensures ReadLine(Assignment(key, value)) == KeyValue(key, Assignment(key, value))
    ensures Entry(Assignment(key, value)) == Some(Pair(key, Kept(value)))
  {
    var line := Assignment(key, value);
    var head := key + "=";
    assert line == head + value && Last(head) == '=' && !IsSpace('=');
    assert line[0] == key[0];
    StripRightSuffix(head, value);
    var stripped := Strip(IsSpace, line);
    assert stripped == head + Kept(value);
    var tail := "=" + Kept(value);
    assert stripped == key + tail;
    FirstIndexOf(IsEquals, key, tail);
    assert stripped[..|key|] == key && stripped[|key| + 1..] == Kept(value);
    KeyStrips(key);
  }

  /** The two readers agree on every line whose key is well formed. */
  lemma ReadersAgree(line: string, key: string)
    requires WellFormedKey(key)
    ensures ReadLine(line) == KeyValue(key, line) <==> Entry(line).Some? && Entry(line).value.key == key
  {
    KeyStrips(key);
  }

  lemma {:induction false} DataAppend(a: seq<string>, b: seq<string>)
    ensures Data(a + b) == Data(a) + Data(b)
  {
    if b == [] {
      assert a + b == a;
    } else {
      DataAppend(a, Init(b));
      assert Init(a + b) == a + Init(b) && Last(a + b) == Last(b);
    }
  }

  lemma DataTrimmed(lines: seq<string>)
    ensures Data(Trimmed(lines)) == Data(lines)
  {}

  lemma RewriteLineReads(values: Values, line: string)
    requires GoodKeys(values)
    ensures var was, now := Entry(line), Entry(RewriteLine(values, line));
      RenewedEntry(values, was, now)
      && (Manages(Keys(values), line) <==> was.Some? && was.value.key in Keys(values))
  {
    var was := Entry(line);
    SameKey(line);
    if was.Some? && was.value.key in Keys(values) {
      ReadersAgree(line, was.value.key);
      AssignmentReads(was.value.key, ValueOf(values, was.value.key));
    }
  }

  /** In place, the managed keys that are there take their new values; nothing else changes. */
  ghost predicate Renewed(values: Values, before: map<string, string>, after: map<string, string>) {
    after.Keys == before.Keys
    && forall k :: k in before ==> after[k] == if k in Keys(values) then Kept(ValueOf(values, k)) else before[k]
  }

  /** What rewriting makes of one line's entry. */
  ghost predicate RenewedEntry(values: Values, before: Option<Pair>, after: Option<Pair>) {
    if before.Some? && before.value.key in Keys(values)
    then after == Some(Pair(before.value.key, Kept(ValueOf(values, before.value.key))))
    else after == before
  }

  lemma RenewedPut(values: Values, before: map<string, string>, after: map<string, string>,
                   was: Option<Pair>, now: Option<Pair>)
    requires Renewed(values, before, after) && RenewedEntry(values, was, now)
    ensures Renewed(values, Put(before, was), Put(after, now))
  {}

  lemma {:induction false} RewrittenData(values: Values, lines: seq<string>)
    requires GoodKeys(values)
    ensures Renewed(values, Data(lines), Data(Map(line => RewriteLine(values, line), lines)))
  {
    if lines != [] {
      var init, line := Init(lines), Last(lines);
      RewrittenData(values, init);
      RewriteLineReads(values, line);
      var out := Map(l => RewriteLine(values, l), lines);
      var kept := Map(l => RewriteLine(values, l), init);
      assert Init(out) == kept && Last(out) == RewriteLine(values, line);
      RenewedPut(values, Data(init), Data(kept), Entry(line), Entry(RewriteLine(values, line)));
    }
  }

  /** The managed keys seen while rewriting are those the old data has. */
  lemma {:induction false} SeenIsData(values: Values, lines: seq<string>)
    requires GoodKeys(values)
    ensures Seen(Keys(values), lines) == Keys(values) * Data(lines).Keys
  {
    if lines != [] {
      SeenIsData(values, Init(lines));
      RewriteLineReads(values, Last(lines));
      SameKey(Last(lines));
      SeenGrows(Keys(values), Init(lines), Last(lines));
      assert Init(lines) + [Last(lines)] == lines;
      hide Entry, ReadLine, RewriteLine, Kept, GoodKeys;
    }
  }

  lemma SeenGrows(keys: set<string>, lines: seq<string>, line: string)
    ensures Seen(keys, lines + [line]) == Seen(keys, lines) + if Manages(keys, line) then {ReadLine(line).key} else {}
  {}

  lemma SameKey(line: string)
    ensures ReadLine(line).KeyValue? ==> Entry(line).Some? && Entry(line).value.key == ReadLine(line).key
  {}

  lemma {:induction false} ValueOfMember(values: Values, p: Pair)
    requires DistinctKeys(values) && p in values
    ensures p.key in Keys(values) && ValueOf(values, p.key) == p.value
  {
    if values[0] != p {
      assert values == [values[0]] + values[1..];
      assert Keys(values[1..]) <= Keys(values);
      var i :| 0 <= i < |values| && values[i] == p;
      assert values[0].key != values[i].key;
      ValueOfMember(values[1..], p);
    }
  }

  /** The values as a line reader sees them. */
  function Stripped(values: Values): map<string, string> {
    map k | k in Keys(values) :: Kept(ValueOf(values, k))
  }

  /** `data` carries exactly these keys, with their values stripped. */
  ghost predicate Carries(values: Values, keys: set<string>, data: map<string, string>) {
    data.Keys == keys && forall k :: k in keys ==> k in Keys(values) && data[k] == Kept(ValueOf(values, k))
  }

  /** The appended assignments carry exactly the keys not seen, with their values. */
  lemma {:induction false} AppendedData(values: Values, tail: Values, seen: set<string>)
    requires GoodKeys(values) && (forall p :: p in tail ==> p in values)
    ensures Carries(values, Keys(tail) - seen, Data(Appended(tail, seen)))
  {
    if tail == [] {
      assert Appended(tail, seen) == [];
    } else {
      var init, p := Init(tail), Last(tail);
      assert init + [p] == tail && p in tail;
      AppendedData(values, init, seen);
      AppendedGrows(init, p, seen);
      AppendedStep(values, init, p, seen);
    }
  }

  lemma AppendedStep(values: Values, init: Values, p: Pair, seen: set<string>)
    requires GoodKeys(values) && p in values
    requires Carries(values, Keys(init) - seen, Data(Appended(init, seen)))
    ensures Carries(values, Keys(init + [p]) - seen,
      Data(Appended(init, seen) + if p.key in seen then [] else [Assignment(p.key, p.value)]))
  {
    AssignmentReads(p.key, p.value);
    ValueOfMember(values, p);
    KeysGrow(init, p);
    hide Appended, Entry, Data, Assignment, Kept, GoodKeys;
    var before, line := Appended(init, seen), Assignment(p.key, p.value);
    if p.key in seen {
      assert before + [] == before;
      assert Keys(init + [p]) - seen == Keys(init) - seen;
    } else {
      DataOfOne(line);
      DataAppend(before, [line]);
      assert Keys(init + [p]) - seen == (Keys(init) - seen) + {p.key};
      CarriesMore(values, Keys(init) - seen, Data(before), p.key);
    }
  }

  lemma KeysGrow(values: Values, p: Pair)
    ensures Keys(values + [p]) == Keys(values) + {p.key}
  {}

  lemma CarriesMore(values: Values, keys: set<string>, data: map<string, string>, k: string)
    requires Carries(values, keys, data) && k in Keys(values)
    ensures Carries(values, keys + {k}, data + map[k := Kept(ValueOf(values, k))])
  {}

  /** Renewing what is there and adding the rest is laying the stripped values over the old data. */
  lemma RenewedAndCarried(values: Values, before: map<string, string>, kept: map<string, string>,
                          added: map<string, string>)
    requires Renewed(values, before, kept)
    requires Carries(values, Keys(values) - Keys(values) * before.Keys, added)
    ensures kept + added == before + Stripped(values)
  {}

  lemma DataOfOne(line: string)
    ensures Data([line]) == Put(map[], Entry(line))
  {
    assert Init([line]) == [];
  }

  /** What a write leaves to be read: the old data, with each written value's end stripped. */
  lemma WrittenData(values: Values, lines: seq<string>)
    requires GoodKeys(values)
    ensures Data(Rewrite(values, lines)) == Data(lines) + Stripped(values)
  {
    hide Data, Seen, Appended, RewriteLine, GoodKeys, Renewed, Carries, Stripped;
    var kept := Map(line => RewriteLine(values, line), lines);
    var seen := Seen(Keys(values), lines);
    RewrittenData(values, lines);
    SeenIsData(values, lines);
    AppendedData(values, values, seen);
    DataAppend(kept, Appended(values, seen));
    RenewedAndCarried(values, Data(lines), Data(kept), Data(Appended(values, seen)));
  }

  lemma RewriteIsOneLine(values: Values, lines: seq<string>)
    requires GoodKeys(values) && AllOneLine(lines)
    requires forall k :: k in Keys(values) ==> OneLine(ValueOf(values, k))
    ensures AllOneLine(Rewrite(values, lines))
  {
    var out := Rewrite(values, lines);
    forall i | 0 <= i < |out| ensures OneLine(out[i]) {
      if i < |lines| {
        assert out[i] == RewriteLine(values, lines[i]);
        if Manages(Keys(values), lines[i]) {
          AssignmentIsOneLine(ReadLine(lines[i]).key, ValueOf(values, ReadLine(lines[i]).key));
        }
      } else {
        var unseen := Filter((p: Pair) => p.key !in Seen(Keys(values), lines), values);
        FilterMembers((p: Pair) => p.key !in Seen(Keys(values), lines), values);
        var p := unseen[i - |lines|];
        assert p in unseen && out[i] == Assignment(p.key, p.value);
        ValueOfMember(values, p);
        AssignmentIsOneLine(p.key, p.value);
      }
    }
  }

  lemma AssignmentIsOneLine(key: string, value: string)
    requires WellFormedKey(key) && OneLine(value)
    ensures OneLine(Assignment(key, value))
  {}

  /** The data read back after writing a file. */
  function ReadBack(file: File, values: Values): map<string, string> {
    Data(SplitLines(ToText(Rewrite(values, LinesOf(file)))))
  }

  /**
   Main result: with well-formed keys and values of one line, reading the file back gives
   the old data, duplicates of a key included, updated by the values as stripped.
   */
  lemma WriteThenRead(file: File, values: Values)
    requires GoodKeys(values) && forall k :: k in Keys(values) ==> OneLine(ValueOf(values, k))
    ensures ReadBack(file, values)
         == Data(LinesOf(file)) + Stripped(values)
  {
    var lines := LinesOf(file);
    if file.Some? {
      SplitLinesAreLines(file.value);
    }
    RewriteIsOneLine(values, lines);
    TextRoundTrip(Rewrite(values, lines));
    DataTrimmed(Rewrite(values, lines));
    WrittenData(values, lines);
  }

  lemma {:induction false} StrippedEnd(value: string)
    ensures |Kept(value)| <= |value|
    ensures Kept(value) == value <==> (value != "" ==> !IsSpace(Last(value)))
  {
    if value != "" && IsSpace(Last(value)) {
      StrippedEnd(Init(value));
    }
  }

  lemma {:induction false} StripIsOneLine(s: string)
    requires OneLine(s)
    ensures OneLine(StripLeft(IsSpace, s)) && OneLine(StripRight(IsSpace, s))
  {
    if s != "" {
      if IsSpace(s[0]) {
        StripIsOneLine(s[1..]);
      }
      if IsSpace(Last(s)) {
        StripIsOneLine(Init(s));
      }
    }
  }

  /** Whatever is read from a file fits on one line. */
  lemma {:induction false} DataIsOneLine(lines: seq<string>)
    requires AllOneLine(lines)
    ensures forall k :: k in Data(lines) ==> OneLine(Data(lines)[k])
  {
    if lines != [] {
      DataIsOneLine(Init(lines));
      var line := Last(lines);
      StripIsOneLine(line);
      StripIsOneLine(StripLeft(IsSpace, line));
    }
  }

  /** Main result: every written value comes back exactly when each is one line with no white space at its end. */
  lemma ValuesSurviveExactly(file: File, values: Values)
    requires GoodKeys(values)
    ensures (forall k :: k in Keys(values) ==>
               k in ReadBack(file, values) && ReadBack(file, values)[k] == ValueOf(values, k))
       <==> forall k :: k in Keys(values) ==> Clean(ValueOf(values, k))
  {
    var text := ToText(Rewrite(values, LinesOf(file)));
    SplitLinesAreLines(text);
    DataIsOneLine(SplitLines(text));
    if forall k :: k in Keys(values) ==> OneLine(ValueOf(values, k)) {
      WriteThenRead(file, values);
      forall k | k in Keys(values)
        ensures ReadBack(file, values)[k] == ValueOf(values, k) <==> Clean(ValueOf(values, k))
      {
        StrippedEnd(ValueOf(values, k));
      }
    }
  }

  // ---------------------------------------------------------------------
  // What a rewrite leaves alone, and rewriting twice
  // ---------------------------------------------------------------------

  /** Every line that is not a managed assignment is still there, in its place. */
  lemma UnmanagedLinesStay(file: File, values: Values, i: nat)
    requires GoodKeys(values) && forall k :: k in Keys(values) ==> OneLine(ValueOf(values, k))
    ensures var lines, after := LinesOf(file), SplitLines(ToText(Rewrite(values, LinesOf(file))));
      i < |after| && i < |lines| && !Manages(Keys(values), lines[i]) ==> after[i] == lines[i]
    ensures |SplitLines(ToText(Rewrite(values, LinesOf(file))))| >= |LinesOf(file)| - 1
  {
    if file.Some? {
      SplitLinesAreLines(file.value);
    }
    RewriteIsOneLine(values, LinesOf(file));
    TextRoundTrip(Rewrite(values, LinesOf(file)));
  }

  /** Every value is already in place. */
  ghost predicate Settled(values: Values, lines: seq<string>) {
    Seen(Keys(values), lines) == Keys(values)
    && forall i :: 0 <= i < |lines| ==> RewriteLine(values, lines[i]) == lines[i]
  }

  lemma SettledStays(values: Values, lines: seq<string>)
    requires Settled(values, lines)
    ensures Rewrite(values, lines) == lines
  {
    FilterNone((p: Pair) => p.key !in Seen(Keys(values), lines), values);
    assert Map(line => RewriteLine(values, line), lines) == lines;
  }

  lemma RewrittenLineSettles(values: Values, line: string)
    requires GoodKeys(values)
    ensures var out := RewriteLine(values, line);
      RewriteLine(values, out) == out
      && (Manages(Keys(values), out) <==> Manages(Keys(values), line))
      && (Manages(Keys(values), line) ==> ReadLine(out).key == ReadLine(line).key)
  {
    if Manages(Keys(values), line) {
      AssignmentReads(ReadLine(line).key, ValueOf(values, ReadLine(line).key));
    }
  }

  lemma RewriteSettles(values: Values, lines: seq<string>)
    requires GoodKeys(values)
    ensures Settled(values, Rewrite(values, lines))
  {
    hide ReadLine, GoodKeys;
    var keys := Keys(values);
    var seen := Seen(keys, lines);
    var out := Rewrite(values, lines);
    var unseen := Filter((p: Pair) => p.key !in seen, values);
    FilterMembers((p: Pair) => p.key !in seen, values);
    forall i | 0 <= i < |out| ensures RewriteLine(values, out[i]) == out[i] {
      if i < |lines| {
        RewrittenLineSettles(values, lines[i]);
      } else {
        AppendedLineSettles(values, unseen[i - |lines|]);
      }
    }
    forall k | k in keys ensures k in Seen(keys, out) {
      if k in seen {
        SeenStaysSeen(values, lines, k);
      } else {
        var p :| p in values && p.key == k;
        var j :| 0 <= j < |unseen| && unseen[j] == p;
        AppendedLineSettles(values, p);
        assert out[|lines| + j] == Assignment(p.key, p.value);
      }
    }
  }

  lemma SeenStaysSeen(values: Values, lines: seq<string>, k: string)
    requires GoodKeys(values) && k in Seen(Keys(values), lines)
    ensures k in Seen(Keys(values), Rewrite(values, lines))
  {
    var line :| line in lines && Manages(Keys(values), line) && ReadLine(line).key == k;
    var i :| 0 <= i < |lines| && lines[i] == line;
    RewrittenLineSettles(values, line);
    hide ReadLine, RewriteLine;
    assert Rewrite(values, lines)[i] == RewriteLine(values, line);
  }

  lemma AppendedLineSettles(values: Values, p: Pair)
    requires GoodKeys(values) && p in values
    ensures var line := Assignment(p.key, p.value);
      RewriteLine(values, line) == line && Manages(Keys(values), line) && ReadLine(line).key == p.key
  {
    AssignmentReads(p.key, p.value);
    ValueOfMember(values, p);
  }

  /** Rewriting the lines again with the same values changes nothing. */
  lemma RewriteIsIdempotent(values: Values, lines: seq<string>)
    requires GoodKeys(values)
    ensures Rewrite(values, Rewrite(values, lines)) == Rewrite(values, lines)
  {
    RewriteSettles(values, lines);
    SettledStays(values, Rewrite(values, lines));
  }

  predicate EndsInTwoBlanks(lines: seq<string>) {
    |lines| > 1 && lines[|lines| - 2] == "" && lines[|lines| - 1] == ""
  }

  lemma EmptyLineUnmanaged(keys: set<string>)
    ensures !Manages(keys, "")
  {}

  lemma SettledTrims(values: Values, lines: seq<string>)
    requires Settled(values, lines)
    ensures Settled(values, Trimmed(lines))
  {
    hide ReadLine, RewriteLine;
    var less := Trimmed(lines);
    EmptyLineUnmanaged(Keys(values));
    forall k | k in Keys(values) ensures k in Seen(Keys(values), less) {
      var line :| line in lines && Manages(Keys(values), line) && ReadLine(line).key == k;
      assert line != "";
      var i :| 0 <= i < |lines| && lines[i] == line;
      assert less[i] == line;
    }
  }

  lemma {:induction false} TextOfTrimmed(lines: seq<string>)
    requires AllOneLine(lines)
    ensures ToText(Trimmed(lines)) == ToText(lines) <==> !EndsInTwoBlanks(lines)
  {
    if |lines| > 2 {
      hide ToText;
      TextOfTrimmed(lines[1..]);
      ToTextCons(lines);
      assert Trimmed(lines)[1..] == Trimmed(lines[1..]) && Trimmed(lines)[0] == lines[0];
      ToTextCons(Trimmed(lines));
      var a, b := ToText(Trimmed(lines[1..])), ToText(lines[1..]);
      assert (lines[0] + "\n" + a)[|lines[0]| + 1..] == a && (lines[0] + "\n" + b)[|lines[0]| + 1..] == b;
    } else if |lines| == 2 {
      TextOfTwo(lines[0], lines[1]);
      assert lines == [lines[0], lines[1]];
    }
  }

  lemma TextOfTwo(a: string, b: string)
    requires OneLine(a) && OneLine(b)
    ensures ToText(Trimmed([a, b])) == ToText([a, b]) <==> !(a == "" && b == "")
  {
    assert [a, b][1..] == [b];
    assert JoinLines([a, b]) == a + "\n" + b;
    if b == "" {
      assert a + "\n" + b == a + "\n";
      assert Trimmed([a, b]) == [a];
      assert a != "" ==> Last(a) != '\n';
    }
  }

  lemma BlanksStay(values: Values, lines: seq<string>)
    ensures EndsInTwoBlanks(Rewrite(values, lines))
       <==> EndsInTwoBlanks(lines) && Keys(values) <= Seen(Keys(values), lines)
  {
    var seen := Seen(Keys(values), lines);
    FilterMembers((p: Pair) => p.key !in seen, values);
    hide ReadLine, Seen;
    EmptyLineUnmanaged(Keys(values));
    var added := Appended(values, seen);
    if added != [] {
      assert Last(Rewrite(values, lines)) == Last(added) != "";
      var p := Last(Filter((p: Pair) => p.key !in seen, values));
      assert p in Filter((p: Pair) => p.key !in seen, values);
    } else {
      forall k | k in Keys(values) ensures k in seen {
        var p :| p in values && p.key == k;
        assert p.key !in seen ==> p in Filter((p: Pair) => p.key !in seen, values);
      }
    }
  }

  /**
   Main result: writing the same values to a file a second time leaves its text as it is
   unless the file ended in two blank lines and already had every key; then one more
   blank line goes.
   */
  lemma SecondWriteExactly(file: File, values: Values)
    requires GoodKeys(values) && forall k :: k in Keys(values) ==> OneLine(ValueOf(values, k))
    ensures var once := ToText(Rewrite(values, LinesOf(file)));
      ToText(Rewrite(values, SplitLines(once))) == once
      <==> !(EndsInTwoBlanks(LinesOf(file)) && Keys(values) <= Seen(Keys(values), LinesOf(file)))
  {
    var out := Rewrite(values, LinesOf(file));
    if file.Some? {
      SplitLinesAreLines(file.value);
    }
    RewriteIsOneLine(values, LinesOf(file));
    TextRoundTrip(out);
    RewriteSettles(values, LinesOf(file));
    SettledTrims(values, out);
    SettledStays(values, Trimmed(out));
    TextOfTrimmed(out);
    BlanksStay(values, LinesOf(file));
  }

  /** An assignment followed by two blank lines. */
  function BlankEnded(line: string): string {
    line + "\n" + ("" + "\n" + ("" + "\n" + ""))
  }

  lemma BlankEndedLines(line: string)
    requires OneLine(line)
    ensures SplitLines(BlankEnded(line)) == [line, "", ""]
  {
    SplitFirst(line, "" + "\n" + ("" + "\n" + ""));
    SplitFirst("", "" + "\n" + "");
    SplitFirst("", "");
    hide SplitLines;
    assert SplitLines("") == [] by {
      ToTextNone();
    }
  }

  /** Every assignment followed by two blank lines is a file that a second write of it changes. */
  lemma SecondWriteDrops(key: string, value: string)
    requires WellFormedKey(key) && OneLine(value)
    ensures var file, values := Some(BlankEnded(Assignment(key, value))), [Pair(key, value)];
      var once := ToText(Rewrite(values, LinesOf(file)));
      GoodKeys(values) && ToText(Rewrite(values, SplitLines(once))) != once
  {
    hide ReadLine, ToText, SplitLines, Rewrite, RewriteLine, Entry, Assignment, BlankEnded, WellFormedKey, Seen, Keys;
    hide ValueOf, GoodKeys, OneLine;
    var line, values := Assignment(key, value), [Pair(key, value)];
    var file := Some(BlankEnded(line));
    OnePair(key, value);
    AssignmentIsOneLine(key, value);
    BlankEndedLines(line);
    AssignmentReads(key, value);
    ManagedIsSeen(Keys(values), LinesOf(file), line);
    SecondWriteExactly(file, values);
  }

  lemma OnePair(key: string, value: string)
    requires WellFormedKey(key)
    ensures var values := [Pair(key, value)]; GoodKeys(values) && Keys(values) == {key} && ValueOf(values, key) == value
  {
    hide WellFormedKey;
  }

  /** `A=1` and two blank lines, for one. */
  lemma SecondWriteExample()
    ensures var file, values := Some(BlankEnded(Assignment("A", "1"))), [Pair("A", "1")];
      var once := ToText(Rewrite(values, LinesOf(file)));
      ToText(Rewrite(values, SplitLines(once))) != once
  {
    assert WellFormedKey("A") && OneLine("1");
    hide ToText, SplitLines, Rewrite, BlankEnded, Assignment, WellFormedKey, OneLine, GoodKeys;
    SecondWriteDrops("A", "1");
  }

  /** Every value ending in a space comes back without it. */
  lemma LastSpaceIsLost(key: string, value: string)
    requires WellFormedKey(key) && OneLine(value)
    ensures var values := [Pair(key, value + " ")];
      && GoodKeys(values) && key in ReadBack(None, values) && ReadBack(None, values)[key] == Kept(value) != value + " "
  {
    hide ReadBack, GoodKeys, WellFormedKey, Keys, ValueOf, Kept, IsSpace;
    var values := [Pair(key, value + " ")];
    OnePair(key, value + " ");
    KeptSpaced(value);
    WriteThenRead(None, values);
    assert key in Stripped(values);
  }

  lemma KeptSpaced(value: string)
    ensures Kept(value + " ") == Kept(value) != value + " "
    ensures OneLine(value) ==> OneLine(value + " ")
  {
    assert IsSpace(' ') && !IsBreak(' ');
    hide IsSpace, IsBreak;
    assert Init(value + " ") == value;
    StrippedEnd(value);
  }

  lemma ManagedIsSeen(keys: set<string>, lines: seq<string>, line: string)
    requires line in lines
    ensures Manages(keys, line) ==> ReadLine(line).key in Seen(keys, lines)
  {}

  lemma UnseenLinesStay(values: Values, lines: seq<string>)
    requires GoodKeys(values) && Seen(Keys(values), lines) == {}
    ensures Rewrite(values, lines) == lines + Map((p: Pair) => Assignment(p.key, p.value), values)
    ensures Removed(Keys(values), lines) == lines
  {
    FilterAll((p: Pair) => p.key !in {}, values);
    FilterSame((p: Pair) => p.key !in {}, (p: Pair) => p.key !in Seen(Keys(values), lines), values);
    forall line | line in lines ensures !Manages(Keys(values), line) {
      ManagedIsSeen(Keys(values), lines, line);
    }
    FilterAll(line => !Manages(Keys(values), line), lines);
    assert Map(line => RewriteLine(values, line), lines) == lines;
  }

  /** Main result: removing keys that a write appended gives back the lines that were there, less one trailing blank. */
  lemma RemoveUndoesAppend(file: File, values: Values)
    requires GoodKeys(values) && values != [] && Seen(Keys(values), LinesOf(file)) == {}
    requires forall k :: k in Keys(values) ==> OneLine(ValueOf(values, k))
    ensures var written := SplitLines(ToText(Rewrite(values, LinesOf(file))));
      SplitLines(ToText(Removed(Keys(values), written))) == Trimmed(LinesOf(file))
  {
    var lines, keys := LinesOf(file), Keys(values);
    if file.Some? {
      SplitLinesAreLines(file.value);
    }
    var added := Map((p: Pair) => Assignment(p.key, p.value), values);
    RewriteIsOneLine(values, lines);
    UnseenLinesStay(values, lines);
    TextRoundTrip(lines + added);
    assert Last(lines + added) == Last(added) != "";
    FilterAppend(line => !Manages(keys, line), lines, added);
    forall line | line in added ensures Manages(keys, line) {
      var i :| 0 <= i < |added| && added[i] == line;
      AppendedLineSettles(values, values[i]);
    }
    FilterNone(line => !Manages(keys, line), added);
    assert lines + [] == lines;
    TextRoundTrip(lines);
  }
}

/**
 The logged command and the editor, option by option: what each is printed with, what
 each sets, which words are refused, and what the guard decides.
 */
module EndpointCommandFields {
  import opened Sequences
  import opened Strings
  import opened StringMeaning
  import opened Values
  import opened CatalogNames
  import opened EndpointCommand

  // ---------------------------------------------------------------------
  // Printing
  // ---------------------------------------------------------------------

  ghost function TextOfValue(c: Codec, v: Value): string {
    match v
    case Str(s) => s
    case v => c.show(v)
  }

  /** What an entry holds under a field's key, Null for nothing. */
  ghost function Held(entry: Entry, field: Field, key: string): Value {
    if field in entry && entry[field].Dict? && key in entry[field].entries then entry[field].entries[key] else Null
  }

  ghost function FieldValue(entry: Entry, field: Field): Value {
    if field in entry then entry[field] else Null
  }

  /** The option is printed with this word, exactly when `cond` holds. */
  ghost predicate PrintsOne(line: CommandLine, flag: Flag, cond: bool, word: string) {
    (flag in line <==> cond) && (flag in line ==> line[flag] == [word])
  }

  /** The engine unless it is the default; model, host, served name and protocol when they hold something. */
  ghost predicate NamesPrinted(c: Codec, entry: Entry, line: CommandLine) {
    && PrintsOne(line, ToField(Engine), Engine in entry && entry[Engine] != Str("vllm"),
                 TextOfValue(c, FieldValue(entry, Engine)))
    && forall f :: f == Model || f == Host || f == ServedName || f == Protocol ==>
         PrintsOne(line, ToField(f), !Falsy(FieldValue(entry, f)), TextOfValue(c, FieldValue(entry, f)))
  }

  /** The reclaim policy when there is one, the memory when it is set, zero included, and the GPUs if any. */
  ghost predicate SectionsPrinted(c: Codec, entry: Entry, line: CommandLine) {
    var policy, vram := Held(entry, Reclaim, "policy"), Held(entry, Placement, "min_vram_gib");
    var gpus := Held(entry, Placement, "gpu_indices");
    && PrintsOne(line, ToField(Reclaim), !Falsy(policy), TextOfValue(c, policy))
    && PrintsOne(line, MinVram, vram != Null, TextOfValue(c, vram))
    && (Gpu in line <==> !Falsy(gpus))
    && (Gpu in line ==> gpus.List? && line[Gpu] == Map(v => TextOfValue(c, v), gpus.items))
  }

  /** A pair: its key, and its value's text when YAML reads it back, else JSON. */
  ghost function PairText(c: Codec, entry: Entry, key: string): string {
    var v := Held(entry, Runtime, key);
    key + "=" + if v.Str? && c.yaml(v.s) == Some(v) then v.s else c.json(v)
  }

  /** Extra arguments joined to one word, the other runtime keys as pairs, in their order. */
  ghost predicate RuntimePrinted(c: Codec, entry: Entry, order: seq<string>, line: CommandLine) {
    var extra := Held(entry, Runtime, "extra_args");
    && (extra.List? ==> forall v <- extra.items :: v.Str?)
    && PrintsOne(line, ExtraArgs, !Falsy(extra),
         if extra.List? then c.join(Map(v => TextOfValue(c, v), extra.items)) else TextOfValue(c, extra))
    && (ToField(Runtime) in line <==> order != [])
    && (order != [] ==> line[ToField(Runtime)] == Map(key => PairText(c, entry, key), order))
    && forall flag :: flag == MaxModelLen || flag == GpuMem || flag == TensorParallel ==> flag !in line
  }

  /** Main result: which options an entry is printed with, and with which words. */
  lemma PrintedExactly(c: Codec, entry: Entry, order: seq<string>)
    requires Orders(order, entry) && Printed(c, entry, order).Some?
    ensures var line := Printed(c, entry, order).value;
      NamesPrinted(c, entry, line) && SectionsPrinted(c, entry, line) && RuntimePrinted(c, entry, order, line)
  {
    PrintedNames(c, entry, order);
    PrintedSections(c, entry, order);
    PrintedRuntime(c, entry, order);
  }

  /** The field holds something, and no mapping. */
  ghost predicate NoMapping(entry: Entry, f: Field) {
    !Falsy(FieldValue(entry, f)) && !FieldValue(entry, f).Dict?
  }

  /**
   Printing raises exactly on a section that holds something other than a mapping, GPUs that
   are no list, extra arguments that are not all text, or runtime text YAML cannot read.
   */
  lemma PrintFailsExactly(c: Codec, entry: Entry, order: seq<string>)
    requires Orders(order, entry)
    ensures var gpus, extra := Held(entry, Placement, "gpu_indices"), Held(entry, Runtime, "extra_args");
      Printed(c, entry, order) == None <==>
        || NoMapping(entry, Reclaim) || NoMapping(entry, Placement) || NoMapping(entry, Runtime)
        || (!Falsy(gpus) && !gpus.List?)
        || (extra.List? && exists v <- extra.items :: !v.Str?)
        || exists key <- order :: Held(entry, Runtime, key).Str? && c.yaml(Held(entry, Runtime, key).s) == None
  {
    var gpus, extra := Held(entry, Placement, "gpu_indices"), Held(entry, Runtime, "extra_args");
    TruthyMeaning(gpus);
    SectionsFit(entry);
    PairsPrintMeaning(c, entry, order);
    assert gpus == Get(Section(entry, Placement), "gpu_indices");
    assert extra == Get(Section(entry, Runtime), "extra_args");
    if extra.List? {
      assert forall i :: 0 <= i < |extra.items| ==> extra.items[i] in extra.items;
      assert AllStrings(extra.items) <==> !exists v <- extra.items :: !v.Str?;
    }
    hide Falsy, FlagWords, LineOver, AllStrings, PairsPrint, Orders, NoMapping, Held, Section;
  }

  lemma SectionsFit(entry: Entry)
    ensures (forall f :: f in {Reclaim, Placement, Runtime} ==> !At(entry, f).Truthy() || At(entry, f).Dict?)
      <==> !NoMapping(entry, Reclaim) && !NoMapping(entry, Placement) && !NoMapping(entry, Runtime)
  {
    forall f ensures NoMapping(entry, f) <==> At(entry, f).Truthy() && !At(entry, f).Dict? {
      TruthyMeaning(FieldValue(entry, f));
    }
    hide NoMapping, At;
  }

  lemma PairsPrintMeaning(c: Codec, entry: Entry, order: seq<string>)
    requires Orders(order, entry)
    ensures PairsPrint(c, Section(entry, Runtime)) <==>
      !exists key <- order :: Held(entry, Runtime, key).Str? && c.yaml(Held(entry, Runtime, key).s) == None
  {
    var runtime := Section(entry, Runtime);
    assert forall key :: key in order <==> key in runtime.Keys && key != "extra_args";
    assert forall key :: key in runtime ==> Held(entry, Runtime, key) == runtime[key];
    hide Orders;
  }

  lemma FlagIsPrinted(c: Codec, entry: Entry, order: seq<string>, flag: Flag)
    requires Orders(order, entry) && Printed(c, entry, order).Some? && flag in FLAGS
    ensures Printable(c, entry)
    ensures var line, words := Printed(c, entry, order).value, FlagWords(c, entry, order, flag);
      (flag in line <==> words.Some?) && (flag in line ==> line[flag] == words.value)
  {
    hide FlagWords, Orders, Printable;
  }

  lemma PrintedNames(c: Codec, entry: Entry, order: seq<string>)
    requires Orders(order, entry) && Printed(c, entry, order).Some?
    ensures NamesPrinted(c, entry, Printed(c, entry, order).value)
  {
    FlagIsPrinted(c, entry, order, ToField(Engine));
    forall f | f == Model || f == Host || f == ServedName || f == Protocol
      ensures PrintsOne(Printed(c, entry, order).value, ToField(f), !Falsy(FieldValue(entry, f)),
                        TextOfValue(c, FieldValue(entry, f)))
    {
      FlagIsPrinted(c, entry, order, ToField(f));
      TruthyMeaning(FieldValue(entry, f));
      hide Printed, Printable, Orders;
    }
    hide Printed, Printable, Orders;
  }

  lemma PrintedSections(c: Codec, entry: Entry, order: seq<string>)
    requires Orders(order, entry) && Printed(c, entry, order).Some?
    ensures SectionsPrinted(c, entry, Printed(c, entry, order).value)
  {
    FlagIsPrinted(c, entry, order, ToField(Reclaim));
    FlagIsPrinted(c, entry, order, MinVram);
    FlagIsPrinted(c, entry, order, Gpu);
    TruthyMeaning(Held(entry, Reclaim, "policy"));
    TruthyMeaning(Held(entry, Placement, "gpu_indices"));
    hide Printed, Orders, PairsPrint;
  }

  lemma PrintedRuntime(c: Codec, entry: Entry, order: seq<string>)
    requires Orders(order, entry) && Printed(c, entry, order).Some?
    ensures RuntimePrinted(c, entry, order, Printed(c, entry, order).value)
  {
    FlagIsPrinted(c, entry, order, ExtraArgs);
    FlagIsPrinted(c, entry, order, ToField(Runtime));
    NeverPrinted(c, entry, order);
    var extra := Held(entry, Runtime, "extra_args");
    TruthyMeaning(extra);
    hide Printed, PairsPrint, Falsy;
    assert extra == Get(Section(entry, Runtime), "extra_args");
    if extra.List? {
      assert forall v <- extra.items :: v.Str?;
      assert Words(extra.items) == Map(v => TextOfValue(c, v), extra.items);
    }
    assert forall i :: 0 <= i < |order| ==> order[i] in order && order[i] in Section(entry, Runtime);
    assert KvWords(c, Section(entry, Runtime), order) == Map(key => PairText(c, entry, key), order);
  }

  // ---------------------------------------------------------------------
  // Reading
  // ---------------------------------------------------------------------

  /** The first word of an option, `""` when it is not given. */
  ghost function FirstWord(line: CommandLine, flag: Flag): string {
    if flag in line && line[flag] != [] then line[flag][0] else ""
  }

  /** `n` is what reading the option's word gives, if it is given. */
  ghost predicate ReadAs<T>(line: CommandLine, flag: Flag, read: string -> Option<T>, n: Option<T>) {
    if flag in line then n.Some? && read(FirstWord(line, flag)) == n else n == None
  }

  /** The word is one of the three, or the option is not given. */
  ghost predicate OneOf(line: CommandLine, flag: Flag, a: string, b: string, d: string) {
    flag in line ==> FirstWord(line, flag) == a || FirstWord(line, flag) == b || FirstWord(line, flag) == d
  }

  lemma {:induction false} IntsReadExactly(c: Codec, words: seq<string>, ns: seq<int>)
    ensures ReadInts(c, words) == Some(ns) <==>
      |ns| == |words| && forall i :: 0 <= i < |words| ==> c.readInt(words[i]) == Some(ns[i])
  {
    if words != [] && ns != [] {
      IntsReadExactly(c, words[1..], ns[1..]);
      assert ns == [ns[0]] + ns[1..];
      assert forall i :: 1 <= i < |words| ==> words[i] == words[1..][i - 1];
      assert forall i :: 1 <= i < |ns| ==> ns[i] == ns[1..][i - 1];
    }
  }

  /** Every word is an argument, and those with choices are among them. */
  ghost predicate WordsFit(c: Codec, line: CommandLine) {
    && (forall flag <- line :: forall word <- line[flag] :: c.argument(word))
    && OneOf(line, ToField(Engine), "vllm", "ollama", "ollama")
    && OneOf(line, ToField(Reclaim), "keep-warm", "stop", "scale-to-zero")
    && OneOf(line, ToField(Protocol), "chat", "completions", "completions")
  }

  ghost predicate TextsRead(line: CommandLine, o: Options) {
    && o.engine == FirstWord(line, ToField(Engine)) && o.model == FirstWord(line, ToField(Model))
    && o.host == FirstWord(line, ToField(Host)) && o.servedName == FirstWord(line, ToField(ServedName))
    && o.protocol == FirstWord(line, ToField(Protocol)) && o.reclaim == FirstWord(line, ToField(Reclaim))
    && o.extraArgs == FirstWord(line, ExtraArgs)
    && o.runtime == if ToField(Runtime) in line then line[ToField(Runtime)] else []
  }

  ghost predicate NumbersRead(c: Codec, line: CommandLine, o: Options) {
    && ReadAs(line, MinVram, c.readFloat, o.minVram) && ReadAs(line, GpuMem, c.readFloat, o.gpuMem)
    && ReadAs(line, MaxModelLen, c.readInt, o.maxModelLen) && ReadAs(line, TensorParallel, c.readInt, o.tensorParallel)
    && var gpu := if Gpu in line then line[Gpu] else [];
       |o.gpu| == |gpu| && forall i :: 0 <= i < |gpu| ==> c.readInt(gpu[i]) == Some(o.gpu[i])
  }

  /** Main result: a line parses to options exactly when it says them and none of its words is refused. */
  lemma ParsedExactly(c: Codec, line: CommandLine, o: Options)
    ensures Parsed(c, line) == Some(o) <==> WordsFit(c, line) && TextsRead(line, o) && NumbersRead(c, line, o)
  {
    WordsFitExactly(c, line);
    NumbersExactly(c, line, o);
    hide ReadInts, AllArguments, ChoicesFit, WordsFit, NumbersRead, TypedWord;
  }

  lemma NumbersExactly(c: Codec, line: CommandLine, o: Options)
    ensures NumbersRead(c, line, o) <==>
      && TypedWord(line, MinVram, c.readFloat) == Some(o.minVram)
      && TypedWord(line, GpuMem, c.readFloat) == Some(o.gpuMem)
      && TypedWord(line, MaxModelLen, c.readInt) == Some(o.maxModelLen)
      && TypedWord(line, TensorParallel, c.readInt) == Some(o.tensorParallel)
      && (if Gpu in line then ReadInts(c, line[Gpu]) else Some([])) == Some(o.gpu)
  {
    TypedExactly(line, MinVram, c.readFloat, o.minVram);
    TypedExactly(line, GpuMem, c.readFloat, o.gpuMem);
    TypedExactly(line, MaxModelLen, c.readInt, o.maxModelLen);
    TypedExactly(line, TensorParallel, c.readInt, o.tensorParallel);
    IntsReadExactly(c, if Gpu in line then line[Gpu] else [], o.gpu);
    hide ReadInts, TypedWord, ReadAs;
  }

  lemma TypedExactly<T(!new)>(line: CommandLine, flag: Flag, read: string -> Option<T>, n: Option<T>)
    ensures TypedWord(line, flag, read) == Some(n) <==> ReadAs(line, flag, read, n)
  {}

  lemma WordsFitExactly(c: Codec, line: CommandLine)
    ensures WordsFit(c, line) <==> AllArguments(c, line) && ChoicesFit(line)
  {
    ChoicesExactly(line);
    hide ChoicesFit, OneOf;
    if WordsFit(c, line) {
      forall flag, i | flag in line.Keys && 0 <= i < |line[flag]| ensures c.argument(line[flag][i]) {
        assert line[flag][i] in line[flag];
      }
    }
  }

  lemma ChoicesExactly(line: CommandLine)
    ensures ChoicesFit(line) <==>
      && OneOf(line, ToField(Engine), "vllm", "ollama", "ollama")
      && OneOf(line, ToField(Reclaim), "keep-warm", "stop", "scale-to-zero")
      && OneOf(line, ToField(Protocol), "chat", "completions", "completions")
  {}

  // ---------------------------------------------------------------------
  // Building
  // ---------------------------------------------------------------------

  /** The field holds this text when there is any, and is left out when there is none. */
  ghost predicate HoldsText(entry: Entry, f: Field, text: string) {
    (f in entry <==> text != "") && (text != "" ==> entry[f] == Str(text))
  }

  /** The field holds a mapping with exactly these keys, and is left out when there are none. */
  ghost predicate HoldsKeys(entry: Entry, f: Field, keys: set<string>) {
    (f in entry <==> keys != {}) && (f in entry ==> entry[f].Dict? && entry[f].entries.Keys == keys)
  }

  /** Main result: the entry options build, apart from its runtime. */
  lemma BuiltExactly(c: Codec, o: Options)
    requires Built(c, o).Some?
    ensures var e := Built(c, o).value;
      && Engine in e && e[Engine] == Str(if o.engine == "" then "vllm" else o.engine)
      && HoldsText(e, Model, o.model) && HoldsText(e, Host, o.host) && HoldsText(e, ServedName, o.servedName)
      && HoldsText(e, Protocol, o.protocol)
      && (Reclaim in e <==> o.reclaim != "")
      && (Reclaim in e ==> e[Reclaim] == Dict(map["policy" := Str(o.reclaim)]))
      && HoldsKeys(e, Placement, (if o.minVram.Some? then {"min_vram_gib"} else {})
                                 + (if o.gpu != [] then {"gpu_indices"} else {}))
      && (o.minVram.Some? ==> e[Placement].entries["min_vram_gib"] == Num(o.minVram.value))
      && (o.gpu != [] ==>
            var gpus := e[Placement].entries["gpu_indices"];
            gpus.List? && |gpus.items| == |o.gpu|
            && forall i :: 0 <= i < |o.gpu| ==> gpus.items[i] == Num(o.gpu[i] as real))
      && forall name :: Other(name) !in e
  {
    hide BuiltRuntime;
    forall f ensures f in Built(c, o).value <==> f in FIELDS && FieldOf(c, o, f).Some?
      ensures f in Built(c, o).value ==> Built(c, o).value[f] == FieldOf(c, o, f).value
    {
      BuiltAt(c, o, f);
    }
    hide Built;
    var p := BuiltPlacement(o);
    assert p.Keys == (if o.minVram.Some? then {"min_vram_gib"} else {}) + (if o.gpu != [] then {"gpu_indices"} else {});
    assert p == map[] <==> p.Keys == {};
  }

  /** The item is this key, an equals sign and this text, white space around the key aside. */
  ghost predicate Pairs(c: Codec, item: string, key: string, text: string) {
    exists left :: item == left + "=" + text && '=' !in left && Trimmed(c.isSpace, left, key)
  }

  lemma SplitAtEquals(item: string, left: string, text: string)
    requires item == left + "=" + text && '=' !in left
    ensures FirstIndex(IsEquals, item) == |left| && item[..|left|] == left && item[|left| + 1..] == text
  {
    assert item[|left|] == '=' && forall i :: 0 <= i < |left| ==> item[i] == left[i] && left[i] in left;
  }

  lemma PairsMeaning(c: Codec, item: string, key: string, text: string)
    ensures Pairs(c, item, key, text) <==>
      var at := FirstIndex(IsEquals, item);
      at < |item| && KvKey(c, item) == key && item[at + 1..] == text
  {
    var at := FirstIndex(IsEquals, item);
    if at < |item| {
      StripMeaning(c.isSpace, item[..at], key);
    }
    PairsSplit(c, item, key, text);
    hide Strip, Trimmed, FirstIndex, Pairs;
  }

  lemma PairsSplit(c: Codec, item: string, key: string, text: string)
    ensures var at := FirstIndex(IsEquals, item);
      Pairs(c, item, key, text) <==>
      at < |item| && Trimmed(c.isSpace, item[..at], key) && item[at + 1..] == text
  {
    hide Trimmed;
    var at := FirstIndex(IsEquals, item);
    if at < |item| {
      CutAtEquals(item, at);
    }
    forall left | item == left + "=" + text && '=' !in left
      ensures at == |left| && item[..|left|] == left && item[|left| + 1..] == text
    {
      SplitAtEquals(item, left, text);
    }
    hide FirstIndex;
  }

  lemma CutAtEquals(item: string, at: nat)
    requires at < |item| && item[at] == '=' && forall k :: 0 <= k < at ==> item[k] != '='
    ensures item == item[..at] + "=" + item[at + 1..] && '=' !in item[..at]
  {}

  /** The item sets the key to this value. */
  ghost predicate SetsTo(c: Codec, item: string, key: string, v: Value) {
    exists text :: Pairs(c, item, key, text) && c.yaml(text) == Some(v)
  }

  lemma SetsToMeaning(c: Codec, item: string, key: string, v: Value)
    ensures SetsTo(c, item, key, v) <==> !Malformed(c, item) && KvKey(c, item) == key && KvRead(c, item).value == v
  {
    var at := FirstIndex(IsEquals, item);
    forall text ensures Pairs(c, item, key, text) <==> at < |item| && KvKey(c, item) == key && item[at + 1..] == text {
      PairsMeaning(c, item, key, text);
    }
    hide Pairs, KvKey, FirstIndex;
  }

  /** The last item that sets the key sets it to this value. */
  ghost predicate SetsLast(c: Codec, items: seq<string>, key: string, v: Value) {
    exists i :: 0 <= i < |items| && SetsTo(c, items[i], key, v)
      && forall j, other :: i < j < |items| ==> !SetsTo(c, items[j], key, other)
  }

  lemma {:induction false} PairsExactly(c: Codec, items: seq<string>, key: string, v: Value)
    requires ParseKv(c, items).Some?
    ensures var d := ParseKv(c, items).value; (key in d && d[key] == v) <==> SetsLast(c, items, key, v)
  {
    if items != [] {
      var init, last := Init(items), Last(items);
      PairsExactly(c, init, key, v);
      forall other
        ensures SetsTo(c, last, key, other) <==> KvKey(c, last) == key && KvRead(c, last) == Some(other)
      {
        SetsToMeaning(c, last, key, other);
      }
      hide SetsTo, SetsLast, KvKey, KvRead;
      LastDecides(c, init, last, key, v);
      assert init + [last] == items;
    }
  }

  lemma LastDecides(c: Codec, init: seq<string>, last: string, key: string, v: Value)
    ensures SetsLast(c, init + [last], key, v) <==>
      SetsTo(c, last, key, v) || ((forall other :: !SetsTo(c, last, key, other)) && SetsLast(c, init, key, v))
  {
    hide SetsTo;
    var items := init + [last];
    assert items[|init|] == last && forall i :: 0 <= i < |init| ==> items[i] == init[i];
    if SetsLast(c, items, key, v) && !SetsTo(c, last, key, v) {
      var i :| 0 <= i < |items| && SetsTo(c, items[i], key, v)
        && forall j, other :: i < j < |items| ==> !SetsTo(c, items[j], key, other);
      assert SetsTo(c, init[i], key, v);
      forall j, other | i < j < |init| ensures !SetsTo(c, init[j], key, other) {
        assert !SetsTo(c, items[j], key, other);
      }
    }
  }

  /** What the runtime options set under a key: those with an option of their own before the pairs. */
  ghost predicate RuntimeSets(c: Codec, o: Options, key: string, v: Value) {
    if key == "extra_args" && o.extraArgs != "" then
      v.List? && c.split(o.extraArgs) == Some(Map((w: Value) => if w.Str? then w.s else "", v.items))
      && forall w <- v.items :: w.Str?
    else if key == "max_model_len" && o.maxModelLen.Some? then v == Num(o.maxModelLen.value as real)
    else if key == "gpu_memory_utilization" && o.gpuMem.Some? then v == Num(o.gpuMem.value)
    else if key == "tensor_parallel_size" && o.tensorParallel.Some? then v == Num(o.tensorParallel.value as real)
    else SetsLast(c, o.runtime, key, v)
  }

  lemma ConveniencesExactly(o: Options, pairs: Dictionary, key: string, v: Value)
    ensures var d := WithConveniences(o, pairs);
      (key in d && d[key] == v) <==>
        if key == "max_model_len" && o.maxModelLen.Some? then v == Num(o.maxModelLen.value as real)
        else if key == "gpu_memory_utilization" && o.gpuMem.Some? then v == Num(o.gpuMem.value)
        else if key == "tensor_parallel_size" && o.tensorParallel.Some? then v == Num(o.tensorParallel.value as real)
        else key in pairs && pairs[key] == v
  {}

  lemma RuntimeMeaning(c: Codec, o: Options, key: string, v: Value)
    requires BuiltRuntime(c, o).Some?
    ensures var d := BuiltRuntime(c, o).value; (key in d && d[key] == v) <==> RuntimeSets(c, o, key, v)
  {
    PairsExactly(c, o.runtime, key, v);
    ConveniencesExactly(o, ParseKv(c, o.runtime).value, key, v);
    hide SetsLast, ParseKv, WithConveniences;
    if key == "extra_args" && o.extraArgs != "" {
      SameWords(c.split(o.extraArgs).value, v);
    }
  }

  /** Main result: the runtime the options build, key by key. */
  lemma RuntimeExactly(c: Codec, o: Options, key: string, v: Value)
    requires Built(c, o).Some?
    ensures var e := Built(c, o).value;
      (Runtime in e && e[Runtime].Dict? && key in e[Runtime].entries && e[Runtime].entries[key] == v)
      <==> RuntimeSets(c, o, key, v)
    ensures var e := Built(c, o).value; Runtime in e ==> e[Runtime].Dict? && e[Runtime].entries != map[]
  {
    BuiltAt(c, o, Runtime);
    assert BuiltRuntime(c, o).Some?;
    hide Built, RuntimeSets, BuiltRuntime;
    RuntimeMeaning(c, o, key, v);
  }

  lemma SameWords(words: seq<string>, v: Value)
    ensures v == List(AsValues(words)) <==>
      v.List? && words == Map((w: Value) => if w.Str? then w.s else "", v.items) && forall w <- v.items :: w.Str?
  {
    if v.List? && words == Map((w: Value) => if w.Str? then w.s else "", v.items) && forall w <- v.items :: w.Str? {
      forall i | 0 <= i < |words| ensures AsValues(words)[i] == v.items[i] {
        assert v.items[i] in v.items;
      }
    }
  }

  /** Nothing is built exactly when an item sets nothing YAML can read, or the extra arguments do not split. */
  lemma BuildFailsExactly(c: Codec, o: Options)
    ensures Built(c, o) == None <==>
      || (o.extraArgs != "" && c.split(o.extraArgs) == None)
      || exists item <- o.runtime :: forall key, v :: !SetsTo(c, item, key, v)
  {
    ParseKvFailsExactly(c, o.runtime);
    forall item ensures Malformed(c, item) <==> forall key, v :: !SetsTo(c, item, key, v) {
      SetsNothing(c, item);
    }
    hide Malformed, SetsTo, ParseKv, BuiltOver, WithConveniences;
    assert (exists i :: 0 <= i < |o.runtime| && Malformed(c, o.runtime[i]))
      <==> exists item <- o.runtime :: Malformed(c, item);
  }

  lemma SetsNothing(c: Codec, item: string)
    ensures Malformed(c, item) <==> forall key, v :: !SetsTo(c, item, key, v)
  {
    forall key, v ensures SetsTo(c, item, key, v) <==>
      !Malformed(c, item) && KvKey(c, item) == key && KvRead(c, item).value == v
    {
      SetsToMeaning(c, item, key, v);
    }
    hide SetsTo, Malformed;
    assert !Malformed(c, item) ==> SetsTo(c, item, KvKey(c, item), KvRead(c, item).value);
  }

  // ---------------------------------------------------------------------
  // The guard
  // ---------------------------------------------------------------------

  /**
   Main result: what an add decides. A usage error when the words are refused, no name can
   be had, or nothing can be built; without a name it is added under the first free number;
   under a given name it is added when the name is free or force is given, unchanged when
   the stored entry is the same, and else refused, naming the keys that differ.
   */
  lemma AttemptExactly(c: Codec, endpoints: map<string, Entry>, name: string, line: CommandLine, force: bool)
    ensures var o, done := Parsed(c, line), Attempted(c, endpoints, name, line, force);
      if || o == None || (name != "" && !c.argument(name)) || (name == "" && o.value.model == "")
         || Built(c, o.value) == None
      then done == None
      else
        var entry := Built(c, o.value).value;
        done.Some? && done.value.entry == entry &&
        var target, verdict := done.value.target, done.value.verdict;
        if name == "" then verdict == Added && FirstFree(endpoints, c.slug(o.value.model), target)
        else
          && target == name
          && if name !in endpoints || force then verdict == Added
             else if endpoints[name] == entry then verdict == Unchanged
             else verdict.Refused? && forall f ::
                    f in verdict.differing <==> FieldValue(endpoints[name], f) != FieldValue(entry, f)
  {
    hide Parsed, Built, Indexed, FreeFrom;
    var o := Parsed(c, line);
    if o.Some? && o.value.model != "" {
      DerivedNameExactly(endpoints.Keys, c.slug(o.value.model));
    }
  }

  /** The base, a dash and the least number from 1 on that no endpoint has. */
  ghost predicate FirstFree(endpoints: map<string, Entry>, base: string, target: string) {
    exists i: nat :: i >= 1 && target == base + "-" + Decimal(i) && target !in endpoints
      && forall k: nat :: 1 <= k < i ==> base + "-" + Decimal(k) in endpoints
  }
}

/**
 The command a TUI action logs, against the command-line editor that would run it: an
 endpoint entry printed as `catalog endpoint add` options, and rebuilt from them.
 A command line is kept as its options, each with its words; quoting the words for the
 shell and cutting an argument vector into options are not part of this model.
 */
module EndpointCommand {
  import opened Sequences
  import opened Strings
  import opened Values
  import opened CatalogNames

  /**
   `str`, JSON, YAML, shell words and number parsing, as the libraries do them; a reader
   that raises returns None. `argument` says whether the parser takes a word for an
   argument: a word that leads with a dash may be taken for an option instead.
   */
  datatype Codec = Codec(
    show: Value -> string,
    json: Value -> string,
    yaml: string -> Option<Value>,
    join: seq<string> -> string,
    split: string -> Option<seq<string>>,
    readFloat: string -> Option<real>,
    readInt: string -> Option<int>,
    isSpace: char -> bool,
    slug: string -> string,
    argument: string -> bool)

  /** An endpoint entry's keys: those an option can express, and any other. */
  datatype Field = Engine | Model | Host | ServedName | Reclaim | Protocol | Placement | Runtime | Other(name: string)

  type Entry = map<Field, Value>

  /** The options of `catalog endpoint add`; an entry is never printed with the last three. */
  datatype Flag = ToField(field: Field) | MinVram | Gpu | ExtraArgs | MaxModelLen | GpuMem | TensorParallel

  type CommandLine = map<Flag, seq<string>>

  const ENGINES := {"vllm", "ollama"}
  const POLICIES := {"keep-warm", "stop", "scale-to-zero"}
  const PROTOCOLS := {"chat", "completions"}

  /** `entry.get(field)`. */
  function At(entry: Entry, field: Field): Value {
    if field in entry then entry[field] else Null
  }

  // ---------------------------------------------------------------------
  // Printing an entry
  // ---------------------------------------------------------------------

  function Shown(c: Codec, v: Value): string {
    if v.Str? then v.s else c.show(v)
  }

  /** A KEY=VALUE value that reads back to `v`. */
  function KvValue(c: Codec, v: Value): string {
    if v.Str? && c.yaml(v.s) == Some(v) then v.s else c.json(v)
  }

  predicate AllStrings(items: seq<Value>) {
    forall i :: 0 <= i < |items| ==> items[i].Str?
  }

  function Words(items: seq<Value>): seq<string>
    requires AllStrings(items)
  {
    seq(|items|, i requires 0 <= i < |items| => items[i].s)
  }

  function KvWords(c: Codec, runtime: Dictionary, order: seq<string>): seq<string>
    requires forall k :: k in order ==> k in runtime
  {
    seq(|order|, i requires 0 <= i < |order| => order[i] + "=" + KvValue(c, runtime[order[i]]))
  }

  /** `order` is the order the runtime mapping has its keys in, extra_args aside. */
  ghost predicate Orders(order: seq<string>, entry: Entry) {
    Distinct(order) && forall k :: k in order <==> k in Section(entry, Runtime) && k != "extra_args"
  }

  function ShownAll(c: Codec, items: seq<Value>): seq<string> {
    Map(v => Shown(c, v), items)
  }

  /** The mapping an entry holds under a field, empty when it holds none. */
  function Section(entry: Entry, field: Field): Dictionary {
    if At(entry, field).Dict? then At(entry, field).entries else map[]
  }

  /** Printing a runtime value reads it as YAML if it is text, which raises if it is not YAML. */
  predicate PairsPrint(c: Codec, runtime: Dictionary) {
    forall k :: k in runtime.Keys && k != "extra_args" && runtime[k].Str? ==> c.yaml(runtime[k].s).Some?
  }

  /** Else printing raises: on a section that is no mapping, a list that cannot be joined, or text that is no YAML. */
  predicate Printable(c: Codec, entry: Entry) {
    (forall f :: f in {Reclaim, Placement, Runtime} ==> !At(entry, f).Truthy() || At(entry, f).Dict?)
    && (var gpus := Get(Section(entry, Placement), "gpu_indices"); gpus.Truthy() ==> gpus.List?)
    && (var extra := Get(Section(entry, Runtime), "extra_args"); extra.List? ==> AllStrings(extra.items))
    && PairsPrint(c, Section(entry, Runtime))
  }

  function When(cond: bool, words: seq<string>): Option<seq<string>> {
    if cond then Some(words) else None
  }

  function ExtraText(c: Codec, extra: Value): string
    requires extra.List? ==> AllStrings(extra.items)
  {
    if extra.List? then c.join(Words(extra.items)) else Shown(c, extra)
  }

  /** The words an option is printed with, if it is printed. */
  function FlagWords(c: Codec, entry: Entry, order: seq<string>, flag: Flag): Option<seq<string>>
    requires Printable(c, entry) && Orders(order, entry)
  {
    match flag
    case ToField(Engine) => When(Engine in entry && entry[Engine] != Str("vllm"), [Shown(c, At(entry, Engine))])
    case ToField(Reclaim) =>
      var policy := Get(Section(entry, Reclaim), "policy");
      When(policy.Truthy(), [Shown(c, policy)])
    case ToField(Runtime) => When(order != [], KvWords(c, Section(entry, Runtime), order))
    case ToField(Placement) => None
    case ToField(Other(_)) => None
    case ToField(f) => When(At(entry, f).Truthy(), [Shown(c, At(entry, f))])
    case MinVram =>
      var vram := Get(Section(entry, Placement), "min_vram_gib");
      When(vram != Null, [Shown(c, vram)])
    case Gpu =>
      var gpus := Get(Section(entry, Placement), "gpu_indices");
      When(gpus.Truthy(), if gpus.List? then ShownAll(c, gpus.items) else [])
    case ExtraArgs =>
      var extra := Get(Section(entry, Runtime), "extra_args");
      When(extra.Truthy(), [ExtraText(c, extra)])
    case _ => None
  }

  const FLAGS := {ToField(Engine), ToField(Model), ToField(Host), ToField(ServedName), ToField(Protocol),
                  ToField(Reclaim), MinVram, Gpu, ExtraArgs, ToField(Runtime)}

  /** The options `catalog endpoint add` is logged with; None when printing fails. */
  function Printed(c: Codec, entry: Entry, order: seq<string>): Option<CommandLine>
    requires Orders(order, entry)
  {
    if !Printable(c, entry) then None
    else Some(LineOver(c, entry, order, FLAGS))
  }

  function LineOver(c: Codec, entry: Entry, order: seq<string>, flags: set<Flag>): CommandLine
    requires Printable(c, entry) && Orders(order, entry)
  {
    map flag | flag in flags && FlagWords(c, entry, order, flag).Some? :: FlagWords(c, entry, order, flag).value
  }

  function WithWords(line: CommandLine, flag: Flag, words: Option<seq<string>>): CommandLine {
    if words.Some? then line[flag := words.value] else line
  }

  lemma LineGrows(c: Codec, entry: Entry, order: seq<string>, flags: set<Flag>, flag: Flag)
    requires Printable(c, entry) && Orders(order, entry) && flag !in flags
    ensures LineOver(c, entry, order, flags + {flag})
         == WithWords(LineOver(c, entry, order, flags), flag, FlagWords(c, entry, order, flag))
  {
    hide FlagWords, Printable, Orders;
  }

  const NAME_FLAGS := {ToField(Engine), ToField(Model), ToField(Host), ToField(ServedName), ToField(Protocol)}
  const PLACE_FLAGS := NAME_FLAGS + {ToField(Reclaim)} + {MinVram} + {Gpu}

  /** The printer: the options are added one after another. */
  method EndpointAdd(c: Codec, entry: Entry, order: seq<string>) returns (printed: Option<CommandLine>)
    requires Orders(order, entry)
    ensures printed == Printed(c, entry, order)
  {
    hide Printable, Orders, FlagWords, LineOver;
    if !Printable(c, entry) {
      return None;
    }
    var parts := PrintNames(c, entry, order);
    parts := PrintPlacement(c, entry, order, parts);
    parts := PrintRuntime(c, entry, order, parts);
    assert PLACE_FLAGS + {ExtraArgs} + {ToField(Runtime)} == FLAGS;
    printed := Some(parts);
  }

  method PrintNames(c: Codec, entry: Entry, order: seq<string>) returns (parts: CommandLine)
    requires Printable(c, entry) && Orders(order, entry)
    ensures parts == LineOver(c, entry, order, NAME_FLAGS)
  {
    hide Printable, Orders, LineOver;
    LineEmpty(c, entry, order);
    parts := map[];
    if Engine in entry && entry[Engine] != Str("vllm") {
      parts := parts[ToField(Engine) := [Shown(c, entry[Engine])]];
    }
    LineGrows(c, entry, order, {}, ToField(Engine));
    ghost var done := {ToField(Engine)};
    assert {} + {ToField(Engine)} == done;
    var names := [Model, Host, ServedName, Protocol];
    for i := 0 to |names|
      invariant done == {ToField(Engine)} + set j | 0 <= j < i :: ToField(names[j])
      invariant parts == LineOver(c, entry, order, done)
    {
      var key := names[i];
      LineGrows(c, entry, order, done, ToField(key));
      if At(entry, key).Truthy() {
        parts := parts[ToField(key) := [Shown(c, At(entry, key))]];
      }
      done := done + {ToField(key)};
    }
    assert done == NAME_FLAGS by {
      assert names[0] == Model && names[1] == Host && names[2] == ServedName && names[3] == Protocol;
      assert forall flag :: flag in done ==> flag in NAME_FLAGS;
      assert ToField(names[0]) in done && ToField(names[1]) in done && ToField(names[2]) in done
          && ToField(names[3]) in done;
    }
  }

  method PrintPlacement(c: Codec, entry: Entry, order: seq<string>, before: CommandLine) returns (parts: CommandLine)
    requires Printable(c, entry) && Orders(order, entry) && before == LineOver(c, entry, order, NAME_FLAGS)
    ensures parts == LineOver(c, entry, order, PLACE_FLAGS)
  {
    hide Orders, LineOver;
    parts := before;
    var policy := Get(Section(entry, Reclaim), "policy");
    if policy.Truthy() {
      parts := parts[ToField(Reclaim) := [Shown(c, policy)]];
    }
    LineGrows(c, entry, order, NAME_FLAGS, ToField(Reclaim));
    var placement := Section(entry, Placement);
    var vram := Get(placement, "min_vram_gib");
    if vram != Null {
      parts := parts[MinVram := [Shown(c, vram)]];
    }
    LineGrows(c, entry, order, NAME_FLAGS + {ToField(Reclaim)}, MinVram);
    var gpus := Get(placement, "gpu_indices");
    if gpus.Truthy() {
      parts := parts[Gpu := ShownAll(c, gpus.items)];
    }
    LineGrows(c, entry, order, NAME_FLAGS + {ToField(Reclaim)} + {MinVram}, Gpu);
  }

  method PrintRuntime(c: Codec, entry: Entry, order: seq<string>, before: CommandLine) returns (parts: CommandLine)
    requires Printable(c, entry) && Orders(order, entry) && before == LineOver(c, entry, order, PLACE_FLAGS)
    ensures parts == LineOver(c, entry, order, PLACE_FLAGS + {ExtraArgs} + {ToField(Runtime)})
  {
    hide LineOver;
    parts := before;
    var runtime := Section(entry, Runtime);
    var extra := Get(runtime, "extra_args");
    if extra.Truthy() {
      parts := parts[ExtraArgs := [if extra.List? then c.join(Words(extra.items)) else Shown(c, extra)]];
    }
    LineGrows(c, entry, order, PLACE_FLAGS, ExtraArgs);
    if order != [] {
      var pairs: seq<string> := [];
      for i := 0 to |order|
        invariant |pairs| == i && forall j :: 0 <= j < i ==> pairs[j] == KvWords(c, runtime, order)[j]
      {
        pairs := pairs + [order[i] + "=" + KvValue(c, runtime[order[i]])];
      }
      assert pairs == KvWords(c, runtime, order);
      parts := parts[ToField(Runtime) := pairs];
    }
    LineGrows(c, entry, order, PLACE_FLAGS + {ExtraArgs}, ToField(Runtime));
  }

  lemma LineEmpty(c: Codec, entry: Entry, order: seq<string>)
    requires Printable(c, entry) && Orders(order, entry)
    ensures LineOver(c, entry, order, {}) == map[]
  {}

  // ---------------------------------------------------------------------
  // Rebuilding it
  // ---------------------------------------------------------------------

  /** The parsed options. */
  datatype Options = Options(
    engine: string, model: string, host: string, servedName: string, protocol: string, reclaim: string,
    minVram: Option<real>, gpu: seq<int>, maxModelLen: Option<int>, gpuMem: Option<real>, tensorParallel: Option<int>,
    extraArgs: string, runtime: seq<string>)

  function Word(line: CommandLine, option: Flag): string {
    if option in line && line[option] != [] then line[option][0] else ""
  }

  function ReadInts(c: Codec, words: seq<string>): Option<seq<int>> {
    if words == [] then Some([]) else
      var head, tail := c.readInt(words[0]), ReadInts(c, words[1..]);
      if head.None? || tail.None? then None else Some([head.value] + tail.value)
  }

  predicate Among(choices: set<string>, line: CommandLine, option: Flag) {
    option in line ==> Word(line, option) in choices
  }

  /** An option that is read as a number: absent, unreadable, or read. */
  function TypedWord<T>(line: CommandLine, option: Flag, read: string -> Option<T>): Option<Option<T>> {
    if option !in line then Some(None)
    else if read(Word(line, option)).None? then None
    else Some(read(Word(line, option)))
  }

  predicate ChoicesFit(line: CommandLine) {
    Among(ENGINES, line, ToField(Engine)) && Among(POLICIES, line, ToField(Reclaim))
        && Among(PROTOCOLS, line, ToField(Protocol))
  }

  predicate AllArguments(c: Codec, line: CommandLine) {
    forall flag :: flag in line.Keys ==> forall i :: 0 <= i < |line[flag]| ==> c.argument(line[flag][i])
  }

  /** None is a usage error: a word that is no argument, outside an option's choices, or not of its type. */
  function Parsed(c: Codec, line: CommandLine): Option<Options> {
    var vram, memory := TypedWord(line, MinVram, c.readFloat), TypedWord(line, GpuMem, c.readFloat);
    var length, parallel := TypedWord(line, MaxModelLen, c.readInt), TypedWord(line, TensorParallel, c.readInt);
    var gpu := if Gpu in line then ReadInts(c, line[Gpu]) else Some([]);
    if !AllArguments(c, line) || !ChoicesFit(line)
       || vram.None? || memory.None? || length.None? || parallel.None? || gpu.None?
    then None else
      Some(Options(Word(line, ToField(Engine)), Word(line, ToField(Model)), Word(line, ToField(Host)),
                   Word(line, ToField(ServedName)), Word(line, ToField(Protocol)), Word(line, ToField(Reclaim)),
                   vram.value, gpu.value, length.value, memory.value, parallel.value, Word(line, ExtraArgs),
                   if ToField(Runtime) in line then line[ToField(Runtime)] else []))
  }

  predicate IsEquals(c: char) {
    c == '='
  }

  function KvKey(c: Codec, item: string): string {
    Strip(c.isSpace, item[..FirstIndex(IsEquals, item)])
  }

  function KvRead(c: Codec, item: string): Option<Value>
    requires FirstIndex(IsEquals, item) < |item|
  {
    c.yaml(item[FirstIndex(IsEquals, item) + 1..])
  }

  /** An item without an equals sign, or whose value is no YAML. */
  predicate Malformed(c: Codec, item: string) {
    FirstIndex(IsEquals, item) == |item| || KvRead(c, item).None?
  }

  /** KEY=VALUE pairs, values typed; None when an item is malformed. */
  function ParseKv(c: Codec, items: seq<string>): Option<Dictionary> {
    if items == [] then Some(map[]) else
      var before := ParseKv(c, Init(items));
      if before.None? || Malformed(c, Last(items)) then None
      else Some(before.value[KvKey(c, Last(items)) := KvRead(c, Last(items)).value])
  }

  lemma {:induction false} ParseKvFailsExactly(c: Codec, items: seq<string>)
    ensures ParseKv(c, items).None? <==> exists i :: 0 <= i < |items| && Malformed(c, items[i])
  {
    if items != [] {
      ParseKvFailsExactly(c, Init(items));
      assert items[|items| - 1] == Last(items);
      assert forall i :: 0 <= i < |items| - 1 ==> items[i] == Init(items)[i];
    }
  }

  function Put(d: Dictionary, key: string, cond: bool, v: Value): Dictionary {
    if cond then d[key := v] else d
  }

  function Numbers(ns: seq<int>): seq<Value> {
    Map(n => Num(n as real), ns)
  }

  function AsValues(words: seq<string>): seq<Value> {
    Map(w => Str(w), words)
  }

  function BuiltPlacement(o: Options): Dictionary {
    var p := Put(map[], "min_vram_gib", o.minVram.Some?, Num(if o.minVram.Some? then o.minVram.value else 0.0));
    Put(p, "gpu_indices", o.gpu != [], List(Numbers(o.gpu)))
  }

  /** The runtime keys that have an option of their own. */
  function WithConveniences(o: Options, pairs: Dictionary): Dictionary {
    var p := Put(pairs, "max_model_len", o.maxModelLen.Some?,
        Num(if o.maxModelLen.Some? then o.maxModelLen.value as real else 0.0));
    var q := Put(p, "gpu_memory_utilization", o.gpuMem.Some?, Num(if o.gpuMem.Some? then o.gpuMem.value else 0.0));
    Put(q, "tensor_parallel_size", o.tensorParallel.Some?,
        Num(if o.tensorParallel.Some? then o.tensorParallel.value as real else 0.0))
  }

  /** None when a pair is malformed, or the extra arguments do not split into words. */
  function BuiltRuntime(c: Codec, o: Options): Option<Dictionary> {
    var kv := ParseKv(c, o.runtime);
    if kv.None? || (o.extraArgs != "" && c.split(o.extraArgs).None?) then None
    else if o.extraArgs == "" then Some(WithConveniences(o, kv.value))
    else Some(WithConveniences(o, kv.value)["extra_args" := List(AsValues(c.split(o.extraArgs).value))])
  }

  function TextValue(text: string): Option<Value> {
    if text == "" then None else Some(Str(text))
  }

  function DictValue(d: Dictionary): Option<Value> {
    if d == map[] then None else Some(Dict(d))
  }

  /** What the options put under one field. */
  function FieldOf(c: Codec, o: Options, field: Field): Option<Value>
    requires BuiltRuntime(c, o).Some?
  {
    match field
    case Engine => Some(Str(if o.engine != "" then o.engine else "vllm"))
    case Model => TextValue(o.model)
    case Host => TextValue(o.host)
    case ServedName => TextValue(o.servedName)
    case Protocol => TextValue(o.protocol)
    case Reclaim => if o.reclaim == "" then None else Some(Dict(map["policy" := Str(o.reclaim)]))
    case Placement => DictValue(BuiltPlacement(o))
    case Runtime => DictValue(BuiltRuntime(c, o).value)
    case Other(_) => None
  }

  const FIELDS := {Engine, Model, Host, ServedName, Protocol, Reclaim, Placement, Runtime}

  function BuiltOver(c: Codec, o: Options, fields: set<Field>): Entry
    requires BuiltRuntime(c, o).Some?
  {
    map f | f in fields && FieldOf(c, o, f).Some? :: FieldOf(c, o, f).value
  }

  /** The entry the options describe. */
  function Built(c: Codec, o: Options): Option<Entry> {
    if BuiltRuntime(c, o).None? then None else Some(BuiltOver(c, o, FIELDS))
  }

  function Extended(entry: Entry, f: Field, v: Option<Value>): Entry {
    if v.Some? then entry[f := v.value] else entry
  }

  lemma BuiltGrows(c: Codec, o: Options, fields: set<Field>, f: Field)
    requires BuiltRuntime(c, o).Some? && f !in fields
    ensures BuiltOver(c, o, fields + {f}) == Extended(BuiltOver(c, o, fields), f, FieldOf(c, o, f))
  {
    hide FieldOf, BuiltRuntime;
  }

  const NAMES := {Engine, Model, Host, ServedName}

  /** The body of the command, up to the guard: the entry is filled step by step. */
  method BuildEntry(c: Codec, o: Options) returns (built: Option<Entry>)
    ensures built == Built(c, o)
  {
    hide BuiltOver, BuiltRuntime, BuiltPlacement;
    var entry := BuildNames(c, o);
    var runtime := BuildRuntime(c, o);
    if runtime.None? {
      return None;
    }
    if runtime.value != map[] {
      entry := entry[Runtime := Dict(runtime.value)];
    }
    BuiltGrows(c, o, NAMES, Runtime);
    if o.reclaim != "" {
      entry := entry[Reclaim := Dict(map["policy" := Str(o.reclaim)])];
    }
    BuiltGrows(c, o, NAMES + {Runtime}, Reclaim);
    entry := BuildServing(c, o, entry);
    built := Some(entry);
  }

  method BuildNames(c: Codec, o: Options) returns (entry: Entry)
    ensures BuiltRuntime(c, o).Some? ==> entry == BuiltOver(c, o, NAMES)
  {
    hide BuiltOver, BuiltRuntime;
    entry := map[Engine := Str(if o.engine != "" then o.engine else "vllm")];
    if o.model != "" {
      entry := entry[Model := Str(o.model)];
    }
    if o.host != "" {
      entry := entry[Host := Str(o.host)];
    }
    if o.servedName != "" {
      entry := entry[ServedName := Str(o.servedName)];
    }
    if BuiltRuntime(c, o).Some? {
      NamesBuilt(c, o);
    }
  }

  method BuildServing(c: Codec, o: Options, before: Entry) returns (entry: Entry)
    requires BuiltRuntime(c, o).Some? && before == BuiltOver(c, o, NAMES + {Runtime} + {Reclaim})
    ensures entry == BuiltOver(c, o, FIELDS)
  {
    hide BuiltOver, BuiltRuntime, BuiltPlacement;
    entry := before;
    if o.protocol != "" {
      entry := entry[Protocol := Str(o.protocol)];
    }
    BuiltGrows(c, o, NAMES + {Runtime} + {Reclaim}, Protocol);
    var placement := BuildPlacement(o);
    if placement != map[] {
      entry := entry[Placement := Dict(placement)];
    }
    BuiltGrows(c, o, NAMES + {Runtime} + {Reclaim} + {Protocol}, Placement);
    assert NAMES + {Runtime} + {Reclaim} + {Protocol} + {Placement} == FIELDS;
  }

  lemma NamesBuilt(c: Codec, o: Options)
    requires BuiltRuntime(c, o).Some?
    ensures var engine := map[Engine := Str(if o.engine != "" then o.engine else "vllm")];
      BuiltOver(c, o, {Engine, Model, Host, ServedName})
      == Extended(Extended(Extended(engine, Model, TextValue(o.model)), Host, TextValue(o.host)),
                  ServedName, TextValue(o.servedName))
  {
    hide BuiltRuntime, BuiltPlacement;
    assert BuiltOver(c, o, {}) == map[];
    BuiltGrows(c, o, {}, Engine);
    assert {} + {Engine} == {Engine};
    BuiltGrows(c, o, {Engine}, Model);
    assert {Engine} + {Model} == {Engine, Model};
    BuiltGrows(c, o, {Engine, Model}, Host);
    assert {Engine, Model} + {Host} == {Engine, Model, Host};
    BuiltGrows(c, o, {Engine, Model, Host}, ServedName);
    assert {Engine, Model, Host} + {ServedName} == {Engine, Model, Host, ServedName};
    hide BuiltOver;
  }

  method BuildPlacement(o: Options) returns (placement: Dictionary)
    ensures placement == BuiltPlacement(o)
  {
    placement := map[];
    if o.minVram.Some? {
      placement := placement["min_vram_gib" := Num(o.minVram.value)];
    }
    if o.gpu != [] {
      placement := placement["gpu_indices" := List(Numbers(o.gpu))];
    }
  }

  method BuildRuntime(c: Codec, o: Options) returns (runtime: Option<Dictionary>)
    ensures runtime == BuiltRuntime(c, o)
  {
    var kv := ReadPairs(c, o.runtime);
    if kv.None? {
      return None;
    }
    var pairs := kv.value;
    if o.maxModelLen.Some? {
      pairs := pairs["max_model_len" := Num(o.maxModelLen.value as real)];
    }
    if o.gpuMem.Some? {
      pairs := pairs["gpu_memory_utilization" := Num(o.gpuMem.value)];
    }
    if o.tensorParallel.Some? {
      pairs := pairs["tensor_parallel_size" := Num(o.tensorParallel.value as real)];
    }
    assert pairs == WithConveniences(o, kv.value);
    hide WithConveniences;
    if o.extraArgs != "" {
      var words := c.split(o.extraArgs);
      if words.None? {
        return None;
      }
      pairs := pairs["extra_args" := List(AsValues(words.value))];
    }
    runtime := Some(pairs);
  }

  method ReadPairs(c: Codec, items: seq<string>) returns (out: Option<Dictionary>)
    ensures out == ParseKv(c, items)
    ensures out.None? <==> exists i :: 0 <= i < |items| && Malformed(c, items[i])
  {
    ParseKvFailsExactly(c, items);
    var pairs: Dictionary := map[];
    for i := 0 to |items|
      invariant ParseKv(c, items[..i]) == Some(pairs)
    {
      assert Init(items[..i + 1]) == items[..i];
      if FirstIndex(IsEquals, items[i]) == |items[i]| {
        PairsFail(c, items, i + 1);
        return None;
      }
      var value := KvRead(c, items[i]);
      if value.None? {
        PairsFail(c, items, i + 1);
        return None;
      }
      pairs := pairs[KvKey(c, items[i]) := value.value];
    }
    assert items[..|items|] == items;
    out := Some(pairs);
  }

  lemma {:induction false} PairsFail(c: Codec, items: seq<string>, i: nat)
    requires i <= |items| && ParseKv(c, items[..i]).None?
    ensures ParseKv(c, items).None?
    decreases |items| - i
  {
    if i < |items| {
      assert Init(items[..i + 1]) == items[..i];
      PairsFail(c, items, i + 1);
    } else {
      assert items[..i] == items;
    }
  }

  // ---------------------------------------------------------------------
  // Which entries survive
  // ---------------------------------------------------------------------

  function Rebuilt(c: Codec, entry: Entry, order: seq<string>): Option<Entry>
    requires Orders(order, entry)
  {
    var line := Printed(c, entry, order);
    if line.None? then None else
      var o := Parsed(c, line.value);
      if o.None? then None else Built(c, o.value)
  }

  /** The entry with the default engine named. */
  function Normal(entry: Entry): Entry {
    if Engine in entry then entry else entry[Engine := Str("vllm")]
  }

  predicate Integral(v: Value) {
    v.Num? && v.n.Floor as real == v.n
  }

  predicate PlainKey(c: Codec, k: string) {
    FirstIndex(IsEquals, k) == |k| && Strip(c.isSpace, k) == k
  }

  predicate PlainText(v: Value) {
    v.Str? && v.s != ""
  }

  predicate PlainReclaim(v: Value) {
    v.Dict? && v.entries.Keys == {"policy"} && v.entries["policy"].Str? && v.entries["policy"].s in POLICIES
  }

  predicate PlainPlacement(v: Value) {
    v.Dict? && v.entries != map[] && v.entries.Keys <= {"min_vram_gib", "gpu_indices"}
    && ("min_vram_gib" in v.entries ==> v.entries["min_vram_gib"].Num?)
    && ("gpu_indices" in v.entries ==>
          v.entries["gpu_indices"].List? && v.entries["gpu_indices"].items != []
          && forall i :: 0 <= i < |v.entries["gpu_indices"].items| ==> Integral(v.entries["gpu_indices"].items[i]))
  }

  predicate PlainRuntime(c: Codec, v: Value) {
    v.Dict? && v.entries != map[]
    && (forall k :: k in v.entries.Keys && k != "extra_args" ==> PlainKey(c, k))
    && ("extra_args" in v.entries ==>
          v.entries["extra_args"].List? && v.entries["extra_args"].items != []
          && AllStrings(v.entries["extra_args"].items))
  }

  /** Everything the entry holds has an option, in a form that option takes. */
  predicate Shaped(c: Codec, entry: Entry) {
    && (forall f :: f in entry.Keys ==> !f.Other?)
    && (Engine in entry ==> entry[Engine].Str? && entry[Engine].s in ENGINES)
    && (forall f :: f in entry.Keys && f in {Model, Host, ServedName, Protocol} ==> PlainText(entry[f]))
    && (Protocol in entry ==> entry[Protocol].s in PROTOCOLS)
    && (Reclaim in entry ==> PlainReclaim(entry[Reclaim]))
    && (Placement in entry ==> PlainPlacement(entry[Placement]))
    && (Runtime in entry ==> PlainRuntime(c, entry[Runtime]))
  }

  /** The runtime values, extra_args aside, are what YAML reads in their printed text. */
  predicate PairsReadBack(c: Codec, runtime: Dictionary) {
    PairsPrint(c, runtime)
    && forall k :: k in runtime.Keys && k != "extra_args" ==> c.yaml(KvValue(c, runtime[k])) == Some(runtime[k])
  }

  /** The extra arguments are what splitting their joined text gives. */
  predicate ExtraReadsBack(c: Codec, extra: Value) {
    extra.List? && AllStrings(extra.items) ==>
      c.join(Words(extra.items)) != "" && c.split(c.join(Words(extra.items))) == Some(Words(extra.items))
  }

  /** A number is what reading its printed text gives. */
  predicate NumbersReadBack(c: Codec, placement: Dictionary) {
    var vram, gpus := Get(placement, "min_vram_gib"), Get(placement, "gpu_indices");
    && (vram.Num? ==> c.readFloat(c.show(vram)) == Some(vram.n))
    && (gpus.List? ==> forall i :: 0 <= i < |gpus.items| ==> IndexReadsBack(c, gpus.items[i]))
  }

  predicate IndexReadsBack(c: Codec, v: Value) {
    v.Num? ==> c.readInt(Shown(c, v)) == Some(v.n.Floor)
  }

  /** Every value of the entry that is printed as text is read from that text. */
  predicate ReadsBack(c: Codec, entry: Entry) {
    && PairsReadBack(c, Section(entry, Runtime))
    && ("extra_args" in Section(entry, Runtime) ==> ExtraReadsBack(c, Section(entry, Runtime)["extra_args"]))
    && NumbersReadBack(c, Section(entry, Placement))
  }

  /** Everything the entry holds has an option that takes its words as arguments and reads them back. */
  ghost predicate Expressible(c: Codec, entry: Entry, order: seq<string>)
    requires Orders(order, entry)
  {
    && Shaped(c, entry) && ReadsBack(c, entry)
    && Printed(c, entry, order).Some? && AllArguments(c, Printed(c, entry, order).value)
  }

  // ---------------------------------------------------------------------
  // An expressible entry survives
  // ---------------------------------------------------------------------

  lemma KvWordReads(c: Codec, runtime: Dictionary, k: string)
    requires k in runtime && PlainKey(c, k)
    ensures var word := k + "=" + KvValue(c, runtime[k]);
      && FirstIndex(IsEquals, word) == |k| && |k| < |word|
      && KvKey(c, word) == k && KvRead(c, word) == c.yaml(KvValue(c, runtime[k]))
  {
    var value := KvValue(c, runtime[k]);
    var word := k + "=" + value;
    assert word[|k|] == '=' && forall i :: 0 <= i < |k| ==> word[i] == k[i];
    assert word[..|k|] == k && word[|k| + 1..] == value;
  }

  /** The mapping's values under some of its keys, as their printed text reads. */
  function ReadPart(c: Codec, d: Dictionary, keys: seq<string>): Dictionary {
    map k | k in keys && k in d && c.yaml(KvValue(c, d[k])).Some? :: c.yaml(KvValue(c, d[k])).value
  }

  ghost predicate AllRead(c: Codec, d: Dictionary, keys: seq<string>)
    requires forall k :: k in keys ==> k in d
  {
    forall k :: k in keys ==> c.yaml(KvValue(c, d[k])).Some?
  }

  lemma ReadPartGrows(c: Codec, d: Dictionary, keys: seq<string>, k: string)
    requires (forall j :: j in keys ==> j in d) && k in d
    ensures AllRead(c, d, keys + [k]) <==> AllRead(c, d, keys) && c.yaml(KvValue(c, d[k])).Some?
    ensures c.yaml(KvValue(c, d[k])).Some? ==>
              ReadPart(c, d, keys + [k]) == ReadPart(c, d, keys)[k := c.yaml(KvValue(c, d[k])).value]
  {
    hide KvValue;
  }

  /** The printed pairs read back, key by key, as what YAML reads in their values, or fail where it raises. */
  lemma {:induction false} KvWordsRead(c: Codec, runtime: Dictionary, order: seq<string>)
    requires forall k :: k in order ==> k in runtime && PlainKey(c, k)
    ensures ParseKv(c, KvWords(c, runtime, order))
         == if AllRead(c, runtime, order) then Some(ReadPart(c, runtime, order)) else None
  {
    if order == [] {
      assert ReadPart(c, runtime, order) == map[];
    } else {
      var k := Last(order);
      assert order == Init(order) + [k];
      KvWordsRead(c, runtime, Init(order));
      KvWordReads(c, runtime, k);
      var words := KvWords(c, runtime, order);
      assert Init(words) == KvWords(c, runtime, Init(order)) && Last(words) == k + "=" + KvValue(c, runtime[k]);
      ReadPartGrows(c, runtime, Init(order), k);
      hide KvValue, PlainKey, ReadPart, KvWords;
    }
  }

  function Floors(items: seq<Value>): seq<int> {
    Map((v: Value) => if v.Num? then v.n.Floor else 0, items)
  }

  lemma {:induction false} IntsRead(c: Codec, items: seq<Value>)
    requires forall i :: 0 <= i < |items| ==> Integral(items[i]) && IndexReadsBack(c, items[i])
    ensures ReadInts(c, ShownAll(c, items)) == Some(Floors(items))
  {
    if items != [] {
      IntsRead(c, items[1..]);
      assert IndexReadsBack(c, items[0]);
      assert ShownAll(c, items)[1..] == ShownAll(c, items[1..]);
      assert Floors(items) == [items[0].n.Floor] + Floors(items[1..]);
    }
  }

  lemma {:induction false} IntsCameBack(c: Codec, items: seq<Value>)
    requires ReadInts(c, ShownAll(c, items)).Some? && Numbers(ReadInts(c, ShownAll(c, items)).value) == items
    ensures forall i :: 0 <= i < |items| ==> IndexReadsBack(c, items[i])
  {
    if items != [] {
      var shown := ShownAll(c, items);
      assert shown[1..] == ShownAll(c, items[1..]);
      var ns := ReadInts(c, shown).value;
      assert ns[1..] == ReadInts(c, shown[1..]).value;
      assert Numbers(ns)[1..] == Numbers(ns[1..]);
      IntsCameBack(c, items[1..]);
      assert items[0] == Num(ns[0] as real);
      assert forall i :: 1 <= i < |items| ==> items[i] == items[1..][i - 1];
    }
  }

  // The printed line, option by option.

  lemma WordPrinted(c: Codec, entry: Entry, order: seq<string>, flag: Flag)
    requires Printable(c, entry) && Orders(order, entry) && flag in FLAGS
    ensures var line := Printed(c, entry, order).value; var words := FlagWords(c, entry, order, flag);
      (flag in line <==> words.Some?) && (words.Some? ==> line[flag] == words.value)
      && Word(line, flag) == if words.Some? && words.value != [] then words.value[0] else ""
  {
    hide FlagWords, Printable, Orders;
    assert Printed(c, entry, order).value == LineOver(c, entry, order, FLAGS);
  }

  function TextOf(v: Value): string {
    if v.Str? then v.s else ""
  }

  lemma TextFieldPrinted(c: Codec, entry: Entry, order: seq<string>, f: Field)
    requires Printable(c, entry) && Orders(order, entry)
    requires f in {Model, Host, ServedName, Protocol} && (f in entry ==> PlainText(entry[f]))
    ensures Word(Printed(c, entry, order).value, ToField(f)) == TextOf(At(entry, f))
    ensures ToField(f) in Printed(c, entry, order).value <==> f in entry
  {
    WordPrinted(c, entry, order, ToField(f));
  }

  lemma EnginePrinted(c: Codec, entry: Entry, order: seq<string>)
    requires Printable(c, entry) && Orders(order, entry) && (Engine in entry ==>
        entry[Engine].Str? && entry[Engine].s != "")
    ensures var line := Printed(c, entry, order).value; var word := Word(line, ToField(Engine));
      (if word != "" then word else "vllm") == (if Engine in entry then entry[Engine].s else "vllm")
      && (ToField(Engine) in line ==> Engine in entry && word == entry[Engine].s)
  {
    WordPrinted(c, entry, order, ToField(Engine));
  }

  lemma PolicyPrinted(c: Codec, entry: Entry, order: seq<string>)
    requires Printable(c, entry) && Orders(order, entry) && (Reclaim in entry ==> PlainReclaim(entry[Reclaim]))
    ensures var line := Printed(c, entry, order).value; var word := Word(line, ToField(Reclaim));
      (ToField(Reclaim) in line <==> Reclaim in entry)
      && (Reclaim in entry ==> word in POLICIES && entry[Reclaim] == Dict(map["policy" := Str(word)]))
  {
    WordPrinted(c, entry, order, ToField(Reclaim));
    if Reclaim in entry {
      var policy := entry[Reclaim].entries["policy"];
      assert policy.s != "";
      assert entry[Reclaim].entries == map["policy" := policy];
    }
  }

  lemma PlacementPrinted(c: Codec, entry: Entry, order: seq<string>)
    requires Printable(c, entry) && Orders(order, entry) && (Placement in entry ==> PlainPlacement(entry[Placement]))
    requires NumbersReadBack(c, Section(entry, Placement))
    ensures var line := Printed(c, entry, order).value; var placement := Section(entry, Placement);
      && (MinVram in line <==> "min_vram_gib" in placement)
      && (MinVram in line ==> placement["min_vram_gib"].Num?
                              && c.readFloat(Word(line, MinVram)) == Some(placement["min_vram_gib"].n))
      && (Gpu in line <==> "gpu_indices" in placement)
      && (Gpu in line ==> ReadInts(c, line[Gpu]).Some? && ReadInts(c, line[Gpu]).value != []
                          && List(Numbers(ReadInts(c, line[Gpu]).value)) == placement["gpu_indices"])
  {
    WordPrinted(c, entry, order, MinVram);
    WordPrinted(c, entry, order, Gpu);
    var placement := Section(entry, Placement);
    if "gpu_indices" in placement {
      var items := placement["gpu_indices"].items;
      IntsRead(c, items);
      NumbersOfFloors(items);
    }
  }

  lemma NumbersOfFloors(items: seq<Value>)
    requires forall i :: 0 <= i < |items| ==> Integral(items[i])
    ensures Numbers(Floors(items)) == items
  {
    forall i | 0 <= i < |items| ensures Numbers(Floors(items))[i] == items[i] {
      assert Integral(items[i]);
    }
  }

  lemma PlacementBuilt(o: Options, placement: Dictionary)
    requires placement.Keys <= {"min_vram_gib", "gpu_indices"}
    requires o.minVram.Some? <==> "min_vram_gib" in placement
    requires o.minVram.Some? ==> placement["min_vram_gib"] == Num(o.minVram.value)
    requires o.gpu != [] <==> "gpu_indices" in placement
    requires o.gpu != [] ==> placement["gpu_indices"] == List(Numbers(o.gpu))
    ensures BuiltPlacement(o) == placement
  {}

  lemma StringsOfWords(items: seq<Value>)
    requires AllStrings(items)
    ensures AsValues(Words(items)) == items
  {}

  lemma ExtraPrinted(c: Codec, entry: Entry, order: seq<string>)
    requires Printable(c, entry) && Orders(order, entry) && (Runtime in entry ==> PlainRuntime(c, entry[Runtime]))
    requires "extra_args" in Section(entry, Runtime) ==> ExtraReadsBack(c, Section(entry, Runtime)["extra_args"])
    ensures var text := Word(Printed(c, entry, order).value, ExtraArgs); var runtime := Section(entry, Runtime);
      (text != "" <==> "extra_args" in runtime)
      && ("extra_args" in runtime ==>
            c.split(text).Some? && List(AsValues(c.split(text).value)) == runtime["extra_args"])
  {
    WordPrinted(c, entry, order, ExtraArgs);
    hide PlainKey;
    var extra := Get(Section(entry, Runtime), "extra_args");
    if "extra_args" in Section(entry, Runtime) {
      StringsOfWords(extra.items);
      assert Words(extra.items) != [];
    }
  }

  lemma KvPrinted(c: Codec, entry: Entry, order: seq<string>)
    requires Printable(c, entry) && Orders(order, entry) && (Runtime in entry ==> PlainRuntime(c, entry[Runtime]))
    requires PairsReadBack(c, Section(entry, Runtime))
    ensures var line := Printed(c, entry, order).value;
      ParseKv(c, if ToField(Runtime) in line then line[ToField(Runtime)] else [])
      == Some(ReadPart(c, Section(entry, Runtime), order))
  {
    WordPrinted(c, entry, order, ToField(Runtime));
    KvWordsRead(c, Section(entry, Runtime), order);
    hide PlainKey, KvWords, KvValue;
    assert order == [] ==> KvWords(c, Section(entry, Runtime), order) == [];
  }

  lemma PartCovers(c: Codec, d: Dictionary, order: seq<string>)
    requires (forall k :: k in order <==> k in d && k != "extra_args") && PairsReadBack(c, d)
    ensures Put(ReadPart(c, d, order), "extra_args", "extra_args" in d, Get(d, "extra_args")) == d
  {
    hide KvValue;
  }

  predicate NoConveniences(o: Options) {
    o.maxModelLen.None? && o.gpuMem.None? && o.tensorParallel.None?
  }

  lemma ConveniencesAbsent(o: Options, d: Dictionary)
    requires NoConveniences(o)
    ensures WithConveniences(o, d) == d
  {}

  /** The options that are never printed are absent. */
  lemma NeverPrinted(c: Codec, entry: Entry, order: seq<string>)
    requires Printable(c, entry) && Orders(order, entry)
    ensures forall flag :: flag in {GpuMem, MaxModelLen, TensorParallel} ==> flag !in Printed(c, entry, order).value
  {
    hide Printable, Orders, FlagWords;
  }

  /** The options are the line's words, option by option. */
  ghost predicate ReadFrom(c: Codec, line: CommandLine, o: Options) {
    && o.engine == Word(line, ToField(Engine)) && o.model == Word(line, ToField(Model))
    && o.host == Word(line, ToField(Host)) && o.servedName == Word(line, ToField(ServedName))
    && o.protocol == Word(line, ToField(Protocol)) && o.reclaim == Word(line, ToField(Reclaim))
    && o.minVram == (if MinVram in line then c.readFloat(Word(line, MinVram)) else None)
    && NoConveniences(o)
    && (if Gpu in line then ReadInts(c, line[Gpu]) else Some([])) == Some(o.gpu)
    && o.extraArgs == Word(line, ExtraArgs)
    && o.runtime == if ToField(Runtime) in line then line[ToField(Runtime)] else []
  }

  /** The options hold the names and the policy the entry holds. */
  ghost predicate DescribesNames(o: Options, entry: Entry)
    requires Engine in entry ==> entry[Engine].Str?
  {
    && (if o.engine != "" then o.engine else "vllm") == (if Engine in entry then entry[Engine].s else "vllm")
    && o.model == TextOf(At(entry, Model)) && o.host == TextOf(At(entry, Host))
    && o.servedName == TextOf(At(entry, ServedName)) && o.protocol == TextOf(At(entry, Protocol))
    && (o.reclaim != "" <==> Reclaim in entry)
    && (Reclaim in entry ==> entry[Reclaim] == Dict(map["policy" := Str(o.reclaim)]))
  }

  /** The options hold what the entry holds. */
  ghost predicate Describes(c: Codec, o: Options, entry: Entry)
    requires Engine in entry ==> entry[Engine].Str?
  {
    && DescribesNames(o, entry)
    && BuiltPlacement(o) == Section(entry, Placement)
    && BuiltRuntime(c, o) == Some(Section(entry, Runtime))
  }

  lemma NamesDescribed(c: Codec, entry: Entry, order: seq<string>, o: Options)
    requires Orders(order, entry) && Printable(c, entry) && Shaped(c, entry)
    requires ReadFrom(c, Printed(c, entry, order).value, o)
    ensures DescribesNames(o, entry)
  {
    EnginePrinted(c, entry, order);
    TextFieldPrinted(c, entry, order, Model);
    TextFieldPrinted(c, entry, order, Host);
    TextFieldPrinted(c, entry, order, ServedName);
    TextFieldPrinted(c, entry, order, Protocol);
    PolicyPrinted(c, entry, order);
    hide Printed, Printable, PlainRuntime, PlainReclaim, PlainPlacement, ReadInts, Orders, Word;
  }

  /** Parsing the printed line gives options that hold what the entry holds. */
  lemma PrintedParses(c: Codec, entry: Entry, order: seq<string>) returns (o: Options)
    requires Orders(order, entry) && Expressible(c, entry, order)
    ensures Printable(c, entry) && Parsed(c, Printed(c, entry, order).value) == Some(o)
    ensures Describes(c, o, entry)
  {
    o := PrintedIsAccepted(c, entry, order);
    NamesDescribed(c, entry, order, o);
    PlacementDescribed(c, entry, order, o);
    RuntimeDescribed(c, entry, order, o);
    hide Printed, Printable, PlainRuntime, PlainReclaim, PlainPlacement, BuiltPlacement, BuiltRuntime, Orders,
        ReadsBack, Parsed;
    hide ReadFrom, DescribesNames;
  }

  lemma PlacementDescribed(c: Codec, entry: Entry, order: seq<string>, o: Options)
    requires Orders(order, entry) && ReadsBack(c, entry) && Shaped(c, entry) && Printable(c, entry)
    requires ReadFrom(c, Printed(c, entry, order).value, o)
    ensures BuiltPlacement(o) == Section(entry, Placement)
  {
    PlacementPrinted(c, entry, order);
    hide Printed, Printable, PlainRuntime, PlainReclaim, ReadInts, Orders, ReadsBack, Word, Numbers, BuiltPlacement;
    PlacementBuilt(o, Section(entry, Placement));
  }

  lemma RuntimeDescribed(c: Codec, entry: Entry, order: seq<string>, o: Options)
    requires Orders(order, entry) && ReadsBack(c, entry) && Shaped(c, entry) && Printable(c, entry)
    requires ReadFrom(c, Printed(c, entry, order).value, o)
    ensures BuiltRuntime(c, o) == Some(Section(entry, Runtime))
  {
    ExtraPrinted(c, entry, order);
    KvPrinted(c, entry, order);
    PartCovers(c, Section(entry, Runtime), order);
    ConveniencesAbsent(o, ReadPart(c, Section(entry, Runtime), order));
    hide Printed, Printable, PlainRuntime, PlainPlacement, PlainReclaim, ParseKv, ReadPart, Orders, ReadsBack, Word,
        AsValues, WithConveniences;
    hide PairsReadBack, ExtraReadsBack, NumbersReadBack;
  }

  /** The printed line has no usage error. */
  lemma PrintedIsAccepted(c: Codec, entry: Entry, order: seq<string>) returns (o: Options)
    requires Orders(order, entry) && Expressible(c, entry, order)
    ensures Printable(c, entry) && Parsed(c, Printed(c, entry, order).value) == Some(o)
    ensures ReadFrom(c, Printed(c, entry, order).value, o)
  {
    assert Printable(c, entry);
    ChoicesAllowed(c, entry, order);
    NeverPrinted(c, entry, order);
    PlacementPrinted(c, entry, order);
    hide Printed, Printable, ReadInts, Orders, Word, ChoicesFit, AllArguments, Parsed, ReadFrom;
    hide PlainRuntime, PlainReclaim;
    o := LineIsAccepted(c, Printed(c, entry, order).value);
  }

  lemma LineIsAccepted(c: Codec, line: CommandLine) returns (o: Options)
    requires AllArguments(c, line) && ChoicesFit(line)
    requires MinVram in line ==> c.readFloat(Word(line, MinVram)).Some?
    requires Gpu in line ==> ReadInts(c, line[Gpu]).Some?
    requires forall flag :: flag in {GpuMem, MaxModelLen, TensorParallel} ==> flag !in line
    ensures Parsed(c, line) == Some(o) && ReadFrom(c, line, o)
  {
    hide ReadInts, Word, ChoicesFit, AllArguments;
    o := Parsed(c, line).value;
  }

  lemma ChoicesAllowed(c: Codec, entry: Entry, order: seq<string>)
    requires Orders(order, entry) && Printable(c, entry) && Shaped(c, entry)
    ensures var line := Printed(c, entry, order).value;
      ChoicesFit(line)
  {
    EnginePrinted(c, entry, order);
    TextFieldPrinted(c, entry, order, Protocol);
    PolicyPrinted(c, entry, order);
    hide Printed, Printable, PlainRuntime, PlainPlacement, PlainReclaim, Orders, Word;
  }

  lemma ExpressibleSurvives(c: Codec, entry: Entry, order: seq<string>)
    requires Orders(order, entry) && Expressible(c, entry, order)
    ensures Rebuilt(c, entry, order) == Some(Normal(entry))
  {
    var o := PrintedParses(c, entry, order);
    forall f ensures FieldOf(c, o, f) == (if f in Normal(entry) then Some(Normal(entry)[f]) else None) {
      FieldSurvives(c, o, entry, f);
    }
    forall f | f in Normal(entry) ensures f in FIELDS {
      FieldSurvives(c, o, entry, f);
    }
    hide Printed, Parsed, Expressible, Orders, FieldOf, BuiltRuntime, BuiltPlacement, Printable, Normal;
    BuiltIs(c, o, Normal(entry));
  }

  lemma BuiltIs(c: Codec, o: Options, entry: Entry)
    requires BuiltRuntime(c, o).Some?
    requires forall f :: FieldOf(c, o, f) == if f in entry then Some(entry[f]) else None
    requires forall f :: f in entry ==> f in FIELDS
    ensures Built(c, o) == Some(entry)
  {
    hide FieldOf, BuiltRuntime;
    assert forall f :: f in BuiltOver(c, o, FIELDS) <==> f in entry;
    assert BuiltOver(c, o, FIELDS) == entry;
  }

  lemma FieldSurvives(c: Codec, o: Options, entry: Entry, f: Field)
    requires Shaped(c, entry) && Describes(c, o, entry)
    ensures FieldOf(c, o, f) == (if f in Normal(entry) then Some(Normal(entry)[f]) else None)
    ensures f in Normal(entry) ==> f in FIELDS
  {
    hide PlainKey, Integral, AllStrings, BuiltPlacement, BuiltRuntime, PlainReclaim;
  }

  // ---------------------------------------------------------------------
  // And only an expressible one does
  // ---------------------------------------------------------------------

  lemma {:induction false} StripRightTwice(isSpace: char -> bool, s: string)
    ensures StripRight(isSpace, StripRight(isSpace, s)) == StripRight(isSpace, s)
    ensures StripRight(isSpace, s) <= s
  {
    if s != "" && isSpace(Last(s)) {
      StripRightTwice(isSpace, Init(s));
    }
  }

  lemma {:induction false} StripLeftStarts(isSpace: char -> bool, s: string)
    ensures StripLeft(isSpace, s) == "" || !isSpace(StripLeft(isSpace, s)[0])
    ensures forall i :: 0 <= i < |StripLeft(isSpace, s)| ==> StripLeft(isSpace, s)[i] in s
  {
    if s != "" && isSpace(s[0]) {
      StripLeftStarts(isSpace, s[1..]);
    }
  }

  /** Every key the editor reads is one it would read again. */
  lemma KvKeyIsPlain(c: Codec, item: string)
    ensures PlainKey(c, KvKey(c, item))
  {
    var prefix := item[..FirstIndex(IsEquals, item)];
    var left := StripLeft(c.isSpace, prefix);
    var key := StripRight(c.isSpace, left);
    StripLeftStarts(c.isSpace, prefix);
    StripRightTwice(c.isSpace, left);
    assert key != "" ==> key[0] == left[0];
    assert StripLeft(c.isSpace, key) == key;
    forall i | 0 <= i < |key| ensures !IsEquals(key[i]) {
      assert key[i] == left[i];
      assert left[i] in prefix;
    }
  }

  lemma {:induction false} ParsedKeysArePlain(c: Codec, items: seq<string>)
    requires ParseKv(c, items).Some?
    ensures forall k :: k in ParseKv(c, items).value ==> PlainKey(c, k)
  {
    if items != [] {
      ParsedKeysArePlain(c, Init(items));
      KvKeyIsPlain(c, Last(items));
    }
  }

  lemma NumbersAreIntegral(ns: seq<int>)
    ensures forall i :: 0 <= i < |ns| ==> Integral(Numbers(ns)[i])
  {}

  lemma PlacementIsPlain(o: Options)
    ensures BuiltPlacement(o) != map[] ==> PlainPlacement(Dict(BuiltPlacement(o)))
  {
    NumbersAreIntegral(o.gpu);
    hide Integral;
  }

  lemma RuntimeIsPlain(c: Codec, o: Options)
    requires NoConveniences(o) && BuiltRuntime(c, o).Some? && BuiltRuntime(c, o).value != map[]
    requires var extra := Get(BuiltRuntime(c, o).value, "extra_args");
      "extra_args" in BuiltRuntime(c, o).value ==> extra.List? && extra.items != [] && AllStrings(extra.items)
    ensures PlainRuntime(c, Dict(BuiltRuntime(c, o).value))
  {
    ParsedKeysArePlain(c, o.runtime);
    ConveniencesAbsent(o, ParseKv(c, o.runtime).value);
    hide PlainKey, ParseKv, AllStrings, WithConveniences;
  }

  lemma BuiltAt(c: Codec, o: Options, f: Field)
    requires Built(c, o).Some?
    ensures f in Built(c, o).value <==> f in FIELDS && FieldOf(c, o, f).Some?
    ensures f in Built(c, o).value ==> Built(c, o).value[f] == FieldOf(c, o, f).value
  {
    hide FieldOf;
  }

  /** The words an option allows only some of were allowed. */
  predicate Chosen(o: Options) {
    o.engine in ENGINES + {""} && o.reclaim in POLICIES + {""} && o.protocol in PROTOCOLS + {""}
  }

  lemma PrintedHasNoConveniences(c: Codec, entry: Entry, order: seq<string>)
    requires Printable(c, entry) && Orders(order, entry) && Parsed(c, Printed(c, entry, order).value).Some?
    ensures NoConveniences(Parsed(c, Printed(c, entry, order).value).value)
  {
    NeverPrinted(c, entry, order);
    hide Printed, Printable, Orders, ReadInts, ChoicesFit;
  }

  lemma ParsedIsChosen(c: Codec, line: CommandLine)
    requires Parsed(c, line).Some?
    ensures Chosen(Parsed(c, line).value)
  {
    hide ReadInts;
  }

  lemma FieldIsPlain(c: Codec, o: Options, f: Field)
    requires Chosen(o) && Built(c, o).Some? && f in Built(c, o).value
    ensures !f.Other?
    ensures var v := Built(c, o).value[f];
      && (f == Engine ==> v.Str? && v.s in ENGINES)
      && (f in {Model, Host, ServedName, Protocol} ==> PlainText(v))
      && (f == Protocol ==> v.s in PROTOCOLS)
      && (f == Reclaim ==> PlainReclaim(v))
      && (f == Placement ==> v == Dict(BuiltPlacement(o)) && BuiltPlacement(o) != map[])
      && (f == Runtime ==> v == Dict(BuiltRuntime(c, o).value) && BuiltRuntime(c, o).value != map[])
  {
    BuiltAt(c, o, f);
    hide BuiltRuntime, BuiltPlacement, Built, ParseKv;
  }

  /** What the editor builds is expressible, when its extra arguments are a list of words. */
  lemma BuiltIsShaped(c: Codec, o: Options)
    requires Chosen(o) && NoConveniences(o) && Built(c, o).Some?
    requires var runtime := BuiltRuntime(c, o).value; var extra := Get(runtime, "extra_args");
      "extra_args" in runtime ==> extra.List? && extra.items != [] && AllStrings(extra.items)
    ensures Shaped(c, Built(c, o).value)
  {
    PlacementIsPlain(o);
    if BuiltRuntime(c, o).value != map[] {
      RuntimeIsPlain(c, o);
    }
    forall f | f in Built(c, o).value {
      FieldIsPlain(c, o, f);
    }
    hide PlainRuntime, PlainPlacement, PlainReclaim, BuiltPlacement, BuiltRuntime, Built, AllStrings, Chosen;
  }

  /** What the pairs of a printed runtime put back: every value as YAML reads it, and no extra_args. */
  lemma PairsCameBack(c: Codec, entry: Entry, order: seq<string>, o: Options)
    requires Orders(order, entry) && Printable(c, entry) && o.runtime == KvWords(c, Section(entry, Runtime), order)
    requires NoConveniences(o) && BuiltRuntime(c, o) == Some(Section(entry, Runtime))
    ensures "extra_args" !in ParseKv(c, o.runtime).value
    ensures PairsReadBack(c, Section(entry, Runtime))
  {
    ParsedKeysArePlain(c, o.runtime);
    ConveniencesAbsent(o, ParseKv(c, o.runtime).value);
    hide ParseKv, PlainKey, KvWords, KvValue, WithConveniences;
    KvWordsRead(c, Section(entry, Runtime), order);
  }

  lemma RuntimeWords(c: Codec, entry: Entry, order: seq<string>)
    requires Orders(order, entry) && Printable(c, entry) && Parsed(c, Printed(c, entry, order).value).Some?
    ensures Parsed(c, Printed(c, entry, order).value).value.runtime == KvWords(c, Section(entry, Runtime), order)
  {
    WordPrinted(c, entry, order, ToField(Runtime));
    assert |KvWords(c, Section(entry, Runtime), order)| == |order|;
    hide KvWords, Printed, ReadInts, Printable, Word, Among;
  }

  lemma WordsOfValues(words: seq<string>)
    ensures AllStrings(AsValues(words)) && Words(AsValues(words)) == words
  {}

  /** An entry that comes back kept its extra arguments as a list of words. */
  lemma ExtraCameBack(c: Codec, entry: Entry, order: seq<string>, o: Options)
    requires Orders(order, entry) && Printable(c, entry)
    requires Parsed(c, Printed(c, entry, order).value) == Some(o) && NoConveniences(o)
    requires BuiltRuntime(c, o) == Some(Section(entry, Runtime)) && "extra_args" in Section(entry, Runtime)
    ensures var extra := Section(entry, Runtime)["extra_args"];
      extra.List? && extra.items != [] && AllStrings(extra.items) && ExtraReadsBack(c, extra)
  {
    hide Printed, Parsed, ParseKv, Orders, Printable, Word, BuiltRuntime, PairsReadBack, AllStrings, AsValues, Words;
    hide KvWords, NoConveniences;
    RuntimeWords(c, entry, order);
    PairsCameBack(c, entry, order, o);
    ExtraBuilt(c, o);
    WordsOfValues(c.split(o.extraArgs).value);
    ExtraWord(c, entry, order);
    ExtraShown(c, entry, order);
  }

  lemma ExtraShown(c: Codec, entry: Entry, order: seq<string>)
    requires Orders(order, entry) && Printable(c, entry) && "extra_args" in Section(entry, Runtime)
    requires var extra := Section(entry, Runtime)["extra_args"]; extra.List? && AllStrings(extra.items)
    ensures var items := Section(entry, Runtime)["extra_args"].items;
      Word(Printed(c, entry, order).value, ExtraArgs) == if items == [] then "" else c.join(Words(items))
  {
    WordPrinted(c, entry, order, ExtraArgs);
    hide Printed, Printable, Orders, Word, Words, AllStrings;
  }

  lemma ExtraBuilt(c: Codec, o: Options)
    requires NoConveniences(o) && BuiltRuntime(c, o).Some? && "extra_args" in BuiltRuntime(c, o).value
    requires "extra_args" !in ParseKv(c, o.runtime).value
    ensures o.extraArgs != "" && c.split(o.extraArgs).Some?
    ensures BuiltRuntime(c, o).value["extra_args"] == List(AsValues(c.split(o.extraArgs).value))
  {
    ConveniencesAbsent(o, ParseKv(c, o.runtime).value);
    hide ParseKv, WithConveniences;
  }

  lemma ExtraWord(c: Codec, entry: Entry, order: seq<string>)
    requires Orders(order, entry) && Printable(c, entry) && Parsed(c, Printed(c, entry, order).value).Some?
    ensures Parsed(c, Printed(c, entry, order).value).value.extraArgs == Word(Printed(c, entry, order).value, ExtraArgs)
  {
    hide Printed, ReadInts, Printable, Word, ChoicesFit;
  }

  lemma PlacementCameBack(c: Codec, entry: Entry, order: seq<string>, o: Options)
    requires Orders(order, entry) && Printable(c, entry)
    requires Parsed(c, Printed(c, entry, order).value) == Some(o)
    requires BuiltPlacement(o) == Section(entry, Placement)
    ensures NumbersReadBack(c, Section(entry, Placement))
  {
    WordPrinted(c, entry, order, MinVram);
    WordPrinted(c, entry, order, Gpu);
    PlacementWords(c, Printed(c, entry, order).value);
    hide Printed, Parsed, Printable, Orders, Word, ReadInts, Numbers, IndexReadsBack;
    var gpus := Get(Section(entry, Placement), "gpu_indices");
    if gpus.List? {
      IntsCameBack(c, gpus.items);
    }
  }

  lemma PlacementWords(c: Codec, line: CommandLine)
    requires Parsed(c, line).Some?
    ensures var o := Parsed(c, line).value;
      && o.minVram == (if MinVram in line then c.readFloat(Word(line, MinVram)) else None)
      && (if Gpu in line then ReadInts(c, line[Gpu]) else Some([])) == Some(o.gpu)
  {
    hide ReadInts, Word, ChoicesFit;
  }

  lemma BuiltSection(c: Codec, o: Options)
    requires Built(c, o).Some?
    ensures BuiltRuntime(c, o) == Some(Section(Built(c, o).value, Runtime))
  {
    BuiltAt(c, o, Runtime);
    hide BuiltRuntime, Built;
  }

  lemma BuiltPlaced(c: Codec, o: Options)
    requires Built(c, o).Some?
    ensures BuiltPlacement(o) == Section(Built(c, o).value, Placement)
  {
    BuiltAt(c, o, Placement);
    hide BuiltPlacement, BuiltRuntime, Built;
  }

  lemma OnlyExpressibleSurvives(c: Codec, entry: Entry, order: seq<string>)
    requires Orders(order, entry) && Rebuilt(c, entry, order) == Some(Normal(entry))
    ensures Expressible(c, entry, order)
  {
    var line := Printed(c, entry, order).value;
    var o := Parsed(c, line).value;
    ParsedIsChosen(c, line);
    PrintedHasNoConveniences(c, entry, order);
    BuiltSection(c, o);
    BuiltPlaced(c, o);
    hide Printed, Parsed, Built, BuiltRuntime, BuiltPlacement, Chosen, Shaped, Orders, AllStrings, Printable;
    hide NumbersReadBack, PairsReadBack, ExtraReadsBack, NoConveniences;
    assert Section(entry, Runtime) == Section(Normal(entry), Runtime);
    assert Section(entry, Placement) == Section(Normal(entry), Placement);
    RuntimeWords(c, entry, order);
    PairsCameBack(c, entry, order, o);
    PlacementCameBack(c, entry, order, o);
    if "extra_args" in Section(entry, Runtime) {
      ExtraCameBack(c, entry, order, o);
    }
    BuiltIsShaped(c, o);
    NormalShaped(c, entry);
  }

  lemma NormalShaped(c: Codec, entry: Entry)
    ensures Shaped(c, Normal(entry)) ==> Shaped(c, entry)
  {
    hide PlainRuntime, PlainPlacement, PlainReclaim, PlainText;
    assert forall f :: f in entry.Keys ==> f in Normal(entry).Keys && entry[f] == Normal(entry)[f];
  }

  /** Printing and rebuilding gives the entry back exactly when it is expressible. */
  lemma SurvivesExactly(c: Codec, entry: Entry, order: seq<string>)
    requires Orders(order, entry)
    ensures Rebuilt(c, entry, order) == Some(Normal(entry)) <==> Expressible(c, entry, order)
  {
    if Expressible(c, entry, order) {
      ExpressibleSurvives(c, entry, order);
    } else if Rebuilt(c, entry, order) == Some(Normal(entry)) {
      OnlyExpressibleSurvives(c, entry, order);
    }
  }

  // ---------------------------------------------------------------------
  // Replaying the logged command
  // ---------------------------------------------------------------------

  datatype Verdict = Added | Unchanged | Refused(differing: set<Field>)

  /** The guard of an `add` against the endpoints already there. */
  function ExistsGuard(endpoints: map<string, Entry>, name: string, force: bool, entry: Entry): Verdict {
    if name !in endpoints || force then Added
    else if endpoints[name] == entry then Unchanged
    else Refused(Differing(endpoints[name], entry))
  }

  function Differing(existing: Entry, entry: Entry): set<Field> {
    set f | f in existing.Keys + entry.Keys && At(existing, f) != At(entry, f)
  }

  /** The name an entry is stored under: the one given, or one derived from the model. */
  function Target(c: Codec, endpoints: map<string, Entry>, name: string, model: string): Option<string> {
    if name != "" then Some(name)
    else if model == "" then None
    else Some(Indexed(c.slug(model), FreeFrom(endpoints.Keys, c.slug(model), 1)))
  }

  datatype Attempt = Attempt(target: string, verdict: Verdict, entry: Entry)

  /** What `catalog endpoint add` decides; None is a usage error. Only a given name is guarded. */
  function Attempted(c: Codec, endpoints: map<string, Entry>, name: string, line: CommandLine, force: bool)
    : Option<Attempt>
  {
    var o := Parsed(c, line);
    if o.None? || (name != "" && !c.argument(name)) then None else
      var target, entry := Target(c, endpoints, name, o.value.model), Built(c, o.value);
      if target.None? || entry.None? then None else
        var verdict := if name == "" then Added else ExistsGuard(endpoints, name, force, entry.value);
        Some(Attempt(target.value, verdict, entry.value))
  }

  class Catalog {
    var endpoints: map<string, Entry>

    /** `catalog endpoint add [NAME] …`. */
    method Add(c: Codec, name: string, line: CommandLine, force: bool) returns (done: Option<Attempt>)
      modifies this
      ensures done == Attempted(c, old(endpoints), name, line, force)
      ensures endpoints == if done.Some? && done.value.verdict == Added
                           then old(endpoints)[done.value.target := done.value.entry] else old(endpoints)
    {
      hide Parsed, Built, FreeFrom, ExistsGuard;
      var o := Parsed(c, line);
      if o.None? || (name != "" && !c.argument(name)) {
        return None;
      }
      var target := name;
      if name == "" {
        if o.value.model == "" {
          return None;
        }
        target := NextIndexedName(endpoints.Keys, c.slug(o.value.model));
      }
      var entry := BuildEntry(c, o.value);
      if entry.None? {
        return None;
      }
      var action := Added;
      if name != "" {
        action := ExistsGuard(endpoints, name, force, entry.value);
      }
      done := Some(Attempt(target, action, entry.value));
      if action == Added {
        endpoints := endpoints[target := entry.value];
      }
    }
  }

  /** Without --force no stored entry is ever changed, and a derived name is one not in use. */
  lemma AddKeepsStored(c: Codec, endpoints: map<string, Entry>, name: string, line: CommandLine)
    ensures var done := Attempted(c, endpoints, name, line, false);
      done.Some? ==>
        && (done.value.verdict == Added ==> done.value.target !in endpoints)
        && (name == "" ==> done.value.verdict == Added)
  {
    hide Parsed, Built;
    var o := Parsed(c, line);
    if o.Some? && name == "" && o.value.model != "" {
      FreeIsFirst(endpoints.Keys, c.slug(o.value.model), 1);
    }
    hide Indexed, FreeFrom;
  }

  /** The verdict on the command logged for a stored entry, run again without --force. */
  function Replay(c: Codec, endpoints: map<string, Entry>, name: string, order: seq<string>): Option<Verdict>
    requires name in endpoints && Orders(order, endpoints[name])
  {
    var line := Printed(c, endpoints[name], order);
    if line.None? then None else
      var done := Attempted(c, endpoints, name, line.value, false);
      if done.None? then None else Some(done.value.verdict)
  }

  /**
   Replaying changes nothing exactly when the stored entry is expressible and names its
   engine, and the parser takes its name for an argument.
   */
  lemma ReplayUnchangedExactly(c: Codec, endpoints: map<string, Entry>, name: string, order: seq<string>)
    requires name in endpoints && name != "" && Orders(order, endpoints[name])
    ensures Replay(c, endpoints, name, order) == Some(Unchanged)
      <==> Expressible(c, endpoints[name], order) && Engine in endpoints[name] && c.argument(name)
  {
    var entry := endpoints[name];
    SurvivesExactly(c, entry, order);
    BuiltNamesEngine(c, entry, order);
    ReplayGuards(c, endpoints, name, order);
    hide Expressible, Orders, Rebuilt, Replay;
  }

  lemma ReplayGuards(c: Codec, endpoints: map<string, Entry>, name: string, order: seq<string>)
    requires name in endpoints && name != "" && Orders(order, endpoints[name])
    ensures var again := Rebuilt(c, endpoints[name], order);
      Replay(c, endpoints, name, order)
      == if again.None? || !c.argument(name) then None else Some(ExistsGuard(endpoints, name, false, again.value))
  {
    hide Orders, Printed, Parsed, Built, ExistsGuard;
  }

  lemma BuiltNamesEngine(c: Codec, entry: Entry, order: seq<string>)
    requires Orders(order, entry)
    ensures Rebuilt(c, entry, order).Some? ==> Engine in Rebuilt(c, entry, order).value
  {
    hide Printed, Parsed, BuiltRuntime;
  }

  /** An expressible entry that leaves its engine out is refused, naming the engine alone. */
  lemma UnnamedEngineRefused(c: Codec, endpoints: map<string, Entry>, name: string, order: seq<string>)
    requires name in endpoints && name != "" && Orders(order, endpoints[name])
    requires Expressible(c, endpoints[name], order) && Engine !in endpoints[name] && c.argument(name)
    ensures Replay(c, endpoints, name, order) == Some(Refused({Engine}))
  {
    var entry := endpoints[name];
    SurvivesExactly(c, entry, order);
    ReplayGuards(c, endpoints, name, order);
    OnlyEngineDiffers(endpoints, name);
    hide Expressible, Orders, Rebuilt, Replay, ExistsGuard, Normal;
  }

  lemma OnlyEngineDiffers(endpoints: map<string, Entry>, name: string)
    requires name in endpoints && Engine !in endpoints[name]
    ensures ExistsGuard(endpoints, name, false, Normal(endpoints[name])) == Refused({Engine})
  {
    assert Differing(endpoints[name], Normal(endpoints[name])) == {Engine};
  }

  /** An entry with only a model is such a one, if its model and its name are arguments. */
  lemma UnnamedEngineExample(c: Codec, model: string)
    requires model != "" && c.argument(model) && c.argument("chat")
    ensures var entry := map[Model := Str(model)];
      Orders([], entry) && Replay(c, map["chat" := entry], "chat", []) == Some(Refused({Engine}))
  {
    var entry := map[Model := Str(model)];
    assert Section(entry, Runtime) == map[] && Section(entry, Placement) == map[] && Section(entry, Reclaim) == map[];
    OnlyModelPrinted(c, entry, model);
    UnnamedEngineRefused(c, map["chat" := entry], "chat", []);
  }

  lemma OnlyModelPrinted(c: Codec, entry: Entry, model: string)
    requires entry == map[Model := Str(model)] && model != "" && c.argument(model)
    ensures Orders([], entry) && Printable(c, entry) && AllArguments(c, Printed(c, entry, []).value)
  {
    assert Section(entry, Runtime) == map[] && Section(entry, Placement) == map[] && Section(entry, Reclaim) == map[];
    forall flag | flag in Printed(c, entry, []).value ensures flag == ToField(Model) {
      WordPrinted(c, entry, [], flag);
    }
    WordPrinted(c, entry, [], ToField(Model));
    hide Printed;
  }

  /**
   For an entry of a form the options take, whose values read back, the logged command is
   a usage error exactly when one of its words is no argument.
   */
  lemma ReplayFailsExactly(c: Codec, endpoints: map<string, Entry>, name: string, order: seq<string>)
    requires name in endpoints && name != "" && Orders(order, endpoints[name])
    requires Shaped(c, endpoints[name]) && ReadsBack(c, endpoints[name])
    ensures Printed(c, endpoints[name], order).Some?
    ensures Replay(c, endpoints, name, order) == None
      <==> !AllArguments(c, Printed(c, endpoints[name], order).value) || !c.argument(name)
  {
    var entry := endpoints[name];
    ShapedIsPrintable(c, entry);
    ReplayGuards(c, endpoints, name, order);
    if AllArguments(c, Printed(c, entry, order).value) {
      assert Expressible(c, entry, order);
      ExpressibleSurvives(c, entry, order);
    } else {
      assert Rebuilt(c, entry, order) == None by {
        hide Printed, AllArguments;
      }
    }
    hide Shaped, ReadsBack, Orders, Printable, Printed, Replay, Rebuilt, Expressible, AllArguments, ExistsGuard;
  }

  lemma ShapedIsPrintable(c: Codec, entry: Entry)
    requires Shaped(c, entry) && ReadsBack(c, entry)
    ensures Printable(c, entry)
  {
    hide PlainKey, Integral, PairsPrint, ExtraReadsBack, NumbersReadBack;
  }

  /** The entry a plain model with one dash-led extra argument is stored as. */
  function Dashed(model: string, word: string): Entry {
    map[Engine := Str("vllm"), Model := Str(model), Runtime := Dict(map["extra_args" := List([Str(word)])])]
  }

  /**
   A stored entry whose only extra argument the parser takes for an option, such as
   `--dtype=half`, is logged as a command that is a usage error.
   */
  lemma DashedExtraIsRefused(c: Codec, name: string, model: string, word: string)
    requires name != "" && c.join([word]) == word && !c.argument(word)
    ensures var entry := Dashed(model, word);
      && Orders([], entry) && Printable(c, entry) && Printed(c, entry, []).value[ExtraArgs] == [word]
      && Replay(c, map[name := entry], name, []) == None
  {
    var entry := Dashed(model, word);
    assert Section(entry, Runtime) == map["extra_args" := List([Str(word)])];
    assert Section(entry, Placement) == map[] && Section(entry, Reclaim) == map[];
    assert Words([Str(word)]) == [word];
    WordPrinted(c, entry, [], ExtraArgs);
    var line := Printed(c, entry, []).value;
    assert line[ExtraArgs] == [word] && !c.argument(line[ExtraArgs][0]);
    assert !AllArguments(c, line);
    hide Printed, AllArguments, Orders, Printable;
    assert Parsed(c, line) == None;
    ReplayGuards(c, map[name := entry], name, []);
  }

  /** `--dtype=half`, as a parser that knows no such option but reads dash-led words as options sees it. */
  lemma DashedExtraExample(c: Codec)
    requires c.join(["--dtype=half"]) == "--dtype=half" && !c.argument("--dtype=half")
    ensures Orders([], Dashed("m", "--dtype=half"))
    ensures Replay(c, map["chat" := Dashed("m", "--dtype=half")], "chat", []) == None
  {
    hide Dashed, Replay, Orders;
    DashedExtraIsRefused(c, "chat", "m", "--dtype=half");
  }

  /** A stored entry with runtime text that is not YAML, such as `@x`, is not logged at all. */
  lemma UnreadableTextIsNotLogged(c: Codec, model: string, key: string, text: string)
    requires key != "extra_args" && c.yaml(text) == None
    ensures var entry := map[Engine := Str("vllm"), Model := Str(model), Runtime := Dict(map[key := Str(text)])];
      Orders([key], entry) && Printed(c, entry, [key]) == None
  {
    var entry := map[Engine := Str("vllm"), Model := Str(model), Runtime := Dict(map[key := Str(text)])];
    assert Section(entry, Runtime) == map[key := Str(text)];
    assert key in Section(entry, Runtime).Keys;
  }
}

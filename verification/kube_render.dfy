/**
 Rendering the desired deployments into KubeAI Models: one Model per deployment that
 can be served, one error per deployment that cannot, the oldest keeping a contested name.
 */
module KubeRender {
  import opened Sequences
  import opened Strings
  import opened Ordering
  import opened Values
  import opened KubeProfiles

  /** What the render reads of a deployment; `minVram` is its placement's min_vram_gib. */
  datatype Deployment = Deployment(
    id: string, createdAt: real, engine: string, runtime: Dictionary,
    minVram: Option<real>, served: seq<string>, model: string)

  /** A Model document: its name, its deployment label, its profile, and the rest of its spec. */
  datatype Doc = Doc(name: string, deployment: string, resourceProfile: string, spec: Value)

  /**
   The render's inputs and the pure functions it calls: the legacy launch recipes, the
   text of a profile value that is not a string, the Model name of a deployment, and the
   rest of its document.
   */
  datatype Inputs = Inputs(
    recipes: map<string, Dictionary>,
    show: Value -> string,
    isSpace: char -> bool,
    modelName: (Deployment, bool) -> string,
    modelSpec: (Deployment, string, string) -> Value,
    unique: bool,
    default: Option<string>)

  datatype Failure =
    | UnsupportedEngine(engine: string)
    | CustomLaunch(field: string)
    | NoProfile(why: Option<Reason>)
    | NameTaken(name: string, holder: string)

  datatype RenderError = RenderError(id: string, failure: Failure)

  // ---------------------------------------------------------------------
  // What one deployment comes to on its own
  // ---------------------------------------------------------------------

  const UNSUPPORTED_RUNTIME_FIELDS := ["image", "command", "mounts"]

  /** A known legacy recipe replaced by the generic fields; fields already set win. */
  function TranslateLegacy(inp: Inputs, runtime: Dictionary): Dictionary {
    var recipe := Get(runtime, "serve_recipe");
    if !recipe.Str? || recipe.s !in inp.recipes then runtime else
      var kept := map k | k in runtime && k != "serve_recipe" :: runtime[k];
      var out := inp.recipes[recipe.s] + kept;
      var env := Get(out, "env");
      if !env.Dict? || "PREFIX_CACHE" in env.entries then out else
        var flag := if Get(runtime, "enable_prefix_caching").Truthy() then "1" else "0";
        out["env" := Dict(env.entries["PREFIX_CACHE" := Str(flag)])]
  }

  /** The custom-launch fields a stock Model has no place for. */
  function UnsupportedFields(inp: Inputs, runtime: Dictionary): seq<string> {
    Filter(f => Get(TranslateLegacy(inp, runtime), f).Truthy(), UNSUPPORTED_RUNTIME_FIELDS)
  }

  /** The profile an endpoint names itself, `""` when it names none. */
  function OwnProfileOf(inp: Inputs, runtime: Dictionary): string {
    var v := Get(runtime, "resource_profile");
    if !v.Truthy() then "" else if v.Str? then v.s else inp.show(v)
  }

  predicate Wants(request: Option<real>) {
    request.Some? && request.value != 0.0
  }

  datatype Verdict = Serves(name: string, profile: string, why: Reason) | Fails(failure: Failure)

  function Judge(inp: Inputs, sized: seq<Sized>, d: Deployment): Verdict {
    if d.engine != "vllm" then Fails(UnsupportedEngine(d.engine)) else
      var runtime := TranslateLegacy(inp, d.runtime);
      var custom := UnsupportedFields(inp, runtime);
      if custom != [] then Fails(CustomLaunch(custom[0])) else
        var choice := PickProfile(OwnProfileOf(inp, runtime), d.minVram, sized, inp.default);
        if choice.profile.None? || Strip(inp.isSpace, choice.profile.value) == ""
        then Fails(NoProfile(if Wants(d.minVram) then Some(choice.why) else None))
        else Serves(inp.modelName(d, inp.unique), choice.profile.value, choice.why)
  }

  function DocOf(inp: Inputs, d: Deployment, v: Verdict): Doc
    requires v.Serves?
  {
    Doc(v.name, d.id, v.profile, inp.modelSpec(d, v.profile, v.name))
  }

  // ---------------------------------------------------------------------
  // The render loop
  // ---------------------------------------------------------------------

  datatype Rendered = Rendered(
    docs: seq<Doc>, models: map<string, string>, requestNames: map<string, string>,
    unrenderable: set<string>, errors: seq<RenderError>, reasons: map<string, Reason>)

  const NOTHING := Rendered([], map[], map[], {}, [], map[])

  function WithRequests(names: map<string, string>, served: seq<string>, name: string): map<string, string> {
    if served == [] then names else WithRequests(names, Init(served), name)[Last(served) := name]
  }

  function Refused(r: Rendered, d: Deployment, failure: Failure): Rendered {
    r.(unrenderable := r.unrenderable + {d.id}, errors := r.errors + [RenderError(d.id, failure)])
  }

  function RenderNext(inp: Inputs, sized: seq<Sized>, r: Rendered, d: Deployment): Rendered {
    var v := Judge(inp, sized, d);
    if v.Fails? then Refused(r, d, v.failure) else
      var noted := r.(reasons := r.reasons[d.id := v.why]);
      if v.name in r.models then Refused(noted, d, NameTaken(v.name, r.models[v.name])) else
        noted.(docs := r.docs + [DocOf(inp, d, v)], models := r.models[v.name := d.id],
               requestNames := WithRequests(r.requestNames, d.served, v.name))
  }

  function RenderOrdered(inp: Inputs, sized: seq<Sized>, ordered: seq<Deployment>): Rendered {
    if ordered == [] then NOTHING
    else RenderNext(inp, sized, RenderOrdered(inp, sized, Init(ordered)), Last(ordered))
  }

  /** Oldest first; creation ties are broken by id. */
  predicate OlderOrSame(a: Deployment, b: Deployment) {
    a.createdAt < b.createdAt || (a.createdAt == b.createdAt && StrLe(a.id, b.id))
  }

  function ByAge(deployments: seq<Deployment>): seq<Deployment> {
    Sort((a, b) => OlderOrSame(a, b), deployments)
  }

  function Render(inp: Inputs, sized: seq<Sized>, deployments: seq<Deployment>): Rendered {
    RenderOrdered(inp, sized, ByAge(deployments))
  }

  /** The bookkeeping object the render fills. */
  class RenderedModels {
    var docs: seq<Doc>
    var models: map<string, string>
    var requestNames: map<string, string>
    var unrenderable: set<string>
    var errors: seq<RenderError>
    var reasons: map<string, Reason>

    ghost function Contents(): Rendered
      reads this
    {
      Rendered(docs, models, requestNames, unrenderable, errors, reasons)
    }

    constructor ()
      ensures Contents() == NOTHING
    {
      docs, models, requestNames, unrenderable, errors, reasons := [], map[], map[], {}, [], map[];
    }

    method Refuse(d: Deployment, failure: Failure)
      modifies this
      ensures Contents() == Refused(old(Contents()), d, failure)
    {
      unrenderable := unrenderable + {d.id};
      errors := errors + [RenderError(d.id, failure)];
    }

    method Accept(inp: Inputs, d: Deployment, v: Verdict)
      requires v.Serves?
      modifies this
      ensures Contents() == old(Contents()).(
        docs := old(docs) + [DocOf(inp, d, v)], models := old(models)[v.name := d.id],
        requestNames := WithRequests(old(requestNames), d.served, v.name))
    {
      docs := docs + [DocOf(inp, d, v)];
      models := models[v.name := d.id];
      for i := 0 to |d.served|
        invariant Contents() == old(Contents()).(
          docs := old(docs) + [DocOf(inp, d, v)], models := old(models)[v.name := d.id],
          requestNames := WithRequests(old(requestNames), d.served[..i], v.name))
      {
        assert Init(d.served[..i + 1]) == d.served[..i];
        requestNames := requestNames[d.served[i] := v.name];
      }
      assert d.served[..|d.served|] == d.served;
    }
  }

  method RenderModels(inp: Inputs, sized: seq<Sized>, deployments: seq<Deployment>) returns (out: RenderedModels)
    ensures fresh(out) && out.Contents() == Render(inp, sized, deployments)
  {
    out := new RenderedModels();
    var ordered := ByAge(deployments);
    for i := 0 to |ordered|
      invariant fresh(out) && out.Contents() == RenderOrdered(inp, sized, ordered[..i])
    {
      assert Init(ordered[..i + 1]) == ordered[..i];
      RenderOne(inp, sized, out, ordered[i]);
    }
    assert ordered[..|ordered|] == ordered;
  }

  /** The body of the render loop. */
  method RenderOne(inp: Inputs, sized: seq<Sized>, out: RenderedModels, d: Deployment)
    modifies out
    ensures out.Contents() == RenderNext(inp, sized, old(out.Contents()), d)
  {
    if d.engine != "vllm" {
      out.Refuse(d, UnsupportedEngine(d.engine));
      return;
    }
    var runtime := TranslateLegacy(inp, d.runtime);
    var custom := UnsupportedFields(inp, runtime);
    if custom != [] {
      out.Refuse(d, CustomLaunch(custom[0]));
      return;
    }
    var choice := PickProfile(OwnProfileOf(inp, runtime), d.minVram, sized, inp.default);
    if choice.profile.None? || Strip(inp.isSpace, choice.profile.value) == "" {
      out.Refuse(d, NoProfile(if Wants(d.minVram) then Some(choice.why) else None));
      return;
    }
    out.reasons := out.reasons[d.id := choice.why];
    var name := inp.modelName(d, inp.unique);
    if name in out.models {
      out.Refuse(d, NameTaken(name, out.models[name]));
      return;
    }
    out.Accept(inp, d, Serves(name, choice.profile.value, choice.why));
  }

  // ---------------------------------------------------------------------
  // Who keeps a name, said of the set of deployments alone
  // ---------------------------------------------------------------------

  ghost predicate DistinctIds(ds: seq<Deployment>) {
    forall a, b :: a in ds && b in ds && a.id == b.id ==> a == b
  }

  ghost predicate Contends(inp: Inputs, sized: seq<Sized>, d: Deployment, name: string) {
    Judge(inp, sized, d).Serves? && Judge(inp, sized, d).name == name
  }

  /** `d` can be served and no older deployment that can claims its name. */
  ghost predicate Keeps(inp: Inputs, sized: seq<Sized>, ds: seq<Deployment>, d: Deployment) {
    Judge(inp, sized, d).Serves?
    && forall e :: e in ds && Contends(inp, sized, e, Judge(inp, sized, d).name) ==> OlderOrSame(d, e)
  }

  lemma AgeOrder()
    ensures TotalPreorder((a, b) => OlderOrSame(a, b))
  {
    forall a, b ensures OlderOrSame(a, b) || OlderOrSame(b, a) {
      StrLeTotal(a.id, b.id);
    }
    forall a, b, c | OlderOrSame(a, b) && OlderOrSame(b, c) ensures OlderOrSame(a, c) {
      if a.createdAt == b.createdAt && b.createdAt == c.createdAt {
        StrLeTrans(a.id, b.id, c.id);
      }
    }
  }

  lemma AgeTies(ds: seq<Deployment>)
    requires DistinctIds(ds)
    ensures forall a, b :: a in ds && b in ds && OlderOrSame(a, b) && OlderOrSame(b, a) ==> a == b
  {
    forall a, b | a in ds && b in ds && OlderOrSame(a, b) && OlderOrSame(b, a) ensures a == b {
      StrLeTotal(a.id, b.id);
    }
  }

  /** Main result: the render does not depend on the order it is given the deployments in. */
  lemma RenderOfPermutation(inp: Inputs, sized: seq<Sized>, a: seq<Deployment>, b: seq<Deployment>)
    requires DistinctIds(a) && multiset(a) == multiset(b)
    ensures Render(inp, sized, a) == Render(inp, sized, b)
  {
    AgeOrder();
    AgeTies(a);
    SortOfPermutation((x, y) => OlderOrSame(x, y), a, b);
  }

  ghost predicate UniqueIds(ds: seq<Deployment>) {
    forall i, j :: 0 <= i < j < |ds| ==> ds[i].id != ds[j].id
  }

  function IdsOf(ds: seq<Deployment>): seq<string> {
    Map((d: Deployment) => d.id, ds)
  }

  ghost function Keepers(inp: Inputs, sized: seq<Sized>, ds: seq<Deployment>): seq<Deployment> {
    Filter(d => Keeps(inp, sized, ds, d), ds)
  }

  ghost function Others(inp: Inputs, sized: seq<Sized>, ds: seq<Deployment>): seq<Deployment> {
    Filter(d => !Keeps(inp, sized, ds, d), ds)
  }

  /** The documents and the name map list the same Models, each name once. */
  ghost predicate DocsMatchModels(r: Rendered) {
    && (forall i, j :: 0 <= i < j < |r.docs| ==> r.docs[i].name != r.docs[j].name)
    && (forall doc :: doc in r.docs ==> doc.name in r.models && r.models[doc.name] == doc.deployment)
    && (forall n :: n in r.models ==> exists doc :: doc in r.docs && doc.name == n)
  }

  /** One document per keeper and one error per other deployment, oldest first. */
  ghost predicate Splits(inp: Inputs, sized: seq<Sized>, ordered: seq<Deployment>, r: Rendered) {
    && Map((doc: Doc) => doc.deployment, r.docs) == IdsOf(Keepers(inp, sized, ordered))
    && Map((e: RenderError) => e.id, r.errors) == IdsOf(Others(inp, sized, ordered))
    && (forall id :: id in r.unrenderable <==> id in IdsOf(Others(inp, sized, ordered)))
    && (forall d :: d in ordered && Keeps(inp, sized, ordered, d) ==>
          DocOf(inp, d, Judge(inp, sized, d)) in r.docs)
    && (forall n :: n in r.models <==> exists d :: d in ordered && Contends(inp, sized, d, n))
    && DocsMatchModels(r)
  }

  /** Appending a younger deployment leaves the older ones' standing as it was. */
  lemma YoungerChangesNothing(inp: Inputs, sized: seq<Sized>, older: seq<Deployment>, d: Deployment)
    requires forall e :: e in older ==> OlderOrSame(e, d) && !OlderOrSame(d, e)
    ensures forall e :: e in older ==> (Keeps(inp, sized, older + [d], e) <==> Keeps(inp, sized, older, e))
    ensures Keeps(inp, sized, older + [d], d) <==>
      Judge(inp, sized, d).Serves? && forall e :: e in older ==> !Contends(inp, sized, e, Judge(inp, sized, d).name)
    ensures Keepers(inp, sized, older + [d])
         == Keepers(inp, sized, older) + if Keeps(inp, sized, older + [d], d) then [d] else []
    ensures Others(inp, sized, older + [d])
         == Others(inp, sized, older) + if Keeps(inp, sized, older + [d], d) then [] else [d]
  {
    hide Judge;
    var all := older + [d];
    StrLeTotal(d.id, d.id);
    assert OlderOrSame(d, d);
    forall e | e in older ensures Keeps(inp, sized, all, e) <==> Keeps(inp, sized, older, e) {
      assert forall x :: x in all <==> x in older || x == d;
    }
    assert forall e :: e in all <==> e in older || e == d;
    FilterAppend(e => Keeps(inp, sized, all, e), older, [d]);
    FilterAppend(e => !Keeps(inp, sized, all, e), older, [d]);
    FilterSame(e => Keeps(inp, sized, all, e), e => Keeps(inp, sized, older, e), older);
    FilterSame(e => !Keeps(inp, sized, all, e), e => !Keeps(inp, sized, older, e), older);
  }

  lemma RefusedSplits(inp: Inputs, sized: seq<Sized>, older: seq<Deployment>, r: Rendered, d: Deployment,
                      failure: Failure)
    requires Splits(inp, sized, older, r)
    requires forall e :: e in older ==> OlderOrSame(e, d) && !OlderOrSame(d, e)
    requires !Keeps(inp, sized, older + [d], d)
    ensures Splits(inp, sized, older + [d], Refused(r, d, failure))
  {
    hide Judge, OlderOrSame, Keeps, DocOf;
    var all, after := older + [d], Refused(r, d, failure);
    YoungerChangesNothing(inp, sized, older, d);
    assert Others(inp, sized, all) == Others(inp, sized, older) + [d];
    assert IdsOf(Others(inp, sized, all)) == IdsOf(Others(inp, sized, older)) + [d.id];
    assert Map((e: RenderError) => e.id, after.errors) == Map((e: RenderError) => e.id, r.errors) + [d.id];
    forall n ensures n in after.models <==> exists e :: e in all && Contends(inp, sized, e, n) {
      ContendersGrow(inp, sized, older, d, n);
    }
  }

  lemma ContendersGrow(inp: Inputs, sized: seq<Sized>, older: seq<Deployment>, d: Deployment, n: string)
    ensures (exists e :: e in older + [d] && Contends(inp, sized, e, n))
       <==> Contends(inp, sized, d, n) || exists e :: e in older && Contends(inp, sized, e, n)
  {
    assert d in older + [d];
  }

  lemma AcceptedSplits(inp: Inputs, sized: seq<Sized>, older: seq<Deployment>, r: Rendered, d: Deployment,
                       v: Verdict, after: Rendered)
    requires Splits(inp, sized, older, r)
    requires forall e :: e in older ==> OlderOrSame(e, d) && !OlderOrSame(d, e)
    requires v == Judge(inp, sized, d) && Keeps(inp, sized, older + [d], d) && v.name !in r.models
    requires after.docs == r.docs + [DocOf(inp, d, v)] && after.models == r.models[v.name := d.id]
    requires after.errors == r.errors && after.unrenderable == r.unrenderable
    ensures Splits(inp, sized, older + [d], after)
  {
    hide Judge, OlderOrSame;
    var all := older + [d];
    YoungerChangesNothing(inp, sized, older, d);
    assert IdsOf(Keepers(inp, sized, all)) == IdsOf(Keepers(inp, sized, older)) + [d.id];
    assert Map((doc: Doc) => doc.deployment, after.docs) == Map((doc: Doc) => doc.deployment, r.docs) + [d.id];
    assert Others(inp, sized, all) == Others(inp, sized, older);
    DocsGrow(r, after, DocOf(inp, d, v));
    AcceptedNames(inp, sized, older, r, d, v, after);
    forall e | e in all && Keeps(inp, sized, all, e) ensures DocOf(inp, e, Judge(inp, sized, e)) in after.docs {
      assert e in older || e == d;
    }
  }

  lemma AcceptedNames(inp: Inputs, sized: seq<Sized>, older: seq<Deployment>, r: Rendered, d: Deployment,
                      v: Verdict, after: Rendered)
    requires forall n :: n in r.models <==> exists e :: e in older && Contends(inp, sized, e, n)
    requires v == Judge(inp, sized, d) && v.Serves? && after.models == r.models[v.name := d.id]
    ensures forall n :: n in after.models <==> exists e :: e in older + [d] && Contends(inp, sized, e, n)
  {
    hide Judge;
    forall n ensures n in after.models <==> exists e :: e in older + [d] && Contends(inp, sized, e, n) {
      ContendersGrow(inp, sized, older, d, n);
    }
  }

  lemma DocsGrow(r: Rendered, after: Rendered, doc: Doc)
    requires DocsMatchModels(r) && doc.name !in r.models
    requires after.docs == r.docs + [doc] && after.models == r.models[doc.name := doc.deployment]
    ensures DocsMatchModels(after)
  {
    assert doc in after.docs;
    forall x | x in after.docs ensures x.name in after.models && after.models[x.name] == x.deployment {
      assert x in r.docs || x == doc;
    }
    forall i, j | 0 <= i < j < |after.docs| ensures after.docs[i].name != after.docs[j].name {
      assert after.docs[i] in r.docs;
    }
    forall n | n in after.models ensures exists x :: x in after.docs && x.name == n {
      if n in r.models {
        var x :| x in r.docs && x.name == n;
        assert x in after.docs;
      }
    }
  }

  /** A deployment keeps its name just when nothing rendered before it has it. */
  lemma KeepsIfFree(inp: Inputs, sized: seq<Sized>, older: seq<Deployment>, r: Rendered, d: Deployment)
    requires Splits(inp, sized, older, r)
    requires forall e :: e in older ==> OlderOrSame(e, d) && !OlderOrSame(d, e)
    ensures Keeps(inp, sized, older + [d], d)
       <==> Judge(inp, sized, d).Serves? && Judge(inp, sized, d).name !in r.models
  {
    YoungerChangesNothing(inp, sized, older, d);
    hide Judge, OlderOrSame;
  }

  lemma NotedSplits(inp: Inputs, sized: seq<Sized>, older: seq<Deployment>, r: Rendered, noted: Rendered)
    requires Splits(inp, sized, older, r) && noted == r.(reasons := noted.reasons)
    ensures Splits(inp, sized, older, noted)
  {
    hide Keepers, Others, IdsOf, Keeps, Contends, DocOf, Judge;
  }

  lemma RenderNextSplits(inp: Inputs, sized: seq<Sized>, older: seq<Deployment>, r: Rendered, d: Deployment)
    requires Splits(inp, sized, older, r)
    requires forall e :: e in older ==> OlderOrSame(e, d) && !OlderOrSame(d, e)
    ensures Splits(inp, sized, older + [d], RenderNext(inp, sized, r, d))
  {
    var v := Judge(inp, sized, d);
    hide Judge, OlderOrSame, WithRequests, Keeps;
    KeepsIfFree(inp, sized, older, r, d);
    if v.Fails? {
      RefusedSplits(inp, sized, older, r, d, v.failure);
    } else {
      var noted := r.(reasons := r.reasons[d.id := v.why]);
      NotedSplits(inp, sized, older, r, noted);
      hide Splits;
      if v.name in r.models {
        RefusedSplits(inp, sized, older, noted, d, NameTaken(v.name, r.models[v.name]));
      } else {
        AcceptedSplits(inp, sized, older, r, d, v, RenderNext(inp, sized, r, d));
      }
    }
  }

  predicate AgeSorted(ds: seq<Deployment>) {
    forall i, j :: 0 <= i < j < |ds| ==> OlderOrSame(ds[i], ds[j])
  }

  lemma LastIsYoungest(ordered: seq<Deployment>)
    requires ordered != [] && AgeSorted(ordered) && UniqueIds(ordered)
    ensures AgeSorted(Init(ordered)) && UniqueIds(Init(ordered))
    ensures forall e :: e in Init(ordered) ==> OlderOrSame(e, Last(ordered)) && !OlderOrSame(Last(ordered), e)
  {
    var older, d := Init(ordered), Last(ordered);
    forall e | e in older ensures OlderOrSame(e, d) && !OlderOrSame(d, e) {
      var i :| 0 <= i < |older| && older[i] == e;
      assert ordered[i] == e && OlderOrSame(ordered[i], ordered[|older|]);
      StrLeTotal(e.id, d.id);
    }
  }

  lemma {:induction false} OrderedSplits(inp: Inputs, sized: seq<Sized>, ordered: seq<Deployment>)
    requires AgeSorted(ordered) && UniqueIds(ordered)
    ensures Splits(inp, sized, ordered, RenderOrdered(inp, sized, ordered))
  {
    if ordered != [] {
      var older, d := Init(ordered), Last(ordered);
      LastIsYoungest(ordered);
      assert older + [d] == ordered;
      assert RenderOrdered(inp, sized, ordered) == RenderNext(inp, sized, RenderOrdered(inp, sized, older), d);
      hide AgeSorted, OlderOrSame, UniqueIds, Splits, RenderNext, RenderOrdered;
      OrderedSplits(inp, sized, older);
      RenderNextSplits(inp, sized, older, RenderOrdered(inp, sized, older), d);
    }
  }

  lemma UniqueIdsSorted(ds: seq<Deployment>)
    requires UniqueIds(ds)
    ensures UniqueIds(ByAge(ds)) && DistinctIds(ds)
  {
    AgeOrder();
    SortSorts((a, b) => OlderOrSame(a, b), ds);
    UniqueByMultiset(ds, ByAge(ds));
  }

  lemma UniqueByMultiset(a: seq<Deployment>, b: seq<Deployment>)
    requires UniqueIds(a) && multiset(a) == multiset(b)
    ensures UniqueIds(b)
  {
    forall i, j | 0 <= i < j < |b| ensures b[i].id != b[j].id {
      if b[i].id == b[j].id {
        SameMembers(b, a, b[i]);
        SameMembers(b, a, b[j]);
        assert b[i] == b[j];
        TwiceIn(b, i, j);
        OnceIn(a, b[i]);
      }
    }
  }

  lemma TwiceIn<T>(s: seq<T>, i: nat, j: nat)
    requires i < j < |s| && s[i] == s[j]
    ensures multiset(s)[s[i]] >= 2
  {
    assert s == s[..j] + [s[j]] + s[j + 1..];
    assert s[..j][i] == s[i];
    assert multiset(s) == multiset(s[..j]) + multiset{s[j]} + multiset(s[j + 1..]);
  }

  lemma {:induction false} OnceIn(s: seq<Deployment>, x: Deployment)
    requires UniqueIds(s)
    ensures multiset(s)[x] <= 1
  {
    if s != [] {
      OnceIn(s[1..], x);
      assert s == [s[0]] + s[1..];
      if s[0] == x {
        assert x !in s[1..];
      }
    }
  }

  /**
   Main result, in terms of the set of deployments alone: in order of age, the render
   gives one Model to each deployment that no older servable one beats to its name, and
   one error to every other; no name is used twice, and the name map says who has it.
   */
  lemma RenderIsExact(inp: Inputs, sized: seq<Sized>, ds: seq<Deployment>)
    requires UniqueIds(ds)
    ensures Splits(inp, sized, ByAge(ds), Render(inp, sized, ds))
    ensures multiset(ByAge(ds)) == multiset(ds)
    ensures forall d :: d in ds ==> (d.id in Render(inp, sized, ds).unrenderable <==> !Keeps(inp, sized, ds, d))
  {
    AgeOrder();
    SortSorts((a, b) => OlderOrSame(a, b), ds);
    UniqueIdsSorted(ds);
    OrderedSplits(inp, sized, ByAge(ds));
    UnrenderableAre(inp, sized, ds);
  }

  lemma UnrenderableAre(inp: Inputs, sized: seq<Sized>, ds: seq<Deployment>)
    requires UniqueIds(ds) && Splits(inp, sized, ByAge(ds), Render(inp, sized, ds))
    requires forall x :: x in ByAge(ds) <==> x in ds
    ensures forall d :: d in ds ==> (d.id in Render(inp, sized, ds).unrenderable <==> !Keeps(inp, sized, ds, d))
  {
    hide Judge, Render;
    var ordered := ByAge(ds);
    var others := Others(inp, sized, ordered);
    FilterMembers(d => !Keeps(inp, sized, ordered, d), ordered);
    forall d | d in ds
      ensures d.id in Render(inp, sized, ds).unrenderable <==> !Keeps(inp, sized, ds, d)
    {
      assert Keeps(inp, sized, ds, d) <==> Keeps(inp, sized, ordered, d);
      if d.id in IdsOf(others) {
        var i :| 0 <= i < |others| && IdsOf(others)[i] == d.id;
        assert others[i] in ds && others[i].id == d.id;
        assert others[i] == d;
      }
      if !Keeps(inp, sized, ds, d) {
        assert d in others;
        var i :| 0 <= i < |others| && others[i] == d;
        assert IdsOf(others)[i] == d.id;
      }
    }
  }

  /** `b` only adds to `a`; endpoint request names may have moved to a newer Model. */
  ghost predicate ExtendsRender(a: Rendered, b: Rendered) {
    a.docs <= b.docs && a.errors <= b.errors && a.unrenderable <= b.unrenderable
    && (forall n :: n in a.models ==> n in b.models && b.models[n] == a.models[n])
    && (forall e :: e in a.requestNames ==> e in b.requestNames)
  }

  lemma {:induction false} RequestsGrow(names: map<string, string>, served: seq<string>, name: string)
    ensures names.Keys <= WithRequests(names, served, name).Keys
  {
    if served != [] {
      RequestsGrow(names, Init(served), name);
    }
  }

  /** Adding a deployment younger than all others never takes a Model from any of them. */
  lemma YoungerOnlyExtends(inp: Inputs, sized: seq<Sized>, ds: seq<Deployment>, d: Deployment)
    requires forall e :: e in ds ==> OlderOrSame(e, d) && !OlderOrSame(d, e)
    ensures ExtendsRender(Render(inp, sized, ds), Render(inp, sized, ds + [d]))
  {
    hide OlderOrSame;
    SortOfLargest((a, b) => OlderOrSame(a, b), ds, d);
    var ordered := ByAge(ds);
    assert Init(ordered + [d]) == ordered && Last(ordered + [d]) == d;
    var r := Render(inp, sized, ds);
    var v := Judge(inp, sized, d);
    assert Render(inp, sized, ds + [d]) == RenderNext(inp, sized, r, d);
    hide Judge, Render;
    NextExtends(inp, sized, r, d);
  }

  lemma NextExtends(inp: Inputs, sized: seq<Sized>, r: Rendered, d: Deployment)
    ensures ExtendsRender(r, RenderNext(inp, sized, r, d))
  {
    var v := Judge(inp, sized, d);
    hide Judge, WithRequests, DocOf;
    if v.Serves? {
      RequestsGrow(r.requestNames, d.served, v.name);
    }
  }

  // ---------------------------------------------------------------------
  // Requests, and skipping the cluster read
  // ---------------------------------------------------------------------

  lemma {:induction false} RequestsMeaning(names: map<string, string>, served: seq<string>, name: string, e: string)
    ensures var after := WithRequests(names, served, name);
      if e in served then e in after && after[e] == name
      else (e in after <==> e in names) && (e in names ==> after[e] == names[e])
  {
    if served != [] {
      RequestsMeaning(names, Init(served), name, e);
      assert served == Init(served) + [Last(served)];
    }
  }

  /** An endpoint's requests go to the youngest keeper that serves it. */
  ghost predicate Routed(inp: Inputs, sized: seq<Sized>, ordered: seq<Deployment>, names: map<string, string>,
      e: string) {
    if exists d :: d in ordered && Keeps(inp, sized, ordered, d) && e in d.served then
      e in names && exists d :: (
        d in ordered && Keeps(inp, sized, ordered, d) && e in d.served && names[e] == Judge(inp, sized, d).name
        && forall x :: x in ordered && Keeps(inp, sized, ordered, x) && e in x.served ==> OlderOrSame(x, d))
    else e !in names
  }

  lemma RoutedNext(inp: Inputs, sized: seq<Sized>, older: seq<Deployment>, r: Rendered, d: Deployment, e: string)
    requires Splits(inp, sized, older, r) && Routed(inp, sized, older, r.requestNames, e)
    requires forall x :: x in older ==> OlderOrSame(x, d) && !OlderOrSame(d, x)
    ensures Routed(inp, sized, older + [d], RenderNext(inp, sized, r, d).requestNames, e)
  {
    var v := Judge(inp, sized, d);
    var after := RenderNext(inp, sized, r, d).requestNames;
    hide Judge, WithRequests;
    KeepsIfFree(inp, sized, older, r, d);
    if v.Serves? && v.name !in r.models {
      RequestsMeaning(r.requestNames, d.served, v.name, e);
      RoutedByYoungest(inp, sized, older, d, r.requestNames, after, e);
    } else {
      assert after == r.requestNames;
      RoutedUnchanged(inp, sized, older, d, after, e);
    }
  }

  lemma RoutedUnchanged(inp: Inputs, sized: seq<Sized>, older: seq<Deployment>, d: Deployment,
                        names: map<string, string>, e: string)
    requires Routed(inp, sized, older, names, e) && !Keeps(inp, sized, older + [d], d)
    requires forall x :: x in older ==> OlderOrSame(x, d) && !OlderOrSame(d, x)
    ensures Routed(inp, sized, older + [d], names, e)
  {
    YoungerChangesNothing(inp, sized, older, d);
    hide Judge, OlderOrSame, Keeps;
    assert forall x :: x in older + [d] <==> x in older || x == d;
  }

  lemma RoutedByYoungest(inp: Inputs, sized: seq<Sized>, older: seq<Deployment>, d: Deployment,
                         names: map<string, string>, after: map<string, string>, e: string)
    requires Routed(inp, sized, older, names, e) && Keeps(inp, sized, older + [d], d)
    requires forall x :: x in older ==> OlderOrSame(x, d) && !OlderOrSame(d, x)
    requires if e in d.served then e in after && after[e] == Judge(inp, sized, d).name
             else (e in after <==> e in names) && (e in names ==> after[e] == names[e])
    ensures Routed(inp, sized, older + [d], after, e)
  {
    YoungerChangesNothing(inp, sized, older, d);
    StrLeTotal(d.id, d.id);
    assert OlderOrSame(d, d);
    hide Judge, OlderOrSame, Keeps;
    assert forall x :: x in older + [d] <==> x in older || x == d;
  }

  lemma {:induction false} RequestsGoToYoungest(inp: Inputs, sized: seq<Sized>, ordered: seq<Deployment>, e: string)
    requires AgeSorted(ordered) && UniqueIds(ordered)
    ensures Routed(inp, sized, ordered, RenderOrdered(inp, sized, ordered).requestNames, e)
  {
    if ordered != [] {
      var older, d := Init(ordered), Last(ordered);
      LastIsYoungest(ordered);
      hide AgeSorted, OlderOrSame, UniqueIds, Splits, RenderNext, Routed;
      RequestsGoToYoungest(inp, sized, older, e);
      OrderedSplits(inp, sized, older);
      RoutedNext(inp, sized, older, RenderOrdered(inp, sized, older), d, e);
      assert older + [d] == ordered;
    }
  }

  /** Whether any deployment asks for its profile by GPU memory. */
  predicate NeedsSizing(inp: Inputs, desired: seq<Deployment>) {
    exists i :: 0 <= i < |desired| && Wants(desired[i].minVram) && OwnProfileOf(inp, desired[i].runtime) == ""
  }

  /** A recipe never takes away or changes a profile the endpoint names. */
  lemma TranslationKeepsProfile(inp: Inputs, runtime: Dictionary)
    ensures OwnProfileOf(inp, runtime) != "" ==>
      OwnProfileOf(inp, TranslateLegacy(inp, runtime)) == OwnProfileOf(inp, runtime)
  {}

  lemma UnsizedJudgement(inp: Inputs, sized: seq<Sized>, d: Deployment)
    requires Wants(d.minVram) ==> OwnProfileOf(inp, d.runtime) != ""
    ensures Judge(inp, sized, d) == Judge(inp, [], d)
  {
    TranslationKeepsProfile(inp, d.runtime);
  }

  lemma {:induction false} UnsizedOrdered(inp: Inputs, sized: seq<Sized>, ordered: seq<Deployment>)
    requires forall d :: d in ordered ==> (Wants(d.minVram) ==> OwnProfileOf(inp, d.runtime) != "")
    ensures RenderOrdered(inp, sized, ordered) == RenderOrdered(inp, [], ordered)
  {
    if ordered != [] {
      UnsizedOrdered(inp, sized, Init(ordered));
      UnsizedJudgement(inp, sized, Last(ordered));
    }
  }

  /** Main result: when nothing asks for sizing, the sizes that were not read could not have mattered. */
  lemma SkippedSizingIsHarmless(inp: Inputs, sized: seq<Sized>, desired: seq<Deployment>)
    requires !NeedsSizing(inp, desired)
    ensures Render(inp, sized, desired) == Render(inp, [], desired)
  {
    AgeOrder();
    SortSorts((a, b) => OlderOrSame(a, b), desired);
    UnsizedOrdered(inp, sized, ByAge(desired));
  }
}

/**
 What the render makes of its deployments, said on the fields of what goes in and comes
 out: which profile a Model carries, which deployments get one, and why the others do not.
 */
module KubeRenderFields {
  import opened Sequences
  import opened Strings
  import opened StringMeaning
  import opened Ordering
  import opened Values
  import opened KubeProfiles
  import opened KubeRender

  // ---------------------------------------------------------------------
  // The choice of a profile
  // ---------------------------------------------------------------------

  /** `s` is a size of at least `request`, and the least such: by memory, then by name. */
  ghost predicate LeastFitting(sized: seq<Sized>, request: real, s: Sized) {
    s in sized && s.gib >= request
    && forall o <- sized :: o.gib >= request ==> s.gib < o.gib || (s.gib == o.gib && NoLater(s.name, o.name))
  }

  /** The endpoint's own profile, else one by size, else the default. */
  ghost predicate Carries(own: string, request: Option<real>, sized: seq<Sized>, default: Option<string>,
                          profile: string)
  {
    if own != "" then profile == own
    else if request.Some? && request.value != 0.0 && exists s <- sized :: s.gib >= request.value then
      exists s <- sized :: LeastFitting(sized, request.value, s) && s.name == profile
    else default == Some(profile)
  }

  lemma LeastMeaning(request: real, sized: seq<Sized>, default: Option<string>)
    requires request != 0.0 && exists s <- sized :: s.gib >= request
    ensures var choice := PickProfile("", Some(request), sized, default);
      choice.why.BySize? && choice.profile == Some(choice.why.chosen.name)
      && forall s :: LeastFitting(sized, request, s) <==> s == choice.why.chosen
  {
    hide Fitting;
    PickIsSmallest(request, sized, default);
    var chosen := PickProfile("", Some(request), sized, default).why.chosen;
    forall a, b ensures SizeLe(a, b) <==> a.gib < b.gib || (a.gib == b.gib && NoLater(a.name, b.name)) {
      StrLeMeaning(a.name, b.name);
    }
    forall s | LeastFitting(sized, request, s) ensures s == chosen {
      StrLeTotal(s.name, chosen.name);
    }
  }

  lemma PickMeaning(own: string, request: Option<real>, sized: seq<Sized>, default: Option<string>, profile: string)
    requires profile != ""
    ensures PickProfile(own, request, sized, default).profile == Some(profile)
       <==> Carries(own, request, sized, default, profile)
  {
    hide Fitting;
    if own == "" && request.Some? && request.value != 0.0 {
      FittingMeaning(request.value, sized);
      if exists s <- sized :: s.gib >= request.value {
        LeastMeaning(request.value, sized, default);
      } else {
        EmptyOrMember(Fitting(request.value, sized));
      }
    }
  }

  // ---------------------------------------------------------------------
  // Which deployments can be served
  // ---------------------------------------------------------------------

  /** The key is missing, or holds one of the values that count as nothing. */
  ghost predicate Unset(d: Dictionary, key: string) {
    key !in d || Falsy(d[key])
  }

  /** The text of the profile a runtime names, `""` for none. */
  ghost function Named(inp: Inputs, runtime: Dictionary): string {
    if Unset(runtime, "resource_profile") then ""
    else match runtime["resource_profile"]
      case Str(s) => s
      case v => inp.show(v)
  }

  lemma UnsetMeaning(d: Dictionary, key: string)
    ensures Unset(d, key) <==> !Get(d, key).Truthy()
  {}

  /** A known recipe gives way to the generic fields it stands for; what the runtime sets itself wins. */
  lemma TranslationExactly(inp: Inputs, runtime: Dictionary, key: string)
    ensures var out := TranslateLegacy(inp, runtime);
      if "serve_recipe" in runtime && runtime["serve_recipe"].Str? && runtime["serve_recipe"].s in inp.recipes then
        var recipe := inp.recipes[runtime["serve_recipe"].s];
        var own := key in runtime && key != "serve_recipe";
        && (key in out <==> own || key in recipe)
        && (key in out ==>
            var plain := if own then runtime[key] else recipe[key];
            out[key] ==
              if key == "env" && plain.Dict? && "PREFIX_CACHE" !in plain.entries
              then Dict(plain.entries["PREFIX_CACHE" :=
                          Str(if Unset(runtime, "enable_prefix_caching") then "0" else "1")])
              else plain)
      else out == runtime
  {
    UnsetMeaning(runtime, "enable_prefix_caching");
  }

  /** `d` can be served, with this profile. */
  ghost predicate Servable(inp: Inputs, sized: seq<Sized>, d: Deployment, profile: string) {
    var runtime := TranslateLegacy(inp, d.runtime);
    var again := TranslateLegacy(inp, runtime);
    && d.engine == "vllm"
    && Unset(again, "image") && Unset(again, "command") && Unset(again, "mounts")
    && Carries(Named(inp, runtime), d.minVram, sized, inp.default, profile)
    && exists i :: 0 <= i < |profile| && !inp.isSpace(profile[i])
  }

  lemma CustomMeaning(inp: Inputs, runtime: Dictionary)
    ensures var again := TranslateLegacy(inp, runtime); var custom := UnsupportedFields(inp, runtime);
      && (custom == [] <==> Unset(again, "image") && Unset(again, "command") && Unset(again, "mounts"))
      && (custom != [] ==>
            custom[0] == (if !Unset(again, "image") then "image"
                          else if !Unset(again, "command") then "command" else "mounts"))
  {
    var again := TranslateLegacy(inp, runtime);
    hide TranslateLegacy;
    var p := f => Get(TranslateLegacy(inp, runtime), f).Truthy();
    var fields := ["image", "command", "mounts"];
    UnsetMeaning(again, "image");
    UnsetMeaning(again, "command");
    UnsetMeaning(again, "mounts");
    assert fields[1..] == ["command", "mounts"] && fields[1..][1..] == ["mounts"] && fields[1..][1..][1..] == [];
    assert Filter(p, fields) == (if p("image") then ["image"] else []) + Filter(p, fields[1..]);
    assert Filter(p, fields[1..]) == (if p("command") then ["command"] else []) + Filter(p, fields[1..][1..]);
    assert Filter(p, fields[1..][1..]) == if p("mounts") then ["mounts"] else [];
    assert UnsupportedFields(inp, runtime) == Filter(p, fields);
  }

  lemma NamedMeaning(inp: Inputs, runtime: Dictionary)
    ensures OwnProfileOf(inp, runtime) == Named(inp, runtime)
  {
    UnsetMeaning(runtime, "resource_profile");
  }

  lemma JudgeMeaning(inp: Inputs, sized: seq<Sized>, d: Deployment, profile: string)
    ensures var v := Judge(inp, sized, d);
      && (v.Serves? && v.profile == profile <==> Servable(inp, sized, d, profile))
      && (v.Serves? ==> v.name == inp.modelName(d, inp.unique))
  {
    hide TranslateLegacy, UnsupportedFields, OwnProfileOf, PickProfile, Strip, Carries, Unset, Named;
    var runtime := TranslateLegacy(inp, d.runtime);
    CustomMeaning(inp, runtime);
    NamedMeaning(inp, runtime);
    BlankMeaning(inp.isSpace, profile);
    if profile != "" {
      PickMeaning(Named(inp, runtime), d.minVram, sized, inp.default, profile);
    }
  }

  // ---------------------------------------------------------------------
  // The documents
  // ---------------------------------------------------------------------

  /** `d` is no younger than `e`; creation ties are broken by id. */
  ghost predicate NoYounger(d: Deployment, e: Deployment) {
    d.createdAt < e.createdAt || (d.createdAt == e.createdAt && NoLater(d.id, e.id))
  }

  /** `d` can be served as `doc`, and whoever else can be served under that name is no older. */
  ghost predicate Yields(inp: Inputs, sized: seq<Sized>, ds: seq<Deployment>, d: Deployment, doc: Doc) {
    && doc.name == inp.modelName(d, inp.unique) && doc.deployment == d.id
    && doc.spec == inp.modelSpec(d, doc.resourceProfile, doc.name)
    && Servable(inp, sized, d, doc.resourceProfile)
    && forall e <- ds, profile ::
         Servable(inp, sized, e, profile) && inp.modelName(e, inp.unique) == doc.name ==> NoYounger(d, e)
  }

  /** `d` keeps its name, and `doc` is its document. */
  ghost predicate KeptAs(inp: Inputs, sized: seq<Sized>, ds: seq<Deployment>, d: Deployment, doc: Doc) {
    Keeps(inp, sized, ds, d) && doc == DocOf(inp, d, Judge(inp, sized, d))
  }

  lemma KeepsMeaning(inp: Inputs, sized: seq<Sized>, ds: seq<Deployment>, d: Deployment, doc: Doc)
    ensures KeptAs(inp, sized, ds, d, doc) <==> Yields(inp, sized, ds, d, doc)
  {
    hide Judge, Servable;
    forall e, profile
      ensures Judge(inp, sized, e).Serves? && Judge(inp, sized, e).profile == profile
         <==> Servable(inp, sized, e, profile)
      ensures Judge(inp, sized, e).Serves? ==> Judge(inp, sized, e).name == inp.modelName(e, inp.unique)
      ensures OlderOrSame(d, e) <==> NoYounger(d, e)
    {
      JudgeMeaning(inp, sized, e, profile);
      StrLeMeaning(d.id, e.id);
    }
    forall e ensures Contends(inp, sized, e, doc.name) <==>
      inp.modelName(e, inp.unique) == doc.name && exists profile :: Servable(inp, sized, e, profile)
    {
      assert Judge(inp, sized, e).Serves? ==> Servable(inp, sized, e, Judge(inp, sized, e).profile);
    }
  }

  lemma KeeperHasDoc(inp: Inputs, sized: seq<Sized>, ordered: seq<Deployment>, r: Rendered, d: Deployment)
    requires Splits(inp, sized, ordered, r) && d in ordered && Keeps(inp, sized, ordered, d)
    ensures exists own <- r.docs ::
              KeptAs(inp, sized, ordered, d, own) && own.deployment == d.id && own.name == Judge(inp, sized, d).name
  {
    hide Judge, Keepers, Others;
    assert KeptAs(inp, sized, ordered, d, DocOf(inp, d, Judge(inp, sized, d)));
  }

  lemma KeepersKeep(inp: Inputs, sized: seq<Sized>, ordered: seq<Deployment>)
    ensures forall d :: d in Keepers(inp, sized, ordered) ==> d in ordered && Keeps(inp, sized, ordered, d)
  {
    FilterMembers(d => Keeps(inp, sized, ordered, d), ordered);
  }

  lemma DocAt(inp: Inputs, sized: seq<Sized>, ordered: seq<Deployment>, r: Rendered, i: nat)
    requires Splits(inp, sized, ordered, r) && i < |r.docs|
    ensures var keepers := Keepers(inp, sized, ordered);
      i < |keepers| && keepers[i] in ordered && Keeps(inp, sized, ordered, keepers[i])
      && r.docs[i].deployment == keepers[i].id
  {
    var keepers := Keepers(inp, sized, ordered);
    KeepersKeep(inp, sized, ordered);
    hide Judge, Keeps, DocOf, Others, Keepers;
    assert IdsOf(keepers)[i] == Map((x: Doc) => x.deployment, r.docs)[i] == r.docs[i].deployment;
    assert keepers[i] in keepers;
  }

  lemma DocIsOfKeeper(inp: Inputs, sized: seq<Sized>, ordered: seq<Deployment>, r: Rendered, doc: Doc)
    requires Splits(inp, sized, ordered, r) && UniqueIds(ordered) && doc in r.docs
    ensures exists d <- ordered :: KeptAs(inp, sized, ordered, d, doc)
  {
    hide Judge, Keeps, DocOf, Others, Keepers, UniqueIds, Splits, KeptAs;
    var i :| 0 <= i < |r.docs| && r.docs[i] == doc;
    DocAt(inp, sized, ordered, r, i);
    var d := Keepers(inp, sized, ordered)[i];
    KeeperHasDoc(inp, sized, ordered, r, d);
    var own :| own in r.docs && KeptAs(inp, sized, ordered, d, own) && own.deployment == d.id;
    var j :| 0 <= j < |r.docs| && r.docs[j] == own;
    DocAt(inp, sized, ordered, r, j);
    KeepersUnique(inp, sized, ordered, i, j);
  }

  lemma KeepersUnique(inp: Inputs, sized: seq<Sized>, ordered: seq<Deployment>, i: nat, j: nat)
    requires UniqueIds(ordered)
    requires i < |Keepers(inp, sized, ordered)| && j < |Keepers(inp, sized, ordered)|
    requires Keepers(inp, sized, ordered)[i].id == Keepers(inp, sized, ordered)[j].id
    ensures i == j
  {
    FilterUnique(d => Keeps(inp, sized, ordered, d), ordered);
  }

  lemma {:induction false} FilterUnique(p: Deployment -> bool, s: seq<Deployment>)
    requires UniqueIds(s)
    ensures UniqueIds(Filter(p, s))
  {
    if s != [] {
      var rest := Filter(p, s[1..]);
      FilterUnique(p, s[1..]);
      FilterMembers(p, s[1..]);
      forall i | 0 <= i < |rest| ensures rest[i].id != s[0].id {
        assert rest[i] in rest && rest[i] in s[1..];
      }
    }
  }

  /**
   Main result, on fields alone: the render's documents are those of the deployments that
   can be served and are the oldest of all that can be under their name.
   */
  lemma DocsExactly(inp: Inputs, sized: seq<Sized>, ds: seq<Deployment>, doc: Doc)
    requires forall i, j :: 0 <= i < j < |ds| ==> ds[i].id != ds[j].id
    ensures doc in Render(inp, sized, ds).docs <==> exists d <- ds :: Yields(inp, sized, ds, d, doc)
  {
    hide Judge, Render, Servable, Yields, KeptAs, Splits, UniqueIds, ByAge;
    var ordered, r := ByAge(ds), Render(inp, sized, ds);
    RenderIsExact(inp, sized, ds);
    UniqueIdsSorted(ds);
    PermutationMembers(ordered, ds);
    forall d ensures KeptAs(inp, sized, ordered, d, doc) <==> Yields(inp, sized, ds, d, doc) {
      KeepsMeaning(inp, sized, ordered, d, doc);
      YieldsOf(inp, sized, ordered, ds, d, doc);
    }
    forall d | d in ordered && KeptAs(inp, sized, ordered, d, doc) ensures doc in r.docs {
      KeptIsIn(inp, sized, ordered, r, d, doc);
    }
    if doc in r.docs {
      DocIsOfKeeper(inp, sized, ordered, r, doc);
    }
  }

  lemma KeptIsIn(inp: Inputs, sized: seq<Sized>, ordered: seq<Deployment>, r: Rendered, d: Deployment, doc: Doc)
    requires Splits(inp, sized, ordered, r) && d in ordered && KeptAs(inp, sized, ordered, d, doc)
    ensures doc in r.docs
  {}

  lemma YieldsOf(inp: Inputs, sized: seq<Sized>, a: seq<Deployment>, b: seq<Deployment>, d: Deployment, doc: Doc)
    requires forall e :: e in a <==> e in b
    ensures Yields(inp, sized, a, d, doc) <==> Yields(inp, sized, b, d, doc)
  {
    hide Servable;
  }

  lemma DocOfDeployment(inp: Inputs, sized: seq<Sized>, ds: seq<Deployment>, doc: Doc, d: Deployment)
    requires forall i, j :: 0 <= i < j < |ds| ==> ds[i].id != ds[j].id
    requires doc in Render(inp, sized, ds).docs && d in ds && doc.deployment == d.id
    ensures Yields(inp, sized, ds, d, doc)
  {
    DocsExactly(inp, sized, ds, doc);
    hide Render, Servable;
    var e :| e in ds && Yields(inp, sized, ds, e, doc);
    var i :| 0 <= i < |ds| && ds[i] == d;
    var j :| 0 <= j < |ds| && ds[j] == e;
  }

  /**
   Main result: the profile a Model carries. One its endpoint names is carried as it is;
   with none named and memory asked for, it is that of a least size that suffices, when
   there is one; else it is the default.
   */
  lemma ModelCarries(inp: Inputs, sized: seq<Sized>, ds: seq<Deployment>, doc: Doc, d: Deployment)
    requires forall i, j :: 0 <= i < j < |ds| ==> ds[i].id != ds[j].id
    requires doc in Render(inp, sized, ds).docs && d in ds && doc.deployment == d.id
    ensures var named := Named(inp, TranslateLegacy(inp, d.runtime));
      if named != "" then doc.resourceProfile == named
      else if d.minVram.Some? && d.minVram.value != 0.0 && exists s <- sized :: s.gib >= d.minVram.value then
        exists s <- sized :: s.name == doc.resourceProfile && s.gib >= d.minVram.value
          && forall o <- sized :: o.gib >= d.minVram.value ==>
               s.gib < o.gib || (s.gib == o.gib && NoLater(s.name, o.name))
      else inp.default == Some(doc.resourceProfile)
  {
    DocOfDeployment(inp, sized, ds, doc, d);
    hide Render, TranslateLegacy, Named;
  }

  /**
   Main result, from the cluster's nodes to the manifest: a Model whose endpoint asks for
   memory and names no profile can only land on nodes that have it, as far as they report
   their memory and any profile is large enough.
   */
  lemma ModelsLandOnLargeNodes(inp: Inputs, profiles: seq<Profile>, nodes: seq<Node>, ds: seq<Deployment>,
                               doc: Doc, d: Deployment, p: Profile, n: Node)
    requires forall i, j :: 0 <= i < j < |ds| ==> ds[i].id != ds[j].id
    requires forall i, j :: 0 <= i < j < |profiles| ==> profiles[i].name != profiles[j].name
    requires var sized := SizesOf(Sort((a, b) => ByName(a, b), profiles), nodes);
      && doc in Render(inp, sized, ds).docs
      && d.minVram.Some? && exists s <- sized :: s.gib >= d.minVram.value
    requires d in ds && doc.deployment == d.id && d.minVram.value != 0.0
    requires Named(inp, TranslateLegacy(inp, d.runtime)) == ""
    requires p in profiles && p.name == doc.resourceProfile
    requires n in nodes && n.memoryGib.Some? && n.memoryGib.value != 0.0
    requires forall k <- p.selector :: k in n.labels && n.labels[k] == p.selector[k]
    ensures n.memoryGib.value >= d.minVram.value
  {
    var sized := SizesOf(Sort((a, b) => ByName(a, b), profiles), nodes);
    ModelCarries(inp, sized, ds, doc, d);
    hide Render, Sort, SizesOf, Named, TranslateLegacy;
    var s :| s in sized && s.name == doc.resourceProfile && s.gib >= d.minVram.value;
    SizesExactly(profiles, nodes, s);
    SelectedNodeBound(profiles, nodes, s, p, n);
  }

  /** A profile has a size exactly when it names labels, and then the least memory a node with them reports. */
  lemma SizesExactly(profiles: seq<Profile>, nodes: seq<Node>, s: Sized)
    ensures s in SizesOf(Sort((a, b) => ByName(a, b), profiles), nodes) <==> exists p <- profiles ::
      p.name == s.name && LeastOf(p, nodes, s.gib)
  {
    var ordered := Sort((a, b) => ByName(a, b), profiles);
    hide Sort, SizesOf;
    NameOrder();
    SortSorts((a, b) => ByName(a, b), profiles);
    SizesMeaning(ordered, nodes);
    forall p ensures SmallestSelected(p, nodes, s.gib) <==> LeastOf(p, nodes, s.gib) {
      LeastOfMeaning(p, nodes, s.gib);
    }
  }

  ghost predicate CanLand(p: Profile, n: Node) {
    && n.memoryGib.Some? && n.memoryGib.value != 0.0
    && forall k <- p.selector :: k in n.labels && n.labels[k] == p.selector[k]
  }

  ghost predicate LeastOf(p: Profile, nodes: seq<Node>, gib: real) {
    && p.selector != map[]
    && (exists n <- nodes :: CanLand(p, n) && n.memoryGib.value == gib)
    && forall n <- nodes :: CanLand(p, n) ==> gib <= n.memoryGib.value
  }

  lemma LeastOfMeaning(p: Profile, nodes: seq<Node>, gib: real)
    ensures SmallestSelected(p, nodes, gib) <==> LeastOf(p, nodes, gib)
  {
    assert forall n :: CanLand(p, n) <==> Reports(n) && Selects(p, n);
  }

  lemma SelectedNodeBound(profiles: seq<Profile>, nodes: seq<Node>, s: Sized, p: Profile, n: Node)
    requires forall i, j :: 0 <= i < j < |profiles| ==> profiles[i].name != profiles[j].name
    requires exists q <- profiles :: q.name == s.name && LeastOf(q, nodes, s.gib)
    requires p in profiles && p.name == s.name && n in nodes && CanLand(p, n)
    ensures s.gib <= n.memoryGib.value
  {
    var q :| q in profiles && q.name == s.name && LeastOf(q, nodes, s.gib);
    var i :| 0 <= i < |profiles| && profiles[i] == p;
    var j :| 0 <= j < |profiles| && profiles[j] == q;
  }

  // ---------------------------------------------------------------------
  // The refusals, and who answers for an endpoint
  // ---------------------------------------------------------------------

  /** `failure` is why `d` has no document among `docs`. */
  ghost predicate WhyNot(inp: Inputs, sized: seq<Sized>, docs: seq<Doc>, d: Deployment, failure: Failure) {
    var again := TranslateLegacy(inp, TranslateLegacy(inp, d.runtime));
    match failure
    case UnsupportedEngine(engine) => engine == d.engine && engine != "vllm"
    case CustomLaunch(field) =>
      d.engine == "vllm" && !Unset(again, field)
      && field == if !Unset(again, "image") then "image" else if !Unset(again, "command") then "command" else "mounts"
    case NoProfile(why) =>
      && d.engine == "vllm" && Unset(again, "image") && Unset(again, "command") && Unset(again, "mounts")
      && (forall profile :: !Servable(inp, sized, d, profile))
      && (why.Some? <==> d.minVram.Some? && d.minVram.value != 0.0)
    case NameTaken(name, holder) =>
      && (exists profile :: Servable(inp, sized, d, profile)) && name == inp.modelName(d, inp.unique)
      && exists doc <- docs :: doc.name == name && doc.deployment == holder
  }

  /** Every error is the error of a deployment, for the reason it has; every name used is a document's. */
  ghost predicate Explained(inp: Inputs, sized: seq<Sized>, ordered: seq<Deployment>, r: Rendered) {
    && (forall e <- r.errors :: exists d <- ordered :: d.id == e.id && WhyNot(inp, sized, r.docs, d, e.failure))
    && (forall n <- r.models :: exists doc <- r.docs :: doc.name == n && doc.deployment == r.models[n])
  }

  lemma FailureMeaning(inp: Inputs, sized: seq<Sized>, docs: seq<Doc>, d: Deployment)
    requires Judge(inp, sized, d).Fails?
    ensures WhyNot(inp, sized, docs, d, Judge(inp, sized, d).failure)
  {
    hide TranslateLegacy, UnsupportedFields, OwnProfileOf, PickProfile, Strip, Servable, Unset;
    CustomMeaning(inp, TranslateLegacy(inp, d.runtime));
    forall profile ensures !Servable(inp, sized, d, profile) {
      JudgeMeaning(inp, sized, d, profile);
    }
  }

  lemma ExplainedGrows(inp: Inputs, sized: seq<Sized>, older: seq<Deployment>, d: Deployment, docs: seq<Doc>,
                       more: seq<Doc>, e: RenderError)
    requires exists x <- older :: x.id == e.id && WhyNot(inp, sized, docs, x, e.failure)
    requires docs <= more
    ensures exists x <- older + [d] :: x.id == e.id && WhyNot(inp, sized, more, x, e.failure)
  {
    hide Servable, TranslateLegacy, Unset;
    var x :| x in older && x.id == e.id && WhyNot(inp, sized, docs, x, e.failure);
    assert x in older + [d] && forall doc <- docs :: doc in more;
    assert WhyNot(inp, sized, more, x, e.failure);
  }

  lemma RefusedExplained(inp: Inputs, sized: seq<Sized>, older: seq<Deployment>, r: Rendered, noted: Rendered,
                         d: Deployment, failure: Failure)
    requires Explained(inp, sized, older, r) && WhyNot(inp, sized, r.docs, d, failure)
    requires noted == r.(reasons := noted.reasons)
    ensures Explained(inp, sized, older + [d], Refused(noted, d, failure))
  {
    hide WhyNot;
    var after := Refused(noted, d, failure);
    forall e | e in after.errors
      ensures exists x <- older + [d] :: x.id == e.id && WhyNot(inp, sized, after.docs, x, e.failure)
    {
      if e in r.errors {
        ExplainedGrows(inp, sized, older, d, r.docs, r.docs, e);
      } else {
        assert d in older + [d] && d.id == e.id;
      }
    }
  }

  lemma NextExplained(inp: Inputs, sized: seq<Sized>, older: seq<Deployment>, r: Rendered, d: Deployment)
    requires Explained(inp, sized, older, r)
    ensures Explained(inp, sized, older + [d], RenderNext(inp, sized, r, d))
  {
    var v, after := Judge(inp, sized, d), RenderNext(inp, sized, r, d);
    if v.Fails? {
      FailureMeaning(inp, sized, r.docs, d);
      hide Judge, WhyNot, Explained;
      RefusedExplained(inp, sized, older, r, r, d, v.failure);
    } else {
      JudgeMeaning(inp, sized, d, v.profile);
      hide Judge, Servable, DocOf, WithRequests;
      if v.name in r.models {
        assert WhyNot(inp, sized, r.docs, d, NameTaken(v.name, r.models[v.name]));
        hide WhyNot, Explained;
        RefusedExplained(inp, sized, older, r, r.(reasons := r.reasons[d.id := v.why]), d,
                         NameTaken(v.name, r.models[v.name]));
      } else {
        AcceptedExplained(inp, sized, older, r, d, v, after);
      }
    }
  }

  lemma AcceptedExplained(inp: Inputs, sized: seq<Sized>, older: seq<Deployment>, r: Rendered, d: Deployment,
                          v: Verdict, after: Rendered)
    requires Explained(inp, sized, older, r) && v.Serves? && after.errors == r.errors
    requires after.docs == r.docs + [DocOf(inp, d, v)] && after.models == r.models[v.name := d.id]
    ensures Explained(inp, sized, older + [d], after)
  {
    hide WhyNot;
    forall e | e in after.errors
      ensures exists x <- older + [d] :: x.id == e.id && WhyNot(inp, sized, after.docs, x, e.failure)
    {
      ExplainedGrows(inp, sized, older, d, r.docs, after.docs, e);
    }
    var doc := DocOf(inp, d, v);
    assert doc in after.docs && doc.name == v.name && doc.deployment == d.id;
    forall n | n in after.models ensures exists x <- after.docs :: x.name == n && x.deployment == after.models[n] {
      if n != v.name {
        var x :| x in r.docs && x.name == n && x.deployment == r.models[n];
        assert x in after.docs;
      }
    }
  }

  lemma {:induction false} OrderedExplained(inp: Inputs, sized: seq<Sized>, ordered: seq<Deployment>)
    ensures Explained(inp, sized, ordered, RenderOrdered(inp, sized, ordered))
  {
    hide Explained, RenderNext;
    if ordered == [] {
      NothingExplained(inp, sized);
    } else {
      OrderedExplained(inp, sized, Init(ordered));
      NextExplained(inp, sized, Init(ordered), RenderOrdered(inp, sized, Init(ordered)), Last(ordered));
      assert Init(ordered) + [Last(ordered)] == ordered;
    }
  }

  lemma NothingExplained(inp: Inputs, sized: seq<Sized>)
    ensures Explained(inp, sized, [], NOTHING)
  {}

  /** Main result: every error names a deployment and the reason it was refused for, and no refusal is silent. */
  lemma RefusalsExactly(inp: Inputs, sized: seq<Sized>, ds: seq<Deployment>)
    requires forall i, j :: 0 <= i < j < |ds| ==> ds[i].id != ds[j].id
    ensures var r := Render(inp, sized, ds);
      && (forall e <- r.errors :: exists d <- ds :: d.id == e.id && WhyNot(inp, sized, r.docs, d, e.failure))
      && (forall d <- ds :: (exists e <- r.errors :: e.id == d.id) <==> d.id in r.unrenderable)
      && (forall d <- ds :: (exists doc <- r.docs :: doc.deployment == d.id) <==> d.id !in r.unrenderable)
  {
    var ordered, r := ByAge(ds), Render(inp, sized, ds);
    OrderedExplained(inp, sized, ordered);
    RenderIsExact(inp, sized, ds);
    UniqueIdsSorted(ds);
    PermutationMembers(ordered, ds);
    hide Render, ByAge, UniqueIds, WhyNot, Judge, Keeps;
    forall d | d in ds
      ensures (exists e <- r.errors :: e.id == d.id) <==> d.id in r.unrenderable
      ensures (exists doc <- r.docs :: doc.deployment == d.id) <==> d.id !in r.unrenderable
    {
      ListedOnce(inp, sized, ordered, r, d);
    }
  }

  lemma ListedOnce(inp: Inputs, sized: seq<Sized>, ordered: seq<Deployment>, r: Rendered, d: Deployment)
    requires Splits(inp, sized, ordered, r) && UniqueIds(ordered) && d in ordered
    ensures (exists e <- r.errors :: e.id == d.id) <==> d.id in r.unrenderable
    ensures (exists doc <- r.docs :: doc.deployment == d.id) <==> Keeps(inp, sized, ordered, d)
  {
    hide Judge, Keeps, Keepers, Others, DocOf, UniqueIds;
    var ids := Map((e: RenderError) => e.id, r.errors);
    assert d.id in ids <==> exists e <- r.errors :: e.id == d.id;
    if Keeps(inp, sized, ordered, d) {
      KeeperHasDoc(inp, sized, ordered, r, d);
    }
    if exists doc <- r.docs :: doc.deployment == d.id {
      var i :| 0 <= i < |r.docs| && r.docs[i].deployment == d.id;
      DocAt(inp, sized, ordered, r, i);
      SameId(ordered, d, Keepers(inp, sized, ordered)[i]);
    }
  }

  lemma SameId(ds: seq<Deployment>, a: Deployment, b: Deployment)
    requires UniqueIds(ds) && a in ds && b in ds && a.id == b.id
    ensures a == b
  {
    var i :| 0 <= i < |ds| && ds[i] == a;
    var j :| 0 <= j < |ds| && ds[j] == b;
  }

  /** `d` has the document `doc` and serves the endpoint. */
  ghost predicate Answers(ds: seq<Deployment>, docs: seq<Doc>, e: string, d: Deployment, doc: Doc) {
    d in ds && doc in docs && doc.deployment == d.id && e in d.served
  }

  /** Main result: an endpoint is routed to the Model of the youngest deployment that has one and serves it. */
  lemma RequestsExactly(inp: Inputs, sized: seq<Sized>, ds: seq<Deployment>, e: string)
    requires forall i, j :: 0 <= i < j < |ds| ==> ds[i].id != ds[j].id
    ensures var r := Render(inp, sized, ds);
      && (e in r.requestNames <==> exists d, doc :: Answers(ds, r.docs, e, d, doc))
      && (e in r.requestNames ==> exists d, doc ::
            Answers(ds, r.docs, e, d, doc) && r.requestNames[e] == doc.name
            && forall d', doc' :: Answers(ds, r.docs, e, d', doc') ==> NoYounger(d', d))
  {
    var ordered, r := ByAge(ds), Render(inp, sized, ds);
    RenderIsExact(inp, sized, ds);
    AgeOrder();
    SortSorts((a, b) => OlderOrSame(a, b), ds);
    UniqueIdsSorted(ds);
    PermutationMembers(ordered, ds);
    RequestsGoToYoungest(inp, sized, ordered, e);
    hide Render, ByAge, UniqueIds, Judge, Keeps, Routed, Splits;
    RoutedOnDocs(inp, sized, ordered, r, e);
    assert forall d, doc :: Answers(ds, r.docs, e, d, doc) <==> Answers(ordered, r.docs, e, d, doc);
  }

  lemma RoutedOnDocs(inp: Inputs, sized: seq<Sized>, ordered: seq<Deployment>, r: Rendered, e: string)
    requires Splits(inp, sized, ordered, r) && UniqueIds(ordered) && Routed(inp, sized, ordered, r.requestNames, e)
    ensures e in r.requestNames <==> exists d, doc :: Answers(ordered, r.docs, e, d, doc)
    ensures e in r.requestNames ==> exists d, doc ::
      Answers(ordered, r.docs, e, d, doc) && r.requestNames[e] == doc.name
      && forall d', doc' :: Answers(ordered, r.docs, e, d', doc') ==> NoYounger(d', d)
  {
    forall d, doc ensures Answers(ordered, r.docs, e, d, doc) ==> Keeps(inp, sized, ordered, d) {
      if Answers(ordered, r.docs, e, d, doc) {
        ListedOnce(inp, sized, ordered, r, d);
      }
    }
    hide Judge, Splits, UniqueIds, OlderOrSame, NoYounger;
    if d :| d in ordered && Keeps(inp, sized, ordered, d) && e in d.served {
      KeeperHasDoc(inp, sized, ordered, r, d);
      var own :| own in r.docs && own.deployment == d.id;
      assert Answers(ordered, r.docs, e, d, own);
    }
    if e in r.requestNames {
      YoungestAnswers(inp, sized, ordered, r, e);
    }
  }

  lemma YoungestAnswers(inp: Inputs, sized: seq<Sized>, ordered: seq<Deployment>, r: Rendered, e: string)
    requires Splits(inp, sized, ordered, r) && Routed(inp, sized, ordered, r.requestNames, e) && e in r.requestNames
    requires forall d, doc :: Answers(ordered, r.docs, e, d, doc) ==> Keeps(inp, sized, ordered, d)
    ensures exists d, doc ::
      Answers(ordered, r.docs, e, d, doc) && r.requestNames[e] == doc.name
      && forall d', doc' :: Answers(ordered, r.docs, e, d', doc') ==> NoYounger(d', d)
  {
    var d :| d in ordered && Keeps(inp, sized, ordered, d) && e in d.served
      && r.requestNames[e] == Judge(inp, sized, d).name
      && forall x :: x in ordered && Keeps(inp, sized, ordered, x) && e in x.served ==> OlderOrSame(x, d);
    hide Judge, Keeps, Splits, OlderOrSame, NoYounger, Routed;
    KeeperHasDoc(inp, sized, ordered, r, d);
    var own :| own in r.docs && own.deployment == d.id && own.name == Judge(inp, sized, d).name;
    forall d', doc' | Answers(ordered, r.docs, e, d', doc') ensures NoYounger(d', d) {
      AgeMeaning(d', d);
    }
    assert Answers(ordered, r.docs, e, d, own);
  }

  lemma AgeMeaning(a: Deployment, b: Deployment)
    ensures OlderOrSame(a, b) <==> NoYounger(a, b)
  {
    StrLeMeaning(a.id, b.id);
  }

  /** Which rule chose the profile. */
  ghost predicate Because(inp: Inputs, sized: seq<Sized>, d: Deployment, why: Reason) {
    if Named(inp, TranslateLegacy(inp, d.runtime)) != "" then why == OwnProfile
    else if d.minVram.Some? && d.minVram.value != 0.0 && exists s <- sized :: s.gib >= d.minVram.value then
      exists s <- sized :: LeastFitting(sized, d.minVram.value, s) && why == BySize(d.minVram.value, s)
    else why == Default
  }

  lemma BecauseMeaning(inp: Inputs, sized: seq<Sized>, d: Deployment)
    requires Judge(inp, sized, d).Serves?
    ensures Because(inp, sized, d, Judge(inp, sized, d).why)
  {
    hide TranslateLegacy, UnsupportedFields, OwnProfileOf, Strip, Unset, Named, Fitting;
    var runtime := TranslateLegacy(inp, d.runtime);
    NamedMeaning(inp, runtime);
    if Named(inp, runtime) == "" && d.minVram.Some? && d.minVram.value != 0.0 {
      FittingMeaning(d.minVram.value, sized);
      if exists s <- sized :: s.gib >= d.minVram.value {
        LeastMeaning(d.minVram.value, sized, inp.default);
      } else {
        EmptyOrMember(Fitting(d.minVram.value, sized));
      }
    }
  }

  /** Reasons are noted for the deployments that can be served, name taken or not, and each is the rule that chose. */
  ghost predicate Noted(inp: Inputs, sized: seq<Sized>, ordered: seq<Deployment>, reasons: map<string, Reason>) {
    && (forall id :: id in reasons <==> exists d <- ordered, profile :: Servable(inp, sized, d, profile) && d.id == id)
    && (forall d <- ordered :: d.id in reasons ==> Because(inp, sized, d, reasons[d.id]))
  }

  lemma NotedNext(inp: Inputs, sized: seq<Sized>, older: seq<Deployment>, r: Rendered, d: Deployment)
    requires Noted(inp, sized, older, r.reasons) && UniqueIds(older + [d])
    ensures Noted(inp, sized, older + [d], RenderNext(inp, sized, r, d).reasons)
  {
    var v, after := Judge(inp, sized, d), RenderNext(inp, sized, r, d).reasons;
    assert after == if v.Fails? then r.reasons else r.reasons[d.id := v.why];
    hide Judge, Because, Servable, RenderNext, Noted;
    forall profile ensures v.Serves? && v.profile == profile <==> Servable(inp, sized, d, profile) {
      JudgeMeaning(inp, sized, d, profile);
    }
    if v.Serves? {
      BecauseMeaning(inp, sized, d);
      assert Servable(inp, sized, d, v.profile);
    }
    NotedIds(inp, sized, older, r.reasons, d, v, after);
    NotedWhy(inp, sized, older, r.reasons, d, v, after);
    NotedBoth(inp, sized, older + [d], after);
  }

  lemma NotedBoth(inp: Inputs, sized: seq<Sized>, ordered: seq<Deployment>, reasons: map<string, Reason>)
    requires forall id :: id in reasons <==> exists d <- ordered, profile ::
      Servable(inp, sized, d, profile) && d.id == id
    requires forall d <- ordered :: d.id in reasons ==> Because(inp, sized, d, reasons[d.id])
    ensures Noted(inp, sized, ordered, reasons)
  {}

  lemma NotedWhy(inp: Inputs, sized: seq<Sized>, older: seq<Deployment>, reasons: map<string, Reason>, d: Deployment,
                 v: Verdict, after: map<string, Reason>)
    requires Noted(inp, sized, older, reasons) && UniqueIds(older + [d])
    requires after == if v.Fails? then reasons else reasons[d.id := v.why]
    requires v.Serves? ==> Because(inp, sized, d, v.why)
    ensures forall e <- older + [d] :: e.id in after ==> Because(inp, sized, e, after[e.id])
  {
    hide Because, Servable;
    var all := older + [d];
    assert all[|older|] == d && forall i :: 0 <= i < |older| ==> all[i] == older[i];
    assert forall e <- older :: e.id != d.id;
  }

  lemma NotedIds(inp: Inputs, sized: seq<Sized>, older: seq<Deployment>, reasons: map<string, Reason>, d: Deployment,
                 v: Verdict, after: map<string, Reason>)
    requires Noted(inp, sized, older, reasons)
    requires after == if v.Fails? then reasons else reasons[d.id := v.why]
    requires v.Serves? <==> exists profile :: Servable(inp, sized, d, profile)
    ensures forall id :: id in after <==>
      exists e <- older + [d], profile :: Servable(inp, sized, e, profile) && e.id == id
  {
    hide Servable, Because;
    assert forall e :: e in older + [d] <==> e in older || e == d;
  }

  lemma {:induction false} OrderedNoted(inp: Inputs, sized: seq<Sized>, ordered: seq<Deployment>)
    requires UniqueIds(ordered)
    ensures Noted(inp, sized, ordered, RenderOrdered(inp, sized, ordered).reasons)
  {
    hide Servable, Because, RenderNext;
    if ordered != [] {
      assert Init(ordered) + [Last(ordered)] == ordered;
      OrderedNoted(inp, sized, Init(ordered));
      NotedNext(inp, sized, Init(ordered), RenderOrdered(inp, sized, Init(ordered)), Last(ordered));
    }
  }

  lemma ReasonsExactly(inp: Inputs, sized: seq<Sized>, ds: seq<Deployment>)
    requires forall i, j :: 0 <= i < j < |ds| ==> ds[i].id != ds[j].id
    ensures Noted(inp, sized, ds, Render(inp, sized, ds).reasons)
  {
    hide Servable, Because;
    AgeOrder();
    SortSorts((a, b) => OlderOrSame(a, b), ds);
    UniqueIdsSorted(ds);
    OrderedNoted(inp, sized, ByAge(ds));
  }

  /** The sizes are read exactly when a deployment asks for memory and its runtime names no profile. */
  lemma SizingNeededExactly(inp: Inputs, desired: seq<Deployment>)
    ensures NeedsSizing(inp, desired) <==>
      exists d <- desired :: d.minVram.Some? && d.minVram.value != 0.0 && Named(inp, d.runtime) == ""
  {
    forall d: Deployment ensures OwnProfileOf(inp, d.runtime) == Named(inp, d.runtime) {
      NamedMeaning(inp, d.runtime);
    }
    hide Named, OwnProfileOf;
  }
}

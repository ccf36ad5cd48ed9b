/** Choosing a KubeAI resource profile by GPU memory. */
module KubeProfiles {
  import opened Sequences
  import opened Ordering

  /** One node's GPU facts; the memory is absent when the node does not report it. */
  datatype Node = Node(memoryGib: Option<real>, labels: map<string, string>)

  /** A chart profile: its name and the labels its `nodeSelector` asks for. */
  datatype Profile = Profile(name: string, selector: map<string, string>)

  datatype Sized = Sized(name: string, gib: real)

  predicate Reports(n: Node) {
    n.memoryGib.Some? && n.memoryGib.value != 0.0
  }

  predicate Selects(p: Profile, n: Node) {
    forall k :: k in p.selector.Keys ==> k in n.labels && n.labels[k] == p.selector[k]
  }

  /** The memory of the nodes a profile selects, as far as they report it. */
  function Found(p: Profile, nodes: seq<Node>): seq<real> {
    if nodes == [] then []
    else (if Reports(nodes[0]) && Selects(p, nodes[0]) then [nodes[0].memoryGib.value] else [])
         + Found(p, nodes[1..])
  }

  function Minimum(s: seq<real>): (m: real)
    requires s != []
    ensures m in s && forall x :: x in s ==> m <= x
  {
    if |s| == 1 then s[0] else
      var rest := Minimum(s[1..]);
      assert s == [s[0]] + s[1..];
      if s[0] <= rest then s[0] else rest
  }

  predicate ByName(a: Profile, b: Profile) {
    StrLe(a.name, b.name)
  }

  function SizesOf(profiles: seq<Profile>, nodes: seq<Node>): seq<Sized> {
    if profiles == [] then [] else
      var p := Init(profiles);
      var found := Found(Last(profiles), nodes);
      if Last(profiles).selector == map[] || found == [] then SizesOf(p, nodes)
      else SizesOf(p, nodes) + [Sized(Last(profiles).name, Minimum(found))]
  }

  method SizedProfiles(profiles: seq<Profile>, nodes: seq<Node>) returns (sizes: seq<Sized>)
    ensures sizes == SizesOf(Sort((a, b) => ByName(a, b), profiles), nodes)
  {
    var ordered := Sort((a, b) => ByName(a, b), profiles);
    sizes := [];
    for i := 0 to |ordered|
      invariant sizes == SizesOf(ordered[..i], nodes)
    {
      var p := ordered[i];
      assert Init(ordered[..i + 1]) == ordered[..i];
      if p.selector != map[] {
        var found := Found(p, nodes);
        if found != [] {
          sizes := sizes + [Sized(p.name, Minimum(found))];
        }
      }
    }
    assert ordered[..|ordered|] == ordered;
  }

  lemma {:induction false} FoundMeaning(p: Profile, nodes: seq<Node>)
    ensures forall n :: n in nodes && Reports(n) && Selects(p, n) ==> n.memoryGib.value in Found(p, nodes)
    ensures forall x :: x in Found(p, nodes) ==>
      exists n :: n in nodes && Reports(n) && Selects(p, n) && n.memoryGib.value == x
  {
    if nodes != [] {
      FoundMeaning(p, nodes[1..]);
      assert nodes == [nodes[0]] + nodes[1..];
    }
  }

  /** `gib` is exactly what the least reporting node that `p` selects has. */
  ghost predicate SmallestSelected(p: Profile, nodes: seq<Node>, gib: real) {
    p.selector != map[]
    && (forall n :: n in nodes && Reports(n) && Selects(p, n) ==> gib <= n.memoryGib.value)
    && (exists n :: n in nodes && Reports(n) && Selects(p, n) && n.memoryGib.value == gib)
  }

  /** A profile is sized exactly when it names labels some reporting node carries. */
  lemma {:induction false} SizesMeaning(profiles: seq<Profile>, nodes: seq<Node>)
    ensures forall s :: s in SizesOf(profiles, nodes) <==>
      exists p :: p in profiles && p.name == s.name && SmallestSelected(p, nodes, s.gib)
  {
    if profiles != [] {
      SizesMeaning(Init(profiles), nodes);
      var last := Last(profiles);
      FoundMeaning(last, nodes);
      assert profiles == Init(profiles) + [last];
      forall s ensures s in SizesOf(profiles, nodes) <==>
        exists p :: p in profiles && p.name == s.name && SmallestSelected(p, nodes, s.gib)
      {
        LastSize(last, nodes, s);
      }
    }
  }

  lemma LastSize(p: Profile, nodes: seq<Node>, s: Sized)
    ensures SmallestSelected(p, nodes, s.gib)
      <==> p.selector != map[] && Found(p, nodes) != [] && s.gib == Minimum(Found(p, nodes))
  {
    FoundMeaning(p, nodes);
  }

  // ---------------------------------------------------------------------
  // Picking one
  // ---------------------------------------------------------------------

  datatype Reason =
    | OwnProfile
    | BySize(request: real, chosen: Sized)
    | NothingFits(request: real, known: seq<Sized>)
    | Default

  datatype Choice = Choice(profile: Option<string>, why: Reason)

  /** By size, then by name. */
  predicate SizeLe(a: Sized, b: Sized) {
    a.gib < b.gib || (a.gib == b.gib && StrLe(a.name, b.name))
  }

  function Fitting(request: real, sized: seq<Sized>): seq<Sized> {
    Sort((a, b) => SizeLe(a, b), Filter((s: Sized) => s.gib >= request, sized))
  }

  /** `""` stands for an endpoint that names no profile of its own. */
  function PickProfile(own: string, request: Option<real>, sized: seq<Sized>, default: Option<string>): Choice {
    if own != "" then Choice(Some(own), OwnProfile)
    else if request.Some? && request.value != 0.0 then
      var fitting := Fitting(request.value, sized);
      if fitting != [] then Choice(Some(fitting[0].name), BySize(request.value, fitting[0]))
      else if default.None? || default.value == "" then
        Choice(None, NothingFits(request.value, Sort((a: Sized, b: Sized) => StrLe(a.name, b.name), sized)))
      else Choice(default, Default)
    else Choice(default, Default)
  }

  lemma SizeOrder()
    ensures TotalPreorder((a, b) => SizeLe(a, b))
    ensures forall a, b :: SizeLe(a, b) && SizeLe(b, a) ==> a == b
  {
    forall a, b ensures SizeLe(a, b) || SizeLe(b, a)
      ensures SizeLe(a, b) && SizeLe(b, a) ==> a == b
    {
      StrLeTotal(a.name, b.name);
    }
    forall a, b, c | SizeLe(a, b) && SizeLe(b, c) ensures SizeLe(a, c) {
      if a.gib == b.gib && b.gib == c.gib {
        StrLeTrans(a.name, b.name, c.name);
      }
    }
  }

  lemma FittingMeaning(request: real, sized: seq<Sized>)
    ensures forall s :: s in Fitting(request, sized) <==> s in sized && s.gib >= request
    ensures forall s :: s in sized && s.gib >= request ==>
              Fitting(request, sized) != [] && SizeLe(Fitting(request, sized)[0], s)
  {
    SizeOrder();
    FilterMembers((s: Sized) => s.gib >= request, sized);
    var fitting := Fitting(request, sized);
    SortSorts((a, b) => SizeLe(a, b), Filter((s: Sized) => s.gib >= request, sized));
    forall s | s in sized && s.gib >= request ensures fitting != [] && SizeLe(fitting[0], s) {
      assert s in fitting;
      var i :| 0 <= i < |fitting| && fitting[i] == s;
      StrLeTotal(s.name, s.name);
      assert i > 0 ==> SizeLe(fitting[0], fitting[i]);
    }
  }

  /** The profile chosen by size is the smallest that fits, and among equals the first by name. */
  lemma PickIsSmallest(request: real, sized: seq<Sized>, default: Option<string>)
    requires request != 0.0
    ensures var choice := PickProfile("", Some(request), sized, default);
      if exists s :: s in sized && s.gib >= request then
        && choice.why.BySize? && choice.profile == Some(choice.why.chosen.name)
        && choice.why.chosen in sized && choice.why.chosen.gib >= request
        && forall s :: s in sized && s.gib >= request ==> SizeLe(choice.why.chosen, s)
      else !choice.why.BySize?
  {
    FittingMeaning(request, sized);
    var fitting := Fitting(request, sized);
    assert fitting != [] ==> fitting[0] in fitting;
  }

  /**
   Main result: from the cluster's nodes to the choice, every node the chosen profile
   can land on that reports its memory has at least what was asked.
   */
  lemma ChosenNodesAreLargeEnough(profiles: seq<Profile>, nodes: seq<Node>, own: string, request: Option<real>,
                                  default: Option<string>, p: Profile, n: Node)
    requires Distinct(Map((q: Profile) => q.name, profiles)) && p in profiles
    requires var sized := SizesOf(Sort((a, b) => ByName(a, b), profiles), nodes);
      var choice := PickProfile(own, request, sized, default);
      choice.why.BySize? && p.name == choice.why.chosen.name
    requires n in nodes && Reports(n) && Selects(p, n)
    ensures request.Some? && n.memoryGib.value >= request.value
  {
    var ordered := Sort((a, b) => ByName(a, b), profiles);
    var sized := SizesOf(ordered, nodes);
    var chosen := PickProfile(own, request, sized, default).why.chosen;
    hide Sort, SizesOf, Fitting, Distinct, Reports, Selects;
    NameOrder();
    SortSorts((a, b) => ByName(a, b), profiles);
    PickIsSmallest(request.value, sized, default);
    SizesMeaning(ordered, nodes);
    var q :| q in ordered && q.name == chosen.name && SmallestSelected(q, nodes, chosen.gib);
    SameName(profiles, p, q);
  }

  lemma SameName(profiles: seq<Profile>, p: Profile, q: Profile)
    requires Distinct(Map((r: Profile) => r.name, profiles)) && p in profiles && q in profiles && p.name == q.name
    ensures p == q
  {
    var i :| 0 <= i < |profiles| && profiles[i] == p;
    var j :| 0 <= j < |profiles| && profiles[j] == q;
    var names := Map((r: Profile) => r.name, profiles);
    assert names[i] == names[j];
  }

  lemma NameOrder()
    ensures TotalPreorder((a, b) => ByName(a, b))
  {
    forall a, b ensures ByName(a, b) || ByName(b, a) {
      StrLeTotal(a.name, b.name);
    }
    forall a, b, c | ByName(a, b) && ByName(b, c) ensures ByName(a, c) {
      StrLeTrans(a.name, b.name, c.name);
    }
  }

  /** Raising the request never chooses a smaller profile, nor turns a miss into a hit. */
  lemma LargerRequestLargerProfile(low: real, high: real, sized: seq<Sized>, default: Option<string>)
    requires low <= high && low != 0.0 && high != 0.0
    ensures var a := PickProfile("", Some(low), sized, default);
      var b := PickProfile("", Some(high), sized, default);
      b.why.BySize? ==> a.why.BySize? && SizeLe(a.why.chosen, b.why.chosen)
  {
    PickIsSmallest(low, sized, default);
    PickIsSmallest(high, sized, default);
  }

  /** The order in which the sizes were read does not matter. */
  lemma PickForgetsOrder(request: real, a: seq<Sized>, b: seq<Sized>)
    requires multiset(a) == multiset(b)
    ensures Fitting(request, a) == Fitting(request, b)
  {
    SizeOrder();
    FilterOfPermutation((s: Sized) => s.gib >= request, a, b);
    SortOfPermutation((x, y) => SizeLe(x, y), Filter((s: Sized) => s.gib >= request, a),
                      Filter((s: Sized) => s.gib >= request, b));
  }
}

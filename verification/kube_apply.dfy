/**
 Converging the cluster to the last render: the render writes the manifest and the
 sidecar, apply sends the manifest to the cluster, then deletes the managed Models the
 sidecar does not name, once the gateway let go of their routes.
 */
module KubeApply {
  import opened Sequences
  import opened Ordering
  import opened StringMeaning
  import opened KubeProfiles
  import opened KubeRender

  /** A Model on the cluster: whether it carries the managed label, and its deployment label. */
  datatype Model = Model(managed: bool, deployment: string)

  type Cluster = map<string, Model>

  /** The two files of the state directory, absent until first written. */
  datatype Disk = Disk(manifest: Option<seq<Doc>>, sidecar: Option<map<string, string>>)

  datatype Event = Applied(name: string) | Retired(ok: bool) | Deleted(name: string) | GatewayConverged | GatewayDown

  /** `detail` is set when departing routes could not be removed. */
  datatype ApplyResult = ApplyResult(runtime: bool, routes: bool, detail: bool)

  datatype Outcome = Done(result: ApplyResult) | Raised

  /**
   What the outside world does to one apply: kubectl fails having missed some documents,
   the listing fails or comes in some order, the gateway refuses to retire routes, a
   delete fails after some others, or the gateway's own apply fails or reports.
   */
  datatype World = World(
    missed: Option<set<string>>,
    listing: Option<seq<string>>,
    retires: bool,
    deleteFailsAfter: Option<nat>,
    gateway: Option<ApplyResult>)

  datatype State = Snapshot(disk: Disk, cluster: Cluster, events: seq<Event>, hasGateway: bool)

  // ---------------------------------------------------------------------
  // kubectl
  // ---------------------------------------------------------------------

  /** `kubectl apply`: each document creates or replaces the Model of its name. */
  function ApplyDocs(cluster: Cluster, docs: seq<Doc>): Cluster {
    if docs == [] then cluster
    else ApplyDocs(cluster, Init(docs))[Last(docs).name := Model(true, Last(docs).deployment)]
  }

  function DeleteNames(cluster: Cluster, names: seq<string>): Cluster {
    if names == [] then cluster else DeleteNames(cluster, Init(names)) - {Last(names)}
  }

  /** Managed Models on the cluster: `{name: deployment id}`. */
  function Managed(cluster: Cluster): map<string, string> {
    map n | n in cluster && cluster[n].managed :: cluster[n].deployment
  }

  ghost predicate Lists(listing: seq<string>, names: set<string>) {
    Distinct(listing) && forall n :: n in listing <==> n in names
  }

  /** Deployment ids with a managed Model on the cluster. */
  function Observe(cluster: Cluster): set<string> {
    set n | n in Managed(cluster) && Managed(cluster)[n] != "" :: Managed(cluster)[n]
  }

  // ---------------------------------------------------------------------
  // Apply, as a function of state and world
  // ---------------------------------------------------------------------

  function Docs(disk: Disk): seq<Doc> {
    if disk.manifest.None? then [] else disk.manifest.value
  }

  function Names(docs: seq<Doc>): set<string> {
    set doc | doc in docs :: doc.name
  }

  /** The names the sidecar says the render has; an absent or corrupt one reads as empty. */
  function Wanted(disk: Disk): set<string> {
    if disk.sidecar.None? then {} else disk.sidecar.value.Keys
  }

  /** kubectl goes on past a document it cannot apply, and fails in the end. */
  function AppliedDocs(s: State, w: World): seq<Doc> {
    if ApplyFails(s, w) then Reached(w.missed.value, Docs(s.disk)) else Docs(s.disk)
  }

  function Reached(missed: set<string>, docs: seq<Doc>): seq<Doc> {
    Filter((doc: Doc) => doc.name !in missed, docs)
  }

  predicate ApplyFails(s: State, w: World) {
    Docs(s.disk) != [] && w.missed.Some?
  }

  lemma AppliedAreDocs(s: State, w: World)
    ensures forall doc :: doc in AppliedDocs(s, w) ==> doc in Docs(s.disk)
    ensures Names(AppliedDocs(s, w)) <= Names(Docs(s.disk))
  {
    if ApplyFails(s, w) {
      FilterMembers((doc: Doc) => doc.name !in w.missed.value, Docs(s.disk));
    }
  }

  /** The cluster when the managed Models are listed. */
  function Listed(s: State, w: World): Cluster {
    ApplyDocs(s.cluster, AppliedDocs(s, w))
  }

  /** The listing the world gives is one of the cluster's managed Models. */
  ghost predicate Plausible(s: State, w: World) {
    w.listing.Some? ==> Lists(w.listing.value, Managed(Listed(s, w)).Keys)
  }

  function Stale(s: State, w: World): seq<string>
    requires w.listing.Some?
  {
    Sort((a, b) => StrLe(a, b), Filter(n => n !in Wanted(s.disk), w.listing.value))
  }

  /** A prefix of the deletes, when one after it fails. */
  function BeforeFailure(names: seq<string>, failsAfter: Option<nat>): seq<string> {
    if failsAfter.Some? && failsAfter.value < |names| then names[..failsAfter.value] else names
  }

  function DeletedNames(s: State, w: World): seq<string>
    requires w.listing.Some?
  {
    BeforeFailure(Stale(s, w), w.deleteFailsAfter)
  }

  function AppliedEvents(docs: seq<Doc>): seq<Event> {
    Map((doc: Doc) => Applied(doc.name), docs)
  }

  function DeletedEvents(names: seq<string>): seq<Event> {
    Map(n => Deleted(n), names)
  }

  /** Both parts of one apply, the Models and then the gateway. */
  function Both(a: ApplyResult, b: ApplyResult): ApplyResult {
    ApplyResult(a.runtime && b.runtime, a.routes && b.routes, a.detail || b.detail)
  }

  const COMPLETE := ApplyResult(true, true, false)

  function AfterDeletes(s: State, w: World, listed: Cluster, events: seq<Event>): (State, Outcome)
    requires w.listing.Some?
  {
    var deleted := DeletedNames(s, w);
    var end := s.(cluster := DeleteNames(listed, deleted), events := events + DeletedEvents(deleted));
    if deleted != Stale(s, w) then (end, Raised)
    else if !s.hasGateway then (end, Done(COMPLETE))
    else if w.gateway.None? then (end, Raised)
    else (end, Done(Both(COMPLETE, w.gateway.value)))
  }

  function Apply(s: State, w: World): (State, Outcome) {
    if s.disk.manifest.None? then (s, Done(COMPLETE)) else
      var listed := Listed(s, w);
      var events := s.events + AppliedEvents(AppliedDocs(s, w));
      if ApplyFails(s, w) || w.listing.None? then (s.(cluster := listed, events := events), Raised)
      else if Stale(s, w) == [] || !s.hasGateway then AfterDeletes(s, w, listed, events)
      else if !w.retires then
        (s.(cluster := listed, events := events + [Retired(false)]), Done(ApplyResult(false, false, true)))
      else AfterDeletes(s, w, listed, events + [Retired(true)])
  }

  // ---------------------------------------------------------------------
  // The backend object
  // ---------------------------------------------------------------------

  /** Render, write both files when the changes are approved, and let the gateway converge. */
  function Converged(s: State, inp: Inputs, sized: seq<Sized>, desired: seq<Deployment>, approved: bool): State {
    if !approved then s else
      var r := Render(inp, sized, desired);
      s.(disk := Disk(Some(r.docs), Some(r.models)), events := s.events + if s.hasGateway then [GatewayConverged]
          else [])
  }

  /**
   Delete every managed Model, in name order, and take the gateway down. Nothing happens
   when the listing fails; when a delete does, the rest and the gateway stay.
   */
  function TornDown(s: State, listing: Option<seq<string>>, failsAfter: Option<nat>): State {
    if listing.None? then s else
      var names := Sort((a, b) => StrLe(a, b), listing.value);
      var deleted := BeforeFailure(names, failsAfter);
      s.(cluster := DeleteNames(s.cluster, deleted),
         events := s.events + DeletedEvents(deleted)
           + if s.hasGateway && deleted == names then [GatewayDown] else [])
  }

  class KubeaiBackend {
    var disk: Disk
    var cluster: Cluster
    var events: seq<Event>
    const hasGateway: bool
    var lastErrors: seq<RenderError>
    var lastUnplaced: set<string>

    ghost function State(): State
      reads this
    {
      Snapshot(disk, cluster, events, hasGateway)
    }

    constructor (cluster: Cluster, hasGateway: bool)
      ensures State() == Snapshot(Disk(None, None), cluster, [], hasGateway)
    {
      this.cluster, this.hasGateway := cluster, hasGateway;
      disk, events, lastErrors, lastUnplaced := Disk(None, None), [], [], {};
    }

    /** Render, and write both files when the changes are approved; the cluster is untouched. */
    method Converge(inp: Inputs, sized: seq<Sized>, desired: seq<Deployment>, approved: bool) returns (written: bool)
      modifies this
      ensures written == approved
      ensures var r := Render(inp, sized, desired);
        && lastErrors == r.errors && lastUnplaced == r.unrenderable
        && State() == Converged(old(State()), inp, sized, desired, approved)
    {
      var rendered := RenderModels(inp, sized, desired);
      lastErrors := rendered.errors;
      lastUnplaced := rendered.unrenderable;
      if !approved {
        return false;
      }
      disk := disk.(manifest := Some(rendered.docs));
      disk := disk.(sidecar := Some(rendered.models));
      if hasGateway {
        events := events + [GatewayConverged];
      }
      written := true;
    }

    /** Send some documents to the cluster, one by one. */
    method KubectlApply(docs: seq<Doc>)
      modifies this
      ensures State() == old(State()).(
        cluster := ApplyDocs(old(cluster), docs), events := old(events) + AppliedEvents(docs))
    {
      for i := 0 to |docs|
        invariant disk == old(disk)
        invariant cluster == ApplyDocs(old(cluster), docs[..i])
        invariant events == old(events) + AppliedEvents(docs[..i])
      {
        assert Init(docs[..i + 1]) == docs[..i];
        assert AppliedEvents(docs[..i + 1]) == AppliedEvents(docs[..i]) + [Applied(docs[i].name)];
        cluster := cluster[docs[i].name := Model(true, docs[i].deployment)];
        events := events + [Applied(docs[i].name)];
      }
      assert docs[..|docs|] == docs;
    }

    method KubectlDelete(names: seq<string>)
      modifies this
      ensures State() == old(State()).(
        cluster := DeleteNames(old(cluster), names), events := old(events) + DeletedEvents(names))
    {
      for i := 0 to |names|
        invariant disk == old(disk)
        invariant cluster == DeleteNames(old(cluster), names[..i])
        invariant events == old(events) + DeletedEvents(names[..i])
      {
        assert Init(names[..i + 1]) == names[..i];
        assert DeletedEvents(names[..i + 1]) == DeletedEvents(names[..i]) + [Deleted(names[i])];
        cluster := cluster - {names[i]};
        events := events + [Deleted(names[i])];
      }
      assert names[..|names|] == names;
    }

    method ApplyRender(w: World) returns (outcome: Outcome)
      requires Plausible(State(), w)
      modifies this
      ensures (State(), outcome) == Apply(old(State()), w)
    {
      if disk.manifest.None? {
        return Done(COMPLETE);
      }
      ghost var s := State();
      var docs := disk.manifest.value;
      var wanted := if disk.sidecar.None? then {} else disk.sidecar.value.Keys;
      if docs != [] {
        if w.missed.Some? {
          KubectlApply(Reached(w.missed.value, docs));
          return Raised;
        }
        KubectlApply(docs);
      }
      assert events == s.events + AppliedEvents(docs) && cluster == Listed(s, w);
      if w.listing.None? {
        return Raised;
      }
      var stale := Sort((a, b) => StrLe(a, b), Filter(n => n !in wanted, w.listing.value));
      assert stale == Stale(s, w);
      if stale != [] && hasGateway {
        events := events + [Retired(w.retires)];
        if !w.retires {
          return Done(ApplyResult(false, false, true));
        }
      }
      if w.deleteFailsAfter.Some? && w.deleteFailsAfter.value < |stale| {
        KubectlDelete(stale[..w.deleteFailsAfter.value]);
        return Raised;
      }
      KubectlDelete(stale);
      if !hasGateway {
        return Done(COMPLETE);
      }
      if w.gateway.None? {
        return Raised;
      }
      outcome := Done(Both(COMPLETE, w.gateway.value));
    }

    /** Delete every managed Model; `listing` is the order kubectl lists them in, if it can. */
    method Down(listing: Option<seq<string>>, failsAfter: Option<nat>) returns (raised: bool)
      requires listing.Some? ==> Lists(listing.value, Managed(cluster).Keys)
      modifies this
      ensures State() == TornDown(old(State()), listing, failsAfter)
      ensures raised <==> listing.None? || (failsAfter.Some? && failsAfter.value < |listing.value|)
      ensures cluster.Keys <= old(cluster).Keys && old(cluster).Keys - cluster.Keys <= Managed(old(cluster)).Keys
      ensures !raised ==> Managed(cluster).Keys == {} && cluster.Keys == old(cluster).Keys - Managed(old(cluster)).Keys
    {
      if listing.None? {
        return true;
      }
      hide Sort, DeleteNames, BeforeFailure, Managed;
      var names := Sort((a, b) => StrLe(a, b), listing.value);
      SortedListing(cluster, listing.value, failsAfter);
      if failsAfter.Some? && failsAfter.value < |names| {
        KubectlDelete(names[..failsAfter.value]);
        return true;
      }
      KubectlDelete(names);
      if hasGateway {
        events := events + [GatewayDown];
      }
      raised := false;
    }
  }

  /** What deleting a listing of the managed Models leaves, and leaves when it fails. */
  lemma SortedListing(cluster: Cluster, listing: seq<string>, failsAfter: Option<nat>)
    requires Lists(listing, Managed(cluster).Keys)
    ensures var names := Sort((a, b) => StrLe(a, b), listing);
      var after := DeleteNames(cluster, BeforeFailure(names, failsAfter));
      && |names| == |listing|
      && BeforeFailure(names, failsAfter)
         == (if failsAfter.Some? && failsAfter.value < |names| then names[..failsAfter.value] else names)
      && after.Keys <= cluster.Keys && cluster.Keys - after.Keys <= Managed(cluster).Keys
      && (!(failsAfter.Some? && failsAfter.value < |names|) ==>
            Managed(after).Keys == {} && after.Keys == cluster.Keys - Managed(cluster).Keys)
  {
    var names := Sort((a, b) => StrLe(a, b), listing);
    StrOrder();
    SortSorts((a, b) => StrLe(a, b), listing);
    DeleteNamesMeaning(cluster, BeforeFailure(names, failsAfter));
    hide Sort, DeleteNames;
  }

  // ---------------------------------------------------------------------
  // What an apply may and may not do, in every world
  // ---------------------------------------------------------------------

  lemma {:induction false} ApplyDocsMeaning(cluster: Cluster, docs: seq<Doc>)
    ensures ApplyDocs(cluster, docs).Keys == cluster.Keys + Names(docs)
    ensures forall n :: n in Names(docs) ==> ApplyDocs(cluster, docs)[n].managed
    ensures forall n :: n in cluster && n !in Names(docs) ==> ApplyDocs(cluster, docs)[n] == cluster[n]
  {
    if docs != [] {
      ApplyDocsMeaning(cluster, Init(docs));
      assert docs == Init(docs) + [Last(docs)];
      assert Names(docs) == Names(Init(docs)) + {Last(docs).name};
    }
  }

  /** With each name once, every document's Model carries that document's deployment. */
  lemma {:induction false} ApplyDocsLabels(cluster: Cluster, docs: seq<Doc>)
    requires forall i, j :: 0 <= i < j < |docs| ==> docs[i].name != docs[j].name
    ensures forall doc :: doc in docs ==>
      doc.name in ApplyDocs(cluster, docs) && ApplyDocs(cluster, docs)[doc.name] == Model(true, doc.deployment)
  {
    if docs != [] {
      ApplyDocsLabels(cluster, Init(docs));
      assert docs == Init(docs) + [Last(docs)];
    }
  }

  lemma {:induction false} DeleteNamesMeaning(cluster: Cluster, names: seq<string>)
    ensures DeleteNames(cluster, names) == map n | n in cluster && n !in names :: cluster[n]
  {
    if names == [] {
      assert cluster == map n | n in cluster && n !in names :: cluster[n];
    } else {
      DeleteNamesMeaning(cluster, Init(names));
      assert names == Init(names) + [Last(names)];
    }
  }

  lemma StaleMeaning(s: State, w: World)
    requires w.listing.Some? && Plausible(s, w)
    ensures forall n :: n in Stale(s, w) <==> n in Managed(Listed(s, w)) && n !in Wanted(s.disk)
    ensures forall n :: n in DeletedNames(s, w) ==> n in Stale(s, w)
  {
    var kept := Filter(n => n !in Wanted(s.disk), w.listing.value);
    FilterMembers(n => n !in Wanted(s.disk), w.listing.value);
    StrOrder();
    SortSorts((a, b) => StrLe(a, b), kept);
  }

  lemma StrOrder()
    ensures TotalPreorder((a, b) => StrLe(a, b))
  {
    forall a, b ensures StrLe(a, b) || StrLe(b, a) {
      StrLeTotal(a, b);
    }
    forall a, b, c | StrLe(a, b) && StrLe(b, c) ensures StrLe(a, c) {
      StrLeTrans(a, b, c);
    }
  }

  /** The events of one apply. */
  function NewEvents(s: State, w: World): seq<Event> {
    Apply(s, w).0.events[|s.events|..]
  }

  /**
   Main result, whatever fails: nothing the sidecar names is deleted, only managed Models
   are, and behind a gateway only after it retired their routes.
   */
  lemma DeletionsAreSafe(s: State, w: World, i: nat)
    requires Plausible(s, w)
    requires i < |NewEvents(s, w)| && NewEvents(s, w)[i].Deleted?
    ensures NewEvents(s, w)[i].name !in Wanted(s.disk)
    ensures NewEvents(s, w)[i].name in Managed(Listed(s, w))
    ensures s.hasGateway ==> exists j :: 0 <= j < i && NewEvents(s, w)[j] == Retired(true)
  {
    hide Apply, ApplyDocs, DeleteNames, Sort, Filter, Managed, Wanted;
    hide AppliedEvents, DeletedEvents, DeletedNames, Stale;
    EventsOfApply(s, w);
    AppliedNotDeleted(AppliedDocs(s, w));
    StaleMeaning(s, w);
    var applied := AppliedEvents(AppliedDocs(s, w));
    var between := if Stale(s, w) != [] && s.hasGateway then [Retired(true)] else [];
    InParts(applied, between, DeletedEvents(DeletedNames(s, w)), i);
    DeletedIsName(DeletedNames(s, w), NewEvents(s, w)[i]);
    if s.hasGateway {
      EmptyOrMember(Stale(s, w));
      assert NewEvents(s, w)[|applied|] == Retired(true);
    }
  }

  lemma AppliedNotDeleted(docs: seq<Doc>)
    ensures forall e :: e in AppliedEvents(docs) ==> !e.Deleted?
  {}

  lemma DeletedIsName(names: seq<string>, e: Event)
    requires e in DeletedEvents(names)
    ensures e.Deleted? && e.name in names
  {
    var k :| 0 <= k < |names| && DeletedEvents(names)[k] == e;
    assert names[k] in names;
  }

  lemma InParts<T>(a: seq<T>, b: seq<T>, c: seq<T>, i: nat)
    requires i < |a + b + c|
    ensures i < |a| ==> (a + b + c)[i] in a
    ensures |a| <= i < |a + b| ==> (a + b + c)[i] in b
    ensures |a + b| <= i ==> (a + b + c)[i] in c
  {}

  /** An apply's events, in order; one that stops early has none that delete. */
  lemma EventsOfApply(s: State, w: World)
    ensures var applied := AppliedEvents(AppliedDocs(s, w));
      || (NewEvents(s, w) in {[], applied, applied + [Retired(false)]})
      || (w.listing.Some?
          && NewEvents(s, w) == applied + (if Stale(s, w) != [] && s.hasGateway then [Retired(true)] else [])
                                + DeletedEvents(DeletedNames(s, w)))
  {
    hide Sort, Filter, ApplyDocs, DeleteNames, DeletedNames, Stale, AppliedDocs;
    var applied := AppliedEvents(AppliedDocs(s, w));
    forall more: seq<Event> ensures (s.events + applied + more)[|s.events|..] == applied + more {}
    if w.listing.Some? {
      var deleted := DeletedEvents(DeletedNames(s, w));
      Assoc(s.events + applied, [Retired(true)], deleted);
      Assoc(applied, [Retired(true)], deleted);
      assert applied + [] == applied;
    }
    assert s.events + applied + [] == s.events + applied && applied + [] == applied;
  }

  /** No apply takes away a Model the render names, however it ends. */
  lemma WantedSurvive(s: State, w: World, n: string)
    requires Plausible(s, w) && n in Wanted(s.disk)
    requires n in Managed(s.cluster)
    ensures n in Managed(Apply(s, w).0.cluster)
  {
    ApplyDocsMeaning(s.cluster, AppliedDocs(s, w));
    EndCluster(s, w);
    hide Apply, AppliedDocs, ApplyDocs, Wanted;
  }

  /** However an apply ends, the cluster is as it was, or what was applied, less stale managed Models. */
  lemma EndCluster(s: State, w: World)
    requires Plausible(s, w)
    ensures var end := Apply(s, w).0.cluster; var listed := ApplyDocs(s.cluster, AppliedDocs(s, w));
      || end == s.cluster || end == listed
      || (end.Keys <= listed.Keys && (forall n :: n in end ==> end[n] == listed[n])
          && forall n :: n in listed && n !in end ==> n in Managed(listed) && n !in Wanted(s.disk))
  {
    hide ApplyDocs, AppliedDocs, DeleteNames, Managed, Stale, Lists;
    if w.listing.Some? {
      StaleMeaning(s, w);
      DeleteNamesMeaning(Listed(s, w), DeletedNames(s, w));
    }
  }

  /** Models without the managed label are never deleted. */
  lemma ForeignModelsUntouched(s: State, w: World, n: string)
    requires Plausible(s, w)
    requires n in s.cluster && !s.cluster[n].managed && n !in Names(Docs(s.disk))
    ensures n in Apply(s, w).0.cluster && Apply(s, w).0.cluster[n] == s.cluster[n]
  {
    ApplyDocsMeaning(s.cluster, AppliedDocs(s, w));
    AppliedAreDocs(s, w);
    EndCluster(s, w);
    hide Apply, AppliedDocs, ApplyDocs, Wanted, Names, Docs;
  }

  lemma RefusedApply(s: State, w: World)
    requires s.disk.manifest.Some? && !ApplyFails(s, w) && w.listing.Some?
    requires Stale(s, w) != [] && s.hasGateway && !w.retires
    ensures Apply(s, w).1 == Done(ApplyResult(false, false, true))
    ensures Apply(s, w).0.cluster == ApplyDocs(s.cluster, Docs(s.disk))
    ensures Apply(s, w).0.events == s.events + AppliedEvents(Docs(s.disk)) + [Retired(false)]
  {
    hide Stale, ApplyDocs, AppliedEvents, AfterDeletes;
  }

  /** When the gateway keeps its routes nothing is deleted, and every rendered Model is there. */
  lemma RefusalDeletesNothing(s: State, w: World)
    requires s.disk.manifest.Some? && !ApplyFails(s, w) && w.listing.Some?
    requires Stale(s, w) != [] && s.hasGateway && !w.retires
    ensures Apply(s, w).1 == Done(ApplyResult(false, false, true))
    ensures Apply(s, w).0.cluster == ApplyDocs(s.cluster, Docs(s.disk))
    ensures Names(Docs(s.disk)) <= Managed(Apply(s, w).0.cluster).Keys
    ensures forall e :: e in NewEvents(s, w) ==> !e.Deleted?
  {
    RefusedApply(s, w);
    hide Apply, Stale, ApplyDocs, ApplyFails, Managed, AppliedEvents, Docs, Names;
    AppliedAreManaged(s.cluster, Docs(s.disk));
    NoneDeleted(s.events, Docs(s.disk));
  }

  lemma AppliedAreManaged(cluster: Cluster, docs: seq<Doc>)
    ensures Names(docs) <= Managed(ApplyDocs(cluster, docs)).Keys
  {
    ApplyDocsMeaning(cluster, docs);
    hide ApplyDocs, Names;
  }

  lemma NoneDeleted(before: seq<Event>, docs: seq<Doc>)
    ensures forall e :: e in (before + AppliedEvents(docs) + [Retired(false)])[|before|..] ==> !e.Deleted?
  {
    var events := AppliedEvents(docs);
    assert (before + events + [Retired(false)])[|before|..] == events + [Retired(false)];
  }

  /** The apply ran to its end: no kubectl call failed, and the routes of stale Models were retired. */
  predicate Ran(s: State, w: World) {
    s.disk.manifest.Some? && !ApplyFails(s, w) && w.listing.Some?
    && (Stale(s, w) != [] && s.hasGateway ==> w.retires)
    && DeletedNames(s, w) == Stale(s, w)
  }

  lemma RanCluster(s: State, w: World)
    requires Ran(s, w)
    ensures Apply(s, w).0.cluster == DeleteNames(ApplyDocs(s.cluster, Docs(s.disk)), Stale(s, w))
  {}

  /** The managed Models after an apply that ran: the sidecar's names that were there or rendered. */
  lemma RanLeaves(s: State, w: World)
    requires Plausible(s, w) && Ran(s, w)
    ensures Managed(Apply(s, w).0.cluster).Keys
         == Wanted(s.disk) * (Managed(s.cluster).Keys + Names(Docs(s.disk)))
  {
    var docs := Docs(s.disk);
    ApplyDocsMeaning(s.cluster, docs);
    StaleMeaning(s, w);
    DeleteNamesMeaning(Listed(s, w), Stale(s, w));
    RanCluster(s, w);
    var end := Apply(s, w).0.cluster;
    forall n ensures n in Managed(end) <==> n in Wanted(s.disk) && (n in Managed(s.cluster) || n in Names(docs)) {
      assert n in Managed(Listed(s, w)) <==> n in Managed(s.cluster) || n in Names(docs);
    }
  }

  /** The manifest and the sidecar are of one render. */
  ghost predicate Consistent(disk: Disk) {
    Wanted(disk) == Names(Docs(disk)) && (disk.manifest.None? <==> disk.sidecar.None?)
    && (forall i, j :: 0 <= i < j < |Docs(disk)| ==> Docs(disk)[i].name != Docs(disk)[j].name)
  }

  /** Main result: an apply that ran leaves exactly the rendered Models, exactly when
      the sidecar names the manifest and nothing else the cluster still manages. */
  lemma ExactlyTheRender(s: State, w: World)
    requires Plausible(s, w) && Ran(s, w)
    ensures Managed(Apply(s, w).0.cluster).Keys == Names(Docs(s.disk))
       <==> Names(Docs(s.disk)) <= Wanted(s.disk)
            && Wanted(s.disk) * Managed(s.cluster).Keys <= Names(Docs(s.disk))
  {
    RanLeaves(s, w);
  }

  /** A second apply, over the first one's outcome, finds nothing to delete and changes nothing. */
  lemma SecondApplyDeletesNothing(s: State, w: World, w': World)
    requires Plausible(s, w) && Ran(s, w) && Consistent(s.disk)
    requires var mid := Apply(s, w).0; Plausible(mid, w') && w'.listing.Some?
    ensures var mid := Apply(s, w).0;
      Stale(mid, w') == [] && (!ApplyFails(mid, w') ==> Apply(mid, w').0.cluster == mid.cluster)
  {
    var mid := Apply(s, w).0;
    ExactlyTheRender(s, w);
    RanLabels(s, w);
    assert mid.disk == s.disk;
    hide Apply, Ran;
    ReappliedCluster(mid, w');
    hide ApplyDocs, AppliedDocs, Plausible;
    EmptyOrMember(Stale(mid, w'));
    if !ApplyFails(mid, w') {
      ReapplyIsIdentity(mid.cluster, Docs(s.disk));
      NoStaleKeeps(mid, w');
    }
  }

  /** Applying documents the cluster has already adds no Model and leaves none stale. */
  lemma ReappliedCluster(mid: State, w: World)
    requires Plausible(mid, w) && w.listing.Some?
    requires Managed(mid.cluster).Keys == Names(Docs(mid.disk)) == Wanted(mid.disk)
    ensures forall n :: n !in Stale(mid, w)
  {
    ApplyDocsMeaning(mid.cluster, AppliedDocs(mid, w));
    AppliedAreDocs(mid, w);
    StaleMeaning(mid, w);
    hide AppliedDocs, ApplyDocs, Stale;
  }

  lemma NoStaleKeeps(mid: State, w: World)
    requires w.listing.Some? && Stale(mid, w) == [] && !ApplyFails(mid, w)
    requires ApplyDocs(mid.cluster, Docs(mid.disk)) == mid.cluster
    ensures Apply(mid, w).0.cluster == mid.cluster
  {
    hide ApplyDocs, Stale, AppliedEvents;
  }

  lemma RanLabels(s: State, w: World)
    requires Plausible(s, w) && Ran(s, w) && Consistent(s.disk)
    ensures forall doc :: doc in Docs(s.disk) ==>
      doc.name in Apply(s, w).0.cluster && Apply(s, w).0.cluster[doc.name] == Model(true, doc.deployment)
  {
    ApplyDocsLabels(s.cluster, Docs(s.disk));
    ApplyDocsMeaning(s.cluster, Docs(s.disk));
    StaleMeaning(s, w);
    DeleteNamesMeaning(Listed(s, w), Stale(s, w));
    RanCluster(s, w);
  }

  lemma {:induction false} ReapplyIsIdentity(cluster: Cluster, docs: seq<Doc>)
    requires forall doc :: doc in docs ==> doc.name in cluster && cluster[doc.name] == Model(true, doc.deployment)
    ensures ApplyDocs(cluster, docs) == cluster
  {
    if docs != [] {
      ReapplyIsIdentity(cluster, Init(docs));
      assert Last(docs) in docs;
    }
  }

  // ---------------------------------------------------------------------
  // Whole histories
  // ---------------------------------------------------------------------

  /** Anyone may change the cluster in between. */
  datatype Action =
    | Converge(inp: Inputs, sized: seq<Sized>, desired: seq<Deployment>, approved: bool)
    | RunApply(world: World)
    | TearDown(listing: Option<seq<string>>, failsAfter: Option<nat>)
    | Outside(cluster: Cluster)

  function Next(s: State, a: Action): State {
    match a
    case Converge(inp, sized, desired, approved) => Converged(s, inp, sized, desired, approved)
    case RunApply(w) => Apply(s, w).0
    case TearDown(listing, failsAfter) => TornDown(s, listing, failsAfter)
    case Outside(cluster) => s.(cluster := cluster)
  }

  function Run(start: State, history: seq<Action>): State {
    if history == [] then start else Next(Run(start, Init(history)), Last(history))
  }

  // ---------------------------------------------------------------------
  // An apply and its outcome on fields
  // ---------------------------------------------------------------------

  /** The stale Models: managed, on the cluster after kubectl, not in the sidecar; each once, by name. */
  lemma StaleExactly(s: State, w: World)
    requires w.listing.Some? && Plausible(s, w)
    ensures var stale, listed := Stale(s, w), Listed(s, w);
      && (forall n :: n in stale <==> n in listed && listed[n].managed && n !in Wanted(s.disk))
      && forall i, j :: 0 <= i < j < |stale| ==> stale[i] != stale[j] && NoLater(stale[i], stale[j])
  {
    StaleMeaning(s, w);
    var stale := Stale(s, w);
    var kept := Filter(n => n !in Wanted(s.disk), w.listing.value);
    StrOrder();
    SortSorts((a, b) => StrLe(a, b), kept);
    hide Sort, Wanted, Listed, StrLe, NoLater;
    forall a, b ensures StrLe(a, b) <==> NoLater(a, b) {
      StrLeMeaning(a, b);
    }
    forall n ensures multiset(stale)[n] <= 1 {
      FilterCounts(x => x !in Wanted(s.disk), w.listing.value, n);
      DistinctCounts(w.listing.value);
    }
    DistinctCounts(stale);
  }

  /** The cluster without some names. */
  ghost function Without(cluster: Cluster, names: seq<string>): Cluster {
    map n | n in cluster && n !in names :: cluster[n]
  }

  /**
   Main result: how an apply ends, for each way the world lets it. It raises when kubectl
   fails to apply, list or delete, or the gateway's own apply does; a gateway that keeps
   its routes is reported and nothing deleted; else the result is the gateway's, or that
   all is well.
   */
  lemma ApplyExactly(s: State, w: World)
    ensures var (end, outcome) := Apply(s, w);
      if s.disk.manifest.None? then end == s && outcome == Done(ApplyResult(true, true, false)) else
        var docs := s.disk.manifest.value;
        var listed := ApplyDocs(s.cluster, docs);
        && end.disk == s.disk && end.hasGateway == s.hasGateway
        && if docs != [] && w.missed.Some? then
             outcome == Raised
             && end.cluster == ApplyDocs(s.cluster, Filter((d: Doc) => d.name !in w.missed.value, docs))
           else if w.listing.None? then outcome == Raised && end.cluster == listed
           else
             var stale := Stale(s, w);
             if stale != [] && s.hasGateway && !w.retires then
               outcome == Done(ApplyResult(false, false, true)) && end.cluster == listed
             else if w.deleteFailsAfter.Some? && w.deleteFailsAfter.value < |stale| then
               outcome == Raised && end.cluster == Without(listed, stale[..w.deleteFailsAfter.value])
             else
               && end.cluster == Without(listed, stale)
               && outcome == if !s.hasGateway then Done(ApplyResult(true, true, false))
                             else if w.gateway.None? then Raised else Done(w.gateway.value)
  {
    hide Stale, ApplyDocs, AppliedEvents, DeletedEvents, Without;
    if s.disk.manifest.Some? && !ApplyFails(s, w) && w.listing.Some? {
      var listed := Listed(s, w);
      WithoutMeaning(listed, DeletedNames(s, w));
    }
  }

  lemma WithoutMeaning(cluster: Cluster, names: seq<string>)
    ensures DeleteNames(cluster, names) == Without(cluster, names)
  {
    DeleteNamesMeaning(cluster, names);
    hide DeleteNames;
  }

  /** A converge that is declined writes nothing; an approved one writes both files of its render and no more. */
  lemma ConvergeExactly(s: State, inp: Inputs, sized: seq<Sized>, desired: seq<Deployment>)
    ensures Next(s, Converge(inp, sized, desired, false)) == s
    ensures var end, r := Next(s, Converge(inp, sized, desired, true)), Render(inp, sized, desired);
      end == s.(disk := Disk(Some(r.docs), Some(r.models)),
                events := s.events + if s.hasGateway then [GatewayConverged] else [])
  {
    hide Render;
  }

  /** A teardown deletes the managed Models, by name, as far as it gets; the gateway goes down when all are gone. */
  lemma TearDownExactly(s: State, listing: seq<string>, failsAfter: Option<nat>)
    requires Lists(listing, Managed(s.cluster).Keys)
    ensures var end := Next(s, TearDown(Some(listing), failsAfter)); var names := Sort((a, b) => StrLe(a, b), listing);
      var fails := failsAfter.Some? && failsAfter.value < |listing|;
      && (forall i, j :: 0 <= i < j < |names| ==> NoLater(names[i], names[j]))
      && |names| == |listing|
      && (forall n :: n in names <==> n in s.cluster && s.cluster[n].managed)
      && end.disk == s.disk
      && end.cluster == Without(s.cluster, if fails then names[..failsAfter.value] else names)
      && (GatewayDown in end.events <==> GatewayDown in s.events || (s.hasGateway && !fails))
    ensures Next(s, TearDown(None, failsAfter)) == s
  {
    SortedNames(listing);
    hide Sort, NoLater, Without, StrLe, DeleteNames;
    var names := Sort((a, b) => StrLe(a, b), listing);
    var deleted := BeforeFailure(names, failsAfter);
    WithoutMeaning(s.cluster, deleted);
    NotGatewayDown(s.events, deleted, s.hasGateway && deleted == names);
    assert failsAfter.Some? && failsAfter.value < |names| ==> |deleted| < |names|;
  }

  lemma SortedNames(listing: seq<string>)
    ensures var names := Sort((a, b) => StrLe(a, b), listing);
      && (forall i, j :: 0 <= i < j < |names| ==> NoLater(names[i], names[j]))
      && |names| == |listing| && forall n :: n in names <==> n in listing
  {
    StrOrder();
    SortSorts((a, b) => StrLe(a, b), listing);
    hide Sort, StrLe, NoLater;
    forall a, b ensures StrLe(a, b) <==> NoLater(a, b) {
      StrLeMeaning(a, b);
    }
  }

  lemma NotGatewayDown(before: seq<Event>, names: seq<string>, down: bool)
    ensures GatewayDown in before + DeletedEvents(names) + (if down then [GatewayDown] else [])
       <==> GatewayDown in before || down
  {
    assert GatewayDown !in DeletedEvents(names);
  }

  lemma ConvergeIsConsistent(s: State, inp: Inputs, sized: seq<Sized>, desired: seq<Deployment>)
    requires UniqueIds(desired)
    ensures Consistent(Next(s, Converge(inp, sized, desired, true)).disk)
  {
    RenderIsExact(inp, sized, desired);
    var r := Render(inp, sized, desired);
    hide Render;
    assert r.models.Keys == Names(r.docs);
  }

  /** Over any history that renders sets of distinct deployments, the two files stay of one render. */
  lemma {:induction false} DiskStaysConsistent(start: State, history: seq<Action>)
    requires Consistent(start.disk)
    requires forall i :: 0 <= i < |history| && history[i].Converge? ==> UniqueIds(history[i].desired)
    ensures Consistent(Run(start, history).disk)
  {
    if history != [] {
      DiskStaysConsistent(start, Init(history));
      var a := Last(history);
      if a.Converge? && a.approved {
        ConvergeIsConsistent(Run(start, Init(history)), a.inp, a.sized, a.desired);
      }
    }
  }

  /**
   Main result, over every history of converges, applies, teardowns and changes from
   outside: an apply that ran leaves exactly the Models of whatever was last rendered,
   each with its deployment.
   */
  lemma EveryApplyLeavesTheRender(start: State, history: seq<Action>, w: World)
    requires Consistent(start.disk)
    requires forall i :: 0 <= i < |history| && history[i].Converge? ==> UniqueIds(history[i].desired)
    requires var s := Run(start, history); Plausible(s, w) && Ran(s, w)
    ensures var docs := Docs(Run(start, history).disk); var end := Run(start, history + [RunApply(w)]).cluster;
      && Managed(end).Keys == Names(docs)
      && forall doc :: doc in docs ==> doc.name in end && end[doc.name] == Model(true, doc.deployment)
  {
    DiskStaysConsistent(start, history);
    assert Init(history + [RunApply(w)]) == history && Last(history + [RunApply(w)]) == RunApply(w);
    ExactlyTheRender(Run(start, history), w);
    RanLabels(Run(start, history), w);
    hide Apply, Managed, Ran, Plausible;
  }

  /**
   Main result: whatever happened before, and whatever the cluster holds, an approved
   converge followed by an apply that runs leaves exactly the render's names managed,
   and observing the cluster gives the desired deployments less the unrenderable ones.
   */
  lemma ConvergeThenApply(start: State, history: seq<Action>, inp: Inputs, sized: seq<Sized>,
                          desired: seq<Deployment>, w: World)
    requires UniqueIds(desired)
    requires var s := Next(Run(start, history), Converge(inp, sized, desired, true)); Plausible(s, w) && Ran(s, w)
    ensures var r := Render(inp, sized, desired);
      var s := Next(Run(start, history), Converge(inp, sized, desired, true));
      var end := Apply(s, w).0.cluster;
      && Managed(end).Keys == r.models.Keys
      && Observe(end) == (set d | d in desired && d.id !in r.unrenderable && d.id != "" :: d.id)
  {
    var s := Next(Run(start, history), Converge(inp, sized, desired, true));
    ConvergeIsConsistent(Run(start, history), inp, sized, desired);
    RenderIsExact(inp, sized, desired);
    hide Run;
    var r := Render(inp, sized, desired);
    assert s.disk == Disk(Some(r.docs), Some(r.models));
    ExactlyTheRender(s, w);
    RanLabels(s, w);
    ObservedDeployments(inp, sized, desired, Apply(s, w).0.cluster);
  }

  lemma ObservedDeployments(inp: Inputs, sized: seq<Sized>, desired: seq<Deployment>, end: Cluster)
    requires UniqueIds(desired)
    requires var r := Render(inp, sized, desired);
      && Managed(end).Keys == Names(r.docs)
      && forall doc :: doc in r.docs ==> doc.name in end && end[doc.name] == Model(true, doc.deployment)
    ensures var r := Render(inp, sized, desired);
      Observe(end) == (set d | d in desired && d.id !in r.unrenderable && d.id != "" :: d.id)
  {
    var r := Render(inp, sized, desired);
    DocsAreKeepers(inp, sized, desired);
    hide Render;
    NamedByDoc(r.docs);
    hide Names;
    forall id ensures id in Observe(end) <==> id != "" && exists doc :: doc in r.docs && doc.deployment == id {
      ObservedByDoc(end, r.docs, id);
    }
    hide Observe, Managed;
    var expected := set d | d in desired && d.id !in r.unrenderable && d.id != "" :: d.id;
    forall id ensures id in Observe(end) <==> id in expected {}
  }

  lemma ObservedByDoc(end: Cluster, docs: seq<Doc>, id: string)
    requires Managed(end).Keys == Names(docs)
    requires forall doc :: doc in docs ==> doc.name in end && end[doc.name] == Model(true, doc.deployment)
    ensures id in Observe(end) <==> id != "" && exists doc :: doc in docs && doc.deployment == id
  {
    NamedByDoc(docs);
    hide Names;
    if doc :| doc in docs && doc.deployment == id {
      assert doc.name in Managed(end) && Managed(end)[doc.name] == id;
    }
  }

  lemma NamedByDoc(docs: seq<Doc>)
    ensures forall n :: n in Names(docs) <==> exists doc :: doc in docs && doc.name == n
  {}

  /** The documents are of the renderable deployments, all of them. */
  lemma DocsAreKeepers(inp: Inputs, sized: seq<Sized>, desired: seq<Deployment>)
    requires UniqueIds(desired)
    ensures var r := Render(inp, sized, desired);
      && (forall doc :: doc in r.docs ==>
            exists d :: d in desired && d.id == doc.deployment && d.id !in r.unrenderable)
      && (forall d :: d in desired && d.id !in r.unrenderable ==>
            exists doc :: doc in r.docs && doc.deployment == d.id)
  {
    var r := Render(inp, sized, desired);
    RenderIsExact(inp, sized, desired);
    var ordered := ByAge(desired);
    AgeOrder();
    SortSorts((a, b) => OlderOrSame(a, b), desired);
    var keepers := Keepers(inp, sized, ordered);
    FilterMembers(d => Keeps(inp, sized, ordered, d), ordered);
    hide Render, Keeps;
    var ids := Map((doc: Doc) => doc.deployment, r.docs);
    forall doc | doc in r.docs
      ensures exists d :: d in desired && d.id == doc.deployment && d.id !in r.unrenderable
    {
      var i :| 0 <= i < |r.docs| && r.docs[i] == doc;
      assert ids[i] == doc.deployment && IdsOf(keepers)[i] == keepers[i].id;
      assert keepers[i] in desired && Keeps(inp, sized, ordered, keepers[i]);
      KeepsByMembers(inp, sized, ordered, desired, keepers[i]);
    }
    forall d | d in desired && d.id !in r.unrenderable ensures exists doc :: doc in r.docs && doc.deployment == d.id {
      KeepsByMembers(inp, sized, ordered, desired, d);
      assert DocOf(inp, d, Judge(inp, sized, d)) in r.docs;
    }
  }

  lemma KeepsByMembers(inp: Inputs, sized: seq<Sized>, a: seq<Deployment>, b: seq<Deployment>, d: Deployment)
    requires forall x :: x in a <==> x in b
    ensures Keeps(inp, sized, a, d) == Keeps(inp, sized, b, d)
  {}

  /**
   Between the two writes of a converge the files disagree. An apply that ran on a new
   manifest and an old sidecar deletes a Model it has just applied.
   */
  lemma TornRenderDeletesItsOwnModel(doc: Doc)
    ensures var s := Snapshot(Disk(Some([doc]), None), map[], [], false);
      var w := World(None, Some([doc.name]), true, None, None);
      && Plausible(s, w) && Ran(s, w)
      && Apply(s, w) == (Snapshot(s.disk, map[], [Applied(doc.name), Deleted(doc.name)], false), Done(COMPLETE))
  {
    var s := Snapshot(Disk(Some([doc]), None), map[], [], false);
    var w := World(None, Some([doc.name]), true, None, None);
    assert Init([doc]) == [] && Init([doc.name]) == [];
    assert ApplyDocs(map[], [doc]) == map[doc.name := Model(true, doc.deployment)];
    assert Filter(n => n !in Wanted(s.disk), [doc.name]) == [doc.name];
    assert Sort((a, b) => StrLe(a, b), [doc.name]) == [doc.name] by {
      assert [doc.name][1..] == [];
    }
    assert Stale(s, w) == [doc.name];
    assert DeleteNames(Listed(s, w), [doc.name]) == map[];
    assert AppliedEvents([doc]) == [Applied(doc.name)] && DeletedEvents([doc.name]) == [Deleted(doc.name)];
    assert Listed(s, w) == ApplyDocs(map[], [doc]);
    assert forall n :: n in [doc.name] <==> n in Managed(Listed(s, w)).Keys;
    assert DeletedNames(s, w) == [doc.name];
    assert [] + [Applied(doc.name)] + [Deleted(doc.name)] == [Applied(doc.name), Deleted(doc.name)];
  }
}

/** Choosing which idle Models to stop so that a blocked one can be scheduled: fail closed. */
module KubeReclaim {
  import opened Sequences

  datatype Taint = Taint(key: Option<string>, value: Option<string>, effect: Option<string>)

  datatype Toleration = Toleration(
    key: Option<string>, value: Option<string>, operator: Option<string>, effect: Option<string>)

  datatype Node = Node(name: string, labels: map<string, string>, unschedulable: bool, taints: seq<Taint>)

  /** `required…` says which kinds of affinity carry a required term; `spread` lists each
      topology constraint's whenUnsatisfiable. */
  datatype PodSpec = PodSpec(
    schedulerName: Option<string>, requiredNode: bool, requiredPod: bool, requiredAnti: bool,
    spread: seq<Option<string>>, nodeSelector: map<string, string>, tolerations: seq<Toleration>)

  datatype Condition = Condition(reason: string, status: string, message: string)

  datatype Pod = Pod(
    deployment: Option<string>, spec: PodSpec, nodeName: Option<string>, requests: set<string>,
    conditions: seq<Condition>)

  // ---------------------------------------------------------------------
  // Where a pod could run
  // ---------------------------------------------------------------------

  predicate Given(s: Option<string>) {
    s.Some? && s.value != ""
  }

  predicate Admits(t: Toleration, taint: Taint) {
    (Given(t.effect) ==> t.effect == taint.effect)
    && if t.operator == Some("Exists") then !Given(t.key) || t.key == taint.key
       else t.key == taint.key && t.value == taint.value
  }

  predicate Blocks(taint: Taint) {
    taint.effect in {Some("NoSchedule"), Some("NoExecute")}
  }

  predicate Tolerates(tolerations: seq<Toleration>, taint: Taint) {
    Blocks(taint) ==> exists i :: 0 <= i < |tolerations| && Admits(tolerations[i], taint)
  }

  /** The default scheduler's filters for these fields say nothing about this pod. */
  predicate Unknown(spec: PodSpec) {
    spec.schedulerName !in {None, Some(""), Some("default-scheduler")}
    || spec.requiredNode || spec.requiredPod || spec.requiredAnti
    || exists i :: 0 <= i < |spec.spread| && spec.spread[i] in {None, Some("DoNotSchedule")}
  }

  predicate Fits(spec: PodSpec, n: Node) {
    !n.unschedulable
    && (forall k :: k in spec.nodeSelector.Keys ==> k in n.labels && n.labels[k] == spec.nodeSelector[k])
    && forall i :: 0 <= i < |n.taints| ==> Tolerates(spec.tolerations, n.taints[i])
  }

  function Eligible(spec: PodSpec, nodes: seq<Node>): Option<set<string>> {
    if Unknown(spec) then None else Some(set n | n in nodes && Fits(spec, n) :: n.name)
  }

  method EligibleNodes(spec: PodSpec, nodes: seq<Node>) returns (out: Option<set<string>>)
    ensures out == Eligible(spec, nodes)
  {
    if Unknown(spec) {
      return None;
    }
    var names := {};
    for i := 0 to |nodes|
      invariant names == set n | n in nodes[..i] && Fits(spec, n) :: n.name
    {
      var n := nodes[i];
      assert nodes[..i + 1] == nodes[..i] + [n];
      if Fits(spec, n) {
        names := names + {n.name};
      }
    }
    assert nodes[..|nodes|] == nodes;
    out := Some(names);
  }

  /** More tolerations, fewer required labels: at least as many nodes. */
  ghost predicate Looser(a: PodSpec, b: PodSpec) {
    (forall t :: t in a.tolerations ==> t in b.tolerations)
    && (forall k :: k in b.nodeSelector ==> k in a.nodeSelector && a.nodeSelector[k] == b.nodeSelector[k])
  }

  lemma LooserSpecFitsMore(a: PodSpec, b: PodSpec, nodes: seq<Node>)
    requires Looser(a, b) && !Unknown(a) && !Unknown(b)
    ensures Eligible(a, nodes).value <= Eligible(b, nodes).value
  {
    forall n | n in nodes && Fits(a, n) ensures Fits(b, n) {
      forall i | 0 <= i < |n.taints| ensures Tolerates(b.tolerations, n.taints[i]) {
        if Blocks(n.taints[i]) {
          assert Tolerates(a.tolerations, n.taints[i]);
          var j :| 0 <= j < |a.tolerations| && Admits(a.tolerations[j], n.taints[i]);
          assert a.tolerations[j] in b.tolerations;
        }
      }
    }
  }

  /** Adding taints to a node never makes it eligible; one that does not block changes nothing. */
  lemma TaintsOnlyShrink(spec: PodSpec, n: Node, taint: Taint)
    ensures var tainted := n.(taints := n.taints + [taint]);
      (Fits(spec, tainted) <==> Fits(spec, n) && Tolerates(spec.tolerations, taint))
      && (!Blocks(taint) ==> (Fits(spec, tainted) <==> Fits(spec, n)))
  {
    var tainted := n.(taints := n.taints + [taint]);
    if Fits(spec, tainted) {
      assert tainted.taints[|n.taints|] == taint;
      forall i | 0 <= i < |n.taints| ensures Tolerates(spec.tolerations, n.taints[i]) {
        assert tainted.taints[i] == n.taints[i];
      }
    }
  }

  // ---------------------------------------------------------------------
  // Who could make room
  // ---------------------------------------------------------------------

  /** The scheduler says, in this condition, that the blocked deployment's pod lacks capacity. */
  predicate Short(insufficient: string -> set<string>, blocked: string, pod: Pod, c: Condition) {
    pod.deployment == Some(blocked) && c in pod.conditions
    && c.reason == "Unschedulable" && c.status == "False" && insufficient(c.message) != {}
  }

  function ShortOf(insufficient: string -> set<string>, blocked: string, pods: seq<Pod>): set<string> {
    set pod, c, r | pod in pods && c in pod.conditions && r in insufficient(c.message)
                    && Short(insufficient, blocked, pod, c) :: r
  }

  predicate ShortPod(insufficient: string -> set<string>, blocked: string, pod: Pod) {
    exists c | c in pod.conditions :: Short(insufficient, blocked, pod, c)
  }

  function WhereOf(insufficient: string -> set<string>, blocked: string, pods: seq<Pod>, nodes: seq<Node>)
      : set<string> {
    set pod, n | pod in pods && n in nodes && ShortPod(insufficient, blocked, pod)
                 && !Unknown(pod.spec) && Fits(pod.spec, n) :: n.name
  }

  ghost predicate AnyUnknown(insufficient: string -> set<string>, blocked: string, pods: seq<Pod>) {
    exists pod :: pod in pods && ShortPod(insufficient, blocked, pod) && Unknown(pod.spec)
  }

  /** Stopping this pod gives back something short on a node the blocked one could use. */
  predicate Helps(pod: Pod, shortage: set<string>, eligible: set<string>) {
    pod.nodeName.Some? && pod.nodeName.value in eligible && pod.requests * shortage != {}
  }

  predicate Useful(pods: seq<Pod>, shortage: set<string>, eligible: set<string>, id: string) {
    exists i :: 0 <= i < |pods| && pods[i].deployment == Some(id) && Helps(pods[i], shortage, eligible)
  }

  /** The candidates, said without any order of reading the pods. */
  ghost function Candidates(insufficient: string -> set<string>, blocked: string, idle: seq<string>,
                            pods: seq<Pod>, nodes: seq<Node>): seq<string>
  {
    if AnyUnknown(insufficient, blocked, pods) then [] else
      var shortage := ShortOf(insufficient, blocked, pods);
      var eligible := WhereOf(insufficient, blocked, pods, nodes);
      Filter(id => Useful(pods, shortage, eligible, id), idle)
  }

  /** What the scheduler says is short in some of a pod's conditions. */
  function Shortage(insufficient: string -> set<string>, blocked: string, pod: Pod, conditions: seq<Condition>)
      : set<string> {
    set c, r | c in conditions && r in insufficient(c.message) && Short(insufficient, blocked, pod, c) :: r
  }

  lemma ShortageGrows(insufficient: string -> set<string>, blocked: string, pod: Pod, i: nat)
    requires i < |pod.conditions| && pod.deployment == Some(blocked)
    ensures var c := pod.conditions[i];
      Shortage(insufficient, blocked, pod, pod.conditions[..i + 1])
      == Shortage(insufficient, blocked, pod, pod.conditions[..i])
         + if c.reason == "Unschedulable" && c.status == "False" then insufficient(c.message) else {}
  {
    assert pod.conditions[..i + 1] == pod.conditions[..i] + [pod.conditions[i]];
  }

  lemma ShortageWhole(insufficient: string -> set<string>, blocked: string, pod: Pod)
    ensures Shortage(insufficient, blocked, pod, pod.conditions) == ShortOf(insufficient, blocked, [pod])
    ensures Shortage(insufficient, blocked, pod, pod.conditions) != {} <==> ShortPod(insufficient, blocked, pod)
    ensures Shortage(insufficient, blocked, pod, []) == {}
  {
    if c :| c in pod.conditions && Short(insufficient, blocked, pod, c) {
      var r :| r in insufficient(c.message);
      assert r in Shortage(insufficient, blocked, pod, pod.conditions);
    }
  }

  lemma KnownExactly(spec: PodSpec, nodes: seq<Node>)
    ensures Eligible(spec, nodes).None? <==> Unknown(spec)
  {}

  /** What the loop over one pod's conditions adds: the shortage, and the nodes if known. */
  method ReadPod(insufficient: string -> set<string>, blocked: string, pod: Pod, nodes: seq<Node>,
                 shortage: set<string>, eligible: Option<set<string>>)
    returns (shortage': set<string>, eligible': Option<set<string>>)
    requires pod.deployment == Some(blocked)
    ensures shortage' == shortage + ShortOf(insufficient, blocked, [pod])
    ensures eligible' == if !ShortPod(insufficient, blocked, pod) || eligible.None? then eligible
                         else if Unknown(pod.spec) then None
                         else Some(eligible.value + Eligible(pod.spec, nodes).value)
  {
    KnownExactly(pod.spec, nodes);
    hide Eligible, Unknown, Short, Shortage;
    ShortageWhole(insufficient, blocked, pod);
    shortage', eligible' := shortage, eligible;
    for i := 0 to |pod.conditions|
      invariant shortage' == shortage + Shortage(insufficient, blocked, pod, pod.conditions[..i])
      invariant eligible' ==
        if eligible.None? || Shortage(insufficient, blocked, pod, pod.conditions[..i]) == {} then eligible
        else if Unknown(pod.spec) then None else Some(eligible.value + Eligible(pod.spec, nodes).value)
    {
      var c := pod.conditions[i];
      ShortageGrows(insufficient, blocked, pod, i);
      if c.reason == "Unschedulable" && c.status == "False" {
        var found := insufficient(c.message);
        if found != {} {
          shortage' := shortage' + found;
          var here := EligibleNodes(pod.spec, nodes);
          if here.None? {
            eligible' := None;
          } else if eligible'.Some? {
            eligible' := Some(eligible'.value + here.value);
          }
        }
      }
    }
    assert pod.conditions[..|pod.conditions|] == pod.conditions;
  }

  method ReclaimCandidates(insufficient: string -> set<string>, blocked: string, idle: seq<string>,
                           read: Option<(seq<Pod>, seq<Node>)>) returns (out: seq<string>)
    ensures out == if read.None? then [] else Candidates(insufficient, blocked, idle, read.value.0, read.value.1)
  {
    if read.None? {
      return [];
    }
    var (pods, nodes) := read.value;
    var shortage: set<string>, eligible: Option<set<string>> := {}, Some({});
    assert ShortOf(insufficient, blocked, []) == {} && WhereOf(insufficient, blocked, [], nodes) == {};
    for i := 0 to |pods|
      invariant shortage == ShortOf(insufficient, blocked, pods[..i])
      invariant eligible == if AnyUnknown(insufficient, blocked, pods[..i]) then None
                            else Some(WhereOf(insufficient, blocked, pods[..i], nodes))
    {
      var pod := pods[i];
      PrefixGrows(insufficient, blocked, pods, nodes, i);
      if pod.deployment == Some(blocked) {
        shortage, eligible := ReadPod(insufficient, blocked, pod, nodes, shortage, eligible);
      } else {
        assert shortage + {} == shortage;
      }
    }
    assert pods[..|pods|] == pods && pods[..0] == [];
    if shortage == {} || eligible.None? || eligible.value == {} {
      NobodyHelps(insufficient, blocked, idle, pods, nodes);
      return [];
    }
    var where := eligible.value;
    out := Filter(id => Useful(pods, shortage, where, id), idle);
    FilterSame(id => Useful(pods, shortage, where, id),
               id => Useful(pods, ShortOf(insufficient, blocked, pods), WhereOf(insufficient, blocked, pods, nodes),
                   id),
               idle);
  }

  /** What one more pod adds to the shortage and to the eligible nodes. */
  lemma PrefixGrows(insufficient: string -> set<string>, blocked: string, pods: seq<Pod>, nodes: seq<Node>, i: nat)
    requires i < |pods|
    ensures ShortOf(insufficient, blocked, pods[..i + 1])
         == ShortOf(insufficient, blocked, pods[..i]) + ShortOf(insufficient, blocked, [pods[i]])
    ensures AnyUnknown(insufficient, blocked, pods[..i + 1])
       <==> AnyUnknown(insufficient, blocked, pods[..i])
            || (ShortPod(insufficient, blocked, pods[i]) && Unknown(pods[i].spec))
    ensures WhereOf(insufficient, blocked, pods[..i + 1], nodes)
         == if ShortPod(insufficient, blocked, pods[i]) && !Unknown(pods[i].spec)
            then WhereOf(insufficient, blocked, pods[..i], nodes) + Eligible(pods[i].spec, nodes).value
            else WhereOf(insufficient, blocked, pods[..i], nodes)
    ensures pods[i].deployment != Some(blocked) ==>
      ShortOf(insufficient, blocked, [pods[i]]) == {} && !ShortPod(insufficient, blocked, pods[i])
  {
    assert pods[..i + 1] == pods[..i] + [pods[i]];
  }

  lemma NobodyHelps(insufficient: string -> set<string>, blocked: string, idle: seq<string>,
                    pods: seq<Pod>, nodes: seq<Node>)
    requires AnyUnknown(insufficient, blocked, pods) || ShortOf(insufficient, blocked, pods) == {}
             || WhereOf(insufficient, blocked, pods, nodes) == {}
    ensures Candidates(insufficient, blocked, idle, pods, nodes) == []
  {
    var shortage := ShortOf(insufficient, blocked, pods);
    var eligible := WhereOf(insufficient, blocked, pods, nodes);
    if !AnyUnknown(insufficient, blocked, pods) {
      FilterNone(id => Useful(pods, shortage, eligible, id), idle);
    }
  }

  /** Main result: the order the cluster lists its pods in never changes the answer. */
  lemma CandidatesForgetPodOrder(insufficient: string -> set<string>, blocked: string, idle: seq<string>,
                                 a: seq<Pod>, b: seq<Pod>, nodes: seq<Node>)
    requires forall pod :: pod in a <==> pod in b
    ensures Candidates(insufficient, blocked, idle, a, nodes) == Candidates(insufficient, blocked, idle, b, nodes)
  {
    var shortage := ShortOf(insufficient, blocked, a);
    var eligible := WhereOf(insufficient, blocked, a, nodes);
    assert shortage == ShortOf(insufficient, blocked, b);
    assert eligible == WhereOf(insufficient, blocked, b, nodes);
    forall id ensures Useful(a, shortage, eligible, id) == Useful(b, shortage, eligible, id) {
      UsefulByMember(a, b, shortage, eligible, id);
      UsefulByMember(b, a, shortage, eligible, id);
    }
    FilterSame(id => Useful(a, shortage, eligible, id), id => Useful(b, shortage, eligible, id), idle);
  }

  lemma UsefulByMember(a: seq<Pod>, b: seq<Pod>, shortage: set<string>, eligible: set<string>, id: string)
    requires forall pod :: pod in a ==> pod in b
    ensures Useful(a, shortage, eligible, id) ==> Useful(b, shortage, eligible, id)
  {
    if i :| 0 <= i < |a| && a[i].deployment == Some(id) && Helps(a[i], shortage, eligible) {
      assert a[i] in b;
    }
  }

  /** Some pod of the blocked deployment is called short of `r`. */
  ghost predicate Lacks(insufficient: string -> set<string>, blocked: string, pods: seq<Pod>, r: string) {
    exists pod, c :: pod in pods && Short(insufficient, blocked, pod, c) && r in insufficient(c.message)
  }

  /** Some short pod of the blocked deployment fits the node of this name. */
  ghost predicate Reaches(insufficient: string -> set<string>, blocked: string, pods: seq<Pod>,
                          nodes: seq<Node>, name: string) {
    exists pod, n: Node ::
      pod in pods && n in nodes && ShortPod(insufficient, blocked, pod) && Fits(pod.spec, n) && n.name == name
  }

  /** Stopping this pod gives back a short resource on a node a short pod could use. */
  ghost predicate Frees(insufficient: string -> set<string>, blocked: string, pods: seq<Pod>, nodes: seq<Node>,
                        pod: Pod, r: string) {
    pod in pods && pod.nodeName.Some? && r in pod.requests && Lacks(insufficient, blocked, pods, r)
    && Reaches(insufficient, blocked, pods, nodes, pod.nodeName.value)
  }

  /**
   Main result: a candidate is idle, has a pod on a node that fits a pod the scheduler
   calls short of capacity, and gives back a resource such a pod is short of; and every
   idle deployment like that is a candidate.
   */
  lemma CandidatesExactly(insufficient: string -> set<string>, blocked: string, idle: seq<string>,
                          pods: seq<Pod>, nodes: seq<Node>, id: string)
    requires !AnyUnknown(insufficient, blocked, pods)
    ensures id in Candidates(insufficient, blocked, idle, pods, nodes) <==>
      id in idle && exists pod: Pod, r ::
        pod.deployment == Some(id) && Frees(insufficient, blocked, pods, nodes, pod, r)
  {
    var shortage := ShortOf(insufficient, blocked, pods);
    var eligible := WhereOf(insufficient, blocked, pods, nodes);
    FilterMembers(x => Useful(pods, shortage, eligible, x), idle);
    assert forall r :: r in shortage <==> Lacks(insufficient, blocked, pods, r);
    assert forall name :: name in eligible <==> Reaches(insufficient, blocked, pods, nodes, name);
    if i :| 0 <= i < |pods| && pods[i].deployment == Some(id) && Helps(pods[i], shortage, eligible) {
      var r :| r in pods[i].requests * shortage;
      assert Frees(insufficient, blocked, pods, nodes, pods[i], r);
    }
    if pod: Pod, r :| pod.deployment == Some(id) && Frees(insufficient, blocked, pods, nodes, pod, r) {
      assert r in pod.requests * shortage;
      var i :| 0 <= i < |pods| && pods[i] == pod;
      assert Useful(pods, shortage, eligible, id);
    }
  }

  // ---------------------------------------------------------------------
  // The same on the fields of specs, taints and conditions
  // ---------------------------------------------------------------------

  /** `t` is a toleration of `taint`: its effect is unset or the taint's, and so is what it names. */
  ghost predicate Covers(t: Toleration, taint: Taint) {
    && (t.effect == None || t.effect == Some("") || t.effect == taint.effect)
    && (t.operator == Some("Exists") ==> t.key == None || t.key == Some("") || t.key == taint.key)
    && (t.operator != Some("Exists") ==> t.key == taint.key && t.value == taint.value)
  }

  /** Schedulable, labelled as asked, and every taint that keeps pods off is covered. */
  ghost predicate CanHost(spec: PodSpec, n: Node) {
    && !n.unschedulable
    && (forall k <- spec.nodeSelector :: k in n.labels && n.labels[k] == spec.nodeSelector[k])
    && forall taint <- n.taints :: taint.effect == Some("NoSchedule") || taint.effect == Some("NoExecute") ==>
         exists t <- spec.tolerations :: Covers(t, taint)
  }

  /** Something other than those fields decides where the pod may go. */
  ghost predicate Unusual(spec: PodSpec) {
    || (spec.schedulerName.Some? && spec.schedulerName.value != "" && spec.schedulerName.value != "default-scheduler")
    || spec.requiredNode || spec.requiredPod || spec.requiredAnti
    || exists s <- spec.spread :: s == None || s == Some("DoNotSchedule")
  }

  lemma FitsMeaning(spec: PodSpec, n: Node)
    ensures Fits(spec, n) <==> CanHost(spec, n)
  {
    forall taint ensures Tolerates(spec.tolerations, taint) <==>
      (taint.effect == Some("NoSchedule") || taint.effect == Some("NoExecute") ==>
         exists t <- spec.tolerations :: Covers(t, taint))
    {
      forall t ensures Admits(t, taint) <==> Covers(t, taint) {}
    }
  }

  lemma UnknownMeaning(spec: PodSpec)
    ensures Unknown(spec) <==> Unusual(spec)
  {
    if i :| 0 <= i < |spec.spread| && spec.spread[i] in {None, Some("DoNotSchedule")} {
      assert spec.spread[i] in spec.spread;
    }
  }

  /**
   Main result, on fields: which nodes are eligible is unknown exactly for a pod another
   scheduler, a required affinity or a forbidding spread places; else they are those that
   can host it. In particular a taint of effect NoSchedule or NoExecute that no toleration
   covers keeps a node out, and a taint of any other effect changes nothing.
   */
  lemma EligibleExactly(spec: PodSpec, nodes: seq<Node>, name: string)
    ensures Eligible(spec, nodes) == None <==> Unusual(spec)
    ensures !Unusual(spec) ==>
      (name in Eligible(spec, nodes).value <==> exists n <- nodes :: CanHost(spec, n) && n.name == name)
  {
    UnknownMeaning(spec);
    hide Unknown, Fits, Unusual, CanHost;
    forall n ensures Fits(spec, n) <==> CanHost(spec, n) {
      FitsMeaning(spec, n);
    }
  }

  /** The scheduler calls this pod of the blocked deployment short of `r`. */
  ghost predicate CalledShort(insufficient: string -> set<string>, blocked: string, pods: seq<Pod>, pod: Pod,
                              r: string)
  {
    pod in pods && pod.deployment == Some(blocked)
    && exists c <- pod.conditions :: c.reason == "Unschedulable" && c.status == "False" && r in insufficient(c.message)
  }

  /** The node of this name can host a short pod. */
  ghost predicate HostsShort(insufficient: string -> set<string>, blocked: string, pods: seq<Pod>, nodes: seq<Node>,
                             name: string)
  {
    exists p, r, n ::
      CalledShort(insufficient, blocked, pods, p, r) && n in nodes && CanHost(p.spec, n) && n.name == name
  }

  /** A pod of `id` holds something short, on a node that can host a short pod. */
  ghost predicate CanFree(insufficient: string -> set<string>, blocked: string, pods: seq<Pod>, nodes: seq<Node>,
                          id: string)
  {
    exists pod: Pod, r :: pod in pods && pod.deployment == Some(id) && r in pod.requests
      && (exists p :: CalledShort(insufficient, blocked, pods, p, r))
      && pod.nodeName.Some? && HostsShort(insufficient, blocked, pods, nodes, pod.nodeName.value)
  }

  lemma LacksMeaning(insufficient: string -> set<string>, blocked: string, pods: seq<Pod>, r: string)
    ensures Lacks(insufficient, blocked, pods, r) <==> exists p :: CalledShort(insufficient, blocked, pods, p, r)
  {
    if pod, c :| pod in pods && Short(insufficient, blocked, pod, c) && r in insufficient(c.message) {
      assert CalledShort(insufficient, blocked, pods, pod, r);
    }
    if p :| CalledShort(insufficient, blocked, pods, p, r) {
      var c :| c in p.conditions && c.reason == "Unschedulable" && c.status == "False" && r in insufficient(c.message);
      assert Short(insufficient, blocked, p, c);
    }
  }

  lemma ShortPodMeaning(insufficient: string -> set<string>, blocked: string, pods: seq<Pod>, pod: Pod)
    requires pod in pods
    ensures ShortPod(insufficient, blocked, pod) <==> exists r :: CalledShort(insufficient, blocked, pods, pod, r)
  {
    if c :| c in pod.conditions && Short(insufficient, blocked, pod, c) {
      var r :| r in insufficient(c.message);
      assert CalledShort(insufficient, blocked, pods, pod, r);
    }
    if r :| CalledShort(insufficient, blocked, pods, pod, r) {
      var c :| c in pod.conditions && c.reason == "Unschedulable" && c.status == "False"
        && r in insufficient(c.message);
      assert Short(insufficient, blocked, pod, c);
    }
  }

  lemma FreesMeaning(insufficient: string -> set<string>, blocked: string, pods: seq<Pod>, nodes: seq<Node>, id: string)
    ensures (exists pod: Pod, r :: pod.deployment == Some(id) && Frees(insufficient, blocked, pods, nodes, pod, r))
       <==> CanFree(insufficient, blocked, pods, nodes, id)
  {
    forall r
      ensures Lacks(insufficient, blocked, pods, r) <==> exists p :: CalledShort(insufficient, blocked, pods, p, r)
    {
      LacksMeaning(insufficient, blocked, pods, r);
    }
    hide CalledShort, Lacks, Reaches, HostsShort;
    forall name
      ensures Reaches(insufficient, blocked, pods, nodes, name) <==>
              HostsShort(insufficient, blocked, pods, nodes, name)
    {
      ReachesMeaning(insufficient, blocked, pods, nodes, name);
    }
    if pod: Pod, r :| pod.deployment == Some(id) && Frees(insufficient, blocked, pods, nodes, pod, r) {
      assert r in pod.requests && exists p :: CalledShort(insufficient, blocked, pods, p, r);
    }
    if pod: Pod, r :|
      pod in pods && pod.deployment == Some(id) && r in pod.requests
      && (exists p :: CalledShort(insufficient, blocked, pods, p, r))
      && pod.nodeName.Some? && HostsShort(insufficient, blocked, pods, nodes, pod.nodeName.value)
    {
      assert Frees(insufficient, blocked, pods, nodes, pod, r);
    }
  }

  lemma ReachesMeaning(insufficient: string -> set<string>, blocked: string, pods: seq<Pod>, nodes: seq<Node>,
                       name: string)
    ensures Reaches(insufficient, blocked, pods, nodes, name) <==>
            HostsShort(insufficient, blocked, pods, nodes, name)
  {
    ShortAreMembers(insufficient, blocked, pods);
    hide Fits, CanHost, CalledShort, ShortPod;
    if pod, n: Node :|
      pod in pods && n in nodes && ShortPod(insufficient, blocked, pod) && Fits(pod.spec, n) && n.name == name
    {
      ShortPodMeaning(insufficient, blocked, pods, pod);
      FitsMeaning(pod.spec, n);
    }
    if p, r, n :|
      CalledShort(insufficient, blocked, pods, p, r) && n in nodes && CanHost(p.spec, n) && n.name == name
    {
      ShortPodMeaning(insufficient, blocked, pods, p);
      FitsMeaning(p.spec, n);
    }
  }

  lemma ShortAreMembers(insufficient: string -> set<string>, blocked: string, pods: seq<Pod>)
    ensures forall p, r :: CalledShort(insufficient, blocked, pods, p, r) ==> p in pods
  {}

  /**
   Main result, on fields: the candidates are the idle deployments, in their order, that
   can free something, and there are none when a short pod is placed by anything unusual.
   */
  lemma CandidatesOnFields(insufficient: string -> set<string>, blocked: string, idle: seq<string>,
                           pods: seq<Pod>, nodes: seq<Node>)
    ensures Candidates(insufficient, blocked, idle, pods, nodes) ==
      if exists p, r :: CalledShort(insufficient, blocked, pods, p, r) && Unusual(p.spec) then []
      else Filter(id => CanFree(insufficient, blocked, pods, nodes, id), idle)
  {
    UnknownOnFields(insufficient, blocked, pods);
    if !AnyUnknown(insufficient, blocked, pods) {
      var shortage := ShortOf(insufficient, blocked, pods);
      var eligible := WhereOf(insufficient, blocked, pods, nodes);
      hide Useful, ShortOf, WhereOf, AnyUnknown, CanFree, Frees;
      forall id | id in idle ensures Useful(pods, shortage, eligible, id)
                             <==> CanFree(insufficient, blocked, pods, nodes, id)
      {
        CandidatesExactly(insufficient, blocked, idle, pods, nodes, id);
        FilterMembers(x => Useful(pods, shortage, eligible, x), idle);
        FreesMeaning(insufficient, blocked, pods, nodes, id);
      }
      FilterSame(id => Useful(pods, shortage, eligible, id),
                 id => CanFree(insufficient, blocked, pods, nodes, id), idle);
    }
  }

  lemma UnknownOnFields(insufficient: string -> set<string>, blocked: string, pods: seq<Pod>)
    ensures AnyUnknown(insufficient, blocked, pods)
       <==> exists p, r :: CalledShort(insufficient, blocked, pods, p, r) && Unusual(p.spec)
  {
    ShortAreMembers(insufficient, blocked, pods);
    hide Unknown, Unusual, CalledShort, ShortPod;
    if pod :| pod in pods && ShortPod(insufficient, blocked, pod) && Unknown(pod.spec) {
      ShortPodMeaning(insufficient, blocked, pods, pod);
      UnknownMeaning(pod.spec);
    }
    if p, r :| CalledShort(insufficient, blocked, pods, p, r) && Unusual(p.spec) {
      ShortPodMeaning(insufficient, blocked, pods, p);
      UnknownMeaning(p.spec);
    }
  }
}

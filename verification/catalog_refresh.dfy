/** Picking candidates for a refresh of the model manifest, and adding repositories to it. */
module CatalogRefresh {
  import opened Sequences
  import opened Ordering
  import opened StringMeaning

  datatype Candidate = Candidate(
    repoId: string, author: Option<string>, family: string, quantization: string,
    score: real, downloads: int, likes: int, createdAt: string,
    bucketHits: seq<string>, rejected: Option<string>)

  /** The group a cap applies to. */
  datatype Group = Group(author: Option<string>, family: string, quantization: string)

  /** One search: the candidates it found, or the record of its failure. */
  datatype Search = Found(candidates: seq<Candidate>) | Failed(record: Candidate)

  function GroupOf(c: Candidate): Group {
    Group(c.author, c.family, c.quantization)
  }

  // ---------------------------------------------------------------------
  // The accepting loop
  // ---------------------------------------------------------------------

  /** Accepted candidates in the order they came, how many each group has, and the rejected. */
  datatype Picked = Picked(accepted: seq<Candidate>, counts: map<Group, nat>, rejected: seq<Candidate>)

  function RepoIds(cs: seq<Candidate>): seq<string> {
    Map((c: Candidate) => c.repoId, cs)
  }

  function IndexOf(cs: seq<Candidate>, repo: string): (i: nat)
    ensures i <= |cs| && (i < |cs| ==> cs[i].repoId == repo)
    ensures forall k :: 0 <= k < i ==> cs[k].repoId != repo
  {
    if cs == [] || cs[0].repoId == repo then 0 else 1 + IndexOf(cs[1..], repo)
  }

  function MergedHits(into: seq<string>, other: seq<string>): seq<string>
    decreases |other|
  {
    if other == [] then into
    else MergedHits(if other[0] in into then into else into + [other[0]], other[1..])
  }

  /** The hits of both, the better score; everything else stays the first one's. */
  function Merged(into: Candidate, other: Candidate): Candidate {
    into.(bucketHits := MergedHits(into.bucketHits, other.bucketHits),
          score := if into.score >= other.score then into.score else other.score)
  }

  function Count(counts: map<Group, nat>, g: Group): nat {
    if g in counts then counts[g] else 0
  }

  function Offer(p: Picked, c: Candidate, existing: set<string>, cap: int): Picked {
    if c.repoId == "" || c.repoId in existing then p
    else if c.rejected.Some? then p.(rejected := p.rejected + [c]) else
      var i := IndexOf(p.accepted, c.repoId);
      if i < |p.accepted| then p.(accepted := p.accepted[i := Merged(p.accepted[i], c)])
      else if cap > 0 && Count(p.counts, GroupOf(c)) >= cap then p
      else p.(accepted := p.accepted + [c], counts := p.counts[GroupOf(c) := Count(p.counts, GroupOf(c)) + 1])
  }

  function OfferAll(p: Picked, cs: seq<Candidate>, existing: set<string>, cap: int): Picked {
    if cs == [] then p else Offer(OfferAll(p, Init(cs), existing, cap), Last(cs), existing, cap)
  }

  function Collect(searches: seq<Search>, existing: set<string>, cap: int): Picked {
    if searches == [] then Picked([], map[], []) else
      var p := Collect(Init(searches), existing, cap);
      match Last(searches)
      case Failed(record) => p.(rejected := p.rejected + [record])
      case Found(cs) => OfferAll(p, cs, existing, cap)
  }

  // ---------------------------------------------------------------------
  // Ranking and lanes
  // ---------------------------------------------------------------------

  /** Rank keys compared field by field; a larger key ranks first. */
  predicate RankLe(a: Candidate, b: Candidate) {
    var x, y := |a.bucketHits|, |b.bucketHits|;
    if x != y then x < y
    else if a.score != b.score then a.score < b.score
    else if a.downloads != b.downloads then a.downloads < b.downloads
    else if a.likes != b.likes then a.likes < b.likes
    else if a.createdAt != b.createdAt then StrLe(a.createdAt, b.createdAt)
    else StrLe(a.repoId, b.repoId)
  }

  predicate RanksBefore(a: Candidate, b: Candidate) {
    RankLe(b, a)
  }

  function Ranked(cs: seq<Candidate>): seq<Candidate> {
    Sort((a, b) => RanksBefore(a, b), cs)
  }

  function Take<T>(n: nat, s: seq<T>): seq<T> {
    if |s| <= n then s else s[..n]
  }

  function Lane(q: string, cs: seq<Candidate>): seq<Candidate> {
    Filter((c: Candidate) => c.quantization == q, cs)
  }

  /** The best `limit` of each lane, or all when there is no limit. */
  function Selected(p: Picked, limit: int): seq<Candidate> {
    var ordered := Ranked(p.accepted);
    if limit > 0 then Take(limit, Lane("unquantized", ordered)) + Take(limit, Lane("quantized", ordered))
    else ordered
  }

  /** The picker's working state, updated in place by the nested loops. */
  class Picker {
    var accepted: seq<Candidate>
    var counts: map<Group, nat>
    var rejected: seq<Candidate>

    ghost function State(): Picked
      reads this
    {
      Picked(accepted, counts, rejected)
    }

    constructor ()
      ensures State() == Picked([], map[], [])
    {
      accepted, counts, rejected := [], map[], [];
    }

    method Consider(c: Candidate, existing: set<string>, cap: int)
      modifies this
      ensures State() == Offer(old(State()), c, existing, cap)
    {
      if c.repoId == "" || c.repoId in existing {
        return;
      }
      if c.rejected.Some? {
        rejected := rejected + [c];
        return;
      }
      var group := GroupOf(c);
      var i := IndexOf(accepted, c.repoId);
      if cap > 0 && Count(counts, group) >= cap && i == |accepted| {
        return;
      }
      if i < |accepted| {
        accepted := accepted[i := Merged(accepted[i], c)];
      } else {
        accepted := accepted + [c];
        counts := counts[group := Count(counts, group) + 1];
      }
    }
  }

  method PickRefreshCandidates(searches: seq<Search>, limit: int, existing: set<string>, cap: int)
    returns (accepted: seq<Candidate>, rejected: seq<Candidate>)
    ensures accepted == Selected(Collect(searches, existing, cap), limit)
    ensures rejected == Collect(searches, existing, cap).rejected
  {
    var picker := new Picker();
    for i := 0 to |searches|
      invariant fresh(picker) && picker.State() == Collect(searches[..i], existing, cap)
    {
      assert Init(searches[..i + 1]) == searches[..i];
      match searches[i] {
        case Failed(record) => picker.rejected := picker.rejected + [record];
        case Found(cs) =>
          ghost var before := picker.State();
          for j := 0 to |cs|
            invariant fresh(picker) && picker.State() == OfferAll(before, cs[..j], existing, cap)
          {
            assert Init(cs[..j + 1]) == cs[..j];
            picker.Consider(cs[j], existing, cap);
          }
          assert cs[..|cs|] == cs;
      }
    }
    assert searches[..|searches|] == searches;
    rejected := picker.rejected;
    var ordered := Ranked(picker.accepted);
    if limit <= 0 {
      return ordered, rejected;
    }
    var unquantized := FirstOfLane(limit, "unquantized", ordered);
    var quantized := FirstOfLane(limit, "quantized", ordered);
    accepted := unquantized + quantized;
  }

  method FirstOfLane(limit: nat, q: string, ordered: seq<Candidate>) returns (lane: seq<Candidate>)
    ensures lane == Take(limit, Lane(q, ordered))
  {
    lane := [];
    for i := 0 to |ordered|
      invariant lane == Take(limit, Lane(q, ordered[..i]))
    {
      assert ordered[..i + 1] == ordered[..i] + [ordered[i]];
      FilterAppend((c: Candidate) => c.quantization == q, ordered[..i], [ordered[i]]);
      assert [ordered[i]][1..] == [];
      if ordered[i].quantization == q && |lane| < limit {
        lane := lane + [ordered[i]];
      }
    }
    assert ordered[..|ordered|] == ordered;
  }

  // ---------------------------------------------------------------------
  // What is picked
  // ---------------------------------------------------------------------

  function InGroup(g: Group, cs: seq<Candidate>): nat {
    |Filter(c => GroupOf(c) == g, cs)|
  }

  /** Distinct new repositories, none rejected, and each group counted and within its cap. */
  ghost predicate Sound(p: Picked, existing: set<string>, cap: int) {
    && Distinct(RepoIds(p.accepted))
    && (forall c :: c in p.accepted ==> c.repoId != "" && c.repoId !in existing && c.rejected.None?)
    && (forall g :: Count(p.counts, g) == InGroup(g, p.accepted))
    && (cap > 0 ==> forall g :: InGroup(g, p.accepted) <= cap)
  }

  lemma MergeKeepsIdentity(into: Candidate, other: Candidate)
    ensures var m := Merged(into, other);
      m.repoId == into.repoId && GroupOf(m) == GroupOf(into) && m.rejected == into.rejected
      && into.score <= m.score && other.score <= m.score
  {}

  lemma {:induction false} UpdateKeepsGroups(g: Group, cs: seq<Candidate>, i: nat, c: Candidate)
    requires i < |cs| && GroupOf(c) == GroupOf(cs[i])
    ensures InGroup(g, cs[i := c]) == InGroup(g, cs)
  {
    if i > 0 {
      UpdateKeepsGroups(g, cs[1..], i - 1, c);
      assert cs[i := c][1..] == cs[1..][i - 1 := c];
    } else {
      assert cs[i := c][1..] == cs[1..];
    }
  }

  lemma GroupsGrow(g: Group, cs: seq<Candidate>, c: Candidate)
    ensures InGroup(g, cs + [c]) == InGroup(g, cs) + if GroupOf(c) == g then 1 else 0
  {
    FilterAppend(x => GroupOf(x) == g, cs, [c]);
    assert [c][1..] == [];
  }

  lemma OfferIsSound(p: Picked, c: Candidate, existing: set<string>, cap: int)
    requires Sound(p, existing, cap)
    ensures Sound(Offer(p, c, existing, cap), existing, cap)
  {
    var next := Offer(p, c, existing, cap);
    var i := IndexOf(p.accepted, c.repoId);
    if next.accepted != p.accepted {
      if i < |p.accepted| {
        MergeKeepsIdentity(p.accepted[i], c);
        assert RepoIds(next.accepted) == RepoIds(p.accepted);
        forall g ensures InGroup(g, next.accepted) == InGroup(g, p.accepted) {
          UpdateKeepsGroups(g, p.accepted, i, next.accepted[i]);
        }
      } else {
        forall g ensures InGroup(g, next.accepted) == InGroup(g, p.accepted) + if GroupOf(c) == g then 1 else 0 {
          GroupsGrow(g, p.accepted, c);
        }
        assert RepoIds(next.accepted) == RepoIds(p.accepted) + [c.repoId];
      }
    }
  }

  lemma {:induction false} OfferAllIsSound(p: Picked, cs: seq<Candidate>, existing: set<string>, cap: int)
    requires Sound(p, existing, cap)
    ensures Sound(OfferAll(p, cs, existing, cap), existing, cap)
  {
    if cs != [] {
      OfferAllIsSound(p, Init(cs), existing, cap);
      OfferIsSound(OfferAll(p, Init(cs), existing, cap), Last(cs), existing, cap);
    }
  }

  lemma {:induction false} CollectIsSound(searches: seq<Search>, existing: set<string>, cap: int)
    ensures Sound(Collect(searches, existing, cap), existing, cap)
  {
    if searches != [] {
      CollectIsSound(Init(searches), existing, cap);
      if Last(searches).Found? {
        OfferAllIsSound(Collect(Init(searches), existing, cap), Last(searches).candidates, existing, cap);
      }
    }
  }

  lemma RankOrder()
    ensures TotalPreorder((a, b) => RanksBefore(a, b))
    ensures forall a, b :: RanksBefore(a, b) && RanksBefore(b, a) ==> a.repoId == b.repoId
  {
    forall a, b
      ensures RanksBefore(a, b) || RanksBefore(b, a)
      ensures RanksBefore(a, b) && RanksBefore(b, a) ==> a.repoId == b.repoId
    {
      StrLeTotal(a.createdAt, b.createdAt);
      StrLeTotal(a.repoId, b.repoId);
    }
    forall a, b, c | RanksBefore(a, b) && RanksBefore(b, c) ensures RanksBefore(a, c) {
      RankTrans(a, b, c);
    }
  }

  lemma RankTrans(a: Candidate, b: Candidate, c: Candidate)
    requires RanksBefore(a, b) && RanksBefore(b, c)
    ensures RanksBefore(a, c)
  {
    if StrLe(c.createdAt, b.createdAt) && StrLe(b.createdAt, a.createdAt) {
      StrLeTrans(c.createdAt, b.createdAt, a.createdAt);
      StrLeTotal(a.createdAt, b.createdAt);
      StrLeTotal(b.createdAt, c.createdAt);
    }
    if StrLe(c.repoId, b.repoId) && StrLe(b.repoId, a.repoId) {
      StrLeTrans(c.repoId, b.repoId, a.repoId);
    }
  }

  lemma RankedFacts(cs: seq<Candidate>)
    ensures Sorted((a, b) => RanksBefore(a, b), Ranked(cs))
    ensures multiset(Ranked(cs)) == multiset(cs) && forall c :: c in Ranked(cs) <==> c in cs
  {
    RankOrder();
    SortSorts((a, b) => RanksBefore(a, b), cs);
  }

  lemma {:induction false} FilterSorted<T(!new)>(le: (T, T) -> bool, p: T -> bool, s: seq<T>)
    requires Sorted(le, s)
    ensures Sorted(le, Filter(p, s))
  {
    if s != [] {
      FilterSorted(le, p, s[1..]);
      FilterMembers(p, s[1..]);
      var rest := Filter(p, s[1..]);
      forall x | x in rest ensures le(s[0], x) {
        var i :| 0 <= i < |s[1..]| && s[1..][i] == x;
        assert s[1 + i] == x;
      }
    }
  }

  lemma TakeIsBest<T(!new)>(le: (T, T) -> bool, n: nat, s: seq<T>)
    requires Sorted(le, s)
    ensures |Take(n, s)| == if |s| < n then |s| else n
    ensures forall i, j :: 0 <= i < |Take(n, s)| <= j < |s| ==> le(Take(n, s)[i], s[j])
  {}

  /** A member of the selection that could be beaten: `d` was left out of `c`'s lane. */
  ghost predicate LeftOut(p: Picked, limit: int, d: Candidate) {
    d in p.accepted && d !in Selected(p, limit)
  }

  /**
   Main result: with a limit, each lane is its best `limit` candidates in rank order, so
   whatever a lane leaves out ranks behind all it has, and only full lanes leave any out.
   */
  lemma LanesAreBest(p: Picked, limit: int, q: string, c: Candidate, d: Candidate)
    requires limit > 0 && q in {"unquantized", "quantized"}
    requires c in Selected(p, limit) && c.quantization == q
    requires LeftOut(p, limit, d) && d.quantization == q
    ensures c in p.accepted && RanksBefore(c, d)
    ensures |Lane(q, Selected(p, limit))| == limit
  {
    var ordered := Ranked(p.accepted);
    var lane := Lane(q, ordered);
    var le := (a, b) => RanksBefore(a, b);
    RankedFacts(p.accepted);
    FilterMembers((x: Candidate) => x.quantization == q, ordered);
    FilterSorted(le, (x: Candidate) => x.quantization == q, ordered);
    TakeIsBest(le, limit, lane);
    LaneOfSelected(p, limit, q);
    LaneMember(q, Selected(p, limit), c);
    var i :| 0 <= i < |Take(limit, lane)| && Take(limit, lane)[i] == c;
    assert c == lane[i] && c in lane;
    var j :| 0 <= j < |lane| && lane[j] == d;
    NotTakenIsLater(limit, lane, j);
  }

  lemma NotTakenIsLater<T>(n: nat, s: seq<T>, j: nat)
    requires j < |s| && s[j] !in Take(n, s)
    ensures j >= |Take(n, s)| && |Take(n, s)| == n
  {
    assert forall k :: 0 <= k < |Take(n, s)| ==> s[k] == Take(n, s)[k] && s[k] in Take(n, s);
  }

  lemma LaneMember(q: string, cs: seq<Candidate>, c: Candidate)
    requires c in cs && c.quantization == q
    ensures c in Lane(q, cs)
  {
    FilterMembers((x: Candidate) => x.quantization == q, cs);
  }

  /** Each lane of the selection is the start of that lane in the global order. */
  lemma LaneOfSelected(p: Picked, limit: int, q: string)
    requires limit > 0 && q in {"unquantized", "quantized"}
    ensures Lane(q, Selected(p, limit)) == Take(limit, Lane(q, Ranked(p.accepted)))
    ensures forall c :: c in Take(limit, Lane(q, Ranked(p.accepted))) ==> c in Selected(p, limit)
  {
    var ordered := Ranked(p.accepted);
    var u, z := Take(limit, Lane("unquantized", ordered)), Take(limit, Lane("quantized", ordered));
    LaneIsPure("unquantized", ordered, limit);
    LaneIsPure("quantized", ordered, limit);
    FilterAppend((c: Candidate) => c.quantization == q, u, z);
    if q == "unquantized" {
      FilterAll((c: Candidate) => c.quantization == q, u);
      FilterNone((c: Candidate) => c.quantization == q, z);
      assert u + [] == u;
    } else {
      FilterNone((c: Candidate) => c.quantization == q, u);
      FilterAll((c: Candidate) => c.quantization == q, z);
      assert [] + z == z;
    }
  }

  lemma LaneIsPure(q: string, cs: seq<Candidate>, limit: int)
    requires limit > 0
    ensures forall c :: c in Take(limit, Lane(q, cs)) ==> c.quantization == q && c in cs
  {
    FilterMembers((c: Candidate) => c.quantization == q, cs);
    var lane := Lane(q, cs);
    forall c | c in Take(limit, lane) ensures c in lane {
      var i :| 0 <= i < |Take(limit, lane)| && Take(limit, lane)[i] == c;
      assert lane[i] == c;
    }
  }

  /**
   Main result: a refresh selects distinct repositories, none of them in the manifest or
   rejected, and never more than the cap from one author, family and quantization.
   */
  lemma SelectionIsSound(searches: seq<Search>, limit: int, existing: set<string>, cap: int)
    ensures var out := Selected(Collect(searches, existing, cap), limit);
      && Distinct(RepoIds(out))
      && (forall c :: c in out ==> c.repoId != "" && c.repoId !in existing && c.rejected.None?)
      && (cap > 0 ==> forall g :: InGroup(g, out) <= cap)
  {
    var p := Collect(searches, existing, cap);
    var ordered := Ranked(p.accepted);
    CollectIsSound(searches, existing, cap);
    hide Collect;
    RankedFacts(p.accepted);
    DistinctRepos(p.accepted, ordered);
    forall g ensures InGroup(g, ordered) == InGroup(g, p.accepted) {
      GroupOfPermutation(g, ordered, p.accepted);
    }
    if limit > 0 {
      LanesAreParts(ordered, limit);
    }
  }

  lemma GroupOfPermutation(g: Group, a: seq<Candidate>, b: seq<Candidate>)
    requires multiset(a) == multiset(b)
    ensures InGroup(g, a) == InGroup(g, b)
  {
    FilterOfPermutation(c => GroupOf(c) == g, a, b);
  }

  lemma {:induction false} RepoCounts(cs: seq<Candidate>, r: string)
    ensures multiset(RepoIds(cs))[r] == |Filter((c: Candidate) => c.repoId == r, cs)|
  {
    if cs != [] {
      RepoCounts(cs[1..], r);
      assert RepoIds(cs) == [cs[0].repoId] + RepoIds(cs[1..]);
    }
  }

  lemma DistinctRepos(a: seq<Candidate>, b: seq<Candidate>)
    requires Distinct(RepoIds(a)) && multiset(a) == multiset(b)
    ensures Distinct(RepoIds(b))
  {
    DistinctCounts(RepoIds(a));
    DistinctCounts(RepoIds(b));
    forall r ensures multiset(RepoIds(b))[r] <= 1 {
      RepoCounts(a, r);
      RepoCounts(b, r);
      FilterOfPermutation((c: Candidate) => c.repoId == r, a, b);
      assert multiset(RepoIds(a))[r] <= 1;
    }
  }

  /** The two lanes together hold no repository twice, and no group more often, than the order they are cut from. */
  lemma LanesAreParts(ordered: seq<Candidate>, limit: int)
    requires limit > 0 && Distinct(RepoIds(ordered))
    ensures var out := Take(limit, Lane("unquantized", ordered)) + Take(limit, Lane("quantized", ordered));
      && Distinct(RepoIds(out)) && (forall c :: c in out ==> c in ordered)
      && forall g :: InGroup(g, out) <= InGroup(g, ordered)
  {
    var u, z := Lane("unquantized", ordered), Lane("quantized", ordered);
    var out := Take(limit, u) + Take(limit, z);
    LaneIsPure("unquantized", ordered, limit);
    LaneIsPure("quantized", ordered, limit);
    forall c ensures multiset(out)[c] <= multiset(ordered)[c] {
      FilterCounts((x: Candidate) => x.quantization == "unquantized", ordered, c);
      FilterCounts((x: Candidate) => x.quantization == "quantized", ordered, c);
      TakeCounts(limit, u, c);
      TakeCounts(limit, z, c);
    }
    SmallerMultiset(out, ordered);
  }

  lemma TakeCounts<T>(n: nat, s: seq<T>, x: T)
    ensures multiset(Take(n, s))[x] <= multiset(s)[x]
  {
    if |s| > n {
      assert s == s[..n] + s[n..];
    }
  }

  lemma SmallerMultiset(out: seq<Candidate>, ordered: seq<Candidate>)
    requires Distinct(RepoIds(ordered)) && forall c :: multiset(out)[c] <= multiset(ordered)[c]
    ensures Distinct(RepoIds(out))
    ensures forall g :: InGroup(g, out) <= InGroup(g, ordered)
  {
    DistinctCounts(RepoIds(ordered));
    DistinctCounts(RepoIds(out));
    forall r ensures multiset(RepoIds(out))[r] <= 1 {
      RepoCounts(out, r);
      RepoCounts(ordered, r);
      SmallerFilter((c: Candidate) => c.repoId == r, out, ordered);
      assert multiset(RepoIds(ordered))[r] <= 1;
    }
    forall g ensures InGroup(g, out) <= InGroup(g, ordered) {
      SmallerFilter(c => GroupOf(c) == g, out, ordered);
    }
  }

  lemma SmallerFilter<T(!new)>(p: T -> bool, a: seq<T>, b: seq<T>)
    requires forall x :: multiset(a)[x] <= multiset(b)[x]
    ensures |Filter(p, a)| <= |Filter(p, b)|
  {
    forall x ensures multiset(Filter(p, a))[x] <= multiset(Filter(p, b))[x] {
      FilterCounts(p, a, x);
      FilterCounts(p, b, x);
    }
    var m := multiset(Filter(p, b)) - multiset(Filter(p, a));
    assert multiset(Filter(p, b)) == multiset(Filter(p, a)) + m;
    assert |multiset(Filter(p, b))| == |multiset(Filter(p, a))| + |m|;
  }

  // ---------------------------------------------------------------------
  // The same on the candidates' fields
  // ---------------------------------------------------------------------

  /** More bucket hits, then the higher score, more downloads, more likes, the later date, the later name. */
  ghost predicate AtLeastAsGood(c: Candidate, d: Candidate) {
    || |c.bucketHits| > |d.bucketHits|
    || (|c.bucketHits| == |d.bucketHits| && (
        || c.score > d.score
        || (c.score == d.score && (
            || c.downloads > d.downloads
            || (c.downloads == d.downloads && (
                || c.likes > d.likes
                || (c.likes == d.likes && NoLater(d.createdAt, c.createdAt)
                    && (c.createdAt == d.createdAt ==> NoLater(d.repoId, c.repoId)))))))))
  }

  lemma RankMeaning(c: Candidate, d: Candidate)
    ensures RanksBefore(c, d) <==> AtLeastAsGood(c, d)
  {
    StrLeMeaning(d.createdAt, c.createdAt);
    StrLeMeaning(d.repoId, c.repoId);
  }

  /**
   Main result, on fields: a candidate left out of a lane is never better than one taken.
   It has no more bucket hits; with as many, no higher score; then no more downloads, no
   more likes, and no later creation date.
   */
  lemma LeftOutIsNoBetter(searches: seq<Search>, limit: int, existing: set<string>, cap: int, q: string,
                          c: Candidate, d: Candidate)
    requires limit > 0 && (q == "unquantized" || q == "quantized")
    requires c in Selected(Collect(searches, existing, cap), limit) && c.quantization == q
    requires d in Collect(searches, existing, cap).accepted && d.quantization == q
    requires d !in Selected(Collect(searches, existing, cap), limit)
    ensures |d.bucketHits| <= |c.bucketHits|
    ensures |d.bucketHits| == |c.bucketHits| ==> d.score <= c.score
    ensures |d.bucketHits| == |c.bucketHits| && d.score == c.score ==> d.downloads <= c.downloads
    ensures |d.bucketHits| == |c.bucketHits| && d.score == c.score && d.downloads == c.downloads ==>
      d.likes <= c.likes && (d.likes == c.likes ==> NoLater(d.createdAt, c.createdAt))
  {
    LanesAreBest(Collect(searches, existing, cap), limit, q, c, d);
    RankMeaning(c, d);
  }

  /** How many have this quantization. */
  ghost function HowMany(q: string, cs: seq<Candidate>): nat {
    if cs == [] then 0 else (if cs[0].quantization == q then 1 else 0) + HowMany(q, cs[1..])
  }

  lemma {:induction false} LaneLength(q: string, cs: seq<Candidate>)
    ensures |Lane(q, cs)| == HowMany(q, cs)
  {
    if cs != [] {
      LaneLength(q, cs[1..]);
    }
  }

  lemma HowManyOfPermutation(q: string, a: seq<Candidate>, b: seq<Candidate>)
    requires multiset(a) == multiset(b)
    ensures HowMany(q, a) == HowMany(q, b)
  {
    LaneLength(q, a);
    LaneLength(q, b);
    FilterOfPermutation((c: Candidate) => c.quantization == q, a, b);
  }

  /**
   Main result, on fields: with a limit, the unquantized come before the quantized, each
   lane best first and as long as the limit and the accepted allow; without one, all
   accepted come best first.
   */
  lemma SelectionExactly(p: Picked, limit: int)
    ensures var out := Selected(p, limit);
      if limit <= 0 then
        && multiset(out) == multiset(p.accepted)
        && forall i, j :: 0 <= i < j < |out| ==> AtLeastAsGood(out[i], out[j])
      else
        var n := HowMany("unquantized", p.accepted); var k := if n < limit then n else limit;
        var m := HowMany("quantized", p.accepted);
        && |out| == k + (if m < limit then m else limit)
        && (forall i :: 0 <= i < |out| ==>
              out[i] in p.accepted && out[i].quantization == if i < k then "unquantized" else "quantized")
        && (forall i, j :: 0 <= i < j < |out| && (i < k <==> j < k) ==> AtLeastAsGood(out[i], out[j]))
  {
    var ordered := Ranked(p.accepted);
    RankedFacts(p.accepted);
    forall c, d ensures RanksBefore(c, d) <==> AtLeastAsGood(c, d) {
      RankMeaning(c, d);
    }
    hide RanksBefore, AtLeastAsGood, Ranked;
    if limit > 0 {
      LaneExactly("unquantized", ordered, p.accepted, limit);
      LaneExactly("quantized", ordered, p.accepted, limit);
    }
  }

  lemma LaneExactly(q: string, ordered: seq<Candidate>, accepted: seq<Candidate>, limit: nat)
    requires limit > 0 && Sorted((a, b) => RanksBefore(a, b), ordered) && multiset(ordered) == multiset(accepted)
    ensures var lane := Take(limit, Lane(q, ordered));
      && |lane| == (if HowMany(q, accepted) < limit then HowMany(q, accepted) else limit)
      && (forall i :: 0 <= i < |lane| ==> lane[i] in accepted && lane[i].quantization == q)
      && forall i, j :: 0 <= i < j < |lane| ==> RanksBefore(lane[i], lane[j])
  {
    hide RanksBefore;
    FilterSorted((a, b) => RanksBefore(a, b), (c: Candidate) => c.quantization == q, ordered);
    FilterMembers((c: Candidate) => c.quantization == q, ordered);
    LaneLength(q, ordered);
    HowManyOfPermutation(q, ordered, accepted);
    PermutationMembers(ordered, accepted);
    var lane := Lane(q, ordered);
    assert forall i :: 0 <= i < |lane| ==> lane[i] in lane;
  }

  /** Both lists of hits: the first as it was, then what is new of the second, in order, each once. */
  lemma {:induction false} MergedHitsExactly(into: seq<string>, other: seq<string>)
    ensures var both := MergedHits(into, other);
      && into <= both && (forall h :: h in both <==> h in into || h in other)
      && Subsequence(both[|into|..], other)
    decreases |other|
  {
    if other == [] {
      assert into[|into|..] == [];
    } else {
      var head, rest, both := other[0], other[1..], MergedHits(into, other);
      assert other == [head] + rest;
      hide Subsequence;
      if head in into {
        MergedHitsExactly(into, rest);
        SubsequenceSkip(both[|into|..], head, rest);
      } else {
        MergedHitsExactly(into + [head], rest);
        assert both[|into|..] == [head] + both[|into| + 1..];
        SubsequenceRefl([head]);
        SubsequenceAppend([head], [head], both[|into| + 1..], rest);
      }
    }
  }

  lemma {:induction false} MergedHitsOnce(into: seq<string>, other: seq<string>)
    requires Distinct(into)
    ensures Distinct(MergedHits(into, other))
    decreases |other|
  {
    if other != [] {
      MergedHitsOnce(if other[0] in into then into else into + [other[0]], other[1..]);
    }
  }

  /** How many accepted candidates share the author, family and quantization of `c`. */
  ghost function Siblings(cs: seq<Candidate>, c: Candidate): nat {
    if cs == [] then 0 else
      (if cs[0].author == c.author && cs[0].family == c.family && cs[0].quantization == c.quantization then 1 else 0)
      + Siblings(cs[1..], c)
  }

  lemma {:induction false} SiblingsAreGroup(cs: seq<Candidate>, c: Candidate)
    ensures InGroup(GroupOf(c), cs) == Siblings(cs, c)
  {
    if cs != [] {
      SiblingsAreGroup(cs[1..], c);
      var same := x => GroupOf(x) == GroupOf(c);
      assert Filter(same, cs) == (if same(cs[0]) then [cs[0]] else []) + Filter(same, cs[1..]);
    }
  }

  /** The state after one more hit of a search, whatever the searches before. */
  lemma OfferExactly(p: Picked, c: Candidate, existing: set<string>, cap: int)
    requires Sound(p, existing, cap)
    ensures var next := Offer(p, c, existing, cap);
      if c.repoId == "" || c.repoId in existing then next == p
      else if c.rejected.Some? then next == p.(rejected := p.rejected + [c])
      else if exists i :: 0 <= i < |p.accepted| && p.accepted[i].repoId == c.repoId then
        && next.rejected == p.rejected && |next.accepted| == |p.accepted|
        && forall i :: 0 <= i < |p.accepted| ==>
             var a, b := p.accepted[i], next.accepted[i];
             b == if a.repoId != c.repoId then a
                  else a.(bucketHits := MergedHits(a.bucketHits, c.bucketHits),
                          score := if a.score < c.score then c.score else a.score)
      else
        && next.rejected == p.rejected
        && next.accepted == if cap > 0 && Siblings(p.accepted, c) >= cap then p.accepted else p.accepted + [c]
  {
    SiblingsAreGroup(p.accepted, c);
    assert forall k :: 0 <= k < |p.accepted| ==> RepoIds(p.accepted)[k] == p.accepted[k].repoId;
  }

  /** Every state the picker reaches is sound, so each hit acts as `OfferExactly` says. */
  lemma HitsActExactly(searches: seq<Search>, cs: seq<Candidate>, c: Candidate, record: Candidate,
                       existing: set<string>, cap: int)
    ensures var p := Collect(searches + [Found(cs)], existing, cap);
      && Sound(p, existing, cap)
      && Collect(searches + [Found(cs + [c])], existing, cap) == Offer(p, c, existing, cap)
    ensures Collect(searches + [Found([])], existing, cap) == Collect(searches, existing, cap)
    ensures Collect([], existing, cap) == Picked([], map[], [])
    ensures var p := Collect(searches, existing, cap);
      Collect(searches + [Failed(record)], existing, cap) == p.(rejected := p.rejected + [record])
  {
    CollectIsSound(searches + [Found(cs)], existing, cap);
    CollectNext(searches, Found(cs), existing, cap);
    CollectNext(searches, Found(cs + [c]), existing, cap);
    CollectNext(searches, Found([]), existing, cap);
    CollectNext(searches, Failed(record), existing, cap);
    assert Init(cs + [c]) == cs;
  }

  lemma CollectNext(searches: seq<Search>, last: Search, existing: set<string>, cap: int)
    ensures var p := Collect(searches, existing, cap);
      Collect(searches + [last], existing, cap) ==
        if last.Failed? then p.(rejected := p.rejected + [last.record])
        else OfferAll(p, last.candidates, existing, cap)
  {
    assert Init(searches + [last]) == searches;
  }

  // ---------------------------------------------------------------------
  // Adding repositories to the manifest
  // ---------------------------------------------------------------------

  /** A manifest entry: the repository it serves, and its text. */
  datatype Entry = Entry(hfModelId: string, text: string)

  type Manifest = map<string, Entry>

  /** What discovering a repository gives: its key and its entry. */
  datatype Discovery = Discovery(key: string, entry: Entry)

  predicate HasModel(m: Manifest, key: string, repo: string) {
    key in m || exists k :: k in m.Keys && m[k].hfModelId == repo
  }

  function AddOne(m: Manifest, d: Discovery, repo: string): Manifest {
    if HasModel(m, d.key, repo) then m else m[d.key := d.entry]
  }

  function AddAll(m: Manifest, discover: string -> Discovery, repos: seq<string>): Manifest {
    if repos == [] then m else AddOne(AddAll(m, discover, Init(repos)), discover(Last(repos)), Last(repos))
  }

  /** The command: the new manifest is written when something was added and it is confirmed. */
  method RunAdd(manifest: Manifest, discover: string -> Discovery, repos: seq<string>, confirmed: bool)
    returns (after: Manifest, added: nat)
    ensures after == if confirmed then AddAll(manifest, discover, repos) else manifest
    ensures added == 0 <==> AddAll(manifest, discover, repos) == manifest
  {
    var updated := manifest;
    added := 0;
    for i := 0 to |repos|
      invariant updated == AddAll(manifest, discover, repos[..i])
      invariant manifest.Keys <= updated.Keys
      invariant added > 0 <==> manifest.Keys != updated.Keys
      invariant added == 0 ==> updated == manifest
    {
      assert Init(repos[..i + 1]) == repos[..i];
      var d := discover(repos[i]);
      if !HasModel(updated, d.key, repos[i]) {
        updated := updated[d.key := d.entry];
        added := added + 1;
      }
    }
    assert repos[..|repos|] == repos;
    after := if added > 0 && confirmed then updated else manifest;
  }

  /** Existing entries are never altered, and every repository asked for is then present. */
  lemma {:induction false} AddOnlyExtends(m: Manifest, discover: string -> Discovery, repos: seq<string>)
    ensures var after := AddAll(m, discover, repos);
      && (forall k :: k in m ==> k in after && after[k] == m[k])
      && (forall r :: r in repos ==> HasModel(after, discover(r).key, r))
  {
    if repos != [] {
      var before := AddAll(m, discover, Init(repos));
      var d := discover(Last(repos));
      AddOnlyExtends(m, discover, Init(repos));
      assert repos == Init(repos) + [Last(repos)];
      forall r | r in repos ensures HasModel(AddAll(m, discover, repos), discover(r).key, r) {
        if r in Init(repos) {
          HasModelGrows(before, d, Last(repos), discover(r).key, r);
        }
      }
    }
  }

  lemma HasModelGrows(m: Manifest, d: Discovery, repo: string, key: string, other: string)
    requires HasModel(m, key, other)
    ensures HasModel(AddOne(m, d, repo), key, other)
  {
    if key !in m && !HasModel(m, d.key, repo) {
      var k :| k in m.Keys && m[k].hfModelId == other;
      assert k in m[d.key := d.entry].Keys && m[d.key := d.entry][k] == m[k];
    }
  }

  lemma {:induction false} PresentAddsNothing(m: Manifest, discover: string -> Discovery, repos: seq<string>)
    requires forall r :: r in repos ==> HasModel(m, discover(r).key, r)
    ensures AddAll(m, discover, repos) == m
  {
    if repos != [] {
      assert repos == Init(repos) + [Last(repos)];
      PresentAddsNothing(m, discover, Init(repos));
    }
  }

  /** Main result: repeating an add that was applied changes nothing. */
  lemma AddIsIdempotent(m: Manifest, discover: string -> Discovery, repos: seq<string>)
    ensures AddAll(AddAll(m, discover, repos), discover, repos) == AddAll(m, discover, repos)
  {
    AddOnlyExtends(m, discover, repos);
    PresentAddsNothing(AddAll(m, discover, repos), discover, repos);
  }

  /** One more repository: skipped when its key or its model is in the manifest already, added under its key else. */
  lemma AddExactly(m: Manifest, discover: string -> Discovery, repos: seq<string>, repo: string)
    ensures AddAll(m, discover, []) == m
    ensures var before, d := AddAll(m, discover, repos), discover(repo);
      AddAll(m, discover, repos + [repo]) ==
        if d.key in before || exists k :: k in before && before[k].hfModelId == repo then before
        else before[d.key := d.entry]
  {
    assert Init(repos + [repo]) == repos;
    var before := AddAll(m, discover, repos);
    assert forall k :: k in before <==> k in before.Keys;
  }
}

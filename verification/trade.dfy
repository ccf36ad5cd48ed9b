/**
 The demo game's trades: one player, any number of dealers, offers that may be taken once
 or again and again. Gold and items only ever change hands.
 */
module Trade {
  import opened Sequences
  import opened Characters
  import opened GameState

  datatype Offer = Offer(
    wantsItems: seq<string>, givesItems: seq<string>, wantsGold: int, givesGold: int,
    repeatable: bool, required: set<string>, blocked: set<string>)

  datatype Dealer = Dealer(sheet: Sheet, offers: seq<Offer>, completed: set<nat>)

  datatype Outcome = NothingToTrade | Back | ShortOfGold | ShortOfItems | CannotComplete | Traded(index: nat)

  // ---------------------------------------------------------------------
  // One visit to a dealer
  // ---------------------------------------------------------------------

  predicate Available(d: Dealer, flags: set<string>, i: nat) {
    i < |d.offers|
    && (d.offers[i].repeatable || i !in d.completed)
    && d.offers[i].required <= flags
    && d.offers[i].blocked * flags == {}
    && d.sheet.gold >= d.offers[i].givesGold
    && HasItems(d.sheet, d.offers[i].givesItems)
  }

  /** The available offers among the first `n`, in order. */
  function AvailableAmong(d: Dealer, flags: set<string>, n: nat): (r: seq<nat>)
    requires n <= |d.offers|
    ensures forall i: nat :: i in r <==> i < n && Available(d, flags, i)
  {
    if n == 0 then []
    else AvailableAmong(d, flags, n - 1) + if Available(d, flags, n - 1) then [n - 1] else []
  }

  function Visit(p: Sheet, d: Dealer, flags: set<string>, pick: nat): Outcome {
    var available := AvailableAmong(d, flags, |d.offers|);
    if available == [] then NothingToTrade
    else if pick >= |available| then Back
    else
      assert available[pick] in available;
      var offer := d.offers[available[pick]];
      if p.gold < offer.wantsGold then ShortOfGold
      else if !HasItems(p, offer.wantsItems) then ShortOfItems
      else if d.sheet.gold < offer.givesGold || !HasItems(d.sheet, offer.givesItems) then CannotComplete
      else Traded(available[pick])
  }

  function PlayerAfter(p: Sheet, offer: Offer): Sheet {
    var paid := RemovedAll(p.(gold := p.gold - offer.wantsGold + offer.givesGold), offer.wantsItems);
    paid.(inventory := paid.inventory + offer.givesItems)
  }

  function DealerAfter(s: Sheet, offer: Offer): Sheet {
    RemovedAll(s.(gold := s.gold + offer.wantsGold - offer.givesGold, inventory := s.inventory + offer.wantsItems),
               offer.givesItems)
  }

  /** An offered trade is never one the dealer cannot complete: the last check in the visit is redundant. */
  lemma OfferedTradesComplete(p: Sheet, d: Dealer, flags: set<string>, pick: nat)
    ensures Visit(p, d, flags, pick) != CannotComplete
    ensures Visit(p, d, flags, pick).Traded? ==>
              var i := Visit(p, d, flags, pick).index;
              Available(d, flags, i) && p.gold >= d.offers[i].wantsGold && HasItems(p, d.offers[i].wantsItems)
  {
    hide HasItems;
    var available := AvailableAmong(d, flags, |d.offers|);
    if pick < |available| {
      assert available[pick] in available;
    }
  }

  // ---------------------------------------------------------------------
  // A visit on the fields of the offers
  // ---------------------------------------------------------------------

  /** Not used up, its flags allow it, and the dealer has what it gives. */
  ghost predicate Open(d: Dealer, flags: set<string>, i: nat) {
    i < |d.offers| &&
    var offer := d.offers[i];
    && (offer.repeatable || i !in d.completed)
    && (forall f <- offer.required :: f in flags) && (forall f <- offer.blocked :: f !in flags)
    && d.sheet.gold >= offer.givesGold && multiset(offer.givesItems) <= multiset(d.sheet.inventory)
  }

  ghost function OpenBefore(d: Dealer, flags: set<string>, n: nat): nat {
    if n == 0 then 0 else OpenBefore(d, flags, n - 1) + if Open(d, flags, n - 1) then 1 else 0
  }

  lemma OpenMeaning(d: Dealer, flags: set<string>, i: nat)
    ensures Available(d, flags, i) <==> Open(d, flags, i)
  {
    if i < |d.offers| {
      HasItemsIsContainment(d.sheet, d.offers[i].givesItems);
      hide HasItems;
      assert forall f :: f in d.offers[i].blocked * flags <==> f in d.offers[i].blocked && f in flags;
      if Open(d, flags, i) {
        assert d.offers[i].blocked * flags == {};
      }
    }
  }

  /** The offer the player picks: open, and with as many open ones before it as the choice says. */
  ghost predicate PickedOffer(d: Dealer, flags: set<string>, pick: nat, i: nat) {
    Open(d, flags, i) && OpenBefore(d, flags, i) == pick
  }

  /** The offers listed are the open ones, each at the place its open predecessors leave it. */
  lemma {:induction false} ListedAtTheirPlace(d: Dealer, flags: set<string>, n: nat)
    requires n <= |d.offers|
    ensures InPlace(d, flags, n, AvailableAmong(d, flags, n))
  {
    hide InPlace;
    if n > 0 {
      ListedAtTheirPlace(d, flags, n - 1);
      OpenMeaning(d, flags, n - 1);
      NextInPlace(d, flags, n - 1, AvailableAmong(d, flags, n - 1));
    } else {
      NoneInPlace(d, flags);
    }
  }

  ghost predicate InPlace(d: Dealer, flags: set<string>, n: nat, listed: seq<nat>) {
    |listed| == OpenBefore(d, flags, n)
    && forall k :: 0 <= k < |listed| ==> listed[k] < n && PickedOffer(d, flags, k, listed[k])
  }

  lemma NoneInPlace(d: Dealer, flags: set<string>)
    ensures InPlace(d, flags, 0, [])
  {}

  lemma NextInPlace(d: Dealer, flags: set<string>, n: nat, listed: seq<nat>)
    requires n < |d.offers| && InPlace(d, flags, n, listed)
    ensures InPlace(d, flags, n + 1, if Open(d, flags, n) then listed + [n] else listed + [])
  {
    hide Open;
    assert listed + [] == listed;
    assert Open(d, flags, n) ==> PickedOffer(d, flags, |listed|, n);
  }

  lemma {:induction false} OpenBeforeGrows(d: Dealer, flags: set<string>, i: nat, n: nat)
    requires i < n
    ensures OpenBefore(d, flags, i) <= OpenBefore(d, flags, n)
    ensures Open(d, flags, i) ==> OpenBefore(d, flags, i) < OpenBefore(d, flags, n)
  {
    hide Open;
    if i < n - 1 {
      OpenBeforeGrows(d, flags, i, n - 1);
    }
  }

  /**
   Main result, on fields: what a visit comes to. The picked offer is traded exactly when
   the player has the gold and the items it wants; gold is looked at first.
   */
  lemma VisitExactly(p: Sheet, d: Dealer, flags: set<string>, pick: nat, i: nat)
    ensures PickedOffer(d, flags, pick, i) ==>
      Visit(p, d, flags, pick) ==
        if p.gold < d.offers[i].wantsGold then ShortOfGold
        else if !(multiset(d.offers[i].wantsItems) <= multiset(p.inventory)) then ShortOfItems
        else Traded(i)
    ensures (forall k: nat :: !PickedOffer(d, flags, pick, k)) ==>
      Visit(p, d, flags, pick) == if exists k: nat :: Open(d, flags, k) then Back else NothingToTrade
  {
    hide Available, HasItems, Open;
    var n := |d.offers|;
    var listed := AvailableAmong(d, flags, n);
    ListedAtTheirPlace(d, flags, n);
    forall k: nat ensures k in listed <==> Open(d, flags, k) {
      OpenMeaning(d, flags, k);
      OpenInRange(d, flags, k);
    }
    if PickedOffer(d, flags, pick, i) {
      OpenInRange(d, flags, i);
      OpenBeforeGrows(d, flags, i, n);
      SamePlace(d, flags, i, listed[pick]);
      HasItemsIsContainment(p, d.offers[i].wantsItems);
      OfferedTradesComplete(p, d, flags, pick);
    }
    if forall k: nat :: !PickedOffer(d, flags, pick, k) {
      assert pick < |listed| ==> PickedOffer(d, flags, pick, listed[pick]);
      EmptyOrMember(listed);
    }
  }

  lemma OpenInRange(d: Dealer, flags: set<string>, k: nat)
    ensures Open(d, flags, k) ==> k < |d.offers|
  {}

  lemma SamePlace(d: Dealer, flags: set<string>, i: nat, j: nat)
    requires Open(d, flags, i) && Open(d, flags, j) && OpenBefore(d, flags, i) == OpenBefore(d, flags, j)
    ensures i == j
  {
    hide Open;
    if i < j {
      OpenBeforeGrows(d, flags, i, j);
    } else if j < i {
      OpenBeforeGrows(d, flags, j, i);
    }
  }

  class Npc {
    const body: Character
    var offers: seq<Offer>
    var completed: set<nat>

    constructor (body: Character, offers: seq<Offer>)
      ensures this.body == body && this.offers == offers && completed == {}
    {
      this.body, this.offers, completed := body, offers, {};
    }

    function State(): Dealer
      reads this, body
    {
      Dealer(body.State(), offers, completed)
    }

    method AvailableOffers(flags: set<string>) returns (results: seq<nat>)
      ensures results == AvailableAmong(State(), flags, |offers|)
    {
      hide Available;
      results := [];
      for i := 0 to |offers|
        invariant results == AvailableAmong(State(), flags, i)
      {
        if Available(State(), flags, i) {
          results := results + [i];
        }
      }
    }
  }

  /** The trade engine: `pick` is the player's choice, anything past the offers is "Back". */
  method RunTrade(game: Game, npc: Npc, pick: nat) returns (outcome: Outcome)
    requires game.player != npc.body
    modifies game`flags, game.player, npc, npc.body
    ensures outcome == Visit(old(game.player.State()), old(npc.State()), old(game.flags), pick)
    ensures npc.offers == old(npc.offers)
    ensures outcome.Traded? ==>
              outcome.index < |npc.offers| &&
              var offer := npc.offers[outcome.index];
              && game.player.State() == PlayerAfter(old(game.player.State()), offer)
              && npc.body.State() == DealerAfter(old(npc.body.State()), offer)
              && npc.completed == old(npc.completed) + (if offer.repeatable then {} else {outcome.index})
              && game.flags == old(game.flags) + PickupFlags(game.items, offer.givesItems)
    ensures !outcome.Traded? ==>
              && game.player.State() == old(game.player.State()) && npc.State() == old(npc.State())
              && game.flags == old(game.flags)
  {
    var offers := npc.AvailableOffers(game.flags);
    if offers == [] {
      return NothingToTrade;
    }
    if pick >= |offers| {
      return Back;
    }
    assert offers[pick] in offers;
    var index := offers[pick];
    var offer := npc.offers[index];
    if game.player.gold < offer.wantsGold {
      return ShortOfGold;
    }
    if !HasItems(game.player.State(), offer.wantsItems) {
      return ShortOfItems;
    }
    if npc.body.gold < offer.givesGold || !HasItems(npc.body.State(), offer.givesItems) {
      return CannotComplete;
    }
    outcome := Traded(index);
    Exchange(game, npc, offer);
    if !offer.repeatable {
      npc.completed := npc.completed + {index};
    }
  }

  method Exchange(game: Game, npc: Npc, offer: Offer)
    requires game.player != npc.body
    requires HasItems(game.player.State(), offer.wantsItems) && HasItems(npc.body.State(), offer.givesItems)
    modifies game`flags, game.player, npc.body
    ensures game.player.State() == PlayerAfter(old(game.player.State()), offer)
    ensures npc.body.State() == DealerAfter(old(npc.body.State()), offer)
    ensures game.flags == old(game.flags) + PickupFlags(game.items, offer.givesItems)
  {
    hide HasItems, RemovedAll, PickupFlags;
    var player := game.player;
    MovePrices(player, npc, offer);
    StillHas(old(player.State()), player.State(), [], offer.wantsItems);
    var paid := player.RemoveItems(offer.wantsItems);
    npc.body.AddItems(offer.wantsItems);
    StillHas(old(npc.body.State()), npc.body.State(), offer.wantsItems, offer.givesItems);
    var given := npc.body.RemoveItems(offer.givesItems);
    game.GivePlayerItems(offer.givesItems);
  }

  method MovePrices(player: Character, npc: Npc, offer: Offer)
    requires player != npc.body
    modifies player`gold, npc.body`gold
    ensures player.gold == old(player.gold) - offer.wantsGold + offer.givesGold
    ensures npc.body.gold == old(npc.body.gold) + offer.wantsGold - offer.givesGold
  {
    player.gold := player.gold - offer.wantsGold;
    npc.body.gold := npc.body.gold + offer.wantsGold;
    npc.body.gold := npc.body.gold - offer.givesGold;
    player.gold := player.gold + offer.givesGold;
  }

  lemma StillHas(before: Sheet, after: Sheet, more: seq<string>, ids: seq<string>)
    requires after.inventory == before.inventory + more || (more == [] && after.inventory == before.inventory)
    ensures HasItems(before, ids) ==> HasItems(after, ids)
  {}

  // ---------------------------------------------------------------------
  // What one trade moves
  // ---------------------------------------------------------------------

  lemma TradeMovesExactly(p: Sheet, s: Sheet, offer: Offer)
    requires HasItems(p, offer.wantsItems) && HasItems(s, offer.givesItems)
    ensures multiset(PlayerAfter(p, offer).inventory)
            == multiset(p.inventory) - multiset(offer.wantsItems) + multiset(offer.givesItems)
    ensures multiset(DealerAfter(s, offer).inventory)
            == multiset(s.inventory) + multiset(offer.wantsItems) - multiset(offer.givesItems)
    ensures multiset(PlayerAfter(p, offer).inventory) + multiset(DealerAfter(s, offer).inventory)
            == multiset(p.inventory) + multiset(s.inventory)
    ensures PlayerAfter(p, offer).gold == p.gold - offer.wantsGold + offer.givesGold
    ensures DealerAfter(s, offer).gold == s.gold + offer.wantsGold - offer.givesGold
    ensures WearsOwn(p) ==> WearsOwn(PlayerAfter(p, offer))
    ensures WearsOwn(s) ==> WearsOwn(DealerAfter(s, offer))
  {
    HasItemsIsContainment(p, offer.wantsItems);
    HasItemsIsContainment(s, offer.givesItems);
    PlayerMoves(p, offer);
    DealerMoves(s, offer);
    hide PlayerAfter, DealerAfter, HasItems, WearsOwn;
    Swapped(multiset(p.inventory), multiset(s.inventory), multiset(offer.wantsItems), multiset(offer.givesItems));
  }

  lemma PlayerMoves(p: Sheet, offer: Offer)
    requires multiset(offer.wantsItems) <= multiset(p.inventory)
    ensures multiset(PlayerAfter(p, offer).inventory)
            == multiset(p.inventory) - multiset(offer.wantsItems) + multiset(offer.givesItems)
    ensures PlayerAfter(p, offer).gold == p.gold - offer.wantsGold + offer.givesGold
    ensures WearsOwn(p) ==> WearsOwn(PlayerAfter(p, offer))
  {
    RemovedAllTakesThem(p.(gold := p.gold - offer.wantsGold + offer.givesGold), offer.wantsItems);
    hide RemovedAll;
  }

  lemma DealerMoves(s: Sheet, offer: Offer)
    requires multiset(offer.givesItems) <= multiset(s.inventory)
    ensures multiset(DealerAfter(s, offer).inventory)
            == multiset(s.inventory) + multiset(offer.wantsItems) - multiset(offer.givesItems)
    ensures DealerAfter(s, offer).gold == s.gold + offer.wantsGold - offer.givesGold
    ensures WearsOwn(s) ==> WearsOwn(DealerAfter(s, offer))
  {
    var stocked := s.(gold := s.gold + offer.wantsGold - offer.givesGold, inventory := s.inventory + offer.wantsItems);
    Stocked(s, stocked, offer.wantsItems);
    hide RemovedAll, WearsOwn;
    assert DealerAfter(s, offer) == RemovedAll(stocked, offer.givesItems);
    hide DealerAfter;
    MoreContains(multiset(offer.givesItems), multiset(s.inventory), multiset(offer.wantsItems));
    RemovedAllTakesThem(stocked, offer.givesItems);
  }

  lemma MoreContains(a: multiset<string>, b: multiset<string>, more: multiset<string>)
    requires a <= b
    ensures a <= b + more
  {}

  lemma Stocked(s: Sheet, t: Sheet, ids: seq<string>)
    requires t.inventory == s.inventory + ids && t.equipment == s.equipment
    ensures multiset(t.inventory) == multiset(s.inventory) + multiset(ids)
    ensures WearsOwn(s) ==> WearsOwn(t)
  {}

  lemma Swapped(mine: multiset<string>, theirs: multiset<string>, wants: multiset<string>, gives: multiset<string>)
    requires wants <= mine && gives <= theirs
    ensures mine - wants + gives + (theirs + wants - gives) == mine + theirs
  {}

  /** The visit trades this offer. */
  predicate Trades(offer: Offer, p: Sheet, d: Dealer, flags: set<string>, pick: nat) {
    var outcome := Visit(p, d, flags, pick);
    outcome.Traded? && outcome.index < |d.offers| && d.offers[outcome.index] == offer
  }

  ghost predicate PursesStay(offer: Offer, p: Sheet, d: Dealer) {
    p.gold >= 0 && d.sheet.gold >= 0 ==> PlayerAfter(p, offer).gold >= 0 && DealerAfter(d.sheet, offer).gold >= 0
  }

  /** A player and a dealer who can just afford the offer. */
  function Buyer(offer: Offer, gold: int): Sheet {
    Sheet(Stats(1, 1, 1, 0), 1, gold, offer.wantsItems, map[])
  }

  function Seller(offer: Offer, gold: int): Dealer {
    Dealer(Sheet(Stats(1, 1, 1, 0), 1, gold, offer.givesItems, map[]), [offer], {})
  }

  lemma BarelyTrades(offer: Offer, mine: int, theirs: int)
    requires offer.required * offer.blocked == {} && mine >= offer.wantsGold && theirs >= offer.givesGold
    ensures Trades(offer, Buyer(offer, mine), Seller(offer, theirs), offer.required, 0)
    ensures PursesStay(offer, Buyer(offer, mine), Seller(offer, theirs)) <==>
      (mine >= 0 && theirs >= 0 ==>
         mine - offer.wantsGold + offer.givesGold >= 0 && theirs + offer.wantsGold - offer.givesGold >= 0)
  {
    var p, d := Buyer(offer, mine), Seller(offer, theirs);
    assert offer.blocked * offer.required == {} by {
      assert forall x :: x in offer.blocked * offer.required ==> x in offer.required * offer.blocked;
    }
    assert Available(d, offer.required, 0);
    assert AvailableAmong(d, offer.required, 0) == [];
    assert AvailableAmong(d, offer.required, 1) == [0];
    TradeMovesExactly(p, d.sheet, offer);
    hide RemovedAll;
  }

  /**
   An offer keeps the purses of everyone who trades it from going negative exactly when
   its amounts are not negative, or are equal, or its flags rule it out for good.
   */
  lemma OfferKeepsPursesExactly(offer: Offer)
    ensures (forall p, d, flags, pick :: Trades(offer, p, d, flags, pick) ==> PursesStay(offer, p, d))
      <==> (offer.wantsGold >= 0 && offer.givesGold >= 0) || offer.wantsGold == offer.givesGold
           || offer.required * offer.blocked != {}
  {
    var wants, gives := offer.wantsGold, offer.givesGold;
    if (wants >= 0 && gives >= 0) || wants == gives || offer.required * offer.blocked != {} {
      forall p, d, flags, pick | Trades(offer, p, d, flags, pick) ensures PursesStay(offer, p, d) {
        OfferedTradesComplete(p, d, flags, pick);
        assert offer.required * offer.blocked == {} by {
          assert offer.required <= flags && offer.blocked * flags == {};
          assert forall x :: x in offer.required * offer.blocked ==> x in offer.blocked * flags;
        }
        TradeMovesExactly(p, d.sheet, offer);
        hide PlayerAfter, DealerAfter, Visit;
      }
    } else {
      BarelyTrades(offer, Max(0, wants), Max(0, gives));
      hide Trades, PursesStay;
    }
  }

  // ---------------------------------------------------------------------
  // Whole runs
  // ---------------------------------------------------------------------

  datatype World = World(player: Sheet, dealers: seq<Dealer>, flags: set<string>)

  datatype Event = Visits(dealer: nat, pick: nat) | Equips(id: string) | TakesOff(slot: Slot)

  function Result(w: World, e: Event): Outcome {
    if e.Visits? && e.dealer < |w.dealers| then Visit(w.player, w.dealers[e.dealer], w.flags, e.pick) else Back
  }

  function Next(items: ItemTable, w: World, e: Event): World {
    match e
    case Equips(id) => w.(player := Equipped(items, w.player, id))
    case TakesOff(slot) => w.(player := Unequipped(items, w.player, slot))
    case Visits(k, pick) =>
      OfferedTradesAreOffers(w, e);
      if !Result(w, e).Traded? then w else
        var index := Result(w, e).index;
        var d := w.dealers[k];
        var offer := d.offers[index];
        World(PlayerAfter(w.player, offer),
              w.dealers[k := Dealer(DealerAfter(d.sheet, offer), d.offers,
                                    d.completed + if offer.repeatable then {} else {index})],
              w.flags + PickupFlags(items, offer.givesItems))
  }

  lemma OfferedTradesAreOffers(w: World, e: Event)
    ensures Result(w, e).Traded? ==>
              e.Visits? && e.dealer < |w.dealers| && Result(w, e).index < |w.dealers[e.dealer].offers|
  {
    if e.Visits? && e.dealer < |w.dealers| {
      OfferedTradesComplete(w.player, w.dealers[e.dealer], w.flags, e.pick);
    }
  }

  function Run(items: ItemTable, w: World, events: seq<Event>): World {
    if events == [] then w else Next(items, Run(items, w, Init(events)), Last(events))
  }

  function DealersGold(dealers: seq<Dealer>): int {
    if dealers == [] then 0 else dealers[0].sheet.gold + DealersGold(dealers[1..])
  }

  function DealersItems(dealers: seq<Dealer>): multiset<string> {
    if dealers == [] then multiset{} else multiset(dealers[0].sheet.inventory) + DealersItems(dealers[1..])
  }

  function AllGold(w: World): int {
    w.player.gold + DealersGold(w.dealers)
  }

  function AllItems(w: World): multiset<string> {
    multiset(w.player.inventory) + DealersItems(w.dealers)
  }

  /** Purses are not negative, no offer asks for or gives a negative amount. */
  predicate Solvent(w: World) {
    w.player.gold >= 0 && forall k :: 0 <= k < |w.dealers| ==> SolventDealer(w.dealers[k])
  }

  predicate SolventDealer(d: Dealer) {
    d.sheet.gold >= 0 && forall i :: 0 <= i < |d.offers| ==> d.offers[i].wantsGold >= 0 && d.offers[i].givesGold >= 0
  }

  predicate AllWearOwn(w: World) {
    WearsOwn(w.player) && forall k :: 0 <= k < |w.dealers| ==> WearsOwn(w.dealers[k].sheet)
  }

  lemma {:induction false} DealersUpdate(dealers: seq<Dealer>, k: nat, d: Dealer)
    requires k < |dealers|
    ensures DealersGold(dealers[k := d]) == DealersGold(dealers) - dealers[k].sheet.gold + d.sheet.gold
    ensures DealersItems(dealers[k := d]) + multiset(dealers[k].sheet.inventory)
            == DealersItems(dealers) + multiset(d.sheet.inventory)
  {
    if k == 0 {
      assert dealers[k := d][1..] == dealers[1..];
    } else {
      DealersUpdate(dealers[1..], k - 1, d);
      assert dealers[k := d][1..] == dealers[1..][k - 1 := d];
      Shuffled(multiset(dealers[0].sheet.inventory), DealersItems(dealers[1..][k - 1 := d]),
          multiset(dealers[k].sheet.inventory),
               DealersItems(dealers[1..]), multiset(d.sheet.inventory));
    }
  }

  lemma Shuffled(a: multiset<string>, b: multiset<string>, c: multiset<string>, d: multiset<string>,
      e: multiset<string>)
    requires b + c == d + e
    ensures a + b + c == a + d + e
  {
    assert a + b + c == a + (b + c) && a + d + e == a + (d + e);
  }

  lemma Balanced(p: multiset<string>, q: multiset<string>, s: multiset<string>, t: multiset<string>,
                 before: multiset<string>, after: multiset<string>)
    requires q + t == p + s && after + s == before + t
    ensures q + after == p + before
  {
    forall x: string ensures (q + after)[x] == (p + before)[x] {
      assert (q + t)[x] == (p + s)[x] && (after + s)[x] == (before + t)[x];
    }
  }

  lemma EventConserves(items: ItemTable, w: World, e: Event)
    ensures AllGold(Next(items, w, e)) == AllGold(w) && AllItems(Next(items, w, e)) == AllItems(w)
    ensures AllWearOwn(w) ==> AllWearOwn(Next(items, w, e))
    ensures Solvent(w) ==> Solvent(Next(items, w, e))
  {
    hide Visit, PlayerAfter, DealerAfter, HasItems, RemovedAll, WearsOwn, DealersGold, DealersItems, Clamped;
    if e.Equips? {
      EquipKeeps(items, w.player, e.id);
    } else if e.TakesOff? {
      TakeOffKeeps(items, w.player, e.slot);
    } else if Result(w, e).Traded? {
      OfferedTradesAreOffers(w, e);
      var d := w.dealers[e.dealer];
      OfferedTradesComplete(w.player, d, w.flags, e.pick);
      TradeMovesExactly(w.player, d.sheet, d.offers[Result(w, e).index]);
      var after := Next(items, w, e);
      DealersUpdate(w.dealers, e.dealer, after.dealers[e.dealer]);
      Balanced(multiset(w.player.inventory), multiset(after.player.inventory), multiset(d.sheet.inventory),
               multiset(after.dealers[e.dealer].sheet.inventory), DealersItems(w.dealers), DealersItems(after.dealers));
    }
  }

  lemma EquipKeeps(items: ItemTable, s: Sheet, id: string)
    ensures var t := Equipped(items, s, id);
      t.gold == s.gold && t.inventory == s.inventory && (WearsOwn(s) ==> WearsOwn(t))
  {}

  lemma TakeOffKeeps(items: ItemTable, s: Sheet, slot: Slot)
    ensures var t := Unequipped(items, s, slot);
      t.gold == s.gold && t.inventory == s.inventory && (WearsOwn(s) ==> WearsOwn(t))
  {}

  /**
   Every run conserves all gold and every item, keeps every purse non-negative and nobody wearing
   what they gave away.
   */
  lemma {:induction false} EveryRunConserves(items: ItemTable, w: World, events: seq<Event>)
    ensures var end := Run(items, w, events);
      && AllGold(end) == AllGold(w) && AllItems(end) == AllItems(w)
      && (AllWearOwn(w) ==> AllWearOwn(end))
      && (Solvent(w) ==> Solvent(end))
  {
    if events != [] {
      EveryRunConserves(items, w, Init(events));
      hide AllGold, AllItems, AllWearOwn, Solvent, Next;
      EventConserves(items, Run(items, w, Init(events)), Last(events));
    }
  }

  // ---------------------------------------------------------------------
  // Offers taken once
  // ---------------------------------------------------------------------

  predicate Takes(w: World, e: Event, k: nat, i: nat) {
    e.Visits? && e.dealer == k && Result(w, e) == Traded(i)
  }

  /** How often the run takes dealer `k`'s offer `i`. */
  function TimesTaken(items: ItemTable, w: World, events: seq<Event>, k: nat, i: nat): nat {
    if events == [] then 0
    else TimesTaken(items, w, Init(events), k, i) + if Takes(Run(items, w, Init(events)), Last(events), k, i) then 1
        else 0
  }

  lemma EventKeepsOffers(items: ItemTable, w: World, e: Event, k: nat, i: nat)
    requires k < |w.dealers| && i < |w.dealers[k].offers| && !w.dealers[k].offers[i].repeatable
    ensures var next := Next(items, w, e);
      && |next.dealers| == |w.dealers| && next.dealers[k].offers == w.dealers[k].offers
      && (i in next.dealers[k].completed <==> i in w.dealers[k].completed || Takes(w, e, k, i))
    ensures Takes(w, e, k, i) ==> i !in w.dealers[k].completed
  {
    hide Visit, PlayerAfter, DealerAfter, HasItems;
    if Result(w, e).Traded? {
      OfferedTradesAreOffers(w, e);
      OfferedTradesComplete(w.player, w.dealers[e.dealer], w.flags, e.pick);
    }
  }

  /** A one-time offer is taken at most once in any run, and is marked exactly when it has been. */
  lemma {:induction false} OneTimeOffersOnce(items: ItemTable, w: World, events: seq<Event>, k: nat, i: nat)
    requires k < |w.dealers| && i < |w.dealers[k].offers| && !w.dealers[k].offers[i].repeatable
    requires i !in w.dealers[k].completed
    ensures var end := Run(items, w, events);
      && |end.dealers| == |w.dealers| && end.dealers[k].offers == w.dealers[k].offers
      && TimesTaken(items, w, events, k, i) == if i in end.dealers[k].completed then 1 else 0
  {
    if events != [] {
      OneTimeOffersOnce(items, w, Init(events), k, i);
      hide Takes, Next;
      EventKeepsOffers(items, Run(items, w, Init(events)), Last(events), k, i);
    }
  }
}

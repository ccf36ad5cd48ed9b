/**
 The demo game's fights: rounds of a player's action and the enemy's answer, and how a
 fight is settled when one side is beaten or gives up. What the two controllers choose and
 what the dice show come in as the script of the fight.
 */
module Combat {
  import opened Sequences
  import opened Characters
  import opened GameState
  import opened Trade

  /** What an enemy's own surrender effect can see and change. */
  datatype Scene = Scene(player: Sheet, foe: Sheet, flags: set<string>, bounty: int)

  /** What an enemy is like, besides its sheet; `onAccept` replaces the usual theft. */
  datatype Nature = Nature(
    name: string, surrenderAt: Option<real>, peaceful: bool, guard: bool, aggression: int,
    surrenderOffers: seq<Offer>, onAccept: Option<Scene -> Scene>,
    rewardItems: seq<string>, rewardGold: int, rewardFlags: set<string>)

  datatype Foe = Foe(
    sheet: Sheet, nature: Nature, hostile: bool, surrendered: bool, defeated: bool, willingness: int,
    offers: seq<Offer>)

  datatype PlayerAct = NoAct | Strike(roll: int) | Brace | UseItem(id: string) | Flee(escapes: bool) | GiveUp

  datatype FoeAct = FoeUses(id: string) | FoeBraces | FoeStrikes(roll: int)

  /** One round's choices and rolls; `spare` answers a surrender, `luck` picks what an enemy takes. */
  datatype Choices = Choices(player: PlayerAct, foe: FoeAct, spare: bool, luck: nat)

  datatype End = Open | Escaped | FoeYielded(spared: bool) | FoeDefeated | PlayerDefeated | PlayerYielded

  /** A fight so far; `dealt` and `taken` are the hits reported, `lost` the item an enemy took. */
  datatype Fight = Fight(
    player: Sheet, foe: Foe, flags: set<string>, bounty: int, running: bool, playerBraced: bool, foeBraced: bool,
    end: End, dealt: seq<int>, taken: seq<int>, lost: Option<string>)

  // ---------------------------------------------------------------------
  // Settling a fight
  // ---------------------------------------------------------------------

  /** The bounty after `foe` was defeated. */
  function Fined(bounty: int, foe: Foe): int {
    if foe.surrendered then BountyAfter(bounty, 100)
    else if foe.nature.guard then BountyAfter(bounty, 150)
    else if foe.nature.aggression < 50 then BountyAfter(bounty, 40)
    else bounty
  }

  function Prize(items: ItemTable, nature: Nature): set<string> {
    PickupFlags(items, nature.rewardItems) + nature.rewardFlags
  }

  /** The enemy is defeated, once: the player is fined for it, and rewarded. */
  function Defeated(items: ItemTable, f: Fight): Fight {
    if f.foe.defeated then f else
      var nature := f.foe.nature;
      f.(foe := f.foe.(defeated := true, hostile := false, sheet := f.foe.sheet.(health := 0)),
         player := f.player.(inventory := f.player.inventory + nature.rewardItems,
             gold := f.player.gold + nature.rewardGold),
         bounty := Fined(f.bounty, f.foe), flags := f.flags + Prize(items, nature))
  }

  const BANDIT := "Bandit Nox"

  function BanditFlags(nature: Nature): set<string> {
    if nature.name == BANDIT then {"bandit_spared"} else {}
  }

  /** The share of the purse an enemy takes. */
  function Stolen(gold: int): int {
    Min(gold, Max(5, gold / 2))
  }

  predicate AcceptsSurrender(foe: Foe) {
    !foe.defeated && foe.sheet.health > 0
    && (foe.nature.guard || foe.surrendered || foe.nature.aggression < 90 || foe.willingness > 40)
  }

  /** The item an enemy takes. */
  function Picked(inventory: seq<string>, luck: nat): (id: string)
    requires inventory != []
    ensures id in inventory
  {
    inventory[luck % |inventory|]
  }

  /** An aggressive enemy takes gold, or from an empty purse an item. */
  function Robbed(f: Fight, luck: nat): Fight {
    if f.foe.nature.aggression < 70 then f
    else if f.player.gold > 0 then
      f.(player := f.player.(gold := f.player.gold - Stolen(f.player.gold)),
         foe := f.foe.(sheet := f.foe.sheet.(gold := f.foe.sheet.gold + Stolen(f.player.gold))))
    else if f.player.inventory != [] then
      var id := Picked(f.player.inventory, luck);
      f.(player := Removed(f.player, id), lost := Some(id))
    else f
  }

  /** What an enemy's own surrender effect makes of a fight. */
  function Staged(effect: Scene -> Scene, f: Fight): Fight {
    var after := effect(Scene(f.player, f.foe.sheet, f.flags, f.bounty));
    f.(player := after.player.(stats := f.player.stats), foe := f.foe.(sheet := after.foe.(stats := f.foe.sheet.stats)),
       flags := after.flags, bounty := after.bounty)
  }

  /** The enemy let the player give up: its own effect, or a theft if it is aggressive. */
  function Released(f: Fight, luck: nat): Fight {
    var g := f.(foe := f.foe.(hostile := false), end := PlayerYielded);
    if f.foe.nature.onAccept.Some? then Staged(f.foe.nature.onAccept.value, g) else Robbed(g, luck)
  }

  // ---------------------------------------------------------------------
  // One round
  // ---------------------------------------------------------------------

  /** A braced target halves the next blow, rounding down but never to nothing. */
  function Blow(roll: int, braced: bool): int {
    if braced then Max(1, roll / 2) else roll
  }

  predicate Yields(items: ItemTable, foe: Foe) {
    !foe.surrendered && foe.nature.surrenderAt.Some? && foe.sheet.health > 0
    && foe.sheet.health as real / Max(1, TotalMaxHp(items, foe.sheet)) as real <= foe.nature.surrenderAt.value
  }

  function Yielded(foe: Foe): Foe {
    foe.(surrendered := true, hostile := foe.hostile && !foe.nature.peaceful, willingness := Max(foe.willingness, 80),
         offers := foe.offers + foe.nature.surrenderOffers)
  }

  function Struck(items: ItemTable, f: Fight, roll: int): Fight {
    var blow := Blow(roll, f.foeBraced);
    f.(foe := f.foe.(sheet := Hurt(items, f.foe.sheet, blow)), foeBraced := false,
       dealt := f.dealt + [Damage(items, f.foe.sheet, blow)])
  }

  /** What a strike that has landed leads to. */
  function Resolved(items: ItemTable, f: Fight, spare: bool): Fight {
    if Yields(items, f.foe) then
      var g := f.(foe := Yielded(f.foe), flags := f.flags + BanditFlags(f.foe.nature), end := FoeYielded(spare));
      if spare then g else Defeated(items, g.(foe := g.foe.(sheet := f.foe.sheet.(health := 0))))
    else if f.foe.sheet.health <= 0 then Defeated(items, f.(end := FoeDefeated))
    else f
  }

  function PlayerTurn(items: ItemTable, f: Fight, r: Choices): Fight {
    match r.player
    case NoAct => f
    case Strike(roll) => Resolved(items, Struck(items, f, roll), r.spare)
    case Brace => f.(playerBraced := true)
    case UseItem(id) => f.(player := Used(items, f.player, id))
    case Flee(escapes) =>
      if escapes then f.(foe := f.foe.(hostile := f.foe.hostile && !f.foe.surrendered), end := Escaped) else f
    case GiveUp =>
      if AcceptsSurrender(f.foe) then Released(f, r.luck) else f.(foe := f.foe.(hostile := true))
  }

  /** The choices after which the enemy does not get to answer. */
  predicate Skips(items: ItemTable, f: Fight, r: Choices) {
    r.player.NoAct? || r.player.GiveUp? || (r.player.UseItem? && !CanUse(items, f.player, r.player.id))
  }

  function FoeTurn(items: ItemTable, f: Fight, r: Choices): Fight {
    var g := match r.foe {
      case FoeUses(id) => f.(foe := f.foe.(sheet := Used(items, f.foe.sheet, id)))
      case FoeBraces => f.(foeBraced := true)
      case FoeStrikes(roll) =>
        var blow := Blow(roll, f.playerBraced);
        f.(player := Hurt(items, f.player, blow), playerBraced := false,
            taken := f.taken + [Damage(items, f.player, blow)])
    };
    if g.player.health <= 0 then g.(end := PlayerDefeated) else g
  }

  function Round(items: ItemTable, f: Fight, r: Choices): Fight {
    var g := PlayerTurn(items, f, r);
    if g.end == Open && !Skips(items, f, r) && g.foe.sheet.health > 0 && g.foe.hostile then FoeTurn(items, g, r) else g
  }

  /** The guard of the round loop. */
  predicate Continues(f: Fight) {
    f.end == Open && f.running && f.player.health > 0 && f.foe.sheet.health > 0 && f.foe.hostile
  }

  /** The fight the script plays, as far as it gets. */
  function Rounds(items: ItemTable, f: Fight, script: seq<Choices>): Fight
    decreases |script|
  {
    if script == [] || !Continues(f) then f else Rounds(items, Round(items, f, script[0]), script[1..])
  }

  // ---------------------------------------------------------------------
  // The combat engine
  // ---------------------------------------------------------------------

  class Enemy {
    const body: Character
    const nature: Nature
    var hostile: bool
    var surrendered: bool
    var defeated: bool
    var willingness: int
    var offers: seq<Offer>

    constructor (body: Character, nature: Nature, hostile: bool, willingness: int, offers: seq<Offer>)
      ensures this.body == body
      ensures State() == Foe(body.State(), nature, hostile, false, false, willingness, offers)
    {
      this.body, this.nature, this.hostile, surrendered, defeated := body, nature, hostile, false, false;
      this.willingness, this.offers := willingness, offers;
    }

    function State(): Foe
      reads this, body
    {
      Foe(body.State(), nature, hostile, surrendered, defeated, willingness, offers)
    }

    method MaybeSurrender(items: ItemTable) returns (yielded: bool)
      modifies this
      ensures yielded == Yields(items, old(State()))
      ensures State() == if yielded then Yielded(old(State())) else old(State())
    {
      if surrendered || nature.surrenderAt.None? || body.health <= 0 {
        return false;
      }
      var ratio := body.health as real / Max(1, TotalMaxHp(items, body.State())) as real;
      if ratio > nature.surrenderAt.value {
        return false;
      }
      surrendered := true;
      if nature.peaceful {
        hostile := false;
      }
      willingness := Max(willingness, 80);
      offers := offers + nature.surrenderOffers;
      yielded := true;
    }
  }

  class CombatEngine {
    const game: Game
    const enemy: Enemy
    var playerBraced: bool
    var enemyBraced: bool
    var end: End
    var dealt: seq<int>
    var taken: seq<int>
    var lost: Option<string>

    constructor (game: Game, enemy: Enemy)
      requires game.player != enemy.body
      ensures this.game == game && this.enemy == enemy
      ensures State() == Fight(game.player.State(), enemy.State(), game.flags, game.bounty, game.running,
                               false, false, Open, [], [], None)
    {
      this.game, this.enemy := game, enemy;
      playerBraced, enemyBraced, end, dealt, taken, lost := false, false, Open, [], [], None;
    }

    function State(): Fight
      reads this, game, game.player, enemy, enemy.body
    {
      Fight(game.player.State(), enemy.State(), game.flags, game.bounty, game.running, playerBraced, enemyBraced,
            end, dealt, taken, lost)
    }

    method Run(script: seq<Choices>)
      requires game.player != enemy.body
      modifies this, game, game.player, enemy, enemy.body
      ensures State() == Rounds(game.items, old(State()), script)
    {
      var i := 0;
      while i < |script| && end == Open && game.running && game.player.health > 0 && enemy.body.health > 0
          && enemy.hostile
        invariant 0 <= i <= |script|
        invariant Rounds(game.items, State(), script[i..]) == Rounds(game.items, old(State()), script)
        decreases |script| - i
      {
        hide Round;
        assert script[i..][0] == script[i] && script[i..][1..] == script[i + 1..];
        PlayRound(script[i]);
        i := i + 1;
      }
    }

    method PlayRound(r: Choices)
      requires game.player != enemy.body
      modifies this, game, game.player, enemy, enemy.body
      ensures State() == Round(game.items, old(State()), r)
    {
      hide PlayerTurn, FoeTurn, Skips;
      var skips := TakePlayerTurn(r);
      if skips || end != Open {
        return;
      }
      if enemy.body.health > 0 && enemy.hostile {
        TakeEnemyTurn(r);
      }
    }

    method TakePlayerTurn(r: Choices) returns (skips: bool)
      requires game.player != enemy.body
      modifies this, game, game.player, enemy, enemy.body
      ensures State() == PlayerTurn(game.items, old(State()), r)
      ensures skips == Skips(game.items, old(State()), r)
    {
      hide Struck, Resolved, Used, Released;
      skips := false;
      match r.player {
        case NoAct => skips := true;
        case Strike(roll) =>
          PlayerStrikes(roll);
          ResolveStrike(r.spare);
        case Brace => playerBraced := true;
        case UseItem(id) =>
          var ok, healed := game.player.UseConsumable(id, game.items);
          skips := !ok;
        case Flee(escapes) =>
          if escapes {
            enemy.hostile := if enemy.surrendered then false else enemy.hostile;
            end := Escaped;
          }
        case GiveUp =>
          skips := true;
          if AcceptsSurrender(enemy.State()) {
            Release(r.luck);
          } else {
            enemy.hostile := true;
          }
      }
    }

    method PlayerStrikes(roll: int)
      requires game.player != enemy.body
      modifies this, enemy.body
      ensures State() == Struck(game.items, old(State()), roll)
    {
      hide Damage, Hurt;
      var raw := roll;
      if enemyBraced {
        raw := Max(1, raw / 2);
        enemyBraced := false;
      }
      var actual := enemy.body.TakeDamage(raw, game.items);
      dealt := dealt + [actual];
    }

    /** The enemy may yield, and be spared or killed, or fall. */
    method ResolveStrike(spare: bool)
      requires game.player != enemy.body
      modifies this, game, game.player, enemy, enemy.body
      ensures State() == Resolved(game.items, old(State()), spare)
    {
      hide Yields, Defeated;
      var yielded := enemy.MaybeSurrender(game.items);
      if yielded {
        if enemy.nature.name == BANDIT {
          game.flags := game.flags + {"bandit_spared"};
        }
        assert game.flags == old(game.flags) + BanditFlags(enemy.nature);
        end := FoeYielded(spare);
        if !spare {
          enemy.body.health := 0;
          OnDefeat();
        }
        return;
      }
      if enemy.body.health <= 0 {
        end := FoeDefeated;
        OnDefeat();
      }
    }

    method OnDefeat()
      requires game.player != enemy.body
      modifies game, game.player, enemy, enemy.body
      ensures State() == Defeated(game.items, old(State()))
    {
      hide Fined, Prize;
      if enemy.defeated {
        return;
      }
      Fine();
      enemy.defeated := true;
      enemy.hostile := false;
      enemy.body.health := 0;
      Reward();
    }

    method Fine()
      modifies game`bounty
      ensures game.bounty == Fined(old(game.bounty), enemy.State())
    {
      if enemy.surrendered {
        game.ChangeBounty(100);
      } else if enemy.nature.guard {
        game.ChangeBounty(150);
      } else if enemy.nature.aggression < 50 {
        game.ChangeBounty(40);
      }
    }

    method Reward()
      requires game.player != enemy.body
      modifies game`flags, game.player
      ensures game.player.State() == old(game.player.State()).(
        inventory := old(game.player.inventory) + enemy.nature.rewardItems,
        gold := old(game.player.gold) + enemy.nature.rewardGold)
      ensures game.flags == old(game.flags) + Prize(game.items, enemy.nature)
    {
      hide PickupFlags;
      game.GivePlayerItems(enemy.nature.rewardItems);
      if enemy.nature.rewardGold != 0 {
        game.player.gold := game.player.gold + enemy.nature.rewardGold;
      }
      game.flags := game.flags + enemy.nature.rewardFlags;
    }

    /** The enemy accepts the player's surrender. */
    method Release(luck: nat)
      requires game.player != enemy.body && AcceptsSurrender(enemy.State())
      modifies this, game, game.player, enemy, enemy.body
      ensures State() == Released(old(State()), luck)
    {
      hide Removed;
      var player := game.player;
      enemy.hostile := false;
      end := PlayerYielded;
      if enemy.nature.onAccept.Some? {
        var after := enemy.nature.onAccept.value(Scene(player.State(), enemy.body.State(), game.flags, game.bounty));
        Stage(player, after.player);
        Stage(enemy.body, after.foe);
        game.flags, game.bounty := after.flags, after.bounty;
      } else if enemy.nature.aggression >= 70 {
        if player.gold > 0 {
          var stolen := Min(player.gold, Max(5, player.gold / 2));
          player.gold := player.gold - stolen;
          enemy.body.gold := enemy.body.gold + stolen;
        } else if player.inventory != [] {
          var id := Picked(player.inventory, luck);
          lost := Some(id);
          var removed := player.RemoveItem(id);
        }
      }
    }

    method Stage(character: Character, s: Sheet)
      modifies character
      ensures character.State() == s.(stats := character.stats)
    {
      character.health, character.gold := s.health, s.gold;
      character.inventory, character.equipment := s.inventory, s.equipment;
    }

    method TakeEnemyTurn(r: Choices)
      requires game.player != enemy.body
      modifies this, game.player, enemy.body
      ensures State() == FoeTurn(game.items, old(State()), r)
    {
      hide Used, Damage, Hurt;
      match r.foe {
        case FoeUses(id) =>
          var ok, healed := enemy.body.UseConsumable(id, game.items);
        case FoeBraces =>
          enemyBraced := true;
        case FoeStrikes(roll) =>
          var raw := roll;
          if playerBraced {
            raw := Max(1, raw / 2);
            playerBraced := false;
          }
          var actual := game.player.TakeDamage(raw, game.items);
          taken := taken + [actual];
      }
      if game.player.health <= 0 {
        end := PlayerDefeated;
      }
    }
  }

  // ---------------------------------------------------------------------
  // How long a fight can last
  // ---------------------------------------------------------------------

  function Gain(items: ItemTable, id: string): nat {
    Max(0, items(id).healing)
  }

  /** The healing carried. */
  function Healing(items: ItemTable, inventory: seq<string>): nat {
    if inventory == [] then 0 else Gain(items, inventory[0]) + Healing(items, inventory[1..])
  }

  /** What a character can lose before it falls for good. */
  function Reserve(items: ItemTable, s: Sheet): nat {
    Max(0, s.health) + Healing(items, s.inventory)
  }

  lemma {:induction false} RemoveFirstHealing(items: ItemTable, inventory: seq<string>, id: string)
    requires id in inventory
    ensures Healing(items, RemoveFirst(inventory, id)) == Healing(items, inventory) - Gain(items, id)
  {
    if inventory[0] != id {
      RemoveFirstHealing(items, inventory[1..], id);
      assert RemoveFirst(inventory, id)[1..] == RemoveFirst(inventory[1..], id);
    }
  }

  /** Using an item never adds to the reserve; a used one leaves at most the other items and the health it gave. */
  lemma UsedReserve(items: ItemTable, s: Sheet, id: string)
    requires s.health > 0
    ensures Reserve(items, Used(items, s, id)) <= Reserve(items, s)
    ensures Used(items, s, id).health <= 0 ==> Reserve(items, Used(items, s, id)) < Reserve(items, s)
  {
    if CanUse(items, s, id) {
      RemoveFirstHealing(items, s.inventory, id);
    }
  }

  /** Every hit costs at least one. */
  lemma HurtReserve(items: ItemTable, s: Sheet, raw: int)
    ensures Reserve(items, Hurt(items, s, raw)) <= Reserve(items, s)
    ensures s.health > 0 ==> Reserve(items, Hurt(items, s, raw)) < Reserve(items, s)
  {}

  /** While a fight goes on, every hit is paid for out of the reserve of who is hit. */
  ghost predicate Paid(items: ItemTable, f: Fight, g: Fight) {
    && |g.taken| <= |f.taken| + Reserve(items, f.player)
    && |g.dealt| <= |f.dealt| + Reserve(items, f.foe.sheet)
    && (g.end == Open ==>
          && |g.taken| + Reserve(items, g.player) <= |f.taken| + Reserve(items, f.player)
          && |g.dealt| + Reserve(items, g.foe.sheet) <= |f.dealt| + Reserve(items, f.foe.sheet))
  }

  lemma RoundCosts(items: ItemTable, f: Fight, r: Choices)
    requires Continues(f)
    ensures Paid(items, f, Round(items, f, r))
    ensures var g := Round(items, f, r); g.end == Open ==>
              Reserve(items, g.foe.sheet) + (if r.player.Strike? then 1 else 0) <= Reserve(items, f.foe.sheet)
  {
    PlayerTurnCosts(items, f, r);
    var g := PlayerTurn(items, f, r);
    hide PlayerTurn, FoeTurn, Reserve, Skips;
    if g.end == Open && !Skips(items, f, r) && g.foe.sheet.health > 0 && g.foe.hostile {
      FoeTurnCosts(items, f, g, r);
    }
  }

  lemma PlayerTurnCosts(items: ItemTable, f: Fight, r: Choices)
    requires Continues(f)
    ensures var g := PlayerTurn(items, f, r);
      && g.taken == f.taken && |g.dealt| == |f.dealt| + (if r.player.Strike? then 1 else 0)
      && |g.dealt| <= |f.dealt| + Reserve(items, f.foe.sheet)
      && (g.end == Open ==>
            && |g.dealt| + Reserve(items, g.foe.sheet) <= |f.dealt| + Reserve(items, f.foe.sheet)
            && Reserve(items, g.player) <= Reserve(items, f.player)
            && (g.player.health > 0 || Reserve(items, g.player) < Reserve(items, f.player)))
  {
    match r.player {
      case Strike(roll) => StrikeCosts(items, f, roll, r.spare);
      case UseItem(id) => UsedReserve(items, f.player, id);
      case _ =>
    }
    hide Resolved, Struck, Used, Healing, AcceptsSurrender;
  }

  lemma StrikeCosts(items: ItemTable, f: Fight, roll: int, spare: bool)
    requires f.foe.sheet.health > 0 && f.end == Open
    ensures var g := Resolved(items, Struck(items, f, roll), spare);
      && g.taken == f.taken && |g.dealt| == |f.dealt| + 1
      && (g.end == Open ==> g.player == f.player && Reserve(items, g.foe.sheet) < Reserve(items, f.foe.sheet))
  {
    HurtReserve(items, f.foe.sheet, Blow(roll, f.foeBraced));
    ResolvedKeeps(items, Struck(items, f, roll), spare);
    hide Resolved, Damage, Blow, Hurt, Reserve;
  }

  lemma ResolvedKeeps(items: ItemTable, f: Fight, spare: bool)
    requires f.end == Open
    ensures var g := Resolved(items, f, spare);
      && g.taken == f.taken && g.dealt == f.dealt && (g.end == Open ==> g == f)
  {
    hide Yields, Prize, Fined;
  }

  lemma FoeTurnCosts(items: ItemTable, f: Fight, g: Fight, r: Choices)
    requires g.foe.sheet.health > 0 && g.taken == f.taken && Reserve(items, g.player) <= Reserve(items, f.player)
    requires g.player.health > 0 || Reserve(items, g.player) < Reserve(items, f.player)
    ensures var h := FoeTurn(items, g, r);
      && h.dealt == g.dealt && Reserve(items, h.foe.sheet) <= Reserve(items, g.foe.sheet)
      && |h.taken| + Reserve(items, h.player) <= |f.taken| + Reserve(items, f.player)
  {
    match r.foe {
      case FoeUses(id) => UsedReserve(items, g.foe.sheet, id);
      case FoeBraces =>
      case FoeStrikes(roll) => HurtReserve(items, g.player, Blow(roll, g.playerBraced));
    }
    hide Used, Hurt, Damage, Reserve, Blow;
  }

  /** In any fight each side is hit at most as often as its health and the healing it carries add up to. */
  lemma {:induction false} HitsAreBounded(items: ItemTable, f: Fight, script: seq<Choices>)
    ensures Paid(items, f, Rounds(items, f, script))
    decreases |script|
  {
    if script != [] && Continues(f) {
      hide Round, Reserve, Continues;
      var g := Round(items, f, script[0]);
      RoundCosts(items, f, script[0]);
      if g.end == Open {
        HitsAreBounded(items, g, script[1..]);
      } else {
        OverStaysOver(items, g, script[1..]);
      }
    }
  }

  function Strikes(script: seq<Choices>): nat {
    if script == [] then 0 else (if script[0].player.Strike? then 1 else 0) + Strikes(script[1..])
  }

  lemma OverStaysOver(items: ItemTable, f: Fight, script: seq<Choices>)
    requires f.end != Open
    ensures Rounds(items, f, script) == f && !Continues(f)
  {}

  /** A fight is over once the player has struck more often than the enemy can stand. */
  lemma {:induction false} StrikingEndsFights(items: ItemTable, f: Fight, script: seq<Choices>)
    requires Strikes(script) > Reserve(items, f.foe.sheet)
    ensures !Continues(Rounds(items, f, script))
    decreases |script|
  {
    if Continues(f) {
      hide Round, Reserve, Continues, Paid;
      var g := Round(items, f, script[0]);
      RoundCosts(items, f, script[0]);
      if g.end == Open {
        StrikingEndsFights(items, g, script[1..]);
      } else {
        OverStaysOver(items, g, script[1..]);
      }
    }
  }

  /** Failing to run, `n` times over, from an enemy that rolls just the player's defence. */
  function Grind(items: ItemTable, player: Sheet, n: nat): seq<Choices> {
    seq(n, i => Choices(Flee(false), FoeStrikes(TotalDefense(items, player)), false, 0))
  }

  /** The bound on hits is reached: a player without healing can be hit once for every point of health. */
  lemma {:induction false} BoundIsReached(items: ItemTable, f: Fight)
    requires Continues(f) && !f.playerBraced && Healing(items, f.player.inventory) == 0
    ensures var g := Rounds(items, f, Grind(items, f.player, f.player.health));
      g.end == PlayerDefeated && |g.taken| == |f.taken| + Reserve(items, f.player)
    decreases f.player.health
  {
    var script := Grind(items, f.player, f.player.health);
    var g := Round(items, f, script[0]);
    assert g.player == f.player.(health := f.player.health - 1) && |g.taken| == |f.taken| + 1;
    assert script[1..] == Grind(items, g.player, f.player.health - 1);
    if f.player.health > 1 {
      BoundIsReached(items, g);
    } else {
      assert Rounds(items, g, script[1..]) == g;
    }
  }

  // ---------------------------------------------------------------------
  // What a fight changes, and how it is settled
  // ---------------------------------------------------------------------

  /** `t` is `s` after some healing items were used and some health was won or lost. */
  ghost predicate OnlyConsumed(items: ItemTable, s: Sheet, t: Sheet) {
    && t.gold == s.gold && t.stats == s.stats
    && multiset(t.inventory) <= multiset(s.inventory)
    && (forall id :: items(id).healing <= 0 ==> multiset(t.inventory)[id] == multiset(s.inventory)[id])
    && (WearsOwn(s) ==> WearsOwn(t))
  }

  lemma OnlyConsumedTrans(items: ItemTable, s: Sheet, t: Sheet, u: Sheet)
    requires OnlyConsumed(items, s, t) && OnlyConsumed(items, t, u)
    ensures OnlyConsumed(items, s, u)
  {}

  lemma UsedOnlyConsumes(items: ItemTable, s: Sheet, id: string)
    ensures OnlyConsumed(items, s, Used(items, s, id))
  {
    RemovedKeeps(s, id);
    hide Removed;
  }

  lemma HealthIsNoItem(items: ItemTable, s: Sheet, health: int)
    ensures OnlyConsumed(items, s, s.(health := health))
  {}

  /** Between two moments of an open fight, nothing but consumption happens. */
  ghost predicate Drifted(items: ItemTable, f: Fight, g: Fight) {
    && OnlyConsumed(items, f.player, g.player) && OnlyConsumed(items, f.foe.sheet, g.foe.sheet)
    && g.flags == f.flags && g.bounty == f.bounty && g.lost == f.lost && g.running == f.running
    && g.foe == f.foe.(sheet := g.foe.sheet, hostile := g.foe.hostile)
  }

  predicate Slain(end: End) {
    end == FoeDefeated || end == FoeYielded(false)
  }

  /** The gold an accepting enemy takes from a purse. */
  function Theft(nature: Nature, gold: int): int {
    if nature.aggression >= 70 && gold > 0 then Stolen(gold) else 0
  }

  /** Gold only ever changes hands as a theft, or comes in as a reward. */
  ghost predicate PursesSettled(f: Fight, g: Fight) {
    var stolen := if g.end == PlayerYielded then Theft(f.foe.nature, f.player.gold) else 0;
    && g.foe.sheet.gold == f.foe.sheet.gold + stolen
    && g.player.gold == f.player.gold - stolen + if Slain(g.end) then f.foe.nature.rewardGold else 0
  }

  function Counted(id: string, lost: Option<string>): nat {
    if lost == Some(id) then 1 else 0
  }

  /** Only healing items are used up, one item may be taken, and the reward comes in. */
  ghost predicate GoodsSettled(items: ItemTable, f: Fight, g: Fight) {
    var reward := if Slain(g.end) then f.foe.nature.rewardItems else [];
    && (g.lost.Some? ==> g.end == PlayerYielded && f.foe.nature.aggression >= 70 && f.player.gold <= 0)
    && (forall id :: multiset(g.player.inventory)[id] + Counted(id, g.lost)
                     <= multiset(f.player.inventory)[id] + multiset(reward)[id])
    && (forall id :: items(id).healing <= 0 ==>
          multiset(g.player.inventory)[id] + Counted(id, g.lost)
          == multiset(f.player.inventory)[id] + multiset(reward)[id])
    && (WearsOwn(f.player) ==> WearsOwn(g.player))
    && OnlyConsumed(items, f.foe.sheet, g.foe.sheet.(gold := f.foe.sheet.gold))
  }

  /** Defeats are fined and recorded, and so is the bandit's surrender, whether he was spared or not. */
  ghost predicate RecordsSettled(items: ItemTable, f: Fight, g: Fight) {
    && g.bounty == (if g.end == FoeYielded(false) then BountyAfter(f.bounty, 100)
                    else if g.end == FoeDefeated then Fined(f.bounty, f.foe) else f.bounty)
    && g.flags == f.flags + (if g.end.FoeYielded? then BanditFlags(f.foe.nature) else {})
                  + (if Slain(g.end) then Prize(items, f.foe.nature) else {})
  }

  /** The enemy's own surrender effect, on some moment of the open fight. */
  ghost predicate OwnEffect(items: ItemTable, f: Fight, g: Fight)
    requires f.foe.nature.onAccept.Some?
  {
    exists h: Fight :: Drifted(items, f, h) && Shows(Staged(f.foe.nature.onAccept.value, h), g)
  }

  ghost predicate Shows(h: Fight, g: Fight) {
    g.player == h.player && g.foe.sheet == h.foe.sheet && g.flags == h.flags && g.bounty == h.bounty && g.lost == h.lost
  }

  ghost predicate Settled(items: ItemTable, f: Fight, g: Fight) {
    if g.end == PlayerYielded && f.foe.nature.onAccept.Some? then OwnEffect(items, f, g)
    else PursesSettled(f, g) && GoodsSettled(items, f, g) && RecordsSettled(items, f, g)
  }

  lemma DriftedTrans(items: ItemTable, f: Fight, g: Fight, h: Fight)
    requires Drifted(items, f, g) && Drifted(items, g, h)
    ensures Drifted(items, f, h)
  {
    OnlyConsumedTrans(items, f.player, g.player, h.player);
    OnlyConsumedTrans(items, f.foe.sheet, g.foe.sheet, h.foe.sheet);
    hide OnlyConsumed;
  }

  lemma DriftedSettles(items: ItemTable, f: Fight, g: Fight)
    requires Drifted(items, f, g) && f.lost == None
    requires g.end == Open || g.end == Escaped || g.end == PlayerDefeated
    ensures Settled(items, f, g)
  {
    hide WearsOwn;
  }

  /** A drift before a settlement is part of it. */
  lemma DriftThenSettled(items: ItemTable, f: Fight, g: Fight, h: Fight)
    requires f.lost == None && Drifted(items, f, g) && Settled(items, g, h)
    ensures Settled(items, f, h)
  {
    if h.end == PlayerYielded && f.foe.nature.onAccept.Some? {
      var m: Fight :| Drifted(items, g, m) && Shows(Staged(g.foe.nature.onAccept.value, m), h);
      DriftedTrans(items, f, g, m);
      assert OwnEffect(items, f, h);
    } else {
      OnlyConsumedTrans(items, f.foe.sheet, g.foe.sheet, h.foe.sheet.(gold := g.foe.sheet.gold));
      hide WearsOwn, Theft, Prize, Fined;
    }
  }

  lemma TurnDrifts(items: ItemTable, f: Fight, r: Choices)
    requires Continues(f)
    ensures var g := PlayerTurn(items, f, r);
      g.end == Open || g.end == Escaped ==> Drifted(items, f, g)
  {
    hide Resolved, Struck, Released, Used, OnlyConsumed, AcceptsSurrender;
    HealthIsNoItem(items, f.player, f.player.health);
    HealthIsNoItem(items, f.foe.sheet, f.foe.sheet.health);
    match r.player {
      case Strike(roll) => StrikeDrifts(items, f, roll, r.spare);
      case UseItem(id) => UsedOnlyConsumes(items, f.player, id);
      case GiveUp => ReleasedEnds(f, r.luck);
      case _ =>
    }
  }

  lemma StrikeDrifts(items: ItemTable, f: Fight, roll: int, spare: bool)
    requires Continues(f)
    ensures var g := Resolved(items, Struck(items, f, roll), spare);
      g.end == Open || g.end == Escaped ==> Drifted(items, f, g)
  {
    var g := Struck(items, f, roll);
    StruckShape(items, f, roll);
    hide Struck, Resolved, OnlyConsumed;
    ResolvedKeeps(items, g, spare);
    ResolvedEnds(items, g, spare);
    HealthIsNoItem(items, f.player, f.player.health);
    HealthIsNoItem(items, f.foe.sheet, g.foe.sheet.health);
  }

  lemma ReleasedEnds(f: Fight, luck: nat)
    ensures Released(f, luck).end == PlayerYielded
  {
    hide Removed, Stolen, Picked;
  }

  lemma ResolvedEnds(items: ItemTable, f: Fight, spare: bool)
    requires f.end == Open
    ensures var end := Resolved(items, f, spare).end; end == Open || end == FoeYielded(spare) || end == FoeDefeated
  {
    hide Yields, Prize, Fined;
  }

  lemma FoeTurnDrifts(items: ItemTable, f: Fight, r: Choices)
    ensures Drifted(items, f, FoeTurn(items, f, r))
  {
    hide OnlyConsumed, Used, Damage, Blow;
    var g := FoeTurn(items, f, r);
    HealthIsNoItem(items, f.player, g.player.health);
    if r.foe.FoeUses? {
      UsedOnlyConsumes(items, f.foe.sheet, r.foe.id);
    } else {
      HealthIsNoItem(items, f.foe.sheet, f.foe.sheet.health);
    }
  }

  lemma StrikeSettles(items: ItemTable, f: Fight, roll: int, spare: bool)
    requires f.end == Open && f.lost == None && !f.foe.defeated
    ensures var g := Resolved(items, Struck(items, f, roll), spare);
      g.end != Open ==> Settled(items, f, g)
  {
    var s := Struck(items, f, roll);
    hide Resolved, Struck, Damage, Settled;
    StruckShape(items, f, roll);
    if Yields(items, s.foe) {
      YieldSettles(items, f, s, spare);
    } else {
      DefeatSettles(items, f, s, spare);
    }
  }

  /** `s` is `f` with the enemy's health and the record of hits changed. */
  ghost predicate Wounded(f: Fight, s: Fight) {
    s == f.(foe := f.foe.(sheet := f.foe.sheet.(health := s.foe.sheet.health)), foeBraced := false, dealt := s.dealt)
  }

  lemma StruckShape(items: ItemTable, f: Fight, roll: int)
    ensures Wounded(f, Struck(items, f, roll))
  {
    hide Damage, Blow;
  }

  lemma YieldSettles(items: ItemTable, f: Fight, s: Fight, spare: bool)
    requires f.end == Open && f.lost == None && !f.foe.defeated && Wounded(f, s) && Yields(items, s.foe)
    ensures Settled(items, f, Resolved(items, s, spare))
  {
    var g := Resolved(items, s, spare);
    HealthIsNoItem(items, f.foe.sheet, g.foe.sheet.health);
    hide Yields, Prize, OnlyConsumed, WearsOwn, BanditFlags;
    if spare {
      SamePlayer(items, f, g);
    } else {
      Rewarded(items, f, g);
    }
  }

  lemma DefeatSettles(items: ItemTable, f: Fight, s: Fight, spare: bool)
    requires f.end == Open && f.lost == None && !f.foe.defeated && Wounded(f, s) && !Yields(items, s.foe)
    ensures var g := Resolved(items, s, spare); g.end != Open ==> Settled(items, f, g)
  {
    var g := Resolved(items, s, spare);
    if g.end != Open {
      HealthIsNoItem(items, f.foe.sheet, 0);
      hide Yields, Prize, OnlyConsumed, WearsOwn, Fined;
      Rewarded(items, f, g);
    }
  }

  lemma SamePlayer(items: ItemTable, f: Fight, g: Fight)
    requires f.lost == None && g.lost == None && !Slain(g.end) && g.player.inventory == f.player.inventory
    requires g.player.equipment == f.player.equipment
    requires OnlyConsumed(items, f.foe.sheet, g.foe.sheet.(gold := f.foe.sheet.gold))
    ensures GoodsSettled(items, f, g)
  {
    hide OnlyConsumed;
  }

  lemma Rewarded(items: ItemTable, f: Fight, g: Fight)
    requires f.lost == None && g.lost == None && Slain(g.end)
    requires g.player.inventory == f.player.inventory + f.foe.nature.rewardItems
        && g.player.equipment == f.player.equipment
    requires OnlyConsumed(items, f.foe.sheet, g.foe.sheet.(gold := f.foe.sheet.gold))
    ensures GoodsSettled(items, f, g)
  {
    hide OnlyConsumed;
    assert multiset(g.player.inventory) == multiset(f.player.inventory) + multiset(f.foe.nature.rewardItems);
  }

  lemma RobbedShape(f: Fight, luck: nat)
    ensures var g := Robbed(f, luck); var theft := Theft(f.foe.nature, f.player.gold);
      && g.end == f.end && g.flags == f.flags && g.bounty == f.bounty
      && g.foe == f.foe.(sheet := f.foe.sheet.(gold := f.foe.sheet.gold + theft))
      && g.player.gold == f.player.gold - theft && g.player.health == f.player.health
      && (|| (g.lost == f.lost && g.player.inventory == f.player.inventory && g.player.equipment == f.player.equipment)
          || (g.lost.Some? && Takes(f, g, g.lost.value)))
  {
    hide Removed, Stolen, Picked;
    if f.player.inventory != [] {
      RemovedIsNoLoss(f.player, Picked(f.player.inventory, luck));
    }
  }

  lemma RemovedIsNoLoss(s: Sheet, id: string)
    ensures Removed(s, id).gold == s.gold && Removed(s, id).health == s.health
  {
    hide RemoveFirst;
  }

  ghost predicate Takes(f: Fight, g: Fight, id: string) {
    id in f.player.inventory && g.player == Removed(f.player, id) && f.foe.nature.aggression >= 70 && f.player.gold <= 0
  }

  lemma ReleaseSettles(items: ItemTable, f: Fight, luck: nat)
    requires f.end == Open && f.lost == None
    ensures Settled(items, f, Released(f, luck)) && Released(f, luck).end == PlayerYielded
  {
    if f.foe.nature.onAccept.Some? {
      assert OwnEffect(items, f, Released(f, luck)) by {
        NothingDrifts(items, f);
        hide Drifted;
        assert Shows(Staged(f.foe.nature.onAccept.value, f), Released(f, luck));
      }
      hide OwnEffect;
    } else {
      TheftSettles(items, f, f.(foe := f.foe.(hostile := false), end := PlayerYielded), luck);
      hide PursesSettled, GoodsSettled, RecordsSettled, Robbed;
    }
  }

  lemma TheftSettles(items: ItemTable, f: Fight, mid: Fight, luck: nat)
    requires f.lost == None && mid == f.(foe := f.foe.(hostile := false), end := PlayerYielded)
    ensures var g := Robbed(mid, luck);
      g.end == PlayerYielded && PursesSettled(f, g) && GoodsSettled(items, f, g) && RecordsSettled(items, f, g)
  {
    var g := Robbed(mid, luck);
    RobbedShape(mid, luck);
    HealthIsNoItem(items, f.foe.sheet, f.foe.sheet.health);
    hide Robbed, Theft, OnlyConsumed, GoodsSettled, BountyAfter, Fined, Prize, Removed;
    if g.lost.Some? {
      TakenSettles(items, f, g, g.lost.value);
    } else {
      SamePlayer(items, f, g);
    }
  }

  lemma TakenSettles(items: ItemTable, f: Fight, g: Fight, id: string)
    requires f.lost == None && g.lost == Some(id) && id in f.player.inventory && g.player == Removed(f.player, id)
    requires g.end == PlayerYielded && f.foe.nature.aggression >= 70 && f.player.gold <= 0
    requires OnlyConsumed(items, f.foe.sheet, g.foe.sheet.(gold := f.foe.sheet.gold))
    ensures GoodsSettled(items, f, g)
  {
    RemovedKeeps(f.player, id);
    hide Removed, OnlyConsumed, WearsOwn;
    assert multiset(g.player.inventory)[id] + 1 == multiset(f.player.inventory)[id];
  }

  lemma RoundSettles(items: ItemTable, f: Fight, r: Choices)
    requires Continues(f) && f.lost == None && !f.foe.defeated
    ensures Settled(items, f, Round(items, f, r))
    ensures Round(items, f, r).end == Open ==> Drifted(items, f, Round(items, f, r))
  {
    hide PlayerTurn, FoeTurn, Settled, Drifted, Skips;
    var g := PlayerTurn(items, f, r);
    PlayerTurnSettles(items, f, r);
    if g.end == Open && !Skips(items, f, r) && g.foe.sheet.health > 0 && g.foe.hostile {
      var h := FoeTurn(items, g, r);
      FoeTurnDrifts(items, g, r);
      FoeTurnEnds(items, g, r);
      DriftedTrans(items, f, g, h);
      DriftedSettles(items, f, h);
    }
  }

  lemma FoeTurnEnds(items: ItemTable, f: Fight, r: Choices)
    requires f.end == Open
    ensures FoeTurn(items, f, r).end == Open || FoeTurn(items, f, r).end == PlayerDefeated
  {
    hide Used, Damage, Hurt;
  }

  lemma PlayerTurnSettles(items: ItemTable, f: Fight, r: Choices)
    requires Continues(f) && f.end == Open && f.lost == None && !f.foe.defeated
    ensures var g := PlayerTurn(items, f, r);
      Settled(items, f, g) && (g.end == Open ==> Drifted(items, f, g))
  {
    TurnDrifts(items, f, r);
    PlayerTurnEnds(items, f, r);
    hide Settled, Drifted, Resolved, Struck, Released, Continues, PlayerTurn;
    var g := PlayerTurn(items, f, r);
    if g.end == Open || g.end == Escaped {
      DriftedSettles(items, f, g);
    } else if r.player.Strike? {
      StrikeSettles(items, f, r.player.roll, r.spare);
    } else {
      ReleaseSettles(items, f, r.luck);
    }
  }

  lemma PlayerTurnEnds(items: ItemTable, f: Fight, r: Choices)
    requires f.end == Open
    ensures var g := PlayerTurn(items, f, r);
      || g.end == Open || g.end == Escaped
      || (r.player.Strike? && g == Resolved(items, Struck(items, f, r.player.roll), r.spare))
      || (r.player.GiveUp? && g == Released(f, r.luck))
  {
    hide Resolved, Struck, Released, Used, AcceptsSurrender;
  }

  /**
   Main result, however a fight goes. Gold changes hands only as the theft of an accepting
   enemy and comes in only as the reward for a slain one; the player loses healing items
   it used and at most one taken item, the latter only out of an empty purse; bounty and
   flags record the defeat. An enemy's own surrender effect is applied once, to the fight
   as it stood.
   */
  lemma {:induction false} FightsSettle(items: ItemTable, f: Fight, script: seq<Choices>)
    requires f.end == Open && f.lost == None && !f.foe.defeated
    ensures Settled(items, f, Rounds(items, f, script))
    decreases |script|
  {
    if script == [] || !Continues(f) {
      NothingDrifts(items, f);
      DriftedSettles(items, f, f);
    } else {
      hide Round, Settled, Drifted;
      var g := Round(items, f, script[0]);
      RoundSettles(items, f, script[0]);
      if g.end == Open {
        DriftedLeaves(items, f, g);
        FightsSettle(items, g, script[1..]);
        DriftThenSettled(items, f, g, Rounds(items, g, script[1..]));
      } else {
        OverStaysOver(items, g, script[1..]);
      }
    }
  }

  lemma NothingDrifts(items: ItemTable, f: Fight)
    ensures Drifted(items, f, f)
  {}

  lemma DriftedLeaves(items: ItemTable, f: Fight, g: Fight)
    requires Drifted(items, f, g)
    ensures g.lost == f.lost && g.foe.defeated == f.foe.defeated
  {}

  /** The purses together change by the reward alone, and a theft never overdraws one. */
  lemma PursesAfterFights(items: ItemTable, f: Fight, script: seq<Choices>)
    requires f.end == Open && f.lost == None && !f.foe.defeated
    requires f.foe.nature.onAccept.None?
    ensures var g := Rounds(items, f, script);
      && g.player.gold + g.foe.sheet.gold
         == f.player.gold + f.foe.sheet.gold + (if Slain(g.end) then f.foe.nature.rewardGold else 0)
      && (f.player.gold >= 0 && f.foe.nature.rewardGold >= 0 ==> g.player.gold >= 0)
      && (g.player.gold < f.player.gold ==> g.end == PlayerYielded || f.foe.nature.rewardGold < 0)
  {
    FightsSettle(items, f, script);
    hide Rounds, GoodsSettled, RecordsSettled;
  }

  /**
   A fight with the bandit leaves him dead and recorded as spared exactly when he yielded
   and was killed, unless the flag was there before or is his reward.
   */
  lemma BanditSparedExactly(items: ItemTable, f: Fight, script: seq<Choices>)
    requires f.end == Open && f.lost == None && !f.foe.defeated && f.foe.nature.name == BANDIT
    requires "bandit_spared" !in f.flags + Prize(items, f.foe.nature)
    ensures var g := Rounds(items, f, script);
      "bandit_spared" in g.flags && Slain(g.end) <==> g.end == FoeYielded(false)
  {
    FightsSettle(items, f, script);
    hide Rounds, PursesSettled, GoodsSettled, Prize, Fined, BountyAfter;
  }

  /** The bandit who yields to a strike and is killed is recorded as spared all the same. */
  lemma KilledBanditCounts(items: ItemTable, f: Fight, roll: int)
    requires Continues(f) && f.foe.nature.name == BANDIT && !f.foe.defeated
    requires Yields(items, Struck(items, f, roll).foe)
    ensures var g := Rounds(items, f, [Choices(Strike(roll), FoeBraces, false, 0)]);
      g.end == FoeYielded(false) && g.foe.sheet.health == 0 && "bandit_spared" in g.flags
  {
    hide Yields, Struck, Prize, Fined;
    var r := Choices(Strike(roll), FoeBraces, false, 0);
    assert [r][1..] == [];
    StruckShapeOpen(items, f, roll);
    OverStaysOver(items, Round(items, f, r), []);
  }

  lemma StruckShapeOpen(items: ItemTable, f: Fight, roll: int)
    ensures Struck(items, f, roll).end == f.end && Struck(items, f, roll).foe.nature == f.foe.nature
    ensures Struck(items, f, roll).foe.defeated == f.foe.defeated
  {
    hide Damage, Hurt;
  }

  /** A fight in which that happens: one strike of one, from full health. */
  lemma KilledBanditIsSpared()
    ensures var items := (id: string) => BARE;
      var sheet := Sheet(Stats(10, 1, 1, 0), 10, 0, [], map[]);
      var nature := Nature(BANDIT, Some(1.0), true, false, 70, [], None, [], 0, {});
      var f := Fight(sheet, Foe(sheet, nature, true, false, false, 10, []), {}, 0, true, false, false, Open, [], [],
          None);
      var g := Rounds(items, f, [Choices(Strike(1), FoeBraces, false, 0)]);
      && g.end == FoeYielded(false) && g.foe.sheet.health == 0 && "bandit_spared" in g.flags
  {
    var items := (id: string) => BARE;
    var sheet := Sheet(Stats(10, 1, 1, 0), 10, 0, [], map[]);
    var nature := Nature(BANDIT, Some(1.0), true, false, 70, [], None, [], 0, {});
    var f := Fight(sheet, Foe(sheet, nature, true, false, false, 10, []), {}, 0, true, false, false, Open, [], [],
        None);
    assert Struck(items, f, 1).foe == f.foe.(sheet := sheet.(health := 9));
    hide Rounds, Struck;
    KilledBanditCounts(items, f, 1);
  }

  /** How a fight ended says who is standing. */
  ghost predicate EndIsTrue(f: Fight) {
    match f.end
    case Open => f.player.health > 0 && f.foe.hostile
    case Escaped => f.player.health > 0 && f.foe.sheet.health > 0
    case FoeYielded(spared) => f.player.health > 0 && f.foe.surrendered && (spared <==> f.foe.sheet.health > 0)
    case FoeDefeated => f.player.health > 0 && f.foe.sheet.health == 0
    case PlayerDefeated => f.player.health <= 0
    case PlayerYielded =>
      !f.foe.hostile && (f.foe.nature.onAccept.None? ==> f.player.health > 0 && f.foe.sheet.health > 0)
  }

  lemma {:induction false} EndsAreTrue(items: ItemTable, f: Fight, script: seq<Choices>)
    requires EndIsTrue(f)
    ensures EndIsTrue(Rounds(items, f, script))
    decreases |script|
  {
    if script != [] && Continues(f) {
      RoundEndIsTrue(items, f, script[0]);
      hide Round, EndIsTrue, Continues;
      EndsAreTrue(items, Round(items, f, script[0]), script[1..]);
    }
  }

  lemma ReleaseEndIsTrue(f: Fight, luck: nat)
    requires f.player.health > 0 && f.foe.sheet.health > 0
    ensures EndIsTrue(Released(f, luck)) && Released(f, luck).end == PlayerYielded
  {
    RobbedShape(f.(foe := f.foe.(hostile := false), end := PlayerYielded), luck);
    hide Robbed, Theft, Removed;
  }

  lemma StrikeEndIsTrue(items: ItemTable, f: Fight, roll: int, spare: bool)
    requires Continues(f)
    ensures var g := Resolved(items, Struck(items, f, roll), spare);
      EndIsTrue(g) && (g.end == Open ==> g.foe.hostile && g.foe.sheet.health > 0)
  {
    hide Damage, Blow, TotalMaxHp, Prize, Fined;
  }

  lemma PlayerTurnEndIsTrue(items: ItemTable, f: Fight, r: Choices)
    requires Continues(f)
    ensures var g := PlayerTurn(items, f, r);
      && (g.end != Open || Skips(items, f, r) ==> EndIsTrue(g))
      && (g.end == Open ==> g.foe.hostile && g.foe.sheet.health > 0)
  {
    match r.player {
      case Strike(roll) => StrikeEndIsTrue(items, f, roll, r.spare);
      case GiveUp => ReleaseEndIsTrue(f, r.luck);
      case _ =>
    }
    hide Resolved, Struck, Released, AcceptsSurrender, Damage;
  }

  lemma RoundEndIsTrue(items: ItemTable, f: Fight, r: Choices)
    requires Continues(f)
    ensures EndIsTrue(Round(items, f, r))
  {
    PlayerTurnEndIsTrue(items, f, r);
    hide PlayerTurn, Damage, Blow, Used, Skips;
  }
}

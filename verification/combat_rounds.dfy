/**
 One round of a fight on the fields of the fighters: what a blow costs, when an enemy
 yields, falls or lets the player go, what that costs and pays, and who acts when.
 */
module CombatRounds {
  import opened Sequences
  import opened Characters
  import opened GameState
  import opened Combat

  ghost function AtLeast(low: int, n: int): int {
    if n < low then low else n
  }

  /** A braced target takes half the roll, rounded down, and one at least. */
  ghost function Blunted(roll: int, braced: bool): int {
    if braced then AtLeast(1, roll / 2) else roll
  }

  /** Not yet yielded, alive, and its share of health at or below where it gives up. */
  ghost predicate GivesIn(items: ItemTable, foe: Foe) {
    && !foe.surrendered && foe.nature.surrenderAt.Some? && foe.sheet.health > 0
    && foe.sheet.health as real / AtLeast(1, MostHealth(items, foe.sheet)) as real <= foe.nature.surrenderAt.value
  }

  lemma GivesInMeaning(items: ItemTable, foe: Foe)
    ensures Yields(items, foe) <==> GivesIn(items, foe)
  {
    assert Max(1, TotalMaxHp(items, foe.sheet)) == AtLeast(1, MostHealth(items, foe.sheet));
  }

  /** The fight right after a strike of `roll` has landed. */
  ghost function Landed(items: ItemTable, f: Fight, roll: int): Fight {
    var blow := Blunted(roll, f.foeBraced);
    f.(foe := f.foe.(sheet := Hurt(items, f.foe.sheet, blow)), foeBraced := false,
       dealt := f.dealt + [Damage(items, f.foe.sheet, blow)])
  }

  /** The enemy is killed: bounty by what it was, reward, and the flags. */
  ghost predicate Killed(items: ItemTable, f: Fight, g: Fight, yielded: bool) {
    var nature := f.foe.nature;
    && !g.foe.hostile && g.foe.defeated && g.foe.sheet == f.foe.sheet.(health := 0)
    && g.bounty == (if yielded || f.foe.surrendered then AtLeast(0, f.bounty + 100)
                    else if nature.guard then AtLeast(0, f.bounty + 150)
                    else if nature.aggression < 50 then AtLeast(0, f.bounty + 40) else f.bounty)
    && g.player == f.player.(inventory := f.player.inventory + nature.rewardItems,
                             gold := f.player.gold + nature.rewardGold)
    && forall flag :: flag in g.flags <==>
         || flag in f.flags || flag in nature.rewardFlags || flag in PickupFlags(items, nature.rewardItems)
         || (yielded && nature.name == "Bandit Nox" && flag == "bandit_spared")
  }

  /** The enemy has yielded and is spared. */
  ghost predicate Spared(f: Fight, g: Fight) {
    && g.foe == f.foe.(surrendered := true, hostile := f.foe.hostile && !f.foe.nature.peaceful,
                       willingness := AtLeast(80, f.foe.willingness),
                       offers := f.foe.offers + f.foe.nature.surrenderOffers)
    && g.player == f.player && g.bounty == f.bounty
    && forall flag :: flag in g.flags <==>
         flag in f.flags || (f.foe.nature.name == "Bandit Nox" && flag == "bandit_spared")
  }

  ghost predicate SameRest(f: Fight, g: Fight) {
    g.running == f.running && g.playerBraced == f.playerBraced && g.foeBraced == f.foeBraced
    && g.dealt == f.dealt && g.taken == f.taken && g.lost == f.lost && g.foe.nature == f.foe.nature
  }

  /** Main result: what a strike leads to. */
  lemma StrikeExactly(items: ItemTable, f: Fight, r: Choices)
    requires r.player.Strike? && f.end == Open && !f.foe.defeated
    ensures var s, g := Landed(items, f, r.player.roll), PlayerTurn(items, f, r);
      if GivesIn(items, s.foe) then
        SameRest(s, g) && g.end == FoeYielded(r.spare) && if r.spare then Spared(s, g) else Killed(items, s, g, true)
      else if s.foe.sheet.health <= 0 then SameRest(s, g) && g.end == FoeDefeated && Killed(items, s, g, false)
      else g == s
  {
    var s := Landed(items, f, r.player.roll);
    StruckIsLanded(items, f, r.player.roll);
    GivesInMeaning(items, s.foe);
    hide Landed, Struck, Yields, GivesIn, PickupFlags;
    ResolvedExactly(items, s, r.spare);
  }

  lemma StruckIsLanded(items: ItemTable, f: Fight, roll: int)
    ensures Struck(items, f, roll) == Landed(items, f, roll)
    ensures Landed(items, f, roll).end == f.end && Landed(items, f, roll).foe.defeated == f.foe.defeated
  {
    hide Damage, Hurt;
  }

  lemma ResolvedExactly(items: ItemTable, s: Fight, spare: bool)
    requires s.end == Open && !s.foe.defeated
    ensures var g := Resolved(items, s, spare);
      if Yields(items, s.foe) then
        SameRest(s, g) && g.end == FoeYielded(spare) && if spare then Spared(s, g) else Killed(items, s, g, true)
      else if s.foe.sheet.health <= 0 then SameRest(s, g) && g.end == FoeDefeated && Killed(items, s, g, false)
      else g == s
  {
    hide Yields, PickupFlags;
  }

  /** Main result: an accepting enemy lets the player go, and what it takes for that. */
  lemma GiveUpExactly(items: ItemTable, f: Fight, r: Choices)
    requires r.player.GiveUp? && f.end == Open && f.foe.nature.onAccept.None?
    ensures var g, nature := PlayerTurn(items, f, r), f.foe.nature;
      var accepts := !f.foe.defeated && f.foe.sheet.health > 0
        && (nature.guard || f.foe.surrendered || nature.aggression < 90 || f.foe.willingness > 40);
      if !accepts then g == f.(foe := f.foe.(hostile := true))
      else
        var let := f.(foe := f.foe.(hostile := false), end := PlayerYielded);
        if nature.aggression >= 70 && f.player.gold > 0 then
          var half := AtLeast(5, f.player.gold / 2);
          var stolen := if half < f.player.gold then half else f.player.gold;
          g == let.(player := f.player.(gold := f.player.gold - stolen),
                    foe := let.foe.(sheet := f.foe.sheet.(gold := f.foe.sheet.gold + stolen)))
        else if nature.aggression >= 70 && f.player.inventory != [] then
          g.lost.Some? && g.lost.value in f.player.inventory
          && g == let.(player := Removed(f.player, g.lost.value), lost := g.lost)
        else g == let
  {
    hide Removed;
  }

  /** Its own effect replaces the theft, and sees the fight as it stands. */
  lemma OwnEffectExactly(items: ItemTable, f: Fight, r: Choices)
    requires r.player.GiveUp? && f.foe.nature.onAccept.Some? && !f.foe.defeated && f.foe.sheet.health > 0
    requires f.foe.nature.guard || f.foe.surrendered || f.foe.nature.aggression < 90 || f.foe.willingness > 40
    ensures var g := PlayerTurn(items, f, r);
      var after := f.foe.nature.onAccept.value(Scene(f.player, f.foe.sheet, f.flags, f.bounty));
      && g.player == after.player.(stats := f.player.stats)
      && g.foe == f.foe.(hostile := false, sheet := after.foe.(stats := f.foe.sheet.stats))
      && g.flags == after.flags && g.bounty == after.bounty && g.end == PlayerYielded && SameRest(f, g)
  {}

  /** The other choices of the player. */
  lemma OtherTurnsExactly(items: ItemTable, f: Fight, r: Choices)
    ensures var g := PlayerTurn(items, f, r);
      match r.player
      case NoAct => g == f
      case Brace => g == f.(playerBraced := true)
      case UseItem(id) => g == f.(player := Used(items, f.player, id))
      case Flee(escapes) =>
        g == if !escapes then f else f.(foe := f.foe.(hostile := f.foe.hostile && !f.foe.surrendered), end := Escaped)
      case _ => true
  {
    hide Used;
  }

  /** The enemy's answer: it uses an item, braces, or strikes; and a player without health is defeated. */
  lemma AnswerExactly(items: ItemTable, f: Fight, r: Choices)
    requires f.end == Open
    ensures var g := FoeTurn(items, f, r);
      && g.end == (if g.player.health <= 0 then PlayerDefeated else Open)
      && match r.foe
         case FoeUses(id) => g.(end := Open) == f.(foe := f.foe.(sheet := Used(items, f.foe.sheet, id)))
         case FoeBraces => g.(end := Open) == f.(foeBraced := true)
         case FoeStrikes(roll) =>
           var blow := Blunted(roll, f.playerBraced);
           g.(end := Open) == f.(player := Hurt(items, f.player, blow), playerBraced := false,
                                 taken := f.taken + [Damage(items, f.player, blow)])
  {
    hide Used, Hurt, Damage;
  }

  /**
   Main result: who acts in a round. The enemy answers when the player's turn left the
   fight open and the enemy alive and hostile, unless the player did nothing, asked to
   give up, or reached for an item that is not carried or does not heal.
   */
  lemma RoundExactly(items: ItemTable, f: Fight, r: Choices)
    ensures var g := PlayerTurn(items, f, r);
      var turned := match r.player
        case NoAct => true
        case GiveUp => true
        case UseItem(id) => !(id in f.player.inventory && items(id).healing > 0)
        case _ => false;
      Round(items, f, r) ==
        if g.end == Open && !turned && g.foe.sheet.health > 0 && g.foe.hostile then FoeTurn(items, g, r) else g
  {
    hide PlayerTurn, FoeTurn;
  }

  /** A fight goes on while it is open, the game runs, and an enemy that is hostile faces a player, both alive. */
  lemma RoundsExactly(items: ItemTable, f: Fight, r: Choices, script: seq<Choices>)
    ensures Rounds(items, f, []) == f
    ensures Rounds(items, f, [r] + script) ==
      if f.end == Open && f.running && f.player.health > 0 && f.foe.sheet.health > 0 && f.foe.hostile
      then Rounds(items, Round(items, f, r), script) else f
  {
    hide Round;
    assert ([r] + script)[0] == r && ([r] + script)[1..] == script;
  }
}

/** What the demo game's engines share: the player, the flags and the bounty. */
module GameState {
  import opened Sequences
  import opened Characters

  /** The star crystal world's own reaction to a pickup. */
  function HookFlags(id: string): set<string> {
    if id == "star_crystal" then {"has_star_crystal"} else {}
  }

  /** The flags set by picking the items up. */
  function PickupFlags(items: ItemTable, ids: seq<string>): set<string> {
    if ids == [] then {} else PickupFlags(items, Init(ids)) + items(Last(ids)).flags + HookFlags(Last(ids))
  }

  /** Exactly the picked items' own flags are set, and the crystal's. */
  lemma {:induction false} PickupFlagsExactly(items: ItemTable, ids: seq<string>, flag: string)
    ensures flag in PickupFlags(items, ids) <==> exists id <- ids ::
      flag in items(id).flags || (id == "star_crystal" && flag == "has_star_crystal")
  {
    if ids != [] {
      PickupFlagsExactly(items, Init(ids), flag);
      assert ids == Init(ids) + [Last(ids)];
    }
  }

  function BountyAfter(bounty: int, amount: int): int {
    Max(0, bounty + amount)
  }

  class Game {
    const player: Character
    const items: ItemTable
    var flags: set<string>
    var bounty: int
    var running: bool

    constructor (player: Character, items: ItemTable)
      ensures this.player == player && this.items == items
      ensures flags == {"game_started"} && bounty == 0 && running
    {
      this.player, this.items := player, items;
      flags, bounty, running := {"game_started"}, 0, true;
    }

    method GivePlayerItem(id: string)
      modifies this`flags, player
      ensures player.State() == old(player.State()).(inventory := old(player.inventory) + [id])
      ensures flags == old(flags) + items(id).flags + HookFlags(id)
    {
      player.AddItem(id);
      flags := flags + items(id).flags;
      if id == "star_crystal" {
        flags := flags + {"has_star_crystal"};
      }
    }

    method GivePlayerItems(ids: seq<string>)
      modifies this`flags, player
      ensures player.State() == old(player.State()).(inventory := old(player.inventory) + ids)
      ensures flags == old(flags) + PickupFlags(items, ids)
    {
      for i := 0 to |ids|
        invariant player.State() == old(player.State()).(inventory := old(player.inventory) + ids[..i])
        invariant flags == old(flags) + PickupFlags(items, ids[..i])
      {
        GivePlayerItem(ids[i]);
        Assoc(old(player.inventory), ids[..i], [ids[i]]);
        assert ids[..i + 1] == ids[..i] + [ids[i]] && Init(ids[..i + 1]) == ids[..i];
      }
      assert ids[..|ids|] == ids;
    }

    method ChangeBounty(amount: int)
      modifies this`bounty
      ensures bounty == BountyAfter(old(bounty), amount)
    {
      bounty := Max(0, bounty + amount);
    }
  }
}

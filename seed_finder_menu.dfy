/**
 * SeedFinderMenu: shows the seed finder's randomizations as blocks of menu
 * items, finds them again through negative item IDs, and applies a found seed.
 */
module SeedFinderMenu {
  import opened CInt
  import opened SeedFinder
  import opened GameConfig

  /** The fixed entries of the menu, numbered from 0. */
  const MNID_IMPORTLOGGED: int := 0
  const MNID_CLEARLOGGED: int := 1
  const MNID_ADDRANDOMIZATION: int := 2
  const MNID_REMOVELASTRANDOMIZATION: int := 3
  const MNID_FINDSEED: int := 4
  const MNID_USESEED: int := 5
  const MNID_STATUS: int := 6

  /** At most this many randomizations are shown when the list is imported. */
  const SHOWN_RANDOMIZATIONS: nat := 10

  /** The "Range start" item that heads the block of randomization `index`. */
  function HeaderId(index: int): int {
    -10 - (index + 1) * 2
  }

  /** The "Set desired value..." item (later the desired value field) of randomization `index`. */
  function DesiredValueId(index: int): int {
    -9 - (index + 1) * 2
  }

  /** The randomization a desired-value item belongs to. */
  function RandomizationIdOf(itemId: int): int {
    CDiv(itemId + 9, -2) - 1
  }

  /** Decoding a desired-value item ID gives back the randomization it was made for. */
  lemma DesiredValueIdRoundTrip(index: nat)
    ensures RandomizationIdOf(DesiredValueId(index)) == index
  {
    assert DesiredValueId(index) + 9 == -2 * (index + 1);
    assert CInt.Abs(-2 * (index + 1)) / CInt.Abs(-2) == index + 1;
  }

  /** Which items menu_action hands to set_desired_value: odd IDs below -10 on an action item. */
  predicate RoutesToDesiredValue(itemId: int, isAction: bool) {
    itemId < -10 && CRem(itemId, 2) != 0 && isAction
  }

  /**
   * Header IDs are even and below -10, desired-value IDs odd and below -10,
   * so only the desired-value actions are routed, and no two IDs collide.
   */
  lemma OnlyDesiredValueItemsAreRouted(i: nat, j: nat, isAction: bool)
    ensures HeaderId(i) < -10 && CRem(HeaderId(i), 2) == 0
    ensures DesiredValueId(j) < -10 && CRem(DesiredValueId(j), 2) != 0
    ensures !RoutesToDesiredValue(HeaderId(i), isAction)
    ensures RoutesToDesiredValue(DesiredValueId(j), true)
    ensures HeaderId(i) != DesiredValueId(j)
    ensures i != j ==> HeaderId(i) != HeaderId(j) && DesiredValueId(i) != DesiredValueId(j)
    ensures forall id :: MNID_IMPORTLOGGED <= id <= MNID_STATUS ==> !RoutesToDesiredValue(id, isAction)
  {
    var h := HeaderId(i);
    assert h == (-(i + 6)) * 2;
    var d := DesiredValueId(j);
    assert d == (-(j + 6)) * 2 + 1;
    assert CRem(h, 2) == 0 by {
      assert CInt.Abs(h) == (i + 6) * 2;
      assert CInt.Abs(h) / CInt.Abs(2) == i + 6;
    }
    assert CRem(d, 2) == -1 by {
      assert CInt.Abs(d) == (j + 5) * 2 + 1;
      assert CInt.Abs(d) / CInt.Abs(2) == j + 5;
    }
  }

  /** The block of menu items one randomization occupies, and whether it shows the desired value fields. */
  datatype RandBlock = RandBlock(index: nat, showsDesiredValue: bool)

  /** The first index import_randomizations shows: the last ten at most. */
  function FirstShown(size: nat): (first: nat)
    ensures first <= size && size - first == if size < SHOWN_RANDOMIZATIONS then size else SHOWN_RANDOMIZATIONS
  {
    if size < SHOWN_RANDOMIZATIONS then 0 else size - SHOWN_RANDOMIZATIONS
  }

  /** The blocks for randomizations from..|rs|-1, in order. */
  function BlocksFrom(rs: seq<Randomization>, from: nat): (r: seq<RandBlock>)
    requires from <= |rs|
    ensures |r| == |rs| - from
    ensures forall k :: 0 <= k < |r| ==> r[k] == RandBlock(from + k, rs[from + k].desiredValues != [])
  {
    seq(|rs| - from, k requires 0 <= k < |rs| - from => RandBlock(from + k, rs[from + k].desiredValues != []))
  }

  /** The menu without the block that starts at the given header ID. */
  function WithoutBlock(blocks: seq<RandBlock>, headerId: int): (r: seq<RandBlock>)
    ensures forall b :: b in r <==> b in blocks && HeaderId(b.index) != headerId
  {
    if blocks == [] then []
    else
      (if HeaderId(blocks[0].index) == headerId then [] else [blocks[0]]) + WithoutBlock(blocks[1..], headerId)
  }

  /** The last randomization's header ID is -10 - 2 * size, the ID remove_last_randomization deletes from. */
  lemma LastHeaderId(size: nat)
    requires size >= 1
    ensures HeaderId(size - 1) == -10 - size * 2
  {
  }

  /** The blocks with the given randomization's block showing its desired value fields. */
  function ShowDesiredValue(blocks: seq<RandBlock>, index: int): (r: seq<RandBlock>)
    ensures |r| == |blocks|
    ensures forall k :: 0 <= k < |r| ==>
      r[k] == if blocks[k].index == index then blocks[k].(showsDesiredValue := true) else blocks[k]
  {
    seq(|blocks|, k requires 0 <= k < |blocks| =>
          if blocks[k].index == index then blocks[k].(showsDesiredValue := true) else blocks[k])
  }

  class SeedFinderMenu {
    const finder: SeedFinder
    const config: Config
    var blocks: seq<RandBlock>
    var useSeedItems: nat

    /**
     * Opens the menu on an existing finder and refreshes it: "Use seed" is
     * offered exactly when a seed was found, and the randomizations are
     * shown (a default one is added when there are none).
     */
    constructor (finder: SeedFinder, config: Config)
      modifies finder
      ensures this.finder == finder && this.config == config
      ensures useSeedItems == if old(finder.GetStatus()) == StatusFound then 1 else 0
      ensures old(finder.randomizations) == [] ==>
        finder.randomizations == [NewRandomization(0.0, 1.0, RANDTYPE_INT)] && blocks == [RandBlock(0, false)]
      ensures old(finder.randomizations) != [] ==>
        finder.randomizations == old(finder.randomizations) &&
        blocks == BlocksFrom(finder.randomizations, FirstShown(|finder.randomizations|))
      ensures blocks != []
      ensures finder.inProgress == old(finder.inProgress) && finder.seed == old(finder.seed)
    {
      this.finder := finder;
      this.config := config;
      blocks := [];
      useSeedItems := 0;
      new;
      Refresh();
    }

    /**
     * Rebuilds the menu from scratch: the status decides whether "Use seed"
     * is offered, then the randomizations are imported.
     */
    method Refresh()
      modifies this, finder
      ensures useSeedItems == if old(finder.GetStatus()) == StatusFound then 1 else 0
      ensures old(finder.randomizations) == [] ==>
        finder.randomizations == [NewRandomization(0.0, 1.0, RANDTYPE_INT)] && blocks == [RandBlock(0, false)]
      ensures old(finder.randomizations) != [] ==>
        finder.randomizations == old(finder.randomizations) &&
        blocks == BlocksFrom(finder.randomizations, FirstShown(|finder.randomizations|))
      ensures blocks != []
      ensures finder.inProgress == old(finder.inProgress) && finder.seed == old(finder.seed)
    {
      blocks := [];
      useSeedItems := 0;
      UpdateStatus(finder.GetStatus());
      ImportRandomizations();
    }

    /** Adds the block of one randomization; it shows the desired value when there is one. */
    method ImportRandomization(index: int)
      requires 0 <= index < |finder.randomizations|
      modifies this
      ensures blocks == old(blocks) + [RandBlock(index, finder.randomizations[index].desiredValues != [])]
      ensures useSeedItems == old(useSeedItems)
    {
      var hasDesired := finder.randomizations[index].desiredValues != [];
      blocks := blocks + [RandBlock(index, hasDesired)];
    }

    /** Appends an integer randomization over [0, 1] and shows it. */
    method AddRandomization()
      modifies this, finder
      ensures finder.randomizations == old(finder.randomizations) + [NewRandomization(0.0, 1.0, RANDTYPE_INT)]
      ensures blocks == old(blocks) + [RandBlock(|old(finder.randomizations)|, false)]
      ensures useSeedItems == old(useSeedItems)
      ensures finder.inProgress == old(finder.inProgress) && finder.seed == old(finder.seed)
    {
      finder.AddRandomization(NewRandomization(0.0, 1.0, RANDTYPE_INT));
      ImportRandomization(|finder.randomizations| - 1);
    }

    /** With no randomizations, adds one; otherwise shows the last ten at most, in order. */
    method ImportRandomizations()
      modifies this, finder
      ensures old(finder.randomizations) == [] ==>
        finder.randomizations == [NewRandomization(0.0, 1.0, RANDTYPE_INT)] &&
        blocks == old(blocks) + [RandBlock(0, false)]
      ensures old(finder.randomizations) != [] ==>
        finder.randomizations == old(finder.randomizations) &&
        blocks == old(blocks) + BlocksFrom(finder.randomizations, FirstShown(|finder.randomizations|))
      ensures useSeedItems == old(useSeedItems)
      ensures finder.inProgress == old(finder.inProgress) && finder.seed == old(finder.seed)
    {
      if |finder.randomizations| <= 0 {
        AddRandomization();
      } else {
        var size := |finder.randomizations|;
        var i := if size < 10 then 0 else size - 10;
        ghost var shown := BlocksFrom(finder.randomizations, i);
        while i < size
          invariant FirstShown(size) <= i <= size
          invariant blocks == old(blocks) + shown[..i - FirstShown(size)]
          invariant finder.randomizations == old(finder.randomizations) && useSeedItems == old(useSeedItems)
          invariant finder.inProgress == old(finder.inProgress) && finder.seed == old(finder.seed)
        {
          ImportRandomization(i);
          assert shown[..i + 1 - FirstShown(size)] == shown[..i - FirstShown(size)] + [shown[i - FirstShown(size)]];
          i := i + 1;
        }
        assert shown[..i - FirstShown(size)] == shown;
      }
    }

    /**
     * Unless forced, refuses to remove the only randomization; otherwise
     * deletes the last randomization's block and drops it.
     */
    method RemoveLastRandomization(force: bool)
      requires force ==> |finder.randomizations| >= 1
      modifies this, finder
      ensures !force && |old(finder.randomizations)| <= 1 ==>
        finder.randomizations == old(finder.randomizations) && blocks == old(blocks)
      ensures force || |old(finder.randomizations)| > 1 ==>
        finder.randomizations == old(finder.randomizations)[..|old(finder.randomizations)| - 1] &&
        blocks == WithoutBlock(old(blocks), HeaderId(|old(finder.randomizations)| - 1))
      ensures useSeedItems == old(useSeedItems)
      ensures finder.inProgress == old(finder.inProgress) && finder.seed == old(finder.seed)
    {
      if !force && |finder.randomizations| <= 1 {
        return;
      }
      LastHeaderId(|finder.randomizations|);
      blocks := WithoutBlock(blocks, -10 - |finder.randomizations| * 2);
      finder.randomizations := finder.randomizations[..|finder.randomizations| - 1];
    }

    /**
     * Gives the randomization a desired value of 1 if it has none and turns
     * its "Set desired value..." item into the desired value fields.
     */
    method SetDesiredValue(itemId: int)
      requires 0 <= RandomizationIdOf(itemId) < |finder.randomizations|
      modifies this, finder
      ensures var i := RandomizationIdOf(itemId);
        |finder.randomizations| == |old(finder.randomizations)| &&
        (forall k :: 0 <= k < |finder.randomizations| && k != i ==> finder.randomizations[k] == old(finder.randomizations)[k]) &&
        finder.randomizations[i] ==
          if old(finder.randomizations)[i].desiredValues == [] then old(finder.randomizations)[i].(desiredValues := [1.0])
          else old(finder.randomizations)[i]
      ensures var i := RandomizationIdOf(itemId);
        |blocks| == |old(blocks)| &&
        forall k :: 0 <= k < |blocks| ==>
          blocks[k] == if old(blocks)[k].index == i then old(blocks)[k].(showsDesiredValue := true) else old(blocks)[k]
      ensures finder.randomizations[RandomizationIdOf(itemId)].desiredValues != []
      ensures useSeedItems == old(useSeedItems)
      ensures finder.inProgress == old(finder.inProgress) && finder.seed == old(finder.seed)
    {
      var randomizationId := CDiv(itemId + 9, -2) - 1;
      var rand := finder.randomizations[randomizationId];
      if rand.desiredValues == [] {
        rand := rand.(desiredValues := [1.0]);
      }
      finder.randomizations := finder.randomizations[randomizationId := rand];
      blocks := ShowDesiredValue(blocks, randomizationId);
    }

    /** Removes one "Use seed" item unless a seed was found; a found seed adds another every time. */
    method UpdateStatus(status: Status)
      modifies this
      ensures status == StatusFound ==> useSeedItems == old(useSeedItems) + 1
      ensures status != StatusFound ==> useSeedItems == if old(useSeedItems) > 0 then old(useSeedItems) - 1 else 0
      ensures blocks == old(blocks)
    {
      if useSeedItems > 0 && status != StatusFound {
        useSeedItems := useSeedItems - 1;
      } else if status == StatusFound {
        useSeedItems := useSeedItems + 1;
      }
    }

    /** Seeds the game with the found seed (srand's result is a parameter) and records it in the history. */
    method UseSeed(srandResult: int)
      modifies config
      ensures config.randomSeed == srandResult
      ensures config.randomSeedHistory == Capped(old(config.randomSeedHistory) + [srandResult], SEED_HISTORY_LIMIT)
      ensures config.profile == old(config.profile) && config.profileCount == old(config.profileCount)
    {
      config.randomSeed := srandResult;
      config.RecordSeed(config.randomSeed);
    }
  }
}

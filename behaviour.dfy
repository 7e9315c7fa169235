/** The per-entity behaviour: the spawns, the interaction rules of miners and
    blobs with their targets, the miner transform, one step rule per action
    kind, the dispatcher that runs a popped action, and the tick advance. */
module Behaviour {
  import opened Wrappers
  import opened Geometry
  import opened ActionQueue
  import opened OccGrid
  import opened Entities
  import opened Spatial
  import opened Text
  import opened WorldState
  import opened WorldModel
  import opened Actions
  import opened Steps

  /** Entity `id` exists, has kind `k` and is on the grid. */
  ghost predicate Active(w: World, id: EntityId, k: Kind)
    reads w
  {
    id < |w.entities| && w.entities[id].kind == k && w.entities[id].position != Removed
  }

  // ---------------------------------------------------------------------
  // Spawns (create_* followed by add_entity)

  /** create_ore and add_entity: a fresh Ore on an open cell, its transform
      queued at ticks + rate. */
  method CreateOre(w: World, name: string, pt: Point, ticks: int, rate: int, imgs: seq<Image>)
    returns (id: EntityId)
    requires w.Valid() && Open(w.occupancy, pt) && |imgs| > 0
    modifies w
    ensures w.Valid()
    ensures id == |old(w.entities)|
    ensures w.entities == old(w.entities) + [NewOre(name, pt, imgs, rate).(pending := [old(w.nextActionId)])]
    ensures w.occupancy == SetCell(old(w.occupancy), pt, Some(id))
    ensures w.queue == Insert(old(w.queue), Entry(Action(old(w.nextActionId), id, OreTransform), ticks + rate))
    ensures w.nextActionId == old(w.nextActionId) + 1
    ensures w.Snapshot() == OreSpawned(old(w.Snapshot()), name, pt, ticks, rate, imgs)
  {
    var ore := NewOre(name, pt, imgs, rate);
    ghost var es0, n0 := w.entities, w.nextActionId;
    w.AddEntity(ore);
    id := |w.entities| - 1;
    ScheduleOre(w, id, ticks);
    AppendThenAddPending(es0, ore, [n0]);
  }

  /** create_blob and add_entity: a fresh blob on an open cell, its step
      queued at ticks + rate and its endless animation at its animation rate
      (the drawn factor times BLOB_ANIMATION_RATE_SCALE, which the caller
      computes from the draw). */
  method CreateBlob(w: World, name: string, pt: Point, rate: int, ticks: int, animationRate: int, imgs: seq<Image>)
    returns (id: EntityId)
    requires w.Valid() && Open(w.occupancy, pt) && |imgs| > 0
    modifies w
    ensures w.Valid()
    ensures id == |old(w.entities)|
    ensures var n := old(w.nextActionId);
      w.entities == old(w.entities) + [NewOreBlob(name, pt, rate, imgs, animationRate).(pending := [n, n + 1])] &&
      w.queue == BlobActions(old(w.queue), n, id, ticks + rate, animationRate) &&
      w.nextActionId == n + 2
    ensures w.occupancy == SetCell(old(w.occupancy), pt, Some(id))
    ensures w.Snapshot() == BlobSpawned(old(w.Snapshot()), name, pt, rate, ticks, animationRate, imgs)
  {
    var blob := NewOreBlob(name, pt, rate, imgs, animationRate);
    ghost var es0, n0 := w.entities, w.nextActionId;
    w.AddEntity(blob);
    id := |w.entities| - 1;
    ScheduleBlob(w, id, ticks);
    AppendThenAddPending(es0, blob, [n0, n0 + 1]);
  }

  /** create_quake and add_entity: a quake on an open cell, with its
      QUAKE_STEPS-frame animation and its death at ticks + QUAKE_DURATION. */
  method CreateQuake(w: World, pt: Point, ticks: int, imgs: seq<Image>) returns (id: EntityId)
    requires w.Valid() && Open(w.occupancy, pt) && |imgs| > 0
    modifies w
    ensures w.Valid()
    ensures id == |old(w.entities)|
    ensures var n := old(w.nextActionId);
      w.entities == old(w.entities) + [NewQuake("quake", pt, imgs, QUAKE_ANIMATION_RATE).(pending := [n, n + 1])] &&
      w.queue == Insert(Insert(old(w.queue), Entry(Action(n, id, Animate(QUAKE_STEPS)), QUAKE_ANIMATION_RATE)),
                        Entry(Action(n + 1, id, QuakeDeath), ticks + QUAKE_DURATION)) &&
      w.nextActionId == n + 2
    ensures w.occupancy == SetCell(old(w.occupancy), pt, Some(id))
    ensures w.Snapshot() == QuakeSpawned(old(w.Snapshot()), pt, ticks, imgs)
  {
    var quake := NewQuake("quake", pt, imgs, QUAKE_ANIMATION_RATE);
    ghost var es0, n0 := w.entities, w.nextActionId;
    w.AddEntity(quake);
    id := |w.entities| - 1;
    ScheduleQuake(w, id, ticks);
    AppendThenAddPending(es0, quake, [n0, n0 + 1]);
  }

  /** create_vein: a vein named "vein" + name with a drawn rate and resource
      distance 1; it is neither placed nor scheduled. */
  function CreateVein(name: string, pt: Point, rate: int, imgs: seq<Image>): (v: Entity)
    requires |imgs| > 0 && VEIN_RATE_MIN <= rate <= VEIN_RATE_MAX
    ensures Fresh(v) && v.kind == Vein && v.position == pt && v.imgs == imgs
    ensures |v.name| == |name| + 4 && v.name[..4] == "vein" && v.name[4..] == name
    ensures VEIN_RATE_MIN <= v.rate <= VEIN_RATE_MAX && v.resourceDistance == 1
  {
    NewVein("vein" + name, rate, pt, imgs, 1)
  }

  // ---------------------------------------------------------------------
  // Interaction rules

  /** miner_to_ore: with no ore, the miner's own cell and no change; next to
      the ore, one more unit carried and the ore (with its actions) removed;
      otherwise one step toward it, which is a no-op only when the step
      leaves the grid. */
  method MinerToOre(w: World, id: EntityId, ore: Option<EntityId>) returns (tiles: seq<Point>, found: bool)
    requires w.Valid() && Active(w, id, MinerNotFull)
    requires ore.Some? ==> ore.value < |w.entities| && w.entities[ore.value].kind == Ore
    modifies w
    ensures w.Valid() && Active(w, id, MinerNotFull)
    ensures w.entities[id].name == old(w.entities[id].name) && w.entities[id].rate == old(w.entities[id].rate)
    ensures |w.entities| == |old(w.entities)| && w.nextActionId == old(w.nextActionId)
    ensures found <==> ore.Some? && Adjacent(old(w.entities[id].position), old(w.entities[ore.value].position))
    ensures ore.None? ==>
      tiles == [old(w.entities[id].position)] &&
      w.entities == old(w.entities) && w.occupancy == old(w.occupancy) && w.queue == old(w.queue)
    ensures found ==>
      var o := ore.value;
      tiles == [old(w.entities[o].position)] &&
      w.entities == old(w.entities)[id := old(w.entities[id]).(resourceCount := old(w.entities[id].resourceCount) + 1)]
                                   [o := old(w.entities[o]).(pending := [], position := Removed)] &&
      w.occupancy == SetCell(old(w.occupancy), old(w.entities[o].position), None) &&
      w.queue == Without(old(w.queue), ToSet(old(w.entities[o].pending)))
    ensures ore.Some? && !found ==>
      var from := old(w.entities[id].position);
      var np := NextPosition(old(w.occupancy), from, old(w.entities[ore.value].position));
      w.queue == old(w.queue) &&
      (WithinBounds(old(w.occupancy), np) ==>
         tiles == [from, np] && w.entities == old(w.entities)[id := old(w.entities[id]).(position := np)] &&
         w.occupancy == SetCell(SetCell(old(w.occupancy), from, None), np, Some(id))) &&
      (!WithinBounds(old(w.occupancy), np) ==>
         tiles == [] && w.entities == old(w.entities) && w.occupancy == old(w.occupancy))
    ensures ore.Some? && !found && old(w.entities[ore.value].position) != Removed ==> |tiles| == 2
    ensures Outcome(w.Snapshot(), tiles, found, id) == MinerToOreStep(old(w.Snapshot()), id, ore)
  {
    var entityPt := w.entities[id].position;
    if ore.None? {
      return [entityPt], false;
    }
    var o := ore.value;
    var orePt := w.entities[o].position;
    if Adjacent(entityPt, orePt) {
      w.SetResourceCount(id, 1 + w.entities[id].resourceCount);
      RemoveEntityAndActions(w, o);
      return [orePt], true;
    }
    var np := NextPosition(w.occupancy, entityPt, orePt);
    PlacedCell(w.occupancy, w.entities, w.queue, w.nextActionId, id);
    if orePt != Removed {
      PlacedCell(w.occupancy, w.entities, w.queue, w.nextActionId, o);
      StepStaysInBounds(w.occupancy, w.entities, entityPt, orePt);
    }
    tiles := w.MoveEntity(id, np);
    found := false;
  }

  /** miner_to_smith: with no smith, the miner's own cell and no change; next
      to the smith, the miner's load is handed over (the sum of the two
      counts is kept) and nothing is redrawn; otherwise one step toward it. */
  method MinerToSmith(w: World, id: EntityId, smith: Option<EntityId>) returns (tiles: seq<Point>, found: bool)
    requires w.Valid() && Active(w, id, MinerFull)
    requires smith.Some? ==> smith.value < |w.entities| && w.entities[smith.value].kind == Blacksmith
    modifies w
    ensures w.Valid() && Active(w, id, MinerFull)
    ensures w.entities[id].name == old(w.entities[id].name) && w.entities[id].rate == old(w.entities[id].rate)
    ensures |w.entities| == |old(w.entities)| && w.nextActionId == old(w.nextActionId)
    ensures w.queue == old(w.queue)
    ensures found <==> smith.Some? && Adjacent(old(w.entities[id].position), old(w.entities[smith.value].position))
    ensures smith.None? ==>
      tiles == [old(w.entities[id].position)] && w.entities == old(w.entities) && w.occupancy == old(w.occupancy)
    ensures found ==>
      var s := smith.value;
      tiles == [] && w.occupancy == old(w.occupancy) &&
      w.entities == old(w.entities)[s := old(w.entities[s]).(resourceCount := old(w.entities[s].resourceCount) + old(w.entities[id].resourceCount))]
                                   [id := old(w.entities[id]).(resourceCount := 0)] &&
      w.entities[s].resourceCount + w.entities[id].resourceCount ==
        old(w.entities[s].resourceCount) + old(w.entities[id].resourceCount)
    ensures smith.Some? && !found ==>
      var from := old(w.entities[id].position);
      var np := NextPosition(old(w.occupancy), from, old(w.entities[smith.value].position));
      (WithinBounds(old(w.occupancy), np) ==>
         tiles == [from, np] && w.entities == old(w.entities)[id := old(w.entities[id]).(position := np)] &&
         w.occupancy == SetCell(SetCell(old(w.occupancy), from, None), np, Some(id))) &&
      (!WithinBounds(old(w.occupancy), np) ==>
         tiles == [] && w.entities == old(w.entities) && w.occupancy == old(w.occupancy))
    ensures smith.Some? && !found && old(w.entities[smith.value].position) != Removed ==> |tiles| == 2
    ensures Outcome(w.Snapshot(), tiles, found, id) == MinerToSmithStep(old(w.Snapshot()), id, smith)
  {
    var entityPt := w.entities[id].position;
    if smith.None? {
      return [entityPt], false;
    }
    var s := smith.value;
    var smithPt := w.entities[s].position;
    if Adjacent(entityPt, smithPt) {
      w.SetResourceCount(s, w.entities[s].resourceCount + w.entities[id].resourceCount);
      w.SetResourceCount(id, 0);
      return [], true;
    }
    var np := NextPosition(w.occupancy, entityPt, smithPt);
    PlacedCell(w.occupancy, w.entities, w.queue, w.nextActionId, id);
    if smithPt != Removed {
      PlacedCell(w.occupancy, w.entities, w.queue, w.nextActionId, s);
      StepStaysInBounds(w.occupancy, w.entities, entityPt, smithPt);
    }
    tiles := w.MoveEntity(id, np);
    found := false;
  }

  /** The moving half of blob_to_vein: an Ore on the cell entered is removed
      with its actions, then the blob moves there. */
  method BlobEnter(w: World, id: EntityId, np: Point) returns (tiles: seq<Point>)
    requires w.Valid() && Active(w, id, OreBlob)
    requires np == w.entities[id].position || FreeForBlob(w.occupancy, w.entities, np)
    modifies w
    ensures w.Valid() && Active(w, id, OreBlob)
    ensures w.entities[id].name == old(w.entities[id].name) && w.entities[id].rate == old(w.entities[id].rate)
    ensures |w.entities| == |old(w.entities)| && w.nextActionId == old(w.nextActionId)
    ensures WithinBounds(old(w.occupancy), np) ==>
      tiles == [old(w.entities[id].position), np] &&
      w.entities[id].position == np && GetCell(w.occupancy, np) == Some(id)
    ensures !WithinBounds(old(w.occupancy), np) ==>
      tiles == [] && w.entities == old(w.entities) && w.occupancy == old(w.occupancy)
    ensures OccupiedByOre(old(w.occupancy), old(w.entities), np) ==>
      var ore := old(w.occupancy).cells[np];
      w.entities[ore].position == Removed && w.entities[ore].pending == [] &&
      w.queue == Without(old(w.queue), ToSet(old(w.entities[ore].pending)))
    ensures !OccupiedByOre(old(w.occupancy), old(w.entities), np) ==> w.queue == old(w.queue)
    ensures Outcome(w.Snapshot(), tiles, false, id) == BlobEnterStep(old(w.Snapshot()), id, np)
  {
    PlacedCell(w.occupancy, w.entities, w.queue, w.nextActionId, id);
    var occupant := GetTileOccupant(w.occupancy, np);
    if occupant.Some? && w.entities[occupant.value].kind == Ore {
      var ore := occupant.value;
      assert w.entities[ore].position == np;
      RemoveEntityAndActions(w, ore);
      assert GetCell(w.occupancy, np) == None;
    }
    tiles := w.MoveEntity(id, np);
  }

  /** blob_to_vein: with no vein, the blob's own cell and no change; next to
      the vein, the vein (with its actions) is removed and its cell, now
      empty, is returned; otherwise the blob steps toward it as BlobEnter
      says. */
  method BlobToVein(w: World, id: EntityId, vein: Option<EntityId>) returns (tiles: seq<Point>, found: bool)
    requires w.Valid() && Active(w, id, OreBlob)
    requires vein.Some? ==> vein.value < |w.entities| && w.entities[vein.value].kind == Vein
    modifies w
    ensures w.Valid() && Active(w, id, OreBlob)
    ensures w.entities[id].name == old(w.entities[id].name) && w.entities[id].rate == old(w.entities[id].rate)
    ensures |w.entities| == |old(w.entities)| && w.nextActionId == old(w.nextActionId)
    ensures found <==> vein.Some? && Adjacent(old(w.entities[id].position), old(w.entities[vein.value].position))
    ensures vein.None? ==>
      tiles == [old(w.entities[id].position)] &&
      w.entities == old(w.entities) && w.occupancy == old(w.occupancy) && w.queue == old(w.queue)
    ensures found ==>
      var v := vein.value;
      tiles == [old(w.entities[v].position)] && Open(w.occupancy, tiles[0]) &&
      w.entities == old(w.entities)[v := old(w.entities[v]).(pending := [], position := Removed)] &&
      w.occupancy == SetCell(old(w.occupancy), old(w.entities[v].position), None) &&
      w.queue == Without(old(w.queue), ToSet(old(w.entities[v].pending)))
    ensures vein.Some? && !found ==>
      var np := BlobNextPosition(old(w.occupancy), old(w.entities), old(w.entities[id].position),
                                 old(w.entities[vein.value].position));
      (WithinBounds(old(w.occupancy), np) ==>
         tiles == [old(w.entities[id].position), np] && w.entities[id].position == np) &&
      (!WithinBounds(old(w.occupancy), np) ==> tiles == [])
    ensures vein.Some? && !found && old(w.entities[vein.value].position) != Removed ==> |tiles| == 2
    ensures Outcome(w.Snapshot(), tiles, found, id) == BlobToVeinStep(old(w.Snapshot()), id, vein)
  {
    var entityPt := w.entities[id].position;
    if vein.None? {
      return [entityPt], false;
    }
    var v := vein.value;
    var veinPt := w.entities[v].position;
    if Adjacent(entityPt, veinPt) {
      PlacedCell(w.occupancy, w.entities, w.queue, w.nextActionId, id);
      NotAdjacentToRemoved(entityPt);
      PlacedCell(w.occupancy, w.entities, w.queue, w.nextActionId, v);
      RemoveEntityAndActions(w, v);
      return [veinPt], true;
    }
    var np := BlobNextPosition(w.occupancy, w.entities, entityPt, veinPt);
    if veinPt != Removed {
      PlacedCell(w.occupancy, w.entities, w.queue, w.nextActionId, id);
      PlacedCell(w.occupancy, w.entities, w.queue, w.nextActionId, v);
      StepStaysInBounds(w.occupancy, w.entities, entityPt, veinPt);
    }
    tiles := BlobEnter(w, id, np);
    found := false;
  }

  // ---------------------------------------------------------------------
  // Miner transform

  /** The replacing half of try_transform_miner: the old miner's actions are
      cancelled and it is taken off its cell, the new miner is put there and
      appended, and its endless animation is queued. */
  method ReplaceMiner(w: World, id: EntityId, ne: Entity) returns (newId: EntityId)
    requires w.Valid() && id < |w.entities| && w.entities[id].position != Removed
    requires Fresh(ne) && ne.position == w.entities[id].position
    requires ne.kind == MinerNotFull || ne.kind == MinerFull
    modifies w
    ensures w.Valid()
    ensures newId == |old(w.entities)| && |w.entities| == newId + 1
    ensures w.entities[newId] == ne.(pending := [old(w.nextActionId)])
    ensures w.entities[..newId] == old(w.entities)[id := old(w.entities[id]).(pending := [], position := Removed)]
    ensures w.occupancy == SetCell(old(w.occupancy), ne.position, Some(newId))
    ensures w.queue == Insert(Without(old(w.queue), ToSet(old(w.entities[id].pending))),
                              Entry(Action(old(w.nextActionId), newId, Animate(0)), ne.animationRate))
    ensures w.nextActionId == old(w.nextActionId) + 1
  {
    PlacedCell(w.occupancy, w.entities, w.queue, w.nextActionId, id);
    // clear_pending_actions, then remove_entity_at on the miner's own cell
    RemoveEntityAndActions(w, id);
    ghost var es1 := w.entities;
    w.AddEntity(ne);
    assert w.entities == es1 + [ne];
    newId := |w.entities| - 1;
    var anim := ScheduleAnimation(w, newId, 0);
    SetCellTwice(old(w.occupancy), ne.position, None, Some(newId));
  }

  /** try_transform_miner: when the transform gives a different miner, it
      replaces the old one as ReplaceMiner says; when it gives the miner
      itself, nothing changes. */
  method TryTransformMiner(w: World, id: EntityId) returns (newId: EntityId)
    requires w.Valid() && id < |w.entities| && w.entities[id].position != Removed
    requires w.entities[id].kind == MinerNotFull || w.entities[id].kind == MinerFull
    modifies w
    ensures w.Valid()
    ensures newId < |w.entities| && w.entities[newId].position == old(w.entities[id].position)
    ensures w.entities[newId].kind == MinerNotFull || w.entities[newId].kind == MinerFull
    ensures SameIdentity(w.entities[newId], old(w.entities[id]))
    ensures |old(w.entities[id].imgs)| > 0
    ensures var e := old(w.entities[id]);
      var ne := Transform(e);
      (ne == e ==> newId == id && w.entities == old(w.entities) && w.occupancy == old(w.occupancy) &&
                   w.queue == old(w.queue) && w.nextActionId == old(w.nextActionId)) &&
      (ne != e ==>
         newId == |old(w.entities)| && |w.entities| == newId + 1 &&
         w.entities[newId] == ne.(pending := [old(w.nextActionId)]) &&
         w.entities[..newId] == old(w.entities)[id := e.(pending := [], position := Removed)] &&
         w.occupancy == SetCell(old(w.occupancy), e.position, Some(newId)) &&
         w.queue == Insert(Without(old(w.queue), ToSet(e.pending)),
                           Entry(Action(old(w.nextActionId), newId, Animate(0)), e.animationRate)) &&
         w.nextActionId == old(w.nextActionId) + 1)
    ensures Outcome(w.Snapshot(), [], newId != id, newId) == TransformStep(old(w.Snapshot()), id)
  {
    var e := w.entities[id];
    PlacedCell(w.occupancy, w.entities, w.queue, w.nextActionId, id);
    var ne := Transform(e);
    if ne == e {
      return id;
    }
    newId := ReplaceMiner(w, id, ne);
  }

  // ---------------------------------------------------------------------
  // Step rules: the body of each action, after the action has been taken off
  // its owner's pending list

  /** The first half of create_miner_not_full_action: head for the nearest
      Ore and, having reached it, become full once the load reaches the
      limit. `newId` is the miner that carries on. */
  method MinerNotFullTurn(w: World, id: EntityId) returns (tiles: seq<Point>, found: bool, newId: EntityId)
    requires w.Valid() && Active(w, id, MinerNotFull)
    modifies w
    ensures w.Valid() && newId < |w.entities| && w.entities[newId].position != Removed
    ensures w.entities[newId].kind == MinerNotFull || w.entities[newId].kind == MinerFull
    ensures w.entities[newId].name == old(w.entities[id].name) && w.entities[newId].rate == old(w.entities[id].rate)
    ensures newId != id <==> found && old(w.entities[id].resourceCount) + 1 >= old(w.entities[id].resourceLimit)
    ensures newId != id ==>
      newId == |old(w.entities)| && w.entities[newId].kind == MinerFull &&
      w.entities[newId].resourceCount == old(w.entities[id].resourceLimit)
    ensures |old(w.entities[id].imgs)| > 0
    ensures Outcome(w.Snapshot(), tiles, found, newId) == MinerNotFullTurnStep(old(w.Snapshot()), id)
  {
    assert EntityOk(w.occupancy, w.entities, id);
    var ore := FindNearest(w.entities, w.entities[id].position, Ore);
    tiles, found := MinerToOre(w, id, ore);
    newId := id;
    if found {
      newId := TryTransformMiner(w, id);
    }
  }

  /** create_miner_not_full_action: MinerNotFullTurn, then the next miner
      step, for the miner or its replacement, is queued at ticks + rate. */
  method MinerNotFullAction(w: World, id: EntityId, ticks: int) returns (tiles: seq<Point>, next: Action)
    requires w.Valid() && Active(w, id, MinerNotFull)
    modifies w
    ensures w.Valid()
    ensures next.kind == MinerStep && next.id + 1 == w.nextActionId && next.owner < |w.entities|
    ensures Entry(next, ticks + old(w.entities[id].rate)) in w.queue
    ensures w.entities[next.owner].name == old(w.entities[id].name)
    ensures w.entities[next.owner].kind == MinerNotFull || w.entities[next.owner].kind == MinerFull
    ensures next.owner != id ==> next.owner == |old(w.entities)| && w.entities[next.owner].kind == MinerFull
    ensures |old(w.entities[id].imgs)| > 0
    ensures var r := MinerNotFullActionStep(old(w.Snapshot()), id, ticks);
      Outcome(w.Snapshot(), tiles, r.found, next.owner) == r
  {
    var found, newId;
    ghost var s0 := w.Snapshot();
    tiles, found, newId := MinerNotFullTurn(w, id);
    ghost var t := w.Snapshot();
    var time := ticks + w.entities[newId].rate;
    next := ScheduleAction(w, newId, MinerStep, time);
    MinerNotFullActionThen(s0, id, ticks, Outcome(t, tiles, found, newId), time, w.Snapshot());
    assert Entry(next, time) in w.queue;
  }

  /** The first half of create_miner_full_action: head for the nearest
      Blacksmith and, having reached it, become an empty not-full miner. */
  method MinerFullTurn(w: World, id: EntityId) returns (tiles: seq<Point>, found: bool, newId: EntityId)
    requires w.Valid() && Active(w, id, MinerFull)
    modifies w
    ensures w.Valid() && newId < |w.entities| && w.entities[newId].position != Removed
    ensures w.entities[newId].kind == MinerNotFull || w.entities[newId].kind == MinerFull
    ensures w.entities[newId].name == old(w.entities[id].name) && w.entities[newId].rate == old(w.entities[id].rate)
    ensures newId != id <==> found
    ensures found ==>
      newId == |old(w.entities)| && w.entities[newId].kind == MinerNotFull && w.entities[newId].resourceCount == 0
    ensures |old(w.entities[id].imgs)| > 0
    ensures Outcome(w.Snapshot(), tiles, found, newId) == MinerFullTurnStep(old(w.Snapshot()), id)
  {
    assert EntityOk(w.occupancy, w.entities, id);
    var smith := FindNearest(w.entities, w.entities[id].position, Blacksmith);
    tiles, found := MinerToSmith(w, id, smith);
    newId := id;
    if found {
      newId := TryTransformMiner(w, id);
    }
  }

  /** create_miner_full_action: MinerFullTurn, then the next miner step is
      queued at ticks + rate. */
  method MinerFullAction(w: World, id: EntityId, ticks: int) returns (tiles: seq<Point>, next: Action)
    requires w.Valid() && Active(w, id, MinerFull)
    modifies w
    ensures w.Valid()
    ensures next.kind == MinerStep && next.id + 1 == w.nextActionId && next.owner < |w.entities|
    ensures Entry(next, ticks + old(w.entities[id].rate)) in w.queue
    ensures w.entities[next.owner].name == old(w.entities[id].name)
    ensures w.entities[next.owner].kind == MinerNotFull || w.entities[next.owner].kind == MinerFull
    ensures next.owner != id ==>
      next.owner == |old(w.entities)| && w.entities[next.owner].kind == MinerNotFull &&
      w.entities[next.owner].resourceCount == 0
    ensures |old(w.entities[id].imgs)| > 0
    ensures var r := MinerFullActionStep(old(w.Snapshot()), id, ticks);
      Outcome(w.Snapshot(), tiles, r.found, next.owner) == r
  {
    var found, newId;
    ghost var s0 := w.Snapshot();
    tiles, found, newId := MinerFullTurn(w, id);
    ghost var t := w.Snapshot();
    var time := ticks + w.entities[newId].rate;
    next := ScheduleAction(w, newId, MinerStep, time);
    MinerFullActionThen(s0, id, ticks, Outcome(t, tiles, found, newId), time, w.Snapshot());
    assert Entry(next, time) in w.queue;
  }

  /** The first half of create_ore_blob_action: head for the nearest Vein
      and, having reached it, start a quake on the vein's emptied cell. */
  method BlobTurn(w: World, id: EntityId, ticks: int, quakeImgs: seq<Image>) returns (tiles: seq<Point>, found: bool)
    requires w.Valid() && Active(w, id, OreBlob) && |quakeImgs| > 0
    modifies w
    ensures w.Valid() && Active(w, id, OreBlob)
    ensures w.entities[id].rate == old(w.entities[id].rate)
    ensures found ==>
      |tiles| == 1 && |w.entities| == |old(w.entities)| + 1 &&
      w.entities[|old(w.entities)|].kind == Quake && w.entities[|old(w.entities)|].position == tiles[0] &&
      GetCell(w.occupancy, tiles[0]) == Some(|old(w.entities)|)
    ensures !found ==> |w.entities| == |old(w.entities)|
    ensures Outcome(w.Snapshot(), tiles, found, id) == BlobTurnStep(old(w.Snapshot()), id, ticks, quakeImgs)
  {
    var vein := FindNearest(w.entities, w.entities[id].position, Vein);
    tiles, found := BlobToVein(w, id, vein);
    if found {
      ghost var mid := w.Snapshot();
      var quake := CreateQuake(w, tiles[0], ticks, quakeImgs);
      assert w.entities[id] == (mid.entities + [w.entities[quake]])[id] == mid.entities[id];
    }
  }

  /** create_ore_blob_action: BlobTurn, then the next blob step is queued at
      ticks + rate, or at ticks + 2 * rate when a quake was started. */
  method OreBlobAction(w: World, id: EntityId, ticks: int, quakeImgs: seq<Image>)
    returns (tiles: seq<Point>, found: bool, next: Action)
    requires w.Valid() && Active(w, id, OreBlob) && |quakeImgs| > 0
    modifies w
    ensures w.Valid()
    ensures next.owner == id && next.kind == OreBlobStep && next.id + 1 == w.nextActionId
    ensures Entry(next, ticks + (if found then old(w.entities[id].rate) * 2 else old(w.entities[id].rate))) in w.queue
    ensures found ==>
      |tiles| == 1 && |w.entities| == |old(w.entities)| + 1 &&
      w.entities[|old(w.entities)|].kind == Quake && w.entities[|old(w.entities)|].position == tiles[0] &&
      GetCell(w.occupancy, tiles[0]) == Some(|old(w.entities)|)
    ensures !found ==> |w.entities| == |old(w.entities)|
    ensures Outcome(w.Snapshot(), tiles, found, id) == OreBlobActionStep(old(w.Snapshot()), id, ticks, quakeImgs)
  {
    ghost var s0 := w.Snapshot();
    var rate := w.entities[id].rate;
    tiles, found := BlobTurn(w, id, ticks, quakeImgs);
    ghost var t := w.Snapshot();
    var nextTime := ticks + (if found then rate * 2 else rate);
    next := ScheduleAction(w, id, OreBlobStep, nextTime);
    OreBlobActionThen(s0, id, ticks, quakeImgs, Outcome(t, tiles, found, id), nextTime, w.Snapshot());
    assert Entry(next, nextTime) in w.queue;
  }

  /** The first half of create_vein_action: put a new Ore on the first open
      cell around the vein, if there is one. */
  method SpawnOre(w: World, id: EntityId, ticks: int, oreRate: int, oreImgs: seq<Image>)
    returns (tiles: seq<Point>)
    requires w.Valid() && Active(w, id, Vein) && |oreImgs| > 0
    modifies w
    ensures w.Valid() && Active(w, id, Vein) && w.entities[id] == old(w.entities[id])
    ensures tiles == [] <==>
      forall p :: InSquare(old(w.entities[id].position), old(w.entities[id].resourceDistance), p) ==> !Open(old(w.occupancy), p)
    ensures tiles == [] ==> |w.entities| == |old(w.entities)|
    ensures tiles != [] ==>
      var ore := |old(w.entities)|;
      |tiles| == 1 && Open(old(w.occupancy), tiles[0]) &&
      InSquare(old(w.entities[id].position), old(w.entities[id].resourceDistance), tiles[0]) &&
      |w.entities| == ore + 1 && w.entities[ore].kind == Ore && w.entities[ore].position == tiles[0] &&
      w.entities[ore].rate == oreRate &&
      w.entities[ore].name == "ore - " + old(w.entities[id].name) + " - " + IntToString(ticks) &&
      GetCell(w.occupancy, tiles[0]) == Some(ore)
    ensures Outcome(w.Snapshot(), tiles, tiles != [], id) == SpawnOreStep(old(w.Snapshot()), id, ticks, oreRate, oreImgs)
  {
    var openPt := FindOpenAround(w.occupancy, w.entities[id].position, w.entities[id].resourceDistance);
    if openPt.Some? {
      var name := "ore - " + w.entities[id].name + " - " + IntToString(ticks);
      ghost var es1 := w.entities;
      var ore := CreateOre(w, name, openPt.value, ticks, oreRate, oreImgs);
      assert w.entities[id] == (es1 + [w.entities[ore]])[id] == es1[id];
      tiles := [openPt.value];
    } else {
      tiles := [];
    }
  }

  /** create_vein_action: SpawnOre, then the next vein step is always queued
      at ticks + rate. */
  method VeinAction(w: World, id: EntityId, ticks: int, oreRate: int, oreImgs: seq<Image>)
    returns (tiles: seq<Point>, next: Action)
    requires w.Valid() && Active(w, id, Vein) && |oreImgs| > 0
    modifies w
    ensures w.Valid()
    ensures next.owner == id && next.kind == VeinStep && next.id + 1 == w.nextActionId
    ensures Entry(next, ticks + old(w.entities[id].rate)) in w.queue
    ensures tiles == [] <==>
      forall p :: InSquare(old(w.entities[id].position), old(w.entities[id].resourceDistance), p) ==> !Open(old(w.occupancy), p)
    ensures tiles != [] ==>
      |tiles| == 1 && |w.entities| == |old(w.entities)| + 1 &&
      w.entities[|old(w.entities)|].kind == Ore && w.entities[|old(w.entities)|].position == tiles[0] &&
      w.entities[|old(w.entities)|].rate == oreRate
    ensures var r := VeinActionStep(old(w.Snapshot()), id, ticks, oreRate, oreImgs);
      Outcome(w.Snapshot(), tiles, r.found, id) == r
  {
    ghost var s0 := w.Snapshot();
    tiles := SpawnOre(w, id, ticks, oreRate, oreImgs);
    ghost var t := w.Snapshot();
    var time := ticks + w.entities[id].rate;
    next := ScheduleAction(w, id, VeinStep, time);
    VeinActionThen(s0, id, ticks, oreRate, oreImgs, Outcome(t, tiles, tiles != [], id), time, w.Snapshot());
    assert Entry(next, time) in w.queue;
  }

  /** create_ore_transform_action: the ore and its actions are removed and a
      blob with a quarter of the ore's rate (rounded down) takes its cell. */
  method OreTransformAction(w: World, id: EntityId, ticks: int, blobFactor: int, blobImgs: seq<Image>)
    returns (tiles: seq<Point>)
    requires w.Valid() && Active(w, id, Ore) && |blobImgs| > 0
    requires BLOB_ANIMATION_MIN <= blobFactor <= BLOB_ANIMATION_MAX
    modifies w
    ensures w.Valid()
    ensures tiles == [old(w.entities[id].position)] && |w.entities| == |old(w.entities)| + 1
    ensures w.entities[id].position == Removed && w.entities[id].pending == []
    ensures forall x :: x in w.queue ==> x.action.owner != id
    ensures var blob := |old(w.entities)|;
      |w.entities| == blob + 1 && w.entities[blob].kind == OreBlob &&
      w.entities[blob].position == tiles[0] && w.entities[blob].rate == old(w.entities[id].rate) / BLOB_RATE_SCALE &&
      w.entities[blob].name == old(w.entities[id].name) + " -- blob" &&
      GetCell(w.occupancy, tiles[0]) == Some(blob)
    ensures Outcome(w.Snapshot(), tiles, false, id) == OreTransformStep(old(w.Snapshot()), id, ticks, blobFactor, blobImgs)
  {
    var e := w.entities[id];
    OreTransformOrder(w.Snapshot(), id, ticks, blobFactor, blobImgs);
    PlacedCell(w.occupancy, w.entities, w.queue, w.nextActionId, id);
    RemoveEntityAndActions(w, id);
    ghost var q1, n1 := w.queue, w.nextActionId;
    var animationRate := blobFactor * BLOB_ANIMATION_RATE_SCALE;
    var rate := e.rate / BLOB_RATE_SCALE;
    var blob := CreateBlob(w, e.name + " -- blob", e.position, rate, ticks, animationRate, blobImgs);
    ghost var step := Entry(Action(n1, blob, OreBlobStep), ticks + rate);
    ghost var anim := Entry(Action(n1 + 1, blob, Animate(0)), animationRate);
    InsertMembers(q1, step);
    InsertMembers(Insert(q1, step), anim);
    forall x | x in w.queue ensures x.action.owner != id {
      if x != step && x != anim {
        assert x in q1;
      }
    }
    tiles := [e.position];
  }

  /** create_entity_death_action: the quake and its actions are removed; the
      cell it stood on, recorded before the removal, is returned and is now
      empty. */
  method QuakeDeathAction(w: World, id: EntityId) returns (tiles: seq<Point>)
    requires w.Valid() && Active(w, id, Quake)
    modifies w
    ensures w.Valid()
    ensures tiles == [old(w.entities[id].position)] && GetCell(w.occupancy, tiles[0]) == None
    ensures |w.entities| == |old(w.entities)|
    ensures w.entities[id].position == Removed && w.entities[id].pending == []
    ensures forall x :: x in w.queue ==> x.action.owner != id
    ensures Outcome(w.Snapshot(), tiles, false, id) == QuakeDeathStep(old(w.Snapshot()), id)
  {
    var pt := w.entities[id].position;
    PlacedCell(w.occupancy, w.entities, w.queue, w.nextActionId, id);
    RemoveEntityAndActions(w, id);
    tiles := [pt];
  }

  /** create_animation_action: advance the frame and, unless this was the
      last repetition, queue the next animation at ticks + animation rate. */
  method AnimationAction(w: World, id: EntityId, ticks: int, repeatCount: nat) returns (tiles: seq<Point>)
    requires w.Valid() && id < |w.entities| && w.entities[id].position != Removed
    requires Fits(Animate(repeatCount), w.entities[id].kind)
    modifies w
    ensures w.Valid()
    ensures tiles == [old(w.entities[id].position)] && |w.entities| == |old(w.entities)|
    ensures |old(w.entities[id].imgs)| > 0
    ensures w.entities[id].currentImg == (old(w.entities[id].currentImg) + 1) % |old(w.entities[id].imgs)|
    ensures AnimationFollowUp(repeatCount).None? ==> w.queue == old(w.queue)
    ensures AnimationFollowUp(repeatCount).Some? ==>
      w.queue == Insert(old(w.queue), Entry(Action(old(w.nextActionId), id, Animate(AnimationFollowUp(repeatCount).value)),
                                            ticks + old(w.entities[id].animationRate)))
    ensures Outcome(w.Snapshot(), tiles, false, id) == AnimationStep(old(w.Snapshot()), id, ticks, repeatCount)
  {
    PlacedCell(w.occupancy, w.entities, w.queue, w.nextActionId, id);
    w.NextEntityImage(id);
    var follow := AnimationFollowUp(repeatCount);
    if follow.Some? {
      assert w.Valid() && w.entities[id].position != Removed && Fits(Animate(follow.value), w.entities[id].kind);
      var a := ScheduleAction(w, id, Animate(follow.value), ticks + w.entities[id].animationRate);
    }
    tiles := [w.entities[id].position];
  }

  // ---------------------------------------------------------------------
  // Dispatch and the tick advance

  /** Runs a popped action: takes it off its owner's pending list (the first
      statement of every closure) and then does what the closure of its kind
      does. `head` was the queue's first entry, so the state before the pop
      is consistent. */
  method Fire(w: World, head: Entry, ticks: int, draws: Draws, store: ImageStore) returns (tiles: seq<Point>)
    requires Inv(w.occupancy, w.entities, [head] + w.queue, w.nextActionId)
    requires StoreReady(store) && DrawsInRange(draws)
    modifies w
    ensures w.Valid()
    ensures var s := State(old(w.occupancy), old(w.entities), [head] + old(w.queue), old(w.nextActionId));
      Consistent(s) && w.Snapshot() == FireStep(s, ticks, draws, store).state &&
      tiles == FireStep(s, ticks, draws, store).tiles
  {
    var o, a := head.action.owner, head.action.id;
    ghost var q1 := [head] + w.queue;
    ghost var s := State(w.occupancy, w.entities, q1, w.nextActionId);
    assert q1[0] == head && q1[1..] == w.queue && head in q1;
    assert Queued(q1, head);
    InvRelease(w.occupancy, w.entities, q1, w.nextActionId);
    w.RemovePendingAction(o, a);
    assert w.Snapshot() == Released(s);
    match head.action.kind
    case MinerStep =>
      if w.entities[o].kind == MinerNotFull {
        var next;
        tiles, next := MinerNotFullAction(w, o, ticks);
      } else {
        var next;
        tiles, next := MinerFullAction(w, o, ticks);
      }
    case OreBlobStep =>
      var found, next;
      tiles, found, next := OreBlobAction(w, o, ticks, store.quake);
    case VeinStep =>
      var next;
      tiles, next := VeinAction(w, o, ticks, draws.oreRate, store.ore);
    case OreTransform =>
      tiles := OreTransformAction(w, o, ticks, draws.blobFactor, store.blob);
    case QuakeDeath =>
      tiles := QuakeDeathAction(w, o);
    case Animate(n) =>
      tiles := AnimationAction(w, o, ticks, n);
  }

  /** The body of update_on_time's loop: pop the head and fire it. */
  method PopAndFire(w: World, ticks: int, draws: Draws, store: ImageStore) returns (h: Entry, tiles: seq<Point>)
    requires w.Valid() && w.queue != [] && StoreReady(store) && DrawsInRange(draws)
    modifies w
    ensures w.Valid() && h == old(w.queue[0])
    ensures Fires(old(w.Snapshot()), ticks, draws, store, h, w.Snapshot(), tiles)
  {
    ghost var q0 := w.queue;
    h := w.Pop();
    assert [h] + w.queue == q0;
    tiles := Fire(w, h, ticks, draws, store);
  }

  /** The tiles of a run of firings, in firing order. */
  function Concat(batches: seq<seq<Point>>): seq<Point>
  {
    if batches == [] then [] else Concat(batches[..|batches| - 1]) + batches[|batches| - 1]
  }

  /** update_on_time: while the queue's head is due (ord < ticks), pop it and
      fire it, collecting the tiles each firing returns. One pair of draws is
      supplied per firing, and their number bounds the firings. `states` are
      the world's states between the firings: each firing pops the head of
      the state before it and, by FireStep, gives the state after it. */
  method UpdateOnTime(w: World, ticks: int, draws: seq<Draws>, store: ImageStore)
    returns (tiles: seq<Point>, fired: seq<Entry>, batches: seq<seq<Point>>, ghost states: seq<State>)
    requires w.Valid() && StoreReady(store)
    requires forall k :: 0 <= k < |draws| ==> DrawsInRange(draws[k])
    modifies w
    ensures w.Valid()
    ensures |fired| <= |draws| && |batches| == |fired| && tiles == Concat(batches)
    ensures forall k :: 0 <= k < |fired| ==> fired[k].ord < ticks
    ensures |fired| < |draws| ==> w.queue == [] || w.queue[0].ord >= ticks
    ensures |states| == |fired| + 1 && states[0] == old(w.Snapshot()) && states[|fired|] == w.Snapshot()
    ensures forall k :: 0 <= k < |fired| ==> Fires(states[k], ticks, draws[k], store, fired[k], states[k + 1], batches[k])
    ensures forall k, x :: 0 <= k < |fired| && x in w.queue ==> x.action.id != fired[k].action.id
  {
    tiles, fired, batches, states := [], [], [], [w.Snapshot()];
    var next := Head(w.queue);
    while |fired| < |draws| && next.Some? && next.value.ord < ticks
      invariant w.Valid() && |fired| <= |draws| && |batches| == |fired| && tiles == Concat(batches)
      invariant next == Head(w.queue)
      invariant forall k :: 0 <= k < |fired| ==> fired[k].ord < ticks
      invariant Run(states, fired, batches, ticks, draws, store)
      invariant states[0] == old(w.Snapshot()) && states[|fired|] == w.Snapshot()
      invariant forall k :: 0 <= k < |fired| ==> fired[k].action.id < w.nextActionId
      invariant forall k, x :: 0 <= k < |fired| && x in w.queue ==> x.action.id != fired[k].action.id
      decreases |draws| - |fired|
    {
      ghost var s0 := w.Snapshot();
      var h, t := PopAndFire(w, ticks, draws[|fired|], store);
      FiredStayGone(s0, ticks, draws[|fired|], store, fired);
      RunExtend(states, fired, batches, ticks, draws, store, h, w.Snapshot(), t);
      assert (batches + [t])[..|batches|] == batches;
      tiles, fired, batches, states := tiles + t, fired + [h], batches + [t], states + [w.Snapshot()];
      next := Head(w.queue);
    }
  }
}

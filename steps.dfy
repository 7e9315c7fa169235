/** The step rules as functions on world states. Each gives the new grid,
    entity list, queue and id counter, the tiles returned and, where it
    matters, whether the target was reached and which entity carries on.
    They compose the world's primitive effects the way the source's closures
    do, and the methods of Behaviour are proved to have exactly these
    effects. */
module Steps {
  import opened Wrappers
  import opened Geometry
  import opened ActionQueue
  import opened OccGrid
  import opened Entities
  import opened Spatial
  import opened Text
  import opened WorldState

  /** The frame lists the spawns take from the image store. */
  datatype ImageStore = ImageStore(ore: seq<Image>, blob: seq<Image>, quake: seq<Image>)

  predicate StoreReady(s: ImageStore)
  {
    |s.ore| > 0 && |s.blob| > 0 && |s.quake| > 0
  }

  /** The two random draws a firing may use: the rate of a new Ore, drawn from
      [ORE_CORRUPT_MIN, ORE_CORRUPT_MAX], and the factor of a new blob's
      animation rate, drawn from [BLOB_ANIMATION_MIN, BLOB_ANIMATION_MAX]. */
  datatype Draws = Draws(oreRate: int, blobFactor: int)

  predicate DrawsInRange(d: Draws)
  {
    ORE_CORRUPT_MIN <= d.oreRate <= ORE_CORRUPT_MAX &&
    BLOB_ANIMATION_MIN <= d.blobFactor <= BLOB_ANIMATION_MAX
  }

  /** What a step does: the new state, the tiles it returns, whether it
      reached its target, and the entity that carries on (a transformed
      miner's replacement, otherwise the acting entity). */
  datatype Outcome = Outcome(state: State, tiles: seq<Point>, found: bool, actor: EntityId)

  // ---------------------------------------------------------------------
  // Primitive effects

  /** Entity.remove_entity: the entity's queued actions are unscheduled, its
      list is emptied, its cell is cleared (nothing happens to the grid for an
      entity already at (-1, -1)) and its position becomes (-1, -1). */
  function RemovedWithActions(s: State, id: EntityId): (r: State)
    requires id < |s.entities|
    ensures |r.entities| == |s.entities| && r.nextActionId == s.nextActionId
  {
    var e := s.entities[id];
    State(SetCell(s.occupancy, e.position, None),
          s.entities[id := e.(pending := [], position := Removed)],
          Without(s.queue, ToSet(e.pending)),
          s.nextActionId)
  }

  /** schedule_action: a fresh action for `o`, appended to its pending list
      and queued at `time`. */
  function Scheduled(s: State, o: EntityId, kind: ActionKind, time: int): (r: State)
    requires o < |s.entities|
    ensures |r.entities| == |s.entities| && r.nextActionId == s.nextActionId + 1
  {
    var a := Action(s.nextActionId, o, kind);
    State(s.occupancy, s.entities[o := AddPending(s.entities[o], a.id)],
          Insert(s.queue, Entry(a, time)), s.nextActionId + 1)
  }

  /** move_entity: in bounds the entity leaves its cell for `pt` and both
      cells are returned; out of bounds nothing changes and no tile is. */
  function Moved(s: State, id: EntityId, pt: Point): (r: Outcome)
    requires id < |s.entities|
    ensures |r.state.entities| == |s.entities| && r.state.nextActionId == s.nextActionId
    ensures r.state.queue == s.queue && !r.found && r.actor == id
    ensures r.state.entities[id] == s.entities[id] || r.state.entities[id] == s.entities[id].(position := pt)
  {
    var from := s.entities[id].position;
    if WithinBounds(s.occupancy, pt) then
      Outcome(s.(occupancy := SetCell(SetCell(s.occupancy, from, None), pt, Some(id)),
                 entities := s.entities[id := s.entities[id].(position := pt)]),
              [from, pt], false, id)
    else Outcome(s, [], false, id)
  }

  /** create_ore and add_entity on an open cell: the ore is appended with its
      transform queued at ticks + rate. */
  function OreSpawned(s: State, name: string, pt: Point, ticks: int, rate: int, imgs: seq<Image>): (r: State)
    requires |imgs| > 0
    ensures |r.entities| == |s.entities| + 1 && r.entities[..|s.entities|] == s.entities
  {
    var id, n := |s.entities|, s.nextActionId;
    State(SetCell(s.occupancy, pt, Some(id)),
          s.entities + [NewOre(name, pt, imgs, rate).(pending := [n])],
          Insert(s.queue, Entry(Action(n, id, OreTransform), ticks + rate)),
          n + 1)
  }

  /** create_blob and add_entity on an open cell: the blob is appended with
      its step queued at ticks + rate and its endless animation. */
  function BlobSpawned(s: State, name: string, pt: Point, rate: int, ticks: int, animationRate: int,
                       imgs: seq<Image>): (r: State)
    requires |imgs| > 0
    ensures |r.entities| == |s.entities| + 1 && r.entities[..|s.entities|] == s.entities
  {
    var id, n := |s.entities|, s.nextActionId;
    State(SetCell(s.occupancy, pt, Some(id)),
          s.entities + [NewOreBlob(name, pt, rate, imgs, animationRate).(pending := [n, n + 1])],
          BlobActions(s.queue, n, id, ticks + rate, animationRate),
          n + 2)
  }

  /** create_quake and add_entity on an open cell: the quake is appended with
      its QUAKE_STEPS-frame animation and its death at ticks + QUAKE_DURATION. */
  function QuakeSpawned(s: State, pt: Point, ticks: int, imgs: seq<Image>): (r: State)
    requires |imgs| > 0
    ensures |r.entities| == |s.entities| + 1 && r.entities[..|s.entities|] == s.entities
  {
    var id, n := |s.entities|, s.nextActionId;
    State(SetCell(s.occupancy, pt, Some(id)),
          s.entities + [NewQuake("quake", pt, imgs, QUAKE_ANIMATION_RATE).(pending := [n, n + 1])],
          Insert(Insert(s.queue, Entry(Action(n, id, Animate(QUAKE_STEPS)), QUAKE_ANIMATION_RATE)),
                 Entry(Action(n + 1, id, QuakeDeath), ticks + QUAKE_DURATION)),
          n + 2)
  }

  // ---------------------------------------------------------------------
  // Interaction rules

  /** miner_to_ore */
  function MinerToOreStep(s: State, id: EntityId, ore: Option<EntityId>): (r: Outcome)
    requires id < |s.entities| && s.entities[id].kind == MinerNotFull
    requires ore.Some? ==> ore.value < |s.entities| && s.entities[ore.value].kind == Ore
    ensures |r.state.entities| == |s.entities| && r.state.nextActionId == s.nextActionId && r.actor == id
    ensures r.state.entities[id].kind == MinerNotFull && r.state.entities[id].imgs == s.entities[id].imgs
  {
    var e := s.entities[id];
    if ore.None? then Outcome(s, [e.position], false, id)
    else
      var orePt := s.entities[ore.value].position;
      if Adjacent(e.position, orePt) then
        var counted := s.(entities := s.entities[id := e.(resourceCount := e.resourceCount + 1)]);
        Outcome(RemovedWithActions(counted, ore.value), [orePt], true, id)
      else Moved(s, id, NextPosition(s.occupancy, e.position, orePt))
  }

  /** miner_to_smith */
  function MinerToSmithStep(s: State, id: EntityId, smith: Option<EntityId>): (r: Outcome)
    requires id < |s.entities| && s.entities[id].kind == MinerFull
    requires smith.Some? ==> smith.value < |s.entities| && s.entities[smith.value].kind == Blacksmith
    ensures |r.state.entities| == |s.entities| && r.state.nextActionId == s.nextActionId && r.actor == id
    ensures r.state.entities[id].kind == MinerFull && r.state.entities[id].imgs == s.entities[id].imgs
  {
    var e := s.entities[id];
    if smith.None? then Outcome(s, [e.position], false, id)
    else
      var sm := smith.value;
      var smithPt := s.entities[sm].position;
      if Adjacent(e.position, smithPt) then
        var es := s.entities[sm := s.entities[sm].(resourceCount := s.entities[sm].resourceCount + e.resourceCount)];
        Outcome(s.(entities := es[id := e.(resourceCount := 0)]), [], true, id)
      else Moved(s, id, NextPosition(s.occupancy, e.position, smithPt))
  }

  /** The moving half of blob_to_vein: an Ore on the entered cell is removed
      with its actions, then the blob moves there. */
  function BlobEnterStep(s: State, id: EntityId, np: Point): (r: Outcome)
    requires id < |s.entities| && s.entities[id].kind == OreBlob
    ensures |r.state.entities| == |s.entities| && r.state.nextActionId == s.nextActionId
    ensures !r.found && r.actor == id && r.state.entities[id].kind == OreBlob
  {
    var occupant := GetTileOccupant(s.occupancy, np);
    var cleared :=
      if occupant.Some? && occupant.value < |s.entities| && s.entities[occupant.value].kind == Ore
      then RemovedWithActions(s, occupant.value) else s;
    Moved(cleared, id, np)
  }

  /** blob_to_vein */
  function BlobToVeinStep(s: State, id: EntityId, vein: Option<EntityId>): (r: Outcome)
    requires id < |s.entities| && s.entities[id].kind == OreBlob
    requires vein.Some? ==> vein.value < |s.entities| && s.entities[vein.value].kind == Vein
    ensures |r.state.entities| == |s.entities| && r.state.nextActionId == s.nextActionId && r.actor == id
    ensures r.found ==> |r.tiles| == 1
  {
    var e := s.entities[id];
    if vein.None? then Outcome(s, [e.position], false, id)
    else
      var veinPt := s.entities[vein.value].position;
      if Adjacent(e.position, veinPt) then Outcome(RemovedWithActions(s, vein.value), [veinPt], true, id)
      else BlobEnterStep(s, id, BlobNextPosition(s.occupancy, s.entities, e.position, veinPt))
  }

  /** The transform a miner's own kind selects: try_transform_miner_not_full
      for a not-full miner, try_transform_miner_full for a full one. */
  function Transform(e: Entity): (r: Entity)
    requires (e.kind == MinerNotFull || e.kind == MinerFull) && |e.imgs| > 0
    ensures SameIdentity(r, e) && (r.kind == MinerNotFull || r.kind == MinerFull)
    ensures r == e || (Fresh(r) && r.kind != e.kind)
    ensures r == e <==> e.kind == MinerNotFull && e.resourceCount < e.resourceLimit
  {
    if e.kind == MinerNotFull then TryTransformNotFull(e) else TryTransformFull(e)
  }

  /** try_transform_miner: a different miner from the transform takes the
      old one's cell, is appended and gets its endless animation, after the
      old one's actions are cancelled; the same miner changes nothing. */
  function TransformStep(s: State, id: EntityId): (r: Outcome)
    requires id < |s.entities| && |s.entities[id].imgs| > 0
    requires s.entities[id].kind == MinerNotFull || s.entities[id].kind == MinerFull
    ensures r.actor < |r.state.entities|
  {
    var e := s.entities[id];
    var ne := Transform(e);
    if ne == e then Outcome(s, [], false, id)
    else
      var newId, n := |s.entities|, s.nextActionId;
      Outcome(State(SetCell(s.occupancy, e.position, Some(newId)),
                    s.entities[id := e.(pending := [], position := Removed)] + [ne.(pending := [n])],
                    Insert(Without(s.queue, ToSet(e.pending)), Entry(Action(n, newId, Animate(0)), ne.animationRate)),
                    n + 1),
              [], true, newId)
  }

  // ---------------------------------------------------------------------
  // Step rules, from the state after the firing action has left its
  // owner's pending list

  /** The closing statement of the miner, blob and vein actions: the actor's
      next action of `kind` is queued at `time`. */
  function Then(t: Outcome, kind: ActionKind, time: int): (r: Outcome)
    requires t.actor < |t.state.entities|
    ensures r.tiles == t.tiles && r.found == t.found && r.actor == t.actor
  {
    Outcome(Scheduled(t.state, t.actor, kind, time), t.tiles, t.found, t.actor)
  }

  /** The first half of create_miner_not_full_action. */
  function MinerNotFullTurnStep(s: State, id: EntityId): (r: Outcome)
    requires id < |s.entities| && s.entities[id].kind == MinerNotFull && |s.entities[id].imgs| > 0
    ensures r.actor < |r.state.entities|
  {
    var r := MinerToOreStep(s, id, NearestOf(s.entities, s.entities[id].position, Ore));
    if r.found then
      var t := TransformStep(r.state, id);
      Outcome(t.state, r.tiles, true, t.actor)
    else r
  }

  /** create_miner_not_full_action */
  function MinerNotFullActionStep(s: State, id: EntityId, ticks: int): (r: Outcome)
    requires id < |s.entities| && s.entities[id].kind == MinerNotFull && |s.entities[id].imgs| > 0
  {
    var t := MinerNotFullTurnStep(s, id);
    Then(t, MinerStep, ticks + t.state.entities[t.actor].rate)
  }

  /** The miner's action is its turn followed by the next miner step. */
  lemma MinerNotFullActionThen(s: State, id: EntityId, ticks: int, t: Outcome, time: int, s2: State)
    requires id < |s.entities| && s.entities[id].kind == MinerNotFull && |s.entities[id].imgs| > 0
    requires t == MinerNotFullTurnStep(s, id) && time == ticks + t.state.entities[t.actor].rate
    requires s2 == Scheduled(t.state, t.actor, MinerStep, time)
    ensures var r := MinerNotFullActionStep(s, id, ticks); Outcome(s2, t.tiles, r.found, t.actor) == r
  {
  }

  /** The first half of create_miner_full_action. */
  function MinerFullTurnStep(s: State, id: EntityId): (r: Outcome)
    requires id < |s.entities| && s.entities[id].kind == MinerFull && |s.entities[id].imgs| > 0
    ensures r.actor < |r.state.entities|
  {
    var r := MinerToSmithStep(s, id, NearestOf(s.entities, s.entities[id].position, Blacksmith));
    if r.found then
      var t := TransformStep(r.state, id);
      Outcome(t.state, r.tiles, true, t.actor)
    else r
  }

  /** create_miner_full_action */
  function MinerFullActionStep(s: State, id: EntityId, ticks: int): (r: Outcome)
    requires id < |s.entities| && s.entities[id].kind == MinerFull && |s.entities[id].imgs| > 0
  {
    var t := MinerFullTurnStep(s, id);
    Then(t, MinerStep, ticks + t.state.entities[t.actor].rate)
  }

  /** The full miner's action is its turn followed by the next miner step. */
  lemma MinerFullActionThen(s: State, id: EntityId, ticks: int, t: Outcome, time: int, s2: State)
    requires id < |s.entities| && s.entities[id].kind == MinerFull && |s.entities[id].imgs| > 0
    requires t == MinerFullTurnStep(s, id) && time == ticks + t.state.entities[t.actor].rate
    requires s2 == Scheduled(t.state, t.actor, MinerStep, time)
    ensures var r := MinerFullActionStep(s, id, ticks); Outcome(s2, t.tiles, r.found, t.actor) == r
  {
  }

  /** The first half of create_ore_blob_action. */
  function BlobTurnStep(s: State, id: EntityId, ticks: int, quakeImgs: seq<Image>): (r: Outcome)
    requires id < |s.entities| && s.entities[id].kind == OreBlob && |quakeImgs| > 0
    ensures |r.state.entities| >= |s.entities| && r.actor == id
  {
    var r := BlobToVeinStep(s, id, NearestOf(s.entities, s.entities[id].position, Vein));
    if r.found then Outcome(QuakeSpawned(r.state, r.tiles[0], ticks, quakeImgs), r.tiles, true, id)
    else r
  }

  /** create_ore_blob_action */
  function OreBlobActionStep(s: State, id: EntityId, ticks: int, quakeImgs: seq<Image>): (r: Outcome)
    requires id < |s.entities| && s.entities[id].kind == OreBlob && |quakeImgs| > 0
  {
    var t := BlobTurnStep(s, id, ticks, quakeImgs);
    var rate := s.entities[id].rate;
    Then(t, OreBlobStep, if t.found then ticks + rate * 2 else ticks + rate)
  }

  /** OreBlobActionStep unfolded one level. */
  lemma OreBlobActionThen(s: State, id: EntityId, ticks: int, quakeImgs: seq<Image>, t: Outcome, time: int, s2: State)
    requires id < |s.entities| && s.entities[id].kind == OreBlob && |quakeImgs| > 0
    requires t == BlobTurnStep(s, id, ticks, quakeImgs)
    requires time == ticks + (if t.found then s.entities[id].rate * 2 else s.entities[id].rate)
    requires s2 == Scheduled(t.state, id, OreBlobStep, time)
    ensures Outcome(s2, t.tiles, t.found, id) == OreBlobActionStep(s, id, ticks, quakeImgs)
  {
  }

  /** The first half of create_vein_action. */
  function SpawnOreStep(s: State, id: EntityId, ticks: int, oreRate: int, oreImgs: seq<Image>): (r: Outcome)
    requires id < |s.entities| && |oreImgs| > 0
    ensures |r.state.entities| >= |s.entities| && r.actor == id
  {
    var e := s.entities[id];
    var open := FirstOpen(s.occupancy, e.position, e.resourceDistance);
    if open.Some? then
      Outcome(OreSpawned(s, "ore - " + e.name + " - " + IntToString(ticks), open.value, ticks, oreRate, oreImgs),
              [open.value], true, id)
    else Outcome(s, [], false, id)
  }

  /** create_vein_action */
  function VeinActionStep(s: State, id: EntityId, ticks: int, oreRate: int, oreImgs: seq<Image>): (r: Outcome)
    requires id < |s.entities| && |oreImgs| > 0
  {
    var t := SpawnOreStep(s, id, ticks, oreRate, oreImgs);
    Then(t, VeinStep, ticks + s.entities[id].rate)
  }

  /** The vein's action is its spawn turn followed by its next step. */
  lemma VeinActionThen(s: State, id: EntityId, ticks: int, oreRate: int, oreImgs: seq<Image>, t: Outcome,
                        time: int, s2: State)
    requires id < |s.entities| && |oreImgs| > 0
    requires t == SpawnOreStep(s, id, ticks, oreRate, oreImgs) && time == ticks + s.entities[id].rate
    requires s2 == Scheduled(t.state, id, VeinStep, time)
    ensures var r := VeinActionStep(s, id, ticks, oreRate, oreImgs); Outcome(s2, t.tiles, r.found, id) == r
  {
  }

  /** A transformed ore's blob steps at a quarter of the ore's rate (the
      floor division of a positive divisor, which Dafny's `/` agrees with). */
  function BlobRate(oreRate: int): (r: int)
    ensures BLOB_RATE_SCALE * r <= oreRate < BLOB_RATE_SCALE * (r + 1)
  {
    oreRate / BLOB_RATE_SCALE
  }

  /** The drawn factor scaled to a blob's animation rate. */
  function BlobAnimationRate(factor: int): (r: int)
    ensures BLOB_ANIMATION_MIN <= factor <= BLOB_ANIMATION_MAX ==>
      BLOB_ANIMATION_MIN * BLOB_ANIMATION_RATE_SCALE <= r <= BLOB_ANIMATION_MAX * BLOB_ANIMATION_RATE_SCALE
  {
    factor * BLOB_ANIMATION_RATE_SCALE
  }

  /** create_ore_transform_action. The ore is removed with its actions and
      a blob is added on its former cell; the queue keeps the source's order:
      create_blob schedules the blob's step and animation before the ore's
      actions are cancelled. */
  function OreTransformStep(s: State, id: EntityId, ticks: int, blobFactor: int, blobImgs: seq<Image>): (r: Outcome)
    requires id < |s.entities| && |blobImgs| > 0
  {
    var e, blob, n := s.entities[id], |s.entities|, s.nextActionId;
    var rate, animationRate := BlobRate(e.rate), BlobAnimationRate(blobFactor);
    var spawned := BlobSpawned(RemovedWithActions(s, id), e.name + " -- blob", e.position, rate, ticks, animationRate, blobImgs);
    Outcome(spawned.(queue := Without(BlobActions(s.queue, n, blob, ticks + rate, animationRate), ToSet(e.pending))),
            [e.position], false, id)
  }

  /** On an ordered queue, cancelling ids other than the new blob's
      commutes with queueing the blob's actions. */
  lemma CancelAfterSchedule(q: seq<Entry>, n: ActionId, blob: EntityId, stepTime: int, animationRate: int,
                            cancelled: set<ActionId>)
    requires Sorted(q) && n !in cancelled && n + 1 !in cancelled
    ensures Without(BlobActions(q, n, blob, stepTime, animationRate), cancelled) ==
            BlobActions(Without(q, cancelled), n, blob, stepTime, animationRate)
  {
    var step := Entry(Action(n, blob, OreBlobStep), stepTime);
    InsertSorted(q, step);
    WithoutInsert(Insert(q, step), Entry(Action(n + 1, blob, Animate(0)), animationRate), cancelled);
    WithoutInsert(q, step, cancelled);
  }

  /** The same for the whole state. */
  lemma OreTransformReorder(s: State, id: EntityId, ticks: int, blobFactor: int, blobImgs: seq<Image>)
    requires id < |s.entities| && |blobImgs| > 0 && Sorted(s.queue)
    requires forall a :: a in s.entities[id].pending ==> a < s.nextActionId
    ensures var e := s.entities[id];
      OreTransformStep(s, id, ticks, blobFactor, blobImgs).state.queue ==
      BlobSpawned(RemovedWithActions(s, id), e.name + " -- blob", e.position, BlobRate(e.rate), ticks,
                  BlobAnimationRate(blobFactor), blobImgs).queue
  {
    var e, n := s.entities[id], s.nextActionId;
    assert n !in ToSet(e.pending) && n + 1 !in ToSet(e.pending);
    CancelAfterSchedule(s.queue, n, |s.entities|, ticks + BlobRate(e.rate), BlobAnimationRate(blobFactor), ToSet(e.pending));
  }

  /** In a consistent state the two orders agree. */
  lemma OreTransformOrder(s: State, id: EntityId, ticks: int, blobFactor: int, blobImgs: seq<Image>)
    requires Consistent(s) && id < |s.entities| && |blobImgs| > 0
    ensures var e := s.entities[id];
      OreTransformStep(s, id, ticks, blobFactor, blobImgs).state ==
      BlobSpawned(RemovedWithActions(s, id), e.name + " -- blob", e.position, BlobRate(e.rate), ticks,
                  BlobAnimationRate(blobFactor), blobImgs)
  {
    IdsBelow(s.occupancy, s.entities, s.queue, s.nextActionId);
    assert Sorted(s.queue);
    OreTransformReorder(s, id, ticks, blobFactor, blobImgs);
    var e := s.entities[id];
    var spawned := BlobSpawned(RemovedWithActions(s, id), e.name + " -- blob", e.position, BlobRate(e.rate), ticks,
                               BlobAnimationRate(blobFactor), blobImgs);
    assert spawned.(queue := spawned.queue) == spawned;
  }

  /** create_entity_death_action: the quake's cell, read before the removal. */
  function QuakeDeathStep(s: State, id: EntityId): (r: Outcome)
    requires id < |s.entities|
  {
    Outcome(RemovedWithActions(s, id), [s.entities[id].position], false, id)
  }

  /** create_animation_action */
  function AnimationStep(s: State, id: EntityId, ticks: int, repeatCount: nat): (r: Outcome)
    requires id < |s.entities| && |s.entities[id].imgs| > 0
  {
    var e := s.entities[id];
    var advanced := s.(entities := s.entities[id := NextImage(e)]);
    var follow := AnimationFollowUp(repeatCount);
    Outcome(if follow.Some? then Scheduled(advanced, id, Animate(follow.value), ticks + e.animationRate)
            else advanced,
            [e.position], false, id)
  }

  // ---------------------------------------------------------------------
  // Firing

  /** The queue's head popped and taken off its owner's pending list: the
      state a closure body starts from. */
  ghost function Released(s: State): (r: State)
    requires Consistent(s) && s.queue != []
    ensures Consistent(r)
  {
    var head := s.queue[0];
    HeadOwner(s.occupancy, s.entities, s.queue, s.nextActionId);
    InvRelease(s.occupancy, s.entities, s.queue, s.nextActionId);
    var o := head.action.owner;
    State(s.occupancy, s.entities[o := RemovePending(s.entities[o], head.action.id)], s.queue[1..], s.nextActionId)
  }

  /** Pop the queue's head and run its closure. */
  ghost function FireStep(s: State, ticks: int, d: Draws, store: ImageStore): (r: Outcome)
    requires Consistent(s) && s.queue != [] && StoreReady(store)
  {
    var head := s.queue[0];
    var o := head.action.owner;
    HeadOwner(s.occupancy, s.entities, s.queue, s.nextActionId);
    var r := Released(s);
    assert r.entities[o] == RemovePending(s.entities[o], head.action.id);
    match head.action.kind
    case MinerStep =>
      if r.entities[o].kind == MinerNotFull then MinerNotFullActionStep(r, o, ticks)
      else MinerFullActionStep(r, o, ticks)
    case OreBlobStep => OreBlobActionStep(r, o, ticks, store.quake)
    case VeinStep => VeinActionStep(r, o, ticks, d.oreRate, store.ore)
    case OreTransform => OreTransformStep(r, o, ticks, d.blobFactor, store.blob)
    case QuakeDeath => QuakeDeathStep(r, o)
    case Animate(n) => AnimationStep(r, o, ticks, n)
  }

  // ---------------------------------------------------------------------
  // The turns' rules

  /** A not-full miner goes for the nearest Ore: it collects it exactly when
      the two are adjacent (the ore leaves the grid and its cell is returned),
      otherwise it takes the greedy step toward it, or stays where the step
      leads out of the grid; with no ore in the world nothing changes. */
  lemma MinerNotFullTurnRule(s: State, id: EntityId)
    requires id < |s.entities| && s.entities[id].kind == MinerNotFull && |s.entities[id].imgs| > 0
    ensures var e, ore, r := s.entities[id], NearestOf(s.entities, s.entities[id].position, Ore), MinerNotFullTurnStep(s, id);
      (r.found <==> ore.Some? && Adjacent(e.position, s.entities[ore.value].position)) &&
      (ore.None? ==> r == Outcome(s, [e.position], false, id)) &&
      (r.found ==> r.tiles == [s.entities[ore.value].position] && r.state.entities[ore.value].position == Removed) &&
      (ore.Some? && !r.found ==>
        var np := NextPosition(s.occupancy, e.position, s.entities[ore.value].position);
        r.actor == id && r.state.queue == s.queue &&
        (WithinBounds(s.occupancy, np) ==>
           r.tiles == [e.position, np] && r.state.entities == s.entities[id := e.(position := np)] &&
           r.state.occupancy == SetCell(SetCell(s.occupancy, e.position, None), np, Some(id))) &&
        (!WithinBounds(s.occupancy, np) ==> r == Outcome(s, [], false, id)))
  {
    var e, ore := s.entities[id], NearestOf(s.entities, s.entities[id].position, Ore);
    if ore.Some? && Adjacent(e.position, s.entities[ore.value].position) {
      var m := MinerToOreStep(s, id, ore);
      assert m.state.entities[ore.value].position == Removed;
      var t := TransformStep(m.state, id);
      assert t.state.entities[ore.value] == m.state.entities[ore.value];
    }
  }

  /** A full miner goes for the nearest Blacksmith: it unloads exactly when
      the two are adjacent (the smith's count grows by the miner's load and
      the miner is replaced), otherwise it steps toward it like the not-full
      miner. */
  lemma MinerFullTurnRule(s: State, id: EntityId)
    requires id < |s.entities| && s.entities[id].kind == MinerFull && |s.entities[id].imgs| > 0
    ensures var e, smith, r := s.entities[id], NearestOf(s.entities, s.entities[id].position, Blacksmith), MinerFullTurnStep(s, id);
      (r.found <==> smith.Some? && Adjacent(e.position, s.entities[smith.value].position)) &&
      (smith.None? ==> r == Outcome(s, [e.position], false, id)) &&
      (r.found ==>
        r.tiles == [] && r.actor == |s.entities| &&
        r.state.entities[smith.value].resourceCount == s.entities[smith.value].resourceCount + e.resourceCount) &&
      (smith.Some? && !r.found ==>
        var np := NextPosition(s.occupancy, e.position, s.entities[smith.value].position);
        r.actor == id && r.state.queue == s.queue &&
        (WithinBounds(s.occupancy, np) ==>
           r.tiles == [e.position, np] && r.state.entities == s.entities[id := e.(position := np)] &&
           r.state.occupancy == SetCell(SetCell(s.occupancy, e.position, None), np, Some(id))) &&
        (!WithinBounds(s.occupancy, np) ==> r == Outcome(s, [], false, id)))
  {
    var e, smith := s.entities[id], NearestOf(s.entities, s.entities[id].position, Blacksmith);
    if smith.Some? && Adjacent(e.position, s.entities[smith.value].position) {
      var m := MinerToSmithStep(s, id, smith);
      var t := TransformStep(m.state, id);
      assert t.state.entities[smith.value] == m.state.entities[smith.value];
    }
  }

  /** A blob goes for the nearest Vein: next to it, the vein leaves the grid
      and a quake is appended on its cell, which is returned; otherwise the
      blob takes the blob's greedy step toward it (or stays where that leads
      out of the grid). */
  lemma BlobTurnRule(s: State, id: EntityId, ticks: int, quakeImgs: seq<Image>)
    requires id < |s.entities| && s.entities[id].kind == OreBlob && |quakeImgs| > 0
    ensures var e, vein, r := s.entities[id], NearestOf(s.entities, s.entities[id].position, Vein), BlobTurnStep(s, id, ticks, quakeImgs);
      (r.found <==> vein.Some? && Adjacent(e.position, s.entities[vein.value].position)) &&
      (vein.None? ==> r == Outcome(s, [e.position], false, id)) &&
      (r.found ==>
        var pt := s.entities[vein.value].position;
        r.tiles == [pt] && r.state.entities[vein.value].position == Removed &&
        |r.state.entities| == |s.entities| + 1 && r.state.entities[|s.entities|].kind == Quake &&
        r.state.entities[|s.entities|].position == pt) &&
      (vein.Some? && !r.found ==>
        var np := BlobNextPosition(s.occupancy, s.entities, e.position, s.entities[vein.value].position);
        |r.state.entities| == |s.entities| &&
        (WithinBounds(s.occupancy, np) ==> r.tiles == [e.position, np] && r.state.entities[id] == e.(position := np)) &&
        (!WithinBounds(s.occupancy, np) ==> r == Outcome(s, [], false, id)))
  {
    var e, vein := s.entities[id], NearestOf(s.entities, s.entities[id].position, Vein);
    if vein.Some? {
      var b := BlobToVeinStep(s, id, vein);
      if Adjacent(e.position, s.entities[vein.value].position) {
        var q := QuakeSpawned(b.state, b.tiles[0], ticks, quakeImgs);
        assert q.entities[vein.value] == b.state.entities[vein.value];
      } else {
        var np := BlobNextPosition(s.occupancy, s.entities, e.position, s.entities[vein.value].position);
        var occupant := GetTileOccupant(s.occupancy, np);
        if occupant.Some? && occupant.value < |s.entities| && s.entities[occupant.value].kind == Ore {
          assert RemovedWithActions(s, occupant.value).entities[id] == e;
        }
      }
    }
  }

  // ---------------------------------------------------------------------
  // Action ids are never reused

  /** Every entry queued in `t` was already queued in `s` or carries an id
      allocated after `s`, and the id counter never goes back. */
  ghost predicate OnlyFresh(s: State, t: State)
  {
    s.nextActionId <= t.nextActionId &&
    forall x :: x in t.queue ==> x in s.queue || s.nextActionId <= x.action.id
  }

  lemma OnlyFreshTrans(s1: State, s2: State, s3: State)
    requires OnlyFresh(s1, s2) && OnlyFresh(s2, s3)
    ensures OnlyFresh(s1, s3)
  {
  }

  /** Scheduling queues one entry with the counter's id. */
  lemma ScheduledFresh(s: State, o: EntityId, kind: ActionKind, time: int)
    requires o < |s.entities|
    ensures OnlyFresh(s, Scheduled(s, o, kind, time))
  {
    InsertMembers(s.queue, Entry(Action(s.nextActionId, o, kind), time));
  }

  /** Removing an entity only unschedules entries. */
  lemma RemovedFresh(s: State, id: EntityId)
    requires id < |s.entities|
    ensures OnlyFresh(s, RemovedWithActions(s, id))
  {
    WithoutMembers(s.queue, ToSet(s.entities[id].pending));
  }

  /** A spawned quake's two entries carry the next two ids. */
  lemma QuakeSpawnedFresh(s: State, pt: Point, ticks: int, imgs: seq<Image>)
    requires |imgs| > 0
    ensures OnlyFresh(s, QuakeSpawned(s, pt, ticks, imgs))
  {
    var id, n := |s.entities|, s.nextActionId;
    var anim := Entry(Action(n, id, Animate(QUAKE_STEPS)), QUAKE_ANIMATION_RATE);
    InsertMembers(s.queue, anim);
    InsertMembers(Insert(s.queue, anim), Entry(Action(n + 1, id, QuakeDeath), ticks + QUAKE_DURATION));
  }

  /** A transformed miner's animation carries the counter's id. */
  lemma TransformFresh(s: State, id: EntityId)
    requires id < |s.entities| && |s.entities[id].imgs| > 0
    requires s.entities[id].kind == MinerNotFull || s.entities[id].kind == MinerFull
    ensures OnlyFresh(s, TransformStep(s, id).state)
  {
    var e := s.entities[id];
    var ne := Transform(e);
    if ne != e {
      var q := Without(s.queue, ToSet(e.pending));
      WithoutMembers(s.queue, ToSet(e.pending));
      InsertMembers(q, Entry(Action(s.nextActionId, |s.entities|, Animate(0)), ne.animationRate));
    }
  }

  /** A turn that may transform the miner. */
  lemma MinerTurnFresh(s: State, r: Outcome, id: EntityId)
    requires id < |r.state.entities| && |r.state.entities[id].imgs| > 0
    requires r.state.entities[id].kind == MinerNotFull || r.state.entities[id].kind == MinerFull
    requires OnlyFresh(s, r.state)
    ensures OnlyFresh(s, TransformStep(r.state, id).state)
  {
    TransformFresh(r.state, id);
    OnlyFreshTrans(s, r.state, TransformStep(r.state, id).state);
  }

  lemma MinerToOreFresh(s: State, id: EntityId, ore: Option<EntityId>)
    requires id < |s.entities| && s.entities[id].kind == MinerNotFull
    requires ore.Some? ==> ore.value < |s.entities| && s.entities[ore.value].kind == Ore
    ensures OnlyFresh(s, MinerToOreStep(s, id, ore).state)
  {
    if ore.Some? && Adjacent(s.entities[id].position, s.entities[ore.value].position) {
      var e := s.entities[id];
      RemovedFresh(s.(entities := s.entities[id := e.(resourceCount := e.resourceCount + 1)]), ore.value);
    }
  }

  lemma MinerNotFullTurnFresh(s: State, id: EntityId)
    requires id < |s.entities| && s.entities[id].kind == MinerNotFull && |s.entities[id].imgs| > 0
    ensures OnlyFresh(s, MinerNotFullTurnStep(s, id).state)
  {
    var r := MinerToOreStep(s, id, NearestOf(s.entities, s.entities[id].position, Ore));
    MinerToOreFresh(s, id, NearestOf(s.entities, s.entities[id].position, Ore));
    if r.found {
      MinerTurnFresh(s, r, id);
    }
  }

  lemma MinerNotFullFresh(s: State, id: EntityId, ticks: int)
    requires id < |s.entities| && s.entities[id].kind == MinerNotFull && |s.entities[id].imgs| > 0
    ensures OnlyFresh(s, MinerNotFullActionStep(s, id, ticks).state)
  {
    var t := MinerNotFullTurnStep(s, id);
    MinerNotFullTurnFresh(s, id);
    ScheduledFresh(t.state, t.actor, MinerStep, ticks + t.state.entities[t.actor].rate);
    OnlyFreshTrans(s, t.state, MinerNotFullActionStep(s, id, ticks).state);
  }

  lemma MinerFullTurnFresh(s: State, id: EntityId)
    requires id < |s.entities| && s.entities[id].kind == MinerFull && |s.entities[id].imgs| > 0
    ensures OnlyFresh(s, MinerFullTurnStep(s, id).state)
  {
    var r := MinerToSmithStep(s, id, NearestOf(s.entities, s.entities[id].position, Blacksmith));
    if r.found {
      MinerTurnFresh(s, r, id);
    }
  }

  lemma MinerFullFresh(s: State, id: EntityId, ticks: int)
    requires id < |s.entities| && s.entities[id].kind == MinerFull && |s.entities[id].imgs| > 0
    ensures OnlyFresh(s, MinerFullActionStep(s, id, ticks).state)
  {
    var t := MinerFullTurnStep(s, id);
    MinerFullTurnFresh(s, id);
    ScheduledFresh(t.state, t.actor, MinerStep, ticks + t.state.entities[t.actor].rate);
    OnlyFreshTrans(s, t.state, MinerFullActionStep(s, id, ticks).state);
  }

  lemma BlobTurnFresh(s: State, id: EntityId, ticks: int, quakeImgs: seq<Image>)
    requires id < |s.entities| && s.entities[id].kind == OreBlob && |quakeImgs| > 0
    ensures OnlyFresh(s, BlobTurnStep(s, id, ticks, quakeImgs).state)
  {
    var e := s.entities[id];
    var vein := NearestOf(s.entities, e.position, Vein);
    var r := BlobToVeinStep(s, id, vein);
    if vein.Some? {
      if Adjacent(e.position, s.entities[vein.value].position) {
        RemovedFresh(s, vein.value);
        QuakeSpawnedFresh(r.state, r.tiles[0], ticks, quakeImgs);
        OnlyFreshTrans(s, r.state, QuakeSpawned(r.state, r.tiles[0], ticks, quakeImgs));
      } else {
        var np := BlobNextPosition(s.occupancy, s.entities, e.position, s.entities[vein.value].position);
        var occupant := GetTileOccupant(s.occupancy, np);
        if occupant.Some? && occupant.value < |s.entities| && s.entities[occupant.value].kind == Ore {
          RemovedFresh(s, occupant.value);
        }
      }
    }
  }

  lemma OreBlobFresh(s: State, id: EntityId, ticks: int, quakeImgs: seq<Image>)
    requires id < |s.entities| && s.entities[id].kind == OreBlob && |quakeImgs| > 0
    ensures OnlyFresh(s, OreBlobActionStep(s, id, ticks, quakeImgs).state)
  {
    var e := s.entities[id];
    var t := BlobTurnStep(s, id, ticks, quakeImgs);
    BlobTurnFresh(s, id, ticks, quakeImgs);
    ScheduledFresh(t.state, id, OreBlobStep, if t.found then ticks + e.rate * 2 else ticks + e.rate);
    OnlyFreshTrans(s, t.state, OreBlobActionStep(s, id, ticks, quakeImgs).state);
  }

  lemma VeinFresh(s: State, id: EntityId, ticks: int, oreRate: int, oreImgs: seq<Image>)
    requires id < |s.entities| && |oreImgs| > 0
    ensures OnlyFresh(s, VeinActionStep(s, id, ticks, oreRate, oreImgs).state)
  {
    var e := s.entities[id];
    var open := FirstOpen(s.occupancy, e.position, e.resourceDistance);
    if open.Some? {
      InsertMembers(s.queue, Entry(Action(s.nextActionId, |s.entities|, OreTransform), ticks + oreRate));
    }
    var t := SpawnOreStep(s, id, ticks, oreRate, oreImgs);
    ScheduledFresh(t.state, id, VeinStep, ticks + e.rate);
    OnlyFreshTrans(s, t.state, VeinActionStep(s, id, ticks, oreRate, oreImgs).state);
  }

  lemma OreTransformFresh(s: State, id: EntityId, ticks: int, blobFactor: int, blobImgs: seq<Image>)
    requires id < |s.entities| && |blobImgs| > 0
    ensures OnlyFresh(s, OreTransformStep(s, id, ticks, blobFactor, blobImgs).state)
  {
    var e, blob, n := s.entities[id], |s.entities|, s.nextActionId;
    var stepTime, animationRate := ticks + BlobRate(e.rate), BlobAnimationRate(blobFactor);
    var step := Entry(Action(n, blob, OreBlobStep), stepTime);
    InsertMembers(s.queue, step);
    InsertMembers(Insert(s.queue, step), Entry(Action(n + 1, blob, Animate(0)), animationRate));
    WithoutMembers(BlobActions(s.queue, n, blob, stepTime, animationRate), ToSet(e.pending));
  }

  lemma AnimationFresh(s: State, id: EntityId, ticks: int, repeatCount: nat)
    requires id < |s.entities| && |s.entities[id].imgs| > 0
    ensures OnlyFresh(s, AnimationStep(s, id, ticks, repeatCount).state)
  {
    var e := s.entities[id];
    var advanced := s.(entities := s.entities[id := NextImage(e)]);
    var follow := AnimationFollowUp(repeatCount);
    if follow.Some? {
      ScheduledFresh(advanced, id, Animate(follow.value), ticks + e.animationRate);
    }
  }

  /** A firing queues nothing but entries with newly allocated ids: the
      ids of the actions it leaves behind or cancels are never reused. */
  lemma FireFresh(s: State, ticks: int, d: Draws, store: ImageStore)
    requires Consistent(s) && s.queue != [] && StoreReady(store)
    ensures OnlyFresh(Released(s), FireStep(s, ticks, d, store).state)
  {
    var head := s.queue[0];
    var o := head.action.owner;
    HeadOwner(s.occupancy, s.entities, s.queue, s.nextActionId);
    var r := Released(s);
    assert r.entities[o] == RemovePending(s.entities[o], head.action.id);
    match head.action.kind
    case MinerStep =>
      if r.entities[o].kind == MinerNotFull {
        MinerNotFullFresh(r, o, ticks);
      } else {
        MinerFullFresh(r, o, ticks);
      }
    case OreBlobStep => OreBlobFresh(r, o, ticks, store.quake);
    case VeinStep => VeinFresh(r, o, ticks, d.oreRate, store.ore);
    case OreTransform => OreTransformFresh(r, o, ticks, d.blobFactor, store.blob);
    case QuakeDeath => RemovedFresh(r, o);
    case Animate(n) => AnimationFresh(r, o, ticks, n);
  }

  /** After a firing, neither the fired action nor any action fired before
      it (whose ids were below the counter and no longer queued) is queued. */
  lemma FiredStayGone(s: State, ticks: int, d: Draws, store: ImageStore, fired: seq<Entry>)
    requires Consistent(s) && s.queue != [] && StoreReady(store)
    requires forall k :: 0 <= k < |fired| ==> fired[k].action.id < s.nextActionId
    requires forall k, x :: 0 <= k < |fired| && x in s.queue ==> x.action.id != fired[k].action.id
    ensures var t, f := FireStep(s, ticks, d, store).state, fired + [s.queue[0]];
      (forall k :: 0 <= k < |f| ==> f[k].action.id < t.nextActionId) &&
      (forall k, x :: 0 <= k < |f| && x in t.queue ==> x.action.id != f[k].action.id)
  {
    var h := s.queue[0];
    var t, f := FireStep(s, ticks, d, store).state, fired + [h];
    FireFresh(s, ticks, d, store);
    assert h in s.queue;
    assert Queued(s.queue, h);
    assert h.action.id !in Ids(s.queue[1..]);
    IdsMembers(s.queue[1..]);
    forall k, x | 0 <= k < |f| && x in t.queue ensures x.action.id != f[k].action.id {
      if x in s.queue[1..] {
        assert x in s.queue;
        if k == |fired| {
          assert f[k] == h;
        } else {
          assert f[k] == fired[k];
        }
      } else {
        assert f[k] == h || f[k] == fired[k];
      }
    }
  }

  // ---------------------------------------------------------------------
  // Runs of firings

  /** `h` is the head of `s`, and firing it with draws `d` leads to `t` and
      returns `batch`. */
  ghost predicate Fires(s: State, ticks: int, d: Draws, store: ImageStore, h: Entry, t: State, batch: seq<Point>)
  {
    Consistent(s) && s.queue != [] && StoreReady(store) && h == s.queue[0] &&
    FireStep(s, ticks, d, store).state == t && FireStep(s, ticks, d, store).tiles == batch
  }

  /** `states` are the states between the firings of `fired`, the k-th using
      draws[k] and returning batches[k]. */
  ghost predicate Run(states: seq<State>, fired: seq<Entry>, batches: seq<seq<Point>>,
                      ticks: int, draws: seq<Draws>, store: ImageStore)
  {
    |states| == |fired| + 1 && |batches| == |fired| && |fired| <= |draws| &&
    forall k :: 0 <= k < |fired| ==> Fires(states[k], ticks, draws[k], store, fired[k], states[k + 1], batches[k])
  }

  /** A run followed by one more firing is a run. */
  lemma RunExtend(states: seq<State>, fired: seq<Entry>, batches: seq<seq<Point>>,
                  ticks: int, draws: seq<Draws>, store: ImageStore, h: Entry, t: State, batch: seq<Point>)
    requires Run(states, fired, batches, ticks, draws, store) && |fired| < |draws|
    requires Fires(states[|fired|], ticks, draws[|fired|], store, h, t, batch)
    ensures Run(states + [t], fired + [h], batches + [batch], ticks, draws, store)
  {
    var states', fired', batches' := states + [t], fired + [h], batches + [batch];
    forall k | 0 <= k < |fired'|
      ensures Fires(states'[k], ticks, draws[k], store, fired'[k], states'[k + 1], batches'[k])
    {
      if k < |fired| {
        assert states'[k] == states[k] && states'[k + 1] == states[k + 1];
        assert fired'[k] == fired[k] && batches'[k] == batches[k];
      }
    }
  }
}

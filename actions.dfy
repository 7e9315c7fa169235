/** The scheduling glue: every action an entity schedules goes both on its
    pending list and into the world's queue, and cancelling an entity's
    actions takes them out of both. */
module Actions {
  import opened Wrappers
  import opened Geometry
  import opened ActionQueue
  import opened OccGrid
  import opened Entities
  import opened WorldState
  import opened WorldModel
  import opened Steps

  /** schedule_action: a new action (with a fresh id) for entity `o`,
      appended to its pending list and queued at `time`. */
  method ScheduleAction(w: World, o: EntityId, kind: ActionKind, time: int) returns (a: Action)
    requires o < |w.entities|
    modifies w
    ensures a == Action(old(w.nextActionId), o, kind) && w.nextActionId == old(w.nextActionId) + 1
    ensures w.entities == old(w.entities)[o := AddPending(old(w.entities[o]), a.id)]
    ensures w.queue == Insert(old(w.queue), Entry(a, time))
    ensures w.occupancy == old(w.occupancy)
    ensures a.id in w.entities[o].pending && Entry(a, time) in w.queue
    ensures old(w.Valid()) && old(w.entities[o].position) != Removed && Fits(kind, old(w.entities[o].kind)) ==>
      w.Valid()
    ensures w.Snapshot() == Scheduled(old(w.Snapshot()), o, kind, time)
  {
    ghost var g0, es0, q0, n0 := w.occupancy, w.entities, w.queue, w.nextActionId;
    var id := w.NewActionId();
    a := Action(id, o, kind);
    w.AddPendingAction(o, id);
    w.ScheduleAction(a, time);
    InsertMembers(q0, Entry(a, time));
    if Inv(g0, es0, q0, n0) && es0[o].position != Removed && Fits(kind, es0[o].kind) {
      InvSchedule(g0, es0, q0, n0, o, kind, time);
    }
  }

  /** schedule_animation: an animation with the given repeat count (0, the
      default, repeats forever), queued at the entity's animation rate as an
      absolute time. */
  method ScheduleAnimation(w: World, o: EntityId, repeatCount: nat) returns (a: Action)
    requires o < |w.entities|
    modifies w
    ensures a == Action(old(w.nextActionId), o, Animate(repeatCount))
    ensures w.nextActionId == old(w.nextActionId) + 1
    ensures w.entities == old(w.entities)[o := AddPending(old(w.entities[o]), a.id)]
    ensures w.queue == Insert(old(w.queue), Entry(a, old(w.entities[o].animationRate)))
    ensures w.occupancy == old(w.occupancy)
    ensures (old(w.Valid()) && old(w.entities[o].position) != Removed &&
             Fits(Animate(repeatCount), old(w.entities[o].kind))) ==> w.Valid()
  {
    a := ScheduleAction(w, o, Animate(repeatCount), w.entities[o].animationRate);
  }

  /** clear_pending_actions: unschedules each action on the entity's pending
      list, then empties the list. */
  method ClearPendingActions(w: World, o: EntityId)
    requires o < |w.entities|
    modifies w
    ensures w.queue == Without(old(w.queue), ToSet(old(w.entities[o].pending)))
    ensures forall x :: x in w.queue <==> x in old(w.queue) && x.action.id !in old(w.entities[o].pending)
    ensures w.entities == old(w.entities)[o := ClearPending(old(w.entities[o]))]
    ensures w.occupancy == old(w.occupancy) && w.nextActionId == old(w.nextActionId)
    ensures old(w.Valid()) ==> w.Valid()
  {
    var pending := w.entities[o].pending;
    ghost var g0, es0, q0, n0 := w.occupancy, w.entities, w.queue, w.nextActionId;
    WithoutNothing(q0);
    assert ToSet(pending[..0]) == {};
    for k := 0 to |pending|
      invariant w.queue == Without(q0, ToSet(pending[..k]))
      invariant w.entities == es0 && w.occupancy == g0 && w.nextActionId == n0
    {
      WithoutTwice(q0, ToSet(pending[..k]), {pending[k]});
      assert ToSet(pending[..k + 1]) == ToSet(pending[..k]) + {pending[k]} by {
        assert pending[..k + 1] == pending[..k] + [pending[k]];
      }
      w.UnscheduleAction(pending[k]);
    }
    assert pending[..|pending|] == pending;
    w.ClearEntityPending(o);
    WithoutMembers(q0, ToSet(pending));
    if Inv(g0, es0, q0, n0) {
      InvClear(g0, es0, q0, n0, o);
    }
  }

  /** schedule_quake: a 10-step animation, then the quake's death at
      ticks + 1100. */
  method ScheduleQuake(w: World, o: EntityId, ticks: int)
    requires o < |w.entities|
    modifies w
    ensures var n := old(w.nextActionId);
      w.queue == Insert(Insert(old(w.queue), Entry(Action(n, o, Animate(QUAKE_STEPS)), old(w.entities[o].animationRate))),
                        Entry(Action(n + 1, o, QuakeDeath), ticks + QUAKE_DURATION)) &&
      w.entities == old(w.entities)[o := old(w.entities[o]).(pending := old(w.entities[o].pending) + [n, n + 1])] &&
      w.nextActionId == n + 2
    ensures w.occupancy == old(w.occupancy)
    ensures old(w.Valid()) && old(w.entities[o].position) != Removed && old(w.entities[o].kind) == Quake ==>
      w.Valid()
  {
    ghost var g0, es0, q0, n0 := w.occupancy, w.entities, w.queue, w.nextActionId;
    var anim := ScheduleAnimation(w, o, QUAKE_STEPS);
    ghost var es1, q1 := w.entities, w.queue;
    var death := ScheduleAction(w, o, QuakeDeath, ticks + QUAKE_DURATION);
    assert es0[o].pending + [anim.id] + [death.id] == es0[o].pending + [anim.id, death.id];
    if Inv(g0, es0, q0, n0) && es0[o].position != Removed && es0[o].kind == Quake {
      InvSchedule(g0, es0, q0, n0, o, Animate(QUAKE_STEPS), es0[o].animationRate);
      InvSchedule(g0, es1, q1, n0 + 1, o, QuakeDeath, ticks + QUAKE_DURATION);
    }
  }

  /** schedule_ore: the ore's transform at ticks + rate. */
  method ScheduleOre(w: World, o: EntityId, ticks: int)
    requires o < |w.entities|
    modifies w
    ensures var n := old(w.nextActionId);
      w.queue == Insert(old(w.queue), Entry(Action(n, o, OreTransform), ticks + old(w.entities[o].rate))) &&
      w.entities == old(w.entities)[o := AddPending(old(w.entities[o]), n)] &&
      w.nextActionId == n + 1
    ensures w.occupancy == old(w.occupancy)
    ensures old(w.Valid()) && old(w.entities[o].position) != Removed && old(w.entities[o].kind) == Ore ==>
      w.Valid()
  {
    var a := ScheduleAction(w, o, OreTransform, ticks + w.entities[o].rate);
  }

  /** schedule_vein: the vein's step at ticks + rate, with no animation. */
  method ScheduleVein(w: World, o: EntityId, ticks: int)
    requires o < |w.entities|
    modifies w
    ensures var n := old(w.nextActionId);
      w.queue == Insert(old(w.queue), Entry(Action(n, o, VeinStep), ticks + old(w.entities[o].rate))) &&
      w.entities == old(w.entities)[o := AddPending(old(w.entities[o]), n)] &&
      w.nextActionId == n + 1
    ensures w.occupancy == old(w.occupancy)
    ensures old(w.Valid()) && old(w.entities[o].position) != Removed && old(w.entities[o].kind) == Vein ==>
      w.Valid()
  {
    var a := ScheduleAction(w, o, VeinStep, ticks + w.entities[o].rate);
  }

  /** schedule_blob: the blob's step at ticks + rate, then an endless animation. */
  method ScheduleBlob(w: World, o: EntityId, ticks: int)
    requires o < |w.entities|
    modifies w
    ensures var n := old(w.nextActionId);
      w.queue == BlobActions(old(w.queue), n, o, ticks + old(w.entities[o].rate), old(w.entities[o].animationRate)) &&
      w.entities == old(w.entities)[o := old(w.entities[o]).(pending := old(w.entities[o].pending) + [n, n + 1])] &&
      w.nextActionId == n + 2
    ensures w.occupancy == old(w.occupancy)
    ensures old(w.Valid()) && old(w.entities[o].position) != Removed && old(w.entities[o].kind) == OreBlob ==>
      w.Valid()
  {
    ghost var g0, es0, q0, n0 := w.occupancy, w.entities, w.queue, w.nextActionId;
    var step := ScheduleAction(w, o, OreBlobStep, ticks + w.entities[o].rate);
    ghost var es1, q1 := w.entities, w.queue;
    var anim := ScheduleAnimation(w, o, 0);
    assert es0[o].pending + [step.id] + [anim.id] == es0[o].pending + [step.id, anim.id];
    if Inv(g0, es0, q0, n0) && es0[o].position != Removed && es0[o].kind == OreBlob {
      InvSchedule(g0, es0, q0, n0, o, OreBlobStep, ticks + es0[o].rate);
      InvSchedule(g0, es1, q1, n0 + 1, o, Animate(0), es0[o].animationRate);
    }
  }

  /** schedule_miner: the miner's step at ticks + rate, then an endless animation. */
  method ScheduleMiner(w: World, o: EntityId, ticks: int)
    requires o < |w.entities|
    modifies w
    ensures var n := old(w.nextActionId);
      w.queue == Insert(Insert(old(w.queue), Entry(Action(n, o, MinerStep), ticks + old(w.entities[o].rate))),
                        Entry(Action(n + 1, o, Animate(0)), old(w.entities[o].animationRate))) &&
      w.entities == old(w.entities)[o := old(w.entities[o]).(pending := old(w.entities[o].pending) + [n, n + 1])] &&
      w.nextActionId == n + 2
    ensures w.occupancy == old(w.occupancy)
    ensures (old(w.Valid()) && old(w.entities[o].position) != Removed &&
             old(w.entities[o].kind) in {MinerNotFull, MinerFull}) ==> w.Valid()
  {
    ghost var g0, es0, q0, n0 := w.occupancy, w.entities, w.queue, w.nextActionId;
    var step := ScheduleAction(w, o, MinerStep, ticks + w.entities[o].rate);
    ghost var es1, q1 := w.entities, w.queue;
    var anim := ScheduleAnimation(w, o, 0);
    assert es0[o].pending + [step.id] + [anim.id] == es0[o].pending + [step.id, anim.id];
    if Inv(g0, es0, q0, n0) && es0[o].position != Removed && es0[o].kind in {MinerNotFull, MinerFull} {
      InvSchedule(g0, es0, q0, n0, o, MinerStep, ticks + es0[o].rate);
      InvSchedule(g0, es1, q1, n0 + 1, o, Animate(0), es0[o].animationRate);
    }
  }

  /** Entity.remove_entity: cancels all the entity's pending actions, empties
      its list and takes it off the grid (position (-1, -1)). */
  method RemoveEntityAndActions(w: World, id: EntityId)
    requires w.Valid() && id < |w.entities|
    modifies w
    ensures w.Valid()
    ensures forall x :: x in w.queue <==> x in old(w.queue) && x.action.id !in old(w.entities[id].pending)
    ensures w.queue == Without(old(w.queue), ToSet(old(w.entities[id].pending)))
    ensures w.entities == old(w.entities)[id := old(w.entities[id]).(pending := [], position := Removed)]
    ensures old(w.entities[id].position) != Removed ==>
      w.occupancy == SetCell(old(w.occupancy), old(w.entities[id].position), None)
    ensures old(w.entities[id].position) == Removed ==> w.occupancy == old(w.occupancy)
    ensures w.nextActionId == old(w.nextActionId)
    ensures forall x :: x in w.queue ==> x.action.owner != id
    ensures w.Snapshot() == RemovedWithActions(old(w.Snapshot()), id)
  {
    ClearPendingActions(w, id);
    w.RemoveEntity(id);
    IdleOwnsNothing(w.occupancy, w.entities, w.queue, w.nextActionId, id);
  }
}

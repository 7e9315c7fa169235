/** The world: occupancy grid, append-only entity list (an entity's id is its
    index), action queue and the source of fresh action ids. The methods are
    the world's primitive operations; every entity-level mutation of the
    simulation (position, frame, counts, pending list) goes through them,
    since the entities are values stored in the world's list. */
module WorldModel {
  import opened Wrappers
  import opened Geometry
  import opened ActionQueue
  import opened OccGrid
  import opened Entities
  import opened WorldState

  class World {
    var occupancy: Grid
    var entities: seq<Entity>
    var queue: seq<Entry>
    var nextActionId: nat

    ghost predicate Valid()
      reads this
    {
      Inv(occupancy, entities, queue, nextActionId)
    }

    /** The world's current state as a value. */
    function Snapshot(): State
      reads this
    {
      State(occupancy, entities, queue, nextActionId)
    }

    /** A world of the given size with no entities and nothing scheduled. */
    constructor (numRows: int, numCols: int)
      ensures occupancy == EmptyGrid(numRows, numCols) && entities == [] && queue == []
      ensures nextActionId == 0
      ensures Valid()
    {
      occupancy := EmptyGrid(numRows, numCols);
      entities := [];
      queue := [];
      nextActionId := 0;
      InvEmpty(numRows, numCols);
    }

    // -------------------------------------------------------------------
    // Grid operations

    /** add_entity: on an in-bounds cell the entity takes the cell and is
        appended; a displaced occupant has its pending list emptied while its
        actions stay queued. Out of bounds nothing happens. */
    method AddEntity(e: Entity)
      requires Valid()
      modifies this
      ensures queue == old(queue) && nextActionId == old(nextActionId)
      ensures !WithinBounds(old(occupancy), e.position) ==>
        occupancy == old(occupancy) && entities == old(entities)
      ensures WithinBounds(old(occupancy), e.position) ==>
        occupancy == SetCell(old(occupancy), e.position, Some(|old(entities)|)) &&
        entities == Displace(old(entities), GetCell(old(occupancy), e.position)) + [e]
      ensures WithinBounds(old(occupancy), e.position) && !IsOccupied(old(occupancy), e.position) ==>
        entities == old(entities) + [e]
      ensures WellFormed(e) && e.pending == [] && !IsOccupied(old(occupancy), e.position) ==> Valid()
    {
      var pt := e.position;
      if WithinBounds(occupancy, pt) {
        var oldEntity := GetCell(occupancy, pt);
        if oldEntity.Some? {
          entities := entities[oldEntity.value := ClearPending(entities[oldEntity.value])];
        }
        if WellFormed(e) && e.pending == [] && !IsOccupied(occupancy, pt) {
          InvAdd(occupancy, entities, queue, nextActionId, e);
        }
        occupancy := SetCell(occupancy, pt, Some(|entities|));
        entities := entities + [e];
      }
    }

    /** move_entity: for an in-bounds target, empties the old cell, puts the
        entity on the new one and returns [old position, new position];
        otherwise returns [] and changes nothing. */
    method MoveEntity(id: EntityId, pt: Point) returns (tiles: seq<Point>)
      requires id < |entities|
      modifies this
      ensures queue == old(queue) && nextActionId == old(nextActionId)
      ensures !WithinBounds(old(occupancy), pt) ==>
        tiles == [] && occupancy == old(occupancy) && entities == old(entities)
      ensures WithinBounds(old(occupancy), pt) ==>
        tiles == [old(entities[id].position), pt] &&
        occupancy == SetCell(SetCell(old(occupancy), old(entities[id].position), None), pt, Some(id)) &&
        entities == old(entities)[id := old(entities[id]).(position := pt)]
      ensures WithinBounds(old(occupancy), pt) ==>
        GetCell(occupancy, pt) == Some(id) && entities[id].position == pt &&
        (old(entities[id].position) != pt && WithinBounds(old(occupancy), old(entities[id].position)) ==>
           GetCell(occupancy, old(entities[id].position)) == None)
      ensures old(Valid()) && (!IsOccupied(old(occupancy), pt) || GetCell(old(occupancy), pt) == Some(id)) ==>
        Valid()
    {
      tiles := [];
      if WithinBounds(occupancy, pt) {
        var oldPt := entities[id].position;
        if Valid() && (!IsOccupied(occupancy, pt) || GetCell(occupancy, pt) == Some(id)) {
          InvMove(occupancy, entities, queue, nextActionId, id, pt);
        }
        occupancy := SetCell(occupancy, oldPt, None);
        tiles := tiles + [oldPt];
        occupancy := SetCell(occupancy, pt, Some(id));
        tiles := tiles + [pt];
        entities := entities[id := entities[id].(position := pt)];
      }
    }

    /** remove_entity_at: an occupied in-bounds cell is emptied and its
        occupant's position becomes (-1, -1); it stays in the entity list.
        Otherwise nothing happens. */
    method RemoveEntityAt(pt: Point)
      requires Valid()
      modifies this
      ensures queue == old(queue) && nextActionId == old(nextActionId)
      ensures !IsOccupied(old(occupancy), pt) ==> occupancy == old(occupancy) && entities == old(entities)
      ensures IsOccupied(old(occupancy), pt) ==>
        var o := old(occupancy).cells[pt];
        occupancy == SetCell(old(occupancy), pt, None) &&
        entities == old(entities)[o := old(entities)[o].(position := Removed)]
      ensures !IsOccupied(old(occupancy), pt) || old(entities)[old(occupancy).cells[pt]].pending == [] ==>
        Valid()
    {
      if WithinBounds(occupancy, pt) && GetCell(occupancy, pt) != None {
        var o := GetCell(occupancy, pt).value;
        if entities[o].pending == [] {
          InvRemoveAt(occupancy, entities, queue, nextActionId, pt);
        }
        entities := entities[o := entities[o].(position := Removed)];
        occupancy := SetCell(occupancy, pt, None);
      }
    }

    /** remove_entity: remove_entity_at the entity's own position. */
    method RemoveEntity(id: EntityId)
      requires Valid() && id < |entities|
      modifies this
      ensures queue == old(queue) && nextActionId == old(nextActionId)
      ensures old(entities[id].position) == Removed ==>
        occupancy == old(occupancy) && entities == old(entities)
      ensures old(entities[id].position) != Removed ==>
        occupancy == SetCell(old(occupancy), old(entities[id].position), None) &&
        entities == old(entities)[id := old(entities[id]).(position := Removed)]
      ensures old(entities[id].pending) == [] ==> Valid()
    {
      assert EntityOk(occupancy, entities, id);
      RemoveEntityAt(entities[id].position);
    }

    // -------------------------------------------------------------------
    // Queue operations

    /** The source of action identities: a closure object in the source. */
    method NewActionId() returns (a: ActionId)
      modifies this
      ensures a == old(nextActionId) && nextActionId == old(nextActionId) + 1
      ensures occupancy == old(occupancy) && entities == old(entities) && queue == old(queue)
    {
      a := nextActionId;
      nextActionId := nextActionId + 1;
    }

    /** schedule_action (the world's half): queue the action at `time`. */
    method ScheduleAction(a: Action, time: int)
      modifies this
      ensures queue == Insert(old(queue), Entry(a, time))
      ensures occupancy == old(occupancy) && entities == old(entities) && nextActionId == old(nextActionId)
    {
      queue := Insert(queue, Entry(a, time));
    }

    /** unschedule_action: cancel the action with this id, if queued. */
    method UnscheduleAction(a: ActionId)
      modifies this
      ensures queue == Remove(old(queue), a)
      ensures occupancy == old(occupancy) && entities == old(entities) && nextActionId == old(nextActionId)
    {
      queue := Remove(queue, a);
    }

    /** pop: drop the earliest entry. */
    method Pop() returns (h: Entry)
      requires queue != []
      modifies this
      ensures h == old(queue[0]) && queue == old(queue[1..])
      ensures occupancy == old(occupancy) && entities == old(entities) && nextActionId == old(nextActionId)
    {
      h := queue[0];
      queue := queue[1..];
    }

    // -------------------------------------------------------------------
    // Entity field updates

    /** add_pending_action */
    method AddPendingAction(o: EntityId, a: ActionId)
      requires o < |entities|
      modifies this
      ensures entities == old(entities)[o := AddPending(old(entities[o]), a)]
      ensures occupancy == old(occupancy) && queue == old(queue) && nextActionId == old(nextActionId)
    {
      entities := entities[o := AddPending(entities[o], a)];
    }

    /** remove_pending_action: the action must be on the list. */
    method RemovePendingAction(o: EntityId, a: ActionId)
      requires o < |entities| && a in entities[o].pending
      modifies this
      ensures entities == old(entities)[o := RemovePending(old(entities[o]), a)]
      ensures occupancy == old(occupancy) && queue == old(queue) && nextActionId == old(nextActionId)
    {
      entities := entities[o := RemovePending(entities[o], a)];
    }

    /** The entity's own clear_pending_actions: empties its list only. */
    method ClearEntityPending(o: EntityId)
      requires o < |entities|
      modifies this
      ensures entities == old(entities)[o := ClearPending(old(entities[o]))]
      ensures occupancy == old(occupancy) && queue == old(queue) && nextActionId == old(nextActionId)
    {
      entities := entities[o := ClearPending(entities[o])];
    }

    /** next_image on entity `o`. */
    method NextEntityImage(o: EntityId)
      requires o < |entities| && |entities[o].imgs| > 0
      modifies this
      ensures entities == old(entities)[o := NextImage(old(entities[o]))]
      ensures occupancy == old(occupancy) && queue == old(queue) && nextActionId == old(nextActionId)
      ensures old(Valid()) ==> Valid()
    {
      if Valid() {
        InvUpdate(occupancy, entities, queue, nextActionId, o, NextImage(entities[o]));
      }
      entities := entities[o := NextImage(entities[o])];
    }

    /** set_resource_count on entity `o`. */
    method SetResourceCount(o: EntityId, n: int)
      requires o < |entities|
      modifies this
      ensures entities == old(entities)[o := old(entities[o]).(resourceCount := n)]
      ensures occupancy == old(occupancy) && queue == old(queue) && nextActionId == old(nextActionId)
      ensures old(Valid()) ==> Valid()
    {
      if Valid() {
        assert EntityOk(occupancy, entities, o);
        InvUpdate(occupancy, entities, queue, nextActionId, o, entities[o].(resourceCount := n));
      }
      entities := entities[o := entities[o].(resourceCount := n)];
    }
  }

  /** The entity list after add_entity has emptied the pending list of the
      displaced occupant, if any. */
  function Displace(es: seq<Entity>, occupant: Option<EntityId>): (r: seq<Entity>)
    ensures |r| == |es|
    ensures forall i :: 0 <= i < |es| ==>
      r[i] == (if occupant == Some(i) then ClearPending(es[i]) else es[i])
  {
    match occupant
    case None => es
    case Some(o) => if o < |es| then es[o := ClearPending(es[o])] else es
  }
}

/** The consistency invariant of the world state (grid, entity list, action
    queue and next action id) and the lemmas that show each primitive state
    change keeps it. */
module WorldState {
  import opened Wrappers
  import opened Geometry
  import opened ActionQueue
  import opened OccGrid
  import opened Entities

  /** The entity kinds that can own an action of each kind: the classes whose
      closures create it. Vein, Ore and Blacksmith animations are left out, as
      they cannot run (those classes lack an animation rate). */
  predicate Fits(a: ActionKind, k: Kind)
  {
    match a
    case MinerStep => k == MinerNotFull || k == MinerFull
    case OreBlobStep => k == OreBlob
    case VeinStep => k == Vein
    case OreTransform => k == Ore
    case QuakeDeath => k == Quake
    case Animate(_) => k == MinerNotFull || k == MinerFull || k == OreBlob || k == Quake
  }

  /** Every occupied cell is in bounds, and its occupant records it as its position. */
  ghost predicate GridSound(g: Grid, es: seq<Entity>)
  {
    forall p :: p in g.cells ==> WithinBounds(g, p) && g.cells[p] < |es| && es[g.cells[p]].position == p
  }

  /** Entity i occupies the cell of its recorded position. */
  ghost predicate Placed(g: Grid, es: seq<Entity>, i: int)
    requires 0 <= i < |es|
  {
    es[i].position in g.cells && g.cells[es[i].position] == i
  }

  /** Entity i has a valid frame, and is either removed or on its cell. */
  ghost predicate EntityOk(g: Grid, es: seq<Entity>, i: int)
    requires 0 <= i < |es|
  {
    WellFormed(es[i]) && (es[i].position == Removed || Placed(g, es, i))
  }

  /** Every entity is sound. */
  ghost predicate EntitiesSound(g: Grid, es: seq<Entity>)
  {
    forall i :: 0 <= i < |es| ==> EntityOk(g, es, i)
  }

  /** The queue is ordered, its ids are unique and all below `n`, and every
      queued action belongs to an entity that is still in the world and can
      run it. */
  ghost predicate QueueSound(q: seq<Entry>, es: seq<Entity>, n: nat)
  {
    Sorted(q) && UniqueIds(q) && forall x :: Queued(q, x) ==> EntryOk(x, es, n)
  }

  /** Entry x is in the queue. */
  ghost predicate Queued(q: seq<Entry>, x: Entry)
  {
    x in q
  }

  /** A queued entry's id is below `n`, and its owner is in the world, on
      the grid, and of a kind that can run it. */
  ghost predicate EntryOk(x: Entry, es: seq<Entity>, n: nat)
  {
    x.action.id < n && x.action.owner < |es| &&
    es[x.action.owner].position != Removed && Fits(x.action.kind, es[x.action.owner].kind)
  }

  /** Entity o's pending list names exactly its queued actions, once each. */
  ghost predicate PendingExact(q: seq<Entry>, es: seq<Entity>, o: int)
    requires 0 <= o < |es|
  {
    NoDup(es[o].pending) && ToSet(es[o].pending) == OwnedIds(q, o)
  }

  /** Every entity's pending list is exact. */
  ghost predicate PendingSound(q: seq<Entry>, es: seq<Entity>)
  {
    forall o :: 0 <= o < |es| ==> PendingExact(q, es, o)
  }

  ghost predicate Inv(g: Grid, es: seq<Entity>, q: seq<Entry>, n: nat)
  {
    GridSound(g, es) && EntitiesSound(g, es) && QueueSound(q, es, n) && PendingSound(q, es)
  }

  /** What a world holds, as a value: the grid, the entity list, the queue
      and the next action id. */
  datatype State = State(occupancy: Grid, entities: seq<Entity>, queue: seq<Entry>, nextActionId: nat)

  ghost predicate Consistent(s: State)
  {
    Inv(s.occupancy, s.entities, s.queue, s.nextActionId)
  }

  // ---------------------------------------------------------------------
  // Consequences

  /** An entity that owns a queued action is on the grid, in bounds. */
  lemma OwnerPlaced(g: Grid, es: seq<Entity>, q: seq<Entry>, n: nat, x: Entry)
    requires Inv(g, es, q, n) && x in q
    ensures x.action.owner < |es| && Placed(g, es, x.action.owner)
    ensures WithinBounds(g, es[x.action.owner].position)
  {
    assert Queued(q, x);
    assert EntityOk(g, es, x.action.owner);
  }

  /** An entity still in the world occupies its cell, which is in bounds, and
      has a valid frame list. */
  lemma PlacedCell(g: Grid, es: seq<Entity>, q: seq<Entry>, n: nat, i: EntityId)
    requires Inv(g, es, q, n) && i < |es| && es[i].position != Removed
    ensures GetCell(g, es[i].position) == Some(i) && IsOccupied(g, es[i].position)
    ensures WellFormed(es[i])
  {
    assert EntityOk(g, es, i);
  }

  /** Every queued id, and so every pending id, is below the next action id. */
  lemma IdsBelow(g: Grid, es: seq<Entity>, q: seq<Entry>, n: nat)
    requires Inv(g, es, q, n)
    ensures n !in Ids(q)
    ensures forall o :: 0 <= o < |es| ==> n !in es[o].pending
    ensures forall o, a :: 0 <= o < |es| && a in es[o].pending ==> a < n
  {
    IdsMembers(q);
    forall x | x in q
      ensures x.action.id < n
    {
      assert Queued(q, x);
    }
    forall o, a | 0 <= o < |es| && a in es[o].pending
      ensures a < n
    {
      assert PendingExact(q, es, o);
      OwnedIdsSubset(q, o);
      assert a in ToSet(es[o].pending);
    }
  }

  /** An entity with an empty pending list owns nothing in the queue. */
  lemma IdleOwnsNothing(g: Grid, es: seq<Entity>, q: seq<Entry>, n: nat, o: EntityId)
    requires Inv(g, es, q, n) && o < |es| && es[o].pending == []
    ensures forall x :: x in q ==> x.action.owner != o
  {
    assert PendingExact(q, es, o);
    forall x | x in q
      ensures x.action.owner != o
    {
      OwnedIdsMember(q, x);
    }
  }

  // ---------------------------------------------------------------------
  // Preservation, one primitive change at a time

  /** The empty world is consistent. */
  lemma InvEmpty(numRows: int, numCols: int)
    ensures Inv(EmptyGrid(numRows, numCols), [], [], 0)
  {
  }

  /** Putting a fresh entity on an empty in-bounds cell and appending it keeps the invariant. */
  lemma InvAdd(g: Grid, es: seq<Entity>, q: seq<Entry>, n: nat, e: Entity)
    requires Inv(g, es, q, n)
    requires WellFormed(e) && e.pending == []
    requires WithinBounds(g, e.position) && !IsOccupied(g, e.position)
    ensures Inv(SetCell(g, e.position, Some(|es|)), es + [e], q, n)
  {
    var g', es' := SetCell(g, e.position, Some(|es|)), es + [e];
    assert GridSound(g', es') by {
      forall p | p in g'.cells
        ensures WithinBounds(g', p) && g'.cells[p] < |es'| && es'[g'.cells[p]].position == p
      {
        if p != e.position {
          assert GetCell(g', p) == GetCell(g, p);
        }
      }
    }
    assert EntitiesSound(g', es') by {
      forall i | 0 <= i < |es'|
        ensures EntityOk(g', es', i)
      {
        if i < |es| {
          assert EntityOk(g, es, i);
        }
        if i < |es| && es[i].position != Removed {
          assert Placed(g, es, i);
          assert GetCell(g', es[i].position) == GetCell(g, es[i].position);
        }
      }
    }
    assert QueueSound(q, es', n) by {
      forall x | Queued(q, x)
        ensures EntryOk(x, es', n)
      {
        assert Queued(q, x);
      }
    }
    assert PendingSound(q, es') by {
      forall o | 0 <= o < |es'|
        ensures PendingExact(q, es', o)
      {
        if o == |es| {
          forall x | x in q
            ensures x.action.owner != o
          {
            assert Queued(q, x);
          }
          OwnedIdsAbsent(q, o);
        } else {
          assert PendingExact(q, es, o);
        }
      }
    }
  }

  /** Moving an entity onto an in-bounds cell that is empty or its own keeps the invariant. */
  lemma InvMove(g: Grid, es: seq<Entity>, q: seq<Entry>, n: nat, id: EntityId, pt: Point)
    requires Inv(g, es, q, n) && id < |es|
    requires WithinBounds(g, pt) && (GetCell(g, pt) == None || GetCell(g, pt) == Some(id))
    ensures Inv(SetCell(SetCell(g, es[id].position, None), pt, Some(id)),
                es[id := es[id].(position := pt)], q, n)
  {
    var old_pt := es[id].position;
    var g1 := SetCell(g, old_pt, None);
    var g' := SetCell(g1, pt, Some(id));
    var es' := es[id := es[id].(position := pt)];
    assert EntityOk(g, es, id);
    assert GridSound(g', es') by {
      forall p | p in g'.cells
        ensures WithinBounds(g', p) && g'.cells[p] < |es'| && es'[g'.cells[p]].position == p
      {
        if p != pt {
          assert GetCell(g', p) == GetCell(g1, p);
          assert p != old_pt;
          assert GetCell(g1, p) == GetCell(g, p);
        }
      }
    }
    assert EntitiesSound(g', es') by {
      forall i | 0 <= i < |es'|
        ensures EntityOk(g', es', i)
      {
        if i < |es| {
          assert EntityOk(g, es, i);
        }
        if i != id && es[i].position != Removed {
          assert Placed(g, es, i);
          var p := es[i].position;
          assert p != pt;
          assert p != old_pt;
          assert GetCell(g', p) == GetCell(g1, p) == GetCell(g, p);
        }
      }
    }
    assert QueueSound(q, es', n) by {
      forall x | Queued(q, x)
        ensures EntryOk(x, es', n)
      {
        assert Queued(q, x);
      }
    }
    assert PendingSound(q, es') by {
      forall o | 0 <= o < |es'|
        ensures PendingExact(q, es', o)
      {
        assert PendingExact(q, es, o);
      }
    }
  }

  /** Emptying the cell of an idle entity and marking it removed keeps the invariant. */
  lemma InvRemoveAt(g: Grid, es: seq<Entity>, q: seq<Entry>, n: nat, pt: Point)
    requires Inv(g, es, q, n) && IsOccupied(g, pt)
    requires es[g.cells[pt]].pending == []
    ensures var o := g.cells[pt];
      Inv(SetCell(g, pt, None), es[o := es[o].(position := Removed)], q, n)
  {
    var o := g.cells[pt];
    var g', es' := SetCell(g, pt, None), es[o := es[o].(position := Removed)];
    IdleOwnsNothing(g, es, q, n, o);
    assert GridSound(g', es') by {
      forall p | p in g'.cells
        ensures WithinBounds(g', p) && g'.cells[p] < |es'| && es'[g'.cells[p]].position == p
      {
        assert GetCell(g', p) == GetCell(g, p);
      }
    }
    assert EntitiesSound(g', es') by {
      forall i | 0 <= i < |es'|
        ensures EntityOk(g', es', i)
      {
        if i < |es| {
          assert EntityOk(g, es, i);
        }
        if i != o && es[i].position != Removed {
          assert Placed(g, es, i);
          assert GetCell(g', es[i].position) == GetCell(g, es[i].position);
        }
      }
    }
    assert QueueSound(q, es', n) by {
      forall x | Queued(q, x)
        ensures EntryOk(x, es', n)
      {
        assert Queued(q, x);
      }
    }
    assert PendingSound(q, es') by {
      forall o | 0 <= o < |es'|
        ensures PendingExact(q, es', o)
      {
        assert PendingExact(q, es, o);
      }
    }
  }

  /** Changing an entity's fields other than kind, position and pending list
      (frame, resource count) keeps the invariant, as long as its frame index
      stays valid. */
  lemma InvUpdate(g: Grid, es: seq<Entity>, q: seq<Entry>, n: nat, i: EntityId, e: Entity)
    requires Inv(g, es, q, n) && i < |es| && WellFormed(e)
    requires e.kind == es[i].kind && e.position == es[i].position && e.pending == es[i].pending
    ensures Inv(g, es[i := e], q, n)
  {
    var es' := es[i := e];
    assert GridSound(g, es');
    assert EntitiesSound(g, es') by {
      forall i | 0 <= i < |es'|
        ensures EntityOk(g, es', i)
      {
        assert EntityOk(g, es, i);
      }
    }
    assert QueueSound(q, es', n) by {
      forall x | Queued(q, x)
        ensures EntryOk(x, es', n)
      {
        assert Queued(q, x);
      }
    }
    assert PendingSound(q, es') by {
      forall o | 0 <= o < |es'|
        ensures PendingExact(q, es', o)
      {
        assert PendingExact(q, es, o);
      }
    }
  }

  /** Scheduling a new action (fresh id `n`) for an entity on the grid that
      can run it: the id joins the owner's pending list and the queue. */
  lemma InvSchedule(g: Grid, es: seq<Entity>, q: seq<Entry>, n: nat, o: EntityId,
                    kind: ActionKind, time: int)
    requires Inv(g, es, q, n) && o < |es|
    requires es[o].position != Removed && Fits(kind, es[o].kind)
    ensures Inv(g, es[o := AddPending(es[o], n)], Insert(q, Entry(Action(n, o, kind), time)), n + 1)
  {
    var e := Entry(Action(n, o, kind), time);
    var es', q' := es[o := AddPending(es[o], n)], Insert(q, e);
    IdsBelow(g, es, q, n);
    InsertSorted(q, e);
    InsertIds(q, e);
    InsertMembers(q, e);
    assert GridSound(g, es');
    assert EntitiesSound(g, es') by {
      forall i | 0 <= i < |es'|
        ensures EntityOk(g, es', i)
      {
        assert EntityOk(g, es, i);
      }
    }
    assert QueueSound(q', es', n + 1) by {
      forall x | Queued(q', x)
        ensures EntryOk(x, es', n + 1)
      {
        if x != e {
          assert Queued(q, x);
        }
      }
    }
    assert PendingSound(q', es') by {
      forall o' | 0 <= o' < |es'|
        ensures PendingExact(q', es', o')
      {
        assert PendingExact(q, es, o');
        InsertOwnedIds(q, e, o');
        if o' == o {
          AddPendingFresh(es[o].pending, n);
        }
      }
    }
  }

  /** Appending an entity and then updating it is appending the updated entity. */
  lemma AppendThenUpdate(es: seq<Entity>, e: Entity, e': Entity)
    ensures (es + [e])[|es| := e'] == es + [e']
    ensures (es + [e'])[..|es|] == es && (es + [e'])[|es|] == e'
  {
  }

  /** Appending a fresh entity and then extending its empty pending list by
      `p` is appending the entity with pending list `p`. */
  lemma AppendThenAddPending(es: seq<Entity>, e: Entity, p: seq<ActionId>)
    requires e.pending == []
    ensures (es + [e])[|es|] == e
    ensures (es + [e])[|es| := e.(pending := e.pending + p)] == es + [e.(pending := p)]
    ensures (es + [e.(pending := p)])[..|es|] == es && (es + [e.(pending := p)])[|es|] == e.(pending := p)
  {
    assert e.pending + p == p;
  }

  /** Unscheduling all of an entity's pending actions and emptying its list
      keeps the invariant. */
  lemma InvClear(g: Grid, es: seq<Entity>, q: seq<Entry>, n: nat, o: EntityId)
    requires Inv(g, es, q, n) && o < |es|
    ensures Inv(g, es[o := ClearPending(es[o])], Without(q, ToSet(es[o].pending)), n)
  {
    var c := ToSet(es[o].pending);
    var es', q' := es[o := ClearPending(es[o])], Without(q, c);
    assert PendingExact(q, es, o);
    WithoutSorted(q, c);
    WithoutIds(q, c);
    WithoutMembers(q, c);
    assert GridSound(g, es');
    assert EntitiesSound(g, es') by {
      forall i | 0 <= i < |es'|
        ensures EntityOk(g, es', i)
      {
        assert EntityOk(g, es, i);
      }
    }
    assert QueueSound(q', es', n) by {
      forall x | Queued(q', x)
        ensures EntryOk(x, es', n)
      {
        assert Queued(q, x);
      }
    }
    assert PendingSound(q', es') by {
      forall o' | 0 <= o' < |es'|
        ensures PendingExact(q', es', o')
      {
        assert PendingExact(q, es, o');
        WithoutOwnedIds(q, c, o');
        if o' != o {
          forall a | a in OwnedIds(q, o')
            ensures a !in c
          {
            if a in c {
              OwnersDisjoint(q, o, o', a);
            }
          }
        }
      }
    }
  }

  /** The queue's head belongs to a well-formed entity on the grid whose kind
      can run it, and its id is on that entity's pending list. */
  lemma HeadOwner(g: Grid, es: seq<Entity>, q: seq<Entry>, n: nat)
    requires Inv(g, es, q, n) && q != []
    ensures var o := q[0].action.owner;
      o < |es| && es[o].position != Removed && WellFormed(es[o]) &&
      Fits(q[0].action.kind, es[o].kind) && q[0].action.id in es[o].pending
  {
    var o := q[0].action.owner;
    assert q[0] in q;
    assert Queued(q, q[0]);
    assert EntityOk(g, es, o);
    OwnedIdsMember(q, q[0]);
    assert PendingExact(q, es, o);
    assert q[0].action.id in ToSet(es[o].pending);
  }

  /** Popping the head and taking its id off its owner's pending list keeps
      the invariant; the id is on that list to be taken off. */
  lemma InvRelease(g: Grid, es: seq<Entity>, q: seq<Entry>, n: nat)
    requires Inv(g, es, q, n) && q != []
    ensures q[0].action.owner < |es| && q[0].action.id in es[q[0].action.owner].pending
    ensures var o := q[0].action.owner;
      Inv(g, es[o := RemovePending(es[o], q[0].action.id)], q[1..], n)
  {
    var o, a := q[0].action.owner, q[0].action.id;
    assert q[0] in q;
    assert Queued(q, q[0]);
    OwnedIdsMember(q, q[0]);
    assert PendingExact(q, es, o);
    assert a in ToSet(es[o].pending);
    var es', q' := es[o := RemovePending(es[o], a)], q[1..];
    RemoveFirstSet(es[o].pending, a);
    PopIds(q);
    assert GridSound(g, es');
    assert EntitiesSound(g, es') by {
      forall i | 0 <= i < |es'|
        ensures EntityOk(g, es', i)
      {
        assert EntityOk(g, es, i);
      }
    }
    assert QueueSound(q', es', n) by {
      forall x | Queued(q', x)
        ensures EntryOk(x, es', n)
      {
        assert x in q;
        assert Queued(q, x);
      }
    }
    assert PendingSound(q', es') by {
      forall o' | 0 <= o' < |es'|
        ensures PendingExact(q', es', o')
      {
        assert PendingExact(q, es, o');
        PopOwnedIds(q, o');
      }
    }
  }
}

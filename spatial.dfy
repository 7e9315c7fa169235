/** The spatial rules of the world: greedy one-step pathing, the row-major
    search for an open cell, and the nearest entity of a kind. */
module Spatial {
  import opened Wrappers
  import opened Geometry
  import opened ActionQueue
  import opened OccGrid
  import opened Entities

  // ---------------------------------------------------------------------
  // One-step pathing

  /** The horizontal candidate step from `from` toward `to`. */
  function HorizStep(from: Point, to: Point): Point
  {
    Point(from.x + Sign(to.x - from.x), from.y)
  }

  /** The vertical candidate step from `from` toward `to`. */
  function VertStep(from: Point, to: Point): Point
  {
    Point(from.x, from.y + Sign(to.y - from.y))
  }

  /** The shared shape of next_position and blob_next_position: try the
      horizontal step, then the vertical one, else stay; `free` says which
      cells may be entered. */
  function GreedyStep(from: Point, to: Point, free: Point -> bool): (r: Point)
    // a move is one step onto a free cell, and it gets closer to the target
    ensures r == from || (Adjacent(from, r) && free(r) && DistanceSq(r, to) < DistanceSq(from, to))
    // the horizontal step wins whenever it is possible
    ensures from.x != to.x && free(HorizStep(from, to)) ==> r == HorizStep(from, to)
    // the vertical step is taken only when the horizontal one is not possible
    ensures r != from && r.x == from.x ==> from.x == to.x || !free(HorizStep(from, to))
    // staying put happens exactly when neither step is possible
    ensures r == from <==> (from.x == to.x || !free(HorizStep(from, to))) &&
                           (from.y == to.y || !free(VertStep(from, to)))
  {
    var h := HorizStep(from, to);
    if from.x != to.x && free(h) then
      StepCloser(from.x, to.x, from.y, to.y);
      h
    else
      var v := VertStep(from, to);
      if from.y != to.y && free(v) then
        StepCloser(from.y, to.y, from.x, to.x);
        v
      else from
  }

  /** Moving one unit toward the target along one axis shortens the squared distance. */
  lemma StepCloser(a: int, b: int, c: int, d: int)
    requires a != b
    ensures var a' := a + Sign(b - a);
      (a' - b) * (a' - b) + (c - d) * (c - d) < (a - b) * (a - b) + (c - d) * (c - d)
  {
    var a' := a + Sign(b - a);
    if a < b {
      assert a' - b == (a - b) + 1;
      assert (a' - b) * (a' - b) == (a - b) * (a - b) + 2 * (a - b) + 1;
    } else {
      assert a' - b == (a - b) - 1;
      assert (a' - b) * (a' - b) == (a - b) * (a - b) - 2 * (a - b) + 1;
    }
  }

  /** A cell a miner may enter: not occupied (out-of-bounds cells count as
      unoccupied, as in is_occupied). */
  predicate FreeForMiner(g: Grid, p: Point)
  {
    !IsOccupied(g, p)
  }

  /** A cell a blob may enter: unoccupied, or occupied by an Ore. */
  predicate FreeForBlob(g: Grid, es: seq<Entity>, p: Point)
  {
    !IsOccupied(g, p) || OccupiedByOre(g, es, p)
  }

  predicate OccupiedByOre(g: Grid, es: seq<Entity>, p: Point)
  {
    IsOccupied(g, p) && g.cells[p] < |es| && es[g.cells[p]].kind == Ore
  }

  /** next_position */
  function NextPosition(g: Grid, from: Point, to: Point): (r: Point)
    ensures r == from || (Adjacent(from, r) && !IsOccupied(g, r) && DistanceSq(r, to) < DistanceSq(from, to))
    ensures from.x != to.x && !IsOccupied(g, HorizStep(from, to)) ==> r == HorizStep(from, to)
    ensures r != from && r.x == from.x ==> from.x == to.x || IsOccupied(g, HorizStep(from, to))
    ensures r == from <==> (from.x == to.x || IsOccupied(g, HorizStep(from, to))) &&
                           (from.y == to.y || IsOccupied(g, VertStep(from, to)))
  {
    GreedyStep(from, to, p => FreeForMiner(g, p))
  }

  /** blob_next_position: like next_position, but a cell holding an Ore may be entered. */
  function BlobNextPosition(g: Grid, es: seq<Entity>, from: Point, to: Point): (r: Point)
    ensures r == from || (Adjacent(from, r) && FreeForBlob(g, es, r) && DistanceSq(r, to) < DistanceSq(from, to))
    ensures from.x != to.x && FreeForBlob(g, es, HorizStep(from, to)) ==> r == HorizStep(from, to)
    ensures r != from && r.x == from.x ==> from.x == to.x || !FreeForBlob(g, es, HorizStep(from, to))
    ensures r == from <==> (from.x == to.x || !FreeForBlob(g, es, HorizStep(from, to))) &&
                           (from.y == to.y || !FreeForBlob(g, es, VertStep(from, to)))
  {
    GreedyStep(from, to, p => FreeForBlob(g, es, p))
  }

  /** Every cell a miner may enter a blob may enter too, so a blob is never
      stuck where a miner could move. */
  lemma BlobMovesWhereMinerMoves(g: Grid, es: seq<Entity>, from: Point, to: Point)
    ensures NextPosition(g, from, to) != from ==> BlobNextPosition(g, es, from, to) != from
  {
  }

  /** Between two in-bounds cells each coordinate of a step lies between the
      start and the target, so a step toward an in-bounds target never leaves
      the grid. */
  lemma {:induction false} StepStaysInBounds(g: Grid, es: seq<Entity>, from: Point, to: Point)
    requires WithinBounds(g, from) && WithinBounds(g, to)
    ensures WithinBounds(g, NextPosition(g, from, to))
    ensures WithinBounds(g, BlobNextPosition(g, es, from, to))
  {
    assert WithinBounds(g, HorizStep(from, to)) && WithinBounds(g, VertStep(from, to));
  }

  // ---------------------------------------------------------------------
  // Open-cell search

  /** A cell a new entity can be put on. */
  predicate Open(g: Grid, p: Point)
  {
    WithinBounds(g, p) && !IsOccupied(g, p)
  }

  /** The square of side 2d+1 centred on `c`. */
  predicate InSquare(c: Point, d: int, p: Point)
  {
    c.x - d <= p.x <= c.x + d && c.y - d <= p.y <= c.y + d
  }

  /** Row-major order: rows first, then columns. */
  predicate RowMajorBefore(p: Point, q: Point)
  {
    p.y < q.y || (p.y == q.y && p.x < q.x)
  }

  /** The row-major scan of the square around `pt` from offset (dx, dy) on:
      the first open cell it meets, if any. */
  function OpenFrom(g: Grid, pt: Point, d: int, dy: int, dx: int): Option<Point>
    decreases d + 1 - dy, d + 1 - dx
  {
    if dy > d then None
    else if dx > d then OpenFrom(g, pt, d, dy + 1, -d)
    else if Open(g, Point(pt.x + dx, pt.y + dy)) then Some(Point(pt.x + dx, pt.y + dy))
    else OpenFrom(g, pt, d, dy, dx + 1)
  }

  /** The cell find_open_around gives: the scan from the square's corner. */
  function FirstOpen(g: Grid, pt: Point, d: int): Option<Point>
  {
    OpenFrom(g, pt, d, -d, -d)
  }

  /** find_open_around: scans the square around `pt` row by row (dy outer,
      dx inner, both over [-d, d]) and returns the first open cell. */
  method FindOpenAround(g: Grid, pt: Point, d: int) returns (r: Option<Point>)
    ensures r == FirstOpen(g, pt, d)
    ensures r.Some? ==> InSquare(pt, d, r.value) && Open(g, r.value)
    ensures r.Some? ==> forall p :: InSquare(pt, d, p) && RowMajorBefore(p, r.value) ==> !Open(g, p)
    ensures r.None? ==> forall p :: InSquare(pt, d, p) ==> !Open(g, p)
  {
    var dy := -d;
    while dy <= d
      invariant d < 0 || -d <= dy <= d + 1
      invariant OpenFrom(g, pt, d, dy, -d) == FirstOpen(g, pt, d)
      invariant forall p :: InSquare(pt, d, p) && p.y < pt.y + dy ==> !Open(g, p)
    {
      var dx := -d;
      while dx <= d
        invariant dx >= -d && dx <= d + 1
        invariant OpenFrom(g, pt, d, dy, dx) == FirstOpen(g, pt, d)
        invariant forall p :: InSquare(pt, d, p) && p.y < pt.y + dy ==> !Open(g, p)
        invariant forall p :: InSquare(pt, d, p) && p.y == pt.y + dy && p.x < pt.x + dx ==> !Open(g, p)
      {
        var p := Point(pt.x + dx, pt.y + dy);
        if WithinBounds(g, p) && !IsOccupied(g, p) {
          return Some(p);
        }
        dx := dx + 1;
      }
      dy := dy + 1;
    }
    return None;
  }

  // ---------------------------------------------------------------------
  // Nearest entity

  /** nearest_entity: the first pair of least distance, or None for no pairs. */
  method NearestEntity(pairs: seq<(EntityId, int)>) returns (r: Option<EntityId>)
    ensures r.None? <==> pairs == []
    ensures r.Some? ==> exists k :: 0 <= k < |pairs| && IsFirstNearest(pairs, k) && r.value == pairs[k].0
    ensures r == FirstNearest(pairs)
  {
    if |pairs| == 0 {
      return None;
    }
    var best := 0;
    for i := 0 to |pairs|
      invariant 0 <= best <= i && best < |pairs|
      invariant forall j :: 0 <= j < i ==> pairs[best].1 <= pairs[j].1
      invariant forall j :: 0 <= j < best ==> pairs[best].1 < pairs[j].1
    {
      if pairs[i].1 < pairs[best].1 {
        best := i;
      }
    }
    FirstNearestUnique(pairs, best, FirstNearestIndex(pairs));
    return Some(pairs[best].0);
  }

  /** Entry k has the least distance, and every entry before it is strictly farther. */
  ghost predicate IsFirstNearest(pairs: seq<(EntityId, int)>, k: int)
    requires 0 <= k < |pairs|
  {
    (forall j :: 0 <= j < |pairs| ==> pairs[k].1 <= pairs[j].1) &&
    (forall j :: 0 <= j < k ==> pairs[k].1 < pairs[j].1)
  }

  /** A reference definition of the first entry of least distance, by
      recursion on the prefix. */
  function FirstNearestIndex(pairs: seq<(EntityId, int)>): (k: nat)
    requires |pairs| > 0
    ensures k < |pairs| && IsFirstNearest(pairs, k)
  {
    if |pairs| == 1 then 0
    else
      var init := pairs[..|pairs| - 1];
      var j := FirstNearestIndex(init);
      assert forall i :: 0 <= i < |init| ==> init[i] == pairs[i];
      if pairs[|pairs| - 1].1 < pairs[j].1 then |pairs| - 1 else j
  }

  /** At most one entry is the first of least distance. */
  lemma FirstNearestUnique(pairs: seq<(EntityId, int)>, k1: int, k2: int)
    requires 0 <= k1 < |pairs| && 0 <= k2 < |pairs|
    requires IsFirstNearest(pairs, k1) && IsFirstNearest(pairs, k2)
    ensures k1 == k2
  {
    assert pairs[k1].1 <= pairs[k2].1 && pairs[k2].1 <= pairs[k1].1;
  }

  /** The id nearest_entity picks from the pairs. */
  function FirstNearest(pairs: seq<(EntityId, int)>): Option<EntityId>
  {
    if pairs == [] then None else Some(pairs[FirstNearestIndex(pairs)].0)
  }

  /** The (id, squared distance to pt) pairs of the entities of one kind, in
      entity order, starting from entity `i`. */
  function Candidates(es: seq<Entity>, pt: Point, kind: Kind, i: nat): seq<(EntityId, int)>
    requires i <= |es|
    decreases |es| - i
  {
    if i == |es| then []
    else
      var rest := Candidates(es, pt, kind, i + 1);
      if es[i].kind == kind then
        [(i, DistanceSq(pt, es[i].position))] + rest
      else
        rest
  }

  // The three lemmas below state that the candidates are exactly the entities
  // of the kind from `i` on, in entity order, each with its squared distance
  // to `pt`.

  /** Every candidate is an entity of the kind, at or after `i`, paired with its squared distance. */
  lemma {:induction false} CandidatesBounds(es: seq<Entity>, pt: Point, kind: Kind, i: nat)
    requires i <= |es|
    ensures forall c :: c in Candidates(es, pt, kind, i) ==>
      i <= c.0 < |es| && es[c.0].kind == kind && c.1 == DistanceSq(pt, es[c.0].position)
    decreases |es| - i
  {
    if i < |es| {
      CandidatesBounds(es, pt, kind, i + 1);
    }
  }

  /** Pairs whose entity ids strictly increase. */
  predicate IdsIncreasing(r: seq<(EntityId, int)>)
  {
    forall k1, k2 :: 0 <= k1 < k2 < |r| ==> r[k1].0 < r[k2].0
  }

  /** Putting a smaller id in front keeps the ids increasing. */
  lemma ConsIncreasing(c: (EntityId, int), rest: seq<(EntityId, int)>)
    requires IdsIncreasing(rest) && forall d :: d in rest ==> c.0 < d.0
    ensures IdsIncreasing([c] + rest)
  {
    var r := [c] + rest;
    forall k1, k2 | 0 <= k1 < k2 < |r| ensures r[k1].0 < r[k2].0 {
      assert r[k2] == rest[k2 - 1];
      if k1 > 0 {
        assert r[k1] == rest[k1 - 1];
      } else {
        assert rest[k2 - 1] in rest;
      }
    }
  }

  /** The candidates come in strictly increasing entity order. */
  lemma {:induction false} CandidatesOrdered(es: seq<Entity>, pt: Point, kind: Kind, i: nat)
    requires i <= |es|
    ensures IdsIncreasing(Candidates(es, pt, kind, i))
    decreases |es| - i
  {
    if i < |es| {
      CandidatesOrdered(es, pt, kind, i + 1);
      CandidatesBounds(es, pt, kind, i + 1);
      if es[i].kind == kind {
        ConsIncreasing((i, DistanceSq(pt, es[i].position)), Candidates(es, pt, kind, i + 1));
      }
    }
  }

  /** Every entity of the kind at or after `i` is a candidate. */
  lemma {:induction false} CandidatesComplete(es: seq<Entity>, pt: Point, kind: Kind, i: nat)
    requires i <= |es|
    ensures forall j :: i <= j < |es| && es[j].kind == kind ==>
      (j, DistanceSq(pt, es[j].position)) in Candidates(es, pt, kind, i)
    decreases |es| - i
  {
    if i < |es| {
      CandidatesComplete(es, pt, kind, i + 1);
      var rest := Candidates(es, pt, kind, i + 1);
      var r := Candidates(es, pt, kind, i);
      if es[i].kind == kind {
        assert r == [(i, DistanceSq(pt, es[i].position))] + rest;
      }
    }
  }

  /** The entity find_nearest picks. */
  function NearestOf(es: seq<Entity>, pt: Point, kind: Kind): (r: Option<EntityId>)
    ensures r.Some? ==> r.value < |es| && es[r.value].kind == kind
  {
    CandidatesBounds(es, pt, kind, 0);
    FirstNearest(Candidates(es, pt, kind, 0))
  }

  /** The nearest entity is absent exactly when no entity has the kind; when
      present it is at least as near as every entity of the kind and strictly
      nearer than every earlier one. */
  lemma NearestOfMinimal(es: seq<Entity>, pt: Point, kind: Kind)
    ensures NearestOf(es, pt, kind).None? <==> forall i :: 0 <= i < |es| ==> es[i].kind != kind
    ensures var r := NearestOf(es, pt, kind);
      r.Some? ==> forall i :: 0 <= i < |es| && es[i].kind == kind ==>
        DistanceSq(pt, es[r.value].position) <= DistanceSq(pt, es[i].position)
    ensures var r := NearestOf(es, pt, kind);
      r.Some? ==> forall i :: 0 <= i < r.value && es[i].kind == kind ==>
        DistanceSq(pt, es[r.value].position) < DistanceSq(pt, es[i].position)
  {
    var pairs := Candidates(es, pt, kind, 0);
    CandidatesBounds(es, pt, kind, 0);
    CandidatesOrdered(es, pt, kind, 0);
    CandidatesComplete(es, pt, kind, 0);
    if pairs != [] {
      var k := FirstNearestIndex(pairs);
      var r := pairs[k].0;
      assert pairs[k] in pairs;
      forall i | 0 <= i < |es| && es[i].kind == kind
        ensures DistanceSq(pt, es[r].position) <= DistanceSq(pt, es[i].position)
        ensures i < r ==> DistanceSq(pt, es[r].position) < DistanceSq(pt, es[i].position)
      {
        assert (i, DistanceSq(pt, es[i].position)) in pairs;
        var j :| 0 <= j < |pairs| && pairs[j] == (i, DistanceSq(pt, es[i].position));
        assert pairs[k].1 <= pairs[j].1;
        if i < r {
          assert j < k;
        }
      }
    }
  }

  /** find_nearest: the first entity of the given kind at least distance from
      `pt`, or None when there is no entity of that kind. */
  method FindNearest(es: seq<Entity>, pt: Point, kind: Kind) returns (r: Option<EntityId>)
    ensures r == NearestOf(es, pt, kind)
    ensures r.None? <==> forall i :: 0 <= i < |es| ==> es[i].kind != kind
    ensures r.Some? ==> r.value < |es| && es[r.value].kind == kind
    ensures r.Some? ==> forall i :: 0 <= i < |es| && es[i].kind == kind ==>
      DistanceSq(pt, es[r.value].position) <= DistanceSq(pt, es[i].position)
    ensures r.Some? ==> forall i :: 0 <= i < r.value && es[i].kind == kind ==>
      DistanceSq(pt, es[r.value].position) < DistanceSq(pt, es[i].position)
  {
    var pairs := Candidates(es, pt, kind, 0);
    r := NearestEntity(pairs);
    NearestOfMinimal(es, pt, kind);
  }
}

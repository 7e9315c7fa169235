/** The entity records of the simulation and what an entity does on its own:
    frame advance, its pending-action list, the miner transforms, the
    animation chain and the save-format line. */
module Entities {
  import opened Wrappers
  import opened Geometry
  import opened ActionQueue
  import opened Text

  const BLOB_RATE_SCALE: int := 4
  const BLOB_ANIMATION_RATE_SCALE: int := 50
  const BLOB_ANIMATION_MIN: int := 1
  const BLOB_ANIMATION_MAX: int := 3
  const ORE_CORRUPT_MIN: int := 20000
  const ORE_CORRUPT_MAX: int := 30000
  const QUAKE_STEPS: nat := 10
  const QUAKE_DURATION: int := 1100
  const QUAKE_ANIMATION_RATE: int := 100
  const VEIN_RATE_MIN: int := 8000
  const VEIN_RATE_MAX: int := 17000

  /** The variant of an entity: one per entity class of the simulation. */
  datatype Kind = MinerNotFull | MinerFull | Vein | Ore | Blacksmith | Obstacle | OreBlob | Quake

  /** An opaque animation-frame handle. */
  datatype Image = Image(handle: nat)

  /** One record for every variant; fields a variant does not have are 0.
      `pending` lists the ids of the queued actions the entity owns. */
  datatype Entity = Entity(
    kind: Kind,
    name: string,
    position: Point,
    imgs: seq<Image>,
    currentImg: nat,
    rate: int,
    animationRate: int,
    resourceLimit: int,
    resourceCount: int,
    resourceDistance: int,
    pending: seq<ActionId>)

  /** The frame index points into a non-empty frame list. */
  ghost predicate WellFormed(e: Entity)
  {
    |e.imgs| > 0 && e.currentImg < |e.imgs|
  }

  /** A freshly built entity: first frame, nothing scheduled yet. */
  ghost predicate Fresh(e: Entity)
  {
    WellFormed(e) && e.currentImg == 0 && e.pending == []
  }

  // ---------------------------------------------------------------------
  // Constructors

  function NewMinerNotFull(name: string, resourceLimit: int, position: Point, rate: int,
                           imgs: seq<Image>, animationRate: int): (e: Entity)
    requires |imgs| > 0
    ensures Fresh(e) && e.kind == MinerNotFull && e.resourceCount == 0
    ensures e.name == name && e.resourceLimit == resourceLimit && e.position == position
    ensures e.rate == rate && e.imgs == imgs && e.animationRate == animationRate
  {
    Entity(MinerNotFull, name, position, imgs, 0, rate, animationRate, resourceLimit, 0, 0, [])
  }

  function NewMinerFull(name: string, resourceLimit: int, position: Point, rate: int,
                        imgs: seq<Image>, animationRate: int): (e: Entity)
    requires |imgs| > 0
    ensures Fresh(e) && e.kind == MinerFull && e.resourceCount == resourceLimit
    ensures e.name == name && e.resourceLimit == resourceLimit && e.position == position
    ensures e.rate == rate && e.imgs == imgs && e.animationRate == animationRate
  {
    Entity(MinerFull, name, position, imgs, 0, rate, animationRate, resourceLimit, resourceLimit, 0, [])
  }

  function NewVein(name: string, rate: int, position: Point, imgs: seq<Image>,
                   resourceDistance: int): (e: Entity)
    requires |imgs| > 0
    ensures Fresh(e) && e.kind == Vein
    ensures e.name == name && e.rate == rate && e.position == position
    ensures e.imgs == imgs && e.resourceDistance == resourceDistance
  {
    Entity(Vein, name, position, imgs, 0, rate, 0, 0, 0, resourceDistance, [])
  }

  function NewOre(name: string, position: Point, imgs: seq<Image>, rate: int): (e: Entity)
    requires |imgs| > 0
    ensures Fresh(e) && e.kind == Ore
    ensures e.name == name && e.position == position && e.imgs == imgs && e.rate == rate
  {
    Entity(Ore, name, position, imgs, 0, rate, 0, 0, 0, 0, [])
  }

  function NewBlacksmith(name: string, position: Point, imgs: seq<Image>, resourceLimit: int,
                         rate: int, resourceDistance: int): (e: Entity)
    requires |imgs| > 0
    ensures Fresh(e) && e.kind == Blacksmith && e.resourceCount == 0
    ensures e.name == name && e.position == position && e.imgs == imgs
    ensures e.resourceLimit == resourceLimit && e.rate == rate && e.resourceDistance == resourceDistance
  {
    Entity(Blacksmith, name, position, imgs, 0, rate, 0, resourceLimit, 0, resourceDistance, [])
  }

  function NewObstacle(name: string, position: Point, imgs: seq<Image>): (e: Entity)
    requires |imgs| > 0
    ensures Fresh(e) && e.kind == Obstacle
    ensures e.name == name && e.position == position && e.imgs == imgs
  {
    Entity(Obstacle, name, position, imgs, 0, 0, 0, 0, 0, 0, [])
  }

  function NewOreBlob(name: string, position: Point, rate: int, imgs: seq<Image>,
                      animationRate: int): (e: Entity)
    requires |imgs| > 0
    ensures Fresh(e) && e.kind == OreBlob
    ensures e.name == name && e.position == position && e.rate == rate
    ensures e.imgs == imgs && e.animationRate == animationRate
  {
    Entity(OreBlob, name, position, imgs, 0, rate, animationRate, 0, 0, 0, [])
  }

  function NewQuake(name: string, position: Point, imgs: seq<Image>, animationRate: int): (e: Entity)
    requires |imgs| > 0
    ensures Fresh(e) && e.kind == Quake
    ensures e.name == name && e.position == position
    ensures e.imgs == imgs && e.animationRate == animationRate
  {
    Entity(Quake, name, position, imgs, 0, 0, animationRate, 0, 0, 0, [])
  }

  // ---------------------------------------------------------------------
  // Animation frames

  /** next_image: move to the following frame, wrapping around. */
  function NextImage(e: Entity): (r: Entity)
    requires |e.imgs| > 0
    ensures r == e.(currentImg := r.currentImg)
    ensures r.currentImg < |r.imgs|
    ensures r.currentImg == (e.currentImg + 1) % |e.imgs|
  {
    e.(currentImg := (e.currentImg + 1) % |e.imgs|)
  }

  /** The entity after `n` frame advances. */
  function Advance(e: Entity, n: nat): Entity
    requires |e.imgs| > 0
  {
    if n == 0 then e else NextImage(Advance(e, n - 1))
  }

  /** After n advances the frame index is the start index plus n, modulo the
      number of frames, and nothing else about the entity has changed. */
  lemma {:induction false} AdvanceFrame(e: Entity, n: nat)
    requires WellFormed(e)
    ensures Advance(e, n) == e.(currentImg := (e.currentImg + n) % |e.imgs|)
  {
    if n > 0 {
      AdvanceFrame(e, n - 1);
      var m := |e.imgs|;
      var c := e.currentImg + n - 1;
      assert (c % m + 1) % m == (c + 1) % m by {
        ModSucc(c, m);
      }
    }
  }

  lemma MulAtLeast(x: int, m: int)
    requires m > 0 && x >= 1
    ensures x * m >= m
  {
  }

  /** Euclidean division has one quotient and one remainder. */
  lemma DivModUnique(a: int, m: int, q: int, r: int)
    requires m > 0 && 0 <= r < m && a == q * m + r
    ensures a / m == q && a % m == r
  {
    var q', r' := a / m, a % m;
    assert q' * m + r' == q * m + r;
    assert (q - q') * m == r' - r;
    if q - q' >= 1 {
      MulAtLeast(q - q', m);
    } else if q' - q >= 1 {
      MulAtLeast(q' - q, m);
    }
  }

  lemma ModSucc(c: nat, m: nat)
    requires m > 0
    ensures (c % m + 1) % m == (c + 1) % m
  {
    var q, r := c / m, c % m;
    if r + 1 < m {
      DivModUnique(c + 1, m, q, r + 1);
      DivModUnique(r + 1, m, 0, r + 1);
    } else {
      DivModUnique(c + 1, m, q + 1, 0);
      DivModUnique(r + 1, m, 1, 0);
    }
  }

  /** Advancing as many times as there are frames returns to the same frame. */
  lemma FramesCycle(e: Entity)
    requires WellFormed(e)
    ensures Advance(e, |e.imgs|) == e
  {
    AdvanceFrame(e, |e.imgs|);
    DivModUnique(e.currentImg + |e.imgs|, |e.imgs|, 1, e.currentImg);
  }

  // ---------------------------------------------------------------------
  // Pending actions

  ghost predicate NoDup(s: seq<ActionId>)
  {
    s == [] || (s[0] !in s[1..] && NoDup(s[1..]))
  }

  function ToSet(s: seq<ActionId>): set<ActionId>
  {
    set a | a in s
  }

  /** The position of the first occurrence of `a`. */
  function FirstIndex(s: seq<ActionId>, a: ActionId): (i: nat)
    requires a in s
    ensures i < |s| && s[i] == a && a !in s[..i]
  {
    if s[0] == a then 0
    else
      var j := FirstIndex(s[1..], a);
      assert s[..j + 1] == [s[0]] + s[1..][..j];
      j + 1
  }

  /** list.remove: drops the first occurrence of `a` and keeps the rest in
      order (the source raises when `a` is absent, hence the requires). */
  function RemoveFirst(s: seq<ActionId>, a: ActionId): (r: seq<ActionId>)
    requires a in s
    ensures |r| == |s| - 1
    ensures forall k :: 0 <= k < FirstIndex(s, a) ==> r[k] == s[k]
    ensures forall k :: FirstIndex(s, a) <= k < |r| ==> r[k] == s[k + 1]
    ensures multiset(r) == multiset(s) - multiset{a}
  {
    var i := FirstIndex(s, a);
    assert s == s[..i] + [a] + s[i + 1..];
    s[..i] + s[i + 1..]
  }

  /** add_pending_action */
  function AddPending(e: Entity, a: ActionId): (r: Entity)
    ensures r.pending == e.pending + [a] && r == e.(pending := r.pending)
  {
    e.(pending := e.pending + [a])
  }

  /** remove_pending_action: the action must be in the list (list.remove
      raises otherwise). */
  function RemovePending(e: Entity, a: ActionId): (r: Entity)
    requires a in e.pending
    ensures r.pending == RemoveFirst(e.pending, a)
    ensures multiset(r.pending) == multiset(e.pending) - multiset{a}
    ensures r == e.(pending := r.pending)
  {
    e.(pending := RemoveFirst(e.pending, a))
  }

  /** clear_pending_actions (the entity's own: the list is emptied, nothing
      is unscheduled). */
  function ClearPending(e: Entity): (r: Entity)
    ensures r.pending == [] && r == e.(pending := [])
  {
    e.(pending := [])
  }

  lemma {:induction false} NoDupMembers(s: seq<ActionId>)
    ensures NoDup(s) <==> forall a :: multiset(s)[a] <= 1
  {
    if s != [] {
      NoDupMembers(s[1..]);
      assert s == [s[0]] + s[1..];
      assert multiset(s) == multiset{s[0]} + multiset(s[1..]);
      if !NoDup(s) {
        if s[0] in s[1..] {
          assert multiset(s)[s[0]] >= 2;
        } else {
          var b :| multiset(s[1..])[b] > 1;
          assert multiset(s)[b] >= 2;
        }
      }
    }
  }

  /** Appending a fresh id keeps a pending list free of duplicates and adds that id. */
  lemma AddPendingFresh(s: seq<ActionId>, a: ActionId)
    requires NoDup(s) && a !in s
    ensures NoDup(s + [a]) && ToSet(s + [a]) == ToSet(s) + {a}
  {
    NoDupMembers(s);
    NoDupMembers(s + [a]);
    assert multiset(s + [a]) == multiset(s) + multiset{a};
  }

  /** Removing an id from a list without duplicates removes it from the set of
      listed ids, and only it. */
  lemma RemoveFirstSet(s: seq<ActionId>, a: ActionId)
    requires NoDup(s) && a in s
    ensures NoDup(RemoveFirst(s, a)) && ToSet(RemoveFirst(s, a)) == ToSet(s) - {a}
  {
    var r := RemoveFirst(s, a);
    NoDupMembers(s);
    NoDupMembers(r);
    assert multiset(s)[a] == 1;
    forall b
      ensures b in ToSet(r) <==> b in ToSet(s) - {a}
    {
      assert b in r <==> multiset(r)[b] > 0;
      assert b in s <==> multiset(s)[b] > 0;
    }
  }

  // ---------------------------------------------------------------------
  // Miner transforms

  /** The fields a miner keeps across a transform. */
  ghost predicate SameIdentity(a: Entity, b: Entity)
  {
    a.name == b.name && a.resourceLimit == b.resourceLimit && a.position == b.position &&
    a.rate == b.rate && a.imgs == b.imgs && a.animationRate == b.animationRate
  }

  /** try_transform_miner_not_full: the miner itself while it has room, a full
      miner with the same identity once its count reaches its limit. */
  function TryTransformNotFull(e: Entity): (r: Entity)
    requires e.kind == MinerNotFull && |e.imgs| > 0
    ensures r == e <==> e.resourceCount < e.resourceLimit
    ensures r != e ==> Fresh(r) && r.kind == MinerFull && SameIdentity(r, e) &&
                       r.resourceCount == r.resourceLimit
  {
    if e.resourceCount < e.resourceLimit then e
    else NewMinerFull(e.name, e.resourceLimit, e.position, e.rate, e.imgs, e.animationRate)
  }

  /** try_transform_miner_full: always an empty not-full miner with the same identity. */
  function TryTransformFull(e: Entity): (r: Entity)
    requires e.kind == MinerFull && |e.imgs| > 0
    ensures r != e && Fresh(r) && r.kind == MinerNotFull && SameIdentity(r, e)
    ensures r.resourceCount == 0
  {
    NewMinerNotFull(e.name, e.resourceLimit, e.position, e.rate, e.imgs, e.animationRate)
  }

  /** Filling up and then emptying gives back a fresh not-full miner with the
      original identity. */
  lemma TransformRoundTrip(e: Entity)
    requires e.kind == MinerNotFull && |e.imgs| > 0 && e.resourceCount >= e.resourceLimit
    ensures var back := TryTransformFull(TryTransformNotFull(e));
      back == NewMinerNotFull(e.name, e.resourceLimit, e.position, e.rate, e.imgs, e.animationRate) &&
      SameIdentity(back, e)
  {
  }

  // ---------------------------------------------------------------------
  // Animation chain

  /** What an animation action with the given repeat count schedules after
      advancing the frame: nothing when the count is 1, otherwise a new
      animation with max(count - 1, 0). */
  function AnimationFollowUp(repeatCount: nat): Option<nat>
  {
    if repeatCount == 1 then None
    else Some(if repeatCount == 0 then 0 else repeatCount - 1)
  }

  /** How many times a chain of animation actions started with `repeatCount`
      fires, counting at most `limit` firings. */
  function ChainFirings(repeatCount: nat, limit: nat): nat
  {
    if limit == 0 then 0
    else match AnimationFollowUp(repeatCount)
      case None => 1
      case Some(next) => 1 + ChainFirings(next, limit - 1)
  }

  /** A chain started with repeat count n >= 1 fires exactly n times, however
      long one waits. */
  lemma {:induction false} ChainFiresRepeatCount(n: nat, limit: nat)
    requires 1 <= n <= limit
    ensures ChainFirings(n, limit) == n
  {
    if n > 1 {
      ChainFiresRepeatCount(n - 1, limit - 1);
    }
  }

  /** A chain started with repeat count 0 never stops. */
  lemma {:induction false} ChainRepeatsForever(limit: nat)
    ensures ChainFirings(0, limit) == limit
  {
    if limit > 0 {
      ChainRepeatsForever(limit - 1);
    }
  }

  // ---------------------------------------------------------------------
  // Save format

  /** The words of the save-format line of the variants that have one. */
  function SavedFields(e: Entity): seq<string>
  {
    match e.kind
    case MinerNotFull =>
      ["miner", e.name, IntToString(e.position.x), IntToString(e.position.y),
       IntToString(e.resourceLimit), IntToString(e.rate), IntToString(e.animationRate)]
    case Vein =>
      ["vein", e.name, IntToString(e.position.x), IntToString(e.position.y),
       IntToString(e.rate), IntToString(e.resourceDistance)]
    case Ore =>
      ["ore", e.name, IntToString(e.position.x), IntToString(e.position.y), IntToString(e.rate)]
    case Blacksmith =>
      ["blacksmith", e.name, IntToString(e.position.x), IntToString(e.position.y),
       IntToString(e.resourceLimit), IntToString(e.rate), IntToString(e.resourceDistance)]
    case Obstacle =>
      ["obstacle", e.name, IntToString(e.position.x), IntToString(e.position.y)]
    case _ => []
  }

  predicate HasSaveLine(k: Kind)
  {
    k == MinerNotFull || k == Vein || k == Ore || k == Blacksmith || k == Obstacle
  }

  /** entity_string: the fields joined by spaces, or 'unknown' for a full
      miner, a blob or a quake. */
  function EntityString(e: Entity): (s: string)
    ensures s == "unknown" <==> !HasSaveLine(e.kind)
  {
    if HasSaveLine(e.kind) then
      var words := SavedFields(e);
      assert words[0][0] != 'u' && words[0][0] == words[0][..1][0];
      Join(words)
    else "unknown"
  }

  /** A saved line splits back into its variant tag and its fields when the
      name has no space in it. */
  lemma EntityStringSplits(e: Entity)
    requires HasSaveLine(e.kind) && ' ' !in e.name
    ensures Split(EntityString(e)) == SavedFields(e)
  {
    var words := SavedFields(e);
    assert forall i :: 0 <= i < |words| ==> ' ' !in words[i];
    SplitJoin(words);
  }
}

# Grid world simulation — a Dafny model

This project models the engine of a small discrete-event simulation on a grid.
Miners walk to ore, carry it to blacksmiths and change between a not-full and
a full form. Veins spawn ore. Ore left alone turns into an ore blob. Blobs walk
to veins, eating ore on the way, and destroy the vein they reach, leaving an
earthquake behind. Every behaviour is an action queued at a trigger time. The
world pops and fires the due actions in time order.

The model has these parts:

- `Geometry` is points, the `(-1, -1)` sentinel for a removed entity, `sign`,
  4-neighbour adjacency and squared distance.
- `ActionQueue` is the action queue's interface: stable insertion by trigger
  time, cancellation by action id, head and pop. The closures of the original
  become `Action` values with a unique id, an owner and a kind.
- `OccGrid` is the occupancy grid's get/set interface.
- `Entities` holds the entity record of every variant and the constructors.
  It also holds what an entity does on its own: frame advance, the
  pending-action list, the miner transforms, the animation chain and the save
  format line. `Text` supplies the integer-to-string, join and split helpers
  the save format needs.
- `Spatial` is greedy one-step pathing, the row-major open-cell search and
  the nearest entity of a kind.
- `WorldState` is the consistency invariant of the world. It has four parts:
  - every occupied cell's occupant records that cell;
  - removed entities are off the grid;
  - the queue is ordered and its ids are unique and fresh;
  - every entity's pending list is exactly its set of queued action ids.
- `WorldModel.World` is a class with the grid, the append-only entity list,
  the queue and the next action id. Its methods are the world's primitive
  operations.
- `Actions` is the scheduling glue. It keeps an entity's pending list and the
  queue in step.
- `Steps` states every step rule as a function on world states: the new
  grid, entity list, queue and id counter, the tiles returned, whether the
  target was reached and which entity carries on. Its lemmas state what the
  rules mean: each mover goes for the nearest target of its kind, a firing
  only queues newly allocated ids, and fired actions never come back.
- `Behaviour` holds the spawns, the step methods of each variant, the
  dispatcher `Fire` and `UpdateOnTime`. `Fire` does what each closure did.
  Every step method is proved to leave the world exactly in the state its
  `Steps` function gives.

Entities are values in the world's list, and an entity's id is its index in
that list. The list only grows: removal marks the entity's position
`(-1, -1)`.

Random draws are parameters. The draws a firing may use are a `Draws` value:
the new ore's rate and the blob animation factor. Where the original reads an
image store, the model takes an `ImageStore` parameter.

Differences between the written behaviour and the model:

- `find_nearest` considers removed entities too, because they stay in the
  list at `(-1, -1)`. The model keeps this. `NotAdjacentToRemoved` shows such
  a target is never reached. A step toward it can leave the grid, and then
  `move_entity` does nothing and returns no tiles.
- The spawns (`create_ore`, `create_blob`, `create_quake` followed by
  `add_entity` in the step bodies) add the entity first and then schedule its
  actions. Spawning an ore or a quake does nothing else in between, so the
  resulting state is the same as in the written order.
- The ore transform is the one place where the order matters. In the source,
  `create_blob` queues the blob's step and animation, then `remove_entity`
  cancels the ore's actions, and only then is the blob added.
  `OreTransformStep` keeps the source's order: it cancels the ore's actions
  from the queue that already holds the blob's two entries.
  `OreTransformAction` removes the ore first and then spawns the blob.
  `OreTransformReorder` and `OreTransformOrder` prove the two orders give the
  same state. The blob's ids are fresh, and on an ordered queue insertion
  commutes with cancelling other ids.

## Model

| member | source | states |
|---|---|---|
| Geometry.Sign | actions.py:26-32 | -1, 0 or 1 exactly when the argument is negative, zero or positive |
| Geometry.Adjacent | actions.py:34-36 | four-neighbour adjacency; its meaning is given by AdjacentIffNeighbour, AdjacentIffUnitDistance and AdjacentSymmetric |
| Geometry.DistanceSq | worldmodel.py:343-344 | the squared Euclidean distance; DistanceSqZero states it is non-negative and zero only between equal points |
| Geometry.AdjacentSymmetric | actions.py:34-36 | adjacency is symmetric |
| Geometry.AdjacentIffNeighbour | actions.py:34-36 | adjacent means one of the four neighbours |
| Geometry.AdjacentIffUnitDistance | actions.py:34-36 | two points are adjacent exactly when their squared distance is 1 |
| Geometry.DistanceSqZero | worldmodel.py:343-344 | the squared distance is non-negative and zero only between equal points |
| Geometry.NotAdjacentToRemoved | worldmodel.py:87-95 | no in-grid point is adjacent to the removed sentinel (-1, -1) |
| OccGrid.EmptyGrid | worldmodel.py:29-35 | a new grid of the given size with every cell empty |
| OccGrid.WithinBounds | worldmodel.py:54-56 | the point lies in the grid's rectangle; OccupiedInBounds relates it to occupancy |
| OccGrid.GetCell | worldmodel.py:126-128 | the grid's cell read; SetCell and SetCellTwice state what a read returns after writes |
| OccGrid.IsOccupied | worldmodel.py:58-60 | in bounds and holding an occupant; OccupiedInBounds and GetTileOccupant state its meaning |
| OccGrid.OccupiedInBounds | worldmodel.py:54-60 | an occupied cell is in bounds; an out-of-bounds cell is never occupied |
| OccGrid.SetCell | worldmodel.py:67-95 | an in-bounds write stores the value and touches no other cell; an out-of-bounds write changes nothing |
| OccGrid.SetCellTwice | entities.py:108-116 | a second write to a cell overwrites the first |
| OccGrid.GetTileOccupant | worldmodel.py:126-128 | an occupant is returned exactly for an occupied in-bounds cell |
| ActionQueue.InsertionPoint | worldmodel.py:97-98 | the new entry goes after every entry due no later and before the first due later |
| ActionQueue.Insert | worldmodel.py:97-98 | the ordered list's insert grows the queue by one; InsertSplice, InsertMultiset, InsertSorted and InsertFifo state where the entry goes |
| ActionQueue.InsertMultiset | worldmodel.py:97-98 | insertion adds exactly the new entry and keeps every other one |
| ActionQueue.InsertSorted | worldmodel.py:97-98 | insertion keeps the queue ordered by trigger time |
| ActionQueue.InsertFifo | worldmodel.py:97-98 | ties go in insertion order: earlier entries due no later stay ahead, later-due ones move behind |
| ActionQueue.SortedPairs | worldmodel.py:97-98 | the queue is ordered exactly when no entry is due later than any entry behind it |
| ActionQueue.InsertSplice | worldmodel.py:97-98 | insertion splices the entry in at its insertion point |
| ActionQueue.InsertFront | worldmodel.py:97-98 | an entry due before every queued one goes to the front |
| ActionQueue.InsertMembers | worldmodel.py:97-98 | the members after insertion are the old members and the new entry |
| ActionQueue.WithoutMembers | worldmodel.py:100-101 | after cancellation exactly the entries with uncancelled ids remain |
| ActionQueue.Without | worldmodel.py:100-101 | the queue with every entry of a cancelled id dropped; WithoutMembers, WithoutSorted and WithoutIds state its meaning |
| ActionQueue.Remove | worldmodel.py:100-101 | the ordered list's remove of one action id; it is Without of that single id |
| ActionQueue.WithoutNothing | worldmodel.py:100-101 | cancelling nothing leaves the queue unchanged |
| ActionQueue.WithoutSorted | worldmodel.py:100-101 | cancellation keeps the queue ordered |
| ActionQueue.WithoutTwice | actions.py:104-107 | cancelling two id sets one after the other is cancelling their union |
| ActionQueue.WithoutInsert | entities.py:397-403 | on an ordered queue, cancelling ids other than a new entry's gives the same queue whether the entry is inserted before or after |
| ActionQueue.WithoutIds | actions.py:104-107 | cancellation keeps ids unique and removes exactly the cancelled ids |
| ActionQueue.InsertIds | actions.py:93-95 | inserting an entry with a fresh id keeps ids unique and adds that id |
| ActionQueue.OwnersDisjoint | actions.py:93-95 | with unique ids no queued action belongs to two entities |
| ActionQueue.Head | worldmodel.py:103-112 | no head exactly for an empty queue; in an ordered queue the head is due no later than any entry |
| ActionQueue.PopIds | worldmodel.py:103-112 | popping removes exactly the head's id and keeps the rest unique |
| Text.IntToString | entities.py:682-702 | str() of an integer is non-empty and has no space |
| Text.NatToStringValue | entities.py:682-702 | the decimal digits of a natural number denote it, and only zero starts with '0' |
| Text.IntToStringValue | entities.py:682-702 | str() of a non-negative integer is its digits with no leading zero; of a negative one, '-' and the digits of its magnitude |
| Text.Join | entities.py:682-702 | ' '.join: the first word starts the line; SplitJoin states that Split inverts it |
| Text.Split | entities.py:682-702 | splitting at spaces gives at least one word; SplitJoin states that it inverts Join |
| Text.SplitJoin | entities.py:682-702 | splitting a space-joined line gives back the words when no word has a space |
| Entities.NewMinerNotFull | entities.py:45-55 | a fresh not-full miner with the given fields, count 0, first frame, nothing pending |
| Entities.NewMinerFull | entities.py:155-165 | a fresh full miner whose count equals its limit |
| Entities.NewVein | entities.py:263-270 | a fresh vein with the given rate and resource distance |
| Entities.NewOre | entities.py:335-341 | a fresh ore with the given rate |
| Entities.NewBlacksmith | entities.py:417-427 | a fresh blacksmith with count 0 and the given limit, rate and distance |
| Entities.NewObstacle | entities.py:501-505 | a fresh obstacle at the given position |
| Entities.NewOreBlob | entities.py:532-539 | a fresh blob with the given rate and animation rate |
| Entities.NewQuake | entities.py:604-610 | a fresh quake with the given animation rate |
| Entities.NextImage | entities.py:105-106 | only the frame index changes; it becomes (index + 1) mod the frame count and stays in range |
| Entities.AdvanceFrame | entities.py:105-106 | n frame advances add n to the index modulo the frame count and change nothing else |
| Entities.FramesCycle | entities.py:105-106 | advancing once per frame returns the entity to the same frame |
| Entities.AnimationFollowUp | entities.py:134-146 | what an animation schedules after its frame: nothing for count 1, otherwise max(count - 1, 0); ChainFiresRepeatCount and ChainRepeatsForever state how often a chain fires |
| Entities.FirstIndex | entities.py:87-89 | the index of the first occurrence of the id |
| Entities.RemoveFirst | entities.py:87-89 | list.remove drops the first occurrence of the id and keeps the others in order |
| Entities.AddPending | entities.py:91-93 | the id is appended to the pending list and nothing else changes |
| Entities.RemovePending | entities.py:87-89 | the first occurrence of the id leaves the pending list, the rest keep their order, and nothing else changes |
| Entities.ClearPending | entities.py:101-103 | the pending list becomes empty and nothing else changes |
| Entities.NoDupMembers | entities.py:87-93 | a list has no duplicates exactly when each id occurs at most once |
| Entities.AddPendingFresh | entities.py:91-93 | appending a fresh id keeps the list duplicate-free and adds just that id |
| Entities.RemoveFirstSet | entities.py:87-89 | removing a listed id from a duplicate-free list removes just that id from its set |
| Entities.TryTransformNotFull | entities.py:118-126 | the miner itself exactly while count < limit; otherwise a fresh full miner with the same identity and count = limit |
| Entities.TryTransformFull | entities.py:228-234 | always a different, fresh not-full miner with the same identity and count 0 |
| Entities.TransformRoundTrip | entities.py:118-126 | filling up then emptying gives a fresh not-full miner with the original identity |
| Entities.ChainFiresRepeatCount | entities.py:134-146 | an animation chain started with repeat count n >= 1 fires exactly n times |
| Entities.ChainRepeatsForever | entities.py:134-146 | a chain started with repeat count 0 fires at every opportunity, without end |
| Entities.EntityString | entities.py:682-702 | 'unknown' exactly for the variants without a save line (full miner, blob, quake) |
| Entities.EntityStringSplits | entities.py:682-702 | a save line splits back into its tag and fields when the name has no space |
| Spatial.GreedyStep | worldmodel.py:133-161 | horizontal step first, then vertical, else stay; a move is onto a free adjacent cell closer to the target |
| Spatial.StepCloser | worldmodel.py:133-144 | one unit toward the target along an axis strictly shortens the squared distance |
| Spatial.NextPosition | worldmodel.py:133-144 | the greedy step over unoccupied cells, with the step order and the stay condition both ways |
| Spatial.BlobNextPosition | worldmodel.py:146-161 | the greedy step where a cell holding an Ore counts as free |
| Spatial.BlobMovesWhereMinerMoves | worldmodel.py:146-161 | a blob is never stuck where a miner could move |
| Spatial.StepStaysInBounds | worldmodel.py:133-161 | a step between two in-bounds cells stays in bounds |
| Spatial.FindOpenAround | worldmodel.py:266-275 | the first open cell of the square in row-major order, or None when the square has none |
| Spatial.NearestEntity | worldmodel.py:331-341 | None exactly for no pairs; otherwise the first pair of least distance |
| Spatial.Candidates | worldmodel.py:62-65 | the list of entities of the kind with their squared distances; CandidatesBounds, CandidatesOrdered and CandidatesComplete state that it is exactly those entities, in entity order |
| Spatial.CandidatesBounds | worldmodel.py:62-65 | every candidate is an entity of the kind paired with its squared distance |
| Spatial.CandidatesOrdered | worldmodel.py:62-65 | the candidates come in entity order |
| Spatial.CandidatesComplete | worldmodel.py:62-65 | every entity of the kind is a candidate |
| Spatial.NearestOf | worldmodel.py:62-65 | a result is an entity of the kind |
| Spatial.NearestOfMinimal | worldmodel.py:62-65 | None exactly when no entity has the kind; otherwise one of least distance, strictly nearer than every earlier one |
| Spatial.FindNearest | worldmodel.py:62-65 | None exactly when no entity has the kind; otherwise one of least distance, strictly nearer than every earlier one |
| WorldState.OwnerPlaced | worldmodel.py:87-95 | an entity that owns a queued action is on the grid, in bounds |
| WorldState.PlacedCell | worldmodel.py:87-95 | an entity not removed occupies its own cell |
| WorldState.IdsBelow | actions.py:93-95 | the next action id is neither queued nor pending anywhere |
| WorldState.IdleOwnsNothing | entities.py:148-152 | an entity with an empty pending list owns nothing in the queue |
| WorldState.HeadOwner | worldmodel.py:103-109 | the head's owner is on the grid, its kind can run the action, and the action's id is on its pending list |
| WorldState.InvEmpty | worldmodel.py:29-35 | the empty world is consistent |
| WorldState.InvAdd | worldmodel.py:67-74 | putting a fresh entity on an empty in-bounds cell keeps the world consistent |
| WorldState.InvMove | worldmodel.py:76-85 | moving onto an empty cell or one's own keeps the world consistent |
| WorldState.InvRemoveAt | worldmodel.py:90-95 | removing an idle entity from its cell keeps the world consistent |
| WorldState.InvUpdate | entities.py:105-106 | changing an entity's frame or count keeps the world consistent |
| WorldState.InvSchedule | actions.py:93-95 | scheduling a fresh action for a placed entity keeps the world consistent |
| WorldState.InvClear | actions.py:104-107 | unscheduling an entity's pending actions and emptying its list keeps the world consistent |
| WorldState.InvRelease | worldmodel.py:103-112 | popping the head and taking its id off its owner's list keeps the world consistent |
| WorldModel.World.constructor | worldmodel.py:29-35 | an empty grid of the given size, no entities, an empty queue |
| WorldModel.World.AddEntity | worldmodel.py:67-74 | out of bounds nothing changes; in bounds the cell holds the new entity, it is appended and a displaced occupant's pending list is emptied while its actions stay queued |
| WorldModel.World.MoveEntity | worldmodel.py:76-85 | in bounds returns [old, new], the new cell holds the entity and the old one is empty unless equal; out of bounds returns [] and changes nothing |
| WorldModel.World.RemoveEntityAt | worldmodel.py:90-95 | an occupied cell is emptied and its occupant marked (-1, -1), staying in the list; otherwise nothing changes |
| WorldModel.World.RemoveEntity | worldmodel.py:87-88 | remove_entity_at the entity's own position |
| WorldModel.World.ScheduleAction | worldmodel.py:97-98 | the queue becomes the stable insertion of the entry |
| WorldModel.World.UnscheduleAction | worldmodel.py:100-101 | the queue loses the entry with that id, if any |
| WorldModel.World.Pop | worldmodel.py:103-112 | the head is returned and dropped |
| WorldModel.World.NextEntityImage | entities.py:105-106 | the entity advances one frame and the world stays consistent |
| WorldModel.World.NewActionId | actions.py:93-95 | the counter's id is returned and the counter moves on; nothing else changes |
| WorldModel.World.SetResourceCount | entities.py:72-73 | only the entity's count changes, to n, and the world stays consistent |
| WorldModel.World.AddPendingAction | entities.py:91-93 | the entity's pending list gets the id appended and nothing else changes |
| WorldModel.World.RemovePendingAction | entities.py:87-89 | the first occurrence of the id leaves the entity's pending list and nothing else changes |
| WorldModel.World.ClearEntityPending | entities.py:101-103 | the entity's pending list becomes empty and nothing else changes |
| WorldModel.Displace | worldmodel.py:67-74 | only the displaced occupant, if any, loses its pending list |
| Steps.RemovedWithActions | entities.py:148-152 | the entity's actions leave the queue, its list empties, its cell clears and it moves to (-1, -1); the entity count and the id counter are kept; RemoveEntityAndActions is proved to have exactly this effect |
| Steps.Moved | worldmodel.py:76-85 | the entity moves to the point or stays, the queue and counter are kept; MoveEntity's ensures give the same new grid, entities and tiles in both cases |
| Steps.Scheduled | actions.py:93-95 | schedule_action on a state: the owner's list gets the counter's id, the entry is inserted and the counter moves on; Actions.ScheduleAction is proved to have exactly this effect and ScheduledFresh states it queues only that new id |
| Steps.OreSpawned | worldmodel.py:306-311 | create_ore followed by add_entity on an open cell: the entity list grows by the ore and keeps its prefix; CreateOre is proved to have exactly this effect, with the transform queued at ticks + rate |
| Steps.BlobSpawned | worldmodel.py:298-304 | create_blob followed by add_entity on an open cell: the entity list grows by the blob and keeps its prefix; CreateBlob is proved to have exactly this effect, with the step at ticks + rate and the endless animation |
| Steps.QuakeSpawned | worldmodel.py:313-317 | create_quake followed by add_entity on an open cell: the entity list grows by the quake and keeps its prefix; CreateQuake is proved to have exactly this effect and QuakeSpawnedFresh states its two entries carry new ids |
| Steps.QuakeSpawnedFresh | worldmodel.py:313-317 | a spawned quake's two entries carry newly allocated ids |
| Steps.MinerToOreStep | worldmodel.py:163-175 | miner_to_ore on a state: the miner stays a not-full miner with its frames and the counter is kept; MinerToOre states its three cases and is proved equal to it |
| Steps.MinerToSmithStep | worldmodel.py:177-190 | miner_to_smith on a state: the miner stays a full miner with its frames and the counter is kept; MinerToSmith states its three cases and is proved equal to it |
| Steps.BlobEnterStep | worldmodel.py:238-243 | the moving half of blob_to_vein: nothing is found, the blob carries on and the counter is kept; BlobEnter states its effect and is proved equal to it |
| Steps.BlobToVeinStep | worldmodel.py:230-243 | blob_to_vein on a state: a reached vein returns one tile and the counter is kept; BlobToVein and BlobTurnRule state its cases |
| Steps.MinerNotFullTurnStep | worldmodel.py:192-209 | miner_to_ore toward the nearest Ore, then try_transform_miner when it was reached; the miner that carries on is in the list; MinerNotFullTurnRule states its meaning and MinerNotFullTurn is proved equal to it |
| Steps.MinerNotFullTurnFresh | worldmodel.py:192-209 | the not-full miner's turn queues only entries with newly allocated ids |
| Steps.MinerNotFullActionStep | worldmodel.py:192-209 | the turn followed by the carrying-on miner's next step; MinerNotFullAction is proved equal to it and states the step at ticks + rate; MinerNotFullFresh states it queues only new ids |
| Steps.MinerFullTurnStep | worldmodel.py:211-228 | miner_to_smith toward the nearest Blacksmith, then try_transform_miner when it was reached; the miner that carries on is in the list; MinerFullTurnRule states its meaning and MinerFullTurn is proved equal to it |
| Steps.MinerFullTurnFresh | worldmodel.py:211-228 | the full miner's turn queues only entries with newly allocated ids |
| Steps.MinerFullActionStep | worldmodel.py:211-228 | the turn followed by the carrying-on miner's next step; MinerFullAction is proved equal to it and states the step at ticks + rate; MinerFullFresh states it queues only new ids |
| Steps.BlobTurnStep | worldmodel.py:245-256 | blob_to_vein toward the nearest Vein, then a quake on the returned cell when it was reached; the entity list never shrinks and the blob carries on; BlobTurnRule states its meaning and BlobTurn is proved equal to it |
| Steps.BlobTurnFresh | worldmodel.py:245-256 | the blob's turn, quake included, queues only entries with newly allocated ids |
| Steps.OreBlobActionStep | worldmodel.py:245-264 | the turn followed by the blob's next step; OreBlobAction is proved equal to it and states the step at ticks + rate, or + 2 * rate after a quake; OreBlobFresh states it queues only new ids |
| Steps.VeinActionStep | worldmodel.py:277-296 | the ore spawn followed by the vein's next step; VeinAction is proved equal to it and states the step at ticks + rate; VeinFresh states it queues only new ids |
| Steps.BlobRate | entities.py:397-401 | Python's rate // 4: the largest r with 4 * r no more than the ore's rate |
| Steps.BlobAnimationRate | worldmodel.py:299-302 | the drawn factor times 50, which lies in [50, 150] for a factor drawn from [1, 3] |
| Steps.SpawnOreStep | worldmodel.py:277-296 | the spawn half of create_vein_action: the entity list only grows and the vein carries on; SpawnOre states its cases and is proved equal to it |
| Steps.OreTransformStep | entities.py:394-406 | create_ore_transform_action on a state, in the source's order of queueing and cancelling; OreTransformOrder and OreTransformFresh state its meaning |
| Steps.QuakeDeathStep | entities.py:665-671 | create_entity_death_action on a state; QuakeDeathAction states its effect and is proved equal to it |
| Steps.AnimationStep | entities.py:134-146 | create_animation_action on a state; AnimationAction states its effect and AnimationFresh that it queues only new ids |
| Steps.FireStep | worldmodel.py:106-109 | popping the head and running the step rule of its kind; FireFresh and FiredStayGone state that fired actions never come back, and Fire is proved equal to it |
| Steps.Transform | entities.py:118-126 | the miner kind selects the transform; the result keeps the identity, and is the miner itself exactly when a not-full miner has room |
| Steps.TransformStep | entities.py:108-116 | try_transform_miner on a state: the miner that carries on is in the list; TryTransformMiner states both cases and is proved equal to it |
| Steps.TransformFresh | entities.py:108-116 | a replacement miner's animation carries a newly allocated id |
| Steps.Released | worldmodel.py:106-109 | popping the head and taking its id off its owner's list keeps the world consistent |
| Steps.MinerNotFullTurnRule | worldmodel.py:192-209 | a not-full miner reaches ore exactly when it is adjacent to the nearest Ore; then the ore is removed and its cell returned; with no ore nothing changes; otherwise the queue is kept, and the miner takes the greedy step toward that ore, returning both cells, when the step stays on the grid, and changes nothing and returns no tiles when it does not |
| Steps.MinerFullTurnRule | worldmodel.py:211-228 | a full miner reaches a smith exactly when it is adjacent to the nearest Blacksmith; then the smith's count grows by the miner's load, no tiles are returned and a new miner carries on; otherwise it moves or stays exactly as the not-full miner does |
| Steps.BlobTurnRule | worldmodel.py:230-264 | a blob reaches a vein exactly when it is adjacent to the nearest Vein; then the vein is removed and a quake appended on its cell, which is returned; with no vein nothing changes; otherwise the blob takes its greedy step toward that vein when the step stays on the grid, and changes nothing and returns no tiles when it does not |
| Steps.CancelAfterSchedule | entities.py:397-403 | on an ordered queue, cancelling ids other than the blob's commutes with queueing the blob's step and animation |
| Steps.OreTransformReorder | entities.py:397-403 | the source's order (queue the blob's actions, then cancel the ore's) gives the same queue as cancelling first |
| Steps.OreTransformOrder | entities.py:394-406 | in a consistent world the ore transform's new state is the ore's removal followed by the blob's spawn |
| Steps.ScheduledFresh | actions.py:93-95 | scheduling queues only an entry with a newly allocated id |
| Steps.RemovedFresh | entities.py:148-152 | removing an entity only takes entries out of the queue |
| Steps.MinerNotFullFresh | worldmodel.py:192-209 | the not-full miner's action queues only entries with newly allocated ids |
| Steps.MinerFullFresh | worldmodel.py:211-228 | the full miner's action queues only entries with newly allocated ids |
| Steps.OreBlobFresh | worldmodel.py:245-264 | the blob's action queues only entries with newly allocated ids |
| Steps.VeinFresh | worldmodel.py:277-296 | the vein's action queues only entries with newly allocated ids |
| Steps.OreTransformFresh | entities.py:394-406 | the ore transform queues only entries with newly allocated ids |
| Steps.AnimationFresh | entities.py:134-146 | an animation step queues only entries with newly allocated ids |
| Steps.FireFresh | worldmodel.py:106-109 | a firing of any kind queues only entries with newly allocated ids |
| Steps.FiredStayGone | worldmodel.py:103-112 | after a firing neither the fired action nor any action fired before it is queued |
| Steps.RunExtend | worldmodel.py:103-112 | a run of firings followed by one more firing from its last state is a run |
| Actions.ScheduleAction | actions.py:93-95 | a fresh action is appended to the owner's list and inserted in the queue at the time; both then hold it |
| Actions.ScheduleAnimation | actions.py:98-101 | an animation is queued at the animation rate as an absolute time |
| Actions.ClearPendingActions | actions.py:104-107 | exactly the listed actions leave the queue, the list is emptied and nothing else changes |
| Actions.ScheduleQuake | actions.py:75-78 | exactly two actions: a 10-step animation and the death at ticks + 1100 |
| Actions.ScheduleOre | actions.py:62-65 | the transform at ticks + rate |
| Actions.ScheduleVein | actions.py:88-90 | the vein step at ticks + rate and no animation |
| Actions.ScheduleBlob | actions.py:42-45 | the blob step at ticks + rate, then an endless animation |
| Actions.ScheduleMiner | actions.py:48-51 | the miner step at ticks + rate, then an endless animation |
| Actions.RemoveEntityAndActions | entities.py:148-152 | none of the entity's actions remain queued, its list is empty, its cell is empty and its position is (-1, -1) |
| Behaviour.CreateOre | worldmodel.py:306-311 | a fresh ore is appended on the open cell and its transform queued at ticks + rate |
| Behaviour.CreateBlob | worldmodel.py:298-304 | a fresh blob on the open cell, its step at ticks + rate and its endless animation at the animation rate passed in, which the caller computes as the drawn factor times 50 |
| Behaviour.CreateQuake | worldmodel.py:313-317 | a quake on the open cell with its 10-step animation and its death at ticks + 1100 |
| Behaviour.CreateVein | worldmodel.py:319-323 | a fresh vein named "vein" + name, with a rate in [8000, 17000] and resource distance 1 |
| Behaviour.MinerToOre | worldmodel.py:163-175 | no ore: ([miner cell], False), no change; adjacent: count + 1, ore and its actions removed, ([ore cell], True); otherwise one step |
| Behaviour.MinerToSmith | worldmodel.py:177-190 | no smith: ([miner cell], False); adjacent: the two counts' sum is kept, the miner's count is 0, ([], True); otherwise one step |
| Behaviour.BlobEnter | worldmodel.py:238-243 | an Ore on the entered cell is removed with its actions, then the blob moves there; the new world is exactly `BlobEnterStep`'s |
| Behaviour.BlobToVein | worldmodel.py:230-243 | no vein: ([blob cell], False); adjacent: the vein and its actions removed, its now-empty cell returned; otherwise one step; the new world is exactly `BlobToVeinStep`'s |
| Behaviour.ReplaceMiner | entities.py:108-116 | old actions cancelled and its cell cleared, the new miner placed on that cell and appended, its animation queued |
| Behaviour.TryTransformMiner | entities.py:108-116 | a different transform replaces the miner as ReplaceMiner says; the same one changes nothing |
| Behaviour.MinerNotFullTurn | worldmodel.py:192-209 | the miner is replaced exactly when it reached ore and its load reached the limit; the tiles, the new world and the miner that carries on are exactly `MinerNotFullTurnStep`'s |
| Behaviour.MinerNotFullAction | worldmodel.py:192-209 | the next miner step, for the miner or its full replacement, is queued at ticks + rate; the tiles and the new world are exactly `MinerNotFullActionStep`'s |
| Behaviour.MinerFullTurn | worldmodel.py:211-228 | the miner becomes a not-full one exactly when it reached a smith; the tiles, the new world and the miner that carries on are exactly `MinerFullTurnStep`'s |
| Behaviour.MinerFullAction | worldmodel.py:211-228 | the next miner step is queued at ticks + rate; the tiles and the new world are exactly `MinerFullActionStep`'s |
| Behaviour.BlobTurn | worldmodel.py:245-264 | on reaching the vein a quake occupies the vein's former cell; the tiles, found and the new world are exactly `BlobTurnStep`'s |
| Behaviour.OreBlobAction | worldmodel.py:245-264 | the next blob step goes at ticks + rate, or at ticks + 2 * rate with a quake at tiles[0] when the vein was reached; the new world is exactly `OreBlobActionStep`'s |
| Behaviour.SpawnOre | worldmodel.py:277-296 | no tiles exactly when the square has no open cell; otherwise an ore is placed on the first open cell in row-major order with its transform queued; the new world is exactly `SpawnOreStep`'s |
| Behaviour.VeinAction | worldmodel.py:277-296 | the next vein step is always queued at ticks + rate; the tiles and the new world are exactly `VeinActionStep`'s |
| Behaviour.OreTransformAction | entities.py:394-406 | the ore and its actions are removed and a blob with rate div 4 takes the returned cell; the new world is exactly `OreTransformStep`'s, which keeps the source's order of queueing and cancelling |
| Behaviour.QuakeDeathAction | entities.py:665-671 | returns the quake's cell captured before removal; that cell is then empty; the new world is exactly `QuakeDeathStep`'s |
| Behaviour.AnimationAction | entities.py:134-146 | one frame advance; the next animation at ticks + animation rate unless the count was 1; the new world is exactly `AnimationStep`'s |
| Behaviour.Fire | worldmodel.py:108-109 | firing a popped action keeps the world consistent; the tiles and the new world are exactly `FireStep`'s, which runs the step rule of the action's kind |
| Behaviour.PopAndFire | worldmodel.py:106-109 | the head is popped and fired: the old world, the head, the new world and the tiles are one firing |
| Behaviour.Concat | worldmodel.py:109 | tiles.extend over the firings: the batches joined in order; UpdateOnTime ties each batch to its firing |
| Behaviour.UpdateOnTime | worldmodel.py:103-112 | fires only due entries; each fired entry was the head of the queue of the state it was fired from, and each firing's tiles and new state are `FireStep`'s; the states chain from the old world to the new one; no fired action is still queued; when the draws last, the queue is then empty or its head is not due; tiles are the firings' tiles in order |

## Left out

- Rendering and assets are not modelled: pygame, `get_image`, `get_background_image`, `get_background`, `set_background`, and the background grid. Frame lists are opaque non-empty sequences of `Image`.
- Randomness is a parameter. The ore rate and the blob animation factor come in a `Draws` value. The vein rate is a parameter of `CreateVein`.
- The ordered list, grid and point classes are not part of this model. The model assumes three things about them: insertion is stable by trigger time, removing an absent action is a no-op, and a grid write outside the rectangle is a no-op.
- The `ticks` argument of `create_vein` is unused in the source and left out.
- Behaviour.UpdateOnTime: the loop fires at most one action per supplied `Draws` value. The number of draws is a fuel bound: when it runs out, the loop stops even if the head is still due. Under that bound the contract does not state that the queue's head is not due.
- Entities.EntityStringSplits: covers only names without a space. A vein names the ore it spawns "ore - " + its own name + " - " + the ticks, which holds spaces, so the save line of every spawned ore splits into more words than its fields. The source's save format cannot read those lines back.
- The Steps functions fix every effect of a step, and the turn-rule lemmas state the main ones: the target, the reach condition, the removal, the move. Other consequences, such as every other entity keeping its position, are implied by the functions but not stated as separate lemmas.
- WorldModel.World.AddEntity, WorldModel.World.RemoveEntityAt, WorldModel.World.RemoveEntity: require the world to be consistent, which the source does not demand. Their callers all keep it consistent.
- Entities.RemoveFirst, Entities.RemovePending, WorldModel.World.RemovePendingAction: require the id to be on the list, so the `ValueError` that `list.remove` raises for an absent id is not modelled. `HeadOwner` proves the requirement at the only call, the release in `Fire`. In the source the error could only follow an `add_entity` that displaced an occupant and emptied its list while its actions stayed queued, and no step places an entity on an occupied cell.
- Closure identity becomes action ids.
- The `hasattr` guards go: every entity has a pending list, and only the variants whose closures can fire are scheduled.
- The `self != new_entity` test becomes a comparison of entity values.
- Obstacle entities have no actions. So `Obstacle.remove_entity`, which calls methods Obstacle lacks, is not modelled.
- `Background.get_name` uses undefined names and is not modelled.
- Animations on a Vein, Ore or Blacksmith would call a missing `get_animation_rate`. They are never scheduled, and the invariant rules them out.
- The calls to nonexistent entity methods (`schedule_action`, `schedule_blob`, `schedule_ore`, `schedule_quake` on an entity) are modelled by the same-named functions of actions.py.
- The duplicated constants and the duplicated `create_ore`/`create_quake`/`create_vein` are modelled once.
- The default Ore rate of 5000 is never used by the simulation's spawns, which always pass a drawn rate. `NewOre` takes the rate as a parameter.
- Entities are values in the world's list, so aliasing between a caller's reference and the list entry is not modelled. Every update goes through the list.
- The truthiness tests on a found target or an open cell (`if not vein`, `if open_pt`) become tests on an explicit `Option`.
- Integers are unbounded, like Python's, so no overflow is modelled.

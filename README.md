# Claw machine core in Dafny

This project models the runtime core of a Unity claw-machine game and proves
properties of that model. One play cycle goes Positioning → Dropping →
Clamping → Lifting → Positioning. Its parts are:

- **Economy ledger** (`economy.dfy`). Two non-negative balances, credits and
  tickets, with guarded spends and adds. Every change is reported to the
  change listeners, and those reports are kept as an event log.
- **Inventory** (`inventory.dfy`). The set of owned prize ids.
- **Loot table** (`loot.dfy`). A weighted roll: the weights are clamped at
  zero and summed, one draw is scaled to the total, and a walk over the
  entries picks one, with a last-entry fallback.
- **Pit filling** (`spawn_grid.dfy`). Count-bounded loot rolls. Each
  non-empty roll with a prefab spawns a prize at a random point of the pit
  box, with a random turn about the vertical axis.
- **Grabber** (`grabber.dfy`). A stored move intent. Dropping/lifting flags
  drive a clamped per-step hook height. An overlap query writes into the
  caller's buffer and never clears it.
- **Machine controller** (`claw_machine.dfy`). The state machine itself:
  - random drift while positioning, and the move dead zone;
  - the affordability gate and the exact cost charge;
  - a first-match probabilistic capture over the overlap buffer;
  - the payout on resolve, then a one-item pit refill.
- **Simple claw** (`claw_grabber_simple.dfy`, `claw_simple_controller.dfy`).
  An open/holding grabber that only ever considers the single nearest
  candidate. Its controller moves the head within ±`xzBounds` and runs a
  busy-gated drop routine: open, descend, settle, close and attach, ascend,
  snap home.
- **Service registry** (`service_locator.dfy`). Overwrite-on-register, a
  throwing `Get` and a non-throwing `TryGet`.
- **Prize spawner** (`prize_spawner.dfy`). The layer-mask loop that finds
  the highest set bit, and the start-up spawn count.

Some concepts are modelled rather than copied:

- **Randomness.** A machine's single seeded `System.Random` is a stream of
  draws in [0, 1) (`RandomSource.Random`). Drift, capture and loot read the
  stream in call order, through a position. Every random outcome is
  therefore a function of the stream and a position, and the proofs say
  exactly which draws each step takes.
- **Failures.** Exceptions are `Outcome` values.
- **Nullable references.** These are `Option` values. A destroyed prize
  compares equal to null, so the controller keeps the set of destroyed
  objects and the capture scan skips them.
- **Floats.** `float` arithmetic is exact `real` arithmetic.
  `Mathf.Approximately` is exact equality, and a magnitude compared with the
  dead zone is compared squared.
- **Scheduling.** The one-second `Invoke` of the payout is an explicit
  `ResolvePayout` call. The simple claw's coroutine is a `Phase` value, and
  `Resume` runs the routine from one yield to the next.

The model follows the code where the written description of the game
differs from it:

- Currency is awarded only when `InventoryService.Add` reports a new id.
- `Resolving` is never entered; the payout goes straight back to
  Positioning.
- Drift replaces the stored move instead of blending with the player's
  input.
- The refill throws away one roll before `FillPit` rolls again.
- Cancel does nothing.
- The overlap buffer is not cleared, so an entry left over from an earlier
  clamp can still be captured (`Machine.StaleCapture`).

## Model

| member | source | states |
|---|---|---|
| RandomSource.Random.NextDouble | Assets/Scripts/Machines/ClawMachineController.cs:28 | each call returns the next draw of the seeded stream, a value in [0, 1), and advances the position by one |
| Economy.Spend | Assets/Scripts/Economy/EconomyService.cs:22-29 | a negative amount throws and changes nothing; a spend above the balance returns false silently; an affordable one returns true, lowers the balance by exactly the amount and reports the new value; a non-negative balance never goes negative |
| Economy.Add | Assets/Scripts/Economy/EconomyService.cs:31-36 | a negative amount throws and changes nothing; otherwise the balance rises by exactly the amount and the new value is reported |
| Economy.SpendThenAddRestores | Assets/Scripts/Economy/EconomyService.cs:22-36 | a successful spend followed by an add of the same amount restores the balance |
| Economy.RunKeepsBalances | Assets/Scripts/Economy/EconomyService.cs:13-52 | from non-negative balances, no sequence of operations makes either balance negative; credit operations never change tickets, and ticket operations never change credits |
| Economy.EconomyService.constructor | Assets/Scripts/Economy/EconomyService.cs:16-20 | negative starting balances are raised to zero, others are kept; no event yet |
| Economy.EconomyService.SpendCredits | Assets/Scripts/Economy/EconomyService.cs:22-29 | result, new credits and events are those of `Spend`; tickets unchanged; balances stay non-negative |
| Economy.EconomyService.AddCredits | Assets/Scripts/Economy/EconomyService.cs:31-36 | result, new credits and events are those of `Add`; tickets unchanged |
| Economy.EconomyService.SpendTickets | Assets/Scripts/Economy/EconomyService.cs:38-45 | result, new tickets and events are those of `Spend`; credits unchanged |
| Economy.EconomyService.AddTickets | Assets/Scripts/Economy/EconomyService.cs:47-52 | result, new tickets and events are those of `Add`; credits unchanged |
| Inventory.Added | Assets/Scripts/Inventory/InventoryService.cs:12 | reports true exactly when the id was not owned; the id is owned afterwards either way; no other id changes; adding an owned id leaves the set unchanged |
| Inventory.AddAllGrows | Assets/Scripts/Inventory/InventoryService.cs:9-12 | over any sequence of adds the set only grows, by exactly the ids added, and the number of adds reported new equals the number of ids that joined |
| Inventory.InventoryService.constructor | Assets/Scripts/Inventory/InventoryService.cs:9 | the owned set starts empty |
| Inventory.InventoryService.Add | Assets/Scripts/Inventory/InventoryService.cs:12 | result and new set are those of `Added` |
| Inventory.InventoryService.Has | Assets/Scripts/Inventory/InventoryService.cs:13 | true exactly for owned ids; a pure lookup |
| Inventory.InventoryService.Owned | Assets/Scripts/Inventory/InventoryService.cs:10 | the read-only view holds exactly the ids `Has` accepts |
| Loot.Clamped | Assets/Scripts/Data/LootTable.cs:22 | the clamped weight is non-negative, at least the weight, equal to it for a non-negative weight and zero for a non-positive one |
| Loot.WalkFrom | Assets/Scripts/Data/LootTable.cs:26-31 | the walk returns an index at or after its start, inside the table |
| Loot.Pick | Assets/Scripts/Data/LootTable.cs:25 | a draw in [0, 1) scaled to the total lies in [0, total) |
| Loot.Choose | Assets/Scripts/Data/LootTable.cs:25-32 | the chosen index, fallback included, is an index of the table |
| Loot.RollResult | Assets/Scripts/Data/LootTable.cs:18-33 | a roll takes one draw and returns a prize exactly when the table is non-empty with positive total weight; the prize is the prize of one of the entries |
| Loot.EmptyOrWeightlessRollsNothing | Assets/Scripts/Data/LootTable.cs:20-23 | an empty table, or one without a positive weight, rolls nothing and takes no draw |
| Loot.WalkFindsFirstCovering | Assets/Scripts/Data/LootTable.cs:26-31 | the subtracting walk stops at the first entry whose clamped prefix sum reaches the pick, and runs out only when none does |
| Loot.ChosenIffPickInInterval | Assets/Scripts/Data/LootTable.cs:25-31 | entry i is chosen exactly when the scaled draw lies in (PrefixSum(i), PrefixSum(i+1)], or in [0, PrefixSum(1)] for the first entry |
| Loot.FallbackUnreachable | Assets/Scripts/Data/LootTable.cs:32 | with exact arithmetic and a draw in [0, 1), the walk always finds an entry, so the last-entry fallback is never used |
| Loot.WalkCoversBelowTotal | Assets/Scripts/Data/LootTable.cs:26-32 | every pick in [0, total) is covered by some entry |
| Loot.ScaledDrawBelowTotal | Assets/Scripts/Data/LootTable.cs:25 | a draw in [0, 1) times a positive total lies in [0, total) |
| Loot.ZeroWeightChosenOnlyFirstAtZero | Assets/Scripts/Data/LootTable.cs:28-32 | an entry whose clamped weight is zero is chosen only as the first entry, and only for a zero draw |
| Loot.ClampAll | Assets/Scripts/Data/LootTable.cs:22-28 | the table with each weight replaced by its clamped value, entry for entry |
| Loot.NegativeWeightsActAsZero | Assets/Scripts/Data/LootTable.cs:22-28 | rolling a table equals rolling it with negative weights set to zero, in result and in draws taken |
| Loot.Roll | Assets/Scripts/Data/LootTable.cs:18-33 | the two loops and the early returns compute `RollResult` and take exactly its draws |
| Spawning.CenteredOffset | Assets/Scripts/Machines/SpawnGrid.cs:36-38 | `(u - 0.5) * size` for u in [0, 1) lies within half the size of zero, never on `+size/2` unless the size is zero |
| Spawning.RandomPointInBox | Assets/Scripts/Machines/SpawnGrid.cs:33-40 | x and z lie in the box's span around the center, excluding the `+size/2` end; y is always `center.y + size.y/2` |
| Spawning.RandomRotationY | Assets/Scripts/Machines/SpawnGrid.cs:42-46 | yaw in [0, 360), zero pitch and roll |
| Spawning.SpawnStep | Assets/Scripts/Machines/SpawnGrid.cs:17-29 | an iteration spawns exactly when the roll gives a definition with a prefab, tags the item with that definition, and takes the roll's draws plus three (x, z, yaw) for a spawn |
| Spawning.SpawnStepSound | Assets/Scripts/Machines/SpawnGrid.cs:17-29 | a spawned item has a prefab, comes from the table, and lies in the box with an upright random turn |
| Spawning.FilledSound | Assets/Scripts/Machines/SpawnGrid.cs:13-31 | n iterations spawn at most n items, take one draw per roll when the table can draw plus three per item, and every item is spawnable |
| Spawning.WeightlessTableFillsNothing | Assets/Scripts/Machines/SpawnGrid.cs:15-18 | a table that cannot draw spawns nothing and takes no draws, however many iterations |
| Spawning.SpawnGrid.constructor | Assets/Scripts/Machines/SpawnGrid.cs:10-11 | the default pit size (4, 2, 4) and an empty pit |
| Spawning.SpawnGrid.RollAndPlace | Assets/Scripts/Machines/SpawnGrid.cs:17-29 | one iteration's item and draws are those of `SpawnStep` |
| Spawning.SpawnGrid.FillPit | Assets/Scripts/Machines/SpawnGrid.cs:13-31 | the pit is extended by exactly the items of `max(count, 0)` iterations, in order, and the stream advances by their draws |
| Actuator.VerticalStep | Assets/Scripts/Machines/Grabber.cs:53-65 | a step never changes dropping; a dropping hook stays at or above the floor `baseY - maxDropDepth`; a lifting hook stays at or below `baseY` and stops lifting exactly there; with neither flag nothing moves |
| Actuator.StepStaysInTravel | Assets/Scripts/Machines/Grabber.cs:53-65 | with non-negative depth, speeds and step, the hook stays between floor and rest height |
| Actuator.StepsStayInTravel | Assets/Scripts/Machines/Grabber.cs:43-65 | any run of steps keeps the hook in its travel, never changes dropping and never starts a lift |
| Actuator.LiftReachesRest | Assets/Scripts/Machines/Grabber.cs:60-65 | a lift step that covers the remaining distance ends at rest height with lifting cleared |
| Actuator.Overlaid | Assets/Scripts/Machines/Grabber.cs:71-78 | the query's hits fill the front of the buffer, as many as fit; every later slot keeps its old entry |
| Actuator.StaleEntrySurvives | Assets/Scripts/Machines/Grabber.cs:76-78 | an entry of an earlier query survives a later query with fewer hits |
| Actuator.Grabber.constructor | Assets/Scripts/Machines/Grabber.cs:16-35 | the rest height is the hook's height on waking; inspector defaults; nothing moving |
| Actuator.Grabber.SetMove | Assets/Scripts/Machines/Grabber.cs:38-41 | only the move intent changes |
| Actuator.Grabber.BeginDrop | Assets/Scripts/Machines/Grabber.cs:68 | dropping set, lifting cleared |
| Actuator.Grabber.BeginLift | Assets/Scripts/Machines/Grabber.cs:69 | lifting set, dropping cleared |
| Actuator.Grabber.FixedUpdate | Assets/Scripts/Machines/Grabber.cs:53-65 | the new height and flags are `VerticalStep` of the old ones; never both flags, hook within its travel |
| Actuator.Grabber.OverlapPrizesNonAlloc | Assets/Scripts/Machines/Grabber.cs:71-79 | returns the same buffer; its contents become `Overlaid` of the old ones (a zero-length buffer is untouched) |
| Machine.Signed | Assets/Scripts/Machines/ClawMachineController.cs:84-87 | `RandomRangeSigned(mag)` lies in [-mag, mag), for non-negative mag |
| Machine.Drift | Assets/Scripts/Machines/ClawMachineController.cs:66-82 | a drift move fires exactly when the timer runs out, resets it to 0.35 s, takes two draws, and each component lies within the magnitude |
| Machine.DeadZoneKeepsOrZeroes | Assets/Scripts/Machines/ClawMachineController.cs:92 | the forwarded move is the input or zero; an input with a component at least the dead zone passes; one with both components below half of it is zeroed |
| Machine.DeadZoneByMagnitude | Assets/Scripts/Machines/ClawMachineController.cs:92 | for any magnitude `m` of the input: below the dead zone the forwarded move is zero, at or above it the input passes unchanged |
| Machine.AffordableIffCovered | Assets/Scripts/Machines/ClawMachineController.cs:156-161 | with non-negative balances, a play is affordable exactly when credits and tickets cover both costs |
| Machine.Charged | Assets/Scripts/Machines/ClawMachineController.cs:163-169 | an affordable play lowers credits and tickets by exactly their costs; balances never go negative or rise |
| Machine.Jitter | Assets/Scripts/Machines/ClawMachineController.cs:124 | the jitter lies in [-0.1, 0.1) |
| Machine.Chance | Assets/Scripts/Machines/ClawMachineController.cs:124 | the chance lies in [0, 1] and, for a strength in [0, 1], within 0.1 of it |
| Machine.ScanFrom | Assets/Scripts/Machines/ClawMachineController.cs:118-131 | a captured slot lies in the scanned range and holds a live prize collider |
| Machine.ScanIsFirstMatch | Assets/Scripts/Machines/ClawMachineController.cs:118-131 | capture is first-match in buffer order: the captured slot hits with its draws, every earlier eligible slot missed, each eligible slot scanned took two draws, and null or non-prize slots take none |
| Machine.ScanHitAt | Assets/Scripts/Machines/ClawMachineController.cs:118-131 | where the scan stops, which draws it used, and how many it took |
| Machine.ScanMissesBefore | Assets/Scripts/Machines/ClawMachineController.cs:121-129 | every eligible slot the scan passes over was a miss with its own two draws |
| Machine.StaleCapture | Assets/Scripts/Machines/ClawMachineController.cs:113-131 | a clamp whose query finds nothing can still capture a prize left in the buffer by an earlier clamp |
| Machine.Payout | Assets/Scripts/Machines/ClawMachineController.cs:185-197 | the prize id is recorded; rewards are added only when the id was not owned before |
| Machine.PayoutOnce | Assets/Scripts/Machines/ClawMachineController.cs:188-195 | paying the same definition a second time changes nothing |
| Machine.Refill | Assets/Scripts/Machines/ClawMachineController.cs:199-204 | the refill spawns at most one item, only when the table can draw; it takes two roll draws (the first discarded) plus three for a spawn; the item comes from the second roll and lies in the box |
| Machine.ClawMachineController.constructor | Assets/Scripts/Machines/ClawMachineController.cs:26-33 | Idle, timer zero, an 8-slot overlap buffer of nulls |
| Machine.ClawMachineController.Start | Assets/Scripts/Machines/ClawMachineController.cs:35-64 | the pit is filled by `PitInitialItems` iterations in `PitBounds`; the grabber gets the configured speeds and depth, its horizontal speed and other state kept; the state becomes Positioning |
| Machine.ClawMachineController.Update | Assets/Scripts/Machines/ClawMachineController.cs:66-82 | outside Positioning nothing changes; in Positioning the timer and draws follow `Drift`, and a fired drift replaces the stored move |
| Machine.ClawMachineController.HandleMoveInput | Assets/Scripts/Machines/ClawMachineController.cs:89-95 | outside Positioning the move is ignored; in Positioning the dead-zoned input is stored |
| Machine.ClawMachineController.CanAffordPlay | Assets/Scripts/Machines/ClawMachineController.cs:156-161 | true exactly when each positive cost is covered by its balance |
| Machine.ClawMachineController.ConsumePlayCost | Assets/Scripts/Machines/ClawMachineController.cs:163-169 | the balances become `Charged` of the old ones, with one change event per positive cost |
| Machine.ClawMachineController.HandleDrop | Assets/Scripts/Machines/ClawMachineController.cs:97-105 | outside Positioning, or when not affordable, state, balances, events and grabber are unchanged; otherwise both costs are paid exactly and the machine enters Dropping with the grabber dropping |
| Machine.ClawMachineController.DecideCapture | Assets/Scripts/Machines/ClawMachineController.cs:115-131 | the loop's target and draws are those of `ScanFrom` over the whole buffer |
| Machine.ClawMachineController.HandleClamp | Assets/Scripts/Machines/ClawMachineController.cs:107-149 | outside Dropping nothing changes; otherwise, with every hit carrying its own object's prize, the buffer is refilled as `Overlaid`, the scan decides the capture, a captured prize rides on the hook, and the machine always ends Lifting with the grabber lifting; a captured prize is never one already destroyed |
| Machine.ClawMachineController.HandleCancel | Assets/Scripts/Machines/ClawMachineController.cs:151-154 | changes nothing |
| Machine.ClawMachineController.Award | Assets/Scripts/Machines/ClawMachineController.cs:185-197 | inventory and balances become `Payout` of the old ones; reward events only for a new prize |
| Machine.ClawMachineController.RefillPit | Assets/Scripts/Machines/ClawMachineController.cs:199-204 | the pit and the stream advance as `Refill` says |
| Machine.ClawMachineController.ResolvePayout | Assets/Scripts/Machines/ClawMachineController.cs:171-207 | outside Lifting and Clamping nothing changes; otherwise a carried prize is paid out by `Payout` and destroyed, the pit is refilled, and the machine returns to Positioning with nothing on the hook |
| Machine.NeverResolving | Assets/Scripts/Machines/MachineStates.cs:11 | a machine in a valid state is never in `Resolving` |
| SimpleGrabber.ClosestIndex | Assets/Scripts/ClawGrabberSimple.cs:41-43 | the index `OrderBy(...).First()` takes: no candidate is nearer, and every earlier one is strictly farther (stable ordering) |
| SimpleGrabber.Chosen | Assets/Scripts/ClawGrabberSimple.cs:41-48 | only a nearest candidate's body can be taken, never the hook's own, never heavier than the limit; the nearest one is taken whenever it qualifies, a mass equal to the limit included |
| SimpleGrabber.ClawGrabberSimple.constructor | Assets/Scripts/ClawGrabberSimple.cs:8-25 | starts open and holding nothing, with the inspector defaults |
| SimpleGrabber.ClawGrabberSimple.IsOpen | Assets/Scripts/ClawGrabberSimple.cs:19 | true exactly when open |
| SimpleGrabber.ClawGrabberSimple.IsHolding | Assets/Scripts/ClawGrabberSimple.cs:20 | true exactly when a body is held |
| SimpleGrabber.ClawGrabberSimple.SetOpen | Assets/Scripts/ClawGrabberSimple.cs:27-31 | opening while holding releases the body with its physics restored; closing never changes what is held |
| SimpleGrabber.ClawGrabberSimple.TryAttachClosest | Assets/Scripts/ClawGrabberSimple.cs:33-62 | a no-op while open or holding; otherwise exactly the `Chosen` body, if any, is held, with both velocities zeroed, gravity off, kinematic on, and parented |
| SimpleGrabber.ClawGrabberSimple.Release | Assets/Scripts/ClawGrabberSimple.cs:64-75 | ends holding nothing; a released body is unparented, non-kinematic and has gravity |
| SimpleController.AscendFrom | Assets/Scripts/ClawSimpleController.cs:108-120 | the hook never goes above home or moves down; the ascent continues exactly while the hook is more than EPS below home; the routine ends with the hook exactly at home |
| SimpleController.Resumed | Assets/Scripts/ClawSimpleController.cs:85-121 | the grabber closes with one attach attempt exactly when the routine leaves the descent or pause; an ascent never goes back down; the hook stays between the floor `homeY - dropDistance` and home; descent stops within EPS of its target; a finished routine is exactly home |
| SimpleController.MovedAxis | Assets/Scripts/ClawSimpleController.cs:62-71 | with clamping on, the head ends inside ±bound; a move that stays inside is taken unchanged; without clamping every move is taken |
| SimpleController.ClawSimpleController.constructor | Assets/Scripts/ClawSimpleController.cs:29-41 | home is the hook's height on waking; the hook body becomes kinematic without gravity; idle |
| SimpleController.ClawSimpleController.LockMovement | Assets/Scripts/ClawSimpleController.cs:27-46 | movement is locked exactly when busy: `HookAtHome` (the hook within `EPS` of its home height, line 27) always holds for an idle claw, so the lock is the busy flag alone |
| SimpleController.ClawSimpleController.Update | Assets/Scripts/ClawSimpleController.cs:43-55 | a busy claw neither moves nor starts a drop; an idle one moves its head by `MovedAxis` and starts the routine exactly when the key goes down; the hook ends every frame under the head; a started routine leaves the grabber as `DropRoutine` does, letting go of a body held since the last drop and freezing a body taken; without a started routine no body is touched |
| SimpleController.ClawSimpleController.HandleMove | Assets/Scripts/ClawSimpleController.cs:57-74 | the head moves by direction × speed × dt on each axis, clamped when clamping is on, and the hook follows |
| SimpleController.ClawSimpleController.KeepHookUnderHeadXZ | Assets/Scripts/ClawSimpleController.cs:76-83 | the hook's x and z become the head's; its height is untouched |
| SimpleController.ClawSimpleController.DropRoutine | Assets/Scripts/ClawSimpleController.cs:85-99 | busy, one more drop, and the routine runs as `Resumed` from the descent; a body held since the last drop is let go with kinematics off, gravity on and unparented (unless this frame takes it again); the grabber is left open and empty, or, when the routine closes in this first frame, closed and holding the `Chosen` body, frozen on the hook (zero velocities, gravity off, kinematic, parented, mass kept); no other body is touched |
| SimpleController.ClawSimpleController.Resume | Assets/Scripts/ClawSimpleController.cs:92-121 | phase and height follow `Resumed`; closing happens between descent and ascent with exactly one attach attempt, holding the `Chosen` body, frozen on the hook (zero velocities, gravity off, kinematic, parented, mass kept); no other candidate body is touched; busy until the snap home |
| SimpleController.ClawSimpleController.CloseAndAttach | Assets/Scripts/ClawSimpleController.cs:104-106 | the grabber is closed and holds the `Chosen` body, if any, frozen on the hook (zero velocities, gravity off, kinematic, parented, mass kept); no other candidate body is touched; one attach attempt counted |
| SimpleController.ClawSimpleController.Ascend | Assets/Scripts/ClawSimpleController.cs:108-120 | phase and height follow `AscendFrom`; the snap clears busy |
| Services.ServiceLocator.constructor | Assets/Scripts/Core/ServiceLocator.cs:10 | the registry starts empty |
| Services.ServiceLocator.Register | Assets/Scripts/Core/ServiceLocator.cs:12-15 | null throws `ArgumentNullException` and changes nothing; otherwise the instance replaces any earlier one for that type, `Get` returns it, and no other type's lookup changes |
| Services.ServiceLocator.Get | Assets/Scripts/Core/ServiceLocator.cs:17-22 | returns the registered instance exactly for a registered type, otherwise throws `InvalidOperationException` |
| Services.ServiceLocator.TryGet | Assets/Scripts/Core/ServiceLocator.cs:24-33 | true with the instance exactly when `Get` would return it, otherwise false with null |
| Spawner.HighestBitBounds | Assets/Scripts/PrizeSpawner.cs:48-54 | for a positive value v the loop's count r satisfies 2^r ≤ v < 2^(r+1): the highest set bit |
| Spawner.HighestBitUnique | Assets/Scripts/PrizeSpawner.cs:48-54 | the highest set bit is the only exponent bracketing the value |
| Spawner.HighestBitOfPow2 | Assets/Scripts/PrizeSpawner.cs:52 | the value 2^k gives k |
| Spawner.HighestBitOfInt32 | Assets/Scripts/PrizeSpawner.cs:50-53 | an `int` mask never gives a layer above 30 |
| Spawner.PrizeSpawner.constructor | Assets/Scripts/PrizeSpawner.cs:5-10 | 25 initial spawns by default; nothing spawned |
| Spawner.PrizeSpawner.LayerMaskToLayer | Assets/Scripts/PrizeSpawner.cs:48-54 | the loop terminates with the highest set bit of the mask, in [0, 30]; zero, one and negative masks give 0 |
| Spawner.PrizeSpawner.SpawnOne | Assets/Scripts/PrizeSpawner.cs:18-46 | one object is spawned on the ground mask's layer |
| Spawner.PrizeSpawner.Start | Assets/Scripts/PrizeSpawner.cs:12-16 | exactly `max(initialCount, 0)` spawns, each on the ground mask's layer |

## Left out

- Physics:
  - the grabber's horizontal velocity and sway torque;
  - the rigidbody settings other than the ones the simple grabber toggles;
  - `SetParent` world poses.

  Overlap queries are given to the model as input sequences. For the simple
  grabber, each candidate's squared `ClosestPoint` distance is also an input.
- Float rounding and `Mathf.Approximately`: all arithmetic is exact.
- Engine scheduling: `Invoke`, coroutines and `WaitForSeconds`. They become
  explicit `ResolvePayout` and `Resume` calls.
- Rendering and UI: the UI events and hint strings of the controller, the
  gizmos, and the prize spawner's meshes, scale, position, rotation,
  materials and physics material. `UnityEngine.Random` feeds only those, so
  it is left out too.
- The `ServiceLocator` lookups in the controller's `Start` are not modelled;
  the economy and inventory services are constructor arguments instead.
- Null configuration or table references are not modelled: the controller
  always has its config and table.
- A pit item's rigidbody settings and the `PrizeItem` component lookup are
  not modelled; the item records its definition instead.
- Economy.Add: credits and tickets are unbounded integers, so the 32-bit
  overflow of `int` addition is not modelled.
- Economy.EconomyService.AddCredits: same unbounded-integer limitation as
  `Economy.Add`.
- Economy.EconomyService.AddTickets: same unbounded-integer limitation as
  `Economy.Add`.
- Loot.FallbackUnreachable: holds only for exact arithmetic. With `float`
  rounding the scaled draw can exceed the last prefix sum, and the fallback
  can then be taken.
- Spawning.RandomPointInBox: the `(float)` casts of the draws are not
  modelled. In floats a draw close to 1 can round to the `+size/2` end.
- Machine.DeadZoneKeepsOrZeroes: the magnitude is compared squared instead
  of through a square root. This is the same test for a non-negative dead
  zone; `Machine.DeadZoneByMagnitude` states it on the magnitude itself.
- Actuator.Grabber.FixedUpdate: lifting stops on exact equality with the
  rest height, where the game uses `Mathf.Approximately`. The grabber's
  speeds and depth are non-negative by type, as `MachineConfig` guarantees
  for the values `Start` gives it.
- SimpleController.ClawSimpleController.HandleMove: takes the normalised
  input direction as given. The normalisation, a square root, is not
  modelled.
- SimpleController.Resumed: the settle pause counts down by each frame's
  time and the routine resumes in the frame that uses it up. This
  approximates the engine's `WaitForSeconds`.
- SimpleController.ClawSimpleController: `descendSpeed` and `ascendSpeed`
  are non-negative by type, where the game leaves them unbounded. The
  inspector settings are fixed after waking.
- SimpleController.ClawSimpleController.Update: the controller's coroutine
  runs once per frame after `Update`. That frame order is left to the
  caller, which calls `Resume` on every later frame while the claw is busy.
- SimpleController.ClawSimpleController.KeepHookUnderHeadXZ: the hook's
  horizontal position is kept as an offset from the head, with the head
  taken as unrotated and unscaled; world and local coordinates are not
  told apart.
- Services.ServiceLocator: a type is an abstract tag, and the `(T)` cast
  always succeeds because instances are keyed by their own type.
- `ClawVisual`, `HUDController`, `TicketManager`, `DeliveryZone`,
  `ClawInput`, `GameDirector` and `CollectionDef` are not part of this
  model. They hold rendering, UI, input mapping and bootstrap code.

# Blackout weapon, bullet and ban core in Dafny

This project models three parts of the Blackout game.

- **The client weapon controller**, `FPSController` (src/client/controllers/fps.ts).
  - Its `FPSState` record, the current weapon's data and `mouseDown` are the fields of the class `Fps.FPSController`.
  - Its methods are guarded updates of those fields: inventory slots, equipping, aiming, inspecting, reloading, and shooting with the `pew` closure and the Bolt/Semi/Auto/Burst firing loops.
  - Each method is proved to move the controller to the state given by a pure function of `FpsSpec` on a value snapshot.
  - The methods other code calls also keep `FpsSpec.Inv`. The steps inside `shoot` (`pew`, `calculateRecoil`, the cooldown wait and the firing loops) carry no invariant clause of their own; `shoot` as a whole keeps it (`FpsProperties.ShootKeepsInv`).
  - The invariant says the magazine and reserve are never negative, the magazine never exceeds `magSize + chamber`, and no reload is left half done.
  - `FpsProperties` proves what the source promises about these functions:
    - the reload guards and arithmetic;
    - one cartridge and one recoil kick per round;
    - the rounds fired per firemode;
    - the recoil kicks and their compensations.
- **The server bullet service**, `Bullets` (src/server/services/Bullets.ts).
  - `BulletsSpec` states these rules as functions:
    - the material damping table and divisor;
    - the pierce predicate;
    - the thickness-axis rule;
    - the life of each `create` call: the cast it fires, the part the cache lends it, and what its `RayHit`, `RayPierced` and `LengthChanged` handlers and its 6-second timer hold.
  - `Bullets.BulletService` is the service as a class. Its `LengthChanged` handler is the corrected one described under Findings.
  - `BulletsProperties` proves:
    - when damping slows a bullet and when it speeds it up;
    - which axis the thickness rule picks;
    - that over any run of the service, with the `LengthChanged` handler as written or corrected, the `InUse` guards never return a part to the cache more often than it was lent (`ReturnedAtMostOncePerLending`, from `RunKeepsBalance`);
    - that with the corrected handler every run also keeps the stronger invariant in which each handler records only its own cast's part, so a timer can only return that part (`RunKeepsInv`, `TimeoutReturnsOwnPart`);
    - that this part may by then be out on a later lending: the cache can lend a returned part again, and an earlier bullet's timer then returns it while the later bullet flies on it (`RecycledPartStaleTimeout`).
- **The ban service**, `BanService` (src/server/services/player/ban-service.ts).
  - The profile store is a map from user id to `banInfo`.
  - The removal service is a log of removal requests.
  - `ban`, `unban` and the admission rule of `onPlayerAdded` act on these two.

Values are Dafny `real`s, with no floating-point rounding. The `Random` draws, the mouse input during each cooldown wait, the menu state, the weapon data shown by the view model, and the part the cache lends are all inputs.

The code does the following, which its names alone would not suggest:

- A Burst trigger pull runs `for (i = 0; i <= burstCount && mouseDown; i++)` at fps.ts:410-417.
  - It fires `burstCount + 1` rounds when the trigger is held; `BurstFiresOneExtra` proves this.
  - It fires no round when the trigger is already released at entry.
- An empty click inside `pew` sets `mouseDown = false` and `shooting = false` and reloads. With no mouse event during the following cooldown, the Auto or Burst loop then ends (`EmptyClickEndsLoops`). A press during that cooldown continues the loop, with `shooting` already lowered.
- Damping divides the velocity by `factor * size / 1.25`. This speeds the bullet up when `factor * size < 1.25`, so it does not always slow it down (see `DampenSpeedChange`).
- The thickness axis is the first axis whose normal component has a non-zero `math.floor`. It is not the axis the normal is most aligned with (see `ThicknessIgnoresAlignment`).
- The 6-second timer returns the part its `bulletInstance` names and disconnects two handlers. It does not end the cast, and the hit handler stays connected.
- `cancelInspect` only asks the animation to stop. `inspecting` is lowered later, by the animation's `Stopped` handler.

## Model

| member | source | states |
|---|---|---|
| Fps.FPSController.constructor | src/client/controllers/fps.ts:63-84 | the initial state: nothing equipped, Semi, empty magazine and reserve, every flag down |
| Fps.FPSController.AddWeapon | src/client/controllers/fps.ts:135-137 | writes `weapons[slot-1]` and keeps the invariant |
| Fps.FPSController.RemoveWeapon | src/client/controllers/fps.ts:144-146 | clears `weapons[slot-1]` and keeps the invariant |
| Fps.FPSController.Unequip | src/client/controllers/fps.ts:151-161 | lowers `equipped`, drops the current weapon and its slot |
| Fps.FPSController.Equip | src/client/controllers/fps.ts:168-200 | nothing with the menu active or an empty slot; else loads the weapon's data, first firemode, magazine and reserve, and reports the ammo; keeps the invariant for well-formed data |
| Fps.FPSController.EquipAnimationStopped | src/client/controllers/fps.ts:212-216 | the equip animation's end raises `equipped` |
| Fps.FPSController.CancelInspect | src/client/controllers/fps.ts:223-226 | asks for a stop exactly when an inspection runs, changing no field |
| Fps.FPSController.Inspect | src/client/controllers/fps.ts:231-243 | the guarded start of an inspection, which also lowers aim |
| Fps.FPSController.InspectAnimationStopped | src/client/controllers/fps.ts:244-249 | the inspect animation's end lowers `inspecting` |
| Fps.FPSController.CancelReload | src/client/controllers/fps.ts:266-273 | when equipped with a weapon and reloading, raises `reloadCancelled` and lowers it again, so it ends lowered; otherwise nothing changes |
| Fps.FPSController.Reload | src/client/controllers/fps.ts:278-307 | the guarded reload, statement by statement, keeping the invariant |
| Fps.FPSController.Aim | src/client/controllers/fps.ts:314-319 | the guarded change of `aimed` |
| Fps.FPSController.CalculateRecoil | src/client/controllers/fps.ts:430-462 | logs the round's kicks when equipped |
| Fps.FPSController.Pew | src/client/controllers/fps.ts:367-393 | one round, or the empty click that releases the trigger and reloads |
| Fps.FPSController.CooldownWait | src/client/controllers/fps.ts:401-416 | a mouse event during the wait sets `mouseDown`; without one `mouseDown` keeps its value, so the empty click's release stands |
| Fps.FPSController.FireAuto | src/client/controllers/fps.ts:403-408 | the do-while loop ends in the state and round count of `FpsSpec.AutoFrom` |
| Fps.FPSController.FireBurst | src/client/controllers/fps.ts:409-418 | the for loop ends in the state and round count of `FpsSpec.BurstFrom` |
| Fps.FPSController.Fire | src/client/controllers/fps.ts:397-419 | dispatches on the firemode |
| Fps.FPSController.Shoot | src/client/controllers/fps.ts:354-425 | `shoot` with its guards, empty-magazine reload, throw and final `shooting = false`, keeping the invariant |
| FpsSpec.WriteSlot | src/client/controllers/fps.ts:136-145 | writing index `i` sets that slot, leaves every other slot as it was, and pads the array with holes |
| FpsSpec.Refill | src/client/controllers/fps.ts:292-303 | the transfer conserves `mag + reserve`, leaves `reserve >= 0`, and fills `mag` by `min(reserve, target - mag)` |
| FpsSpec.Reload | src/client/controllers/fps.ts:278-307 | the guarded reload on a snapshot; its guards, transfer and totals are stated by `ReloadRefusedIsNoOp`, `ReloadTransfer` and `ReloadTotal` |
| FpsSpec.Pew | src/client/controllers/fps.ts:367-393 | one `pew` on a snapshot; stated by `PewFacts` |
| FpsSpec.AutoFrom | src/client/controllers/fps.ts:403-408 | the Auto loop from its `i`-th iteration; stated by `AutoFromFacts`, `AutoFullCount`, `AutoEmptiesMagazine` and `EmptyClickEndsLoops` |
| FpsSpec.BurstFrom | src/client/controllers/fps.ts:409-418 | the Burst loop from its `i`-th iteration; stated by `BurstFromFacts`, `BurstFullCount` and `EmptyClickEndsLoops` |
| FpsSpec.Shoot | src/client/controllers/fps.ts:354-425 | `shoot` on a snapshot; stated by `ShootOutcomes`, `ShootConservesAmmo`, `ShootKeepsInv` and the per-firemode lemmas |
| FpsSpec.Recoil | src/client/controllers/fps.ts:434-461 | torque is ±1; stabilization is 1.8 aimed and 1 otherwise; each compensation negates its kick; the view model draws from the camera ranges and the camera from the model ranges |
| FpsProperties.InitialSatisfiesInv | src/client/controllers/fps.ts:63-84 | the initial state satisfies the invariant |
| FpsProperties.FlagStepsKeepInv | src/client/controllers/fps.ts:135-319 | the flag and inventory operations keep the invariant |
| FpsProperties.EquipKeepsInv | src/client/controllers/fps.ts:168-200 | equipping a weapon whose data is well formed keeps the invariant: the loaded magazine is non-negative and within capacity |
| FpsProperties.EquipLoadsWeapon | src/client/controllers/fps.ts:168-200 | no-op when the menu is active or the slot is empty; else sets the slot, weapon and first firemode, sets `mag = magSize` with no chamber bonus and `reserve = stats.reserve`, and leaves `equipped` unchanged |
| FpsProperties.EquipStateChanges | src/client/controllers/fps.ts:151-216 | `unequip` drops weapon and slot and lowers `equipped`; only the animation's end raises it |
| FpsProperties.InventoryWrites | src/client/controllers/fps.ts:135-146 | `addWeapon`/`removeWeapon` write index `slot-1` and nothing else |
| FpsProperties.AimSetsAim | src/client/controllers/fps.ts:314-319 | no-op unless equipped with a weapon and `aimed != on`; afterwards `aimed == on`; nothing else changes |
| FpsProperties.InspectRaisesFlag | src/client/controllers/fps.ts:231-249 | a guarded inspection raises `inspecting`, lowers aim and keeps ammo; its animation's end lowers it |
| FpsProperties.ReloadRefusedIsNoOp | src/client/controllers/fps.ts:279-287 | any of the seven guards makes `reload` change nothing |
| FpsProperties.ReloadNeverSticks | src/client/controllers/fps.ts:288-291 | the early return leaves `reloading` raised, and it is unreachable from a state satisfying the invariant |
| FpsProperties.ReloadTransfer | src/client/controllers/fps.ts:288-306 | a reload conserves ammunition, keeps `reserve >= 0`, never lowers `mag`, fills to at most the target and capacity, reports the ammo and ends with `reloading` false |
| FpsProperties.ReloadKeepsInv | src/client/controllers/fps.ts:278-307 | `reload` keeps the invariant and the ammunition total |
| FpsProperties.ReloadScenarios | src/client/controllers/fps.ts:292-303 | a 30+1 magazine: 0/60 becomes 30/30, 25/10 becomes 31/4, 25/3 becomes 28/0 |
| FpsProperties.PewFacts | src/client/controllers/fps.ts:367-393 | a round is fired exactly when equipped with a loaded magazine; it takes exactly one cartridge and one kick; an empty magazine releases the trigger, lowers `shooting` and reloads |
| FpsProperties.AutoFromFacts | src/client/controllers/fps.ts:403-408 | the Auto loop fires at least one round when loaded, at most one round per attempt, adds one recoil per round, and conserves ammunition plus rounds |
| FpsProperties.AutoFullCount | src/client/controllers/fps.ts:403-408 | with the button never released before the `k`-th cooldown, released during it, and rounds enough, the Auto loop fires exactly `k + 1 - i` rounds and ends with the button up |
| FpsProperties.ReloadKeepsTrigger | src/client/controllers/fps.ts:278-307 | `reload` changes neither `mouseDown` nor `shooting` |
| FpsProperties.EmptyClickEndsLoops | src/client/controllers/fps.ts:370-376 | an empty click with no mouse event in its cooldown ends the Auto and the Burst loop with no round, in the reloaded state with `mouseDown` and `shooting` lowered |
| FpsProperties.AutoEmptiesMagazine | src/client/controllers/fps.ts:403-408 | holding the button with no other event, the Auto loop fires every round in the magazine, then the empty click ends it with `mouseDown` and `shooting` lowered |
| FpsProperties.AutoFromKeeps | src/client/controllers/fps.ts:403-408 | the Auto loop keeps the equipped slot, the weapon and the firemode, and keeps the invariant |
| FpsProperties.BurstFromFacts | src/client/controllers/fps.ts:409-418 | the Burst loop fires nothing with the trigger released and at most `limit + 1 - i` rounds from iteration `i` |
| FpsProperties.BurstFullCount | src/client/controllers/fps.ts:410-417 | with the trigger held and rounds enough, the Burst loop fires exactly `limit + 1 - i` rounds |
| FpsProperties.FireConserves | src/client/controllers/fps.ts:397-419 | every firemode conserves ammunition plus rounds, logs one kick per round and keeps the invariant |
| FpsProperties.FireRounds | src/client/controllers/fps.ts:397-419 | Bolt and Semi fire one round, Auto at least one and at most one per attempt, Burst at most its limit plus one and none unless the trigger is held |
| FpsProperties.ShootOutcomes | src/client/controllers/fps.ts:354-424 | refused `shoot` changes nothing; an empty magazine fires nothing and only reloads; a normal return leaves `shooting` false; the throw leaves it raised |
| FpsProperties.ShootConservesAmmo | src/client/controllers/fps.ts:354-425 | rounds fired plus the ammunition left equal the ammunition before; one kick per round |
| FpsProperties.ReloadTotal | src/client/controllers/fps.ts:278-307 | `reload` conserves the ammunition total and logs no kick |
| FpsProperties.ShootKeepsInv | src/client/controllers/fps.ts:354-425 | `shoot` keeps the invariant |
| FpsProperties.ShootRoundsByFiremode | src/client/controllers/fps.ts:397-419 | Bolt/Semi fire one round; Auto at least one; Burst none with the trigger released and at most `(burstCount ?? 3) + 1` |
| FpsProperties.BurstFiresOneExtra | src/client/controllers/fps.ts:410-417 | a held Burst with enough rounds fires exactly `(burstCount ?? 3) + 1` rounds |
| FpsProperties.AutoFiresWhileHeld | src/client/controllers/fps.ts:403-408 | an Auto `shoot` whose button is released during the `k`-th cooldown, with rounds enough, fires exactly `k + 1` rounds |
| FpsProperties.AutoShootEmptiesMagazine | src/client/controllers/fps.ts:354-425 | an Auto `shoot` held with no other mouse event fires the whole magazine, then ends through the empty click with `mouseDown` and `shooting` lowered |
| BulletsSpec.DampingFactor | src/server/services/Bullets.ts:57-87 | 1.55 for the metals, 1.3 for masonry, 1.05 for glass, ice and force fields, 1.15 for any other material, always above 1 |
| BulletsSpec.Divisor | src/server/services/Bullets.ts:89 | the divisor is non-zero, and on a positive size above 1 exactly when `factor * size > 1.25` |
| BulletsSpec.CanPierce | src/server/services/Bullets.ts:115-124 | false exactly when the part is fully transparent without a Humanoid model, or `Impenetrable`, or the speed is below 300 |
| BulletsSpec.Thickness | src/server/services/Bullets.ts:139-145 | one of the part's three extents |
| BulletsSpec.Start | src/server/services/Bullets.ts:16 | the cache exists |
| BulletsSpec.PlayerAdded | src/server/services/Bullets.ts:20 | the user gets a caster no other user or earlier cast has; other entries are unchanged |
| BulletsSpec.PlayerRemoving | src/server/services/Bullets.ts:21 | the user's entry is deleted; other entries are unchanged |
| BulletsSpec.LaunchOf | src/server/services/Bullets.ts:108-126 | fires from the origin raised 0.05 on Y, with acceleration `(0, -gravity, 0)` and `MaxDistance` 1000 |
| BulletsSpec.Create | src/server/services/Bullets.ts:92-156 | no cast and no change without a cache, a caster or a character; else a new cast on the player's caster, with the lent part in use and logged |
| BulletsSpec.ResetBullet | src/server/services/Bullets.ts:24-27 | the part's velocity is zeroed and, once the cache exists, the part is returned |
| BulletsSpec.LengthChangedAsWritten | src/server/services/Bullets.ts:98-102 | a live handler stores the moving cast's part, whichever cast of the caster moved |
| BulletsSpec.LengthChanged | src/server/services/Bullets.ts:98-102 | corrected: a handler stores only its own cast's part |
| BulletsSpec.RayHit | src/server/services/Bullets.ts:128-134 | the handler disconnects first; for a part in use it requests the effect facing the normal and returns the part; otherwise nothing changes |
| BulletsSpec.RayPierced | src/server/services/Bullets.ts:135-148 | for a part in use: the effect faces the negated normal, and the cast gets the damped velocity from the material and the thickness; otherwise nothing changes |
| BulletsSpec.Timeout | src/server/services/Bullets.ts:149-155 | returns at most the part in `bulletInstance`; disconnects pierce and length handlers, not the hit handler |
| BulletsProperties.DampenSpeedChange | src/server/services/Bullets.ts:89 | a moving bullet slows exactly when `factor * size > 1.25` and speeds up exactly when `factor * size < 1.25` |
| BulletsProperties.ThinPartsSpeedUp | src/server/services/Bullets.ts:56-89 | every material speeds up a bullet through a part at most 0.8 thick |
| BulletsProperties.ThickPartsSlowDown | src/server/services/Bullets.ts:56-89 | every material slows a bullet through a part at least 1.2 thick |
| BulletsProperties.FloorOnUnitInterval | src/server/services/Bullets.ts:140-142 | for a component in [-1, 1], `math.floor` is non-zero exactly when it is negative or exactly 1 |
| BulletsProperties.ThicknessOnUnitNormal | src/server/services/Bullets.ts:139-145 | on a unit normal the X, Y, Z tests pick the first axis whose component is negative or exactly 1 |
| BulletsProperties.ThicknessOnFaceNormals | src/server/services/Bullets.ts:139-145 | each of the six face normals picks its own axis |
| BulletsProperties.ThicknessIgnoresAlignment | src/server/services/Bullets.ts:139-145 | the normal (0.6, 0.8, 0) picks Z |
| BulletsProperties.BalancedBoundsReturns | src/server/services/Bullets.ts:131-151 | with returns plus parts out equal to lendings, no part is returned more often than lent, and a part in use fewer times |
| BulletsProperties.InitialInv | src/server/services/Bullets.ts:10-11 | the service starts balanced |
| BulletsProperties.LendKeepsBalance | src/server/services/Bullets.ts:110-126 | lending a free part keeps the balance |
| BulletsProperties.ResetKeepsBalance | src/server/services/Bullets.ts:24-27 | returning a part in use keeps the balance |
| BulletsProperties.CreateKeepsInv | src/server/services/Bullets.ts:92-156 | `create` keeps the invariant |
| BulletsProperties.RayHitKeepsInv | src/server/services/Bullets.ts:128-134 | the hit handler keeps the invariant |
| BulletsProperties.RayPiercedKeepsInv | src/server/services/Bullets.ts:135-148 | the pierce handler keeps the invariant |
| BulletsProperties.LengthChangedKeepsInv | src/server/services/Bullets.ts:98-102 | the corrected length handler keeps the invariant |
| BulletsProperties.TimeoutKeepsInv | src/server/services/Bullets.ts:149-155 | the timer keeps the invariant |
| BulletsSpec.Step | src/server/services/Bullets.ts:13-155 | one hook, `create` or handler event, with the `LengthChanged` handler as written or corrected; stated by `StepKeepsBalance` and `StepKeepsInv` |
| BulletsSpec.Run | src/server/services/Bullets.ts:13-155 | a sequence of events, or `None` when one cannot happen; stated by `RunKeepsBalance`, `RunKeepsInv` and `ReturnedAtMostOncePerLending` |
| BulletsProperties.StepKeepsBalance | src/server/services/Bullets.ts:13-155 | with either handler, every hook, `create` and handler event keeps lendings equal to returns plus parts in use |
| BulletsProperties.RunKeepsBalance | src/server/services/Bullets.ts:13-155 | with either handler, every run of events keeps that balance |
| BulletsProperties.StepKeepsInv | src/server/services/Bullets.ts:13-155 | with the corrected handler, every hook, `create` and handler event keeps the whole invariant |
| BulletsProperties.RunKeepsInv | src/server/services/Bullets.ts:13-155 | with the corrected handler, every run of events keeps the whole invariant |
| BulletsProperties.ReturnedAtMostOncePerLending | src/server/services/Bullets.ts:131-151 | from the start, with the handler as written or corrected, no part is returned more often than it was lent, and a part in use has been returned fewer times |
| BulletsProperties.TimeoutReturnsOwnPart | src/server/services/Bullets.ts:149-151 | with the corrected handler, a timeout returns nothing or its own cast's part |
| BulletsProperties.HitHandlerRunsOnce | src/server/services/Bullets.ts:128-129 | after its first hit, a hit handler ignores every later hit |
| BulletsProperties.TimeoutRunsOnce | src/server/services/Bullets.ts:149-155 | a second firing of the timer changes nothing |
| BulletsProperties.SharedCasterReturnsForeignPart | src/server/services/Bullets.ts:95-151 | as written, the first of two bullets on one caster returns the second one's in-flight part, keeps its own out, and the second's hit then requests no effect |
| BulletsProperties.OwnCastTimeoutReturnsOwnPart | src/server/services/Bullets.ts:98-151 | with the corrected handler, the same events return the first bullet's own part |
| BulletsProperties.RecycledPartStaleTimeout | src/server/services/Bullets.ts:92-155 | with the corrected handler, a run from the start in which part 10 is lent, hit, returned and lent again ends with the first bullet's timer returning 10 while the second bullet holds it, whose hit then requests no effect |
| Bullets.BulletService.constructor | src/server/services/Bullets.ts:10-11 | the service before `onStart` |
| Bullets.BulletService.Start | src/server/services/Bullets.ts:16 | creates the cache, keeping the invariant |
| Bullets.BulletService.PlayerAdded | src/server/services/Bullets.ts:20 | adds the user's caster, keeping the invariant |
| Bullets.BulletService.PlayerRemoving | src/server/services/Bullets.ts:21 | drops the user's caster, keeping the invariant |
| Bullets.BulletService.ResetBullet | src/server/services/Bullets.ts:24-27 | zeroes the velocity and returns the part, keeping the balance for a part in use |
| Bullets.BulletService.Create | src/server/services/Bullets.ts:92-156 | `create`, with the outcomes of `BulletsSpec.Create` (no cache, no caster, no character, or a new cast), keeping the invariant |
| Bullets.BulletService.LengthChanged | src/server/services/Bullets.ts:98-102 | the corrected length handler, keeping the invariant |
| Bullets.BulletService.RayHit | src/server/services/Bullets.ts:128-134 | the hit handler, keeping the invariant |
| Bullets.BulletService.RayPierced | src/server/services/Bullets.ts:135-148 | the pierce handler, keeping the invariant |
| Bullets.BulletService.Timeout | src/server/services/Bullets.ts:149-155 | the 6-second timer, keeping the invariant |
| Ban.RemovalOnJoin | src/server/services/player/ban-service.ts:16-25 | no removal without a profile or for a record that is unbanned with reason `Unbanned`; else a removal with the record's reason |
| Ban.WithBan | src/server/services/player/ban-service.ts:28-31 | with a profile, the user's record becomes banned with the given reason; other users and missing profiles are unchanged |
| Ban.WithoutBan | src/server/services/player/ban-service.ts:41-44 | with a profile, the user's record becomes unbanned with reason `Unbanned`; other users and missing profiles are unchanged |
| Ban.BanThenJoinRemoved | src/server/services/player/ban-service.ts:19-31 | after `ban`, joining removes the user with the ban's reason |
| Ban.UnbanThenJoinAdmitted | src/server/services/player/ban-service.ts:19-44 | after `unban`, joining removes nobody |
| Ban.StaleReasonRemoves | src/server/services/player/ban-service.ts:19-24 | an unbanned record that still names a reason removes the user |
| Ban.OtherUsersUnaffected | src/server/services/player/ban-service.ts:28-44 | banning or unbanning one user does not change another user's admission |
| Ban.UnbanUndoesBan | src/server/services/player/ban-service.ts:28-44 | `unban` after `ban` equals `unban` alone, and `unban` is idempotent |
| Ban.BanService.constructor | src/server/services/player/ban-service.ts:10-14 | the store holds the given profiles and no removal yet |
| Ban.BanService.OnPlayerAdded | src/server/services/player/ban-service.ts:16-25 | logs exactly the removal `RemovalOnJoin` names; profiles unchanged |
| Ban.BanService.Ban | src/server/services/player/ban-service.ts:27-32 | writes the ban and logs a removal with its reason, only for a user with a profile |
| Ban.BanService.Unban | src/server/services/player/ban-service.ts:40-45 | clears the ban, only for a user with a profile; logs nothing |

## Left out

- Engine work is not modelled, because it has nothing to state beyond "was called". This covers models, motors, offsets, sounds, animation tracks, tweens, the crosshair, tracers, muzzle flashes and shells in fps.ts, and `createContainer`/`createImpactVFX` in Bullets.ts, which are logged as impact requests.
- `onStart` and `onRender` of fps.ts, and the `Recoil` component's kick/decay maths, are not part of this model. Only the arguments of each kick are logged.
- The `sprinting`, `crouched`, `proned` and `lean` fields are not modelled, because no modelled method reads or writes them.
- `melee` (fps.ts:256-261) and `toggleTriggerPull` (fps.ts:336-349) are not modelled. They only call `cancelReload`/`cancelInspect` or drive an animation.
- Time is not modelled. Each `task.wait(fireSpeed)` is a step whose mouse input comes from the `inputs` trace: no event, or the button state the last event left. The 6 s timer of Bullets.ts is an event. `task.wait(.1)` in `inspect` is dropped, because nothing follows it that the model keeps. The 0.12 s delay before each recoil compensation is dropped too: each compensation is logged in the same `RecoilShot` as its kick. Other controller actions that could run during these waits are not interleaved.
- Fps.FPSController.Shoot: the firing loops are bounded by the finite `inputs` trace, and the button counts as released once the trace ends. A button held forever is not modelled.
- Fps.FPSController.Equip: keeps the invariant only for weapon data with non-negative magazine, chamber and reserve. The view model's data is not checked in the source.
- Fps.FPSController.CancelInspect: returns whether it asked the animation to stop. The stop itself and the later `Stopped` event are the separate `InspectAnimationStopped`.
- `Random` is an input. `FpsSpec.DrawFits` states the ranges a draw falls in, and the recoil contract relates the kicks to the tables only for draws that fit.
- FastCast and PartCache are foreign libraries and are not part of this model. The model assumes the cache lends only a part not in use, and that `ReturnPart` makes it not in use, as the `InUse` attribute shows. Trajectory stepping, raycasting, the `LengthChanged` position update, the ray filter, `VisualizeCasts`, and pool capacity are not modelled.
- Cast termination is not modelled: any handler may hear any event of a cast on its own caster, in any order. The invariants are proved for every such order.
- BulletsSpec.RayPierced: requires every side of the struck part to be positive, so the divisor is never zero. The engine guarantees positive part sizes.
- BulletsProperties.DampenSpeedChange: stated for a moving bullet (`NormSquared(v) > 0`) and a positive thickness.
- The second `segVelocity.Magnitude < 300` test at Bullets.ts:121 cannot change the result. Its `print` is left out.
- `onStart`'s `createBullet` network connection is not modelled: `Create` is the handler it connects.
- The stale timer at Bullets.ts:149-151 is left as written. It checks only the part's `InUse` attribute, which cannot tell the lending its own cast received from a later lending of the same part, so it can return a part another bullet holds (`RecycledPartStaleTimeout`). A fix needs state per lending that the source does not keep.
- A `create` for a player with no character throws at Bullets.ts:105 after connecting its `LengthChanged` handler (Bullets.ts:98). That handler stays connected. It writes only its own closure's `bulletInstance`, which no timer reads, and moves parts, whose positions are not modelled, so the model leaves the state unchanged.
- Ban: `getProfile` (used by `onPlayerAdded` and `ban`) and `loadProfile` (used by `unban`) are modelled as the same map. Profile loading, its asynchrony and session locking are not part of this model, nor are the Discord log in `ban` and the real player removal.

## Findings

| source | as written | input that shows it | evidently intended | confidence | as-written member | corrected member |
|---|---|---|---|---|---|---|
| src/server/services/Bullets.ts:95-102 | every `create` connects its `LengthChanged` handler to the player's one shared caster, so the handler stores the part of whichever cast of that player moved last in its `bulletInstance` | one player fires bullet A on part 10, then bullet B on part 11; A's handler hears A and then B move; A's 6-second timer then returns part 11 while B is still flying, keeps part 10 out of the cache, and B's later hit finds its part not in use and requests no impact effect | each handler records only its own cast's part | not executed | BulletsProperties.SharedCasterReturnsForeignPart | BulletsSpec.LengthChanged |

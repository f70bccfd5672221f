/**
 * `FPSController` (src/client/controllers/fps.ts): the fields of its `FPSState`
 * record, the data of the current weapon and `mouseDown`, updated in place by
 * guarded methods. Each method is proved to move the controller from one snapshot
 * to the one the matching function of FpsSpec gives. The methods other code calls
 * also keep FpsSpec.Inv; the steps inside `shoot` (`Pew`, `CalculateRecoil`,
 * `CooldownWait` and the firing loops) have no invariant clause of their own, and
 * `Shoot` as a whole keeps it.
 */
module Fps {
  import opened Shared
  import S = FpsSpec
  import P = FpsProperties

  class FPSController {
    var weapons: seq<Option<string>>
    var equipped: bool
    var currentSlot: Option<S.Slot>
    /** The data of `currentWeapon`; its model, effects and animation tracks are engine objects. */
    var current: Option<S.WeaponData>
    var firemode: S.Firemode
    var mag: int
    var reserve: int
    var aimed: bool
    var shooting: bool
    var reloading: bool
    var reloadCancelled: bool
    var inspecting: bool
    var mouseDown: bool
    /** Every `events.ammoChanged.Fire(ammo)`, in order. */
    var ammoEvents: seq<S.Ammo>
    /** Every round's kicks of the view-model and camera recoil, with their compensations. */
    var recoilShots: seq<S.RecoilShot>

    function Snapshot(): S.State
      reads this
    {
      S.State(weapons, equipped, currentSlot, current, firemode, S.Ammo(mag, reserve),
              aimed, shooting, reloading, reloadCancelled, inspecting, mouseDown, ammoEvents, recoilShots)
    }

    constructor ()
      ensures Snapshot() == S.Initial()
    {
      weapons, equipped, currentSlot, current := [], false, None, None;
      firemode, mag, reserve := S.Semi, 0, 0;
      aimed, shooting, reloading, reloadCancelled, inspecting := false, false, false, false, false;
      mouseDown := false;
      ammoEvents, recoilShots := [], [];
    }

    method AddWeapon(name: string, slot: S.Slot)
      modifies this
      ensures Snapshot() == S.AddWeapon(old(Snapshot()), name, slot)
      ensures S.Inv(old(Snapshot())) ==> S.Inv(Snapshot())
    {
      weapons := S.WriteSlot(weapons, slot - 1, Some(name));
      if S.Inv(old(Snapshot())) {
        P.FlagStepsKeepInv(old(Snapshot()), name, slot, aimed);
      }
    }

    method RemoveWeapon(slot: S.Slot)
      modifies this
      ensures Snapshot() == S.RemoveWeapon(old(Snapshot()), slot)
      ensures S.Inv(old(Snapshot())) ==> S.Inv(Snapshot())
    {
      weapons := S.WriteSlot(weapons, slot - 1, None);
    }

    method Unequip()
      modifies this
      ensures Snapshot() == S.Unequip(old(Snapshot()))
      ensures S.Inv(old(Snapshot())) ==> S.Inv(Snapshot())
    {
      equipped := false;
      current := None;
      currentSlot := None;
    }

    /** `equip(slot)`: `menuActive` is the menu controller's state, `data` the slot's weapon data. */
    method Equip(slot: S.Slot, menuActive: bool, data: S.WeaponData)
      modifies this
      ensures Snapshot() == S.Equip(old(Snapshot()), slot, menuActive, data)
      ensures S.Inv(old(Snapshot())) && S.WellFormed(data) ==> S.Inv(Snapshot())
    {
      if S.Inv(Snapshot()) && S.WellFormed(data) {
        P.EquipKeepsInv(Snapshot(), slot, menuActive, data);
      }
      if menuActive {
        return;
      }
      var weaponName := S.SlotAt(weapons, slot - 1);
      if weaponName.None? || weaponName.value == "" {
        return;
      }
      var ammo := S.Ammo(data.stats.magSize, data.stats.reserve);
      current, currentSlot, firemode := Some(data), Some(slot), S.FirstFiremode(data);
      mag, reserve := ammo.mag, ammo.reserve;
      ammoEvents := ammoEvents + [ammo];
    }

    /** The equip animation's `Stopped` event. */
    method EquipAnimationStopped()
      modifies this
      ensures Snapshot() == S.EquipAnimationStopped(old(Snapshot()))
      ensures S.Inv(old(Snapshot())) ==> S.Inv(Snapshot())
    {
      equipped := true;
    }

    /** `cancelInspect`: asks the inspect animation to stop when an inspection runs; no field changes. */
    method CancelInspect() returns (stopRequested: bool)
      ensures stopRequested <==> inspecting
    {
      if !inspecting {
        return false;
      }
      return true;
    }

    method Inspect()
      modifies this
      ensures Snapshot() == S.Inspect(old(Snapshot()))
      ensures S.Inv(old(Snapshot())) ==> S.Inv(Snapshot())
    {
      if !equipped || inspecting || reloading || shooting || current.None? {
        return;
      }
      inspecting := true;
      if aimed {
        Aim(false);
      }
    }

    /** The inspect animation's `Stopped` event. */
    method InspectAnimationStopped()
      modifies this
      ensures Snapshot() == S.InspectAnimationStopped(old(Snapshot()))
      ensures S.Inv(old(Snapshot())) ==> S.Inv(Snapshot())
    {
      inspecting := false;
    }

    method CancelReload()
      modifies this
      ensures Snapshot() == S.CancelReload(old(Snapshot()))
      ensures S.Inv(old(Snapshot())) ==> S.Inv(Snapshot())
    {
      if !equipped || !reloading || current.None? {
        return;
      }
      reloadCancelled := true;
      reloadCancelled := false;
    }

    method Reload()
      modifies this
      ensures Snapshot() == S.Reload(old(Snapshot()))
      ensures S.Inv(old(Snapshot())) ==> S.Inv(Snapshot())
    {
      if S.Inv(Snapshot()) {
        P.ReloadKeepsInv(Snapshot());
      }
      if !equipped || reloading || inspecting || aimed || shooting || current.None? {
        return;
      }
      var stats := current.value.stats;
      if mag == stats.magSize + stats.chamber || reserve == 0 {
        return;
      }
      reloading := true;
      if reloadCancelled {
        return;
      }
      var magBeforeReload := mag;
      mag := stats.magSize;
      if magBeforeReload > 0 {
        mag := mag + stats.chamber;
      }
      var ammoUsed := mag - magBeforeReload;
      reserve := reserve - ammoUsed;
      if reserve < 0 {
        mag := mag + reserve;
        reserve := 0;
      }
      ammoEvents := ammoEvents + [S.Ammo(mag, reserve)];
      reloading := false;
    }

    method Aim(on: bool)
      modifies this
      ensures Snapshot() == S.Aim(old(Snapshot()), on)
      ensures S.Inv(old(Snapshot())) ==> S.Inv(Snapshot())
    {
      if !equipped || aimed == on || current.None? {
        return;
      }
      var _ := CancelInspect();
      aimed := on;
    }

    /** `calculateRecoil`, with the random draws given. */
    method CalculateRecoil(draw: S.RecoilDraw)
      modifies this
      ensures Snapshot() == S.CalculateRecoil(old(Snapshot()), draw)
    {
      if !equipped || current.None? {
        return;
      }
      recoilShots := recoilShots + [S.Recoil(current.value, aimed, draw)];
    }

    /** The `pew` closure of `shoot`: one round, or the empty click and a reload. */
    method Pew(draw: S.RecoilDraw) returns (fired: bool)
      modifies this
      ensures (Snapshot(), fired) == S.Pew(old(Snapshot()), draw)
    {
      if !equipped || current.None? {
        return false;
      }
      if mag == 0 {
        mouseDown := false;
        shooting := false;
        Reload();
        return false;
      }
      mag := mag - 1;
      ammoEvents := ammoEvents + [S.Ammo(mag, reserve)];
      CalculateRecoil(draw);
      return true;
    }

    /** The `k`-th `task.wait(fireSpeed)`: a mouse event during the wait sets `mouseDown`. */
    method CooldownWait(inputs: seq<S.Input>, k: nat)
      modifies this
      ensures Snapshot() == S.Wait(old(Snapshot()), inputs, k)
    {
      var input := S.InputAt(inputs, k);
      if input.Some? {
        mouseDown := input.value;
      }
    }

    /** The Auto case of `shoot`: `do { pew(); wait } while (mouseDown)`. */
    method FireAuto(inputs: seq<S.Input>, draws: seq<S.RecoilDraw>) returns (rounds: nat)
      requires |inputs| < |draws|
      modifies this
      ensures (Snapshot(), rounds) == S.AutoFrom(old(Snapshot()), 0, inputs, draws)
    {
      ghost var goal := S.AutoFrom(Snapshot(), 0, inputs, draws);
      rounds := 0;
      var i := 0;
      while true
        invariant i <= |inputs|
        invariant S.AutoFrom(Snapshot(), i, inputs, draws).0 == goal.0
        invariant rounds + S.AutoFrom(Snapshot(), i, inputs, draws).1 == goal.1
        decreases |inputs| - i
      {
        ghost var before := Snapshot();
        var fired := Pew(draws[i]);
        CooldownWait(inputs, i);
        rounds := rounds + S.Count(fired);
        if !mouseDown {
          assert S.AutoFrom(before, i, inputs, draws) == (Snapshot(), S.Count(fired));
          break;
        }
        ghost var rest := S.AutoFrom(Snapshot(), i + 1, inputs, draws);
        assert S.AutoFrom(before, i, inputs, draws) == (rest.0, S.Count(fired) + rest.1);
        i := i + 1;
      }
    }

    /** The Burst case of `shoot`: `for (i = 0; i <= limit && mouseDown; i++) { pew(); wait }`. */
    method FireBurst(limit: int, inputs: seq<S.Input>, draws: seq<S.RecoilDraw>) returns (rounds: nat)
      requires |inputs| < |draws|
      modifies this
      ensures (Snapshot(), rounds) == S.BurstFrom(old(Snapshot()), 0, limit, inputs, draws)
    {
      ghost var goal := S.BurstFrom(Snapshot(), 0, limit, inputs, draws);
      rounds := 0;
      var i := 0;
      while i <= limit && mouseDown
        invariant i <= |inputs| + 1
        invariant i == |inputs| + 1 ==> !mouseDown
        invariant S.BurstFrom(Snapshot(), i, limit, inputs, draws).0 == goal.0
        invariant rounds + S.BurstFrom(Snapshot(), i, limit, inputs, draws).1 == goal.1
        decreases |inputs| + 1 - i
      {
        var fired := Pew(draws[i]);
        CooldownWait(inputs, i);
        rounds := rounds + S.Count(fired);
        i := i + 1;
      }
    }

    /** The `switch (firemode)` of `shoot` for the firemodes it lists. */
    method Fire(inputs: seq<S.Input>, draws: seq<S.RecoilDraw>) returns (rounds: nat)
      requires |inputs| < |draws| && current.Some?
      modifies this
      ensures (Snapshot(), rounds) == S.Fire(old(Snapshot()), inputs, draws)
    {
      match firemode {
        case Bolt | Semi =>
          var fired := Pew(draws[0]);
          CooldownWait(inputs, 0);
          rounds := S.Count(fired);
        case Auto =>
          rounds := FireAuto(inputs, draws);
        case Burst =>
          rounds := FireBurst(S.BurstLimit(current.value), inputs, draws);
        case Unrecognized =>
          rounds := 0;
      }
    }

    /**
     * `shoot`. `inputs[k]` is the mouse input during the `k`-th cooldown, `draws[k]` the
     * random draws of the `k`-th round; `InvalidFiremode` is the `throw`.
     */
    method Shoot(inputs: seq<S.Input>, draws: seq<S.RecoilDraw>) returns (result: S.ShotResult)
      requires |inputs| < |draws|
      modifies this
      ensures (Snapshot(), result) == S.Shoot(old(Snapshot()), inputs, draws)
      ensures S.Inv(old(Snapshot())) ==> S.Inv(Snapshot())
    {
      ghost var s0 := Snapshot();
      if S.Inv(s0) {
        P.ShootKeepsInv(s0, inputs, draws);
      }
      if !equipped || shooting || current.None? {
        return S.Ignored;
      }
      CancelReload();
      var _ := CancelInspect();
      if mag == 0 {
        Reload();
        return S.DryFire;
      }
      shooting := true;
      if firemode == S.Unrecognized {
        return S.InvalidFiremode;
      }
      ghost var s2 := Snapshot();
      assert s2 == S.CancelReload(s0).(shooting := true);
      var rounds := Fire(inputs, draws);
      shooting := false;
      return S.Fired(rounds);
    }
  }
}

/**
 * What the weapon state machine promises: the invariant every operation keeps, the
 * reload arithmetic, what one round does, and how many rounds each firing policy fires.
 */
module FpsProperties {
  import opened Shared
  import opened FpsSpec

  // ---------------------------------------------------------------- the invariant

  lemma InitialSatisfiesInv()
    ensures Inv(Initial())
    ensures !Initial().equipped && Initial().current == None && Initial().firemode == Semi
  {
  }

  /** The operations that only flip flags or write the inventory keep the invariant. */
  lemma FlagStepsKeepInv(s: State, name: string, slot: Slot, on: bool)
    requires Inv(s)
    ensures Inv(AddWeapon(s, name, slot)) && Inv(RemoveWeapon(s, slot))
    ensures Inv(Unequip(s)) && Inv(EquipAnimationStopped(s))
    ensures Inv(Aim(s, on)) && Inv(Inspect(s)) && Inv(InspectAnimationStopped(s))
    ensures Inv(CancelReload(s))
  {
  }

  /** Equipping a weapon whose data is well formed keeps the invariant. */
  lemma EquipKeepsInv(s: State, slot: Slot, menuActive: bool, data: WeaponData)
    requires Inv(s) && WellFormed(data)
    ensures Inv(Equip(s, slot, menuActive, data))
  {
  }

  /** Equipping a weapon starts from a magazine without the chamber bonus. */
  lemma EquipLoadsWeapon(s: State, slot: Slot, menuActive: bool, data: WeaponData)
    ensures menuActive || SlotAt(s.weapons, slot - 1) in {None, Some("")} ==> Equip(s, slot, menuActive, data) == s
    ensures var t := Equip(s, slot, menuActive, data);
      !menuActive && SlotAt(s.weapons, slot - 1).Some? && SlotAt(s.weapons, slot - 1).value != "" ==>
        && t.currentSlot == Some(slot) && t.current == Some(data)
        && (|data.stats.firemodes| > 0 ==> t.firemode == data.stats.firemodes[0])
        && t.ammo == Ammo(data.stats.magSize, data.stats.reserve)
        && t.equipped == s.equipped
  {
  }

  /** `unequip` always succeeds and drops the current weapon; only the equip animation sets `equipped`. */
  lemma EquipStateChanges(s: State)
    ensures var t := Unequip(s); !t.equipped && t.current == None && t.currentSlot == None
    ensures var t := Unequip(s); t.ammo == s.ammo && t.weapons == s.weapons && t.aimed == s.aimed
    ensures EquipAnimationStopped(s).equipped
  {
  }

  /** `addWeapon` and `removeWeapon` write index `slot - 1` and no other. */
  lemma InventoryWrites(s: State, name: string, slot: Slot, j: nat)
    ensures SlotAt(AddWeapon(s, name, slot).weapons, j) == if j == slot - 1 then Some(name) else SlotAt(s.weapons, j)
    ensures SlotAt(RemoveWeapon(s, slot).weapons, j) == if j == slot - 1 then None else SlotAt(s.weapons, j)
    ensures AddWeapon(s, name, slot).(weapons := s.weapons) == s
    ensures RemoveWeapon(s, slot).(weapons := s.weapons) == s
  {
  }

  // ---------------------------------------------------------------- aiming and inspecting

  lemma AimSetsAim(s: State, on: bool)
    ensures !s.equipped || s.aimed == on || s.current.None? ==> Aim(s, on) == s
    ensures s.equipped && s.current.Some? ==> Aim(s, on).aimed == on
    ensures Aim(s, on).(aimed := s.aimed) == s
  {
  }

  /** `inspect` raises `inspecting` and leaves aim; the animation's end lowers it. */
  lemma InspectRaisesFlag(s: State)
    ensures var t := Inspect(s);
      if !s.equipped || s.inspecting || s.reloading || s.shooting || s.current.None? then t == s
      else t.inspecting && !t.aimed && t.ammo == s.ammo
    ensures !InspectAnimationStopped(s).inspecting
  {
  }

  // ---------------------------------------------------------------- reloading

  /** A refused reload changes nothing. */
  lemma ReloadRefusedIsNoOp(s: State)
    requires ReloadRefused(s)
    ensures Reload(s) == s
  {
  }

  /**
   * The early return after `reloading = true` leaves `reloading` stuck, but only
   * with `reloadCancelled` raised, which no snapshot satisfying `Inv` has.
   */
  lemma ReloadNeverSticks(s: State)
    ensures !ReloadRefused(s) && s.reloadCancelled ==> Reload(s) == s.(reloading := true)
    ensures Inv(s) ==> !Reload(s).reloading
  {
  }

  /** A reload that runs conserves ammunition, never empties the magazine and never overfills it. */
  lemma ReloadTransfer(s: State)
    requires Inv(s) && !ReloadRefused(s)
    ensures var t := Reload(s);
      && Total(t.ammo) == Total(s.ammo)
      && t.ammo.reserve >= 0
      && s.ammo.mag <= t.ammo.mag <= RefillTarget(s.ammo.mag, s.current.value.stats) <= Capacity(s.current.value)
      && t.ammo.mag == s.ammo.mag + Min(s.ammo.reserve, RefillTarget(s.ammo.mag, s.current.value.stats) - s.ammo.mag)
      && !t.reloading
      && t.ammoEvents == s.ammoEvents + [t.ammo]
    ensures Inv(Reload(s))
  {
  }

  lemma ReloadKeepsInv(s: State)
    requires Inv(s)
    ensures Inv(Reload(s))
    ensures Total(Reload(s).ammo) == Total(s.ammo)
  {
    if !ReloadRefused(s) {
      ReloadTransfer(s);
    }
  }

  /** Three worked reloads of a 30-round magazine with one chambered round. */
  lemma ReloadScenarios(d: WeaponData, s: State)
    requires d.stats.magSize == 30 && d.stats.chamber == 1
    requires s.equipped && s.current == Some(d) && !s.reloading && !s.reloadCancelled
    requires !s.inspecting && !s.aimed && !s.shooting
    ensures s.ammo == Ammo(0, 60) ==> Reload(s).ammo == Ammo(30, 30)
    ensures s.ammo == Ammo(25, 10) ==> Reload(s).ammo == Ammo(31, 4)
    ensures s.ammo == Ammo(25, 3) ==> Reload(s).ammo == Ammo(28, 0)
  {
  }

  // ---------------------------------------------------------------- one round

  /** One `pew`: fires exactly when a round is in the magazine, taking exactly one. */
  lemma PewFacts(s: State, d: RecoilDraw)
    ensures var (t, fired) := Pew(s, d);
      && (fired <==> s.equipped && s.current.Some? && s.ammo.mag != 0)
      && (fired ==> t.ammo == Ammo(s.ammo.mag - 1, s.ammo.reserve) && t.ammoEvents == s.ammoEvents + [t.ammo])
      && (fired ==> t.recoil == s.recoil + [Recoil(s.current.value, s.aimed, d)])
      && (fired ==> t.mouseDown == s.mouseDown && t.shooting == s.shooting)
      && (!fired && s.equipped && s.current.Some? ==>
            t == Reload(s.(mouseDown := false, shooting := false)))
      && (!fired ==> t.recoil == s.recoil)
      && Total(t.ammo) + Count(fired) == Total(s.ammo)
      && t.equipped == s.equipped && t.current == s.current && t.firemode == s.firemode
      && t.aimed == s.aimed
      && (Inv(s) ==> Inv(t))
  {
    var (t, fired) := Pew(s, d);
    if !fired && s.equipped && s.current.Some? {
      var s1 := s.(mouseDown := false, shooting := false);
      ReloadTotal(s1);
      if Inv(s) {
        ReloadKeepsInv(s1);
      }
    }
  }

  // ---------------------------------------------------------------- the firing loops

  /** The Auto loop: at least one attempt, one round at most per attempt, one kick per round. */
  lemma {:induction false} AutoFromFacts(s: State, i: nat, inputs: seq<Input>, draws: seq<RecoilDraw>)
    requires i <= |inputs| < |draws|
    ensures var (t, n) := AutoFrom(s, i, inputs, draws);
      && Total(t.ammo) + n == Total(s.ammo)
      && |t.recoil| == |s.recoil| + n
      && n <= |inputs| + 1 - i
      && (s.equipped && s.current.Some? && s.ammo.mag != 0 ==> n >= 1)
    decreases |inputs| - i
  {
    var (s1, f) := Pew(s, draws[i]);
    PewFacts(s, draws[i]);
    var s2 := Wait(s1, inputs, i);
    if s2.mouseDown {
      AutoFromFacts(s2, i + 1, inputs, draws);
      var (s3, n) := AutoFrom(s2, i + 1, inputs, draws);
      assert AutoFrom(s, i, inputs, draws) == (s3, Count(f) + n);
    } else {
      assert AutoFrom(s, i, inputs, draws) == (s2, Count(f));
    }
  }

  /** The Auto loop keeps the weapon, its firemode and the invariant. */
  lemma {:induction false} AutoFromKeeps(s: State, i: nat, inputs: seq<Input>, draws: seq<RecoilDraw>)
    requires i <= |inputs| < |draws|
    ensures var t := AutoFrom(s, i, inputs, draws).0;
      && t.equipped == s.equipped && t.current == s.current && t.firemode == s.firemode
      && (Inv(s) ==> Inv(t))
    decreases |inputs| - i
  {
    var (s1, f) := Pew(s, draws[i]);
    PewFacts(s, draws[i]);
    var s2 := Wait(s1, inputs, i);
    assert Inv(s1) ==> Inv(s2);
    if s2.mouseDown {
      AutoFromKeeps(s2, i + 1, inputs, draws);
    }
  }

  /**
   * The Auto loop goes on while the button stays down: with no release before the
   * `k`-th cooldown, a release during it and rounds enough, it fires exactly
   * `k + 1 - i` rounds from iteration `i` and ends with the button up.
   */
  lemma {:induction false} AutoFullCount(s: State, i: nat, k: nat, inputs: seq<Input>, draws: seq<RecoilDraw>)
    requires i <= k <= |inputs| < |draws|
    requires forall j :: i <= j < k ==> InputAt(inputs, j) != Some(false)
    requires InputAt(inputs, k) == Some(false)
    requires s.equipped && s.current.Some? && s.mouseDown
    requires s.ammo.mag >= k + 1 - i
    ensures AutoFrom(s, i, inputs, draws).1 == k + 1 - i
    ensures !AutoFrom(s, i, inputs, draws).0.mouseDown
    decreases k - i
  {
    var (s1, f) := Pew(s, draws[i]);
    PewFacts(s, draws[i]);
    var s2 := Wait(s1, inputs, i);
    if i < k {
      assert s2.mouseDown;
      AutoFullCount(s2, i + 1, k, inputs, draws);
      var (s3, n) := AutoFrom(s2, i + 1, inputs, draws);
      assert AutoFrom(s, i, inputs, draws) == (s3, Count(f) + n);
    } else {
      assert AutoFrom(s, i, inputs, draws) == (s2, Count(f));
    }
  }

  /** `reload` leaves the trigger and the `shooting` flag alone. */
  lemma ReloadKeepsTrigger(s: State)
    ensures Reload(s).mouseDown == s.mouseDown && Reload(s).shooting == s.shooting
  {
  }

  /**
   * An empty click with no mouse event during its cooldown ends either loop: `pew`
   * lowers `mouseDown` and `shooting` and reloads, and nothing raises the button again.
   */
  lemma EmptyClickEndsLoops(s: State, i: nat, limit: int, inputs: seq<Input>, draws: seq<RecoilDraw>)
    requires i < |inputs| < |draws| && inputs[i] == None
    requires s.equipped && s.current.Some? && s.ammo.mag == 0
    ensures AutoFrom(s, i, inputs, draws) == (Reload(s.(mouseDown := false, shooting := false)), 0)
    ensures i <= limit && s.mouseDown ==>
      BurstFrom(s, i, limit, inputs, draws) == (Reload(s.(mouseDown := false, shooting := false)), 0)
  {
    ReloadKeepsTrigger(s.(mouseDown := false, shooting := false));
  }

  /**
   * Holding the button with no other mouse event empties the magazine: the Auto loop
   * from iteration `i` fires every round in it, then the empty click reloads and ends
   * the loop with `mouseDown` and `shooting` lowered.
   */
  lemma {:induction false} AutoEmptiesMagazine(s: State, i: nat, inputs: seq<Input>, draws: seq<RecoilDraw>)
    requires s.ammo.mag >= 0 && i + s.ammo.mag < |inputs| < |draws|
    requires s.equipped && s.current.Some? && s.mouseDown
    requires forall j :: i <= j < i + s.ammo.mag ==> InputAt(inputs, j) != Some(false)
    requires inputs[i + s.ammo.mag] == None
    ensures var (t, n) := AutoFrom(s, i, inputs, draws);
      n == s.ammo.mag && !t.mouseDown && !t.shooting
    decreases s.ammo.mag
  {
    if s.ammo.mag == 0 {
      EmptyClickEndsLoops(s, i, 0, inputs, draws);
    } else {
      var (s1, f) := Pew(s, draws[i]);
      PewFacts(s, draws[i]);
      var s2 := Wait(s1, inputs, i);
      assert s2.mouseDown && s2.ammo.mag == s.ammo.mag - 1;
      AutoEmptiesMagazine(s2, i + 1, inputs, draws);
      var (s3, n) := AutoFrom(s2, i + 1, inputs, draws);
      assert AutoFrom(s, i, inputs, draws) == (s3, Count(f) + n);
    }
  }

  /** The Burst loop: no round without the trigger, at most `limit + 1 - i` rounds from iteration `i`. */
  lemma {:induction false} BurstFromFacts(s: State, i: nat, limit: int, inputs: seq<Input>, draws: seq<RecoilDraw>)
    requires i <= |inputs| + 1 && |inputs| < |draws|
    requires i == |inputs| + 1 ==> !s.mouseDown
    ensures var (t, n) := BurstFrom(s, i, limit, inputs, draws);
      && Total(t.ammo) + n == Total(s.ammo)
      && |t.recoil| == |s.recoil| + n
      && n <= |inputs| + 1 - i
      && (i <= limit ==> n <= limit + 1 - i)
      && (i > limit ==> n == 0)
      && (!s.mouseDown ==> n == 0 && t == s)
      && t.equipped == s.equipped && t.current == s.current && t.firemode == s.firemode
      && (Inv(s) ==> Inv(t))
    decreases |inputs| + 1 - i
  {
    if i <= limit && s.mouseDown {
      var (s1, f) := Pew(s, draws[i]);
      PewFacts(s, draws[i]);
      var s2 := Wait(s1, inputs, i);
      BurstFromFacts(s2, i + 1, limit, inputs, draws);
    }
  }

  /**
   * With the trigger held through every cooldown and enough rounds in the magazine,
   * the Burst loop from iteration `i` fires exactly `limit + 1 - i` rounds: the
   * condition `i <= limit` admits one round more than `limit`.
   */
  lemma {:induction false} BurstFullCount(s: State, i: nat, limit: int, inputs: seq<Input>, draws: seq<RecoilDraw>)
    requires i <= |inputs| + 1 && |inputs| < |draws|
    requires i == |inputs| + 1 ==> !s.mouseDown
    requires i <= limit + 1
    requires s.equipped && s.current.Some? && s.mouseDown
    requires s.ammo.mag >= limit + 1 - i
    requires forall k :: i <= k < limit ==> InputAt(inputs, k) != Some(false)
    ensures BurstFrom(s, i, limit, inputs, draws).1 == limit + 1 - i
    decreases |inputs| + 1 - i
  {
    if i <= limit {
      var (s1, f) := Pew(s, draws[i]);
      PewFacts(s, draws[i]);
      var s2 := Wait(s1, inputs, i);
      if i < limit {
        assert s2.mouseDown;
        BurstFullCount(s2, i + 1, limit, inputs, draws);
      } else {
        BurstFromFacts(s2, i + 1, limit, inputs, draws);
      }
    }
  }

  // ---------------------------------------------------------------- shoot

  /** What every firing policy keeps: one cartridge and one recoil kick per round, and the invariant. */
  lemma FireConserves(s: State, inputs: seq<Input>, draws: seq<RecoilDraw>)
    requires |inputs| < |draws| && s.current.Some?
    ensures var (t, n) := Fire(s, inputs, draws);
      && Total(t.ammo) + n == Total(s.ammo)
      && |t.recoil| == |s.recoil| + n
      && (Inv(s) ==> Inv(t))
  {
    match s.firemode
    case Bolt => PewFacts(s, draws[0]);
    case Semi => PewFacts(s, draws[0]);
    case Auto =>
      AutoFromFacts(s, 0, inputs, draws);
      AutoFromKeeps(s, 0, inputs, draws);
    case Burst => BurstFromFacts(s, 0, BurstLimit(s.current.value), inputs, draws);
    case Unrecognized =>
  }

  /** The rounds each firing policy fires. */
  lemma FireRounds(s: State, inputs: seq<Input>, draws: seq<RecoilDraw>)
    requires |inputs| < |draws| && s.current.Some?
    ensures var n := Fire(s, inputs, draws).1;
      && (s.firemode in {Bolt, Semi} && s.equipped && s.ammo.mag != 0 ==> n == 1)
      && (s.firemode == Auto ==> n <= |inputs| + 1 && (s.equipped && s.ammo.mag != 0 ==> n >= 1))
      && (s.firemode == Burst ==>
            && n <= |inputs| + 1
            && (BurstLimit(s.current.value) >= 0 ==> n <= BurstLimit(s.current.value) + 1)
            && (BurstLimit(s.current.value) < 0 ==> n == 0)
            && (!s.mouseDown ==> n == 0))
  {
    match s.firemode
    case Bolt => PewFacts(s, draws[0]);
    case Semi => PewFacts(s, draws[0]);
    case Auto => AutoFromFacts(s, 0, inputs, draws);
    case Burst => BurstFromFacts(s, 0, BurstLimit(s.current.value), inputs, draws);
    case Unrecognized =>
  }

  /**
   * How `shoot` ends. Refused by its guards it changes nothing; with an empty magazine
   * it fires nothing and only reloads; whenever it returns normally `shooting` is
   * false; the `throw` of an unrecognised firemode leaves `shooting` raised.
   */
  lemma ShootOutcomes(s: State, inputs: seq<Input>, draws: seq<RecoilDraw>)
    requires |inputs| < |draws|
    ensures var (t, r) := Shoot(s, inputs, draws);
      && (r == Ignored <==> !s.equipped || s.shooting || s.current.None?)
      && (r == Ignored ==> t == s)
      && (r == DryFire <==> s.equipped && !s.shooting && s.current.Some? && s.ammo.mag == 0)
      && (r == DryFire ==> t == Reload(CancelReload(s)) && !t.shooting)
      && (r.Fired? ==> !t.shooting)
      && (r == InvalidFiremode <==>
            s.equipped && !s.shooting && s.current.Some? && s.ammo.mag != 0 && s.firemode == Unrecognized)
      && (r == InvalidFiremode ==> t.shooting && t.ammo == s.ammo && t.recoil == s.recoil)
  {
  }

  /** Every round `shoot` fires takes exactly one cartridge and applies exactly one recoil kick. */
  lemma ShootConservesAmmo(s: State, inputs: seq<Input>, draws: seq<RecoilDraw>)
    requires |inputs| < |draws|
    ensures var (t, r) := Shoot(s, inputs, draws);
      Total(t.ammo) + Rounds(r) == Total(s.ammo) && |t.recoil| == |s.recoil| + Rounds(r)
  {
    if s.equipped && !s.shooting && s.current.Some? {
      var s1 := CancelReload(s);
      if s1.ammo.mag == 0 {
        ReloadTotal(s1);
      } else {
        FireConserves(s1.(shooting := true), inputs, draws);
      }
    }
  }

  lemma ReloadTotal(s: State)
    ensures Total(Reload(s).ammo) == Total(s.ammo)
    ensures Reload(s).recoil == s.recoil
  {
  }

  /** `shoot` keeps the invariant. */
  lemma ShootKeepsInv(s: State, inputs: seq<Input>, draws: seq<RecoilDraw>)
    requires |inputs| < |draws| && Inv(s)
    ensures Inv(Shoot(s, inputs, draws).0)
  {
    if s.equipped && !s.shooting && s.current.Some? {
      var s1 := CancelReload(s);
      if s1.ammo.mag == 0 {
        ReloadKeepsInv(s1);
      } else {
        FireConserves(s1.(shooting := true), inputs, draws);
      }
    }
  }

  /**
   * Rounds per `shoot` by firemode: Bolt and Semi exactly one; Auto at least one and
   * one more per held cooldown at most; Burst none without the trigger held at entry
   * and at most `(burstCount ?? 3) + 1`.
   */
  lemma ShootRoundsByFiremode(s: State, inputs: seq<Input>, draws: seq<RecoilDraw>)
    requires |inputs| < |draws|
    ensures var (t, r) := Shoot(s, inputs, draws);
      r.Fired? ==>
        && (s.firemode in {Bolt, Semi} ==> r.rounds == 1)
        && (s.firemode == Auto ==> 1 <= r.rounds <= |inputs| + 1)
        && (s.firemode == Burst ==>
              && r.rounds <= |inputs| + 1
              && (BurstLimit(s.current.value) >= 0 ==> r.rounds <= BurstLimit(s.current.value) + 1)
              && (BurstLimit(s.current.value) < 0 ==> r.rounds == 0)
              && (!s.mouseDown ==> r.rounds == 0))
  {
    if s.equipped && !s.shooting && s.current.Some? {
      var s1 := CancelReload(s);
      if s1.ammo.mag != 0 {
        FireRounds(s1.(shooting := true), inputs, draws);
      }
    }
  }

  /**
   * A Burst trigger pull held through the burst, with enough rounds, fires
   * `(burstCount ?? 3) + 1` rounds: four for the default burst of three.
   */
  lemma BurstFiresOneExtra(s: State, inputs: seq<Input>, draws: seq<RecoilDraw>)
    requires |inputs| < |draws|
    requires s.equipped && !s.shooting && s.current.Some? && s.firemode == Burst && s.mouseDown
    requires BurstLimit(s.current.value) >= 0
    requires s.ammo.mag >= BurstLimit(s.current.value) + 1
    requires forall k :: 0 <= k < BurstLimit(s.current.value) ==> InputAt(inputs, k) != Some(false)
    ensures Shoot(s, inputs, draws).1 == Fired(BurstLimit(s.current.value) + 1)
  {
    var s2 := CancelReload(s).(shooting := true);
    BurstFullCount(s2, 0, BurstLimit(s2.current.value), inputs, draws);
  }

  /**
   * An Auto trigger pull fires one round per attempt while the button stays down:
   * released during the `k`-th cooldown, with rounds enough, `shoot` fires `k + 1`.
   */
  lemma AutoFiresWhileHeld(s: State, k: nat, inputs: seq<Input>, draws: seq<RecoilDraw>)
    requires k <= |inputs| < |draws|
    requires s.equipped && !s.shooting && s.current.Some? && s.firemode == Auto && s.mouseDown
    requires s.ammo.mag >= k + 1
    requires forall j :: 0 <= j < k ==> InputAt(inputs, j) != Some(false)
    requires InputAt(inputs, k) == Some(false)
    ensures Shoot(s, inputs, draws).1 == Fired(k + 1)
  {
    var s2 := CancelReload(s).(shooting := true);
    AutoFullCount(s2, 0, k, inputs, draws);
  }

  /**
   * Holding an Auto trigger with no other mouse event empties the magazine and ends
   * `shoot` through the empty click: every round fires, the button reads released and
   * `shooting` is lowered.
   */
  lemma AutoShootEmptiesMagazine(s: State, inputs: seq<Input>, draws: seq<RecoilDraw>)
    requires s.ammo.mag > 0 && s.ammo.mag < |inputs| < |draws|
    requires s.equipped && !s.shooting && s.current.Some? && s.firemode == Auto && s.mouseDown
    requires forall j :: 0 <= j < s.ammo.mag ==> InputAt(inputs, j) != Some(false)
    requires inputs[s.ammo.mag] == None
    ensures var (t, r) := Shoot(s, inputs, draws);
      r == Fired(s.ammo.mag) && !t.mouseDown && !t.shooting
  {
    var s2 := CancelReload(s).(shooting := true);
    AutoEmptiesMagazine(s2, 0, inputs, draws);
  }
}

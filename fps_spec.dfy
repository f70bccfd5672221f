/**
 * The client weapon state machine of `FPSController` (src/client/controllers/fps.ts),
 * stated on values: `State` is one snapshot of the controller's `FPSState` record,
 * the current weapon's data, `mouseDown` and the two observable outputs the core
 * produces (ammo-changed notifications and recoil kicks). Every operation of the
 * controller is a function from a snapshot to the next one; the class in fps.dfy
 * is proved to follow them.
 */
module FpsSpec {
  import opened Shared

  /** `Firemode`; `Unrecognized` stands for any value the `switch` in `shoot` does not list. */
  datatype Firemode = Bolt | Semi | Auto | Burst | Unrecognized

  /** The arguments of one `Random.NextNumber(min, max)` draw. */
  datatype NumberRange = NumberRange(min: real, max: real)

  predicate Within(v: real, r: NumberRange) {
    r.min <= v <= r.max
  }

  /** A recoil table of the weapon data: its three ranges in the order `[y, x, z]` that `calculateRecoil` destructures. */
  datatype RecoilTable = RecoilTable(y: NumberRange, x: NumberRange, z: NumberRange)

  /** The `stats` part of the weapon data that the controller reads. */
  datatype Stats = Stats(
    rpm: real,
    magSize: int,
    chamber: int,
    reserve: int,
    firemodes: seq<Firemode>,
    burstCount: Option<int>)

  /** `WeaponData` (camera and view-model recoil tables and the stats). */
  datatype WeaponData = WeaponData(stats: Stats, cameraRecoil: RecoilTable, modelRecoil: RecoilTable)

  /** Configuration the ammunition bounds rely on. */
  predicate WellFormed(d: WeaponData) {
    d.stats.magSize >= 0 && d.stats.chamber >= 0 && d.stats.reserve >= 0
  }

  /** A full magazine: `magSize + chamber`. */
  function Capacity(d: WeaponData): int {
    d.stats.magSize + d.stats.chamber
  }

  /** `state.weapon.ammo` */
  datatype Ammo = Ammo(mag: int, reserve: int)

  function Total(a: Ammo): int {
    a.mag + a.reserve
  }

  /** Inventory slots are numbered from 1; slot `s` is stored at index `s - 1`. */
  type Slot = s: int | 1 <= s witness 1

  /** The random draws of one `calculateRecoil` call: `NextInteger(1, 2)` and the two force vectors. */
  datatype RecoilDraw = RecoilDraw(torqueRoll: int, camera: Vec3, model: Vec3)

  /** The arguments of one `Recoil.kick(data, force, stabilization, torqueDir)` call. */
  datatype Kick = Kick(force: Vec3, stabilization: real, torqueDir: int)

  /** The four kicks of one round: two at once, and their compensations 120ms later. */
  datatype RecoilShot = RecoilShot(viewModel: Kick, camera: Kick, viewModelBack: Kick, cameraBack: Kick)

  /** A snapshot of the controller. `current` is the data of `currentWeapon`. */
  datatype State = State(
    weapons: seq<Option<string>>,
    equipped: bool,
    currentSlot: Option<Slot>,
    current: Option<WeaponData>,
    firemode: Firemode,
    ammo: Ammo,
    aimed: bool,
    shooting: bool,
    reloading: bool,
    reloadCancelled: bool,
    inspecting: bool,
    mouseDown: bool,
    ammoEvents: seq<Ammo>,
    recoil: seq<RecoilShot>)

  /** The record the controller starts with. */
  function Initial(): State {
    State([], false, None, None, Semi, Ammo(0, 0), false, false, false, false, false, false, [], [])
  }

  /** The invariant every reachable snapshot keeps. */
  ghost predicate Inv(s: State) {
    && s.ammo.mag >= 0
    && s.ammo.reserve >= 0
    && !s.reloading
    && !s.reloadCancelled
    && (s.current.Some? ==> WellFormed(s.current.value) && s.ammo.mag <= Capacity(s.current.value))
  }

  // ---------------------------------------------------------------- inventory

  /** Reading `weapons[i]`: a hole or an index past the end reads `undefined`. */
  function SlotAt(ws: seq<Option<string>>, i: nat): Option<string> {
    if i < |ws| then ws[i] else None
  }

  /** Writing `weapons[i] = v`: the array grows with holes when `i` is past its end. */
  function WriteSlot(ws: seq<Option<string>>, i: nat, v: Option<string>): (r: seq<Option<string>>)
    ensures |r| == if i < |ws| then |ws| else i + 1
    ensures SlotAt(r, i) == v
    ensures forall j: nat :: j != i ==> SlotAt(r, j) == SlotAt(ws, j)
  {
    if i < |ws| then ws[i := v] else ws + seq(i - |ws|, _ => None) + [v]
  }

  function AddWeapon(s: State, name: string, slot: Slot): State {
    s.(weapons := WriteSlot(s.weapons, slot - 1, Some(name)))
  }

  function RemoveWeapon(s: State, slot: Slot): State {
    s.(weapons := WriteSlot(s.weapons, slot - 1, None))
  }

  // ---------------------------------------------------------------- equipping

  /** `stats.firemodes[0]`; an empty list reads `undefined`, which no case of `shoot` accepts. */
  function FirstFiremode(d: WeaponData): Firemode {
    if |d.stats.firemodes| > 0 then d.stats.firemodes[0] else Unrecognized
  }

  /**
   * `equip(slot)` while the menu is `menuActive`; `data` is the weapon data the
   * view model reports for the weapon in the slot. `equipped` is set only later,
   * by `EquipAnimationStopped`.
   */
  function Equip(s: State, slot: Slot, menuActive: bool, data: WeaponData): State {
    if menuActive then s
    else
      match SlotAt(s.weapons, slot - 1)
      case None => s
      case Some(name) =>
        if name == "" then s
        else
          var ammo := Ammo(data.stats.magSize, data.stats.reserve);
          s.(current := Some(data), currentSlot := Some(slot), firemode := FirstFiremode(data),
             ammo := ammo, ammoEvents := s.ammoEvents + [ammo])
  }

  /** The equip animation's `Stopped` handler. */
  function EquipAnimationStopped(s: State): State {
    s.(equipped := true)
  }

  function Unequip(s: State): State {
    s.(equipped := false, current := None, currentSlot := None)
  }

  // ---------------------------------------------------------------- aiming and inspecting

  /** `aim(on)`; its `cancelInspect` only asks the animation to stop and changes no field. */
  function Aim(s: State, on: bool): State {
    if !s.equipped || s.aimed == on || s.current.None? then s
    else s.(aimed := on)
  }

  function Inspect(s: State): State {
    if !s.equipped || s.inspecting || s.reloading || s.shooting || s.current.None? then s
    else
      var s1 := s.(inspecting := true);
      if s1.aimed then Aim(s1, false) else s1
  }

  /** The inspect animation's `Stopped` handler. */
  function InspectAnimationStopped(s: State): State {
    s.(inspecting := false)
  }

  // ---------------------------------------------------------------- reloading

  /** `cancelReload`: `reloadCancelled` is raised and lowered again in one synchronous run. */
  function CancelReload(s: State): State {
    if !s.equipped || !s.reloading || s.current.None? then s
    else s.(reloadCancelled := false)
  }

  /** The guards of `reload` (fps.ts:279-287): any of them makes it return at once. */
  predicate ReloadRefused(s: State) {
    || !s.equipped || s.reloading || s.inspecting || s.aimed || s.shooting || s.current.None?
    || s.ammo.mag == Capacity(s.current.value)
    || s.ammo.reserve == 0
  }

  /** The magazine a reload fills to: `magSize`, plus `chamber` when a round is already in. */
  function RefillTarget(mag: int, stats: Stats): int {
    stats.magSize + if mag > 0 then stats.chamber else 0
  }

  function Min(a: int, b: int): int {
    if a <= b then a else b
  }

  /** The ammunition transfer of a reload, shortfall handed back out of the magazine. */
  function Refill(a: Ammo, stats: Stats): (r: Ammo)
    ensures Total(r) == Total(a)
    ensures r.reserve >= 0
    ensures a.reserve >= 0 ==> r.mag == a.mag + Min(a.reserve, RefillTarget(a.mag, stats) - a.mag)
  {
    var mag := RefillTarget(a.mag, stats);
    var reserve := a.reserve - (mag - a.mag);
    if reserve < 0 then Ammo(mag + reserve, 0) else Ammo(mag, reserve)
  }

  /**
   * `reload`. With `reloadCancelled` raised after the guards it would return with
   * `reloading` left true; `Inv` rules that out (see FpsProperties.ReloadNeverSticks).
   */
  function Reload(s: State): State {
    if ReloadRefused(s) then s
    else if s.reloadCancelled then s.(reloading := true)
    else
      var ammo := Refill(s.ammo, s.current.value.stats);
      s.(ammo := ammo, ammoEvents := s.ammoEvents + [ammo], reloading := false)
  }

  // ---------------------------------------------------------------- recoil

  /** The `stabilization` passed to every kick: 1, plus 0.8 when aimed. */
  function Stabilization(aimed: bool): real {
    1.0 + if aimed then 0.8 else 0.0
  }

  /** A force drawn from a table: X from the range destructured as `y`, Y from `x`, Z from `z`. */
  predicate DrawnFrom(v: Vec3, t: RecoilTable) {
    Within(v.x, t.y) && Within(v.y, t.x) && Within(v.z, t.z)
  }

  /** What `Random` can return for one `calculateRecoil` with weapon data `d`. */
  predicate DrawFits(r: RecoilDraw, d: WeaponData) {
    1 <= r.torqueRoll <= 2 && DrawnFrom(r.camera, d.cameraRecoil) && DrawnFrom(r.model, d.modelRecoil)
  }

  /**
   * The kicks of one round. The view model is kicked with the force drawn from the
   * camera table and the camera with the force drawn from the model table.
   */
  function Recoil(d: WeaponData, aimed: bool, draw: RecoilDraw): (r: RecoilShot)
    ensures r.viewModel.torqueDir == 1 || r.viewModel.torqueDir == -1
    ensures r.viewModel.stabilization == r.camera.stabilization == (if aimed then 1.8 else 1.0)
    ensures Add(r.viewModel.force, r.viewModelBack.force) == Zero
    ensures Add(r.camera.force, r.cameraBack.force) == Zero
    ensures r.viewModelBack.stabilization == r.viewModel.stabilization && r.viewModelBack.torqueDir == r.viewModel.torqueDir
    ensures r.cameraBack.stabilization == r.camera.stabilization && r.cameraBack.torqueDir == r.camera.torqueDir
    ensures r.camera.torqueDir == r.viewModel.torqueDir
    ensures DrawFits(draw, d) ==> DrawnFrom(r.viewModel.force, d.cameraRecoil) && DrawnFrom(r.camera.force, d.modelRecoil)
  {
    var torqueDir := if draw.torqueRoll == 1 then 1 else -1;
    var stabilization := Stabilization(aimed);
    var cforce := draw.camera;
    var mforce := draw.model;
    RecoilShot(
      Kick(cforce, stabilization, torqueDir),
      Kick(mforce, stabilization, torqueDir),
      Kick(Neg(cforce), stabilization, torqueDir),
      Kick(Neg(mforce), stabilization, torqueDir))
  }

  /** `calculateRecoil` */
  function CalculateRecoil(s: State, draw: RecoilDraw): State {
    if !s.equipped || s.current.None? then s
    else s.(recoil := s.recoil + [Recoil(s.current.value, s.aimed, draw)])
  }

  // ---------------------------------------------------------------- shooting

  /** One `pew`: the new snapshot, and whether a round was fired. */
  function Pew(s: State, draw: RecoilDraw): (State, bool) {
    if !s.equipped || s.current.None? then (s, false)
    else if s.ammo.mag == 0 then (Reload(s.(mouseDown := false, shooting := false)), false)
    else
      var ammo := s.ammo.(mag := s.ammo.mag - 1);
      var s1 := s.(ammo := ammo, ammoEvents := s.ammoEvents + [ammo]);
      (CalculateRecoil(s1, draw), true)
  }

  /**
   * The mouse input during one cooldown wait: `None` when no button event arrives,
   * `Some(down)` when the last event leaves the button down or up.
   */
  type Input = Option<bool>

  /** The input of the `k`-th cooldown wait; once the trace ends the button is released. */
  function InputAt(inputs: seq<Input>, k: nat): Input {
    if k < |inputs| then inputs[k] else Some(false)
  }

  /** The button after an input: as the event leaves it, or as it was without one. */
  function ButtonAfter(down: bool, input: Input): bool {
    match input
    case None => down
    case Some(d) => d
  }

  /** The `k`-th `task.wait(fireSpeed)`: an input event rewrites `mouseDown`; without one it keeps its value. */
  function Wait(s: State, inputs: seq<Input>, k: nat): State {
    s.(mouseDown := ButtonAfter(s.mouseDown, InputAt(inputs, k)))
  }

  function Count(fired: bool): nat {
    if fired then 1 else 0
  }

  /** Bolt and Semi: one `pew` and one wait. */
  function Single(s: State, inputs: seq<Input>, draws: seq<RecoilDraw>): (State, nat)
    requires |inputs| < |draws|
  {
    var (s1, f) := Pew(s, draws[0]);
    (Wait(s1, inputs, 0), Count(f))
  }

  /** Auto: the `do { pew(); wait } while (mouseDown)` loop from its `i`-th iteration. */
  function AutoFrom(s: State, i: nat, inputs: seq<Input>, draws: seq<RecoilDraw>): (State, nat)
    requires i <= |inputs| < |draws|
    decreases |inputs| - i
  {
    var (s1, f) := Pew(s, draws[i]);
    var s2 := Wait(s1, inputs, i);
    if s2.mouseDown then
      var (s3, n) := AutoFrom(s2, i + 1, inputs, draws);
      (s3, Count(f) + n)
    else (s2, Count(f))
  }

  /** Burst: the loop `for (i = 0; i <= limit && mouseDown; i++) { pew(); wait }` from `i`. */
  function BurstFrom(s: State, i: nat, limit: int, inputs: seq<Input>, draws: seq<RecoilDraw>): (State, nat)
    requires i <= |inputs| + 1 && |inputs| < |draws|
    requires i == |inputs| + 1 ==> !s.mouseDown
    decreases |inputs| + 1 - i
  {
    if i <= limit && s.mouseDown then
      var (s1, f) := Pew(s, draws[i]);
      var s2 := Wait(s1, inputs, i);
      var (s3, n) := BurstFrom(s2, i + 1, limit, inputs, draws);
      (s3, Count(f) + n)
    else (s, 0)
  }

  /** `burstCount ?? 3` */
  function BurstLimit(d: WeaponData): int {
    match d.stats.burstCount
    case Some(b) => b
    case None => 3
  }

  /** How `shoot` ends: refused by its guards, an empty click, rounds fired, or the `throw`. */
  datatype ShotResult = Ignored | DryFire | Fired(rounds: nat) | InvalidFiremode

  function Rounds(r: ShotResult): nat {
    if r.Fired? then r.rounds else 0
  }

  /** The firing policy of `firemode`: the rounds of one trigger pull, from the `switch` in `shoot`. */
  function Fire(s: State, inputs: seq<Input>, draws: seq<RecoilDraw>): (State, nat)
    requires |inputs| < |draws| && s.current.Some?
  {
    match s.firemode
    case Bolt => Single(s, inputs, draws)
    case Semi => Single(s, inputs, draws)
    case Auto => AutoFrom(s, 0, inputs, draws)
    case Burst => BurstFrom(s, 0, BurstLimit(s.current.value), inputs, draws)
    case Unrecognized => (s, 0)
  }

  /**
   * `shoot`. `inputs[k]` is the mouse input during the `k`-th cooldown wait, `draws[k]`
   * the random draws available to the `k`-th round; the firing loops make at most
   * `|inputs| + 1` iterations.
   */
  function Shoot(s: State, inputs: seq<Input>, draws: seq<RecoilDraw>): (State, ShotResult)
    requires |inputs| < |draws|
  {
    if !s.equipped || s.shooting || s.current.None? then (s, Ignored)
    else
      var s1 := CancelReload(s);
      if s1.ammo.mag == 0 then (Reload(s1), DryFire)
      else
        var s2 := s1.(shooting := true);
        if s2.firemode == Unrecognized then (s2, InvalidFiremode)
        else
          var (s3, n) := Fire(s2, inputs, draws);
          (s3.(shooting := false), Fired(n))
  }
}

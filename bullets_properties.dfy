/**
 * What the bullet rules of BulletsSpec guarantee: how damping changes a bullet's
 * speed, which axis the thickness rule picks, that the `InUse` guards return every
 * lent part at most once over any run of the service, and what the shared-caster
 * `LengthChanged` handler does to the 6-second timeout.
 */
module BulletsProperties {
  import opened Shared
  import opened BulletsSpec

  // ---------------------------------------------------------------- damping

  lemma DivNormSquared(v: Vec3, d: real)
    requires d != 0.0
    ensures NormSquared(Div(v, d)) * (d * d) == NormSquared(v)
  {
    var w := Div(v, d);
    assert w.x * w.x * (d * d) == (w.x * d) * (w.x * d);
    assert w.y * w.y * (d * d) == (w.y * d) * (w.y * d);
    assert w.z * w.z * (d * d) == (w.z * d) * (w.z * d);
  }

  lemma PositiveSquare(x: real)
    requires x != 0.0
    ensures x * x > 0.0
  {
    if x < 0.0 {
      assert (-x) * (-x) == x * x;
      assert (-x) * (-x) > 0.0;
    }
  }

  /**
   * For `n == q * d * d` with `n > 0` and `d > 0`: `q < n` exactly when `d > 1`,
   * and `q > n` exactly when `d < 1`.
   */
  lemma ScaledBySquare(n: real, q: real, d: real)
    requires n == q * (d * d) && n > 0.0 && d > 0.0
    ensures q < n <==> d > 1.0
    ensures q > n <==> d < 1.0
  {
    PositiveSquare(d);
    assert q > 0.0;
    assert n - q == q * ((d - 1.0) * (d + 1.0));
    if d > 1.0 {
      SignOfProduct(q, (d - 1.0) * (d + 1.0));
    } else if d < 1.0 {
      SignOfProduct(q, (d - 1.0) * (d + 1.0));
    }
  }

  lemma SignOfProduct(a: real, b: real)
    requires a > 0.0
    ensures b > 0.0 ==> a * b > 0.0
    ensures b < 0.0 ==> a * b < 0.0
  {
  }

  /**
   * A pierce slows a moving bullet exactly when `factor * size > 1.25`, and speeds it
   * up exactly when `factor * size < 1.25`: damping does not always slow.
   */
  lemma DampenSpeedChange(v: Vec3, material: string, size: real)
    requires size > 0.0 && NormSquared(v) > 0.0
    ensures NormSquared(Dampen(v, material, size)) < NormSquared(v) <==> DampingFactor(material) * size > 1.25
    ensures NormSquared(Dampen(v, material, size)) > NormSquared(v) <==> DampingFactor(material) * size < 1.25
  {
    DivNormSquared(v, Divisor(material, size));
    ScaledBySquare(NormSquared(v), NormSquared(Dampen(v, material, size)), Divisor(material, size));
    assert Divisor(material, size) * 1.25 == DampingFactor(material) * size;
  }

  /** Every material speeds up a bullet piercing a part at most 0.8 studs thick. */
  lemma ThinPartsSpeedUp(v: Vec3, material: string, size: real)
    requires 0.0 < size <= 0.8 && NormSquared(v) > 0.0
    ensures NormSquared(Dampen(v, material, size)) > NormSquared(v)
  {
    DampenSpeedChange(v, material, size);
    assert DampingFactor(material) * size <= 1.55 * size;
  }

  /** Every material slows a bullet piercing a part at least 1.2 studs thick. */
  lemma ThickPartsSlowDown(v: Vec3, material: string, size: real)
    requires size >= 1.2 && NormSquared(v) > 0.0
    ensures NormSquared(Dampen(v, material, size)) < NormSquared(v)
  {
    DampenSpeedChange(v, material, size);
    assert DampingFactor(material) * size >= 1.05 * size;
  }

  // ---------------------------------------------------------------- thickness

  /** `math.floor(c) != 0` for a unit-normal component `c`. */
  predicate Selects(c: real) {
    c < 0.0 || c == 1.0
  }

  lemma FloorOnUnitInterval(c: real)
    requires -1.0 <= c <= 1.0
    ensures c.Floor != 0 <==> Selects(c)
  {
    if c < 0.0 {
      assert c.Floor == -1;
    } else if c < 1.0 {
      assert c.Floor == 0;
    }
  }

  /**
   * On a normal with components in [-1, 1] an axis is taken when its component is
   * negative or exactly 1, in the order X, Y, Z.
   */
  lemma ThicknessOnUnitNormal(normal: Vec3, size: Vec3)
    requires -1.0 <= normal.x <= 1.0 && -1.0 <= normal.y <= 1.0 && -1.0 <= normal.z <= 1.0
    ensures Thickness(normal, size) ==
      if Selects(normal.x) then size.x else if Selects(normal.y) then size.y else size.z
  {
    FloorOnUnitInterval(normal.x);
    FloorOnUnitInterval(normal.y);
  }

  /** The six face normals select their own axis. */
  lemma ThicknessOnFaceNormals(size: Vec3)
    ensures Thickness(Vec3(1.0, 0.0, 0.0), size) == size.x && Thickness(Vec3(-1.0, 0.0, 0.0), size) == size.x
    ensures Thickness(Vec3(0.0, 1.0, 0.0), size) == size.y && Thickness(Vec3(0.0, -1.0, 0.0), size) == size.y
    ensures Thickness(Vec3(0.0, 0.0, 1.0), size) == size.z && Thickness(Vec3(0.0, 0.0, -1.0), size) == size.z
  {
    FloorOnUnitInterval(1.0);
    FloorOnUnitInterval(-1.0);
    FloorOnUnitInterval(0.0);
  }

  /** A slanted normal mostly along Y still takes Z: the rule is not "the most aligned axis". */
  lemma ThicknessIgnoresAlignment(size: Vec3)
    ensures Thickness(Vec3(0.6, 0.8, 0.0), size) == size.z
  {
    FloorOnUnitInterval(0.6);
    FloorOnUnitInterval(0.8);
  }

  // ---------------------------------------------------------------- recycling

  /** Every part is returned at most as often as it was lent. */
  lemma BalancedBoundsReturns(s: Service)
    requires Balanced(s)
    ensures forall p :: multiset(s.returned)[p] <= multiset(s.acquired)[p]
    ensures forall p :: p in s.inUse ==> multiset(s.returned)[p] < multiset(s.acquired)[p]
  {
    forall p
      ensures multiset(s.returned)[p] <= multiset(s.acquired)[p]
    {
      assert multiset(s.acquired)[p] == multiset(s.returned)[p] + multiset(s.inUse)[p];
    }
    forall p | p in s.inUse
      ensures multiset(s.returned)[p] < multiset(s.acquired)[p]
    {
      assert multiset(s.acquired)[p] == multiset(s.returned)[p] + multiset(s.inUse)[p];
    }
  }

  lemma InitialInv()
    ensures Inv(Initial())
  {
  }

  lemma LendKeepsBalance(s: Service, part: PartId)
    requires Balanced(s) && part !in s.inUse
    ensures Balanced(s.(inUse := s.inUse + {part}, acquired := s.acquired + [part]))
  {
    assert multiset(s.inUse + {part}) == multiset(s.inUse) + multiset{part};
    assert multiset(s.acquired + [part]) == multiset(s.acquired) + multiset{part};
  }

  /** `resetBullet` on a part in use keeps the balance. */
  lemma ResetKeepsBalance(s: Service, part: PartId)
    requires Balanced(s) && part in s.inUse
    ensures Balanced(ResetBullet(s, part))
  {
    if s.cacheReady {
      assert multiset(s.inUse - {part}) + multiset{part} == multiset(s.inUse);
      assert multiset(s.returned + [part]) == multiset(s.returned) + multiset{part};
    }
  }

  lemma CreateKeepsInv(s: Service, user: UserId, hasCharacter: bool, origin: Vec3, direction: Vec3, speed: real,
                        gravity: real, part: PartId)
    requires Inv(s) && (Launches(s, user, hasCharacter) ==> part !in s.inUse)
    ensures Inv(Create(s, user, hasCharacter, origin, direction, speed, gravity, part).0)
  {
    if Launches(s, user, hasCharacter) {
      LendKeepsBalance(s, part);
    }
  }

  lemma RayHitKeepsInv(s: Service, h: nat, c: nat, hit: RayResult)
    requires Inv(s) && SameCaster(s, h, c)
    ensures Inv(RayHit(s, h, c, hit))
  {
    if s.casts[h].hitConnected {
      var s1 := s.(casts := s.casts[h := s.casts[h].(hitConnected := false)]);
      if s.casts[c].part in s.inUse {
        ResetKeepsBalance(s1.(impacts := s1.impacts + [Impact(hit.position, hit.normal, hit.material)]), s.casts[c].part);
      }
    }
  }

  lemma TimeoutKeepsInv(s: Service, h: nat)
    requires Inv(s) && h < |s.casts|
    ensures Inv(Timeout(s, h))
  {
    var bullet := s.casts[h].bulletInstance;
    if s.casts[h].timerPending && bullet.Some? && bullet.value in s.inUse {
      ResetKeepsBalance(s, bullet.value);
    }
  }

  lemma LengthChangedKeepsInv(s: Service, h: nat, c: nat)
    requires Inv(s) && SameCaster(s, h, c)
    ensures Inv(LengthChanged(s, h, c))
  {
  }

  lemma RayPiercedKeepsInv(s: Service, h: nat, c: nat, hit: RayResult, v: Vec3)
    requires Inv(s) && SameCaster(s, h, c) && PositiveSize(hit)
    ensures Inv(RayPierced(s, h, c, hit, v))
  {
  }

  /**
   * Every event keeps the balance of lendings and returns, under either handler: the
   * balance never depends on which part a `bulletInstance` names, only on a part
   * being in use before it is returned.
   */
  lemma StepKeepsBalance(s: Service, e: Event, program: Program)
    requires Balanced(s) && Enabled(s, e)
    ensures Balanced(Step(s, e, program))
  {
    match e
    case Created(user, hasCharacter, origin, direction, speed, gravity, part) =>
      if Launches(s, user, hasCharacter) {
        LendKeepsBalance(s, part);
      }
    case Hit(h, c, hit) =>
      if s.casts[h].hitConnected && s.casts[c].part in s.inUse {
        var s1 := s.(casts := s.casts[h := s.casts[h].(hitConnected := false)]);
        ResetKeepsBalance(s1.(impacts := s1.impacts + [Impact(hit.position, hit.normal, hit.material)]), s.casts[c].part);
      }
    case TimerFired(h) =>
      var bullet := s.casts[h].bulletInstance;
      if s.casts[h].timerPending && bullet.Some? && bullet.value in s.inUse {
        ResetKeepsBalance(s, bullet.value);
      }
    case _ =>
  }

  lemma {:induction false} RunKeepsBalance(s: Service, events: seq<Event>, program: Program)
    requires Balanced(s) && Run(s, events, program).Some?
    ensures Balanced(Run(s, events, program).value)
    decreases |events|
  {
    if |events| > 0 {
      StepKeepsBalance(s, events[0], program);
      RunKeepsBalance(Step(s, events[0], program), events[1..], program);
    }
  }

  /** With the corrected handler, every event keeps the whole invariant. */
  lemma StepKeepsInv(s: Service, e: Event)
    requires Inv(s) && Enabled(s, e)
    ensures Inv(Step(s, e, Corrected))
  {
    match e
    case Started =>
    case Joined(user) =>
    case Leaving(user) =>
    case Created(user, hasCharacter, origin, direction, speed, gravity, part) =>
      CreateKeepsInv(s, user, hasCharacter, origin, direction, speed, gravity, part);
    case Moved(h, c) =>
      LengthChangedKeepsInv(s, h, c);
    case Hit(h, c, hit) =>
      RayHitKeepsInv(s, h, c, hit);
    case Pierced(h, c, hit, v) =>
      RayPiercedKeepsInv(s, h, c, hit, v);
    case TimerFired(h) =>
      TimeoutKeepsInv(s, h);
  }

  lemma {:induction false} RunKeepsInv(s: Service, events: seq<Event>)
    requires Inv(s) && Run(s, events, Corrected).Some?
    ensures Inv(Run(s, events, Corrected).value)
    decreases |events|
  {
    if |events| > 0 {
      StepKeepsInv(s, events[0]);
      RunKeepsInv(Step(s, events[0], Corrected), events[1..]);
    }
  }

  /**
   * Over any run from the service's start, with the handler as written or corrected,
   * no part is returned to the cache more often than it was lent, and a part still
   * in use has been returned fewer times.
   */
  lemma ReturnedAtMostOncePerLending(events: seq<Event>, program: Program)
    requires Run(Initial(), events, program).Some?
    ensures var t := Run(Initial(), events, program).value;
      && (forall p :: multiset(t.returned)[p] <= multiset(t.acquired)[p])
      && (forall p :: p in t.inUse ==> multiset(t.returned)[p] < multiset(t.acquired)[p])
  {
    InitialInv();
    RunKeepsBalance(Initial(), events, program);
    BalancedBoundsReturns(Run(Initial(), events, program).value);
  }

  /** With every `bulletInstance` its own cast's part, a timeout returns nothing or its own part. */
  lemma TimeoutReturnsOwnPart(s: Service, h: nat)
    requires OwnBullets(s) && h < |s.casts|
    ensures Timeout(s, h).returned == s.returned || Timeout(s, h).returned == s.returned + [s.casts[h].part]
  {
  }

  /** A hit handler disconnects on the first hit it hears; later hits leave the state alone. */
  lemma HitHandlerRunsOnce(s: Service, h: nat, c: nat, c': nat, hit: RayResult, hit': RayResult)
    requires SameCaster(s, h, c) && SameCaster(s, h, c')
    ensures SameCaster(RayHit(s, h, c, hit), h, c')
    ensures RayHit(RayHit(s, h, c, hit), h, c', hit') == RayHit(s, h, c, hit)
  {
  }

  /** A timer fires once: a second firing changes nothing. */
  lemma TimeoutRunsOnce(s: Service, h: nat)
    requires h < |s.casts|
    ensures Timeout(Timeout(s, h), h) == Timeout(s, h)
  {
  }

  // ---------------------------------------------------------------- the shared caster

  /** One player (user 7, caster 0) has fired a bullet on part 10, then one on part 11. */
  function TwoBullets(): (s: Service)
    ensures |s.casts| == 2 && SameCaster(s, 0, 1) && SameCaster(s, 0, 0) && SameCaster(s, 1, 1)
    ensures s.inUse == {10, 11} && s.casts[0].part == 10 && s.casts[1].part == 11
    ensures s.casts[0].lengthConnected && s.casts[1].hitConnected && s.casts[0].timerPending
    ensures s.returned == []
  {
    var s0 := Service(true, map[7 := 0], 1, {}, [], [], map[], [], []);
    var s1 := Create(s0, 7, true, Zero, Vec3(0.0, 0.0, 1.0), 800.0, 196.2, 10).0;
    Create(s1, 7, true, Zero, Vec3(0.0, 0.0, 1.0), 800.0, 196.2, 11).0
  }

  /**
   * As written: the first bullet's `LengthChanged` handler hears both bullets move and
   * keeps the second one's part, so its timeout returns part 11, still flying, and
   * keeps part 10 out of the cache; the second bullet's later hit then finds its part
   * not in use and requests no impact effect.
   */
  lemma SharedCasterReturnsForeignPart(hit: RayResult)
    ensures var s := TwoBullets();
      var moved := LengthChangedAsWritten(LengthChangedAsWritten(s, 0, 0), 0, 1);
      var t := Timeout(moved, 0);
      && t.returned == [11] && 11 !in t.inUse && 10 in t.inUse
      && t.casts[1].timerPending && t.casts[1].hitConnected
      && RayHit(t, 1, 1, hit).impacts == t.impacts
  {
    var s := TwoBullets();
    var moved := LengthChangedAsWritten(LengthChangedAsWritten(s, 0, 0), 0, 1);
    assert moved.casts[0].bulletInstance == Some(11);
  }

  /** A run of `a + b` is a run of `a` continued by a run of `b`. */
  lemma {:induction false} RunAppend(s: Service, a: seq<Event>, b: seq<Event>, program: Program)
    ensures Run(s, a + b, program) ==
      (if Run(s, a, program).Some? then Run(Run(s, a, program).value, b, program) else None)
    decreases |a|
  {
    if |a| > 0 {
      assert (a + b)[0] == a[0] && (a + b)[1..] == a[1..] + b;
      if Enabled(s, a[0]) {
        RunAppend(Step(s, a[0], program), a[1..], b, program);
      }
    } else {
      assert a + b == b;
    }
  }

  /** One event that can happen, then the rest of the run. */
  lemma RunCons(s: Service, e: Event, rest: seq<Event>, program: Program)
    requires Enabled(s, e)
    ensures Run(s, [e] + rest, program) == Run(Step(s, e, program), rest, program)
  {
    assert ([e] + rest)[1..] == rest;
  }

  const Forward: Vec3 := Vec3(0.0, 0.0, 1.0)

  /** User 7 joins and fires a bullet on part 10, which records its part and hits. */
  function FirstBulletEvents(hit: RayResult): seq<Event> {
    [Started, Joined(7), Created(7, true, Zero, Forward, 800.0, 196.2, 10), Moved(0, 0), Hit(0, 0, hit)]
  }

  /** User 7 fires a second bullet, again on part 10, and the first bullet's timer fires. */
  function SecondBulletEvents(): seq<Event> {
    [Created(7, true, Zero, Forward, 800.0, 196.2, 10), TimerFired(0)]
  }

  /** The events of a run in which the cache lends part 10 twice, to one player's first and second bullet. */
  function RecycledPartEvents(hit: RayResult): seq<Event> {
    FirstBulletEvents(hit) + SecondBulletEvents()
  }

  lemma FirstBulletHits(hit: RayResult) returns (s: Service)
    ensures Run(Initial(), FirstBulletEvents(hit), Corrected) == Some(s)
    ensures s.cacheReady && s.casters == map[7 := 0] && s.inUse == {}
    ensures s.acquired == [10] && s.returned == [10]
    ensures |s.casts| == 1 && s.casts[0].caster == 0 && s.casts[0].part == 10
    ensures s.casts[0].bulletInstance == Some(10) && s.casts[0].timerPending
  {
    var events := FirstBulletEvents(hit);
    var s1 := Step(Initial(), Started, Corrected);
    var s2 := Step(s1, Joined(7), Corrected);
    assert s2.casters == map[7 := 0] && s2.inUse == {};
    var s3 := Step(s2, events[2], Corrected);
    assert s3.inUse == {10} && |s3.casts| == 1 && s3.casts[0].part == 10 && s3.casts[0].caster == 0;
    var s4 := Step(s3, Moved(0, 0), Corrected);
    assert s4.casts[0].bulletInstance == Some(10) && s4.inUse == {10};
    s := Step(s4, Hit(0, 0, hit), Corrected);
    RunCons(s4, Hit(0, 0, hit), [], Corrected);
    RunCons(s3, Moved(0, 0), [Hit(0, 0, hit)], Corrected);
    RunCons(s2, events[2], events[3..], Corrected);
    RunCons(s1, Joined(7), events[2..], Corrected);
    RunCons(Initial(), Started, events[1..], Corrected);
  }

  lemma SecondBulletStaleTimeout(s: Service, hit': RayResult) returns (t: Service)
    requires s.cacheReady && s.casters == map[7 := 0] && s.inUse == {}
    requires s.acquired == [10] && s.returned == [10]
    requires |s.casts| == 1 && s.casts[0].caster == 0 && s.casts[0].part == 10
    requires s.casts[0].bulletInstance == Some(10) && s.casts[0].timerPending
    ensures Run(s, SecondBulletEvents(), Corrected) == Some(t)
    ensures |t.casts| == 2 && t.casts[1].part == 10 && SameCaster(t, 1, 1)
    ensures t.acquired == [10, 10] && t.returned == [10, 10] && 10 !in t.inUse
    ensures t.casts[1].hitConnected && t.casts[1].timerPending
    ensures RayHit(t, 1, 1, hit').impacts == t.impacts
  {
    var events := SecondBulletEvents();
    var s1 := Step(s, events[0], Corrected);
    assert s1.inUse == {10} && s1.casts[0] == s.casts[0] && s1.casts[1].part == 10;
    t := Step(s1, TimerFired(0), Corrected);
    RunCons(s1, TimerFired(0), [], Corrected);
    RunCons(s, events[0], events[1..], Corrected);
  }

  /**
   * Even with the corrected handler, a timer can return a part that is out on a later
   * lending: the first bullet records part 10 and hits, which returns 10; the cache
   * lends 10 again to the second bullet, and the first bullet's timer, finding 10 in
   * use, returns it while the second bullet still flies on it. That bullet's hit then
   * finds its part not in use and requests no impact effect.
   */
  lemma RecycledPartStaleTimeout(hit: RayResult, hit': RayResult)
    ensures Run(Initial(), RecycledPartEvents(hit), Corrected).Some?
    ensures var t := Run(Initial(), RecycledPartEvents(hit), Corrected).value;
      && |t.casts| == 2 && t.casts[1].part == 10 && SameCaster(t, 1, 1)
      && t.acquired == [10, 10] && t.returned == [10, 10] && 10 !in t.inUse
      && t.casts[1].hitConnected && t.casts[1].timerPending
      && RayHit(t, 1, 1, hit').impacts == t.impacts
  {
    var s := FirstBulletHits(hit);
    var t := SecondBulletStaleTimeout(s, hit');
    RunAppend(Initial(), FirstBulletEvents(hit), SecondBulletEvents(), Corrected);
  }

  /** With the intended handler the same events make the first bullet's timeout return its own part 10. */
  lemma OwnCastTimeoutReturnsOwnPart()
    ensures var s := TwoBullets();
      var moved := LengthChanged(LengthChanged(s, 0, 0), 0, 1);
      var t := Timeout(moved, 0);
      && t.returned == [10] && 10 !in t.inUse && 11 in t.inUse
  {
    var s := TwoBullets();
    var moved := LengthChanged(LengthChanged(s, 0, 0), 0, 1);
    assert moved.casts[0].bulletInstance == Some(10);
  }
}

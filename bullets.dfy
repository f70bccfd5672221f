/**
 * The `Bullets` service (src/server/services/Bullets.ts) as an object: the caster
 * table, the part cache's in-use set with its lending and return logs, and one record
 * per cast for the state its handlers and timer close over. Each method moves the
 * service to the state the matching function of BulletsSpec gives. The hooks,
 * `create`, the handlers and the timer also keep BulletsSpec.Inv; `ResetBullet`,
 * called on a part in use, keeps BulletsSpec.Balanced. The `LengthChanged` handler is
 * the corrected one (only its own cast's movement sets `bulletInstance`).
 */
module Bullets {
  import opened Shared
  import S = BulletsSpec
  import P = BulletsProperties

  class BulletService {
    var cacheReady: bool
    var casters: map<S.UserId, S.CasterId>
    var nextCaster: S.CasterId
    var inUse: set<S.PartId>
    /** Every part the cache lent, in order. */
    var acquired: seq<S.PartId>
    /** Every `ReturnPart`, in order. */
    var returned: seq<S.PartId>
    var partVelocity: map<S.PartId, Vec3>
    var casts: seq<S.Cast>
    /** Every `createImpactVFX` request, in order. */
    var impacts: seq<S.Impact>

    function Snapshot(): S.Service
      reads this
    {
      S.Service(cacheReady, casters, nextCaster, inUse, acquired, returned, partVelocity, casts, impacts)
    }

    constructor ()
      ensures Snapshot() == S.Initial()
    {
      cacheReady, casters, nextCaster := false, map[], 0;
      inUse, acquired, returned, partVelocity := {}, [], [], map[];
      casts, impacts := [], [];
    }

    /** `onStart`: the cache is created. */
    method Start()
      modifies this
      ensures Snapshot() == S.Start(old(Snapshot()))
      ensures S.Inv(old(Snapshot())) ==> S.Inv(Snapshot())
    {
      cacheReady := true;
    }

    method PlayerAdded(user: S.UserId)
      modifies this
      ensures Snapshot() == S.PlayerAdded(old(Snapshot()), user)
      ensures S.Inv(old(Snapshot())) ==> S.Inv(Snapshot())
    {
      casters := casters[user := nextCaster];
      nextCaster := nextCaster + 1;
    }

    method PlayerRemoving(user: S.UserId)
      modifies this
      ensures Snapshot() == S.PlayerRemoving(old(Snapshot()), user)
      ensures S.Inv(old(Snapshot())) ==> S.Inv(Snapshot())
    {
      casters := casters - {user};
    }

    /** `resetBullet`. */
    method ResetBullet(part: S.PartId)
      modifies this
      ensures Snapshot() == S.ResetBullet(old(Snapshot()), part)
      ensures S.Balanced(old(Snapshot())) && part in old(inUse) ==> S.Balanced(Snapshot())
    {
      if S.Balanced(Snapshot()) && part in inUse {
        P.ResetKeepsBalance(Snapshot(), part);
      }
      partVelocity := partVelocity[part := Zero];
      if cacheReady {
        inUse := inUse - {part};
        returned := returned + [part];
      }
    }

    /**
     * `create`; `hasCharacter` says whether the player has a character with a primary
     * part, and `part` is the part the cache lends to the new cast.
     */
    method Create(user: S.UserId, hasCharacter: bool, origin: Vec3, direction: Vec3, speed: real, gravity: real,
                  part: S.PartId)
      returns (result: S.CreateResult)
      requires S.Launches(Snapshot(), user, hasCharacter) ==> part !in inUse
      modifies this
      ensures (Snapshot(), result) == S.Create(old(Snapshot()), user, hasCharacter, origin, direction, speed, gravity, part)
      ensures S.Inv(old(Snapshot())) ==> S.Inv(Snapshot())
    {
      if S.Inv(Snapshot()) {
        P.CreateKeepsInv(Snapshot(), user, hasCharacter, origin, direction, speed, gravity, part);
      }
      if !cacheReady {
        return S.NotReady;
      }
      if user !in casters {
        return S.NoCaster;
      }
      if !hasCharacter {
        return S.NoCharacter;
      }
      var cast := S.Cast(casters[user], part, S.LaunchOf(origin, direction, speed, gravity), None,
                         true, true, true, true, None);
      inUse := inUse + {part};
      acquired := acquired + [part];
      casts := casts + [cast];
      return S.Launched(|casts| - 1);
    }

    /** Cast `h`'s `LengthChanged` handler hears cast `c` move. */
    method LengthChanged(h: nat, c: nat)
      requires S.SameCaster(Snapshot(), h, c)
      modifies this
      ensures Snapshot() == S.LengthChanged(old(Snapshot()), h, c)
      ensures S.Inv(old(Snapshot())) ==> S.Inv(Snapshot())
    {
      if !casts[h].lengthConnected || c != h {
        return;
      }
      casts := casts[h := casts[h].(bulletInstance := Some(casts[c].part))];
    }

    /** Cast `h`'s `RayHit` handler hears cast `c` hit. */
    method RayHit(h: nat, c: nat, hit: S.RayResult)
      requires S.SameCaster(Snapshot(), h, c)
      modifies this
      ensures Snapshot() == S.RayHit(old(Snapshot()), h, c, hit)
      ensures S.Inv(old(Snapshot())) ==> S.Inv(Snapshot())
    {
      if S.Inv(Snapshot()) {
        P.RayHitKeepsInv(Snapshot(), h, c, hit);
      }
      if !casts[h].hitConnected {
        return;
      }
      casts := casts[h := casts[h].(hitConnected := false)];
      var part := casts[c].part;
      if part !in inUse {
        return;
      }
      impacts := impacts + [S.Impact(hit.position, hit.normal, hit.material)];
      ResetBullet(part);
    }

    /** Cast `h`'s `RayPierced` handler hears cast `c` pierce. */
    method RayPierced(h: nat, c: nat, hit: S.RayResult, segVelocity: Vec3)
      requires S.SameCaster(Snapshot(), h, c) && S.PositiveSize(hit)
      modifies this
      ensures Snapshot() == S.RayPierced(old(Snapshot()), h, c, hit, segVelocity)
      ensures S.Inv(old(Snapshot())) ==> S.Inv(Snapshot())
    {
      if !casts[h].piercedConnected || casts[c].part !in inUse {
        return;
      }
      impacts := impacts + [S.Impact(hit.position, Neg(hit.normal), hit.material)];
      var size := S.Thickness(hit.normal, hit.instance.size);
      casts := casts[c := casts[c].(velocity := Some(S.Dampen(segVelocity, hit.material, size)))];
    }

    /** Cast `h`'s 6-second timer fires. */
    method Timeout(h: nat)
      requires h < |casts|
      modifies this
      ensures Snapshot() == S.Timeout(old(Snapshot()), h)
      ensures S.Inv(old(Snapshot())) ==> S.Inv(Snapshot())
    {
      if S.Inv(Snapshot()) {
        P.TimeoutKeepsInv(Snapshot(), h);
      }
      if !casts[h].timerPending {
        return;
      }
      var bullet := casts[h].bulletInstance;
      if bullet.Some? && bullet.value in inUse {
        ResetBullet(bullet.value);
      }
      casts := casts[h := casts[h].(piercedConnected := false, lengthConnected := false, timerPending := false)];
    }
  }
}

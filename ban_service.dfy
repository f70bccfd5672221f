/**
 * `BanService` (src/server/services/player/ban-service.ts): the `banInfo` record of
 * each player's profile, the rule that removes a joining player, and `ban`/`unban`,
 * which rewrite that record in place. The profile store is a map from user id to
 * `banInfo`; the removal service is a log of the removals asked of it.
 */
module Ban {
  import opened Shared

  type UserId = int

  /** `BanReason`: `Unbanned` or one of the reasons a ban can name. */
  datatype BanReason = Unbanned | Reason(name: string)

  /** `profile.Data.banInfo`. */
  datatype BanInfo = BanInfo(banned: bool, reason: BanReason)

  /** One `removeDueToBan(player, reason)` request. */
  datatype Removal = Removal(user: UserId, reason: BanReason)

  type Profiles = map<UserId, BanInfo>

  /** A joining player stays only when not banned and the reason is `Unbanned`. */
  predicate Admitted(info: BanInfo) {
    !info.banned && info.reason == Unbanned
  }

  /** The removal `onPlayerAdded` asks for, if any. */
  function RemovalOnJoin(profiles: Profiles, user: UserId): (r: Option<Removal>)
    ensures r.None? <==> user !in profiles || Admitted(profiles[user])
    ensures r.Some? ==> r.value == Removal(user, profiles[user].reason)
  {
    if user !in profiles then None
    else if Admitted(profiles[user]) then None
    else Some(Removal(user, profiles[user].reason))
  }

  /** The removals logged for an optional request. */
  function Logged(request: Option<Removal>): seq<Removal> {
    match request
    case None => []
    case Some(removal) => [removal]
  }

  /** The profiles after `ban(user, reason)`: only that user's record changes, and only if it exists. */
  function WithBan(profiles: Profiles, user: UserId, reason: BanReason): (r: Profiles)
    ensures r.Keys == profiles.Keys
    ensures user in profiles ==> r[user].banned && r[user].reason == reason
    ensures forall u :: u in profiles && u != user ==> r[u] == profiles[u]
  {
    if user !in profiles then profiles
    else profiles[user := BanInfo(true, reason)]
  }

  /** The profiles after `unban(user)`: only that user's record changes, and only if it exists. */
  function WithoutBan(profiles: Profiles, user: UserId): (r: Profiles)
    ensures r.Keys == profiles.Keys
    ensures user in profiles ==> Admitted(r[user])
    ensures forall u :: u in profiles && u != user ==> r[u] == profiles[u]
  {
    if user !in profiles then profiles
    else profiles[user := BanInfo(false, Unbanned)]
  }

  /** A banned player is removed again on every later join, with the ban's reason. */
  lemma BanThenJoinRemoved(profiles: Profiles, user: UserId, reason: BanReason)
    requires user in profiles
    ensures RemovalOnJoin(WithBan(profiles, user, reason), user) == Some(Removal(user, reason))
  {
  }

  /** After `unban`, the user is not removed on joining. */
  lemma UnbanThenJoinAdmitted(profiles: Profiles, user: UserId)
    ensures RemovalOnJoin(WithoutBan(profiles, user), user) == None
  {
  }

  /** A record that is unbanned but still names a reason removes the player. */
  lemma StaleReasonRemoves(profiles: Profiles, user: UserId)
    requires user in profiles && !profiles[user].banned && profiles[user].reason != Unbanned
    ensures RemovalOnJoin(profiles, user) == Some(Removal(user, profiles[user].reason))
  {
  }

  /** Banning or unbanning one user does not change whether another user is removed. */
  lemma OtherUsersUnaffected(profiles: Profiles, user: UserId, other: UserId, reason: BanReason)
    requires other != user
    ensures RemovalOnJoin(WithBan(profiles, user, reason), other) == RemovalOnJoin(profiles, other)
    ensures RemovalOnJoin(WithoutBan(profiles, user), other) == RemovalOnJoin(profiles, other)
  {
  }

  /** `unban` after `ban` leaves the same record as `unban` alone; a repeated `unban` changes nothing. */
  lemma UnbanUndoesBan(profiles: Profiles, user: UserId, reason: BanReason)
    ensures WithoutBan(WithBan(profiles, user, reason), user) == WithoutBan(profiles, user)
    ensures WithoutBan(WithoutBan(profiles, user), user) == WithoutBan(profiles, user)
  {
  }

  class BanService {
    /** The `banInfo` of every profile `getProfile` and `loadProfile` can reach. */
    var profiles: Profiles
    /** Every `removeDueToBan` request, in order. */
    var removals: seq<Removal>

    constructor (stored: Profiles)
      ensures profiles == stored && removals == []
    {
      profiles := stored;
      removals := [];
    }

    method OnPlayerAdded(user: UserId)
      modifies this
      ensures profiles == old(profiles)
      ensures removals == old(removals) + Logged(RemovalOnJoin(old(profiles), user))
    {
      if user !in profiles {
        return;
      }
      var info := profiles[user];
      if !info.banned && info.reason == Unbanned {
        return;
      }
      removals := removals + [Removal(user, info.reason)];
    }

    method Ban(user: UserId, reason: BanReason)
      modifies this
      ensures profiles == WithBan(old(profiles), user, reason)
      ensures removals == old(removals) + (if user in old(profiles) then [Removal(user, reason)] else [])
    {
      if user !in profiles {
        return;
      }
      profiles := profiles[user := profiles[user].(banned := true)];
      profiles := profiles[user := profiles[user].(reason := reason)];
      removals := removals + [Removal(user, reason)];
    }

    method Unban(user: UserId)
      modifies this
      ensures profiles == WithoutBan(old(profiles), user)
      ensures removals == old(removals)
    {
      if user !in profiles {
        return;
      }
      profiles := profiles[user := profiles[user].(banned := false)];
      profiles := profiles[user := profiles[user].(reason := Unbanned)];
    }
  }
}

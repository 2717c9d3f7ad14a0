/** The session repository's transactions as imperative code: each either commits all its writes or none. */
module SessionRepository {
  import opened Common
  import opened Sessions

  datatype RotateResult = NotFound | Refused | RotatedTo(id: SessionId, user: UserId, device: DeviceId)

  datatype UpsertResult = UpsertFailed | Upserted(id: SessionId)

  predicate HasHash(active: map<SessionId, Session>, hash: Hash) {
    exists id :: id in active && active[id].hash == hash
  }

  /** No session but `id` has this token. */
  predicate FreeFor(active: map<SessionId, Session>, id: SessionId, hash: Hash) {
    forall other :: other in active && active[other].hash == hash ==> other == id
  }

  /** The unique key on refresh_token_hash. */
  ghost predicate UniqueHashes(active: map<SessionId, Session>) {
    forall id :: id in active ==> FreeFor(active, id, active[id].hash)
  }

  /** Session `id` has the old token, has not expired, and may take the new one. */
  ghost predicate Rotatable(active: map<SessionId, Session>, id: SessionId, oldHash: Hash, newHash: Hash, now: nat) {
    id in active && active[id].hash == oldHash && now <= active[id].expiresAt && FreeFor(active, id, newHash)
  }

  /** The repository accepts a token exactly when the machine of all sessions lets it be rotated. */
  lemma RotatableExactlyWhenEnabled(s: State, id: SessionId, oldHash: Hash, newHash: Hash, client: Client,
                                    expiresAt: nat)
    requires TokenInv(s) && newHash !in s.issued
    ensures Rotatable(s.active, id, oldHash, newHash, s.now)
       <==> Enabled(s, Rotate(id, oldHash, newHash, client, expiresAt))
    ensures UniqueHashes(s.active)
  {
    forall i | i in s.active ensures s.active[i].hash in s.issued && FreeFor(s.active, i, s.active[i].hash) {
      assert ActiveOk(s, i);
      forall j | j in s.active && s.active[j].hash == s.active[i].hash ensures j == i { assert PairOk(s, j, i); }
    }
  }

  class Repository {
    var active: map<SessionId, Session>
    var history: seq<HistoryRow>

    /**
     RotateRefreshToken; `faults` are the statements (0 BEGIN, 1 SELECT, 2 UPDATE, 3 SELECT, 4 COMMIT) that fail. The
     UPDATE is refused as well when another session has the new token, by the unique key.
     */
    method RotateRefreshToken(client: Client, oldHash: Hash, newHash: Hash, expiresAt: nat, now: nat, faults: set<nat>)
      returns (r: RotateResult)
      requires UniqueHashes(active)
      modifies this
      ensures UniqueHashes(active) && history == old(history)
      ensures r == NotFound <==> 0 !in faults && 1 !in faults && !HasHash(old(active), oldHash)
      ensures r.RotatedTo? <==>
                && (forall k :: 0 <= k <= 4 ==> k !in faults)
                && (exists id :: Rotatable(old(active), id, oldHash, newHash, now))
      ensures r.RotatedTo? ==>
                && Rotatable(old(active), r.id, oldHash, newHash, now)
                && r.user == old(active)[r.id].user && r.device == old(active)[r.id].device
                && active == old(active)[r.id := old(active)[r.id].(hash := newHash, client := client,
                                                                   expiresAt := expiresAt, lastUsedAt := now)]
      ensures !r.RotatedTo? ==> active == old(active)
    {
      if 0 in faults || 1 in faults {
        return Refused;
      }
      if !HasHash(active, oldHash) {
        return NotFound;
      }
      var id :| id in active && active[id].hash == oldHash;
      var session := active[id];
      if session.expiresAt < now {
        return Refused;
      }
      if 2 in faults || !FreeFor(active, id, newHash) {
        return Refused;
      }
      var written := active[id := Renew(session, newHash, client, expiresAt, now)];
      if 3 in faults || 4 in faults {
        return Refused;
      }
      assert Rotatable(active, id, oldHash, newHash, now);
      active := written;
      return RotatedTo(id, session.user, session.device);
    }

    /** RevokeSession: archive the row, then delete it; nothing matched is an error. */
    method RevokeSession(user: UserId, id: SessionId, reason: string, revokedBy: string, now: nat, faults: set<nat>)
      returns (ok: bool)
      modifies this
      ensures ok <==> id in old(active) && old(active)[id].user == user && forall k :: 0 <= k <= 4 ==> k !in faults
      ensures active == if ok then old(active) - {id} else old(active)
      ensures !ok ==> history == old(history)
      ensures ok ==> var was := old(active)[id];
                     history == old(history) + [HistoryRow(
                       id := id, user := was.user, device := was.device, hash := was.hash, client := was.client,
                       createdAt := was.createdAt, lastUsedAt := was.lastUsedAt, revokedAt := now,
                       cause := Revoked(reason, revokedBy))]
    {
      if 0 in faults || 1 in faults || 2 in faults {
        return false;
      }
      var matched := if id in active && active[id].user == user then {id} else {};
      if matched == {} {
        return false;
      }
      var archived := history + [Archive(id, active[id], now, Revoked(reason, revokedBy))];
      if 3 in faults {
        return false;
      }
      var remaining := active - matched;
      if 4 in faults {
        return false;
      }
      active, history := remaining, archived;
      return true;
    }

    /**
     UpsertSession's statements after the device row: `existing` is what the unlocked read returned. An existing
     session is archived (that insert's error is ignored) and updated in place; otherwise a new row is
     inserted, which the unique key on (user, device) may refuse.
     */
    method UpsertSession(user: UserId, device: DeviceId, existing: Option<SessionId>, newId: SessionId, hash: Hash,
                         client: Client, expiresAt: nat, now: nat, archiveFails: bool, writeFails: bool)
      returns (r: UpsertResult)
      modifies this
      ensures r.Upserted? <==> !writeFails && (existing.None? ==> Vacant(old(active), user, device))
      ensures r.Upserted? ==> r.id == if existing.Some? then existing.value else newId
      ensures active == if !r.Upserted? || (existing.Some? && existing.value !in old(active)) then old(active)
                        else if existing.Some?
                        then old(active)[r.id := old(active)[r.id].(hash := hash, client := client,
                                                                    expiresAt := expiresAt, lastUsedAt := now)]
                        else old(active)[newId := Session(user := user, device := device, hash := hash,
                                                          client := client, createdAt := now, lastUsedAt := now,
                                                          expiresAt := expiresAt)]
      ensures existing.Some? && existing.value in old(active) && !archiveFails ==>
                var was := old(active)[existing.value];
                history == old(history) + [HistoryRow(
                  id := existing.value, user := was.user, device := was.device, hash := was.hash, client := was.client,
                  createdAt := was.createdAt, lastUsedAt := was.lastUsedAt, revokedAt := now, cause := Rotated)]
      ensures existing.None? || existing.value !in old(active) || archiveFails ==> history == old(history)
    {
      if existing.Some? {
        var id := existing.value;
        if id in active && !archiveFails {
          history := history + [Archive(id, active[id], now, Rotated)];
        }
        if writeFails {
          return UpsertFailed;
        }
        if id in active {
          active := active[id := Renew(active[id], hash, client, expiresAt, now)];
        }
        return Upserted(id);
      }
      if writeFails || exists id :: id in active && Owns(active[id], user, device) {
        return UpsertFailed;
      }
      active := active[newId := Session(user, device, hash, client, now, now, expiresAt)];
      return Upserted(newId);
    }
  }
}

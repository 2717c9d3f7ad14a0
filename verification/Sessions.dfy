/**
 Device sessions: login, refresh-token rotation and revocation. A login reads the existing session without
 locking it and writes later, so anything may commit in between; rotation and revocation lock the row they
 read and are therefore atomic. Session ids and token hashes are fresh values.
 */
module Sessions {
  import opened Common

  type UserId = nat
  type DeviceId = nat
  type SessionId = nat
  type Hash = nat
  type TxId = nat

  /** What a client sends along: address and user agent. */
  datatype Client = Client(ip: string, agent: string)

  datatype Session = Session(user: UserId, device: DeviceId, hash: Hash, client: Client,
                             createdAt: nat, lastUsedAt: nat, expiresAt: nat)

  /** Why a history row was written: by a login over an existing session, or by a revocation. */
  datatype Cause = Rotated | Revoked(reason: string, revokedBy: string)

  datatype HistoryRow = HistoryRow(id: SessionId, user: UserId, device: DeviceId, hash: Hash, client: Client,
                                   createdAt: nat, lastUsedAt: nat, revokedAt: nat, cause: Cause)

  function Archive(id: SessionId, s: Session, now: nat, cause: Cause): HistoryRow {
    HistoryRow(id, s.user, s.device, s.hash, s.client, s.createdAt, s.lastUsedAt, now, cause)
  }

  /** UPDATE device_sessions SET refresh_token_hash, expires_at, ip_address, user_agent, last_used_at. */
  function Renew(s: Session, hash: Hash, client: Client, expiresAt: nat, now: nat): Session {
    s.(hash := hash, client := client, expiresAt := expiresAt, lastUsedAt := now)
  }

  datatype Login = Login(user: UserId, device: DeviceId, existing: Option<SessionId>)

  /**
   `issued` holds every hash handed out, `ever` every session id ever committed, `last` the last active value
   of each of them, and `accepted` the hashes that rotations accepted, in order.
   */
  datatype State = State(active: map<SessionId, Session>, history: seq<HistoryRow>, now: nat,
                         logins: map<TxId, Login>, issued: set<Hash>, ever: set<SessionId>,
                         last: map<SessionId, Session>, accepted: seq<Hash>)

  const EMPTY: State := State(map[], [], 0, map[], {}, {}, map[], [])

  datatype Action =
    | Tick(seconds: nat)
    | LoginRead(tx: TxId, user: UserId, device: DeviceId, existing: Option<SessionId>, fails: bool)
    | LoginWrite(tx: TxId, id: SessionId, hash: Hash, client: Client, expiresAt: nat, archived: bool, stored: bool)
    | LoginAbort(tx: TxId)
    | Rotate(id: SessionId, oldHash: Hash, hash: Hash, client: Client, expiresAt: nat)
    | Revoke(id: SessionId, user: UserId, reason: string, revokedBy: string)

  predicate Owns(s: Session, user: UserId, device: DeviceId) {
    s.user == user && s.device == device
  }

  /** The two sessions are of the same user on the same device. */
  predicate SameOwner(a: Session, b: Session) {
    Owns(a, b.user, b.device)
  }

  ghost predicate IsExisting(active: map<SessionId, Session>, user: UserId, device: DeviceId,
                             found: Option<SessionId>) {
    match found
    case Some(id) => id in active && Owns(active[id], user, device)
    case None => forall id :: id in active ==> !Owns(active[id], user, device)
  }

  ghost predicate Enabled(s: State, a: Action) {
    match a
    case Tick(_) => true
    case LoginRead(tx, user, device, existing, fails) =>
      tx !in s.logins && (if fails then existing.None? else IsExisting(s.active, user, device, existing))
    case LoginWrite(tx, id, hash, _, _, _, _) => tx in s.logins && hash !in s.issued && id !in s.ever
    case LoginAbort(tx) => tx in s.logins
    case Rotate(id, oldHash, hash, _, _) =>
      id in s.active && s.active[id].hash == oldHash && s.now <= s.active[id].expiresAt && hash !in s.issued
    case Revoke(id, user, _, _) => id in s.active && s.active[id].user == user
  }

  function WithSession(s: State, id: SessionId, session: Session): State {
    s.(active := s.active[id := session], last := s.last[id := session],
       ever := s.ever + {id}, issued := s.issued + {session.hash})
  }

  /** The unique key on (user_id, device_id) lets a new session in. */
  ghost predicate Vacant(active: map<SessionId, Session>, user: UserId, device: DeviceId) {
    IsExisting(active, user, device, None)
  }

  /**
   What UpsertSession writes, given what its unlocked read saw; a failed read counts as having seen nothing. The
   archive's error is ignored here, and the write's (`!stored`) by Login, which commits and hands the hash out.
   */
  ghost function Upsert(s: State, l: Login, a: Action): State
    requires a.LoginWrite?
  {
    match l.existing
    case Some(id) =>
      if id in s.active then
        var archived :=
          s.(history := if a.archived then s.history + [Archive(id, s.active[id], s.now, Rotated)] else s.history);
        if a.stored
        then WithSession(archived, id, Renew(s.active[id], a.hash, a.client, a.expiresAt, s.now))
        else archived.(issued := s.issued + {a.hash})
      else s.(issued := s.issued + {a.hash})
    case None =>
      if a.stored && Vacant(s.active, l.user, l.device)
      then WithSession(s, a.id, Session(l.user, l.device, a.hash, a.client, s.now, s.now, a.expiresAt))
      else s.(issued := s.issued + {a.hash})
  }

  ghost function Apply(s: State, a: Action): State
    requires Enabled(s, a)
  {
    match a
    case Tick(seconds) => s.(now := s.now + seconds)
    case LoginRead(tx, user, device, existing, _) => s.(logins := s.logins[tx := Login(user, device, existing)])
    case LoginWrite(tx, _, _, _, _, _, _) => Upsert(s, s.logins[tx], a).(logins := s.logins - {tx})
    case LoginAbort(tx) => s.(logins := s.logins - {tx})
    case Rotate(id, oldHash, hash, client, expiresAt) =>
      WithSession(s, id, Renew(s.active[id], hash, client, expiresAt, s.now)).(accepted := s.accepted + [oldHash])
    case Revoke(id, _, reason, revokedBy) =>
      s.(active := s.active - {id},
         history := s.history + [Archive(id, s.active[id], s.now, Revoked(reason, revokedBy))])
  }

  ghost predicate Valid(s: State, run: seq<Action>)
    decreases |run|
  {
    run == [] || (Enabled(s, run[0]) && Valid(Apply(s, run[0]), run[1..]))
  }

  ghost function Exec(s: State, run: seq<Action>): State
    requires Valid(s, run)
    decreases |run|
  {
    if run == [] then s else Exec(Apply(s, run[0]), run[1..])
  }

  // ----- Tokens -----

  ghost predicate Current(s: State, h: Hash) {
    exists id :: id in s.active && s.active[id].hash == h
  }

  /** Handed out, and no longer the token of any session. */
  ghost predicate Dead(s: State, h: Hash) {
    h in s.issued && !Current(s, h)
  }

  /** The one session row a step writes, if any. */
  ghost function Written(s: State, a: Action): Option<(SessionId, Session)>
    requires Enabled(s, a)
  {
    match a
    case Rotate(id, _, hash, client, expiresAt) => Some((id, Renew(s.active[id], hash, client, expiresAt, s.now)))
    case LoginWrite(tx, id, hash, client, expiresAt, _, stored) =>
      var l := s.logins[tx];
      (match l.existing
       case Some(old') =>
         if stored && old' in s.active
         then Some((old', Renew(s.active[old'], hash, client, expiresAt, s.now))) else None
       case None =>
         if stored && Vacant(s.active, l.user, l.device)
         then Some((id, Session(l.user, l.device, hash, client, s.now, s.now, expiresAt))) else None)
    case _ => None
  }

  function RemovedBy(a: Action): set<SessionId> {
    if a.Revoke? then {a.id} else {}
  }

  /**
   Every step leaves the active sessions alone, removes one, or writes one row whose token is fresh and whose
   (user, device) is that of the row it replaces, or was vacant.
   */
  lemma StepShape(s: State, a: Action)
    requires Enabled(s, a)
    ensures s.issued <= Apply(s, a).issued && s.ever <= Apply(s, a).ever
    ensures match Written(s, a)
            case None => Apply(s, a).active == s.active - RemovedBy(a) && Apply(s, a).ever == s.ever
            case Some((id, v)) =>
              && Apply(s, a).active == s.active[id := v] && Apply(s, a).ever == s.ever + {id}
              && v.hash !in s.issued && v.hash in Apply(s, a).issued
              && ((id in s.active && Owns(v, s.active[id].user, s.active[id].device))
                  || (id !in s.ever && Vacant(s.active, v.user, v.device)))
  {
  }

  ghost predicate ActiveOk(s: State, id: SessionId)
    requires id in s.active
  {
    s.active[id].hash in s.issued && id in s.ever
  }

  ghost predicate PairOk(s: State, i: SessionId, j: SessionId)
    requires i in s.active && j in s.active
  {
    i != j ==> s.active[i].hash != s.active[j].hash && !Owns(s.active[i], s.active[j].user, s.active[j].device)
  }

  ghost predicate TokenInv(s: State) {
    && (forall id :: id in s.active ==> ActiveOk(s, id))
    && (forall i, j :: i in s.active && j in s.active ==> PairOk(s, i, j))
    && (forall k :: 0 <= k < |s.accepted| ==> Dead(s, s.accepted[k]))
    && Distinct(s.accepted)
  }

  lemma StepKeepsDead(s: State, a: Action, h: Hash)
    requires Enabled(s, a) && Dead(s, h)
    ensures Dead(Apply(s, a), h)
  {
    StepShape(s, a);
    var s' := Apply(s, a);
    forall j | j in s'.active ensures s'.active[j].hash != h {
      if j in s.active && s'.active[j] == s.active[j] {
        assert !Current(s, h);
      }
    }
  }

  /** A session whose token is replaced or removed leaves its old token dead. */
  lemma ReplacedTokenIsDead(s: State, a: Action, id: SessionId)
    requires TokenInv(s) && Enabled(s, a) && id in s.active
    requires id in Apply(s, a).active ==> Apply(s, a).active[id].hash != s.active[id].hash
    ensures Dead(Apply(s, a), s.active[id].hash)
  {
    StepShape(s, a);
    assert ActiveOk(s, id);
    var s' := Apply(s, a);
    forall j | j in s'.active ensures s'.active[j].hash != s.active[id].hash {
      if j in s.active {
        assert PairOk(s, j, id);
      }
    }
  }

  lemma StepKeepsPairOk(s: State, a: Action, i: SessionId, j: SessionId)
    requires TokenInv(s) && Enabled(s, a) && i in Apply(s, a).active && j in Apply(s, a).active
    ensures PairOk(Apply(s, a), i, j)
  {
    StepShape(s, a);
    if i in s.active { assert ActiveOk(s, i); }
    if j in s.active { assert ActiveOk(s, j); }
    if i in s.active && j in s.active { assert PairOk(s, i, j); }
  }

  lemma StepKeepsAccepted(s: State, a: Action)
    requires TokenInv(s) && Enabled(s, a)
    ensures Distinct(Apply(s, a).accepted)
    ensures forall k :: 0 <= k < |Apply(s, a).accepted| ==> Dead(Apply(s, a), Apply(s, a).accepted[k])
  {
    var s' := Apply(s, a);
    forall k | 0 <= k < |s'.accepted| ensures Dead(s', s'.accepted[k]) {
      if k < |s.accepted| {
        StepKeepsDead(s, a, s.accepted[k]);
      } else {
        assert ActiveOk(s, a.id);
        ReplacedTokenIsDead(s, a, a.id);
      }
    }
    if a.Rotate? {
      assert Current(s, a.oldHash);
    }
  }

  lemma StepKeepsTokenInv(s: State, a: Action)
    requires TokenInv(s) && Enabled(s, a)
    ensures TokenInv(Apply(s, a))
  {
    var s' := Apply(s, a);
    StepKeepsAccepted(s, a);
    forall i, j | i in s'.active && j in s'.active ensures PairOk(s', i, j) {
      StepKeepsPairOk(s, a, i, j);
    }
    forall id | id in s'.active ensures ActiveOk(s', id) {
      StepShape(s, a);
      if id in s.active { assert ActiveOk(s, id); }
    }
  }

  lemma {:induction false} RunKeepsTokenInv(s: State, run: seq<Action>)
    requires TokenInv(s) && Valid(s, run)
    ensures TokenInv(Exec(s, run))
    decreases |run|
  {
    if run != [] {
      StepKeepsTokenInv(s, run[0]);
      RunKeepsTokenInv(Apply(s, run[0]), run[1..]);
    }
  }

  lemma {:induction false} RunKeepsDead(s: State, run: seq<Action>, h: Hash)
    requires Valid(s, run) && Dead(s, h)
    ensures Dead(Exec(s, run), h)
    decreases |run|
  {
    if run != [] {
      StepKeepsDead(s, run[0], h);
      RunKeepsDead(Apply(s, run[0]), run[1..], h);
    }
  }

  /** The step ends the life of session id's token: it is rotated, logged in over, or revoked. */
  ghost predicate EndsToken(s: State, a: Action, id: SessionId)
    requires Enabled(s, a) && id in s.active
  {
    || (a.Rotate? && a.id == id)
    || (a.Revoke? && a.id == id)
    || (a.LoginWrite? && a.stored && s.logins[a.tx].existing == Some(id))
  }

  /**
   Refresh tokens are single use: after a rotation accepted a token, or its session was logged in over or
   revoked, no later rotation accepts it, whatever happens in between.
   */
  lemma TokensAreSingleUse(run: seq<Action>, a: Action, id: SessionId, between: seq<Action>, b: Action)
    requires Valid(EMPTY, run) && Enabled(Exec(EMPTY, run), a) && id in Exec(EMPTY, run).active
    requires EndsToken(Exec(EMPTY, run), a, id)
    requires Valid(Apply(Exec(EMPTY, run), a), between)
    requires Enabled(Exec(Apply(Exec(EMPTY, run), a), between), b) && b.Rotate?
    ensures b.oldHash != Exec(EMPTY, run).active[id].hash
  {
    RunKeepsTokenInv(EMPTY, run);
    var s := Exec(EMPTY, run);
    var h := s.active[id].hash;
    ReplacedTokenIsDead(s, a, id);
    RunKeepsDead(Apply(s, a), between, h);
    assert Current(Exec(Apply(s, a), between), b.oldHash);
  }

  /** In every reachable state: no hash was accepted twice, and each user has at most one session per device. */
  lemma EveryRunKeepsTokensUnique(run: seq<Action>)
    requires Valid(EMPTY, run)
    ensures var s := Exec(EMPTY, run);
            && Distinct(s.accepted)
            && (forall i, j :: i in s.active && j in s.active ==> SameOwner(s.active[i], s.active[j]) ==> i == j)
  {
    RunKeepsTokenInv(EMPTY, run);
    var s := Exec(EMPTY, run);
    forall i, j | i in s.active && j in s.active && SameOwner(s.active[i], s.active[j]) ensures i == j {
      assert PairOk(s, i, j);
    }
  }

  // ----- Conservation of sessions -----

  /** The history rows that revocations wrote for a session. */
  function Revocations(history: seq<HistoryRow>, id: SessionId): seq<HistoryRow> {
    if history == [] then []
    else Revocations(history[..|history| - 1], id)
         + (if history[|history| - 1].id == id && history[|history| - 1].cause.Revoked?
            then [history[|history| - 1]] else [])
  }

  lemma RevocationsAppend(history: seq<HistoryRow>, row: HistoryRow, id: SessionId)
    ensures Revocations(history + [row], id)
         == Revocations(history, id) + (if row.id == id && row.cause.Revoked? then [row] else [])
  {
    assert (history + [row])[..|history|] == history;
  }

  /** The row holds the last active value of the session, column by column. */
  predicate Carries(row: HistoryRow, s: Session) {
    && row.user == s.user && row.device == s.device && row.hash == s.hash && row.client == s.client
    && row.createdAt == s.createdAt && row.lastUsedAt == s.lastUsedAt
  }

  ghost predicate SessionOk(s: State, id: SessionId) {
    var rows := Revocations(s.history, id);
    if id !in s.ever then id !in s.active && rows == []
    else
      && id in s.last
      && (if id in s.active then rows == [] && s.last[id] == s.active[id]
          else |rows| == 1 && Carries(rows[0], s.last[id]))
  }

  ghost predicate SessionInv(s: State) {
    && TokenInv(s)
    && (forall id :: SessionOk(s, id))
  }

  /** Every step leaves the history alone or appends one row: a revocation, or the archive of a login. */
  lemma HistoryShape(s: State, a: Action, id: SessionId)
    requires Enabled(s, a)
    ensures Revocations(Apply(s, a).history, id)
         == Revocations(s.history, id)
            + (if a.Revoke? && a.id == id
               then [Archive(id, s.active[id], s.now, Revoked(a.reason, a.revokedBy))] else [])
  {
    var s' := Apply(s, a);
    if s'.history != s.history {
      var row := s'.history[|s'.history| - 1];
      assert s'.history == s.history + [row];
      RevocationsAppend(s.history, row, id);
    }
  }

  lemma LastShape(s: State, a: Action)
    requires Enabled(s, a)
    ensures Apply(s, a).last == match Written(s, a) case None => s.last case Some((id, v)) => s.last[id := v]
  {
  }

  lemma StepKeepsSessionOk(s: State, a: Action, id: SessionId)
    requires SessionInv(s) && Enabled(s, a)
    ensures SessionOk(Apply(s, a), id)
  {
    assert SessionOk(s, id);
    StepShape(s, a);
    HistoryShape(s, a, id);
    LastShape(s, a);
  }

  lemma {:induction false} RunKeepsSessionInv(s: State, run: seq<Action>)
    requires SessionInv(s) && Valid(s, run)
    ensures SessionInv(Exec(s, run))
    decreases |run|
  {
    if run != [] {
      StepKeepsTokenInv(s, run[0]);
      forall id ensures SessionOk(Apply(s, run[0]), id) {
        StepKeepsSessionOk(s, run[0], id);
      }
      RunKeepsSessionInv(Apply(s, run[0]), run[1..]);
    }
  }

  /**
   Every session id ever committed is either active or has exactly one revocation row, never both, and that
   row carries the session's last active fields.
   */
  lemma SessionsAreConserved(run: seq<Action>, id: SessionId)
    requires Valid(EMPTY, run) && id in Exec(EMPTY, run).ever
    ensures var s := Exec(EMPTY, run);
            var rows := Revocations(s.history, id);
            && id in s.last
            && (id in s.active <==> rows == [])
            && (id !in s.active ==> |rows| == 1 && Carries(rows[0], s.last[id]))
            && (id in s.active ==> s.active[id] == s.last[id])
  {
    assert SessionInv(EMPTY);
    RunKeepsSessionInv(EMPTY, run);
    assert SessionOk(Exec(EMPTY, run), id);
  }

  /** What a rotation leaves behind: the new token, client and expiry, used just now; the rest as it was. */
  lemma RotationRenews(s: State, a: Action)
    requires Enabled(s, a) && a.Rotate?
    ensures var before, after := s.active[a.id], Apply(s, a).active[a.id];
            && after.hash == a.hash && after.client == a.client
            && after.expiresAt == a.expiresAt && after.lastUsedAt == s.now
            && after.user == before.user && after.device == before.device && after.createdAt == before.createdAt
    ensures Apply(s, a).active.Keys == s.active.Keys
    ensures forall id :: id in s.active && id != a.id ==> Apply(s, a).active[id] == s.active[id]
  {
  }

  /** And what a login over an existing session leaves behind, if its write is stored. */
  lemma LoginRenews(s: State, a: Action, id: SessionId)
    requires Enabled(s, a) && a.LoginWrite? && a.stored && s.logins[a.tx].existing == Some(id) && id in s.active
    ensures var before, after := s.active[id], Apply(s, a).active[id];
            && after.hash == a.hash && after.client == a.client
            && after.expiresAt == a.expiresAt && after.lastUsedAt == s.now
            && after.user == before.user && after.device == before.device && after.createdAt == before.createdAt
    ensures a.archived ==> |Apply(s, a).history| == |s.history| + 1 && Apply(s, a).history[..|s.history|] == s.history
    ensures a.archived ==> var row := Apply(s, a).history[|s.history|];
                           row.id == id && row.revokedAt == s.now && row.cause == Rotated && Carries(row, s.active[id])
  {
  }

  /**
   The token a rotation hands out is accepted by the next one exactly until the expiry that came with it: whatever
   expiry the session had before.
   */
  lemma NextRotationAcceptsExactlyUntilExpiry(run: seq<Action>, a: Action, seconds: nat, b: Action)
    requires Valid(EMPTY, run) && Enabled(Exec(EMPTY, run), a) && a.Rotate?
    requires b.Rotate? && b.oldHash == a.hash && b.id == a.id
    requires b.hash !in Exec(EMPTY, run).issued && b.hash != a.hash
    ensures var s := Apply(Apply(Exec(EMPTY, run), a), Tick(seconds));
            Enabled(s, b) <==> Exec(EMPTY, run).now + seconds <= a.expiresAt
  {
    RotationRenews(Exec(EMPTY, run), a);
  }

  /** Only a revocation of that very session makes it inactive; archiving by a login never does. */
  lemma OnlyRevocationsEndSessions(s: State, a: Action, id: SessionId)
    requires Enabled(s, a) && id in s.active
    ensures id !in Apply(s, a).active <==> a.Revoke? && a.id == id
  {
    StepShape(s, a);
  }

  /**
   The token a login hands out works exactly when its write was stored and the session its unlocked read saw is
   still there, or it saw none and there is none. Otherwise Login still answers, with a token that is dead.
   */
  lemma LoginTokenWorksExactlyWhen(run: seq<Action>, a: Action)
    requires Valid(EMPTY, run) && Enabled(Exec(EMPTY, run), a) && a.LoginWrite?
    ensures var s := Exec(EMPTY, run);
            var l := s.logins[a.tx];
            Current(Apply(s, a), a.hash) <==>
              a.stored && (if l.existing.Some? then l.existing.value in s.active
                           else Vacant(s.active, l.user, l.device))
  {
    RunKeepsTokenInv(EMPTY, run);
    var s := Exec(EMPTY, run);
    StepShape(s, a);
    var s' := Apply(s, a);
    match Written(s, a)
    case Some((id, v)) => assert id in s'.active && s'.active[id].hash == a.hash;
    case None =>
      forall id | id in s'.active ensures s'.active[id].hash != a.hash {
        assert ActiveOk(s, id);
      }
  }

  lemma {:induction false} RunThenStep(s: State, run: seq<Action>, a: Action)
    requires Valid(s, run) && Enabled(Exec(s, run), a)
    ensures Valid(s, run + [a]) && Exec(s, run + [a]) == Apply(Exec(s, run), a)
    decreases |run|
  {
    if run == [] {
      assert run + [a] == [a] && [a][1..] == [];
      assert Valid(Apply(s, a), []) && Exec(Apply(s, a), []) == Apply(s, a);
    } else {
      RunThenStep(Apply(s, run[0]), run[1..], a);
      assert (run + [a])[1..] == run[1..] + [a];
    }
  }

  const FIRST_LOGIN: seq<Action> :=
    [LoginRead(0, 1, 1, None, false), LoginWrite(0, 1, 1, Client("", ""), 9, true, true),
     LoginRead(0, 1, 1, Some(1), false)]

  const FAILED_WRITE: Action := LoginWrite(0, 2, 2, Client("", ""), 9, true, false)

  /** A user with one session, logging in again on the same device. */
  lemma SecondLoginIsReachable()
    ensures Valid(EMPTY, FIRST_LOGIN)
    ensures var s := Exec(EMPTY, FIRST_LOGIN);
            && s.active == map[1 := Session(1, 1, 1, Client("", ""), 0, 0, 9)]
            && s.logins == map[0 := Login(1, 1, Some(1))] && s.issued == {1}
  {
    var r1, r2 := [FIRST_LOGIN[0]], [FIRST_LOGIN[0], FIRST_LOGIN[1]];
    assert Valid(EMPTY, []) && Exec(EMPTY, []) == EMPTY;
    RunThenStep(EMPTY, [], FIRST_LOGIN[0]);
    assert [] + [FIRST_LOGIN[0]] == r1;
    RunThenStep(EMPTY, r1, FIRST_LOGIN[1]);
    assert r1 + [FIRST_LOGIN[1]] == r2;
    assert Exec(EMPTY, r2).active == map[1 := Session(1, 1, 1, Client("", ""), 0, 0, 9)];
    RunThenStep(EMPTY, r2, FIRST_LOGIN[2]);
    assert r2 + [FIRST_LOGIN[2]] == FIRST_LOGIN;
  }

  /** A failed write is enough for a dead token, although the session the login saw is still there. */
  lemma FailedWriteHandsOutADeadToken()
    ensures Valid(EMPTY, FIRST_LOGIN) && Enabled(Exec(EMPTY, FIRST_LOGIN), FAILED_WRITE)
    ensures var s := Exec(EMPTY, FIRST_LOGIN);
            s.logins[0].existing == Some(1) && 1 in s.active && Dead(Apply(s, FAILED_WRITE), FAILED_WRITE.hash)
  {
    SecondLoginIsReachable();
    var s := Exec(EMPTY, FIRST_LOGIN);
    assert 2 !in s.ever;
    LoginTokenWorksExactlyWhen(FIRST_LOGIN, FAILED_WRITE);
  }

  /** So is a revocation between the login's read and its write, for every login over an existing session. */
  lemma RevokedLoginHandsOutADeadToken(run: seq<Action>, revoke: Action, a: Action)
    requires Valid(EMPTY, run) && Enabled(Exec(EMPTY, run), revoke) && Enabled(Exec(EMPTY, run), a)
    requires a.LoginWrite? && revoke.Revoke? && Exec(EMPTY, run).logins[a.tx].existing == Some(revoke.id)
    ensures var s := Apply(Exec(EMPTY, run), revoke);
            Enabled(s, a) && Dead(Apply(s, a), a.hash)
  {
    RunThenStep(EMPTY, run, revoke);
    LoginTokenWorksExactlyWhen(run + [revoke], a);
  }
}

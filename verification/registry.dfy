/**
 * The player registry of the 1v1 arena server (server.js) as values.
 *
 * The server keeps one mutable object, `players`, keyed by socket id, plus
 * the deferred auto-respawn timers that a kill schedules and the messages it
 * emits over socket.io. A `State` holds all three; each `On...` function is
 * the state after one handler of server.js has run to completion on it.
 * Handlers never interleave (the server is a single event loop), so a
 * handler is a function from the state before to the state after.
 *
 * Positions and rotations are only ever copied by the server, never computed
 * on, so a position is a triple of reals and a rotation the one real angle
 * the server stores; the random spawn coordinates of the auto-respawn are
 * parameters.
 */
module Registry {

  datatype Option<+T> = None | Some(value: T) {
    /** The carried value, or `default` when there is none. */
    function GetOr(default: T): T {
      match this
      case Some(v) => v
      case None => default
    }
  }

  /** A socket.io connection id; also the key of the registry. */
  type Id = string

  /** Registry capacity: a join is refused once this many players are present. */
  const MAX_PLAYERS: nat := 2
  /** Health removed by one accepted shot (four shots from full health). */
  const DAMAGE: int := 25
  /** Health of a freshly joined or respawned player. */
  const FULL_HEALTH: int := 100
  /** Eye height: the y coordinate of every spawn point. */
  const SPAWN_Y: real := 1.6
  /** Where a joining player is placed: { x: 0, y: 1.6, z: 5 }. */
  const JOIN_POSITION: Vec3 := Vec3(0.0, SPAWN_Y, 5.0)
  /** Rotation of a joining player: { y: 0 }. */
  const JOIN_ROTATION: Rotation := Rotation(0.0)

  datatype Vec3 = Vec3(x: real, y: real, z: real)
  datatype Rotation = Rotation(y: real)

  /** One registry record; `score` is absent until the client first reports one. */
  datatype Player = Player(
    id: Id,
    name: string,
    kills: nat,
    deaths: nat,
    health: int,
    position: Vec3,
    rotation: Rotation,
    score: Option<int>)

  /** Who receives an emitted event: io.emit, socket.broadcast.emit, socket.emit / io.to(id). */
  datatype Audience = All | AllBut(except: Id) | Only(target: Id)

  /** The server-to-client events with the payloads server.js puts in them. */
  datatype Outbound =
    | PlayerInfo(id: Id, roster: map<Id, Player>)
    | PlayerJoined(roster: map<Id, Player>)
    | PlayerMoved(id: Id, name: string, position: Vec3, rotation: Rotation, health: int)
    | PlayerHit(victimId: Id, shooterId: Id, health: int, damage: int)
    | PlayerRespawned(id: Id, name: string, position: Vec3, health: int, rotation: Rotation)
    | ForceRespawn(position: Vec3)
    | StatsUpdate(roster: map<Id, Player>)
    | ScoreUpdate(roster: map<Id, Player>)
    | PlayerLeft(playerId: Id, roster: map<Id, Player>)
    | MaxPlayersReached

  datatype Message = Message(to: Audience, event: Outbound)

  /**
   * `players` is the registry; `pending` lists the targets of the scheduled
   * auto-respawn timers in the order they will fire (all share one delay);
   * `outbox` is every message emitted so far, oldest first.
   */
  datatype State = State(players: map<Id, Player>, pending: seq<Id>, outbox: seq<Message>)

  function Max(a: int, b: int): int {
    if a < b then b else a
  }

  /** Every record of `m` outside `changed` is still in `r`, unaltered. */
  ghost predicate Untouched(m: map<Id, Player>, r: map<Id, Player>, changed: set<Id>) {
    forall p :: p in m && p !in changed ==> p in r && r[p] == m[p]
  }

  /** `q` is `p` with at most health, position, rotation and score changed. */
  ghost predicate SameIdentity(p: Player, q: Player) {
    q.id == p.id && q.name == p.name && q.kills == p.kills && q.deaths == p.deaths
  }

  /** The record a successful join stores. */
  function NewPlayer(id: Id, name: string): Player {
    Player(id, name, 0, 0, FULL_HEALTH, JOIN_POSITION, JOIN_ROTATION, None)
  }

  // ---------------------------------------------------------------- joinGame

  predicate JoinAccepted(s: State) {
    |s.players| < MAX_PLAYERS
  }

  /**
   * joinGame. A full registry refuses the join: `maxPlayersReached` goes to
   * the requester and the server closes its connection, which runs the
   * socket's disconnect handler at once. Otherwise a fresh record is stored
   * under the caller's id and the roster goes to the caller and to everyone.
   */
  function OnJoinGame(s: State, id: Id, name: string): (t: State)
    ensures t.pending == s.pending
    ensures |s.players| <= MAX_PLAYERS ==> |t.players| <= MAX_PLAYERS
    ensures JoinAccepted(s) ==>
      && t.players.Keys == s.players.Keys + {id}
      && Untouched(s.players, t.players, {id})
      && t.players[id].id == id && t.players[id].name == name
      && t.players[id].kills == 0 && t.players[id].deaths == 0
      && t.players[id].health == FULL_HEALTH
      && t.players[id].position == JOIN_POSITION && t.players[id].rotation == JOIN_ROTATION
      && t.players[id].score == None
      && t.outbox == s.outbox + [Message(Only(id), PlayerInfo(id, t.players)), Message(All, PlayerJoined(t.players))]
    ensures !JoinAccepted(s) ==>
      && t.players.Keys == s.players.Keys - {id}
      && Untouched(s.players, t.players, {id})
      && (id !in s.players ==> t.players == s.players)
      && t.outbox == s.outbox + [Message(Only(id), MaxPlayersReached), Message(All, PlayerLeft(id, t.players))]
  {
    if !JoinAccepted(s) then
      OnDisconnect(s.(outbox := s.outbox + [Message(Only(id), MaxPlayersReached)]), id)
    else
      var players := s.players[id := NewPlayer(id, name)];
      State(players, s.pending, s.outbox + [Message(Only(id), PlayerInfo(id, players)), Message(All, PlayerJoined(players))])
  }

  // -------------------------------------------------------------- playerMove

  /**
   * playerMove. An unknown id is ignored. Otherwise position and rotation are
   * overwritten, health only when the client sent one (its value is trusted),
   * and everyone but the sender is told.
   */
  function OnPlayerMove(s: State, id: Id, position: Vec3, rotation: Rotation, health: Option<int>): (t: State)
    ensures id !in s.players ==> t == s
    ensures id in s.players ==>
      && t.players.Keys == s.players.Keys
      && Untouched(s.players, t.players, {id})
      && SameIdentity(s.players[id], t.players[id])
      && t.players[id].score == s.players[id].score
      && t.players[id].position == position && t.players[id].rotation == rotation
      && (health.None? ==> t.players[id].health == s.players[id].health)
      && (health.Some? ==> t.players[id].health == health.value)
      && t.pending == s.pending
      && t.outbox == s.outbox + [Message(AllBut(id), PlayerMoved(id, s.players[id].name, position, rotation, t.players[id].health))]
  {
    if id !in s.players then s
    else
      var p := s.players[id];
      var moved := p.(position := position, rotation := rotation, health := health.GetOr(p.health));
      var players := s.players[id := moved];
      State(players, s.pending, s.outbox + [Message(AllBut(id), PlayerMoved(id, moved.name, position, rotation, moved.health))])
  }

  // ------------------------------------------------------------- shootPlayer

  /** The guard of shootPlayer: both players exist and the victim is alive. */
  predicate ShotApplies(s: State, shooterId: Id, targetId: Id) {
    shooterId in s.players && targetId in s.players && s.players[targetId].health > 0
  }

  /** An applied shot that takes the victim to 0 health. */
  predicate ShotKills(s: State, shooterId: Id, targetId: Id) {
    ShotApplies(s, shooterId, targetId) && s.players[targetId].health - DAMAGE <= 0
  }

  /**
   * shootPlayer from `shooterId` at `targetId`. An ignored shot changes
   * nothing and emits nothing; what an accepted one does is `ShotOutcome`.
   */
  function OnShootPlayer(s: State, shooterId: Id, targetId: Id): (t: State)
    ensures t.players.Keys == s.players.Keys
    ensures !ShotApplies(s, shooterId, targetId) ==> t == s
  {
    if !ShotApplies(s, shooterId, targetId) then s
    else
      var victim := s.players[targetId];
      var health := victim.health - DAMAGE;
      if health <= 0 then
        var wounded := s.players[targetId := victim.(health := 0, deaths := victim.deaths + 1)];
        var shooter := wounded[shooterId];
        var players := wounded[shooterId := shooter.(kills := shooter.kills + 1)];
        State(players, s.pending + [targetId], s.outbox + HitNotices(players, shooterId, targetId))
      else
        var players := s.players[targetId := victim.(health := health)];
        State(players, s.pending, s.outbox + HitNotices(players, shooterId, targetId))
  }

  /**
   * What a shot leaves of registered player `p`: its identity, position,
   * rotation and score untouched, its health untouched unless it is the
   * victim, one death more only if it is the victim of a kill and one kill
   * more only if it is the shooter of a kill (both, for a self-kill).
   */
  ghost predicate ShotLeaves(s: State, t: State, shooterId: Id, targetId: Id, p: Id)
    requires p in s.players && p in t.players
  {
    var before, after := s.players[p], t.players[p];
    && after.id == before.id
    && after.name == before.name
    && after.position == before.position
    && after.rotation == before.rotation
    && after.score == before.score
    && (p != targetId ==> after.health == before.health)
    && after.deaths == before.deaths + (if ShotKills(s, shooterId, targetId) && p == targetId then 1 else 0)
    && after.kills == before.kills + (if ShotKills(s, shooterId, targetId) && p == shooterId then 1 else 0)
  }

  /** playerHit to the victim with its new health, then statsUpdate to all. */
  function HitNotices(players: map<Id, Player>, shooterId: Id, targetId: Id): seq<Message>
    requires targetId in players
  {
    [Message(Only(targetId), PlayerHit(targetId, shooterId, players[targetId].health, DAMAGE)),
     Message(All, StatsUpdate(players))]
  }

  /**
   * What an accepted shot does. The victim loses DAMAGE, clamped at 0; every
   * other record keeps its health, and every record its identity, position,
   * rotation and score. A kill counts one death for the victim and one kill
   * for the shooter (the same record for a self-kill) and schedules one
   * auto-respawn of the victim. The victim is told its new health and
   * everyone gets the roster.
   */
  lemma ShotOutcome(s: State, shooterId: Id, targetId: Id)
    requires ShotApplies(s, shooterId, targetId)
    ensures
      var t := OnShootPlayer(s, shooterId, targetId);
      && t.players.Keys == s.players.Keys
      && Untouched(s.players, t.players, {shooterId, targetId})
      && t.players[targetId].health == Max(0, s.players[targetId].health - DAMAGE)
      && (forall p :: p in s.players ==> ShotLeaves(s, t, shooterId, targetId, p))
      && t.pending == s.pending + (if ShotKills(s, shooterId, targetId) then [targetId] else [])
      && t.outbox == s.outbox + [
           Message(Only(targetId), PlayerHit(targetId, shooterId, t.players[targetId].health, DAMAGE)),
           Message(All, StatsUpdate(t.players))]
  {
  }

  // -------------------------------------------- the auto-respawn timer fires

  /** The timer's re-check: its target is still registered and at health exactly 0. */
  predicate AutoRespawnDue(s: State)
    requires s.pending != []
  {
    s.pending[0] in s.players && s.players[s.pending[0]].health == 0
  }

  /**
   * The oldest scheduled auto-respawn fires, with the random spawn
   * coordinates `spawnX` and `spawnZ`. The timer is used up either way; it
   * acts only when its re-check passes, restoring full health at
   * (spawnX, SPAWN_Y, spawnZ) and telling everyone, and the target itself.
   */
  function OnAutoRespawn(s: State, spawnX: real, spawnZ: real): (t: State)
    requires s.pending != []
    ensures t.pending == s.pending[1..]
    ensures !AutoRespawnDue(s) ==> t.players == s.players && t.outbox == s.outbox
    ensures AutoRespawnDue(s) ==>
      var target := s.pending[0];
      && t.players.Keys == s.players.Keys
      && Untouched(s.players, t.players, {target})
      && SameIdentity(s.players[target], t.players[target])
      && t.players[target].rotation == s.players[target].rotation
      && t.players[target].score == s.players[target].score
      && t.players[target].health == FULL_HEALTH
      && t.players[target].position == Vec3(spawnX, SPAWN_Y, spawnZ)
      && t.outbox == s.outbox + [
           Message(All, PlayerRespawned(target, s.players[target].name, Vec3(spawnX, SPAWN_Y, spawnZ),
                                        FULL_HEALTH, s.players[target].rotation)),
           Message(Only(target), ForceRespawn(Vec3(spawnX, SPAWN_Y, spawnZ)))]
  {
    var target := s.pending[0];
    if !AutoRespawnDue(s) then s.(pending := s.pending[1..])
    else
      var p := s.players[target];
      var spawn := Vec3(spawnX, SPAWN_Y, spawnZ);
      var players := s.players[target := p.(health := FULL_HEALTH, position := spawn)];
      State(players, s.pending[1..], s.outbox + [
        Message(All, PlayerRespawned(target, p.name, spawn, FULL_HEALTH, p.rotation)),
        Message(Only(target), ForceRespawn(spawn))])
  }

  // ----------------------------------------------------------------- respawn

  /**
   * respawn requested by the client. An unknown id is ignored. Otherwise the
   * player is back at full health at the position it sent, with the rotation
   * it sent if any; everyone gets the respawn and the roster.
   */
  function OnRespawn(s: State, id: Id, position: Vec3, rotation: Option<Rotation>): (t: State)
    ensures id !in s.players ==> t == s
    ensures id in s.players ==>
      && t.players.Keys == s.players.Keys
      && Untouched(s.players, t.players, {id})
      && SameIdentity(s.players[id], t.players[id])
      && t.players[id].score == s.players[id].score
      && t.players[id].health == FULL_HEALTH
      && t.players[id].position == position
      && (rotation.None? ==> t.players[id].rotation == s.players[id].rotation)
      && (rotation.Some? ==> t.players[id].rotation == rotation.value)
      && t.pending == s.pending
      && t.outbox == s.outbox + [
           Message(All, PlayerRespawned(id, s.players[id].name, position, FULL_HEALTH, t.players[id].rotation)),
           Message(All, StatsUpdate(t.players))]
  {
    if id !in s.players then s
    else
      var p := s.players[id];
      var respawned := p.(health := FULL_HEALTH, position := position, rotation := rotation.GetOr(p.rotation));
      var players := s.players[id := respawned];
      State(players, s.pending, s.outbox + [
        Message(All, PlayerRespawned(id, p.name, position, FULL_HEALTH, respawned.rotation)),
        Message(All, StatsUpdate(players))])
  }

  // ------------------------------------------------------------- scoreUpdate

  /** scoreUpdate. An unknown id is ignored; otherwise the score is recorded and the roster broadcast. */
  function OnScoreUpdate(s: State, id: Id, score: int): (t: State)
    ensures id !in s.players ==> t == s
    ensures id in s.players ==>
      && t.players.Keys == s.players.Keys
      && Untouched(s.players, t.players, {id})
      && SameIdentity(s.players[id], t.players[id])
      && t.players[id].health == s.players[id].health
      && t.players[id].position == s.players[id].position
      && t.players[id].rotation == s.players[id].rotation
      && t.players[id].score == Some(score)
      && t.pending == s.pending
      && t.outbox == s.outbox + [Message(All, ScoreUpdate(t.players))]
  {
    if id !in s.players then s
    else
      var players := s.players[id := s.players[id].(score := Some(score))];
      State(players, s.pending, s.outbox + [Message(All, ScoreUpdate(players))])
  }

  // -------------------------------------------------------------- disconnect

  /**
   * disconnect. The caller's record is removed if there is one (pending
   * timers stay scheduled); everyone left gets the departure and the roster.
   */
  function OnDisconnect(s: State, id: Id): (t: State)
    ensures t.players.Keys == s.players.Keys - {id}
    ensures Untouched(s.players, t.players, {id})
    ensures |t.players| == if id in s.players then |s.players| - 1 else |s.players|
    ensures t.pending == s.pending
    ensures t.outbox == s.outbox + [Message(All, PlayerLeft(id, t.players))]
  {
    var players := s.players - {id};
    assert players.Keys == s.players.Keys - {id};
    State(players, s.pending, s.outbox + [Message(All, PlayerLeft(id, players))])
  }
}

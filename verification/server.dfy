/**
 * The socket handlers of server.js as methods of one object that owns the
 * mutable registry. Each method updates the fields in place, as the handler
 * does, and its contract ties the new fields to the `Registry` function of
 * the old ones, where the handler's properties are proved; `Valid` is the
 * registry invariant of `Events.Inv`, kept by every handler.
 */
module Server {
  import opened Registry
  import Events

  class GameServer {
    /** `players` of server.js: socket id to record. */
    var players: map<Id, Player>
    /** Targets of the auto-respawn timers not yet fired, oldest first. */
    var pending: seq<Id>
    /** Every message emitted so far, oldest first. */
    var outbox: seq<Message>

    ghost function Snapshot(): State
      reads this
    {
      State(players, pending, outbox)
    }

    ghost predicate Valid()
      reads this
    {
      Events.Inv(Snapshot())
    }

    constructor ()
      ensures Valid()
      ensures players == map[] && pending == [] && outbox == []
    {
      players := map[];
      pending := [];
      outbox := [];
    }

    method Emit(to: Audience, event: Outbound)
      modifies this
      ensures players == old(players) && pending == old(pending)
      ensures outbox == old(outbox) + [Message(to, event)]
    {
      outbox := outbox + [Message(to, event)];
    }

    /** joinGame; `accepted` is false when the registry was full. */
    method JoinGame(id: Id, name: string) returns (accepted: bool)
      requires Valid()
      modifies this
      ensures Valid()
      ensures accepted == (|old(players)| < MAX_PLAYERS)
      ensures Snapshot() == OnJoinGame(old(Snapshot()), id, name)
    {
      if |players| >= MAX_PLAYERS {
        Emit(Only(id), MaxPlayersReached);
        // socket.disconnect() runs this connection's disconnect handler
        Disconnect(id);
        return false;
      }
      players := players[id := NewPlayer(id, name)];
      Emit(Only(id), PlayerInfo(id, players));
      Emit(All, PlayerJoined(players));
      accepted := true;
    }

    /** playerMove; `health` is None when the client sent none. */
    method PlayerMove(id: Id, position: Vec3, rotation: Rotation, health: Option<int>)
      requires Valid()
      modifies this
      ensures Valid()
      ensures Snapshot() == OnPlayerMove(old(Snapshot()), id, position, rotation, health)
    {
      if id in players {
        var p := players[id];
        p := p.(position := position, rotation := rotation);
        if health.Some? {
          p := p.(health := health.value);
        }
        players := players[id := p];
        Emit(AllBut(id), PlayerMoved(id, p.name, position, rotation, p.health));
      }
    }

    /** shootPlayer sent by `shooterId` at `targetId`; returns whether the shot killed. */
    method ShootPlayer(shooterId: Id, targetId: Id) returns (killed: bool)
      requires Valid()
      modifies this
      ensures Valid()
      ensures killed == ShotKills(old(Snapshot()), shooterId, targetId)
      ensures Snapshot() == OnShootPlayer(old(Snapshot()), shooterId, targetId)
    {
      ghost var before := Snapshot();
      killed := false;
      if shooterId in players && targetId in players && players[targetId].health > 0 {
        var victim := players[targetId];
        var health := victim.health - DAMAGE;
        if health <= 0 {
          var wounded := players[targetId := victim.(health := 0, deaths := victim.deaths + 1)];
          // shooter and victim are one record when a player shoots itself
          var shooter := wounded[shooterId];
          players := wounded[shooterId := shooter.(kills := shooter.kills + 1)];
          pending := pending + [targetId];
          outbox := outbox + HitNotices(players, shooterId, targetId);
          killed := true;
          ghost var t := OnShootPlayer(before, shooterId, targetId);
          assert players == t.players;
          assert pending == t.pending;
          assert outbox == t.outbox;
        } else {
          players := players[targetId := victim.(health := health)];
          outbox := outbox + HitNotices(players, shooterId, targetId);
          ghost var t := OnShootPlayer(before, shooterId, targetId);
          assert players == t.players;
          assert outbox == t.outbox;
        }
      }
    }

    /** The oldest auto-respawn timer fires; returns whether it revived its target. */
    method FireAutoRespawn(spawnX: real, spawnZ: real) returns (revived: bool)
      requires Valid()
      requires pending != []
      modifies this
      ensures Valid()
      ensures revived == AutoRespawnDue(old(Snapshot()))
      ensures Snapshot() == OnAutoRespawn(old(Snapshot()), spawnX, spawnZ)
    {
      var target := pending[0];
      pending := pending[1..];
      revived := target in players && players[target].health == 0;
      if revived {
        var spawn := Vec3(spawnX, SPAWN_Y, spawnZ);
        var p := players[target].(health := FULL_HEALTH, position := spawn);
        players := players[target := p];
        Emit(All, PlayerRespawned(target, p.name, spawn, FULL_HEALTH, p.rotation));
        Emit(Only(target), ForceRespawn(spawn));
      }
    }

    /** respawn requested by the client; `rotation` is None when it sent none. */
    method Respawn(id: Id, position: Vec3, rotation: Option<Rotation>)
      requires Valid()
      modifies this
      ensures Valid()
      ensures Snapshot() == OnRespawn(old(Snapshot()), id, position, rotation)
    {
      if id in players {
        var p := players[id].(health := FULL_HEALTH, position := position);
        if rotation.Some? {
          p := p.(rotation := rotation.value);
        }
        players := players[id := p];
        Emit(All, PlayerRespawned(id, p.name, position, FULL_HEALTH, p.rotation));
        Emit(All, StatsUpdate(players));
      }
    }

    /** scoreUpdate. */
    method ScoreUpdate(id: Id, score: int)
      requires Valid()
      modifies this
      ensures Valid()
      ensures Snapshot() == OnScoreUpdate(old(Snapshot()), id, score)
    {
      if id in players {
        players := players[id := players[id].(score := Some(score))];
        Emit(All, Registry.ScoreUpdate(players));
      }
    }

    /** disconnect. */
    method Disconnect(id: Id)
      requires Valid()
      modifies this
      ensures Valid()
      ensures Snapshot() == OnDisconnect(old(Snapshot()), id)
    {
      players := players - {id};
      Emit(All, PlayerLeft(id, players));
    }
  }

  /**
   * Two connections join and fill the arena; a third is turned away with
   * `maxPlayersReached` and the registry still holds the two fresh records.
   */
  method FillArena(a: Id, b: Id, c: Id) returns (server: GameServer)
    requires a != b && c != a && c != b
    ensures fresh(server) && server.Valid()
    ensures server.players == map[a := NewPlayer(a, "A"), b := NewPlayer(b, "B")]
    ensures server.pending == []
    ensures |server.outbox| >= 2 && server.outbox[|server.outbox| - 2] == Message(Only(c), MaxPlayersReached)
  {
    server := new GameServer();
    var joined := server.JoinGame(a, "A");
    assert server.players == map[a := NewPlayer(a, "A")];
    joined := server.JoinGame(b, "B");
    assert server.players == map[a := NewPlayer(a, "A"), b := NewPlayer(b, "B")];
    joined := server.JoinGame(c, "C");
    assert !joined;
  }

  /** `a` shoots `b` four times in a row. */
  method ShootFourTimes(server: GameServer, a: Id, b: Id)
    requires server.Valid()
    modifies server
    ensures server.Valid()
    ensures server.Snapshot() == OnShootPlayer(OnShootPlayer(OnShootPlayer(OnShootPlayer(old(server.Snapshot()), a, b), a, b), a, b), a, b)
  {
    var killed := server.ShootPlayer(a, b);
    killed := server.ShootPlayer(a, b);
    killed := server.ShootPlayer(a, b);
    killed := server.ShootPlayer(a, b);
  }

  /**
   * The 1v1 scenario driven through the object: A shoots B four times, B
   * dies once and A scores once, and B's timer brings it back at full
   * health at the spawn point with its death kept.
   */
  method Scenario(a: Id, b: Id, c: Id, x: real, z: real) returns (server: GameServer)
    requires a != b && c != a && c != b
    ensures server.Valid()
    ensures server.players.Keys == {a, b}
    ensures server.players[b].health == FULL_HEALTH && server.players[b].deaths == 1
    ensures server.players[b].position == Vec3(x, SPAWN_Y, z)
    ensures server.players[a].kills == 1
    ensures server.pending == []
  {
    server := FillArena(a, b, c);
    assert server.players.Keys == {a, b};
    assert server.players[a].kills == 0 && server.players[b].deaths == 0;
    Events.ScenarioAutoRespawn(server.Snapshot(), a, b, x, z);
    ShootFourTimes(server, a, b);
    var revived := server.FireAutoRespawn(x, z);
  }
}

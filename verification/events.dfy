/**
 * Runs of the arena server: the inbound socket events (and the firing of a
 * scheduled auto-respawn) dispatched one at a time to the handlers of
 * `Registry`, and the properties that hold over whole runs.
 */
module Events {
  import opened Registry

  /** What can happen next: a client event, a disconnect, or the oldest timer firing. */
  datatype Inbound =
    | JoinGame(id: Id, name: string)
    | PlayerMove(id: Id, position: Vec3, rotation: Rotation, health: Option<int>)
    | ShootPlayer(id: Id, targetId: Id)
    | Respawn(id: Id, position: Vec3, requestedRotation: Option<Rotation>)
    | ReportScore(id: Id, score: int)
    | Disconnect(id: Id)
    | TimerFires(spawnX: real, spawnZ: real)

  /** Dispatch one event to its handler; with no timer scheduled, none can fire. */
  function Step(s: State, e: Inbound): (t: State)
    // what was emitted stays emitted; an event schedules at most one timer
    ensures s.outbox <= t.outbox
    ensures |t.pending| <= |s.pending| + 1
  {
    match e
    case JoinGame(id, name) => OnJoinGame(s, id, name)
    case PlayerMove(id, position, rotation, health) => OnPlayerMove(s, id, position, rotation, health)
    case ShootPlayer(id, targetId) => OnShootPlayer(s, id, targetId)
    case Respawn(id, position, rotation) => OnRespawn(s, id, position, rotation)
    case ReportScore(id, score) => OnScoreUpdate(s, id, score)
    case Disconnect(id) => OnDisconnect(s, id)
    case TimerFires(x, z) => if s.pending == [] then s else OnAutoRespawn(s, x, z)
  }

  function Run(s: State, es: seq<Inbound>): (t: State)
    ensures s.outbox <= t.outbox
    ensures |t.pending| <= |s.pending| + |es|
    decreases |es|
  {
    if es == [] then s else Run(Step(s, es[0]), es[1..])
  }

  /** The server before any connection. */
  const Initial: State := State(map[], [], [])

  /** The registry never exceeds its capacity and files every record under its own id. */
  ghost predicate Inv(s: State) {
    && |s.players| <= MAX_PLAYERS
    && forall p {:trigger p in s.players} :: p in s.players ==> s.players[p].id == p
  }

  /** Every registered player's health lies in [0, FULL_HEALTH]. */
  ghost predicate HealthInRange(s: State) {
    forall p :: p in s.players ==> 0 <= s.players[p].health <= FULL_HEALTH
  }

  /** Neither counter of player `p` went down between `s` and `t`. */
  ghost predicate CountersKept(s: State, t: State, p: Id)
    requires p in s.players && p in t.players
  {
    t.players[p].kills >= s.players[p].kills && t.players[p].deaths >= s.players[p].deaths
  }

  /**
   * What a handler keeps, from `s` to `t`: the registry invariant, health
   * in range (when `healthChecked`) and the counters of every player it
   * leaves registered, except `renewed`, whose record it may replace.
   */
  ghost predicate Preserves(s: State, t: State, healthChecked: bool, renewed: set<Id>) {
    && (Inv(s) ==> Inv(t))
    && (HealthInRange(s) && healthChecked ==> HealthInRange(t))
    && forall p :: p in s.players && p in t.players && p !in renewed ==> CountersKept(s, t, p)
  }

  // One lemma per handler: what it preserves.

  lemma JoinPreserves(s: State, id: Id, name: string)
    ensures Preserves(s, OnJoinGame(s, id, name), true, {id})
  {
  }

  lemma MovePreserves(s: State, id: Id, position: Vec3, rotation: Rotation, health: Option<int>)
    ensures Preserves(s, OnPlayerMove(s, id, position, rotation, health),
                      health.Some? ==> 0 <= health.value <= FULL_HEALTH, {})
  {
  }

  lemma ShotPreserves(s: State, shooterId: Id, targetId: Id)
    ensures Preserves(s, OnShootPlayer(s, shooterId, targetId), true, {})
  {
    if ShotApplies(s, shooterId, targetId) {
      ShotOutcome(s, shooterId, targetId);
      var t := OnShootPlayer(s, shooterId, targetId);
      forall p | p in t.players
        ensures p in s.players && ShotLeaves(s, t, shooterId, targetId, p)
      {
      }
    }
  }

  lemma RespawnPreserves(s: State, id: Id, position: Vec3, rotation: Option<Rotation>)
    ensures Preserves(s, OnRespawn(s, id, position, rotation), true, {})
  {
  }

  lemma ScorePreserves(s: State, id: Id, score: int)
    ensures Preserves(s, OnScoreUpdate(s, id, score), true, {})
  {
  }

  lemma DisconnectPreserves(s: State, id: Id)
    ensures Preserves(s, OnDisconnect(s, id), true, {})
  {
  }

  lemma TimerPreserves(s: State, spawnX: real, spawnZ: real)
    requires s.pending != []
    ensures Preserves(s, OnAutoRespawn(s, spawnX, spawnZ), true, {})
  {
  }

  /** A playerMove whose reported health, if any, is itself within range. */
  predicate Honest(e: Inbound) {
    e.PlayerMove? && e.health.Some? ==> 0 <= e.health.value <= FULL_HEALTH
  }

  /** The ids whose record `e` may replace: the joiner's. */
  function Renewed(e: Inbound): set<Id> {
    if e.JoinGame? then {e.id} else {}
  }

  /** Every event keeps the invariant, health in range if it is honest, and counters. */
  lemma StepPreserves(s: State, e: Inbound)
    ensures Preserves(s, Step(s, e), Honest(e), Renewed(e))
  {
    match e {
      case JoinGame(id, name) => JoinPreserves(s, id, name);
      case PlayerMove(id, position, rotation, health) => MovePreserves(s, id, position, rotation, health);
      case ShootPlayer(id, targetId) => ShotPreserves(s, id, targetId);
      case Respawn(id, position, rotation) => RespawnPreserves(s, id, position, rotation);
      case ReportScore(id, score) => ScorePreserves(s, id, score);
      case Disconnect(id) => DisconnectPreserves(s, id);
      case TimerFires(x, z) => if s.pending != [] { TimerPreserves(s, x, z); }
    }
  }

  /** Capacity: whatever the events, the registry holds at most MAX_PLAYERS records. */
  lemma {:induction false} RunKeepsInv(s: State, es: seq<Inbound>)
    requires Inv(s)
    ensures Inv(Run(s, es))
    decreases |es|
  {
    if es != [] {
      StepPreserves(s, es[0]);
      RunKeepsInv(Step(s, es[0]), es[1..]);
    }
  }

  lemma InitialRunsStayWithinCapacity(es: seq<Inbound>)
    ensures |Run(Initial, es).players| <= MAX_PLAYERS
  {
    RunKeepsInv(Initial, es);
  }

  /**
   * Health stays within [0, FULL_HEALTH] under every event but a playerMove
   * reporting an out-of-range health, which the server stores unchecked.
   */
  lemma {:induction false} HonestRunKeepsHealthInRange(s: State, es: seq<Inbound>)
    requires HealthInRange(s)
    requires forall i :: 0 <= i < |es| ==> Honest(es[i])
    ensures HealthInRange(Run(s, es))
    decreases |es|
  {
    if es != [] {
      StepPreserves(s, es[0]);
      assert forall i :: 0 <= i < |es[1..]| ==> es[1..][i] == es[i + 1];
      HonestRunKeepsHealthInRange(Step(s, es[0]), es[1..]);
    }
  }

  /** A single dishonest playerMove takes health out of range. */
  lemma ClientHealthIsTrusted(s: State, id: Id, position: Vec3, rotation: Rotation, h: int)
    requires id in s.players
    requires h < 0 || h > FULL_HEALTH
    ensures !HealthInRange(Step(s, PlayerMove(id, position, rotation, Some(h))))
  {
    var t := Step(s, PlayerMove(id, position, rotation, Some(h)));
    assert t.players[id].health == h;
  }

  // --------------------------------------------------- exactly-once death

  predicate AllShots(es: seq<Inbound>) {
    forall i :: 0 <= i < |es| ==> es[i].ShootPlayer?
  }

  function Count(q: seq<Id>, v: Id): nat {
    multiset(q)[v]
  }

  /**
   * However many shots are resolved, from any shooters, a player dies at
   * most once: a victim that was already dead keeps its health and death
   * count; a live one ends at a health >= 0 and has gained exactly one death
   * if it ended at 0 and none otherwise. Each counted death has scheduled
   * exactly one auto-respawn of that player.
   */
  lemma {:induction false} ShotsKillAtMostOnce(s: State, es: seq<Inbound>, v: Id)
    requires AllShots(es)
    requires v in s.players
    ensures v in Run(s, es).players
    ensures s.players[v].health <= 0 ==>
      && Run(s, es).players[v].health == s.players[v].health
      && Run(s, es).players[v].deaths == s.players[v].deaths
    ensures s.players[v].health > 0 ==>
      && Run(s, es).players[v].health >= 0
      && Run(s, es).players[v].deaths == s.players[v].deaths + (if Run(s, es).players[v].health == 0 then 1 else 0)
    ensures Count(Run(s, es).pending, v) == Count(s.pending, v) + (Run(s, es).players[v].deaths - s.players[v].deaths)
    decreases |es|
  {
    if es != [] {
      var e := es[0];
      var t := Step(s, e);
      assert t == OnShootPlayer(s, e.id, e.targetId);
      ShotEffectOn(s, e.id, e.targetId, v);
      assert AllShots(es[1..]) by {
        forall i | 0 <= i < |es[1..]| ensures es[1..][i].ShootPlayer? {
          assert es[1..][i] == es[i + 1];
        }
      }
      ShotsKillAtMostOnce(t, es[1..], v);
    }
  }

  /** One shot, seen from player `v`: the step of `ShotsKillAtMostOnce`. */
  lemma ShotEffectOn(s: State, shooterId: Id, targetId: Id, v: Id)
    requires v in s.players
    ensures
      var t := OnShootPlayer(s, shooterId, targetId);
      && v in t.players
      && (s.players[v].health <= 0 ==>
            t.players[v].health == s.players[v].health && t.players[v].deaths == s.players[v].deaths)
      && (s.players[v].health > 0 ==>
            && t.players[v].health >= 0
            && t.players[v].deaths == s.players[v].deaths + (if t.players[v].health == 0 then 1 else 0))
      && Count(t.pending, v) == Count(s.pending, v) + (t.players[v].deaths - s.players[v].deaths)
  {
    if ShotApplies(s, shooterId, targetId) {
      ShotOutcome(s, shooterId, targetId);
      var t := OnShootPlayer(s, shooterId, targetId);
      assert ShotLeaves(s, t, shooterId, targetId, v);
    }
  }

  /**
   * The 1v1 scenario: from full health, four shots by another player leave
   * the victim at 75, 50, 25 and 0; the fourth is its one death and the
   * shooter's one kill and schedules one auto-respawn; a fifth is ignored.
   */
  lemma FourShotsFromFullHealth(s: State, a: Id, b: Id)
    requires a in s.players && b in s.players && a != b
    requires s.players[b].health == FULL_HEALTH
    ensures
      var s1 := OnShootPlayer(s, a, b);
      var s2 := OnShootPlayer(s1, a, b);
      var s3 := OnShootPlayer(s2, a, b);
      var s4 := OnShootPlayer(s3, a, b);
      && s1.players[b].health == 75
      && s2.players[b].health == 50
      && s3.players[b].health == 25
      && s4.players[b].health == 0
      && s3.players[b].deaths == s.players[b].deaths
      && s3.players[a].kills == s.players[a].kills
      && s3.pending == s.pending
      && s4.players[b].deaths == s.players[b].deaths + 1
      && s4.players[a].kills == s.players[a].kills + 1
      && s4.pending == s.pending + [b]
      && OnShootPlayer(s4, a, b) == s4
  {
  }

  /** The victim of the scenario respawns when its timer fires, keeping its death. */
  lemma ScenarioAutoRespawn(s: State, a: Id, b: Id, x: real, z: real)
    requires a in s.players && b in s.players && a != b
    requires s.players[b].health == FULL_HEALTH && s.pending == []
    ensures
      var s4 := OnShootPlayer(OnShootPlayer(OnShootPlayer(OnShootPlayer(s, a, b), a, b), a, b), a, b);
      && s4.pending == [b]
      && var s5 := OnAutoRespawn(s4, x, z);
      && s5.players.Keys == s.players.Keys
      && s5.players[a].kills == s.players[a].kills + 1
      && s5.players[b].health == FULL_HEALTH
      && s5.players[b].deaths == s.players[b].deaths + 1
      && s5.players[b].position == Vec3(x, SPAWN_Y, z)
      && s5.pending == []
  {
    FourShotsFromFullHealth(s, a, b);
  }

  /**
   * The timer's re-check looks at the present health, not at which death
   * scheduled it: a player that respawns by itself and is killed again
   * before its first timer fires is revived by that first timer, and its
   * own timer then finds it alive and does nothing.
   */
  lemma EarlierTimerRevivesLaterDeath(s: State, a: Id, b: Id, position: Vec3, x1: real, z1: real, x2: real, z2: real)
    requires a in s.players && b in s.players && a != b
    requires s.players[b].health == 0 && s.pending == [b]
    ensures
      var s1 := OnRespawn(s, b, position, None);
      var s5 := OnShootPlayer(OnShootPlayer(OnShootPlayer(OnShootPlayer(s1, a, b), a, b), a, b), a, b);
      var s6 := OnAutoRespawn(s5, x1, z1);
      var s7 := OnAutoRespawn(s6, x2, z2);
      && s5.players[b].health == 0
      && s5.pending == [b, b]
      && s6.players[b].health == FULL_HEALTH
      && s7.players == s6.players
      && s7.pending == []
  {
    var s1 := OnRespawn(s, b, position, None);
    FourShotsFromFullHealth(s1, a, b);
  }

  // ------------------------------------------------- monotone counters

  predicate RejoinsOf(es: seq<Inbound>, p: Id) {
    exists i :: 0 <= i < |es| && es[i].JoinGame? && es[i].id == p
  }

  lemma {:induction false} AbsentStaysAbsent(s: State, es: seq<Inbound>, p: Id)
    requires p !in s.players
    requires !RejoinsOf(es, p)
    ensures p !in Run(s, es).players
    decreases |es|
  {
    if es != [] {
      assert !RejoinsOf(es[1..], p) by {
        forall i | 0 <= i < |es[1..]| ensures !(es[1..][i].JoinGame? && es[1..][i].id == p) {
          assert es[1..][i] == es[i + 1];
        }
      }
      assert !(es[0].JoinGame? && es[0].id == p);
      AbsentStaysAbsent(Step(s, es[0]), es[1..], p);
    }
  }

  /**
   * Kills and deaths only grow for the lifetime of a connection: unless the
   * same id joins again (which resets the record), a player still registered
   * after any run has at least the counts it started with.
   */
  lemma {:induction false} CountersMonotone(s: State, es: seq<Inbound>, p: Id)
    requires p in s.players
    requires !RejoinsOf(es, p)
    ensures p in Run(s, es).players ==> CountersKept(s, Run(s, es), p)
    decreases |es|
  {
    if es != [] {
      var t := Step(s, es[0]);
      assert !(es[0].JoinGame? && es[0].id == p);
      assert !RejoinsOf(es[1..], p) by {
        forall i | 0 <= i < |es[1..]| ensures !(es[1..][i].JoinGame? && es[1..][i].id == p) {
          assert es[1..][i] == es[i + 1];
        }
      }
      StepPreserves(s, es[0]);
      if p in t.players {
        CountersMonotone(t, es[1..], p);
      } else {
        AbsentStaysAbsent(t, es[1..], p);
      }
    }
  }
}

# Arena server player registry, in Dafny

This project models the game-state core of a two-player arena shooter server, `server.js`. The server keeps one
mutable registry of players keyed by socket id (`players`, capacity `MAX_PLAYERS` = 2). Six socket handlers
change the registry: `joinGame`, `playerMove`, `shootPlayer`, `respawn`, `scoreUpdate` and `disconnect`. A
kill also schedules a deferred auto-respawn (a `setTimeout` callback), which re-checks the registry when it
fires. Every handler emits socket.io events to all connections, to all but the sender, or to one connection.

The model has three modules:

- `Registry` (`registry.dfy`) holds the values: `Player`, the outbound events and their audiences, and a
  `State` made of the registry map, the queue of pending auto-respawn targets and the outbox of emitted
  messages. It has one function per handler (`OnJoinGame`, `OnPlayerMove`, `OnShootPlayer`, `OnAutoRespawn`,
  `OnRespawn`, `OnScoreUpdate`, `OnDisconnect`). Each function's contract states the guard, the new record,
  that every other record is untouched, and the exact messages emitted. The exception is `OnShootPlayer`.
  Its own contract states only the ignored shot and that no player is added or removed. The lemma
  `ShotOutcome` states the records, the scheduled timer and the messages of an accepted shot.
- `Events` (`events.dfy`) covers runs of the server: inbound events dispatched one at a time (`Step`, `Run`),
  and lemmas over whole runs. These cover capacity, health range, exactly-once death with one scheduled
  respawn, monotone counters, and the scenarios of a four-shot kill and of a stale timer.
- `Server` (`server.dfy`) is the imperative form. `GameServer` is a class whose fields `players`, `pending`
  and `outbox` are updated in place by one method per handler. Each method's contract ties the new fields
  to the `Registry` function of the old ones and keeps the registry invariant `Valid()`. `FillArena` and
  `Scenario` drive the object through the two-player scenario.

Modelling choices:

- Handlers run to completion one at a time on one event loop, so each handler is one state transition.
- Positions and rotations are only copied, never computed on. A position is a triple of reals. A rotation
  is the one real angle the server stores, `rotation.y`. The random spawn coordinates of the auto-respawn
  are parameters.
- All timers share the same 3000 ms delay, so they fire in the order they were scheduled. `pending` is
  therefore a FIFO queue, and firing a timer means `OnAutoRespawn` on its head.
- When a join is refused, `socket.disconnect()` on the server runs that socket's own `disconnect` handler at
  once (socket.io's server-initiated disconnect). So a refused join is `maxPlayersReached` to the requester
  followed by `OnDisconnect`. The registry is unchanged for a newcomer. A connection that is already
  registered and sends `joinGame` again while the arena is full loses its own record.
- A join by an id that is already registered, with room left, replaces that id's record with a fresh one.

What server.js does not do, and the model therefore does not do either:

- server.js has no duplicate-name eviction. Two connections may join under the same name.
- server.js keeps no external user reference and has no stats sink.
- server.js emits no `playerShot` (muzzle flash) event and no `playerDied` event.
- server.js sends `playerHit` and `statsUpdate` only for an accepted shot.
- server.js's auto-respawn re-checks only "registered and health exactly 0", not which death scheduled it.
  `Events.EarlierTimerRevivesLaterDeath` shows the consequence: a player that respawns by itself and is
  killed again is revived by its first, older timer.

## Model

| member | source | states |
|---|---|---|
| `Registry.OnJoinGame` | server.js:25-53 | A full registry refuses the join: `maxPlayersReached` to the requester, then the disconnect handler's removal and `playerLeft` to all. A newcomer's refusal leaves the registry unchanged. Otherwise the caller's id maps to a fresh record (given name, 0 kills, 0 deaths, health 100, spawn (0, 1.6, 5), rotation 0, no score), no other record changes, and `playerInfo` to the caller and `playerJoined` to all carry the new roster. The registry never grows past `MAX_PLAYERS`. |
| `Registry.OnPlayerMove` | server.js:55-71 | An unknown id changes nothing and emits nothing. A known id gets the sent position and rotation, and the sent health only if one was sent. Name, kills, deaths and score are kept, other records are untouched, and exactly one `playerMoved` goes to all but the sender. |
| `Registry.OnShootPlayer` | server.js:73-77 | A shot whose shooter or victim is unregistered, or whose victim has health <= 0, changes no state and emits nothing. No shot adds or removes a player. |
| `Registry.ShotOutcome` | server.js:77-124 | An accepted shot sets the victim's health to max(0, h - 25) and keeps every other health. Every identity, position, rotation and score is kept. A kill adds exactly one death to the victim and one kill to the shooter, on the same record for a self-kill, and appends exactly one auto-respawn of the victim. `playerHit` with the new health goes to the victim and `statsUpdate` with the roster goes to all. |
| `Registry.OnAutoRespawn` | server.js:89-110 | The oldest timer is used up. If its target is gone or not at health exactly 0, nothing else changes. Otherwise the target gets health 100 and position (x, 1.6, z) and keeps name, counters, rotation and score. `playerRespawned` goes to all and `forceRespawn` to the target. |
| `Registry.OnRespawn` | server.js:128-149 | An unknown id changes nothing. A known id gets health 100 and the sent position, and the sent rotation only if one was sent. Its name, counters and score are kept and other records are untouched. `playerRespawned` and `statsUpdate` go to all. |
| `Registry.OnScoreUpdate` | server.js:151-158 | An unknown id changes nothing. A known id gets the score, nothing else changes, and `scoreUpdate` with the roster goes to all. |
| `Registry.OnDisconnect` | server.js:160-168 | Exactly the caller's record is removed, or none if it is absent. The size drops by one exactly when it was present, other records are untouched, pending timers stay, and `playerLeft` with the roster goes to all. |
| `Events.Step` | server.js:22-169 | Dispatches each inbound event to its handler, and lets the oldest pending timer fire between any two events. A timer event with none pending changes nothing. Its contract: nothing emitted is ever taken back (the old outbox is a prefix of the new one), and an event schedules at most one timer. |
| `Events.Run` | server.js:22-169 | Over any sequence of events, the outbox only grows, and at most one timer is scheduled per event. |
| `Events.JoinPreserves` | server.js:25-41 | A join keeps the registry invariant and health in range. It keeps the counters of every other player. |
| `Events.MovePreserves` | server.js:55-61 | A move keeps the invariant and the counters. It keeps health in range when the health it sends, if any, is itself in range. |
| `Events.ShotPreserves` | server.js:77-84 | A shot keeps the invariant and health in range, and never lowers a counter. |
| `Events.RespawnPreserves` | server.js:128-134 | A client respawn keeps the invariant, health in range and the counters. |
| `Events.ScorePreserves` | server.js:151-153 | A score update keeps the invariant, health in range and the counters. |
| `Events.DisconnectPreserves` | server.js:160-162 | A disconnect keeps the invariant, health in range and the counters of those who stay. |
| `Events.TimerPreserves` | server.js:90-95 | A fired timer keeps the invariant, health in range and the counters. |
| `Events.StepPreserves` | server.js:22-169 | Every inbound event keeps the invariant and the counters of every player it does not re-join. Every event but a playerMove sending an out-of-range health keeps health in range. |
| `Events.RunKeepsInv` | server.js:27-33 | Over any sequence of events, the registry holds at most `MAX_PLAYERS` records and files each under its own id. |
| `Events.InitialRunsStayWithinCapacity` | server.js:13-14 | Starting from the empty registry, no sequence of events ever exceeds two players. |
| `Events.HonestRunKeepsHealthInRange` | server.js:78-82 | Health stays within [0, 100] over any run whose moves send no out-of-range health. |
| `Events.ClientHealthIsTrusted` | server.js:59-61 | One playerMove sending a health outside [0, 100] puts that health in the registry. The server does not check it. |
| `Events.ShotsKillAtMostOnce` | server.js:77-89 | Over any sequence of shots, a dead victim keeps its health and deaths. A live one ends at health >= 0 with exactly one more death if it ends at 0 and none otherwise. The auto-respawns scheduled for it equal the deaths it gained. |
| `Events.FourShotsFromFullHealth` | server.js:78-84 | From health 100, four shots by another player give 75, 50, 25 and 0. The first three leave deaths, the shooter's kills and the pending timers as they were. The fourth adds one death, one kill for the shooter and one pending respawn. A fifth shot changes nothing. |
| `Events.ScenarioAutoRespawn` | server.js:89-96 | After that kill, the timer brings the victim back at health 100 at (x, 1.6, z). The victim keeps its one death, the shooter its one kill, and the queue is empty. |
| `Events.EarlierTimerRevivesLaterDeath` | server.js:89-95 | A dead player respawns by itself and is killed again before its first timer fires. That older timer revives it at once, and the newer one then finds it alive and changes nothing. |
| `Events.AbsentStaysAbsent` | server.js:160-162 | Once a record is removed, only a join under the same id brings one back. |
| `Events.CountersMonotone` | server.js:83-84 | Unless its id joins again, a player registered after any run has at least the kills and deaths it started with. |
| `Server.GameServer.constructor` | server.js:13 | The registry, the timer queue and the outbox start empty, and the invariant holds. |
| `Server.GameServer.JoinGame` | server.js:25-53 | Updates the fields in place to `OnJoinGame` of the old ones and reports whether the join was accepted. |
| `Server.GameServer.PlayerMove` | server.js:55-71 | Updates the fields in place to `OnPlayerMove` of the old ones and keeps the invariant. |
| `Server.GameServer.ShootPlayer` | server.js:73-126 | Updates the fields in place to `OnShootPlayer` of the old ones, with shooter and victim possibly the same record, and reports whether the shot killed. |
| `Server.GameServer.FireAutoRespawn` | server.js:89-110 | Fires the oldest timer in place, to `OnAutoRespawn` of the old fields, and reports whether it revived its target. |
| `Server.GameServer.Respawn` | server.js:128-149 | Updates the fields in place to `OnRespawn` of the old ones and keeps the invariant. |
| `Server.GameServer.ScoreUpdate` | server.js:151-158 | Updates the fields in place to `OnScoreUpdate` of the old ones and keeps the invariant. |
| `Server.GameServer.Disconnect` | server.js:160-168 | Updates the fields in place to `OnDisconnect` of the old ones and keeps the invariant. |
| `Server.FillArena` | server.js:27-41 | Two joins fill the arena with fresh records. A third connection gets `maxPlayersReached`, and the registry still holds exactly the two. |
| `Server.Scenario` | server.js:77-110 | Through the object: after four shots and the timer, the victim is back at health 100 at the spawn point with one death, the shooter has one kill, and no timer is pending. |

## Left out

- HTTP serving with express, `http.listen`, the port and every `console.log` (server.js:1-20, 171-175) are I/O with no state.
- Delivery over socket.io is not modelled. An emitted event is an outbox entry with its audience and payload. "All" means the connections open when it is emitted.
- The 3000 ms delay of the auto-respawn timer is not modelled. Only the order in which timers fire is kept.
- The values of `Math.random()` are left out. The auto-respawn's x and z are parameters, and their range [-15, 15) is not constrained.
- Malformed client payloads are not modelled. A payload field is either a well-typed value or, where the handler tests for it (`data.health !== undefined`, `if (data.rotation)`), absent. JavaScript's `null` or non-number healths, a missing position and `NaN` are left out.
- Health and score are integers. JavaScript numbers may also be fractional, and `health` is not a float here.
- OnAutoRespawn: a timer whose target disconnected still fires and does nothing; cancelling timers does not exist in the source and is not modelled.

# Bullet Hell: a verified model of the game, its network protocol and its RL environment

This project models the sequential core of the Bullet Hell game. The game is a
top-down shooter: square player and enemy entities move in a 500 x 500 world
and shoot bullets at each other. The repository around it adds three things:
a multiplayer server and client that talk a length-prefixed message protocol,
and a Gymnasium environment for reinforcement learning. This project models
the code those three share.

The modules follow the program's files:

- `Protocol` (`protocol.dfy`) models `net/protocol.py`.
  - The flat action codec: 5 moves x 4 aim angles = 20 actions, total and clamped.
  - The 4-byte big-endian length prefix and the frame layout.
  - The checks `recv_message` makes on the announced length.
  - The `_recv_exact` loop over a socket that hands out arbitrary chunks.
- `BulletHell` (`bullethell.py`) models the root `bullethell.py`.
  - `Bullet` and `Entity` are classes with mutable fields; the player and the enemy are two named constructors of `Entity`.
  - The operations are movement with the world clamp, collision and damage, the shoot and re-roll timers, and the bullets' flight and pruning.
  - The per-frame world step of `main` is the class `Game`.
- `Server` (`server.dfy`) models `net/server.py` without sockets, threads or locks.
  - Enemies target the nearest living player.
  - `accept_loop` allocates client ids and decides admission.
  - The reader thread's queue entries are modelled, and so is how a tick drains them into the registry.
  - A tick prunes disconnected records, advances the clock and checks the spawn timer.
  - Players, enemies and bullets then move, and each record is sent its own snapshot. The class `World` holds the server's state.
- `Env` (`env.dfy`) models the logic of `envs/BulletHellEnv.py`.
  - `get_closest_entities` is modelled as the prefix of a stable insertion sort by squared distance.
  - The observed bullets are truncated before the friendly bullets are filtered out.
  - Also modelled: `is_player_in_center`, the reward cascade, `terminated`/`truncated`, the 60 ms clock, the spawn timer, and `reset`.
- `Client` (`client.dfy`) models `_keys_to_flat_action` and the camera clamp of `net/client.py`.
- `Keyboard` and `Wrappers` hold the key state the game reads and the Option type.

Inputs the model does not compute are parameters:

- the random draws (spawn positions and intervals, the player's aim, the enemy's direction);
- the trigonometry (a bullet's velocity from its angle, an enemy's aim from `atan2`), held in a `Trig` value;
- JSON parsing and encoding, as `parse`/`encode` functions on bytes;
- send failures, as a `failures` sequence;
- the number of `ENEMY_KILLED` events in a step.

Where code and comments disagree, the model follows the code:

- A new `ClientRecord` holds flat action 0. Its comment says "no move", but 0 decodes to move 0, which is "left" at 0 degrees (`Server.DefaultActionMovesLeft`).
- A client id is taken before the join is validated, so rejected connections consume ids too.
- The server's clock and spawn timer advance even when nobody is connected.
- A bullet exactly on the world edge (x = 500) is still on screen.
- `is_colliding` does not clamp health.

## Model

| member | source | states |
|---|---|---|
| Protocol.ClampInt | src/bulllet_hell_rl/net/protocol.py:35 | `max(lo, min(hi, v))` lies in [lo, hi]; it is `v` inside the range, `lo` below it, `hi` above it |
| Protocol.RoundQuarterTurns | src/bulllet_hell_rl/net/protocol.py:45 | `round(angle / 90)` is the nearest whole number of quarter turns; an exact half rounds to the even one (Python's half-to-even rule) |
| Protocol.FlatActionToMoveAndAngle | src/bulllet_hell_rl/net/protocol.py:29-38 | total on every integer: move in [0, 4], angle in {0, 90, 180, 270}, and move*4 + angle/90 is the input clamped into [0, 19] |
| Protocol.MoveAndAngleToFlatAction | src/bulllet_hell_rl/net/protocol.py:41-46 | the result is in [0, 19]; its quotient by 4 is the clamped move; its remainder is the snapped angle index mod 4 |
| Protocol.FlatActionRoundTrip | src/bulllet_hell_rl/net/protocol.py:29-46 | for every f in [0, 19], encoding the decoded pair gives back f |
| Protocol.QuarterTurnsOfMultiple | src/bulllet_hell_rl/net/protocol.py:45 | an angle of exactly 90*k snaps to k quarter turns, for every integer k |
| Protocol.AngleIndexOfMultiple | src/bulllet_hell_rl/net/protocol.py:43-46 | for angle 90*k the flat action is clamp(move)*4 + k mod 4, with the non-negative remainder |
| Protocol.EncodeThenDecode | src/bulllet_hell_rl/net/protocol.py:29-46 | decoding the encoding of (move, 90*k) gives back (clamp(move), (k mod 4)*90) |
| Protocol.EncodeLength | src/bulllet_hell_rl/net/protocol.py:49-51 | `struct.pack(">I", n)` is four bytes, for every n below 2^32 |
| Protocol.DecodeLength | src/bulllet_hell_rl/net/protocol.py:71 | `struct.unpack(">I", b)` of four bytes is below 2^32 |
| Protocol.DecodeEncodeLength | src/bulllet_hell_rl/net/protocol.py:58-71 | unpacking what was packed gives back n |
| Protocol.EncodeDecodeLength | src/bulllet_hell_rl/net/protocol.py:58-71 | packing what was unpacked gives back the four bytes: the prefix codec is a bijection |
| Protocol.Frame | src/bulllet_hell_rl/net/protocol.py:54-59 | a frame exists exactly when the payload length fits the prefix; it is 4 bytes longer than the payload |
| Protocol.FrameLayout | src/bulllet_hell_rl/net/protocol.py:56-59 | a frame is the big-endian length of the payload followed by the payload itself |
| Protocol.Socket.Recv | src/bulllet_hell_rl/net/protocol.py:86 | `sock.recv(n)` returns a prefix of at most n unread bytes, empty only at end of stream, and consumes it |
| Protocol.Socket.SendAll | src/bulllet_hell_rl/net/protocol.py:58-59 | `sendall` appends its bytes to what was written |
| Protocol.RecvExact | src/bulllet_hell_rl/net/protocol.py:82-91 | whatever the chunking, `_recv_exact(n)` returns exactly the next n bytes when the stream holds n, and otherwise None with the stream exhausted |
| Protocol.ReadMessage | src/bulllet_hell_rl/net/protocol.py:62-79 | reading never grows the stream, and a message is only produced by consuming bytes |
| Protocol.RecvMessage | src/bulllet_hell_rl/net/protocol.py:62-79 | `recv_message` on the socket returns the message and leaves the rest of the stream as the reference reading `ReadMessage` says |
| Protocol.SendMessage | src/bulllet_hell_rl/net/protocol.py:54-59 | `send_message` writes exactly the frame of the encoded payload, or nothing when the length cannot be packed |
| Protocol.RefusedLengthReadsNoPayload | src/bulllet_hell_rl/net/protocol.py:72-73 | an announced length of 0 or above 10 MiB gives None and reads only the prefix |
| Protocol.FrameRoundTrip | src/bulllet_hell_rl/net/protocol.py:54-77 | for 0 < len(p) <= 10 MiB, reading a frame back yields `parse(p)` and leaves exactly what follows the frame |
| Protocol.TruncatedFrameIsNone | src/bulllet_hell_rl/net/protocol.py:74-76 | a stream that ends inside the payload yields None |
| Protocol.SendThenReceive | src/bulllet_hell_rl/net/protocol.py:54-77 | a message sent with `send_message` is received by `recv_message` on the same byte stream whenever the JSON round trip holds |
| BulletHell.ActionOf | bullethell.py:107-114 | only the strings "left", "right", "up" and "down" select a direction; every other string moves nothing |
| BulletHell.RectsCollide | bullethell.py:86 | pygame's `colliderect` on rectangles of positive size: they collide exactly when the corner where their top and left edges meet lies inside both |
| BulletHell.CollideIffSharePoint | bullethell.py:86 | two rectangles of positive size collide exactly when some point lies in both |
| BulletHell.ClampToWorld | bullethell.py:116-118 | the clamped coordinate lies in [0, extent - size] and is unchanged when already inside |
| BulletHell.Displace | bullethell.py:107-114 | before the clamp, a direction changes exactly one coordinate by exactly `speed`, and no action changes nothing |
| BulletHell.Moved | bullethell.py:105-118 | after `update_position` the entity lies in [0, 500 - size] on both axes, whatever its prior position |
| BulletHell.MovedIsOneShortStep | bullethell.py:105-118 | from inside the world a move changes at most one coordinate, by at most `speed`, and no action stays put |
| BulletHell.Bullet.IsOffScreen | bullethell.py:54-57 | a bullet anywhere on the closed square [0, 500] x [0, 500], edges included, is not off screen |
| BulletHell.OnWorldIsClosedSquare | bullethell.py:54-57 | `is_off_screen` is false exactly on [0, 500] x [0, 500], so a bullet at x = 500 is kept |
| BulletHell.Bullet.constructor | bullethell.py:33-45 | a bullet keeps the given position, angle, damage and team; its velocity is fixed once from the angle |
| BulletHell.Bullet.Update | bullethell.py:47-52 | a bullet moves by its velocity; velocity, damage and team cannot change |
| BulletHell.Hits | bullethell.py:80-95 | the bullets `is_colliding` returns are never more than the bullets it scanned |
| BulletHell.CollectOne | bullethell.py:85-94 | one turn of the loop of `is_colliding` extends the reference hit list and its damage sum by bullet `i`, if it hits |
| BulletHell.HitsAreOverlappingOpponents | bullethell.py:80-95 | the bullets `is_colliding` returns are exactly the input bullets that overlap the entity and belong to the other team |
| BulletHell.SameTeamNeverHits | bullethell.py:88-89 | a bullet of the entity's own team is never returned |
| BulletHell.HitsKeepOrder | bullethell.py:84-94 | the hits of a concatenation are the hits of each part, in order, so hits come back in input order |
| BulletHell.DamageIsNonNegative | bullethell.py:91 | with non-negative damages the total damage is non-negative, so hits never raise health |
| BulletHell.RemoveFirstMultiset | bullethell.py:242-244 | `list.remove` takes away one occurrence, and the `if bullet in bullets` guard makes an absent bullet a no-op |
| BulletHell.RemoveAllMultiset | bullethell.py:242-244 | removing a list of bullets one by one removes exactly their multiset |
| BulletHell.RemoveAllDistinct | bullethell.py:242-244 | on a list without repeats, every removed bullet is gone afterwards and no repeats appear |
| BulletHell.RemoveEach | bullethell.py:242-244 | the removal loop computes the reference removal `RemoveAll`; it keeps only bullets of the list, and on a list without repeats it has none and holds no removed bullet |
| BulletHell.OnScreenKeepsVisible | bullethell.py:269-272 | the pruned bullet list holds exactly the bullets that are not off screen |
| BulletHell.UnflaggedIsOnScreen | bullethell.py:269-272 | removing the bullets flagged off screen while iterating a copy gives the on-screen filter |
| BulletHell.KeptAreOnScreen | bullethell.py:269-272 | every bullet kept by the bullet pass was in the list and is on screen |
| BulletHell.AdvanceBullets | bullethell.py:269-272 | every bullet advances by its velocity; the kept list is the original minus those now off screen, with no repeats |
| BulletHell.AdvanceOne | bullethell.py:269-272 | one turn of `for bullet in bullets[:]`: bullet `i` moves by its velocity, is flagged exactly when it is now off screen and then leaves the list; the bullets to come have not moved |
| BulletHell.AdvanceAll | bullethell.py:269-272 | after the loop every bullet has moved by its velocity and the list holds exactly the unflagged bullets, in order |
| BulletHell.Entity.Player | bullethell.py:131-134 | a player has speed 5, health 100, friendly team, a 250 ms shoot interval, aim 0, timer 0 and no action |
| BulletHell.Entity.Enemy | bullethell.py:163-168 | an enemy has speed 3, health 1, enemy team, a 2000 ms shoot interval and a 250 ms action interval |
| BulletHell.Entity.UpdatePosition | bullethell.py:105-122 | the new position is the reference `Moved` of the old one under the current action, and lies in bounds |
| BulletHell.Entity.IsColliding | bullethell.py:80-95 | the loop returns the reference hit list, and health drops by exactly the sum of their damages, without clamping |
| BulletHell.CollectHits | bullethell.py:84-95 | the loop of `is_colliding` collects exactly the reference hit list, in order, and the sum of their damages |
| BulletHell.Entity.SpawnBullet | bullethell.py:97-103 | a fresh bullet at (x + size//2, y + size//2), with the entity's aim and team and the given damage |
| BulletHell.Entity.PlayerUpdate | bullethell.py:136-152 | `Player.update`: the action follows the key priority, the player moves, and its hits are returned and subtracted |
| BulletHell.Entity.Drive | bullethell.py:148-152 | an entity given an action takes it, moves by it and ends inside the world; the hits are the reference hit list where it now stands, and their damage comes off its health |
| BulletHell.Entity.PlayerShoot | bullethell.py:154-161 | the player fires exactly when the shoot interval has elapsed, aiming at the drawn angle and restarting its timer; otherwise nothing changes |
| BulletHell.Entity.EnemyUpdate | bullethell.py:170-187 | the direction is re-rolled exactly when the action interval has elapsed; the enemy moves, aims at the target's centre and takes its hits |
| BulletHell.Entity.Manoeuvre | bullethell.py:170-183 | the re-roll, the move and the aim of `Enemy.update` |
| BulletHell.Entity.Steer | bullethell.py:172-176 | the direction is re-rolled and the timer restarts exactly when `now - last_action_time >= action_interval`; otherwise both are kept |
| BulletHell.Entity.AimAt | bullethell.py:180-183 | the aim is atan2 of the centre-to-centre offset to the target |
| BulletHell.Entity.EnemyShoot | bullethell.py:189-194 | the enemy fires along its aim exactly when the shoot interval has elapsed, and restarts its timer; otherwise nothing changes |
| BulletHell.KeyAction | bullethell.py:138-146 | up (w) beats down (s), which beats left (a), which beats right (d); no key gives no action |
| BulletHell.AliveKeepsLiving | bullethell.py:259-261 | the survivors are exactly the enemies with health above 0 |
| BulletHell.SurvivorsAreAlive | bullethell.py:259-261 | removing the dead while iterating a copy keeps exactly the living enemies |
| BulletHell.LivingAtIsAlive | bullethell.py:259-261 | read off the enemies' recorded end poses, the survivors are exactly the living enemies, in order |
| BulletHell.EnemyArm | bullethell.py:249-251 | `enemy.shoot` in the loop: a due shot joins the end of the list from the enemy's centre, along its aim; only the shoot timer changes |
| BulletHell.EnemyMoves | bullethell.py:253-254 | `enemy.update` in the loop: the direction is re-rolled when due, the enemy moves, ends in bounds, aims at the target's centre and loses the damage of the hits where it now stands |
| BulletHell.EnemyTurn | bullethell.py:247-257 | one enemy turn is the shot, the update and the hits that turn records: from its start pose to its end pose it fires if due, re-rolls if due, moves, aims at the target centre and loses the damage of the hits, which are those of the armed list where it now stands; the list afterwards is the armed list minus the hits, without repeats |
| BulletHell.DropIfDead | bullethell.py:259-261 | the enemy is flagged dead exactly when its health is at most 0, and then leaves the list; the list stays the unflagged enemies so far followed by the enemies to come |
| BulletHell.PassTurn | bullethell.py:247-257 | turn `i` as recorded: the enemy's start and end poses, the lists before and after; every bullet left is old or the turn's own shot, without repeats |
| BulletHell.EnemyStep | bullethell.py:247-261 | turn `i` and its removal: the pass gains turn `i` as recorded, the list is the survivors so far followed by the rest, and every bullet is old or born in the pass |
| BulletHell.EnemyLoop | bullethell.py:247-261 | after the loop every turn went as recorded from the old list to the new one, every enemy took its turn from its start pose, and the survivors are exactly the unflagged enemies |
| BulletHell.EnemyPass | bullethell.py:246-261 | every turn of the enemy loop went as recorded, from each enemy's start pose to its end pose and from the list `bullets` to `after`; the enemies left are exactly the unflagged ones; every bullet is old or fresh |
| BulletHell.EnemiesAct | bullethell.py:246-261 | the survivors are exactly the living enemies, in bounds, in order (the enemies whose recorded end pose has health), without repeats; every turn went as recorded; every bullet is old or fresh |
| BulletHell.PlayerTurn | bullethell.py:240-244 | the player takes the keys' action, moves by it and ends in bounds; its hits are the reference hits where it now stands and their damage comes off its health; the list then loses exactly those hits |
| BulletHell.Game.constructor | bullethell.py:202-213 | the game starts with the player at the drawn position at full health, no enemies, no bullets, the spawn clock at 0 |
| BulletHell.Game.PlayerFires | bullethell.py:225-229 | a due shot appends one fresh friendly bullet at the end; otherwise the list is unchanged |
| BulletHell.Game.SpawnEnemy | bullethell.py:231-238 | an enemy joins the end at the drawn position exactly when the spawn interval has elapsed, and the timer and interval restart |
| BulletHell.Game.MovePlayer | bullethell.py:240-244 | the player takes the keys' action and moves by it; the hits where it now stands cost it their damage and leave the list, which loses exactly them; aim, timer and enemies are untouched |
| BulletHell.Game.MoveEnemies | bullethell.py:246-261 | each enemy's turn went as recorded, from its start pose to its end pose and from the old list to the new one; the enemies left are exactly the living old ones, in order; the player is untouched |
| BulletHell.Game.MoveBullets | bullethell.py:268-272 | every bullet moves by its velocity, and the list becomes exactly its bullets still on screen, in order; the player and the enemies are untouched |
| BulletHell.Game.Arm | bullethell.py:225-238 | the shot and the spawn check of a frame: a due player shot joins the end of the list along the drawn angle and restarts the shoot timer; an enemy joins the end at the drawn position exactly when the spawn interval has elapsed, and the spawn timer and interval restart; otherwise each stays as it was; the player's position and health are untouched |
| BulletHell.Game.Advance | bullethell.py:240-272 | the player moves by the keys; its hits are the reference hits of the old list where it now stands, with the bullets where they stood before this half-frame (`at`), and their damage comes off its health; each enemy turn went as recorded from its start pose and from the list without those hits, its hits being the reference hits where it then stood; the enemies left are the living ones; the bullets kept are those of the enemy pass's list still on screen after flying on from `at`; `running` iff the player's health is above 0 |
| BulletHell.Game.Fight | bullethell.py:240-266 | the player's and the enemies' passes with `running` read after them, no bullet moving: the player's hits are the reference hits where it now stands and cost it their damage; every enemy turn went as recorded from its start pose, hit by the reference hits where it stood; every collision is stated against the snapshot `at` of where the bullets stand, which the old bullets already stood at; the enemies left are the living old ones; `running` iff the player's health is above 0 |
| BulletHell.Game.Clash | bullethell.py:240-266 | the player's pass then the enemies' pass: the player's hits are the reference hits of the old list where it now stands and cost it their damage; every enemy turn went as recorded from its start pose with the reference hits where it then stood; the enemies left are the living old ones; `running` iff the player's health is above 0 |
| BulletHell.Game.Step | bullethell.py:222-272 | one frame of `main`: a due player shot joins the list along the drawn angle, from the player's centre; an enemy spawns at the drawn position exactly when due; the player moves by the keys, and its hits are the reference hits where it now stands, with every bullet where it stood before moving (`at`), their damage coming off its health; every enemy of the roster, the old ones from their old poses and the spawned one from its spawn pose, takes its recorded turn from the list without the player's hits, hit by the reference hits where it then stood; the living ones stay; the bullets flew on from `at` and those on screen stay; `running` iff the player is alive |
| Server.ClientRecord.constructor | src/bulllet_hell_rl/net/server.py:65-71 | a new record holds its id, socket and player, flat action 0, and is connected |
| Server.DecodedAction | src/bulllet_hell_rl/net/server.py:249-250 | a record's flat action moves its player by the MOVE_LOOKUP name of its move; move 4 ("none") moves nothing |
| Server.MoveOfIndex | src/bulllet_hell_rl/net/protocol.py:17-23 | every move index in [0, 4] is a MOVE_LOOKUP key: 0 is "left" and 4 is "none" |
| Server.DefaultActionMovesLeft | src/bulllet_hell_rl/net/server.py:70 | the default flat action 0 decodes to move 0 at 0 degrees, so it moves left |
| Server.NearestPlayer | src/bulllet_hell_rl/net/server.py:45-62 | None exactly when no player is alive; otherwise the first living player of minimal squared centre distance |
| Server.NearestIsUnique | src/bulllet_hell_rl/net/server.py:59-61 | the strict `<` makes the nearest player unique: the first one in iteration order wins a tie |
| Server.NearestAmongIsNearestSeat | src/bulllet_hell_rl/net/server.py:53-61 | the nearest-player search over the players agrees with the same search over their recorded poses |
| Server.Admission | src/bulllet_hell_rl/net/server.py:166-180 | a connection whose timeout cannot be set or cleared is closed without a reply; one whose read times out or breaks arrives as no message and, like a non-join message, gets "expected join"; a token mismatch under a secret gets "invalid token"; every other join is admitted |
| Server.AdmissionAsWritten | src/bulllet_hell_rl/net/server.py:173 | as written, a decoded message that is not a JSON object raises instead of being refused; on every other arrival the verdict is `Admission`'s |
| Server.SilentConnectionIsExpectedJoin | src/bulllet_hell_rl/net/server.py:166-176 | a connection whose read times out or breaks (`recv_message` returns None) is refused with "expected join", as written and corrected |
| Server.NonObjectFirstMessageEndsAccepting | src/bulllet_hell_rl/net/server.py:173 | a first message such as `5` stops the accept loop as written, while the corrected admission refuses it with "expected join" |
| Server.ReaderEntries | src/bulllet_hell_rl/net/server.py:74-90 | a reader thread queues its client's messages and ends with exactly one (cid, None) |
| Server.ReadInto | src/bulllet_hell_rl/net/server.py:81-87 | the reader loop appends exactly the reference entries of its socket's stream to the queue |
| Server.ActionValue | src/bulllet_hell_rl/net/server.py:218-220 | an action entry counts only if it is an int in [0, 20); Python's bools count as 0 and 1; a missing action is 0; anything else is ignored |
| Server.Drained | src/bulllet_hell_rl/net/server.py:212-223 | the drain never reconnects a record, and leaves its latest action as it was or sets it to a valid flat action in [0, 20) |
| Server.DisconnectSticks | src/bulllet_hell_rl/net/server.py:213-216 | after a drain a record is disconnected iff it was already, or the batch holds its (cid, None) |
| Server.LastValidActionWins | src/bulllet_hell_rl/net/server.py:212-223 | within a batch the last valid action of a client is the one it keeps |
| Server.NoValidActionKeepsLatest | src/bulllet_hell_rl/net/server.py:218-223 | without a valid action in the batch, the latest action is unchanged |
| Server.OtherClientsIgnored | src/bulllet_hell_rl/net/server.py:212-223 | entries for other ids, including ids no longer in the registry, leave a record unchanged |
| Server.DrainedActionInRange | src/bulllet_hell_rl/net/server.py:220 | the drain keeps every latest action in [0, 20) |
| Server.DrainedAsWrittenAgrees | src/bulllet_hell_rl/net/server.py:218 | as written, the drain raises exactly when the batch holds a non-object message, and otherwise agrees with the corrected drain |
| Server.NonObjectEndsTick | src/bulllet_hell_rl/net/server.py:218 | one non-object message from any client ends the server loop as written; the corrected drain ignores it |
| Server.Lookup | src/bulllet_hell_rl/net/server.py:215-216 | `cid in clients`: the index of the record with that id, or None when no record has it |
| Server.DrainEntry | src/bulllet_hell_rl/net/server.py:212-223 | one entry of the drain loop keeps every record at the reference drain of the entries so far |
| Server.DrainAll | src/bulllet_hell_rl/net/server.py:212-223 | after the loop every record's (disconnected, latest action) is the reference drain of the batch from its old slot |
| Server.Connected | src/bulllet_hell_rl/net/server.py:227 | the connected records never outnumber the registry, and each was in it and is not disconnected |
| Server.ConnectedKeepsLive | src/bulllet_hell_rl/net/server.py:226-229 | after pruning no disconnected record remains, and every connected record does |
| Server.ConnectedKeepsOrder | src/bulllet_hell_rl/net/server.py:226-229 | pruning keeps the ids strictly increasing and the players distinct |
| Server.KeepConnected | src/bulllet_hell_rl/net/server.py:227-229 | the pruning loop computes the reference `Connected` list |
| Server.PlayerStateOf | src/bulllet_hell_rl/net/server.py:98-105 | `_build_player_state`: the record's id with its player's position, health and size |
| Server.BulletStateOf | src/bulllet_hell_rl/net/server.py:108-116 | `_build_bullet_state`: the bullet's position, velocity, team and size |
| Server.EnemyStateOf | src/bulllet_hell_rl/net/server.py:119-120 | `_build_enemy_state`: the enemy's position and size |
| Server.PlayerStates | src/bulllet_hell_rl/net/server.py:290-298 | one player state per record, in registry order, each built by `_build_player_state` |
| Server.SnapshotFor | src/bulllet_hell_rl/net/server.py:296-302 | an update's `you` is the recipient's own player, and its enemies and bullets are the full current lists in order |
| Server.OthersOfAbsentId | src/bulllet_hell_rl/net/server.py:291-295 | with an id no record has, "other players" is every record |
| Server.OthersExcludeRecipient | src/bulllet_hell_rl/net/server.py:291-295 | a recipient's `players` are all the other records, in order, before and after it; there is one fewer than the records |
| Server.Steered | src/bulllet_hell_rl/net/server.py:249-257 | the player aims at its flat action's decoded angle, takes the decoded direction, moves by it and ends in bounds; the hits where it now stands cost it their damage and the list loses exactly them; the shoot timer is kept |
| Server.Fire | src/bulllet_hell_rl/net/server.py:258-260 | when the shoot timer is due, one bullet of the player's team joins the end of the list, shot from its centre along the drawn aim, and the timer restarts; otherwise list, aim and timer stay as they were |
| Server.PlayerMoves | src/bulllet_hell_rl/net/server.py:249-260 | a record's turn as recorded: the decoded move, the hits where the player now stands, the list without them, then a due shot along the drawn aim; every bullet left is old or the shot |
| Server.PlayerStep | src/bulllet_hell_rl/net/server.py:248-260 | turn `i` of the player pass: the pass gains turn `i` as recorded, driven by the record's latest action, and every bullet is old or born in the pass |
| Server.PlayerLoop | src/bulllet_hell_rl/net/server.py:248-260 | after the loop every record's turn went as recorded, from its player's start pose, and from the old list to the new one |
| Server.PlayersAct | src/bulllet_hell_rl/net/server.py:247-260 | every record's turn went as recorded, in registry order, driven by its latest flat action, from its player's start pose to its end pose and from the list `bullets` to `after`; every player ends in bounds; every bullet is old or fresh |
| Server.Drift | src/bulllet_hell_rl/net/server.py:265-267 | an enemy with no target moves by its current action, ends inside the world, and nothing else about it changes |
| Server.HuntTurn | src/bulllet_hell_rl/net/server.py:263-276 | with no living player the enemy only drifts and the list is unchanged; otherwise the target is the nearest living player, and the enemy takes its turn of the game loop against that player's centre |
| Server.HuntPassTurn | src/bulllet_hell_rl/net/server.py:263-276 | turn `i` of the enemy pass as recorded: the target, the start and end poses, the lists before and after; every bullet left is old or the turn's own shot |
| Server.HuntStep | src/bulllet_hell_rl/net/server.py:263-278 | turn `i` of the enemy pass as recorded, followed by the removal of an enemy that had a target and died; the list of enemies is still the survivors so far followed by the enemies to come |
| Server.HuntDrop | src/bulllet_hell_rl/net/server.py:277-278 | the enemy is flagged, and leaves the list, exactly when its health is at most 0; an enemy with no target keeps the positive health it started with and so stays |
| Server.HuntLoop | src/bulllet_hell_rl/net/server.py:263-278 | after `for enemy in enemies[:]` every turn went as recorded, from each enemy's start pose, and the survivors are exactly the unflagged enemies |
| Server.HuntPass | src/bulllet_hell_rl/net/server.py:262-278 | the enemy pass against the players at their poses: every turn as recorded, from each start pose to its end pose and from the list `bullets` to `after`; the survivors are exactly the unflagged enemies; every bullet is old or born in the pass |
| Server.EnemiesHunt | src/bulllet_hell_rl/net/server.py:262-278 | every enemy turn went as recorded against the players' poses, from each start pose to its end pose; the survivors are exactly the living enemies, in bounds, in order (those whose recorded end pose has health); every bullet is old or fresh |
| Server.SendAll | src/bulllet_hell_rl/net/server.py:289-306 | each record, in registry order, gets its snapshot of the same world; a failed send marks it disconnected; latest actions are kept |
| Server.ConnectedRegistryOk | src/bulllet_hell_rl/net/server.py:225-229 | pruning keeps the registry's invariant: increasing ids below the next id, distinct in-bounds players |
| Server.AdmittedRegistryOk | src/bulllet_hell_rl/net/server.py:162-186 | adding a record with the freshly taken id and a new player keeps the registry's invariant with the next id one higher |
| Server.World.constructor | src/bulllet_hell_rl/net/server.py:134-153 | the server starts with no clients, id 0, an empty queue, no bullets, and three enemies at the drawn positions |
| Server.World.Accept | src/bulllet_hell_rl/net/server.py:155-195 | every connection consumes an id; an admitted one joins the end of the registry with a fresh connected player at the drawn position and is welcomed; a refused one gets the reason; a dropped one gets nothing |
| Server.World.ReaderLoop | src/bulllet_hell_rl/net/server.py:74-90 | the reader thread appends exactly its reference entries to the shared queue |
| Server.World.DrainQueue | src/bulllet_hell_rl/net/server.py:208-223 | the queue is cleared and every record ends as the reference drain says |
| Server.World.Prune | src/bulllet_hell_rl/net/server.py:225-229 | the registry becomes exactly its connected records, in order |
| Server.World.SpawnEnemy | src/bulllet_hell_rl/net/server.py:233-239 | an enemy joins the end at the drawn position exactly when the interval has elapsed, and the timer and interval restart |
| Server.World.Settle | src/bulllet_hell_rl/net/server.py:208-229 | drain then prune: every old record has its drained slot, and the registry keeps exactly the connected ones |
| Server.World.Intake | src/bulllet_hell_rl/net/server.py:208-239 | the queue is cleared; every old record ends with the reference drain of the batch from its old slot; the registry keeps exactly the connected records; the clock advances by 1000/60 ms; an enemy at the drawn position, with Enemy.__init__'s fields, joins the end exactly when the spawn interval has elapsed, whether or not anyone is connected; the old enemies are untouched |
| Server.World.MovePlayers | src/bulllet_hell_rl/net/server.py:247-260 | every record's turn went as recorded, driven by its latest flat action, from its player's start pose to its end pose and from the old list to the new one; enemies are untouched; every bullet is old or fresh |
| Server.World.MoveEnemies | src/bulllet_hell_rl/net/server.py:262-278 | every enemy's turn went as recorded against the players' poses, from the old list to the new one; the enemies left are exactly the living old ones, in order; the players are untouched |
| Server.World.MoveBullets | src/bulllet_hell_rl/net/server.py:280-284 | every bullet moves by its velocity, and the list becomes exactly its bullets still on screen, in order; players and enemies are untouched |
| Server.World.Broadcast | src/bulllet_hell_rl/net/server.py:286-306 | each record gets its snapshot and a failed send disconnects it; players and bullets are untouched |
| Server.World.Clash | src/bulllet_hell_rl/net/server.py:247-278 | the player pass, then the enemy pass against the players where the player pass left them, taking the list on from there: every record's turn and every enemy's turn went as recorded from its start pose, each player hit by the reference hits where it then stood and each targeting enemy likewise; the enemies left are exactly those whose recorded end pose has health |
| Server.World.Fight | src/bulllet_hell_rl/net/server.py:247-278 | the passes as in `Clash`, with every player's and every targeting enemy's collision stated against the snapshot `at` of where the bullets stood, which the old bullets already stood at before the tick |
| Server.World.Move | src/bulllet_hell_rl/net/server.py:247-284 | the player and enemy passes as in `Fight`, each turn from its start pose and its collision against `at`; then the bullet pass: the bullets kept are those of the enemy pass's list still on screen after flying on from `at` |
| Server.World.Play | src/bulllet_hell_rl/net/server.py:247-306 | the world moves as `Move` states, collisions included; then every record, in registry order, is sent its snapshot of the moved world, and a failed send marks it disconnected; latest actions are kept |
| Server.World.Run | src/bulllet_hell_rl/net/server.py:241-306 | with nobody connected nothing moves and nothing is sent; otherwise every record's and every enemy's turn went as recorded from its start pose, each collision against the snapshot `at` of where the bullets stood, the bullets kept flew on from `at`, and every record is sent its snapshot of the result; the registry, clock and spawn timer are unchanged |
| Server.World.Tick | src/bulllet_hell_rl/net/server.py:207-308 | one tick: the queue is drained and emptied, every old record gets its drained slot and is kept iff it is still connected; the clock advances; an enemy spawns at the drawn position exactly when due; with nobody connected nothing is sent and nothing moves; otherwise every record's turn goes from its player's pose and every enemy's turn from its old pose (the spawned one's from its spawn pose) as recorded, each hit by the reference hits where it then stood with the bullets where they stood before the tick (`at`), the bullets kept flew on from `at` and are on screen, each record gets its snapshot of the result and is marked disconnected exactly when its send failed |
| Env.SqDist | src/bulllet_hell_rl/envs/BulletHellEnv.py:356 | the squared distance is non-negative and zero exactly at the reference point |
| Env.Insert | src/bulllet_hell_rl/envs/BulletHellEnv.py:354-357 | inserting adds exactly one element to the multiset |
| Env.SortedByKey | src/bulllet_hell_rl/envs/BulletHellEnv.py:354-357 | `sorted` is a permutation of its input |
| Env.SortedIsAscending | src/bulllet_hell_rl/envs/BulletHellEnv.py:354-357 | `sorted` is non-decreasing in the key |
| Env.SortedIsStable | src/bulllet_hell_rl/envs/BulletHellEnv.py:354-357 | `sorted` is stable: the entries with equal key keep their input order |
| Env.PrefixLength | src/bulllet_hell_rl/envs/BulletHellEnv.py:359 | the length of Python's `[:n]`: min(n, len) for n >= 0, and len + n, at least 0, for negative n |
| Env.Closest | src/bulllet_hell_rl/envs/BulletHellEnv.py:349-359 | `get_closest_entities` is [] for an empty list; otherwise it has the slice's length and holds only input elements |
| Env.ClosestIsSubMultiset | src/bulllet_hell_rl/envs/BulletHellEnv.py:354-359 | the result is a sub-multiset of the input |
| Env.ClosestIsAscending | src/bulllet_hell_rl/envs/BulletHellEnv.py:354-359 | the result is non-decreasing in squared distance |
| Env.ClosestAreNearest | src/bulllet_hell_rl/envs/BulletHellEnv.py:354-359 | every entity returned is at least as near as every entity left out |
| Env.ClosestIsStable | src/bulllet_hell_rl/envs/BulletHellEnv.py:354-359 | among equally distant entities, the ones returned are the first of them in input order |
| Env.EnemyDistance | src/bulllet_hell_rl/envs/BulletHellEnv.py:252 | the sort key of the enemies is their squared distance to the player |
| Env.BulletDistance | src/bulllet_hell_rl/envs/BulletHellEnv.py:232 | the sort key of the bullets is their squared distance to the player |
| Env.Hostile | src/bulllet_hell_rl/envs/BulletHellEnv.py:234 | the friendly filter keeps exactly the non-friendly bullets, in a list no longer than its input |
| Env.HostileOfFriendly | src/bulllet_hell_rl/envs/BulletHellEnv.py:234 | a list of friendly bullets filters to [] |
| Env.ObservedBullets | src/bulllet_hell_rl/envs/BulletHellEnv.py:232-238 | at most 10 observed bullets, each an enemy bullet of the world |
| Env.FewBulletsAllSeen | src/bulllet_hell_rl/envs/BulletHellEnv.py:232-238 | with at most 10 bullets in the world, every enemy bullet is observed |
| Env.FriendlyCrowdHidesHostile | src/bulllet_hell_rl/envs/BulletHellEnv.py:232-234 | when the 10 nearest bullets are all friendly no bullet is observed, however many enemy bullets lie further out, because truncation comes before the filter |
| Env.InCentreIsMiddleHalf | src/bulllet_hell_rl/envs/BulletHellEnv.py:275-283 | `is_player_in_center` holds iff W/4 < x < 3W/4 and H/4 < y < 3H/4, with strict bounds |
| Env.InCentre | src/bulllet_hell_rl/envs/BulletHellEnv.py:275-283 | `is_player_in_center` holds exactly on the open square 125 < x < 375, 125 < y < 375 of the 500 x 500 world |
| Env.InCentreOnGrid | src/bulllet_hell_rl/envs/BulletHellEnv.py:275-283 | on integer positions the centre is 126..374 on both axes |
| Env.Reward | src/bulllet_hell_rl/envs/BulletHellEnv.py:284-309 | the first match wins: 50 iff the kill count rose; -100 iff not and health dropped; 10 iff neither and in the centre; 1 otherwise. Only the branch taken updates its "previous" value |
| Env.HitDuringKillIsPenalisedNext | src/bulllet_hell_rl/envs/BulletHellEnv.py:289-299 | a hit in the same step as a kill is not lost: it earns -100 on the next step |
| Env.RewardSettles | src/bulllet_hell_rl/envs/BulletHellEnv.py:289-309 | on a repeat of the same state the second reward is -100 when the first was a kill with a hit, and the centre reward otherwise |
| Env.BulletHellEnv.Observe | src/bulllet_hell_rl/envs/BulletHellEnv.py:232-273 | the observation is the player's health and position, its 5 nearest enemies and the enemy bullets among its 10 nearest bullets |
| Env.BulletHellEnv.constructor | src/bulllet_hell_rl/envs/BulletHellEnv.py:96-104 | `__init__` and `reset`: clock and step count at 0, a fresh player, three enemies, no bullets, previous health 100, previous kill count 0 |
| Env.BulletHellEnv.ResetAsWritten | src/bulllet_hell_rl/envs/BulletHellEnv.py:361-430 | `reset` as written: clock, player, enemies and bullets restart, but the previous health and kill count carry over from the last episode |
| Env.BulletHellEnv.Restart | src/bulllet_hell_rl/envs/BulletHellEnv.py:368-393 | the world state `reset` rebuilds |
| Env.BulletHellEnv.RestartClock | src/bulllet_hell_rl/envs/BulletHellEnv.py:369-386 | step count, both times and the spawn timer restart, with a newly drawn interval |
| Env.BulletHellEnv.NewPlayer | src/bulllet_hell_rl/envs/BulletHellEnv.py:374-379 | a fresh player at the drawn position with full health and no kills |
| Env.BulletHellEnv.NewEnemies | src/bulllet_hell_rl/envs/BulletHellEnv.py:381-393 | three fresh enemies at the drawn positions and an empty bullet list |
| Env.BulletHellEnv.Reset | src/bulllet_hell_rl/envs/BulletHellEnv.py:361-430 | the corrected `reset` also restores previous health 100 and previous kill count 0, as `__init__` does |
| Env.BulletHellEnv.Clock | src/bulllet_hell_rl/envs/BulletHellEnv.py:164-169 | each step advances the clock by exactly 60 ms and sets the previous time to it |
| Env.BulletHellEnv.SpawnEnemy | src/bulllet_hell_rl/envs/BulletHellEnv.py:172-178 | exactly one enemy joins the end iff the spawn interval has elapsed, and then the timer and interval restart |
| Env.BulletHellEnv.Score | src/bulllet_hell_rl/envs/BulletHellEnv.py:284-324 | the kill events are counted, the reward is the cascade's, terminated iff health <= 0, truncated iff the step count was at least 10000 before the increment |
| Env.BulletHellEnv.Play | src/bulllet_hell_rl/envs/BulletHellEnv.py:164-344 | `step` without the entity updates: clock, spawn (never already overdue), reward, flags and info; truncated iff the clock passed 600000 ms; with kills recorded, 50 iff there were kill events |
| Env.BulletHellEnv.Step | src/bulllet_hell_rl/envs/BulletHellEnv.py:157-347 | the same, with the observation of the resulting state |
| Env.StaleHealthHidesHits | src/bulllet_hell_rl/envs/BulletHellEnv.py:297-299 | with the previous health left at 0 by the last episode, a hit from 100 to 90 at the edge earns 1, not -100 |
| Env.StaleKillCountHidesKills | src/bulllet_hell_rl/envs/BulletHellEnv.py:289-291 | with the previous kill count left at 3, the new episode's first kill earns 1, not 50 |
| Env.FreshEpisodeCountsFirstKillAndHit | src/bulllet_hell_rl/envs/BulletHellEnv.py:96-97 | from the corrected reset values, any kill earns 50 and otherwise any hit earns -100 |
| Client.KeysToFlatAction | src/bulllet_hell_rl/net/client.py:35-55 | always in [0, 19]; decoding it gives the move by the priority left/a > right/d > up/w > down/s > none, and the aim by 2 > 3 > 4 > 0 degrees |
| Client.MoveOfKeys | src/bulllet_hell_rl/net/client.py:37-46 | the move index follows the key priority |
| Client.AimIndexOfKeys | src/bulllet_hell_rl/net/client.py:47-54 | the aim index follows the key priority, with default 0 |
| Client.NoKeysSendsDefault | src/bulllet_hell_rl/net/client.py:31-32 | with no key pressed the client sends DEFAULT_FLAT_ACTION = 16: no move, aim 0 |
| Client.CameraOffset | src/bulllet_hell_rl/net/client.py:185-188 | the camera is non-negative; it is at most world - screen when the world is at least as wide as the screen, 0 when it is not, and centred on the player when that fits |
| Client.DefaultCameraIsFixed | src/bulllet_hell_rl/net/client.py:185-188 | with the default 500-wide world and screen the camera is always 0; the environment's render clamp (world extent equal to the screen's) is this case |

## Left out

- Sockets, threads, locks, `time.sleep` and `settimeout`. These are concurrency and I/O. A socket is its unread inbound bytes and its written outbound bytes. The reader thread is a loop run to its end on one socket's stream. Interleaving of threads is not modelled.
- The reader thread's `finally: sock.close()` and the socket closing after refusals. Closing has no effect on the modelled state.
- JSON encoding and decoding. These are library calls, modelled as `parse`/`encode` functions on bytes. A message that decodes but is not a JSON object is `NotAnObject`.
- A payload that is not valid UTF-8. It raises `UnicodeDecodeError` (protocol.py:77), which is not among the exceptions `recv_message` catches (protocol.py:78). The model folds it into the oracle, as a parse that returns None.
- Server.AdmissionAsWritten: the `UnicodeDecodeError` of a first message that is not UTF-8 is not caught by `accept_loop` either (server.py:166-172), so as written it ends the accept loop. The model treats that message as no message and refuses it, so its claim "every other arrival is answered" does not cover this case.
- Server.ReaderEntries: the same error in a joined client's reader thread escapes the `except OSError` at server.py:88. The thread ends without queueing the final `(cid, None)`, and the record is never marked disconnected. The model's "exactly one `(cid, None)` at the end" does not hold for such a stream.
- Server.World.Accept: the `send_message` calls for the two refusals and the welcome (server.py:174, 178, 187) are not guarded. If one of them fails, the `OSError` ends `accept_loop`; in the welcome case the record was already added at line 186. The model's sends always complete, and a failed welcome is not modelled.
- Server.Steered: the server calls the root `Player.shoot` (bullethell.py:154-161), which redraws the aim from the random `AimDraw` before the bullet is made. So the aim decoded from the flat action is stored and then overwritten by `Fire` in the same turn, and it never reaches a bullet; `PlayerTurned` records this as `q.aimAngle == (if due then aim else decoded)`. The unseen `src/bulllet_hell_rl/bullethell.py` may shoot along the decoded aim instead.
- BulletHell.Bullet.IsOffScreen: its contract states only that a bullet on the closed square [0, 500] x [0, 500] is not off screen. The converse, that a bullet is off screen exactly when it leaves that square, is the lemma `OnWorldIsClosedSquare`. The two-way form as an `ensures` makes the server's tick proof too costly.
- BulletHell.Hits: its contract states only that the hits are never more than the bullets scanned. The exact hit list (the opposing overlapping bullets, in order) is the lemma `HitsAreOverlappingOpponents`, for the same cost reason.
- `struct.pack` raising `struct.error` on payloads of 4 GiB or more. `SendMessage` writes nothing and returns false for them.
- The server's and the environment's use of the unseen `src/bulllet_hell_rl/bullethell.py`, with its `delta_time` signatures and `is_env` flag. `src/bulllet_hell_rl/bullethell.py` is not part of this model. The server calls are modelled as the root `bullethell.py` operations: `Drive` with an action, and `UpdatePosition` for an enemy with no target.
- Floating point.
  - Bullet velocity from `cos`/`sin` and enemy aim from `atan2` are the `Trig` oracle. Bullet velocity is an integer pair, so positions stay integers.
  - `delta_time` scaling is not modelled, and the world moves by whole steps.
  - The server clock is a `real` advanced by 1000/60.
- BulletHell.Entity.PlayerShoot: the player's random aim is a whole number of degrees in [0, 360] rather than `random.uniform`'s float.
- Env.BulletHellEnv.Play: the player, enemy and bullet updates of `step` (BulletHellEnv.py:194-227) are left out. They call the unseen file's `update(delta_time, ...)`. The state is the player's health and position, and the world's lists as they are. `BulletHell.Game` models the shown file's versions of those updates.
- Env.BulletHellEnv.Score: `ENEMY_KILLED` events from `pygame.event.get()` are the parameter `killEvents`. The player's `kill_count` is the environment's field `killCount`.
- Env.BulletHellEnv.Observe: numpy arrays, zero padding and normalisation are left out. The observation holds the selected entities themselves, not their scaled coordinates.
- Env.BulletHellEnv.Step: `info["dt"]` is kept in milliseconds (60). The source divides it by 1000.
- The gym `action_space`/`observation_space` machinery and the `action_space.contains` and `state is not None` assertions of `step`.
- Rendering: the environment's `render`, the client's drawing loop, pygame events and the window. Only the client's camera clamp is modelled, and the environment's clamp is its equal-extent case.
- The client's connection, handshake and receive thread. These are I/O around the modelled key mapping.
- The print statements, `"hit enemy"` and `"Game Over!"`.
- BulletHell.Entity.IsColliding: pygame's `Rect.colliderect` is the overlap test of two squares with integer corners.

## Findings

| source | as written | input that shows it | evidently intended | confidence | as-written member | corrected member |
|---|---|---|---|---|---|---|
| src/bulllet_hell_rl/net/server.py:173 | `msg.get("type")` is called on whatever `json.loads` returned | a first message whose payload is the JSON number `5` (or a list, or a string): `int` has no `get`, the `AttributeError` escapes and ends `accept_loop`, so no later client can join; the same payload sent after joining reaches `msg.get` at line 218 and ends the server loop for everyone | a decoded value that is not an object is refused with "expected join" at admission and ignored in the drain, like any other non-join or non-action message | not executed | Server.AdmissionAsWritten, Server.NonObjectFirstMessageEndsAccepting, Server.DrainedAsWrittenAgrees, Server.NonObjectEndsTick | Server.Admission, Server.World.Accept, Server.World.DrainQueue |
| src/bulllet_hell_rl/envs/BulletHellEnv.py:361-393 | `reset` restores the world but not `player_previous_health` or `player_previous_kill_count`, which only `__init__` sets (lines 96-97) | an episode that ends with the player at health 0 after 3 kills, then `reset`: a hit from 100 to 90 earns 1 instead of -100, and the new episode's first kill earns 1 instead of 50 | every episode starts from previous health 100 and previous kill count 0 | not executed | Env.BulletHellEnv.ResetAsWritten, Env.StaleHealthHidesHits, Env.StaleKillCountHidesKills | Env.BulletHellEnv.Reset, Env.FreshEpisodeCountsFirstKillAndHit |
